/** The widget's `escapeHTML`: five `replaceAll` calls, `&` first, so that a
    message can be placed inside markup. */
module HtmlEscape {

  /** `s.replaceAll(c, rep)` for a one-character pattern `c`. */
  function ReplaceAll(s: string, c: char, rep: string): (r: string)
  {
    if s == [] then [] else (if s[0] == c then rep else [s[0]]) + ReplaceAll(s[1..], c, rep)
  }

  /** Replacing distributes over concatenation. */
  lemma {:induction false} ReplaceAllAppend(a: string, b: string, c: char, rep: string)
    ensures ReplaceAll(a + b, c, rep) == ReplaceAll(a, c, rep) + ReplaceAll(b, c, rep)
  {
    if a != [] {
      assert (a + b)[1..] == a[1..] + b;
      ReplaceAllAppend(a[1..], b, c, rep);
    } else {
      assert a + b == b;
    }
  }

  /** Replacing a character that does not occur changes nothing. */
  lemma {:induction false} ReplaceAllAbsent(s: string, c: char, rep: string)
    requires c !in s
    ensures ReplaceAll(s, c, rep) == s
  {
    if s != [] {
      assert s[0] != c && c !in s[1..];
      ReplaceAllAbsent(s[1..], c, rep);
    }
  }

  /** `escapeHTML(str)`, the five replacements in source order. */
  function EscapeHTML(s: string): string
  {
    var amp := ReplaceAll(s, '&', "&amp;");
    var lt := ReplaceAll(amp, '<', "&lt;");
    var gt := ReplaceAll(lt, '>', "&gt;");
    var quot := ReplaceAll(gt, '"', "&quot;");
    ReplaceAll(quot, '\'', "&#039;")
  }

  /** The entity each special character becomes; other characters stay. */
  function EscapeChar(c: char): (e: string)
  {
    match c
    case '&' => "&amp;"
    case '<' => "&lt;"
    case '>' => "&gt;"
    case '"' => "&quot;"
    case '\'' => "&#039;"
    case _ => [c]
  }

  /** Escaping one character at a time, left to right. */
  function EscapeEach(s: string): (r: string)
  {
    if s == [] then [] else EscapeChar(s[0]) + EscapeEach(s[1..])
  }

  /** The characters the escape removes from the text. */
  predicate IsMarkupChar(c: char)
  {
    c == '<' || c == '>' || c == '"' || c == '\''
  }

  predicate HasPrefix(t: string, p: string)
  {
    |p| <= |t| && t[..|p|] == p
  }

  /** `t` begins with one of the five entities `escapeHTML` produces. */
  predicate StartsWithEntity(t: string)
  {
    HasPrefix(t, "&amp;") || HasPrefix(t, "&lt;") || HasPrefix(t, "&gt;")
    || HasPrefix(t, "&quot;") || HasPrefix(t, "&#039;")
  }

  /** What a safe escape guarantees: no raw `<`, `>`, `"` or `'`, and every `&`
      begins an entity. */
  predicate IsEscaped(r: string)
  {
    && (forall i :: 0 <= i < |r| ==> !IsMarkupChar(r[i]))
    && (forall i :: 0 <= i < |r| && r[i] == '&' ==> StartsWithEntity(r[i..]))
  }

  lemma ReplaceAllSingle(c: char, d: char, rep: string)
    ensures ReplaceAll([c], d, rep) == if c == d then rep else [c]
  {
    assert [c][1..] == [];
  }

  /** The stages after the one that produced `e` leave the entity `e` alone. */
  lemma LaterStagesKeep(e: string)
    requires '&' in e && forall i :: 0 <= i < |e| ==> !IsMarkupChar(e[i])
    ensures ReplaceAll(e, '<', "&lt;") == e && ReplaceAll(e, '>', "&gt;") == e
    ensures ReplaceAll(e, '"', "&quot;") == e && ReplaceAll(e, '\'', "&#039;") == e
  {
    ReplaceAllAbsent(e, '<', "&lt;");
    ReplaceAllAbsent(e, '>', "&gt;");
    ReplaceAllAbsent(e, '"', "&quot;");
    ReplaceAllAbsent(e, '\'', "&#039;");
  }

  /** The five chained replacements act on a single character as `EscapeChar` does. */
  lemma EscapeHTMLOneChar(c: char)
    ensures EscapeHTML([c]) == EscapeChar(c)
  {
    var e := EscapeChar(c);
    ReplaceAllSingle(c, '&', "&amp;");
    if c == '&' {
      LaterStagesKeep(e);
    } else {
      ReplaceAllSingle(c, '<', "&lt;");
      if c == '<' {
        LaterStagesKeep(e);
      } else {
        ReplaceAllSingle(c, '>', "&gt;");
        if c == '>' {
          LaterStagesKeep(e);
        } else {
          ReplaceAllSingle(c, '"', "&quot;");
          if c == '"' {
            LaterStagesKeep(e);
          } else {
            ReplaceAllSingle(c, '\'', "&#039;");
          }
        }
      }
    }
  }

  /** Because `&` is replaced first, the chain of `replaceAll` calls is the same
      as escaping each character on its own: no entity is escaped twice. */
  lemma {:induction false} EscapeHTMLIsPerChar(s: string)
    ensures EscapeHTML(s) == EscapeEach(s)
  {
    if s != [] {
      var c, rest := s[0], s[1..];
      assert s == [c] + rest;
      var amp1, amp2 := ReplaceAll([c], '&', "&amp;"), ReplaceAll(rest, '&', "&amp;");
      ReplaceAllAppend([c], rest, '&', "&amp;");
      var lt1, lt2 := ReplaceAll(amp1, '<', "&lt;"), ReplaceAll(amp2, '<', "&lt;");
      ReplaceAllAppend(amp1, amp2, '<', "&lt;");
      var gt1, gt2 := ReplaceAll(lt1, '>', "&gt;"), ReplaceAll(lt2, '>', "&gt;");
      ReplaceAllAppend(lt1, lt2, '>', "&gt;");
      var q1, q2 := ReplaceAll(gt1, '"', "&quot;"), ReplaceAll(gt2, '"', "&quot;");
      ReplaceAllAppend(gt1, gt2, '"', "&quot;");
      ReplaceAllAppend(q1, q2, '\'', "&#039;");
      assert EscapeHTML(s) == EscapeHTML([c]) + EscapeHTML(rest);
      EscapeHTMLOneChar(c);
      EscapeHTMLIsPerChar(rest);
    }
  }

  /** Prepending one escaped character keeps the output escaped. */
  lemma EscapedCons(c: char, t: string)
    requires IsEscaped(t)
    ensures IsEscaped(EscapeChar(c) + t)
  {
    var e := EscapeChar(c);
    var r := e + t;
    forall i | 0 <= i < |r|
      ensures !IsMarkupChar(r[i])
      ensures r[i] == '&' ==> StartsWithEntity(r[i..])
    {
      if i < |e| {
        assert r[i] == e[i];
        if r[i] == '&' {
          assert i == 0;
          assert r[..|e|] == e;
        }
      } else {
        assert r[i] == t[i - |e|];
        assert r[i..] == t[i - |e|..];
      }
    }
  }

  /** `escapeHTML` output contains no raw `<`, `>`, `"` or `'`, and every `&` in it
      begins one of the five entities. */
  lemma EscapeHTMLIsSafe(s: string)
    ensures IsEscaped(EscapeHTML(s))
  {
    EscapeHTMLIsPerChar(s);
    EscapeEachIsEscaped(s);
  }

  lemma {:induction false} EscapeEachIsEscaped(s: string)
    ensures IsEscaped(EscapeEach(s))
  {
    if s != [] {
      EscapeEachIsEscaped(s[1..]);
      EscapedCons(s[0], EscapeEach(s[1..]));
    }
  }

  /** Reading the markup back: each entity becomes its character again. */
  function Unescape(t: string): (s: string)
    decreases |t|
  {
    if t == [] then []
    else if HasPrefix(t, "&amp;") then "&" + Unescape(t[5..])
    else if HasPrefix(t, "&lt;") then "<" + Unescape(t[4..])
    else if HasPrefix(t, "&gt;") then ">" + Unescape(t[4..])
    else if HasPrefix(t, "&quot;") then "\"" + Unescape(t[6..])
    else if HasPrefix(t, "&#039;") then "'" + Unescape(t[6..])
    else [t[0]] + Unescape(t[1..])
  }

  lemma UnescapeCons(c: char, t: string)
    ensures Unescape(EscapeChar(c) + t) == [c] + Unescape(t)
  {
    var e := EscapeChar(c);
    var r := e + t;
    assert r[..|e|] == e && r[|e|..] == t;
    assert r[0] == e[0];
    if c == '&' {
      assert HasPrefix(r, "&amp;");
    } else if IsMarkupChar(c) {
      assert r[1] == e[1];
      UnescapeEntity(c, r, e, t);
    } else {
      assert e == [c] && r[0] != '&';
      assert !StartsWithEntity(r);
    }
  }

  /** An entity other than `&amp;` is read back by its own branch of `Unescape`. */
  lemma UnescapeEntity(c: char, r: string, e: string, t: string)
    requires IsMarkupChar(c) && e == EscapeChar(c) && r == e + t
    requires r[..|e|] == e && r[|e|..] == t && r[1] == e[1]
    ensures Unescape(r) == [c] + Unescape(t)
  {
    assert !HasPrefix(r, "&amp;");
    if c == '<' {
      assert HasPrefix(r, "&lt;");
    } else if c == '>' {
      assert !HasPrefix(r, "&lt;");
      assert HasPrefix(r, "&gt;");
    } else if c == '"' {
      assert !HasPrefix(r, "&lt;") && !HasPrefix(r, "&gt;");
      assert HasPrefix(r, "&quot;");
    } else {
      assert !HasPrefix(r, "&lt;") && !HasPrefix(r, "&gt;") && !HasPrefix(r, "&quot;");
      assert HasPrefix(r, "&#039;");
    }
  }

  /** Escaping loses nothing: the original text can be read back from it. */
  lemma UnescapeEscapeHTML(s: string)
    ensures Unescape(EscapeHTML(s)) == s
  {
    EscapeHTMLIsPerChar(s);
    UnescapeEscapeEach(s);
  }

  lemma {:induction false} UnescapeEscapeEach(s: string)
    ensures Unescape(EscapeEach(s)) == s
  {
    if s != [] {
      UnescapeCons(s[0], EscapeEach(s[1..]));
      UnescapeEscapeEach(s[1..]);
      assert s == [s[0]] + s[1..];
    }
  }

  /** Text without special characters is left as it is. */
  lemma EscapeHTMLPlainText(s: string)
    requires forall i :: 0 <= i < |s| ==> !IsMarkupChar(s[i]) && s[i] != '&'
    ensures EscapeHTML(s) == s
  {
    EscapeHTMLIsPerChar(s);
    EscapeEachPlain(s);
  }

  lemma {:induction false} EscapeEachPlain(s: string)
    requires forall i :: 0 <= i < |s| ==> !IsMarkupChar(s[i]) && s[i] != '&'
    ensures EscapeEach(s) == s
  {
    if s != [] {
      EscapeEachPlain(s[1..]);
      assert s == [s[0]] + s[1..];
    }
  }
}
