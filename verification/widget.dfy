/** The `<ai-image-widget>` custom element: its single current artifact (blob,
    object URL, format), the `generate` flow split at its one `await`, the
    clear and download handlers, `setBusy`, and the background/format rule.
    The DOM is reduced to the values the code reads and writes; `fetch`,
    `atob` and `URL.createObjectURL` are inputs. */
module Widget {
  import opened Wrappers
  import opened JsText

  /** A handle returned by `URL.createObjectURL`. */
  datatype ObjectUrl = ObjectUrl(id: nat)

  /** The calls the widget makes on the browser's object-URL registry, in order. */
  datatype UrlEvent = Created(url: ObjectUrl) | Revoked(url: ObjectUrl)

  /** One element of a `Uint8Array`. */
  newtype Byte = n: int | 0 <= n < 256

  /** The in-memory image: its bytes and MIME type. */
  datatype Blob = Blob(bytes: seq<Byte>, mime: string)

  /** The `kind` argument of `setStatus`. */
  datatype StatusKind = Plain | Loading | Ok | Error

  datatype Status = Status(message: string, kind: StatusKind)

  /** The `disabled` flags of the ten controls `setBusy` assigns. */
  datatype Controls = Controls(
    generate: bool, regenerate: bool, clear: bool, download: bool,
    prompt: bool, size: bool, quality: bool, background: bool, format: bool, filename: bool)

  /** The JSON body sent to the endpoint. */
  datatype Payload = Payload(
    prompt: string, size: string, quality: string, background: string, outputFormat: string)

  /** The fields the widget reads from the reply's JSON body; every field is
      absent when the body is not JSON (`res.json()` fails and `{}` is used). */
  datatype ReplyBody = ReplyBody(
    error: Option<string>, b64: Option<string>, outputFormat: Option<string>,
    size: Option<string>, quality: Option<string>)

  /** What `fetch` produces: a rejection with an error message, or an HTTP reply. */
  datatype Reply = FetchFailed(message: string) | HttpReply(status: nat, body: ReplyBody)

  /** How a reply ends the `try` block: an artifact to install, or the message
      the `catch` block shows. */
  datatype Outcome =
    | Install(binary: string, format: string, size: string, quality: string)
    | Fail(message: string)

  /** What a click on Download hands to the temporary anchor. */
  datatype DownloadAction = DownloadAction(href: ObjectUrl, fileName: string)

  /** Inputs that change without a handler of their own. */
  datatype PlainInput = SizeInput | QualityInput | FilenameInput

  const DefaultFileBase := "generated-image"
  const EnterPrompt := "Please enter a prompt."
  const Generating := "Generating image\U{2026}"
  const Finished := "Done."
  const SwitchedToPng := "Switched format to PNG for transparent background."
  const NoImageReturned := "No image returned."
  const GenerationFailed := "Generation failed."

  /** The option values of the size, quality, background and format selects. */
  const SizeOptions: set<string> := {"1024x1024", "1536x1024", "1024x1536", "auto"}
  const QualityOptions: set<string> := {"auto", "high", "medium", "low"}
  const BackgroundOptions: set<string> := {"auto", "opaque", "transparent"}
  const FormatOptions: set<string> := {"png", "jpeg", "webp"}

  /** Every control disabled. */
  predicate AllDisabled(c: Controls)
  {
    c.generate && c.regenerate && c.clear && c.download
    && c.prompt && c.size && c.quality && c.background && c.format && c.filename
  }

  /** The flags `setBusy(busy)` leaves behind, given whether the trimmed prompt
      is empty and whether a blob is held. */
  function ControlsFor(busy: bool, promptBlank: bool, hasBlob: bool): (c: Controls)
    ensures busy ==> AllDisabled(c)
    ensures !busy ==> (!c.generate && !c.clear
      && !c.prompt && !c.size && !c.quality && !c.background && !c.format && !c.filename)
    ensures !busy ==> (c.download <==> !hasBlob)
    ensures !busy ==> (c.regenerate <==> promptBlank)
  {
    Controls(
      busy, busy || promptBlank, busy, busy || !hasBlob,
      busy, busy, busy, busy, busy, busy)
  }

  /** The client's compatibility rule: jpeg under a transparent background
      becomes png; any other pair is left as it is. */
  function CorrectedFormat(background: string, format: string): (f: string)
    ensures !(background == "transparent" && f == "jpeg")
    ensures background == "transparent" && format == "jpeg" ==> f == "png"
    ensures !(background == "transparent" && format == "jpeg") ==> f == format
  {
    if background == "transparent" && format == "jpeg" then "png" else format
  }

  /** The request `generate` sends for the current form values, or None when the
      trimmed prompt is empty and nothing is sent. */
  function BuildPayload(prompt: string, size: string, quality: string, background: string, format: string)
    : (p: Option<Payload>)
    ensures p.None? <==> Trim(prompt) == []
    ensures p.Some? ==> p.value.prompt == Trim(prompt) && p.value.prompt != [] && IsTrimmed(p.value.prompt)
    ensures p.Some? ==> p.value.size == size && p.value.quality == quality && p.value.background == background
    ensures p.Some? ==> p.value.outputFormat == CorrectedFormat(background, format)
    ensures p.Some? ==> !(p.value.background == "transparent" && p.value.outputFormat == "jpeg")
  {
    var text := Trim(prompt);
    if text == [] then None
    else Some(Payload(text, size, quality, background, CorrectedFormat(background, format)))
  }

  /** `res.ok`: a status in the 2xx range. */
  predicate IsOk(status: nat)
  {
    200 <= status <= 299
  }

  /** The `try`/`catch` of `generate` after the request was sent: which error is
      thrown, or what gets installed. `atob` may throw, with a message. */
  function InterpretReply(reply: Reply, payload: Payload, atob: string -> Result<string, string>)
    : (o: Outcome)
    ensures o.Fail? ==> o.message != []
    ensures o.Install? <==>
      reply.HttpReply? && IsOk(reply.status) && Truthy(reply.body.b64)
      && atob(reply.body.b64.value).Success?
    ensures o.Install? ==>
      && o.binary == atob(reply.body.b64.value).value
      && o.format == OrElse(reply.body.outputFormat, payload.outputFormat)
      && o.size == OrElse(reply.body.size, payload.size)
      && o.quality == OrElse(reply.body.quality, payload.quality)
    ensures reply.HttpReply? && !IsOk(reply.status) ==>
      o == Fail(OrElse(reply.body.error, "Request failed (" + DecimalString(reply.status) + ")"))
    ensures reply.HttpReply? && IsOk(reply.status) && !Truthy(reply.body.b64) ==> o == Fail(NoImageReturned)
    ensures reply.FetchFailed? ==> o == Fail(Or(reply.message, GenerationFailed))
    ensures (reply.HttpReply? && IsOk(reply.status) && Truthy(reply.body.b64)
             && atob(reply.body.b64.value).Failure?) ==>
      o == Fail(Or(atob(reply.body.b64.value).error, GenerationFailed))
  {
    match reply
    case FetchFailed(message) => Fail(Or(message, GenerationFailed))
    case HttpReply(status, body) =>
      if !IsOk(status) then
        Fail(OrElse(body.error, "Request failed (" + DecimalString(status) + ")"))
      else
        var fmt := OrElse(body.outputFormat, payload.outputFormat);
        if !Truthy(body.b64) then Fail(NoImageReturned)
        else
          match atob(body.b64.value)
          case Failure(message) => Fail(Or(message, GenerationFailed))
          case Success(binary) =>
            Install(binary, fmt, OrElse(body.size, payload.size), OrElse(body.quality, payload.quality))
  }

  /** The MIME type of the blob; both branches of the source's conditional give
      `image/` followed by the format. */
  function MimeType(format: string): (m: string)
    ensures m == "image/" + format
  {
    if format == "jpeg" then "image/jpeg" else "image/" + format
  }

  /** The preview summary: size, upper-cased format and quality. */
  function MetaText(size: string, format: string, quality: string): string
  {
    size + " \U{2022} " + ToUpperAscii(format) + " \U{2022} " + quality
  }

  /** The file extension for a format: jpeg is saved as .jpg. */
  function Extension(format: string): (e: string)
    ensures format == "jpeg" ==> e == "jpg"
    ensures format != "jpeg" ==> e == format
  {
    if format == "jpeg" then "jpg" else format
  }

  /** The download file name: the trimmed name field, or "generated-image" when
      it is blank, then a dot and the extension. */
  function DownloadName(filename: string, format: string): (name: string)
    ensures Trim(filename) != [] ==> name == Trim(filename) + "." + Extension(format)
    ensures Trim(filename) == [] ==> name == DefaultFileBase + "." + Extension(format)
  {
    TrimOfTrimmed(DefaultFileBase);
    var base := Or(Trim(Or(filename, DefaultFileBase)), DefaultFileBase);
    base + "." + Extension(format)
  }

  lemma DownloadNameExamples()
    ensures DownloadName("report", "jpeg") == "report.jpg"
    ensures DownloadName("", "png") == "generated-image.png"
    ensures DownloadName("  ", "webp") == "generated-image.webp"
  {
    TrimOfTrimmed("report");
    assert Trim("") == [];
    assert TrimStart("  ") == [] by {
      assert "  "[1..] == " ";
      assert " "[1..] == [];
    }
  }

  /** `Uint8Array` stores `charCodeAt(i)` modulo 256. */
  function ByteOf(c: char): (b: Byte)
    ensures c as int < 256 ==> b as int == c as int
  {
    (c as int % 256) as Byte
  }

  /** The bytes of a binary string, one per character. */
  function BinaryBytes(binary: string): (b: seq<Byte>)
  {
    seq(|binary|, i requires 0 <= i < |binary| => ByteOf(binary[i]))
  }

  /** The binary string whose characters have the given codes. */
  function BytesToBinary(b: seq<Byte>): (s: string)
  {
    seq(|b|, i requires 0 <= i < |b| => b[i] as int as char)
  }

  /** A binary string: every character below 256, as `atob` produces. */
  predicate IsBinaryString(s: string)
  {
    forall i :: 0 <= i < |s| ==> s[i] as int < 256
  }

  /** On the strings `atob` returns, the byte conversion loses nothing. */
  lemma BinaryBytesRoundTrip(s: string)
    requires IsBinaryString(s)
    ensures BytesToBinary(BinaryBytes(s)) == s
  {
    var b := BinaryBytes(s);
    forall i | 0 <= i < |s|
      ensures BytesToBinary(b)[i] == s[i]
    {
      assert b[i] as int == s[i] as int;
    }
  }

  /** The byte-copy loop of `generate`: one `Uint8Array` slot per character. */
  method DecodeBinary(binary: string) returns (bytes: array<Byte>)
    ensures fresh(bytes) && bytes.Length == |binary|
    ensures forall i :: 0 <= i < |binary| ==> bytes[i] == ByteOf(binary[i])
    ensures bytes[..] == BinaryBytes(binary)
  {
    bytes := new Byte[|binary|];
    var i := 0;
    while i < |binary|
      invariant 0 <= i <= |binary|
      invariant forall k :: 0 <= k < i ==> bytes[k] == ByteOf(binary[k])
    {
      bytes[i] := ByteOf(binary[i]);
      i := i + 1;
    }
  }

  /** The object URLs a sequence of registry calls leaves alive. */
  ghost function LiveAfter(log: seq<UrlEvent>): set<ObjectUrl>
  {
    if log == [] then {}
    else
      var before := LiveAfter(log[..|log| - 1]);
      match log[|log| - 1]
      case Created(u) => before + {u}
      case Revoked(u) => before - {u}
  }

  /** The registry call `cleanupObjectURL` makes for a current handle: a revoke
      when there is one, nothing otherwise. */
  function RevokeOf(url: Option<ObjectUrl>): (log: seq<UrlEvent>)
    ensures url.None? ==> log == []
    ensures url.Some? ==> log == [Revoked(url.value)]
  {
    match url
    case None => []
    case Some(u) => [Revoked(u)]
  }

  function HandleSet(url: Option<ObjectUrl>): set<ObjectUrl>
  {
    match url
    case None => {}
    case Some(u) => {u}
  }

  lemma LiveAfterAppend(log: seq<UrlEvent>, e: UrlEvent)
    ensures LiveAfter(log + [e]) == if e.Created? then LiveAfter(log) + {e.url} else LiveAfter(log) - {e.url}
  {
    assert (log + [e])[..|log + [e]| - 1] == log;
  }


  /** `cleanupObjectURL` on a consistent registry leaves no handle alive. */
  lemma CleanupLeavesNothingLive(log: seq<UrlEvent>, url: Option<ObjectUrl>)
    requires LiveAfter(log) == HandleSet(url)
    ensures LiveAfter(log + RevokeOf(url)) == {}
  {
    if url.Some? {
      LiveAfterAppend(log, Revoked(url.value));
    } else {
      assert log + [] == log;
    }
  }

  /** Revoking the old handle before creating the new one leaves exactly the
      new handle alive: there is never more than one. */
  lemma ReplaceLeavesOneLive(log: seq<UrlEvent>, url: Option<ObjectUrl>, next: ObjectUrl)
    requires LiveAfter(log) == HandleSet(url)
    ensures LiveAfter(log + RevokeOf(url) + [Created(next)]) == {next}
  {
    CleanupLeavesNothingLive(log, url);
    LiveAfterAppend(log + RevokeOf(url), Created(next));
  }

  /** A handle created for one download and revoked straight after it leaves
      the live handles as they were. */
  lemma TemporaryHandleLeavesLive(log: seq<UrlEvent>, temp: ObjectUrl)
    requires temp !in LiveAfter(log)
    ensures LiveAfter(log + [Created(temp), Revoked(temp)]) == LiveAfter(log)
  {
    LiveAfterAppend(log, Created(temp));
    assert log + [Created(temp), Revoked(temp)] == log + [Created(temp)] + [Revoked(temp)];
    LiveAfterAppend(log + [Created(temp)], Revoked(temp));
  }

  /** The artifact invariant: the handles the registry calls leave alive are
      exactly the current handle, if any, and a handle implies a blob. */
  ghost predicate ArtifactInvariant(url: Option<ObjectUrl>, log: seq<UrlEvent>, blob: Option<Blob>)
  {
    LiveAfter(log) == HandleSet(url) && (url.Some? ==> blob.Some?)
  }

  /** One widget instance. */
  class ImageWidget {
    // The form: the values of the prompt, select and file-name inputs.
    var prompt: string
    var size: string
    var quality: string
    var background: string
    var format: string
    var filename: string

    // The current artifact.
    var currentBlob: Option<Blob>
    var currentObjectUrl: Option<ObjectUrl>
    var currentFormat: string

    // What the page shows.
    var disabled: Controls
    var status: Status
    var meta: string
    var preview: Option<ObjectUrl>

    // A `generate` call suspended at its `await`, with the payload it sent.
    var busy: bool
    var inFlight: Option<Payload>

    // The registry calls this instance made, in order; the handles they leave
    // alive are `LiveAfter(urlLog)`.
    ghost var urlLog: seq<UrlEvent>

    /** The artifact invariant holds; busy exactly while a request is
        outstanding; the controls are what `setBusy` would set for the current
        prompt, busy state and blob. */
    ghost predicate Valid()
      reads this
    {
      && ArtifactInvariant(currentObjectUrl, urlLog, currentBlob)
      && (busy <==> inFlight.Some?)
      && disabled == ControlsFor(busy, Trim(prompt) == [], currentBlob.Some?)
    }

    /** A freshly rendered widget: default form values, no artifact, format png,
        Regenerate and Download disabled. */
    constructor ()
      ensures Valid()
      ensures prompt == [] && size == "1024x1024" && quality == "auto"
      ensures background == "auto" && format == "png" && filename == DefaultFileBase
      ensures currentBlob == None && currentObjectUrl == None && currentFormat == "png"
      ensures !busy && inFlight == None && urlLog == []
      ensures disabled.regenerate && disabled.download && !disabled.generate
    {
      prompt, size, quality := [], "1024x1024", "auto";
      background, format, filename := "auto", "png", DefaultFileBase;
      currentBlob, currentObjectUrl, currentFormat := None, None, "png";
      disabled := ControlsFor(false, true, false);
      status, meta, preview := Status([], Plain), [], None;
      busy, inFlight := false, None;
      urlLog := [];
    }

    /** `cleanupObjectURL`: revoke the current handle if there is one and forget
        it. A second call finds no handle and makes no registry call. Also what
        `disconnectedCallback` does. */
    method CleanupObjectUrl()
      modifies this`currentObjectUrl, this`urlLog
      ensures currentObjectUrl == None
      ensures urlLog == old(urlLog) + RevokeOf(old(currentObjectUrl))
      ensures old(Valid()) ==> Valid()
    {
      if currentObjectUrl.Some? {
        LiveAfterAppend(urlLog, Revoked(currentObjectUrl.value));
        urlLog := urlLog + [Revoked(currentObjectUrl.value)];
        currentObjectUrl := None;
      }
    }

    /** `setBusy(b)`: every control follows `b`, except that Regenerate also
        needs a non-blank prompt and Download a blob. */
    method SetBusy(b: bool)
      modifies this`busy, this`disabled
      ensures busy == b
      ensures disabled == ControlsFor(b, Trim(prompt) == [], currentBlob.Some?)
    {
      busy := b;
      var d := disabled;
      d := d.(generate := b);
      d := d.(regenerate := b || Trim(prompt) == []);
      d := d.(clear := b);
      d := d.(download := b || currentBlob.None?);
      d := d.(prompt := b, size := b, quality := b);
      d := d.(background := b, format := b, filename := b);
      disabled := d;
    }

    /** The prompt's `input` handler: Regenerate follows whether the text is blank. */
    method EditPrompt(text: string)
      requires Valid() && !busy
      modifies this`prompt, this`disabled
      ensures Valid()
      ensures prompt == text
      ensures disabled == old(disabled).(regenerate := Trim(text) == [])
    {
      prompt := text;
      disabled := disabled.(regenerate := Trim(prompt) == []);
    }

    /** A value typed or picked into an input that has no handler. */
    method EditPlain(input: PlainInput, value: string)
      requires Valid() && !busy
      modifies this`size, this`quality, this`filename
      ensures Valid()
      ensures size == (if input == SizeInput then value else old(size))
      ensures quality == (if input == QualityInput then value else old(quality))
      ensures filename == (if input == FilenameInput then value else old(filename))
    {
      match input
      case SizeInput => size := value;
      case QualityInput => quality := value;
      case FilenameInput => filename := value;
    }

    /** `enforceBackgroundFormatRule`: jpeg under a transparent background is
        switched to png, with a notice. */
    method EnforceBackgroundFormatRule()
      modifies this`format, this`status
      ensures format == CorrectedFormat(background, old(format))
      ensures !(background == "transparent" && format == "jpeg")
      ensures status == if background == "transparent" && old(format) == "jpeg"
        then Status(SwitchedToPng, Ok) else old(status)
    {
      if background == "transparent" && format == "jpeg" {
        format := "png";
        status := Status(SwitchedToPng, Ok);
      }
    }

    /** The background select's `change` event. */
    method SelectBackground(value: string)
      requires Valid() && !busy
      modifies this`background, this`format, this`status
      ensures Valid()
      ensures background == value && format == CorrectedFormat(value, old(format))
      ensures status == if value == "transparent" && old(format) == "jpeg"
        then Status(SwitchedToPng, Ok) else old(status)
    {
      background := value;
      EnforceBackgroundFormatRule();
    }

    /** The format select's `change` event. */
    method SelectFormat(value: string)
      requires Valid() && !busy
      modifies this`format, this`status
      ensures Valid()
      ensures format == CorrectedFormat(background, value)
      ensures status == if background == "transparent" && value == "jpeg"
        then Status(SwitchedToPng, Ok) else old(status)
    {
      format := value;
      EnforceBackgroundFormatRule();
    }

    /** `generate` up to its `await`, entered from Generate or Regenerate. A blank
        prompt only shows an error. Otherwise the format is corrected, the
        widget goes busy and the payload is sent. */
    method BeginGenerate() returns (sent: Option<Payload>)
      requires Valid() && !busy
      modifies this`format, this`status, this`busy, this`disabled, this`inFlight
      ensures Valid()
      ensures sent == BuildPayload(old(prompt), size, quality, background, old(format))
      ensures sent.None? ==>
        && status == Status(EnterPrompt, Error) && format == old(format)
        && !busy && inFlight == None && disabled == old(disabled)
      ensures sent.Some? ==>
        && status == Status(Generating, Loading) && format == sent.value.outputFormat
        && busy && inFlight == sent && AllDisabled(disabled)
    {
      var text := Trim(prompt);
      if text == [] {
        status := Status(EnterPrompt, Error);
        return None;
      }
      if background == "transparent" && format == "jpeg" {
        format := "png";
      }
      SetBusy(true);
      status := Status(Generating, Loading);
      sent := Some(Payload(text, size, quality, background, format));
      inFlight := sent;
    }

    /** `generate` after its `await`: on an image, the old handle is revoked
        before the new one is created and blob, handle and format are replaced
        together; on any failure the artifact is untouched and the message is
        shown. Busy is cleared on every path. `newUrl` is the handle the browser's
        `URL.createObjectURL` returns; `outcome` is how the `try` block ended. */
    method FinishGenerate(reply: Reply, atob: string -> Result<string, string>, newUrl: ObjectUrl)
      returns (outcome: Outcome)
      requires Valid() && busy
      modifies this`currentBlob, this`currentObjectUrl, this`currentFormat, this`urlLog
      modifies this`preview, this`meta, this`status, this`disabled, this`busy, this`inFlight
      ensures Valid()
      ensures !busy && inFlight == None
      ensures outcome == InterpretReply(reply, old(inFlight).value, atob)
      ensures outcome.Fail? ==>
        && status == Status(outcome.message, Error)
        && currentBlob == old(currentBlob) && currentObjectUrl == old(currentObjectUrl)
        && currentFormat == old(currentFormat) && urlLog == old(urlLog)
        && preview == old(preview) && meta == old(meta)
      ensures outcome.Install? ==>
        && currentBlob == Some(Blob(BinaryBytes(outcome.binary), MimeType(outcome.format)))
        && currentObjectUrl == Some(newUrl) && currentFormat == outcome.format
        && urlLog == old(urlLog) + RevokeOf(old(currentObjectUrl)) + [Created(newUrl)]
        && preview == Some(newUrl) && meta == MetaText(outcome.size, outcome.format, outcome.quality)
        && status == Status(Finished, Ok)
    {
      outcome := InterpretReply(reply, inFlight.value, atob);
      ApplyOutcome(outcome, newUrl);
      inFlight := None;
      SetBusy(false);
    }

    /** The end of the `try`/`catch`: the `catch` shows the message and touches
        nothing else; the end of the `try` installs the artifact. */
    method ApplyOutcome(outcome: Outcome, newUrl: ObjectUrl)
      requires ArtifactInvariant(currentObjectUrl, urlLog, currentBlob)
      modifies this`currentBlob, this`currentObjectUrl, this`currentFormat, this`urlLog
      modifies this`preview, this`meta, this`status, this`disabled
      ensures ArtifactInvariant(currentObjectUrl, urlLog, currentBlob)
      ensures outcome.Fail? ==>
        && status == Status(outcome.message, Error)
        && currentBlob == old(currentBlob) && currentObjectUrl == old(currentObjectUrl)
        && currentFormat == old(currentFormat) && urlLog == old(urlLog)
        && preview == old(preview) && meta == old(meta) && disabled == old(disabled)
      ensures outcome.Install? ==>
        && currentBlob == Some(Blob(BinaryBytes(outcome.binary), MimeType(outcome.format)))
        && currentObjectUrl == Some(newUrl) && currentFormat == outcome.format
        && urlLog == old(urlLog) + RevokeOf(old(currentObjectUrl)) + [Created(newUrl)]
        && preview == Some(newUrl) && meta == MetaText(outcome.size, outcome.format, outcome.quality)
        && status == Status(Finished, Ok)
        && disabled == old(disabled).(regenerate := false, download := false)
    {
      match outcome {
        case Fail(message) =>
          status := Status(message, Error);
        case Install(binary, fmt, replySize, replyQuality) =>
          InstallArtifact(binary, fmt, replySize, replyQuality, newUrl);
      }
    }

    /** The success path of `generate`: build the blob, revoke the old handle,
        create the new one, then set blob, handle and format together and show
        the preview. */
    method InstallArtifact(binary: string, fmt: string, replySize: string, replyQuality: string, newUrl: ObjectUrl)
      requires ArtifactInvariant(currentObjectUrl, urlLog, currentBlob)
      modifies this`currentBlob, this`currentObjectUrl, this`currentFormat, this`urlLog
      modifies this`preview, this`meta, this`status, this`disabled
      ensures ArtifactInvariant(currentObjectUrl, urlLog, currentBlob)
      ensures currentBlob == Some(Blob(BinaryBytes(binary), MimeType(fmt)))
      ensures currentObjectUrl == Some(newUrl) && currentFormat == fmt
      ensures urlLog == old(urlLog) + RevokeOf(old(currentObjectUrl)) + [Created(newUrl)]
      ensures preview == Some(newUrl) && meta == MetaText(replySize, fmt, replyQuality)
      ensures status == Status(Finished, Ok)
      ensures disabled == old(disabled).(regenerate := false, download := false)
    {
      var bytes := DecodeBinary(binary);
      var blob := Blob(bytes[..], MimeType(fmt));
      ReplaceLeavesOneLive(urlLog, currentObjectUrl, newUrl);
      CleanupObjectUrl();
      urlLog := urlLog + [Created(newUrl)];
      currentBlob := Some(blob);
      currentObjectUrl := Some(newUrl);
      currentFormat := fmt;
      preview := Some(newUrl);
      meta := MetaText(replySize, fmt, replyQuality);
      status := Status(Finished, Ok);
      disabled := disabled.(regenerate := false, download := false);
    }

    /** The Clear button: empty prompt and summary, handle revoked, no blob,
        format back to png, no preview, Regenerate and Download disabled. */
    method Clear()
      requires Valid() && !busy
      modifies this`prompt, this`meta, this`currentObjectUrl, this`urlLog
      modifies this`currentBlob, this`currentFormat, this`preview, this`status, this`disabled
      ensures Valid()
      ensures prompt == [] && meta == [] && status == Status([], Plain)
      ensures currentBlob == None && currentObjectUrl == None && currentFormat == "png"
      ensures preview == None && LiveAfter(urlLog) == {}
      ensures urlLog == old(urlLog) + RevokeOf(old(currentObjectUrl))
      ensures disabled == old(disabled).(regenerate := true, download := true)
    {
      prompt := [];
      meta := [];
      DropArtifact();
      preview := None;
      status := Status([], Plain);
      disabled := disabled.(regenerate := true, download := true);
    }

    /** Clear's artifact steps: `cleanupObjectURL`, then no blob and format png. */
    method DropArtifact()
      requires ArtifactInvariant(currentObjectUrl, urlLog, currentBlob)
      modifies this`currentObjectUrl, this`urlLog, this`currentBlob, this`currentFormat
      ensures currentBlob == None && currentObjectUrl == None && currentFormat == "png"
      ensures LiveAfter(urlLog) == {} && ArtifactInvariant(currentObjectUrl, urlLog, currentBlob)
      ensures urlLog == old(urlLog) + RevokeOf(old(currentObjectUrl))
    {
      CleanupLeavesNothingLive(urlLog, currentObjectUrl);
      CleanupObjectUrl();
      currentBlob := None;
      currentFormat := "png";
    }

    /** The Download button: nothing without a blob; otherwise the file name from
        the name field and the current format, and the current handle, or a
        temporary one (`tempUrl`, from `URL.createObjectURL`) that is revoked
        straight after the click. */
    method Download(tempUrl: ObjectUrl) returns (action: Option<DownloadAction>)
      requires Valid() && !busy
      requires tempUrl !in LiveAfter(urlLog)
      modifies this`urlLog
      ensures Valid()
      ensures currentBlob.None? ==> action == None && urlLog == old(urlLog)
      ensures currentBlob.Some? ==>
        action.Some? && action.value.fileName == DownloadName(filename, currentFormat)
      ensures currentBlob.Some? && currentObjectUrl.Some? ==>
        action.value.href == currentObjectUrl.value && urlLog == old(urlLog)
      ensures currentBlob.Some? && currentObjectUrl.None? ==>
        action.value.href == tempUrl && urlLog == old(urlLog) + [Created(tempUrl), Revoked(tempUrl)]
    {
      if currentBlob.None? {
        return None;
      }
      var base := Or(Trim(Or(filename, DefaultFileBase)), DefaultFileBase);
      var ext := Extension(currentFormat);
      var url: ObjectUrl;
      if currentObjectUrl.Some? {
        url := currentObjectUrl.value;
      } else {
        url := tempUrl;
        TemporaryHandleLeavesLive(urlLog, url);
        urlLog := urlLog + [Created(url)];
      }
      action := Some(DownloadAction(url, base + "." + ext));
      if Some(url) != currentObjectUrl {
        urlLog := urlLog + [Revoked(url)];
      }
    }
  }
}
