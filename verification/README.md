# AI image widget: request validation and artifact state, in Dafny

The project has two parts: a browser custom element, `<ai-image-widget>`, and the Express
endpoint it calls, `POST /api/generate-image`. This project models the logic of both and
proves what they promise.

- **Server** (`server.dfy`) covers the following, with the OpenAI client as a function
  parameter `provider` from the normalised parameters to an outcome:
  - `safeString`;
  - the four `ALLOWED_*` sets;
  - the handler as one total function from the raw JSON fields to a `(status, body)`
    response. It fills defaults, runs the checks in source order, and only then consults
    the provider. The outcome is image data, no data, or a thrown error with or without a
    message.
- **Widget** (`widget.dfy`) is a class `ImageWidget` with:
  - the form values;
  - the single current artifact (`currentBlob`, `currentObjectUrl`, `currentFormat`);
  - the controls' `disabled` flags, the status line, the summary text and the preview;
  - a `busy` flag, with the payload of the request in flight.

  `generate` is split at its `await fetch`:
  - `BeginGenerate` is the submit entry point. It requires `!busy`, because the source
    guards against re-entry only by disabling the buttons.
  - `FinishGenerate` takes the reply, `atob` and the handle `URL.createObjectURL` returns
    as inputs.

  The object-URL registry is a ghost log of `Created`/`Revoked` calls. The set of live
  handles is `LiveAfter(urlLog)`. The class invariant `Valid()` keeps that set equal to
  the current handle, so there is never more than one.

  The same file holds the pure parts: building the payload, interpreting the reply, the
  download file name, the MIME type, and the byte loop of the base64 decoding.
- **HtmlEscape** (`html_escape.dfy`): `escapeHTML` as its chain of `replaceAll` calls. It
  is proved safe for markup and proved lossless.
- **JsText** (`js_text.dfy`): the JavaScript string built-ins both sides use:
  - `trim`, with the ECMAScript whitespace set;
  - `||` on strings;
  - `toUpperCase` on ASCII;
  - the decimal rendering of a number.
- **EndToEnd** (`end_to_end.dfy`) connects the two sides. Every request the widget can send
  from its select options passes every server check. Every answer comes back to the widget
  as the right installed artifact or error message.

## Model

| member | source | states |
|---|---|---|
| `JsText.TrimStart` | server/server/server/server.js:42 | The result is no longer than the input and does not start with whitespace |
| `JsText.TrimEnd` | server/server/server/server.js:42 | The result is no longer than the input and does not end with whitespace |
| `JsText.TrimStartDropsWhitespace` | server/server/server/server.js:42 | Trimming the start keeps a suffix, and every dropped character is whitespace |
| `JsText.TrimEndDropsWhitespace` | server/server/server/server.js:42 | Trimming the end keeps a prefix, and every dropped character is whitespace |
| `JsText.TrimFirstChar` | server/server/server/server.js:42 | Trimming the end after the start leaves a first character that is not whitespace |
| `JsText.Trim` | server/server/server/server.js:42 | `trim` yields a string no longer than its input, with no whitespace at either end |
| `JsText.TrimInfix` | server/server/server/server.js:42 | `trim` keeps the infix between a whitespace-only prefix and a whitespace-only suffix |
| `JsText.InfixOfSuffix` | server/server/server/server.js:42 | A prefix of a suffix is an infix, with whitespace after it |
| `JsText.TrimOfTrimmed` | server/server/server/server.js:42 | A string with no whitespace at either end is its own trim |
| `JsText.TrimIdempotent` | server/server/server/server.js:42 | Trimming twice equals trimming once |
| `JsText.TrimmedPrefixNonBlank` | server/server/server/server.js:43 | Cutting a non-blank trimmed string to a positive length leaves it non-blank |
| `JsText.Or` | server/server/server/server.js:50 | `s \|\| fallback` is `s` when `s` is non-empty, and `fallback` otherwise |
| `JsText.OrElse` | public/ai-image-widget.js:615 | `field \|\| fallback` is the field when it is a non-empty string, and `fallback` otherwise |
| `JsText.ToUpperAscii` | public/ai-image-widget.js:640 | Same length, and each character is upper-cased on its own |
| `JsText.DecimalString` | public/ai-image-widget.js:611 | A number renders as a non-empty string of decimal digits, with no leading zero unless the number is zero |
| `JsText.DigitChar` | public/ai-image-widget.js:611 | A digit below ten renders as one character from 0 to 9 |
| `JsText.DigitsValue` | public/ai-image-widget.js:611 | The number a digit string denotes, read left to right: the reference that `DecimalString` is checked against |
| `JsText.DecimalStringValue` | public/ai-image-widget.js:611 | The rendered status reads back as the number itself |
| `Server.SafeString` | server/server/server/server.js:40-44 | A non-string gives "". A string gives a prefix of its trim, of length at most `max`. It is the whole trim when that fits, and exactly `max` characters when it does not |
| `Server.SafeStringEmptyIffBlank` | server/server/server/server.js:40-44 | With a positive cap, `safeString` gives "" exactly for a non-string or blank field |
| `Server.SafeStringOfClean` | server/server/server/server.js:40-44 | A short string with no surrounding whitespace passes `safeString` unchanged |
| `Server.Normalize` | server/server/server/server.js:49-53 | Caps 32000/32/8/16/16. Empty size, output_format, quality and background take the defaults 1024x1024/png/auto/auto. The prompt has no default. The four optional fields are never empty and stay within their caps |
| `Server.DefaultsForBlankFields` | server/server/server/server.js:49-53 | A blank or missing field takes its default. A present one is its `safeString`. The prompt is empty exactly when it is blank |
| `Server.NormalizeCleanFields` | server/server/server/server.js:49-53 | Short, trimmed strings in the four optional fields pass through unchanged |
| `Server.Validate` | server/server/server/server.js:55-77 | For each message, an if-and-only-if with the first failing check in the order prompt, size, output_format, quality, background, transparent+jpeg. Success exactly when every check passes, carrying the normalised fields |
| `Server.HandleGenerateImage` | server/server/server/server.js:47-110 | Status 400 exactly when validation fails, with that check's message. Otherwise: 200 echoing the validated fields when the provider returns data; 502 "No image data returned." when it returns none; 500 with the error's message, or the fixed fallback, when it throws |
| `Server.BlankPromptRejectedFirst` | server/server/server/server.js:55-57 | A blank, missing or non-string prompt gets 400 "Prompt is required.", whatever the other fields hold |
| `Server.RejectionIgnoresProvider` | server/server/server/server.js:59-70 | A rejected request gets the same 400 answer for any provider: the provider is not called |
| `Server.TransparentJpegRejected` | server/server/server/server.js:73-77 | A valid request with transparent and jpeg gets 400 "Transparent background requires png or webp.". There is no correction |
| `Server.IncompatibleRejected` | server/server/server/server.js:73-77 | Normalised fields in their sets that pair transparent with jpeg get that 400 answer |
| `Server.SuccessEchoesValidated` | server/server/server/server.js:80-102 | A 200 body has non-empty data and exactly the normalised output_format, size, quality and background. These are in their sets and compatible, and the prompt is non-empty |
| `Server.AcceptedWith` | server/server/server/server.js:96-102 | Valid fields with a provider that returns data give 200 with that data and the fields |
| `Server.ErrorAnswersHaveMessages` | server/server/server/server.js:103-109 | Every non-200 answer is an error body with a non-empty message |
| `Server.AllowedValuesClean` | server/server/server/server.js:29-38 | Every allowed value is non-empty, has no surrounding whitespace, and fits its field's cap |
| `Server.SizesClean` | server/server/server/server.js:29-34 | The same, for the sizes |
| `Server.FormatsClean` | server/server/server/server.js:36 | The same, for the formats |
| `Server.QualitiesClean` | server/server/server/server.js:37 | The same, for the qualities |
| `Server.BackgroundsClean` | server/server/server/server.js:38 | The same, for the backgrounds |
| `Server.RedBalloonAccepted` | server/server/server/server.js:47-102 | The request "a red balloon", 1024x1024/png/auto/auto, with a provider that returns data, gets 200 echoing those fields |
| `HtmlEscape.ReplaceAll` | public/ai-image-widget.js:677-681 | `replaceAll` with a one-character pattern: each occurrence becomes the replacement and every other character is kept. Its properties are the `ReplaceAll…` lemmas below |
| `HtmlEscape.EscapeHTML` | public/ai-image-widget.js:675-682 | The five replacements in source order, `&` first. `EscapeHTMLIsSafe` and `UnescapeEscapeHTML` prove it safe and lossless |
| `HtmlEscape.ReplaceAllAppend` | public/ai-image-widget.js:677 | `replaceAll` of a one-character pattern distributes over concatenation |
| `HtmlEscape.ReplaceAllAbsent` | public/ai-image-widget.js:678 | `replaceAll` of a character that does not occur changes nothing |
| `HtmlEscape.ReplaceAllSingle` | public/ai-image-widget.js:677 | `replaceAll` on a single character gives the replacement when it matches, and the character otherwise |
| `HtmlEscape.LaterStagesKeep` | public/ai-image-widget.js:678-681 | The `<`, `>`, `"` and `'` stages leave an entity alone |
| `HtmlEscape.EscapeHTMLOneChar` | public/ai-image-widget.js:675-682 | On one character, the five-stage chain gives that character's entity, or the character itself |
| `HtmlEscape.EscapeHTMLIsPerChar` | public/ai-image-widget.js:675-682 | Because `&` goes first, the chain equals escaping each character independently: no entity is escaped twice |
| `HtmlEscape.EscapedCons` | public/ai-image-widget.js:675-682 | Putting one escaped character before escaped text keeps it escaped |
| `HtmlEscape.EscapeEachIsEscaped` | public/ai-image-widget.js:675-682 | Per-character escaping produces escaped text |
| `HtmlEscape.EscapeHTMLIsSafe` | public/ai-image-widget.js:675-682 | The output has no raw `<`, `>`, `"` or `'`, and every `&` in it begins one of the five entities |
| `HtmlEscape.UnescapeCons` | public/ai-image-widget.js:675-682 | Reading back an escaped character followed by text gives the character, then the reading of the text |
| `HtmlEscape.UnescapeEntity` | public/ai-image-widget.js:678-681 | Each of the four markup entities reads back as its character |
| `HtmlEscape.UnescapeEscapeEach` | public/ai-image-widget.js:675-682 | Per-character escaping can be read back to the original |
| `HtmlEscape.UnescapeEscapeHTML` | public/ai-image-widget.js:675-682 | `escapeHTML` loses nothing: reading the entities back gives the input |
| `HtmlEscape.EscapeEachPlain` | public/ai-image-widget.js:675-682 | Text without special characters is unchanged by per-character escaping |
| `HtmlEscape.EscapeHTMLPlainText` | public/ai-image-widget.js:675-682 | Text without `& < > " '` passes `escapeHTML` unchanged |
| `Widget.ControlsFor` | public/ai-image-widget.js:477-488 | When busy, every control is disabled. When not busy, Generate, Clear and the inputs are enabled; Download is disabled exactly when there is no blob; Regenerate is disabled exactly when the trimmed prompt is empty |
| `Widget.CorrectedFormat` | public/ai-image-widget.js:586-588 | The result never pairs jpeg with a transparent background. jpeg becomes png under transparent, and any other pair is kept |
| `Widget.BuildPayload` | public/ai-image-widget.js:579-600 | Nothing is sent exactly when the trimmed prompt is empty. Otherwise the trimmed, non-empty prompt, the size/quality/background as they are, and the corrected format, never transparent with jpeg |
| `Widget.InterpretReply` | public/ai-image-widget.js:608-647 | The reply is installed exactly when it is 2xx with non-empty `b64` that `atob` decodes. The installed format, size and quality fall back to the request's. A non-2xx reply fails with its `error`, or "Request failed (status)". A missing `b64` fails with "No image returned.". A rejected fetch or a throwing `atob` fails with its message, or "Generation failed.". Every failure message is non-empty |
| `Widget.IsOk` | public/ai-image-widget.js:610 | `res.ok`: a status from 200 to 299 |
| `Widget.MimeType` | public/ai-image-widget.js:626 | Both branches give "image/" followed by the format |
| `Widget.MetaText` | public/ai-image-widget.js:640 | The summary line: the size, the upper-cased format and the quality, separated by " • " |
| `Widget.Extension` | public/ai-image-widget.js:546 | jpeg is saved as jpg, and every other format under its own name |
| `Widget.DownloadName` | public/ai-image-widget.js:545-551 | The trimmed name field, or "generated-image" when it is blank, then "." and the extension |
| `Widget.DownloadNameExamples` | public/ai-image-widget.js:545-546 | report+jpeg gives report.jpg; an empty or all-space name with png/webp gives generated-image.png/.webp |
| `Widget.ByteOf` | public/ai-image-widget.js:623 | What a `Uint8Array` slot keeps of `charCodeAt`: the code modulo 256, which is the code itself below 256 |
| `Widget.BinaryBytes` | public/ai-image-widget.js:621-624 | The bytes the loop produces, as a value: one `ByteOf` per character. `DecodeBinary`'s array equals it |
| `Widget.BinaryBytesRoundTrip` | public/ai-image-widget.js:620-624 | On a string of codes below 256 (what `atob` returns), the bytes give the string back |
| `Widget.DecodeBinary` | public/ai-image-widget.js:620-624 | A fresh array with one slot per character, each holding that character's code modulo 256 |
| `Widget.LiveAfter` | public/ai-image-widget.js:38-43 | The object URLs a sequence of registry calls leaves alive: each one created and not revoked since |
| `Widget.RevokeOf` | public/ai-image-widget.js:38-43 | `cleanupObjectURL` revokes the handle when there is one, and makes no call otherwise |
| `Widget.LiveAfterAppend` | public/ai-image-widget.js:38-43 | A create adds its handle to the live set; a revoke removes it |
| `Widget.CleanupLeavesNothingLive` | public/ai-image-widget.js:38-43 | When the registry holds exactly the current handle, cleanup leaves no handle alive |
| `Widget.ReplaceLeavesOneLive` | public/ai-image-widget.js:629-633 | Revoking the old handle, then creating one, leaves exactly the new handle alive |
| `Widget.TemporaryHandleLeavesLive` | public/ai-image-widget.js:549-559 | A download handle created and revoked straight away leaves the live handles as they were |
| `Widget.ImageWidget.constructor` | public/ai-image-widget.js:6-20 | No artifact and format png. Default form values, with the file name "generated-image". Regenerate and Download disabled, as in the markup. Not busy, no registry calls, `Valid()` |
| `Widget.ImageWidget.CleanupObjectUrl` | public/ai-image-widget.js:38-43 | Afterwards no current handle. The registry log gains a revoke only if there was a handle, so a second call makes no call. A widget that was `Valid()` stays `Valid()`, so the other handlers can still be called after a disconnect |
| `Widget.ImageWidget.SetBusy` | public/ai-image-widget.js:477-488 | The flags become those of `ControlsFor` for the busy value, the current prompt and whether a blob is held |
| `Widget.ImageWidget.EditPrompt` | public/ai-image-widget.js:538-540 | The prompt changes, and Regenerate follows whether it is blank. `Valid()` is kept |
| `Widget.ImageWidget.EditPlain` | public/ai-image-widget.js:350-396 | Exactly one of size, quality and file name changes. `Valid()` is kept |
| `Widget.ImageWidget.EnforceBackgroundFormatRule` | public/ai-image-widget.js:466-472 | The format becomes the corrected one. The PNG notice is shown exactly when a correction happened; otherwise the status is untouched |
| `Widget.ImageWidget.SelectBackground` | public/ai-image-widget.js:474 | The new background, with the format corrected for it. The PNG notice is shown exactly when jpeg was switched; otherwise the status is kept. `Valid()` is kept |
| `Widget.ImageWidget.SelectFormat` | public/ai-image-widget.js:475 | The new format, corrected for the background. The PNG notice is shown exactly when the chosen jpeg was switched; otherwise the status is kept. `Valid()` is kept |
| `Widget.ImageWidget.BeginGenerate` | public/ai-image-widget.js:579-600 | The payload sent is `BuildPayload` of the form. With a blank prompt: only the error status, nothing sent, not busy, format and controls as they were. Otherwise: the format is corrected, the widget is busy with every control disabled, and the payload is in flight. The artifact is never touched |
| `Widget.ImageWidget.FinishGenerate` | public/ai-image-widget.js:602-650 | The outcome is `InterpretReply` of the reply for the payload in flight. On failure: the message is shown and blob, handle, format, preview, summary and registry are unchanged. On success: one revoke of the old handle, then the create of the new one; blob, handle and format are set together, with preview, summary and "Done.". On every path busy is cleared and `Valid()` holds, so exactly the current handle is live |
| `Widget.ImageWidget.ApplyOutcome` | public/ai-image-widget.js:629-647 | The `catch` shows the message and changes nothing else: artifact, registry, preview, summary and controls are kept. The end of the `try` installs the artifact and enables Regenerate and Download. The registry invariant is kept |
| `Widget.ImageWidget.InstallArtifact` | public/ai-image-widget.js:619-645 | The blob holds the decoded bytes with the format's MIME type. The old handle is revoked before the new one is created. Handle, format, preview, summary and "Done." are set. Regenerate and Download are enabled and the other flags are kept. The registry invariant is kept |
| `Widget.ImageWidget.Clear` | public/ai-image-widget.js:524-536 | Prompt and summary are emptied. The handle is revoked, so no handle is live. No blob, format png, no preview, empty status. Regenerate and Download are disabled and the other flags are kept. `Valid()` holds |
| `Widget.ImageWidget.DropArtifact` | public/ai-image-widget.js:527-529 | Cleanup, then no blob and format png: no handle is live afterwards |
| `Widget.ImageWidget.Download` | public/ai-image-widget.js:542-560 | Without a blob nothing happens. Otherwise the file name is `DownloadName` of the name field and current format. The href is the current handle, or a temporary handle that is created and revoked again. `Valid()` is kept |
| `EndToEnd.ToRaw` | public/ai-image-widget.js:594-605 | The payload's five fields as the string fields of the JSON body the handler reads |
| `EndToEnd.ToReply` | server/server/server/server.js:55-109 | An answer as the widget's `fetch` sees it: its status, and an error body as the `error` field or an image body as the `b64`, `output_format`, `size` and `quality` fields |
| `EndToEnd.OptionsAreAllowed` | public/ai-image-widget.js:350-381 | The widget's select options are exactly the server's allowed sets |
| `EndToEnd.SentRequestsValidate` | public/ai-image-widget.js:585-600 | For any option values and a non-blank prompt, the request the widget sends passes every server check, with the fields as sent. Only an over-long prompt is cut |
| `EndToEnd.ServerErrorShown` | public/ai-image-widget.js:610-611 | Every non-200 answer of the handler ends the widget's request with the handler's own message |
| `EndToEnd.ServerImageInstalled` | public/ai-image-widget.js:614-615 | A 200 answer whose data decodes is installed with the validated format, size and quality the server echoed |
| `EndToEnd.GenerateRoundTrip` | public/ai-image-widget.js:579-640 | With any provider that returns data for the validated request, the widget installs the image in the format it asked for (png instead of jpeg under transparent), at the size and quality it asked for |

## Left out

- DOM rendering (`shadowShadowSafeRender`, the CSS and markup, `innerHTML`) is left out. So are `setStatus`'s class toggling and spinner: a status is its message and kind.
- `fetch`, `res.json()`, `atob`, `Blob`, `URL.createObjectURL` and `URL.revokeObjectURL` are browser APIs. They are inputs (`Reply`, an `atob` function, handles passed in) or ghost log entries, not implementations.
- `async`/`await` is sequential: `generate` is `BeginGenerate`, then `FinishGenerate`, with `busy` and `inFlight` standing for the suspended call.
- `wireEvents`'s element lookups, `addEventListener`, the `_wired` guard, `connectedCallback` and `attributeChangedCallback` are event plumbing. They are not modelled (`disconnectedCallback` is `CleanupObjectUrl`).
- Prompt chip clicks (public/ai-image-widget.js:457-462) are not modelled. They write the prompt without firing its `input` event, so Regenerate's flag is not recomputed. `Valid()` assumes the prompt changes only through `EditPrompt`, `Clear` and busy transitions.
- Widget.ImageWidget.FinishGenerate: returns the `try` block's outcome, which the source keeps only implicitly. The installation work is split into the helpers `ApplyOutcome` and `InstallArtifact`.
- Express wiring, `dotenv`, `process.exit`, static serving, `console.error`/`console.log` and the OpenAI client call are left out. The provider is a function parameter, and its result is reduced to `b64_json` present or absent, or a thrown error with an optional message.
- JSON values that are not strings are left out on both sides. On the server, a non-string field is `NotText` (what `safeString` turns into ""). On the widget, a reply field is a string or absent; `data.error`, `output_format`, `size` and `quality` holding numbers or objects is not modelled.
- Strings are sequences of characters, not of UTF-16 code units. `trim`, `slice` and `length` on astral characters, and `toUpperCase` beyond ASCII, are not modelled.
- Widget.DecodeBinary: the `Uint8Array` store of `charCodeAt` is modelled as the code modulo 256. For `atob` output (codes below 256) that is the code itself.
