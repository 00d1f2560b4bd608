/** The `/api/generate-image` endpoint of the Express server: `safeString`, the
    allowed value sets, and the handler's defaults, its chain of early-return
    checks and the mapping of the image provider's outcome to a response.
    The provider is a function parameter standing for the OpenAI client. */
module Server {
  import opened Wrappers
  import opened JsText

  const AllowedSizes: set<string> := {"auto", "1024x1024", "1536x1024", "1024x1536"}
  const AllowedFormats: set<string> := {"png", "jpeg", "webp"}
  const AllowedQuality: set<string> := {"auto", "high", "medium", "low"}
  const AllowedBackground: set<string> := {"auto", "transparent", "opaque"}

  /** `safeString`'s default cap, used for the prompt. */
  const PromptCap: nat := 32000
  const SizeCap: nat := 32
  const FormatCap: nat := 8
  const QualityCap: nat := 16
  const BackgroundCap: nat := 16

  const DefaultSize := "1024x1024"
  const DefaultFormat := "png"
  const DefaultQuality := "auto"
  const DefaultBackground := "auto"

  const PromptRequired := "Prompt is required."
  const InvalidSize := "Invalid size."
  const InvalidFormat := "Invalid output_format."
  const InvalidQuality := "Invalid quality."
  const InvalidBackground := "Invalid background."
  const TransparentNeedsAlpha := "Transparent background requires png or webp."
  const NoImageData := "No image data returned."
  const GenerationFailed := "Image generation failed. Check server logs for details."

  /** One property of the parsed JSON body: a string, or anything else
      (absent, `null`, a number, an object, or no body at all). */
  datatype JsonField = Text(s: string) | NotText

  /** The body of a POST to `/api/generate-image`, field by field. */
  datatype RawRequest = RawRequest(
    prompt: JsonField, size: JsonField, outputFormat: JsonField,
    quality: JsonField, background: JsonField)

  /** The normalised parameters the handler works with, and passes to the provider. */
  datatype ImageParams = ImageParams(
    prompt: string, size: string, outputFormat: string,
    quality: string, background: string)

  /** What the provider call does: it resolves with an image list whose first
      entry may carry `b64_json`, or it throws an error that may carry a message. */
  datatype ProviderOutcome = Generated(b64: Option<string>) | Threw(message: Option<string>)

  datatype Body =
    | ErrorBody(error: string)
    | ImageBody(b64: string, outputFormat: string, size: string, quality: string, background: string)

  datatype Response = Response(status: int, body: Body)

  /** A field that `safeString` turns into the empty string. */
  predicate Blank(v: JsonField)
  {
    v.NotText? || Trim(v.s) == []
  }

  /** `safeString(v, max)`: non-strings become "", strings are trimmed and cut
      to at most `max` characters. */
  function SafeString(v: JsonField, max: nat): (r: string)
    ensures v.NotText? ==> r == []
    ensures v.Text? ==> |r| <= max && |r| <= |Trim(v.s)| && r == Trim(v.s)[..|r|]
    ensures v.Text? && |Trim(v.s)| <= max ==> r == Trim(v.s)
    ensures v.Text? && |Trim(v.s)| > max ==> |r| == max
  {
    match v
    case NotText => []
    case Text(s) =>
      var t := Trim(s);
      if |t| > max then t[..max] else t
  }

  /** With a positive cap, `safeString` yields "" exactly for blank fields. */
  lemma SafeStringEmptyIffBlank(v: JsonField, max: nat)
    requires max > 0
    ensures SafeString(v, max) == [] <==> Blank(v)
  {
    if v.Text? && |Trim(v.s)| > max {
      TrimmedPrefixNonBlank(Trim(v.s), max);
    }
  }

  /** The constants computed at the top of the handler: each field through
      `safeString` with its cap, and the `||` defaults for all but the prompt. */
  function Normalize(raw: RawRequest): (p: ImageParams)
    ensures p.prompt == SafeString(raw.prompt, PromptCap)
    ensures SafeString(raw.size, SizeCap) == [] ==> p.size == DefaultSize
    ensures SafeString(raw.outputFormat, FormatCap) == [] ==> p.outputFormat == DefaultFormat
    ensures SafeString(raw.quality, QualityCap) == [] ==> p.quality == DefaultQuality
    ensures SafeString(raw.background, BackgroundCap) == [] ==> p.background == DefaultBackground
    ensures SafeString(raw.size, SizeCap) != [] ==> p.size == SafeString(raw.size, SizeCap)
    ensures SafeString(raw.outputFormat, FormatCap) != [] ==> p.outputFormat == SafeString(raw.outputFormat, FormatCap)
    ensures SafeString(raw.quality, QualityCap) != [] ==> p.quality == SafeString(raw.quality, QualityCap)
    ensures SafeString(raw.background, BackgroundCap) != [] ==> p.background == SafeString(raw.background, BackgroundCap)
    ensures p.size != [] && |p.size| <= SizeCap
    ensures p.outputFormat != [] && |p.outputFormat| <= FormatCap
    ensures p.quality != [] && |p.quality| <= QualityCap
    ensures p.background != [] && |p.background| <= BackgroundCap
  {
    ImageParams(
      SafeString(raw.prompt, PromptCap),
      Or(SafeString(raw.size, SizeCap), DefaultSize),
      Or(SafeString(raw.outputFormat, FormatCap), DefaultFormat),
      Or(SafeString(raw.quality, QualityCap), DefaultQuality),
      Or(SafeString(raw.background, BackgroundCap), DefaultBackground))
  }

  /** A blank or missing size, output_format, quality or background takes its
      default; a present one is trimmed and capped. The prompt has no default. */
  lemma DefaultsForBlankFields(raw: RawRequest)
    ensures var p := Normalize(raw);
      && (Blank(raw.size) ==> p.size == DefaultSize)
      && (!Blank(raw.size) ==> p.size == SafeString(raw.size, SizeCap))
      && (Blank(raw.outputFormat) ==> p.outputFormat == DefaultFormat)
      && (Blank(raw.quality) ==> p.quality == DefaultQuality)
      && (Blank(raw.background) ==> p.background == DefaultBackground)
      && (!Blank(raw.outputFormat) ==> p.outputFormat == SafeString(raw.outputFormat, FormatCap))
      && (!Blank(raw.quality) ==> p.quality == SafeString(raw.quality, QualityCap))
      && (!Blank(raw.background) ==> p.background == SafeString(raw.background, BackgroundCap))
      && (Blank(raw.prompt) <==> p.prompt == [])
  {
    SafeStringEmptyIffBlank(raw.prompt, PromptCap);
    SafeStringEmptyIffBlank(raw.size, SizeCap);
    SafeStringEmptyIffBlank(raw.outputFormat, FormatCap);
    SafeStringEmptyIffBlank(raw.quality, QualityCap);
    SafeStringEmptyIffBlank(raw.background, BackgroundCap);
  }

  /** Every parameter in its allowed set. */
  predicate InDomains(p: ImageParams)
  {
    p.size in AllowedSizes && p.outputFormat in AllowedFormats
    && p.quality in AllowedQuality && p.background in AllowedBackground
  }

  /** The strict compatibility rule: a transparent background is never paired with jpeg. */
  predicate Compatible(p: ImageParams)
  {
    !(p.background == "transparent" && p.outputFormat == "jpeg")
  }

  /** The early-return chain of the handler, in source order. A failure carries
      the message of the first check that fails. */
  function Validate(raw: RawRequest): (res: Result<ImageParams, string>)
    ensures var p := Normalize(raw);
      && (res == Failure(PromptRequired) <==> p.prompt == [])
      && (res == Failure(InvalidSize) <==> p.prompt != [] && p.size !in AllowedSizes)
      && (res == Failure(InvalidFormat) <==>
            p.prompt != [] && p.size in AllowedSizes && p.outputFormat !in AllowedFormats)
      && (res == Failure(InvalidQuality) <==>
            p.prompt != [] && p.size in AllowedSizes && p.outputFormat in AllowedFormats
            && p.quality !in AllowedQuality)
      && (res == Failure(InvalidBackground) <==>
            p.prompt != [] && p.size in AllowedSizes && p.outputFormat in AllowedFormats
            && p.quality in AllowedQuality && p.background !in AllowedBackground)
      && (res == Failure(TransparentNeedsAlpha) <==>
            p.prompt != [] && InDomains(p) && !Compatible(p))
      && (res.Success? <==> p.prompt != [] && InDomains(p) && Compatible(p))
      && (res.Success? ==> res.value == p && p.prompt != [])
  {
    var p := Normalize(raw);
    if p.prompt == [] then Failure(PromptRequired)
    else if p.size !in AllowedSizes then Failure(InvalidSize)
    else if p.outputFormat !in AllowedFormats then Failure(InvalidFormat)
    else if p.quality !in AllowedQuality then Failure(InvalidQuality)
    else if p.background !in AllowedBackground then Failure(InvalidBackground)
    else if p.background == "transparent" && p.outputFormat == "jpeg" then Failure(TransparentNeedsAlpha)
    else Success(p)
  }

  /** The whole `POST /api/generate-image` handler. The provider is applied only
      to a request that passed every check, and only to the normalised fields. */
  function HandleGenerateImage(raw: RawRequest, provider: ImageParams -> ProviderOutcome): (r: Response)
    ensures r.status in {200, 400, 500, 502}
    ensures r.status == 400 <==> Validate(raw).Failure?
    ensures Validate(raw).Failure? ==> r.body == ErrorBody(Validate(raw).error)
    ensures Validate(raw).Success? ==>
      var p := Validate(raw).value;
      match provider(p)
      case Generated(b64) =>
        if Truthy(b64) then r == Response(200, ImageBody(b64.value, p.outputFormat, p.size, p.quality, p.background))
        else r == Response(502, ErrorBody(NoImageData))
      case Threw(message) =>
        r == Response(500, ErrorBody(if Truthy(message) then message.value else GenerationFailed))
  {
    match Validate(raw)
    case Failure(message) => Response(400, ErrorBody(message))
    case Success(p) =>
      match provider(p)
      case Generated(b64) =>
        if !Truthy(b64) then Response(502, ErrorBody(NoImageData))
        else Response(200, ImageBody(b64.value, p.outputFormat, p.size, p.quality, p.background))
      case Threw(message) => Response(500, ErrorBody(OrElse(message, GenerationFailed)))
  }

  /** A rejected request gets the same answer whatever the provider would do:
      the provider is not consulted. */
  lemma RejectionIgnoresProvider(raw: RawRequest, p1: ImageParams -> ProviderOutcome, p2: ImageParams -> ProviderOutcome)
    requires Validate(raw).Failure?
    ensures HandleGenerateImage(raw, p1) == HandleGenerateImage(raw, p2)
    ensures HandleGenerateImage(raw, p1).status == 400
  {
  }

  /** A missing, non-string or blank prompt is answered 400 "Prompt is required."
      whatever the other fields hold: that check comes first. */
  lemma BlankPromptRejectedFirst(raw: RawRequest, provider: ImageParams -> ProviderOutcome)
    requires Blank(raw.prompt)
    ensures HandleGenerateImage(raw, provider) == Response(400, ErrorBody(PromptRequired))
  {
    SafeStringEmptyIffBlank(raw.prompt, PromptCap);
  }

  /** A 200 answer echoes validated, mutually compatible parameters, and they are
      exactly the normalised request fields. */
  lemma SuccessEchoesValidated(raw: RawRequest, provider: ImageParams -> ProviderOutcome)
    requires HandleGenerateImage(raw, provider).status == 200
    ensures var b := HandleGenerateImage(raw, provider).body; var p := Normalize(raw);
      && b.ImageBody? && b.b64 != []
      && b.outputFormat == p.outputFormat && b.size == p.size
      && b.quality == p.quality && b.background == p.background
      && InDomains(p) && Compatible(p) && p.prompt != []
  {
  }

  /** Every answer other than 200 carries a non-empty error message. */
  lemma ErrorAnswersHaveMessages(raw: RawRequest, provider: ImageParams -> ProviderOutcome)
    ensures var r := HandleGenerateImage(raw, provider);
      r.status != 200 ==> r.body.ErrorBody? && r.body.error != []
  {
  }

  /** `safeString` leaves a short field without surrounding whitespace as it is. */
  lemma SafeStringOfClean(s: string, max: nat)
    requires IsTrimmed(s) && |s| <= max
    ensures SafeString(Text(s), max) == s
  {
    TrimOfTrimmed(s);
  }

  /** Every allowed value is a short string without surrounding whitespace. */
  lemma AllowedValuesClean()
    ensures forall v :: v in AllowedSizes ==> IsTrimmed(v) && 0 < |v| <= SizeCap
    ensures forall v :: v in AllowedFormats ==> IsTrimmed(v) && 0 < |v| <= FormatCap
    ensures forall v :: v in AllowedQuality ==> IsTrimmed(v) && 0 < |v| <= QualityCap
    ensures forall v :: v in AllowedBackground ==> IsTrimmed(v) && 0 < |v| <= BackgroundCap
  {
    SizesClean();
    FormatsClean();
    QualitiesClean();
    BackgroundsClean();
  }

  lemma SizesClean()
    ensures forall v :: v in AllowedSizes ==> IsTrimmed(v) && 0 < |v| <= SizeCap
  {
  }

  lemma FormatsClean()
    ensures forall v :: v in AllowedFormats ==> IsTrimmed(v) && 0 < |v| <= FormatCap
  {
  }

  lemma QualitiesClean()
    ensures forall v :: v in AllowedQuality ==> IsTrimmed(v) && 0 < |v| <= QualityCap
  {
  }

  lemma BackgroundsClean()
    ensures forall v :: v in AllowedBackground ==> IsTrimmed(v) && 0 < |v| <= BackgroundCap
  {
  }

  /** Fields that arrive as short strings without surrounding whitespace pass
      through normalisation unchanged; the prompt is trimmed and capped. */
  lemma NormalizeCleanFields(
    prompt: string, size: string, format: string, quality: string, background: string)
    requires IsTrimmed(size) && 0 < |size| <= SizeCap
    requires IsTrimmed(format) && 0 < |format| <= FormatCap
    requires IsTrimmed(quality) && 0 < |quality| <= QualityCap
    requires IsTrimmed(background) && 0 < |background| <= BackgroundCap
    ensures Normalize(RawRequest(Text(prompt), Text(size), Text(format), Text(quality), Text(background)))
      == ImageParams(SafeString(Text(prompt), PromptCap), size, format, quality, background)
  {
    var raw := RawRequest(Text(prompt), Text(size), Text(format), Text(quality), Text(background));
    var p := Normalize(raw);
    assert p.size == size by { SafeStringOfClean(size, SizeCap); }
    assert p.outputFormat == format by { SafeStringOfClean(format, FormatCap); }
    assert p.quality == quality by { SafeStringOfClean(quality, QualityCap); }
    assert p.background == background by { SafeStringOfClean(background, BackgroundCap); }
  }

  /** A client that bypasses the widget and sends transparent with jpeg, with an
      otherwise acceptable request, is refused with the compatibility message;
      there is no auto-correction on the server. */
  lemma TransparentJpegRejected(
    prompt: string, size: string, quality: string, provider: ImageParams -> ProviderOutcome)
    requires Trim(prompt) != []
    requires size in AllowedSizes && quality in AllowedQuality
    ensures var raw := RawRequest(Text(prompt), Text(size), Text("jpeg"), Text(quality), Text("transparent"));
      HandleGenerateImage(raw, provider) == Response(400, ErrorBody(TransparentNeedsAlpha))
  {
    var raw := RawRequest(Text(prompt), Text(size), Text("jpeg"), Text(quality), Text("transparent"));
    var p := ImageParams(SafeString(Text(prompt), PromptCap), size, "jpeg", quality, "transparent");
    assert IsTrimmed(size) && 0 < |size| <= SizeCap by { AllowedValuesClean(); }
    assert IsTrimmed(quality) && 0 < |quality| <= QualityCap by { AllowedValuesClean(); }
    assert IsTrimmed("jpeg") && IsTrimmed("transparent");
    NormalizeCleanFields(prompt, size, "jpeg", quality, "transparent");
    assert p.prompt != [] by { SafeStringEmptyIffBlank(raw.prompt, PromptCap); }
    IncompatibleRejected(raw, p, provider);
  }

  lemma IncompatibleRejected(raw: RawRequest, p: ImageParams, provider: ImageParams -> ProviderOutcome)
    requires Normalize(raw) == p && p.prompt != [] && InDomains(p) && !Compatible(p)
    ensures HandleGenerateImage(raw, provider) == Response(400, ErrorBody(TransparentNeedsAlpha))
  {
    assert Validate(raw) == Failure(TransparentNeedsAlpha);
  }

  lemma AcceptedWith(raw: RawRequest, p: ImageParams, data: string, provider: ImageParams -> ProviderOutcome)
    requires Normalize(raw) == p && p.prompt != [] && InDomains(p) && Compatible(p)
    requires provider(p) == Generated(Some(data)) && data != []
    ensures HandleGenerateImage(raw, provider)
      == Response(200, ImageBody(data, p.outputFormat, p.size, p.quality, p.background))
  {
    assert Validate(raw) == Success(p);
  }

  /** The sample request "a red balloon" at 1024x1024, auto quality, auto
      background, png, with a provider that returns image data, is answered 200
      with output_format "png". */
  lemma RedBalloonAccepted(data: string, provider: ImageParams -> ProviderOutcome)
    requires data != []
    requires forall p :: provider(p) == Generated(Some(data))
    ensures var raw := RawRequest(Text("a red balloon"), Text("1024x1024"), Text("png"), Text("auto"), Text("auto"));
      HandleGenerateImage(raw, provider)
        == Response(200, ImageBody(data, "png", "1024x1024", "auto", "auto"))
  {
    var raw := RawRequest(Text("a red balloon"), Text("1024x1024"), Text("png"), Text("auto"), Text("auto"));
    var p := ImageParams("a red balloon", "1024x1024", "png", "auto", "auto");
    assert IsTrimmed("1024x1024") && IsTrimmed("png") && IsTrimmed("auto");
    NormalizeCleanFields("a red balloon", "1024x1024", "png", "auto", "auto");
    assert IsTrimmed("a red balloon");
    SafeStringOfClean("a red balloon", PromptCap);
    AcceptedWith(raw, p, data, provider);
  }
}
