/** The widget and the endpoint together: the JSON the widget sends is the
    request body the handler reads, and the handler's answer is the reply the
    widget interprets. */
module EndToEnd {
  import opened Wrappers
  import opened JsText
  import Server
  import Widget

  /** `JSON.stringify(payload)` as the handler's `req.body` sees it. */
  function ToRaw(p: Widget.Payload): (raw: Server.RawRequest)
  {
    Server.RawRequest(
      Server.Text(p.prompt), Server.Text(p.size), Server.Text(p.outputFormat),
      Server.Text(p.quality), Server.Text(p.background))
  }

  /** `res.status(code).json(body)` as the widget's `fetch` sees it. */
  function ToReply(r: Server.Response): (reply: Widget.Reply)
    requires r.status >= 0
  {
    var body := match r.body
      case ErrorBody(e) => Widget.ReplyBody(Some(e), None, None, None, None)
      case ImageBody(b64, fmt, size, quality, _) => Widget.ReplyBody(None, Some(b64), Some(fmt), Some(size), Some(quality));
    Widget.HttpReply(r.status, body)
  }

  /** The widget's select options are exactly the values the handler allows. */
  lemma OptionsAreAllowed()
    ensures Widget.SizeOptions == Server.AllowedSizes
    ensures Widget.QualityOptions == Server.AllowedQuality
    ensures Widget.BackgroundOptions == Server.AllowedBackground
    ensures Widget.FormatOptions == Server.AllowedFormats
  {
  }

  /** Whatever option values the form holds, a request the widget sends passes
      every check of the handler, with the fields as sent; only a prompt longer
      than the cap is cut. The jpeg correction is what keeps the compatibility
      check from failing. */
  lemma SentRequestsValidate(
    prompt: string, size: string, quality: string, background: string, format: string)
    requires Trim(prompt) != []
    requires size in Widget.SizeOptions && quality in Widget.QualityOptions
    requires background in Widget.BackgroundOptions && format in Widget.FormatOptions
    ensures var sent := Widget.BuildPayload(prompt, size, quality, background, format);
      && sent.Some?
      && Server.Validate(ToRaw(sent.value)) == Success(Server.ImageParams(
           Server.SafeString(Server.Text(Trim(prompt)), Server.PromptCap),
           size, Widget.CorrectedFormat(background, format), quality, background))
  {
    var sent := Widget.BuildPayload(prompt, size, quality, background, format);
    var text := Trim(prompt);
    var fmt := Widget.CorrectedFormat(background, format);
    OptionsAreAllowed();
    Server.AllowedValuesClean();
    Server.NormalizeCleanFields(text, size, fmt, quality, background);
    Server.SafeStringEmptyIffBlank(Server.Text(text), Server.PromptCap);
    TrimIdempotent(prompt);
  }

  /** Every answer other than 200 ends the widget's `try` with the handler's
      own error message, which is what the status line shows. */
  lemma ServerErrorShown(
    raw: Server.RawRequest, provider: Server.ImageParams -> Server.ProviderOutcome,
    payload: Widget.Payload, atob: string -> Result<string, string>)
    requires Server.HandleGenerateImage(raw, provider).status != 200
    ensures var r := Server.HandleGenerateImage(raw, provider);
      r.body.ErrorBody? && Widget.InterpretReply(ToReply(r), payload, atob) == Widget.Fail(r.body.error)
  {
    Server.ErrorAnswersHaveMessages(raw, provider);
  }

  /** A 200 answer is installed with the format, size and quality the handler
      validated and echoed, provided its data decodes. */
  lemma ServerImageInstalled(
    raw: Server.RawRequest, provider: Server.ImageParams -> Server.ProviderOutcome,
    payload: Widget.Payload, atob: string -> Result<string, string>)
    requires Server.HandleGenerateImage(raw, provider).status == 200
    requires atob(Server.HandleGenerateImage(raw, provider).body.b64).Success?
    ensures var r := Server.HandleGenerateImage(raw, provider); var p := Server.Normalize(raw);
      Widget.InterpretReply(ToReply(r), payload, atob)
        == Widget.Install(atob(r.body.b64).value, p.outputFormat, p.size, p.quality)
  {
    Server.SuccessEchoesValidated(raw, provider);
  }

  /** The whole trip with a provider that returns image data for the parameters
      the handler validates, whatever it does on others: the widget sends
      its form, the handler accepts it, and the widget installs the image in
      the format it asked for (png in place of jpeg under a transparent
      background), at the size and quality it asked for. */
  lemma GenerateRoundTrip(
    prompt: string, size: string, quality: string, background: string, format: string,
    data: string, provider: Server.ImageParams -> Server.ProviderOutcome,
    atob: string -> Result<string, string>)
    requires Trim(prompt) != []
    requires size in Widget.SizeOptions && quality in Widget.QualityOptions
    requires background in Widget.BackgroundOptions && format in Widget.FormatOptions
    requires data != [] && atob(data).Success?
    requires provider(Server.ImageParams(
      Server.SafeString(Server.Text(Trim(prompt)), Server.PromptCap),
      size, Widget.CorrectedFormat(background, format), quality, background)) == Server.Generated(Some(data))
    ensures var sent := Widget.BuildPayload(prompt, size, quality, background, format);
      && sent.Some?
      && Widget.InterpretReply(ToReply(Server.HandleGenerateImage(ToRaw(sent.value), provider)), sent.value, atob)
           == Widget.Install(atob(data).value, Widget.CorrectedFormat(background, format), size, quality)
  {
    var sent := Widget.BuildPayload(prompt, size, quality, background, format);
    SentRequestsValidate(prompt, size, quality, background, format);
    var raw := ToRaw(sent.value);
    var p := Server.Validate(raw).value;
    Server.AcceptedWith(raw, p, data, provider);
    ServerImageInstalled(raw, provider, sent.value, atob);
  }
}
