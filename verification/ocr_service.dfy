/** Text extraction from uploaded files: plain text and JSON are read as they are, images and
    PDFs go to the generative model, whose reply is read as JSON when possible; nothing modelled here
    fails. The model's reply or error and JSON parsing are parameters. */
module OcrService {
  import opened Common
  import opened JsText
  import opened GeminiService

  /** The extractor of this service: the same brace slice and fence fallback as the analysis
      service's, but without the retry on sanitised text. */
  function ExtractJsonStrict(text: string, parse: string -> Option<Json>): Option<Json> {
    match Candidate(text)
    case Some(c) => parse(c)
    case None => parse(StripFences(text))
  }

  /** Whatever this extractor reads, the analysis service's extractor reads the same way; the
      two differ only on a brace slice that parses after sanitising and not before. */
  lemma StrictIsNarrower(text: string, parse: string -> Option<Json>)
    ensures ExtractJsonStrict(text, parse).Some? ==> ExtractJson(text, parse) == ExtractJsonStrict(text, parse)
    ensures ExtractJsonStrict(text, parse) != ExtractJson(text, parse) ==>
              Candidate(text).Some? && parse(Candidate(text).value).None?
              && ExtractJson(text, parse) == parse(Sanitize(Candidate(text).value))
  {
  }

  /** The result: a parsed reply, or `{text, structuredData: {}}`. */
  datatype Extraction = Parsed(json: Json) | TextOnly(text: string)

  predicate IsPlainText(mimeType: string) {
    mimeType == "text/plain" || mimeType == "application/json"
  }

  predicate UsesModel(mimeType: string) {
    StartsWith(mimeType, "image/") || mimeType == "application/pdf"
  }

  /** The MIME dispatch. `content` is the file read as UTF-8 and `reply` the model's text or
      error message. */
  function ExtractText(mimeType: string, content: string, reply: Result<string, string>,
                       parse: string -> Option<Json>): (r: Extraction)
    ensures IsPlainText(mimeType) ==> r == TextOnly(content)
    ensures !IsPlainText(mimeType) && !UsesModel(mimeType) ==> r == TextOnly("")
    ensures !IsPlainText(mimeType) && UsesModel(mimeType) ==>
              match reply
              case Failure(e) => r == TextOnly("[Error extracting text with AI: " + e + "]")
              case Success(t) => r == (if ExtractJsonStrict(t, parse).Some? then Parsed(ExtractJsonStrict(t, parse).value)
                                       else TextOnly(t))
  {
    if IsPlainText(mimeType) then TextOnly(content)
    else if UsesModel(mimeType) then
      match reply
      case Failure(e) => TextOnly("[Error extracting text with AI: " + e + "]")
      case Success(t) =>
        match ExtractJsonStrict(t, parse)
        case Some(j) => Parsed(j)
        case None => TextOnly(t)
    else TextOnly("")
  }

  /** Plain text and JSON files never depend on the model, images and PDFs never lose the
      model's reply (it comes back parsed or as text), and a model error is reported in the
      text with a fixed prefix. */
  lemma ExtractTextFacts(mimeType: string, content: string, reply: Result<string, string>,
                         other: Result<string, string>, parse: string -> Option<Json>)
    ensures IsPlainText(mimeType) ==>
              ExtractText(mimeType, content, reply, parse) == ExtractText(mimeType, content, other, parse)
    ensures StartsWith(mimeType, "image/") && reply.Success? && ExtractJsonStrict(reply.value, parse).None? ==>
              ExtractText(mimeType, content, reply, parse) == TextOnly(reply.value)
    ensures UsesModel(mimeType) && !IsPlainText(mimeType) && reply.Failure? ==>
              StartsWith(ExtractText(mimeType, content, reply, parse).text, "[Error extracting text with AI: ")
  {
    if StartsWith(mimeType, "image/") {
      assert mimeType[0] == "image/"[0] == 'i';
    }
    if UsesModel(mimeType) && !IsPlainText(mimeType) && reply.Failure? {
      var t := "[Error extracting text with AI: " + reply.error + "]";
      assert t[..|"[Error extracting text with AI: "|] == "[Error extracting text with AI: ";
    }
  }
}
