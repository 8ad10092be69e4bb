/**
 * The resume-parsing route: a request with resume text is answered with the
 * model's structured reading of it, stamped with the time of parsing, and
 * with the text echoed back; a blank request is refused with 400, a missing
 * API key with 500, and anything thrown becomes a 500 with `success: false`.
 */
module ParseRoute {
  import opened JsString
  import opened Json
  import opened CodeFences
  import opened LlmReply

  const TextRequiredMessage: string := "Resume text is required"
  const ParseFailedMessage: string := "Failed to parse resume"
  const NotTextMessage: string := "Failed to parse resume with Claude"
  /** V8's message when `resumeText.trim` is called on a value that is not a string. */
  const TrimNotFunctionMessage: string := "resumeText.trim is not a function"

  /** The resume as returned: the parsed value spread, with `lastUpdated` set to the time of parsing. */
  function Stamp(parsed: Json, now: string): (resume: JsonObject)
    ensures resume.Keys == Spread(parsed).Keys + {"lastUpdated"}
    ensures resume["lastUpdated"] == JStr(now)
    ensures forall k :: k in Spread(parsed) && k != "lastUpdated" ==> resume[k] == Spread(parsed)[k]
  {
    Spread(parsed)["lastUpdated" := JStr(now)]
  }

  /** The request's `resumeText` is a string with something other than whitespace in it. */
  predicate Accepted(body: JsonObject) {
    var t := Member(body, "resumeText");
    t.Value? && t.v.JStr? && Trim(t.v.s) != []
  }

  /** The request's `resumeText` is missing or falsy, or a string of whitespace: the 400 case. */
  predicate Blank(body: JsonObject) {
    var t := Member(body, "resumeText");
    !t.IsTruthy() || (t.v.JStr? && Trim(t.v.s) == [])
  }

  /** `extractStructuredResume` from the model's reply onwards, and the response built from it. */
  function Answer(resumeText: string, reply: Reply, parse: string -> Parsed, now: string): (r: Response)
    ensures r.status == 200 <==> reply.TextReply? && parse(Unfenced(reply.text)).Parsed?
    ensures r.status != 200 ==> r.status == 500 && "success" in r.body && r.body["success"] == JBool(false)
    ensures r.status == 200 ==> r.body.Keys == {"success", "resume", "rawText"} && r.body["rawText"] == JStr(resumeText)
  {
    match reply
    case CallFailed(message) => Failure(ParseFailedMessage, message)
    case OtherBlock => Failure(ParseFailedMessage, NotTextMessage)
    case TextReply(text, _, _) =>
      match parse(Unfenced(text))
      case SyntaxError(message) => Failure(ParseFailedMessage, message)
      case Parsed(v) =>
        Response(200, map["success" := JBool(true), "resume" := JObj(Stamp(v, now)), "rawText" := JStr(resumeText)])
  }

  /**
   * `POST /api/parse-resume`: validation, then the API key, then one model
   * call whose reply is stripped of code fences and parsed.
   */
  method Post(body: JsonObject, apiKey: bool, reply: Reply, parse: string -> Parsed, now: string)
    returns (r: Response, modelCalls: nat)
    ensures modelCalls == (if Accepted(body) && apiKey then 1 else 0)
    ensures Blank(body) ==> r == ErrorResponse(400, TextRequiredMessage)
    ensures !Blank(body) && !Accepted(body) ==> r == Failure(ParseFailedMessage, TrimNotFunctionMessage)
    ensures Accepted(body) && !apiKey ==> r == ErrorResponse(500, ApiKeyMessage)
    ensures Accepted(body) && apiKey ==> r == Answer(Member(body, "resumeText").v.s, reply, parse, now)
  {
    var resumeText := Member(body, "resumeText");
    if !resumeText.IsTruthy() {
      return ErrorResponse(400, TextRequiredMessage), 0;
    }
    if !resumeText.v.JStr? {
      return Failure(ParseFailedMessage, TrimNotFunctionMessage), 0;
    }
    var text := resumeText.v.s;
    if Trim(text) == [] {
      return ErrorResponse(400, TextRequiredMessage), 0;
    }
    if !apiKey {
      return ErrorResponse(500, ApiKeyMessage), 0;
    }
    modelCalls := 1;
    match reply {
      case CallFailed(message) =>
        r := Failure(ParseFailedMessage, message);
      case OtherBlock =>
        r := Failure(ParseFailedMessage, NotTextMessage);
      case TextReply(replyText, _, _) =>
        var jsonText := StripCodeFences(replyText);
        match parse(jsonText) {
          case SyntaxError(message) =>
            r := Failure(ParseFailedMessage, message);
          case Parsed(parsedData) =>
            var resume := Stamp(parsedData, now);
            r := Response(200, map["success" := JBool(true), "resume" := JObj(resume), "rawText" := JStr(text)]);
        }
    }
  }

  /**
   * A successful parse keeps every field of the model's object except
   * `lastUpdated`, which is set to the time of parsing, and echoes the text
   * received.
   */
  lemma SuccessShape(resumeText: string, reply: Reply, parse: string -> Parsed, now: string, fields: JsonObject)
    requires reply.TextReply? && parse(Unfenced(reply.text)) == Parsed(JObj(fields))
    ensures var r := Answer(resumeText, reply, parse, now);
      && r.status == 200 && r.body["rawText"] == JStr(resumeText)
      && r.body["resume"] == JObj(fields["lastUpdated" := JStr(now)])
  {
  }
}
