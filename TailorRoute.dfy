/**
 * The resume-tailoring route: the model rewrites the resume for the job, and
 * the route assembles the tailored resume from the model's object, the job's
 * URL, title and description as the client sent them, and the time of
 * tailoring; it reports the tokens the call used. A request without a resume
 * or a job description is refused with 400, a missing API key with 500, and
 * anything thrown becomes a 500 with `success: false`.
 */
module TailorRoute {
  import opened JsString
  import opened Json
  import opened CodeFences
  import opened LlmReply

  const FieldsRequiredMessage: string := "Resume and job description are required"
  const TailorFailedMessage: string := "Failed to tailor resume"
  const NotTextMessage: string := "Failed to tailor resume with Claude"

  /** The fields the route sets over the model's tailored resume. */
  const OwnFields: set<string> := {"jobUrl", "jobTitle", "jobDescription", "tailoredDate", "changes", "lastUpdated"}

  /** `value || ''` for a request member. */
  function OrEmpty(r: Read): (v: Json)
    ensures r.IsTruthy() ==> v == r.v
    ensures !r.IsTruthy() ==> v == JStr("")
  {
    if r.IsTruthy() then r.v else JStr("")
  }

  /** A request the route tailors for: a truthy `resume` and a truthy `jobDescription`. */
  predicate Complete(body: JsonObject) {
    Member(body, "resume").IsTruthy() && Member(body, "jobDescription").IsTruthy()
  }

  /**
   * The tailored resume: the model's `tailoredResume` spread, then `jobUrl`
   * and `jobTitle` (or `''`), the job description as received, the time of
   * tailoring twice, and the model's `changes` (dropped when it has none).
   */
  function Assemble(result: Json, body: JsonObject, now: string): (t: JsonObject)
    requires !result.JNull? && Member(body, "jobDescription").Value?
    ensures t.Keys == SpreadRead(Get(result, "tailoredResume")).Keys + OwnFields - (if Get(result, "changes").Value? then {} else {"changes"})
    ensures t["jobUrl"] == OrEmpty(Member(body, "jobUrl")) && t["jobTitle"] == OrEmpty(Member(body, "jobTitle"))
    ensures t["jobDescription"] == Member(body, "jobDescription").v
    ensures t["tailoredDate"] == JStr(now) && t["lastUpdated"] == JStr(now)
    ensures Get(result, "changes").Value? ==> t["changes"] == Get(result, "changes").v
    ensures forall k :: k in SpreadRead(Get(result, "tailoredResume")) && k !in OwnFields ==>
      t[k] == SpreadRead(Get(result, "tailoredResume"))[k]
  {
    var base := SpreadRead(Get(result, "tailoredResume"));
    var withJob := base["jobUrl" := OrEmpty(Member(body, "jobUrl"))]
                       ["jobTitle" := OrEmpty(Member(body, "jobTitle"))]
                       ["jobDescription" := Member(body, "jobDescription").v]
                       ["tailoredDate" := JStr(now)];
    Put(withJob, "changes", Get(result, "changes"))["lastUpdated" := JStr(now)]
  }

  /** The `usage` member: the two counts the service reports and their sum. */
  function Usage(inputTokens: nat, outputTokens: nat): (u: JsonObject)
    ensures {"inputTokens", "outputTokens", "totalTokens"} <= u.Keys
    ensures u["totalTokens"].JNumber? && u["inputTokens"].JNumber? && u["outputTokens"].JNumber?
    ensures u["totalTokens"].n == u["inputTokens"].n + u["outputTokens"].n
    ensures u["inputTokens"].n == inputTokens as real && u["outputTokens"].n == outputTokens as real
  {
    var totalTokens := inputTokens + outputTokens;
    map["inputTokens" := JNumber(inputTokens as real), "outputTokens" := JNumber(outputTokens as real),
        "totalTokens" := JNumber(totalTokens as real)]
  }

  /** The success body: the tailored resume, the model's explanation when it gave one, and the usage. */
  function SuccessBody(result: Json, body: JsonObject, now: string, inputTokens: nat, outputTokens: nat): (b: JsonObject)
    requires !result.JNull? && Member(body, "jobDescription").Value?
    ensures "success" in b && b["success"] == JBool(true)
    ensures "tailoredResume" in b && b["tailoredResume"] == JObj(Assemble(result, body, now))
    ensures "usage" in b && b["usage"] == JObj(Usage(inputTokens, outputTokens))
    ensures "explanation" in b <==> Get(result, "explanation").Value?
  {
    var m := map["success" := JBool(true), "tailoredResume" := JObj(Assemble(result, body, now))];
    Put(m, "explanation", Get(result, "explanation"))["usage" := JObj(Usage(inputTokens, outputTokens))]
  }

  /** The response built from the model's reply to a complete request. */
  function Answer(body: JsonObject, reply: Reply, parse: string -> Parsed, now: string): (r: Response)
    requires Complete(body)
    ensures r.status == 200 <==> reply.TextReply? && parse(Unfenced(reply.text)).Parsed? && !parse(Unfenced(reply.text)).value.JNull?
    ensures r.status != 200 ==> r.status == 500 && "success" in r.body && r.body["success"] == JBool(false)
    ensures r.status == 200 ==>
      && "tailoredResume" in r.body
      && r.body["tailoredResume"] == JObj(Assemble(parse(Unfenced(reply.text)).value, body, now))
  {
    match reply
    case CallFailed(message) => Failure(TailorFailedMessage, message)
    case OtherBlock => Failure(TailorFailedMessage, NotTextMessage)
    case TextReply(text, inputTokens, outputTokens) =>
      match parse(Unfenced(text))
      case SyntaxError(message) => Failure(TailorFailedMessage, message)
      case Parsed(result) =>
        if result.JNull? then Failure(TailorFailedMessage, NullRead("tailoredResume"))
        else Response(200, SuccessBody(result, body, now, inputTokens, outputTokens))
  }

  /**
   * The route's response to a request: 400 before any model call when the
   * resume or the job description is missing, 500 when no API key is
   * configured, otherwise the answer built from the model's reply.
   */
  function Respond(body: JsonObject, apiKey: bool, reply: Reply, parse: string -> Parsed, now: string): (r: Response)
    ensures !Complete(body) ==> r == ErrorResponse(400, FieldsRequiredMessage)
    ensures Complete(body) && !apiKey ==> r == ErrorResponse(500, ApiKeyMessage)
    ensures Complete(body) && apiKey ==> r == Answer(body, reply, parse, now)
    ensures r.status == 200 || r.status == 400 || r.status == 500
    ensures r.status == 200 ==> "tailoredResume" in r.body && r.body["tailoredResume"].JObj?
  {
    if !Complete(body) then ErrorResponse(400, FieldsRequiredMessage)
    else if !apiKey then ErrorResponse(500, ApiKeyMessage)
    else Answer(body, reply, parse, now)
  }

  /**
   * `POST /api/tailor-resume`: validation, then the API key, then one model
   * call whose reply is stripped of code fences, parsed and assembled.
   */
  method Post(body: JsonObject, apiKey: bool, reply: Reply, parse: string -> Parsed, now: string)
    returns (r: Response, modelCalls: nat)
    ensures modelCalls == (if Complete(body) && apiKey then 1 else 0)
    ensures r == Respond(body, apiKey, reply, parse, now)
  {
    var resume, jobDescription := Member(body, "resume"), Member(body, "jobDescription");
    if !resume.IsTruthy() || !jobDescription.IsTruthy() {
      return ErrorResponse(400, FieldsRequiredMessage), 0;
    }
    if !apiKey {
      return ErrorResponse(500, ApiKeyMessage), 0;
    }
    modelCalls := 1;
    match reply {
      case CallFailed(message) =>
        r := Failure(TailorFailedMessage, message);
      case OtherBlock =>
        r := Failure(TailorFailedMessage, NotTextMessage);
      case TextReply(text, inputTokens, outputTokens) =>
        var jsonText := StripCodeFences(text);
        match parse(jsonText) {
          case SyntaxError(message) =>
            r := Failure(TailorFailedMessage, message);
          case Parsed(result) =>
            if result.JNull? {
              r := Failure(TailorFailedMessage, NullRead("tailoredResume"));
            } else {
              r := Response(200, SuccessBody(result, body, now, inputTokens, outputTokens));
            }
        }
    }
  }

  /**
   * The route's own fields override same-named fields of the model's
   * object: whatever the model put in `jobUrl`, `jobTitle` or
   * `jobDescription`, the client's values are returned.
   */
  lemma OwnFieldsOverride(result: Json, body: JsonObject, now: string, fields: JsonObject)
    requires result == JObj(map["tailoredResume" := JObj(fields)])
    requires Member(body, "jobDescription").Value?
    ensures var t := Assemble(result, body, now);
      && t["jobUrl"] == OrEmpty(Member(body, "jobUrl"))
      && t["jobTitle"] == OrEmpty(Member(body, "jobTitle"))
      && t["jobDescription"] == Member(body, "jobDescription").v
      && "changes" !in t
      && forall k :: k in fields && k !in OwnFields ==> k in t && t[k] == fields[k]
  {
    assert Get(result, "changes").Undefined?;
  }
}
