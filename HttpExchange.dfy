/**
 * What the two job-fetch routes share: the outcome of a server-side `fetch`,
 * the JSON responses they send, the message of the error thrown on a failed
 * status, and the "some pattern is a substring" test behind both site lists.
 */
module HttpExchange {
  import opened JsString
  import opened JobTypes

  /** The body of a route's JSON response: `{ html }` or an error body. */
  datatype Body = Page(html: string) | Failure(e: FetchJobError)

  datatype Response = Response(status: nat, body: Body)

  /**
   * A server-side `fetch` of the job URL: either a response (its status and
   * its text) or a throw (DNS failure, refused connection, ...) with its message.
   */
  datatype FetchResult = Answered(status: nat, text: string) | Unreachable(message: string)

  /** `response.ok`: a status in the 200 range. */
  predicate Ok(status: nat) {
    200 <= status <= 299
  }

  const UrlRequiredMessage: string := "URL is required"
  const FetchFailedError: string := "Failed to fetch job description"
  const StatusPrefix: string := "HTTP error! status: "

  /** The message of the error thrown on a status that is not ok. */
  function StatusError(status: nat): (m: string)
    ensures StartsWith(m, StatusPrefix) && |m| > |StatusPrefix|
    ensures forall i :: |StatusPrefix| <= i < |m| ==> IsDigit(m[i])
    ensures DigitsValue(m[|StatusPrefix|..]) == status
  {
    var m := StatusPrefix + Decimal(status);
    assert m[|StatusPrefix|..] == Decimal(status);
    DecimalRoundTrip(status);
    m
  }

  /** The 400 response to a request without a (truthy) `url`. */
  function UrlRequired(): (r: Response)
    ensures r.status == 400 && r.body.Failure?
    ensures r.body.e == FetchJobError(UrlRequiredMessage, None, false)
  {
    Response(400, Failure(FetchJobError(UrlRequiredMessage, None, false)))
  }

  /** The 500 response the `catch` block builds from a thrown error's message. */
  function Caught(message: string): (r: Response)
    ensures r.status == 500 && r.body.Failure?
    ensures r.body.e.error == FetchFailedError && r.body.e.details == Some(message) && !r.body.e.isDynamic
  {
    Response(500, Failure(FetchJobError(FetchFailedError, Some(message), false)))
  }

  /** The text of a fetched page, or the message of what was thrown. */
  datatype Fetched = Text(html: string) | Thrown(message: string)

  /** A plain `fetch` of the page: a status that is not ok is thrown as an error. */
  function FetchText(result: FetchResult): (f: Fetched)
    ensures result.Answered? && Ok(result.status) <==> f.Text?
    ensures f.Text? ==> f.html == result.text
    ensures result.Answered? && !Ok(result.status) ==> f == Thrown(StatusError(result.status))
    ensures result.Unreachable? ==> f == Thrown(result.message)
  {
    match result
    case Unreachable(message) => Thrown(message)
    case Answered(status, text) => if Ok(status) then Text(text) else Thrown(StatusError(status))
  }

  /** `patterns.some(p => url.includes(p))`. */
  function IncludesAny(url: string, patterns: seq<string>): (b: bool)
    ensures b <==> exists i :: 0 <= i < |patterns| && Includes(url, patterns[i])
  {
    if patterns == [] then false
    else Includes(url, patterns[0]) || IncludesAny(url, patterns[1..])
  }
}
