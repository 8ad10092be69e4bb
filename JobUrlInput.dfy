/**
 * The job-URL input component: its state (the typed URL, the error line, the
 * loading flag, the manual-entry form), the guard in front of the fetch, the
 * choice of the message shown when a fetch route answers with an error, and
 * the manual-entry form with its validation.
 *
 * The HTTP exchange is a parameter: the component receives the outcome of its
 * one request and an HTML parser oracle; `onJobFetched` is modelled by
 * returning the job handed to it.
 */
module JobUrlInput {
  import opened JsString
  import opened Json
  import opened JobTypes
  import opened TextNormalise
  import opened Extractor

  const InvalidUrlMessage: string := "Please enter a valid URL"
  const ManualFieldsMessage: string := "Please enter company name, job title, and description"
  const FetchFailedMessage: string := "Failed to fetch"
  /** The error line when what was thrown is not an `Error`. */
  const ThrownValueMessage: string := "Failed to fetch job description"
  const ManualUrl: string := "manually-entered"
  /** The phrase that makes the error line offer manual entry. */
  const ManualOfferMarker: string := "not currently supported"
  const PlainEndpoint: string := "/api/fetch-job"
  const RenderEndpoint: string := "/api/fetch-job-puppeteer"

  /** The POST the component sends: endpoint and JSON body `{ url, forcePuppeteer }`. */
  datatype Request = Request(endpoint: string, url: string, forcePuppeteer: bool)

  /**
   * What came back for the request: a response with a success status and its
   * `html`, a response with an error status and its error body, or a throw
   * (network failure, a body that is not JSON): an `Error` with its message,
   * or `None` for a thrown value that is not an `Error`.
   */
  datatype Outcome = Ok(html: string) | NotOk(body: FetchJobError) | Failed(thrown: Option<string>)

  function Endpoint(usePuppeteer: bool): (e: string)
    ensures usePuppeteer <==> e == RenderEndpoint
    ensures !usePuppeteer <==> e == PlainEndpoint
  {
    if usePuppeteer then RenderEndpoint else PlainEndpoint
  }

  /** JavaScript truthiness of an optional string member. */
  predicate Present(d: Option<string>) {
    d.Some? && d.value != []
  }

  /**
   * The error line for an error response: `details` when the site is dynamic
   * and `details` is truthy, otherwise the first truthy of `details`, `error`
   * and `'Failed to fetch'`.
   */
  function ErrorMessage(e: FetchJobError): (m: string)
    ensures m != []
    ensures Present(e.details) ==> m == e.details.value
    ensures !Present(e.details) && e.error != [] ==> m == e.error
    ensures !Present(e.details) && e.error == [] ==> m == FetchFailedMessage
  {
    if e.isDynamic && Present(e.details) then e.details.value
    else if Present(e.details) then e.details.value
    else if e.error != [] then e.error
    else FetchFailedMessage
  }

  /** The dynamic-site branch of the message choice picks what the other branch would pick. */
  lemma ErrorMessageIgnoresDynamic(e: FetchJobError)
    ensures ErrorMessage(e) == ErrorMessage(e.(isDynamic := false))
  {
  }

  /** The error line offers manual entry exactly when it contains the marker phrase. */
  predicate OffersManualEntry(error: string) {
    Includes(error, ManualOfferMarker)
  }

  /**
   * A field counts as filled when it is not white space only, which is when
   * its `trim()` is not empty (`FilledIffTrimmedNonEmpty`).
   */
  predicate Filled(field: string) {
    !Blank(field)
  }

  lemma FilledIffTrimmedNonEmpty(field: string)
    ensures Filled(field) <==> Trim(field) != []
  {
    TrimEmptyIff(field);
  }

  /**
   * The job built from the manual form, or `None` when one of company, title
   * and description is blank; the fields are kept untrimmed and the URL falls
   * back to `'manually-entered'`.
   */
  function ManualJob(title: string, company: string, description: string, url: string): (j: Option<JobData>)
    ensures j.Some? <==> Filled(title) && Filled(company) && Filled(description)
    ensures j.Some? ==> j.value.title == title && j.value.company == Some(company) && j.value.content == description
    ensures j.Some? ==> j.value.url == (if url == [] then ManualUrl else url)
    ensures j.Some? ==> j.value.company.value != [] && j.value.url != []
  {
    if !Filled(title) || !Filled(description) || !Filled(company) then None
    else Some(JobData(title, Some(company), description, if url == [] then ManualUrl else url))
  }

  /** The job handed on after a successful fetch: the extraction with the typed URL attached. */
  function FetchedJob(html: string, url: string, parseHtml: string -> Document, parse: string -> Option<Json>): (j: JobData)
    ensures j.url == url
    ensures Trimmed(j.content) && NoBlankRun(j.content)
  {
    ExtractShape(parseHtml(html), url, parse);
    WithUrl(Extract(parseHtml(html), url, parse), url)
  }

  /**
   * The error line after the request completes: empty on success, the error
   * body's message on an error status, and for a throw the `Error`'s own
   * message (empty when it has none) or the fixed text for any other value.
   */
  function ErrorAfter(outcome: Outcome): (m: string)
    ensures outcome.Ok? ==> m == []
    ensures outcome.NotOk? ==> m != [] && m == ErrorMessage(outcome.body)
    ensures outcome.Failed? && outcome.thrown.Some? ==> m == outcome.thrown.value
    ensures outcome.Failed? && outcome.thrown.None? ==> m == ThrownValueMessage
  {
    match outcome
    case Ok(_) => []
    case NotOk(body) => ErrorMessage(body)
    case Failed(thrown) => if thrown.Some? then thrown.value else ThrownValueMessage
  }

  /** The extractor run on the fetched page, with the typed URL attached. */
  method ExtractAndAttach(html: string, url: string, parseHtml: string -> Document, parse: string -> Option<Json>)
    returns (job: JobData)
    ensures job == FetchedJob(html, url, parseHtml, parse)
  {
    var extracted := ExtractJobContent(parseHtml(html), url, parse);
    job := WithUrl(extracted, url);
  }

  class JobUrlInputState {
    var url: string
    var loading: bool
    var error: string
    var showManualInput: bool
    var manualTitle: string
    var manualCompany: string
    var manualDescription: string
    const usePuppeteer: bool

    constructor(usePuppeteer: bool)
      ensures this.usePuppeteer == usePuppeteer
      ensures url == [] && !loading && error == [] && !showManualInput
      ensures manualTitle == [] && manualCompany == [] && manualDescription == []
    {
      this.usePuppeteer := usePuppeteer;
      url, loading, error, showManualInput := [], false, [], false;
      manualTitle, manualCompany, manualDescription := [], [], [];
    }

    /** Typing in the URL box. */
    method EditUrl(value: string)
      modifies this
      ensures url == value
      ensures loading == old(loading) && error == old(error) && showManualInput == old(showManualInput)
      ensures manualTitle == old(manualTitle) && manualCompany == old(manualCompany) && manualDescription == old(manualDescription)
    {
      url := value;
    }

    /**
     * The fetch button: a blank URL sets the validation error and sends
     * nothing; otherwise one request goes to the endpoint the component was
     * configured with, and on success the extracted job is handed on and the
     * URL box cleared. The loading flag is down again whenever a request was sent.
     */
    method FetchJob(outcome: Outcome, parseHtml: string -> Document, parse: string -> Option<Json>)
      returns (sent: Option<Request>, fetched: Option<JobData>)
      modifies this
      ensures sent.None? <==> !Filled(old(url))
      ensures !Filled(old(url)) ==> fetched.None? && error == InvalidUrlMessage && url == old(url) && loading == old(loading)
      ensures Filled(old(url)) ==> sent == Some(Request(Endpoint(usePuppeteer), old(url), usePuppeteer)) && !loading
      ensures Filled(old(url)) ==> error == ErrorAfter(outcome)
      ensures Filled(old(url)) && outcome.Ok? ==> fetched == Some(FetchedJob(outcome.html, old(url), parseHtml, parse)) && url == []
      ensures Filled(old(url)) && !outcome.Ok? ==> fetched.None? && url == old(url)
      ensures showManualInput == old(showManualInput)
      ensures manualTitle == old(manualTitle) && manualCompany == old(manualCompany) && manualDescription == old(manualDescription)
    {
      if !Filled(url) {
        error := InvalidUrlMessage;
        return None, None;
      }
      var typed := url;
      loading := true;
      error := [];
      sent := Some(Request(Endpoint(usePuppeteer), typed, usePuppeteer));
      fetched := None;
      match outcome {
        case NotOk(body) =>
          error := ErrorMessage(body);
        case Failed(thrown) =>
          error := if thrown.Some? then thrown.value else ThrownValueMessage;
        case Ok(html) =>
          var job := ExtractAndAttach(html, typed, parseHtml, parse);
          fetched := Some(job);
          url := [];
      }
      loading := false;
    }

    /** "Try a different job": clears the URL and the error, then tells the parent. */
    method ClearJob()
      modifies this
      ensures url == [] && error == []
      ensures loading == old(loading) && showManualInput == old(showManualInput)
      ensures manualTitle == old(manualTitle) && manualCompany == old(manualCompany) && manualDescription == old(manualDescription)
    {
      url, error := [], [];
    }

    /** Either link that opens the manual form. */
    method ShowManualInput()
      modifies this
      ensures showManualInput
      ensures url == old(url) && error == old(error) && loading == old(loading)
      ensures manualTitle == old(manualTitle) && manualCompany == old(manualCompany) && manualDescription == old(manualDescription)
    {
      showManualInput := true;
    }

    /** Typing in the manual form. */
    method EditManual(title: string, company: string, description: string)
      modifies this
      ensures manualTitle == title && manualCompany == company && manualDescription == description
      ensures url == old(url) && error == old(error) && loading == old(loading) && showManualInput == old(showManualInput)
    {
      manualTitle, manualCompany, manualDescription := title, company, description;
    }

    /** Cancel on the manual form: hides it and empties its fields. */
    method CancelManual()
      modifies this
      ensures !showManualInput && manualTitle == [] && manualCompany == [] && manualDescription == []
      ensures url == old(url) && error == old(error) && loading == old(loading)
    {
      showManualInput := false;
      manualTitle, manualCompany, manualDescription := [], [], [];
    }

    /**
     * "Use This Job Description": with a blank field only the error line
     * changes; otherwise the job is handed on, the form is hidden and emptied,
     * the URL box is cleared and the error line is left as it was.
     */
    method SubmitManual() returns (fetched: Option<JobData>)
      modifies this
      ensures fetched == ManualJob(old(manualTitle), old(manualCompany), old(manualDescription), old(url))
      ensures fetched.None? ==> error == ManualFieldsMessage && url == old(url) && showManualInput == old(showManualInput)
      ensures fetched.None? ==> manualTitle == old(manualTitle) && manualCompany == old(manualCompany) && manualDescription == old(manualDescription)
      ensures fetched.Some? ==> error == old(error) && url == [] && !showManualInput
      ensures fetched.Some? ==> manualTitle == [] && manualCompany == [] && manualDescription == []
      ensures loading == old(loading)
    {
      fetched := ManualJob(manualTitle, manualCompany, manualDescription, url);
      if fetched.None? {
        error := ManualFieldsMessage;
        return;
      }
      showManualInput := false;
      manualTitle, manualCompany, manualDescription := [], [], [];
      url := [];
    }
  }
}
