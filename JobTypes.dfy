/**
 * The records exchanged between the job-posting fetch routes and the client
 * component: the job data the wizard keeps, the error body the routes send,
 * and the extractor's result (job data without its URL).
 */
module JobTypes {
  import opened JsString

  /** A job posting; `company` is absent when none was found or entered. */
  datatype JobData = JobData(title: string, company: Option<string>, content: string, url: string)

  /** What the extractor returns: a `JobData` without its `url`. */
  datatype Extracted = Extracted(title: string, company: Option<string>, content: string)

  /** The error body of both fetch routes; an absent `isDynamic` reads as false. */
  datatype FetchJobError = FetchJobError(error: string, details: Option<string>, isDynamic: bool)

  /** `{ ...extracted, url }`. */
  function WithUrl(e: Extracted, url: string): (j: JobData)
    ensures j.url == url
    ensures j.title == e.title && j.company == e.company && j.content == e.content
  {
    JobData(e.title, e.company, e.content, url)
  }
}
