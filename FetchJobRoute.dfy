/**
 * The plain job-fetch route (refusal mode): a request without a URL is
 * answered 400, a URL on a known script-rendered job board is refused with 400
 * before any network request, and any other URL is fetched once, server side,
 * with its page text returned as `{ html }` or a failure turned into a 500.
 *
 * The request body's `url` is an optional string; the outbound `fetch` is an
 * oracle, and the handler reports the URLs it fetched.
 */
module FetchJobRoute {
  import opened JsString
  import opened JobTypes
  import opened HttpExchange
  import JobUrlInput

  /** Job boards that render their postings with client-side scripts. */
  const DynamicSitePatterns: seq<string> := [
    "myworkdayjobs.com",
    "workday.com",
    "lever.co",
    "reval.site",
    "careers.servicenow.com",
    "royalcaribbeangroup.com"
  ]

  const RefusalError: string := "Dynamic site detected"
  /** The refusal's explanation, written in three parts around the phrase the client looks for. */
  const RefusalDetails: string := RefusalLead + "not currently supported" + RefusalTail
  const RefusalLead: string := "This job board uses JavaScript to load content and is "
  const RefusalTail: string :=
    ". Please try copying the job description directly from your browser, or use job boards like Greenhouse that work with this tool."

  /** A case-sensitive substring test of the raw URL against the list. */
  predicate IsDynamicSite(url: string) {
    IncludesAny(url, DynamicSitePatterns)
  }

  /** The route's response together with the URLs it fetched on the way. */
  datatype Handled = Handled(response: Response, fetched: seq<string>)

  /** The 400 response to a dynamic site. */
  function Refusal(): (r: Response)
    ensures r.status == 400 && r.body.Failure? && r.body.e.isDynamic
    ensures r.body.e.error == RefusalError && r.body.e.details == Some(RefusalDetails)
  {
    Response(400, Failure(FetchJobError(RefusalError, Some(RefusalDetails), true)))
  }

  /** The response built from one server-side fetch. */
  function Relay(result: FetchResult): (r: Response)
    ensures r.status == 200 <==> result.Answered? && Ok(result.status)
    ensures r.status == 200 ==> r.body == Page(result.text)
    ensures r.status != 200 ==> r == Caught(FetchText(result).message)
  {
    match FetchText(result)
    case Text(html) => Response(200, Page(html))
    case Thrown(message) => Caught(message)
  }

  /** `POST /api/fetch-job`. */
  function Post(url: Option<string>, fetch: string -> FetchResult): (h: Handled)
    ensures h.fetched == [] || (url.Some? && h.fetched == [url.value])
    ensures h.fetched != [] <==> url.Some? && url.value != [] && !IsDynamicSite(url.value)
  {
    if url.None? || url.value == [] then Handled(UrlRequired(), [])
    else if IsDynamicSite(url.value) then Handled(Refusal(), [])
    else Handled(Relay(fetch(url.value)), [url.value])
  }

  /** A request without a URL, or with an empty one, is answered 400 and nothing is fetched. */
  lemma PostWithoutUrl(url: Option<string>, fetch: string -> FetchResult)
    requires url.None? || url.value == []
    ensures Post(url, fetch) == Handled(UrlRequired(), [])
  {
  }

  /** A URL naming a listed job board anywhere is refused before any network request. */
  lemma PostRefusesDynamic(url: string, fetch: string -> FetchResult, i: nat)
    requires i < |DynamicSitePatterns| && Includes(url, DynamicSitePatterns[i])
    ensures var h := Post(Some(url), fetch);
      h.fetched == [] && h.response.status == 400 && h.response.body.e.isDynamic
  {
  }

  /** Any other URL is fetched exactly once; its text comes back unchanged on an ok status. */
  lemma PostRelays(url: string, fetch: string -> FetchResult)
    requires url != [] && !IsDynamicSite(url)
    ensures var h := Post(Some(url), fetch);
      && h.fetched == [url]
      && (fetch(url).Answered? && Ok(fetch(url).status) ==> h.response == Response(200, Page(fetch(url).text)))
      && (fetch(url).Answered? && !Ok(fetch(url).status) ==> h.response == Caught(StatusError(fetch(url).status)))
      && (fetch(url).Unreachable? ==> h.response == Caught(fetch(url).message))
  {
  }

  /**
   * The refusal's `details` carries the phrase on which the input component
   * offers manual entry, and that is the message the component shows.
   */
  lemma RefusalOffersManualEntry()
    ensures JobUrlInput.ErrorMessage(Refusal().body.e) == RefusalDetails
    ensures JobUrlInput.OffersManualEntry(RefusalDetails)
  {
    var m := JobUrlInput.ManualOfferMarker;
    assert OccursAt(m, m, 0);
    IncludesAt(m, m, 0);
    IncludesInfix(RefusalLead, m, RefusalTail, m);
  }
}
