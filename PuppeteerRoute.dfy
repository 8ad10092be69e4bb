/**
 * The job-fetch route with a headless browser (routing mode): URLs on the
 * listed script-rendered boards, or every URL when the client forces it, are
 * rendered in a browser; the rest are fetched plainly. A launched browser is
 * closed on every exit path.
 *
 * The browser session is an abstract script of which step, if any, throws;
 * ghost counters record launches and closes.
 */
module PuppeteerRoute {
  import opened JsString
  import opened JobTypes
  import opened HttpExchange
  import FetchJobRoute

  /** Boards always rendered in the browser. */
  const AlwaysRenderPatterns: seq<string> := [
    "myworkdayjobs.com",
    "workday.com",
    "lever.co",
    "reval.site",
    "careers.servicenow.com"
  ]

  predicate ShouldUsePuppeteer(url: string) {
    IncludesAny(url, AlwaysRenderPatterns)
  }

  /** The browser is used when the client forces it or the URL names a listed board. */
  predicate UsesBrowser(url: string, forcePuppeteer: bool) {
    forcePuppeteer || ShouldUsePuppeteer(url)
  }

  /**
   * The steps of a browser session after launch, in order. The wait for a
   * job-description selector never throws: each wait swallows its own timeout.
   */
  datatype Stage = NewPage | SetUserAgent | SetViewport | Goto | Content

  const Stages: seq<Stage> := [NewPage, SetUserAgent, SetViewport, Goto, Content]

  /** Every step of a session appears in the list of steps. */
  lemma StageListed(k: Stage)
    ensures k in Stages
  {
    match k
    case NewPage => assert Stages[0] == k;
    case SetUserAgent => assert Stages[1] == k;
    case SetViewport => assert Stages[2] == k;
    case Goto => assert Stages[3] == k;
    case Content => assert Stages[4] == k;
  }

  /**
   * How a browser session goes: whether the launch throws, which step after
   * it throws (if any), the page's HTML, and whether closing throws.
   */
  datatype Session = Session(
    launchError: Option<string>,
    stageError: Option<(Stage, string)>,
    html: string,
    closeError: Option<string>)

  /**
   * What `fetchWithPuppeteer` yields: a throw from the body, unless closing
   * the launched browser throws, which replaces it; else the page's HTML.
   */
  function RenderResult(s: Session): (f: Fetched)
    ensures s.launchError.Some? ==> f == Thrown(s.launchError.value)
    ensures s.launchError.None? && s.closeError.Some? ==> f == Thrown(s.closeError.value)
    ensures f.Text? <==> s.launchError.None? && s.stageError.None? && s.closeError.None?
    ensures f.Text? ==> f.html == s.html
  {
    if s.launchError.Some? then Thrown(s.launchError.value)
    else if s.closeError.Some? then Thrown(s.closeError.value)
    else if s.stageError.Some? then Thrown(s.stageError.value.1)
    else Text(s.html)
  }

  /** The browser as the route sees it: only how often it was launched and closed. */
  class Browser {
    ghost var launched: nat
    ghost var closed: nat

    constructor()
      ensures launched == 0 && closed == 0
    {
      launched, closed := 0, 0;
    }

    /**
     * `fetchWithPuppeteer`: launch, then the page steps in order until one
     * throws; the `finally` closes the browser whenever the launch succeeded.
     */
    method FetchWithPuppeteer(url: string, s: Session) returns (f: Fetched)
      modifies this
      ensures f == RenderResult(s)
      ensures launched == old(launched) + (if s.launchError.None? then 1 else 0)
      ensures closed - old(closed) == launched - old(launched)
    {
      var browser := false;
      var thrown: Option<string> := None;
      if s.launchError.Some? {
        thrown := s.launchError;
      } else {
        launched := launched + 1;
        browser := true;
        if s.stageError.Some? {
          StageListed(s.stageError.value.0);
        }
        var i := 0;
        while i < |Stages| && thrown.None?
          invariant 0 <= i <= |Stages|
          invariant thrown.None? && s.stageError.Some? ==> s.stageError.value.0 in Stages[i..]
          invariant thrown.Some? ==> s.stageError.Some? && thrown.value == s.stageError.value.1
        {
          if s.stageError.Some? && s.stageError.value.0 == Stages[i] {
            thrown := Some(s.stageError.value.1);
          }
          i := i + 1;
        }
      }
      // finally
      if browser {
        closed := closed + 1;
        if s.closeError.Some? {
          thrown := s.closeError;
        }
      }
      f := if thrown.Some? then Thrown(thrown.value) else Text(s.html);
    }

    /**
     * `POST /api/fetch-job-puppeteer`: 400 without a URL; otherwise the page
     * text from the browser or from a plain fetch, each failure becoming a 500.
     */
    method Post(url: Option<string>, forcePuppeteer: bool, s: Session, fetch: string -> FetchResult)
      returns (r: Response, fetched: seq<string>, rendered: bool)
      modifies this
      ensures url.None? || url.value == [] ==> r == UrlRequired() && fetched == [] && !rendered
      ensures url.Some? && url.value != [] ==> rendered == UsesBrowser(url.value, forcePuppeteer)
      ensures url.Some? && url.value != [] ==> r == Answer(if rendered then RenderResult(s) else FetchText(fetch(url.value)))
      ensures fetched == (if url.Some? && url.value != [] && !rendered then [url.value] else [])
      ensures launched == old(launched) + (if rendered && s.launchError.None? then 1 else 0)
      ensures closed - old(closed) == launched - old(launched)
    {
      if url.None? || url.value == [] {
        return UrlRequired(), [], false;
      }
      var html: Fetched;
      rendered := UsesBrowser(url.value, forcePuppeteer);
      if rendered {
        html := FetchWithPuppeteer(url.value, s);
        fetched := [];
      } else {
        html := FetchText(fetch(url.value));
        fetched := [url.value];
      }
      r := Answer(html);
    }
  }

  /** `{ html }` with status 200, or the `catch` block's 500. */
  function Answer(f: Fetched): (r: Response)
    ensures r.status == 200 <==> f.Text?
    ensures f.Text? ==> r.body == Page(f.html)
    ensures f.Thrown? ==> r == Caught(f.message)
  {
    match f
    case Text(html) => Response(200, Page(html))
    case Thrown(message) => Caught(message)
  }

  /**
   * The two lists differ in one board only: a URL on it is refused by the
   * plain route and fetched plainly here, and every other URL is classified
   * alike by both.
   */
  lemma PatternListsDiffer(url: string)
    ensures FetchJobRoute.IsDynamicSite(url) <==> ShouldUsePuppeteer(url) || Includes(url, "royalcaribbeangroup.com")
  {
    var d, p := FetchJobRoute.DynamicSitePatterns, AlwaysRenderPatterns;
    assert d == p + ["royalcaribbeangroup.com"];
    if FetchJobRoute.IsDynamicSite(url) {
      var i :| 0 <= i < |d| && Includes(url, d[i]);
      if i < 5 {
        assert d[i] == p[i];
      }
    }
    if ShouldUsePuppeteer(url) {
      var i :| 0 <= i < |p| && Includes(url, p[i]);
      assert d[i] == p[i];
    }
    if Includes(url, "royalcaribbeangroup.com") {
      assert d[5] == "royalcaribbeangroup.com";
    }
  }

  /** The cruise-line group's job site, which only the refusal list names. */
  const CruiseJobUrl: string := "https://jobs." + "royalcaribbeangroup.com" + "/job/123"

  /** That site is refused in refusal mode... */
  lemma CruiseBoardRefused(url: string)
    requires url == CruiseJobUrl
    ensures FetchJobRoute.IsDynamicSite(url)
  {
    var p := "royalcaribbeangroup.com";
    assert OccursAt(p, p, 0);
    IncludesAt(p, p, 0);
    IncludesInfix("https://jobs.", p, "/job/123", p);
    assert FetchJobRoute.DynamicSitePatterns[5] == p;
  }

  /** ...and, unless the client forces the browser, fetched plainly here. */
  lemma CruiseBoardFetchedPlainly(url: string)
    requires url == CruiseJobUrl
    ensures !UsesBrowser(url, false)
  {
    NoVeeOrDoubleU(url);
    forall i | 0 <= i < |AlwaysRenderPatterns| ensures !Includes(url, AlwaysRenderPatterns[i]) {
      var q := AlwaysRenderPatterns[i];
      if i == 2 || i == 3 {
        assert q[2] == 'v';
        MissingCharExcludes(url, q, 'v');
      } else {
        assert i == 0 || i == 1 || i == 4;
        assert 'w' in q;
        MissingCharExcludes(url, q, 'w');
      }
    }
  }

  lemma NoVeeOrDoubleU(url: string)
    requires url == CruiseJobUrl
    ensures 'w' !in url && 'v' !in url
  {
    var a, b, c := "https://jobs.", "royalcaribbeangroup.com", "/job/123";
    assert 'w' !in a && 'v' !in a;
    assert 'w' !in b && 'v' !in b;
    assert 'w' !in c && 'v' !in c;
  }
}
