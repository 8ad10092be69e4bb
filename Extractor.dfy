/**
 * `extractJobContent`: turns a fetched job page into a title, an optional
 * company and a plain-text description, by a fixed-precedence cascade:
 *
 *   1. the first script whose `window.__appData = {...};` assignment parses to
 *      an object with a truthy `jobPosting`;
 *   2. the first `application/ld+json` script that parses to a `JobPosting`;
 *   3. heuristics over the page once unwanted elements are removed: a title
 *      from `h1` or `<title>`, a company from five selectors or else from the
 *      URL, and a description from the first large container or the body.
 *
 * The parsed page is abstract: its scripts, and the first surviving element
 * each selector finds (`query`). `JSON.parse` is an oracle whose `None` is a
 * syntax error.
 */
module Extractor {
  import opened JsString
  import opened Json
  import opened TextNormalise
  import opened JobTypes
  import opened CompanyUrl

  /** A `<script>` element: its text and whether `script[type="application/ld+json"]` selects it. */
  datatype Script = Script(text: string, isJsonLd: bool)

  /** An element: its `textContent` and its `content` attribute, if any. */
  datatype Element = Element(text: string, content: Option<string>)

  /**
   * The parsed page: every script, in document order, and the first element
   * each selector finds once the unwanted elements have been removed.
   */
  datatype Document = Document(scripts: seq<Script>, query: string -> Option<Element>)

  const AppDataMarker: string := "window.__appData"
  const DefaultTitle: string := "Job Description"

  /** The text length above which a container is taken at once, and below which the body replaces it. */
  const ContainerThreshold: nat := 200

  // ---------------------------------------------------------------- the appData capture

  /** The index after the white space that starts at `k`. */
  function SkipSpace(s: string, k: nat): (e: nat)
    requires k <= |s|
    ensures k <= e <= |s|
    ensures forall i :: k <= i < e ==> IsSpace(s[i])
    ensures e < |s| ==> !IsSpace(s[e])
    decreases |s| - k
  {
    if k < |s| && IsSpace(s[k]) then SkipSpace(s, k + 1) else k
  }

  /** `s` has `};` at index `i`. */
  predicate CloseAt(s: string, i: int) {
    0 <= i && i + 1 < |s| && s[i] == '}' && s[i + 1] == ';'
  }

  /** The first `};` at or after `k`. */
  function CloseAfter(s: string, k: nat): (j: Option<nat>)
    ensures j.Some? ==> k <= j.value && CloseAt(s, j.value) && forall i :: k <= i < j.value ==> !CloseAt(s, i)
    ensures j.None? ==> forall i :: k <= i ==> !CloseAt(s, i)
    decreases |s| - k
  {
    if k + 1 >= |s| then None
    else if CloseAt(s, k) then Some(k)
    else CloseAfter(s, k + 1)
  }

  /**
   * The group of `/window\.__appData\s*=\s*({[\s\S]*?});/` when the match
   * starts at `k`: from the brace to the first `}` that is followed by `;`.
   */
  function CaptureAt(s: string, k: nat): Option<string> {
    if OccursAt(s, AppDataMarker, k) then
      var a := SkipSpace(s, k + |AppDataMarker|);
      if a < |s| && s[a] == '=' then
        var b := SkipSpace(s, a + 1);
        if b < |s| && s[b] == '{' then
          match CloseAfter(s, b + 1)
          case Some(j) => Some(s[b..j + 1])
          case None => None
        else None
      else None
    else None
  }

  /** The capture of the leftmost match at or after `k`. */
  function AppDataCapture(s: string, k: nat): Option<string>
    decreases |s| + 1 - k
  {
    if k > |s| then None
    else if CaptureAt(s, k).Some? then CaptureAt(s, k)
    else AppDataCapture(s, k + 1)
  }

  /** The shape of a capture; see `AppDataCaptureShape`. */
  predicate CaptureShaped(s: string, m: string) {
    && |m| >= 2 && m[0] == '{' && m[|m| - 1] == '}'
    && (forall i :: 0 <= i < |m| - 1 ==> !CloseAt(m, i))
    && Includes(s, AppDataMarker)
    && Includes(s, m + ";")
  }

  lemma CaptureAtShape(s: string, k: nat)
    requires CaptureAt(s, k).Some?
    ensures CaptureShaped(s, CaptureAt(s, k).value)
  {
    var a := SkipSpace(s, k + |AppDataMarker|);
    var b := SkipSpace(s, a + 1);
    var j := CloseAfter(s, b + 1).value;
    assert CaptureAt(s, k) == Some(s[b..j + 1]);
    BraceSliceShape(s, b, j);
    IncludesAt(s, AppDataMarker, k);
  }

  /** The slice from a `{` to the first `};` after it. */
  lemma BraceSliceShape(s: string, b: nat, j: nat)
    requires b < j && CloseAt(s, j) && s[b] == '{'
    requires forall i :: b + 1 <= i < j ==> !CloseAt(s, i)
    ensures var m := s[b..j + 1];
      && |m| >= 2 && m[0] == '{' && m[|m| - 1] == '}'
      && (forall i :: 0 <= i < |m| - 1 ==> !CloseAt(m, i))
      && Includes(s, m + ";")
  {
    var m := s[b..j + 1];
    forall i | 0 <= i < |m| - 1 ensures !CloseAt(m, i) {
      assert m[i] == s[b + i] && m[i + 1] == s[b + i + 1];
      if i > 0 {
        assert !CloseAt(s, b + i);
      }
    }
    assert s[b..j + 2] == m + ";";
    IncludesAt(s, m + ";", b);
  }

  /**
   * A capture is a brace-delimited slice of the script, taken after an
   * occurrence of `window.__appData`, that ends at the first `};` following
   * its opening brace: it contains no `};` itself.
   */
  lemma {:induction false} AppDataCaptureShape(s: string, k: nat)
    requires AppDataCapture(s, k).Some?
    ensures CaptureShaped(s, AppDataCapture(s, k).value)
    decreases |s| + 1 - k
  {
    if CaptureAt(s, k).None? {
      AppDataCaptureShape(s, k + 1);
    } else {
      CaptureAtShape(s, k);
    }
  }

  // ---------------------------------------------------------------- reading the parsed JSON

  /** What `x?.replace(...)` meets: nothing, a string, or a value without `replace` (a TypeError). */
  datatype DescriptionField = Absent | Html(html: string) | NotString

  function DescriptionOf(r: Read): (d: DescriptionField)
    requires !r.Throws?
    ensures d.Absent? <==> r.Undefined? || r == Value(JNull)
    ensures d.Html? <==> r.Value? && r.v.JStr?
    ensures d.Html? ==> d.html == r.v.s
  {
    if r.Undefined? || r.v.JNull? then Absent
    else if r.v.JStr? then Html(r.v.s)
    else NotString
  }

  /** `x || fallback` for a title: a non-empty string, or the fallback. */
  function TitleOr(r: Read, fallback: string): (t: string)
    ensures t == fallback || (r == Value(JStr(t)) && t != [])
    ensures (r.Value? && r.v.JStr? && r.v.s != []) ==> t == r.v.s
  {
    if r.Value? && r.v.JStr? && r.v.s != [] then r.v.s else fallback
  }

  /**
   * The result an appData script yields, or `None` when the extractor moves
   * on to the next script: no marker, no match, a syntax error, a `null`
   * document (TypeError), a falsy `jobPosting`, or a `descriptionHtml` that
   * is neither absent nor a string (TypeError).
   */
  function AppDataHit(text: string, parse: string -> Option<Json>): (x: Option<Extracted>)
    ensures x.Some? ==> x.value.title != [] && x.value.company.None? && Normalised(x.value.content)
  {
    if !Includes(text, AppDataMarker) then None
    else match AppDataCapture(text, 0)
      case None => None
      case Some(m) =>
        match parse(m)
        case None => None
        case Some(data) =>
          var jobPosting := Get(data, "jobPosting");
          if !jobPosting.IsTruthy() then None
          else
            var posting := jobPosting.v;
            var title := TitleOr(Get(posting, "title"), DefaultTitle);
            match DescriptionOf(Get(posting, "descriptionHtml"))
            case NotString => None
            case Absent => Some(Extracted(title, None, ""))
            case Html(h) => NormaliseSpec(StripTags(h)); Some(Extracted(title, None, StructuredAppText(h)))
  }

  /**
   * The result a JSON-LD script yields, or `None`: a syntax error, a `null`
   * document, an `@type` other than the string `JobPosting`, or a
   * `description` that is neither absent nor a string.
   */
  function LdHit(text: string, parse: string -> Option<Json>): (x: Option<Extracted>)
    ensures x.Some? ==> x.value.company.None? && Trimmed(x.value.content) && NoBlankRun(x.value.content)
  {
    match parse(text)
    case None => None
    case Some(data) =>
      if data.JNull? || Get(data, "@type") != Value(JStr("JobPosting")) then None
      else
        var title := TitleOr(Get(data, "title"), "");
        match DescriptionOf(Get(data, "description"))
        case NotString => None
        case Absent => Some(Extracted(title, None, ""))
        case Html(h) => StructuredLdTextSpec(h); Some(Extracted(title, None, StructuredLdText(h)))
  }

  /** The first script's result in document order. */
  function FirstHit(scripts: seq<Script>, hit: Script -> Option<Extracted>): Option<Extracted> {
    if |scripts| == 0 then None
    else if hit(scripts[0]).Some? then hit(scripts[0])
    else FirstHit(scripts[1..], hit)
  }

  /** The first script that yields a result supplies it; scripts that yield nothing are passed over. */
  lemma {:induction false} FirstHitSpec(scripts: seq<Script>, hit: Script -> Option<Extracted>)
    ensures FirstHit(scripts, hit).None? <==> forall i :: 0 <= i < |scripts| ==> hit(scripts[i]).None?
    ensures FirstHit(scripts, hit).Some? ==>
      exists i :: 0 <= i < |scripts| && hit(scripts[i]) == FirstHit(scripts, hit)
        && forall j :: 0 <= j < i ==> hit(scripts[j]).None?
  {
    if |scripts| > 0 && hit(scripts[0]).None? {
      var rest := scripts[1..];
      FirstHitSpec(rest, hit);
      assert forall i :: 1 <= i < |scripts| ==> scripts[i] == rest[i - 1];
      if FirstHit(rest, hit).Some? {
        var i :| 0 <= i < |rest| && hit(rest[i]) == FirstHit(rest, hit)
          && forall j :: 0 <= j < i ==> hit(rest[j]).None?;
        assert hit(scripts[i + 1]) == FirstHit(scripts, hit);
      }
    }
  }

  function AppDataOf(parse: string -> Option<Json>): Script -> Option<Extracted> {
    (s: Script) => AppDataHit(s.text, parse)
  }

  function LdOf(parse: string -> Option<Json>): Script -> Option<Extracted> {
    (s: Script) => if s.isJsonLd then LdHit(s.text, parse) else None
  }

  // ---------------------------------------------------------------- the heuristics

  const CompanySelectors: seq<string> := [
    ".company-name",
    "[class*=\"company\"]",
    "[data-qa=\"company-name\"]",
    "meta[property=\"og:site_name\"]",
    ".employer-name"
  ]

  const Containers: seq<string> := [
    ".jdp-job-description-card",
    ".job-description-content",
    ".jdp-job-description",
    ".jobad-container",
    ".job-description",
    ".ycdc-job-posting",
    ".jv-job-detail",
    ".job-description-wrapper",
    "[data-qa=\"job-description\"]",
    ".job-details",
    "#content",
    ".content",
    "main",
    "[role=\"main\"]"
  ]

  /** The title: the trimmed `h1`, or else the trimmed `<title>` up to its first `|`, trimmed again. */
  function HeuristicTitle(q: string -> Option<Element>): string {
    match q("h1")
    case Some(h1) => Trim(h1.text)
    case None =>
      match q("title")
      case Some(t) => Trim(BeforeFirst(Trim(t.text), '|'))
      case None => ""
  }

  /** A company candidate: the untrimmed `content` attribute of a `meta` element, otherwise the trimmed text. */
  function Candidate(selector: string, e: Element): string {
    if StartsWith(selector, "meta") then
      match e.content case Some(c) => c case None => ""
    else Trim(e.text)
  }

  predicate Qualifies(company: string) {
    company != [] && |company| > 2 && |company| < 100
  }

  predicate IsLong(text: string) {
    |text| > ContainerThreshold
  }

  /** The value each company selector yields, if it finds an element. */
  function CompanyCandidates(q: string -> Option<Element>): (vs: seq<Option<string>>)
    ensures |vs| == |CompanySelectors|
    ensures forall i :: 0 <= i < |vs| ==>
      vs[i] == match q(CompanySelectors[i]) case Some(e) => Some(Candidate(CompanySelectors[i], e)) case None => None
  {
    seq(|CompanySelectors|, i requires 0 <= i < |CompanySelectors| =>
      match q(CompanySelectors[i]) case Some(e) => Some(Candidate(CompanySelectors[i], e)) case None => None)
  }

  /** The text each container selector yields, if it finds an element. */
  function ContainerCandidates(q: string -> Option<Element>): (vs: seq<Option<string>>)
    ensures |vs| == |Containers|
    ensures forall i :: 0 <= i < |vs| ==>
      vs[i] == match q(Containers[i]) case Some(e) => Some(e.text) case None => None
  {
    seq(|Containers|, i requires 0 <= i < |Containers| =>
      match q(Containers[i]) case Some(e) => Some(e.text) case None => None)
  }

  /**
   * The loop shared by the company and the container searches: every value
   * found overwrites `acc`, and the first one that satisfies `stop` ends the
   * loop.
   */
  function Scan(vs: seq<Option<string>>, stop: string -> bool, acc: string): string {
    if |vs| == 0 then acc
    else match vs[0]
      case None => Scan(vs[1..], stop, acc)
      case Some(v) => if stop(v) then v else Scan(vs[1..], stop, v)
  }

  /** The first value that satisfies `stop` is the result. */
  lemma {:induction false} ScanStops(vs: seq<Option<string>>, stop: string -> bool, acc: string, i: nat)
    requires i < |vs| && vs[i].Some? && stop(vs[i].value)
    requires forall j :: 0 <= j < i ==> vs[j].None? || !stop(vs[j].value)
    ensures Scan(vs, stop, acc) == vs[i].value
  {
    if i > 0 {
      var a := if vs[0].Some? then vs[0].value else acc;
      ScanStops(vs[1..], stop, a, i - 1);
    }
  }

  /** When no value satisfies `stop`, the result is the last value found, or `acc` when none is. */
  lemma {:induction false} ScanKeepsLast(vs: seq<Option<string>>, stop: string -> bool, acc: string)
    requires forall j :: 0 <= j < |vs| ==> vs[j].None? || !stop(vs[j].value)
    ensures var r := Scan(vs, stop, acc);
      || (r == acc && forall j :: 0 <= j < |vs| ==> vs[j].None?)
      || exists i :: 0 <= i < |vs| && vs[i] == Some(r) && forall j :: i < j < |vs| ==> vs[j].None?
  {
    if |vs| > 0 {
      var rest := vs[1..];
      var a := if vs[0].Some? then vs[0].value else acc;
      ScanKeepsLast(rest, stop, a);
      var r := Scan(vs, stop, acc);
      assert r == Scan(rest, stop, a);
      assert forall j :: 1 <= j < |vs| ==> vs[j] == rest[j - 1];
      if r == a && forall j :: 0 <= j < |rest| ==> rest[j].None? {
        if vs[0].None? {
          assert forall j :: 0 <= j < |vs| ==> vs[j].None?;
        } else {
          assert vs[0] == Some(r) && forall j :: 0 < j < |vs| ==> vs[j].None?;
        }
      } else {
        var i :| 0 <= i < |rest| && rest[i] == Some(r) && forall j :: i < j < |rest| ==> rest[j].None?;
        assert vs[i + 1] == Some(r);
      }
    }
  }

  function SelectorCompany(q: string -> Option<Element>): string {
    Scan(CompanyCandidates(q), Qualifies, "")
  }

  function ContainerText(q: string -> Option<Element>): string {
    Scan(ContainerCandidates(q), IsLong, "")
  }

  /** The body's text replaces a container text shorter than the threshold; exactly 200 characters are kept. */
  function Description(q: string -> Option<Element>): string {
    var t := ContainerText(q);
    if |t| < ContainerThreshold then
      match q("body") case Some(body) => body.text case None => t
    else t
  }

  /** The company: the selector result when non-empty, otherwise the URL's. */
  function HeuristicCompany(q: string -> Option<Element>, url: string): Option<string> {
    var c := SelectorCompany(q);
    if c != "" then Some(c) else UrlCompany(url, UrlPatterns)
  }

  function Heuristic(doc: Document, url: string): Extracted {
    var title := HeuristicTitle(doc.query);
    Extracted(
      if title != "" then title else DefaultTitle,
      HeuristicCompany(doc.query, url),
      Normalise(Description(doc.query)))
  }

  /** The whole cascade. */
  function Extract(doc: Document, url: string, parse: string -> Option<Json>): Extracted {
    match FirstHit(doc.scripts, AppDataOf(parse))
    case Some(x) => x
    case None =>
      match FirstHit(doc.scripts, LdOf(parse))
      case Some(y) => y
      case None => Heuristic(doc, url)
  }

  /** The extractor: the two script loops, then the heuristics. */
  method ExtractJobContent(doc: Document, jobUrl: string, parse: string -> Option<Json>) returns (r: Extracted)
    ensures r == Extract(doc, jobUrl, parse)
  {
    var appData := ScanAppData(doc.scripts, parse);
    if appData.Some? {
      return appData.value;
    }
    var jsonLd := ScanJsonLd(doc.scripts, parse);
    if jsonLd.Some? {
      return jsonLd.value;
    }

    var q := doc.query;
    var jobTitle := FindTitle(q);
    var company := FindCompany(q, jobUrl);
    var textContent := FindDescription(q);
    r := Extracted(
      if jobTitle != "" then jobTitle else DefaultTitle,
      if company != "" then Some(company) else None,
      Normalise(textContent));
  }

  /** The title from `h1`, or else from `<title>`. */
  method FindTitle(q: string -> Option<Element>) returns (jobTitle: string)
    ensures jobTitle == HeuristicTitle(q)
  {
    jobTitle := "";
    var h1 := q("h1");
    if h1.Some? {
      jobTitle := Trim(h1.value.text);
    } else {
      var titleTag := q("title");
      if titleTag.Some? {
        jobTitle := Trim(BeforeFirst(Trim(titleTag.value.text), '|'));
      }
    }
  }

  /** The loop over all scripts looking for `window.__appData`. */
  method ScanAppData(scripts: seq<Script>, parse: string -> Option<Json>) returns (hit: Option<Extracted>)
    ensures hit == FirstHit(scripts, AppDataOf(parse))
  {
    var i := 0;
    while i < |scripts|
      invariant 0 <= i <= |scripts|
      invariant FirstHit(scripts, AppDataOf(parse)) == FirstHit(scripts[i..], AppDataOf(parse))
    {
      var scriptContent := scripts[i].text;
      if Includes(scriptContent, AppDataMarker) {
        var found := AppDataHit(scriptContent, parse);
        if found.Some? {
          return found;
        }
      }
      assert scripts[i..][1..] == scripts[i + 1..];
      i := i + 1;
    }
    return None;
  }

  /** The loop over the JSON-LD scripts. */
  method ScanJsonLd(scripts: seq<Script>, parse: string -> Option<Json>) returns (hit: Option<Extracted>)
    ensures hit == FirstHit(scripts, LdOf(parse))
  {
    var i := 0;
    while i < |scripts|
      invariant 0 <= i <= |scripts|
      invariant FirstHit(scripts, LdOf(parse)) == FirstHit(scripts[i..], LdOf(parse))
    {
      if scripts[i].isJsonLd {
        var found := LdHit(scripts[i].text, parse);
        if found.Some? {
          return found;
        }
      }
      assert scripts[i..][1..] == scripts[i + 1..];
      i := i + 1;
    }
    return None;
  }

  /** The company selector loop, then the URL pattern loop when it leaves the empty string. */
  method FindCompany(q: string -> Option<Element>, jobUrl: string) returns (company: string)
    ensures (if company != "" then Some(company) else None) == HeuristicCompany(q, jobUrl)
  {
    company := "";
    var candidates := CompanyCandidates(q);
    var k := 0;
    while k < |CompanySelectors|
      invariant 0 <= k <= |CompanySelectors|
      invariant Scan(candidates[k..], Qualifies, company) == SelectorCompany(q)
    {
      var selector := CompanySelectors[k];
      var element := q(selector);
      if element.Some? {
        if StartsWith(selector, "meta") {
          company := if element.value.content.Some? then element.value.content.value else "";
        } else {
          company := Trim(element.value.text);
        }
        if company != "" && |company| > 2 && |company| < 100 {
          break;
        }
      }
      assert candidates[k..][1..] == candidates[k + 1..];
      k := k + 1;
    }
    assert company == SelectorCompany(q);

    if company == "" {
      var n := 0;
      while n < |UrlPatterns|
        invariant 0 <= n <= |UrlPatterns|
        invariant UrlCompany(jobUrl, UrlPatterns[n..]) == UrlCompany(jobUrl, UrlPatterns)
        invariant company == ""
      {
        var m := Search(UrlPatterns[n], jobUrl, 0);
        if m.Some? && m.value != "" {
          company := CompanyName(m.value);
          break;
        }
        assert UrlPatterns[n..][1..] == UrlPatterns[n + 1..];
        n := n + 1;
      }
    }
  }

  /** The container loop and the body fallback. */
  method FindDescription(q: string -> Option<Element>) returns (textContent: string)
    ensures textContent == Description(q)
  {
    textContent := "";
    var texts := ContainerCandidates(q);
    var c := 0;
    while c < |Containers|
      invariant 0 <= c <= |Containers|
      invariant Scan(texts[c..], IsLong, textContent) == ContainerText(q)
    {
      var element := q(Containers[c]);
      if element.Some? {
        textContent := element.value.text;
        if |textContent| > ContainerThreshold {
          break;
        }
      }
      assert texts[c..][1..] == texts[c + 1..];
      c := c + 1;
    }
    assert textContent == ContainerText(q);

    if |textContent| < ContainerThreshold {
      var body := q("body");
      if body.Some? {
        textContent := body.value.text;
      }
    }
  }

  // ---------------------------------------------------------------- properties of the cascade

  /**
   * The cascade's order: an appData hit in any script wins, and the first one
   * is taken; JSON-LD is consulted only when no script yields appData, and the
   * heuristics only when no JSON-LD script yields a job posting.
   */
  lemma ExtractCascade(doc: Document, url: string, parse: string -> Option<Json>)
    ensures forall i ::
      (&& 0 <= i < |doc.scripts|
       && AppDataHit(doc.scripts[i].text, parse).Some?
       && (forall j :: 0 <= j < i ==> AppDataHit(doc.scripts[j].text, parse).None?))
      ==> Some(Extract(doc, url, parse)) == AppDataHit(doc.scripts[i].text, parse)
    ensures (forall i :: 0 <= i < |doc.scripts| ==> AppDataHit(doc.scripts[i].text, parse).None?) ==>
      forall i ::
        (&& 0 <= i < |doc.scripts| && doc.scripts[i].isJsonLd
         && LdHit(doc.scripts[i].text, parse).Some?
         && (forall j :: 0 <= j < i && doc.scripts[j].isJsonLd ==> LdHit(doc.scripts[j].text, parse).None?))
        ==> Some(Extract(doc, url, parse)) == LdHit(doc.scripts[i].text, parse)
    ensures
      (forall i :: 0 <= i < |doc.scripts| ==>
        (&& AppDataHit(doc.scripts[i].text, parse).None?
         && (doc.scripts[i].isJsonLd ==> LdHit(doc.scripts[i].text, parse).None?)))
      ==> Extract(doc, url, parse) == Heuristic(doc, url)
  {
    var s, app, ld := doc.scripts, AppDataOf(parse), LdOf(parse);
    assert forall j :: 0 <= j < |s| ==> app(s[j]) == AppDataHit(s[j].text, parse);
    assert forall j :: 0 <= j < |s| ==> ld(s[j]) == if s[j].isJsonLd then LdHit(s[j].text, parse) else None;
    forall i |
      && 0 <= i < |s| && AppDataHit(s[i].text, parse).Some?
      && (forall j :: 0 <= j < i ==> AppDataHit(s[j].text, parse).None?)
      ensures Some(Extract(doc, url, parse)) == AppDataHit(s[i].text, parse)
    {
      FirstHitAt(s, app, i);
    }
    FirstHitSpec(s, app);
    FirstHitSpec(s, ld);
    if forall i :: 0 <= i < |s| ==> AppDataHit(s[i].text, parse).None? {
      forall i |
        && 0 <= i < |s| && s[i].isJsonLd && LdHit(s[i].text, parse).Some?
        && (forall j :: 0 <= j < i && s[j].isJsonLd ==> LdHit(s[j].text, parse).None?)
        ensures Some(Extract(doc, url, parse)) == LdHit(s[i].text, parse)
      {
        FirstHitAt(s, ld, i);
      }
    }
  }

  /** A script that yields a result, preceded only by scripts that yield none, supplies the result. */
  lemma {:induction false} FirstHitAt(scripts: seq<Script>, hit: Script -> Option<Extracted>, i: nat)
    requires i < |scripts| && hit(scripts[i]).Some?
    requires forall j :: 0 <= j < i ==> hit(scripts[j]).None?
    ensures FirstHit(scripts, hit) == hit(scripts[i])
  {
    if i > 0 {
      FirstHitAt(scripts[1..], hit, i - 1);
    }
  }

  /**
   * appData wins on the presence of a truthy `jobPosting`, even one without a
   * title or a description: the result is then the default title and empty
   * content.
   */
  lemma AppDataWinsOnPresence(text: string, parse: string -> Option<Json>, data: Json)
    requires Includes(text, AppDataMarker) && AppDataCapture(text, 0).Some?
    requires parse(AppDataCapture(text, 0).value) == Some(data)
    requires data == JObj(map["jobPosting" := JObj(map[])])
    ensures AppDataHit(text, parse) == Some(Extracted(DefaultTitle, None, ""))
  {
  }

  /** A JSON-LD `JobPosting` without a title yields an empty title, unlike the other two strategies. */
  lemma LdTitleMayBeEmpty(text: string, parse: string -> Option<Json>)
    requires parse(text) == Some(JObj(map["@type" := JStr("JobPosting")]))
    ensures LdHit(text, parse) == Some(Extracted("", None, ""))
  {
  }

  /** A JSON-LD document whose `description` is not a string raises a TypeError, so the script is passed over. */
  lemma LdNonStringDescriptionSkipped(text: string, parse: string -> Option<Json>, d: Json)
    requires !d.JStr? && !d.JNull?
    requires parse(text) == Some(JObj(map["@type" := JStr("JobPosting"), "description" := d]))
    ensures LdHit(text, parse).None?
  {
  }

  /**
   * The title: a surviving `h1` decides it even when its text is blank (no
   * fall-back to `<title>`); otherwise `<title>` contributes its part before
   * the first `|`, trimmed; the final title is never empty.
   */
  lemma HeuristicTitleSpec(doc: Document, url: string)
    ensures doc.query("h1").Some? ==>
      Heuristic(doc, url).title == (if Trim(doc.query("h1").value.text) == "" then DefaultTitle else Trim(doc.query("h1").value.text))
    ensures doc.query("h1").None? && doc.query("title").Some? ==>
      var t := HeuristicTitle(doc.query);
      '|' !in t && Trimmed(t) && t == Trim(BeforeFirst(Trim(doc.query("title").value.text), '|'))
    ensures Heuristic(doc, url).title != []
  {
    if doc.query("h1").None? && doc.query("title").Some? {
      var t := Trim(BeforeFirst(Trim(doc.query("title").value.text), '|'));
      TrimSpec(BeforeFirst(Trim(doc.query("title").value.text), '|'));
    }
  }

  /**
   * The company from the selectors: the first candidate of 3 to 99
   * characters, which the URL cannot override.
   */
  lemma CompanyFirstQualifying(q: string -> Option<Element>, url: string, i: nat)
    requires var vs := CompanyCandidates(q);
      && i < |vs| && vs[i].Some? && Qualifies(vs[i].value)
      && forall j :: 0 <= j < i ==> vs[j].None? || !Qualifies(vs[j].value)
    ensures HeuristicCompany(q, url) == Some(CompanyCandidates(q)[i].value)
  {
    ScanStops(CompanyCandidates(q), Qualifies, "", i);
  }

  /**
   * When no candidate qualifies, the last candidate found is kept whatever its
   * length, and the URL is consulted only when that leaves the empty string
   * (or nothing was found). A company is never the empty string.
   */
  lemma CompanyKeepsLast(q: string -> Option<Element>, url: string)
    requires var vs := CompanyCandidates(q);
      forall j :: 0 <= j < |vs| ==> vs[j].None? || !Qualifies(vs[j].value)
    ensures var vs, c := CompanyCandidates(q), SelectorCompany(q);
      || (c == "" && HeuristicCompany(q, url) == UrlCompany(url, UrlPatterns))
      || exists i :: 0 <= i < |vs| && vs[i] == Some(c) && HeuristicCompany(q, url) == Some(c)
           && forall j :: i < j < |vs| ==> vs[j].None?
    ensures HeuristicCompany(q, url).Some? ==> HeuristicCompany(q, url).value != ""
  {
    ScanKeepsLast(CompanyCandidates(q), Qualifies, "");
  }

  /**
   * The description: the first container whose text exceeds 200 characters;
   * otherwise the last container found, replaced by the body only when it is
   * shorter than 200 characters. Lengths are taken before normalisation.
   */
  lemma DescriptionSpec(q: string -> Option<Element>)
    ensures var vs := ContainerCandidates(q);
      forall i :: 0 <= i < |vs| && vs[i].Some? && IsLong(vs[i].value)
        && (forall j :: 0 <= j < i ==> vs[j].None? || !IsLong(vs[j].value))
        ==> Description(q) == vs[i].value
    ensures var vs := ContainerCandidates(q);
      (forall j :: 0 <= j < |vs| ==> vs[j].None? || !IsLong(vs[j].value)) ==>
        || (ContainerText(q) == "" && forall j :: 0 <= j < |vs| ==> vs[j].None?)
        || exists i :: 0 <= i < |vs| && vs[i] == Some(ContainerText(q)) && forall j :: i < j < |vs| ==> vs[j].None?
    ensures |ContainerText(q)| >= ContainerThreshold ==> Description(q) == ContainerText(q)
    ensures |ContainerText(q)| < ContainerThreshold && q("body").Some? ==> Description(q) == q("body").value.text
  {
    var vs := ContainerCandidates(q);
    forall i | 0 <= i < |vs| && vs[i].Some? && IsLong(vs[i].value)
      && (forall j :: 0 <= j < i ==> vs[j].None? || !IsLong(vs[j].value))
      ensures Description(q) == vs[i].value
    {
      ScanStops(vs, IsLong, "", i);
    }
    if forall j :: 0 <= j < |vs| ==> vs[j].None? || !IsLong(vs[j].value) {
      ScanKeepsLast(vs, IsLong, "");
    }
  }

  /**
   * The text every strategy returns is trimmed and free of blank-line runs;
   * outside JSON-LD it also has no tab and no double space, and the title is
   * never empty.
   */
  lemma ExtractShape(doc: Document, url: string, parse: string -> Option<Json>)
    ensures var r := Extract(doc, url, parse);
      Trimmed(r.content) && NoBlankRun(r.content)
    ensures FirstHit(doc.scripts, LdOf(parse)).None? || FirstHit(doc.scripts, AppDataOf(parse)).Some? ==>
      Normalised(Extract(doc, url, parse).content) && Extract(doc, url, parse).title != []
  {
    var s, app, ld := doc.scripts, AppDataOf(parse), LdOf(parse);
    FirstHitSpec(s, app);
    FirstHitSpec(s, ld);
    if FirstHit(s, app).Some? {
      var i :| 0 <= i < |s| && app(s[i]) == FirstHit(s, app) && forall j :: 0 <= j < i ==> app(s[j]).None?;
      assert app(s[i]) == AppDataHit(s[i].text, parse);
    } else if FirstHit(s, ld).Some? {
      var i :| 0 <= i < |s| && ld(s[i]) == FirstHit(s, ld) && forall j :: 0 <= j < i ==> ld(s[j]).None?;
      assert s[i].isJsonLd && ld(s[i]) == LdHit(s[i].text, parse);
    } else {
      NormaliseSpec(Description(doc.query));
      HeuristicTitleSpec(doc, url);
    }
  }

  // ---------------------------------------------------------------- element removal

  /** What the removal selectors look at: the tag name and the `class` and `id` attributes. */
  datatype Attributes = Attributes(tag: string, classAttr: Option<string>, id: Option<string>)

  predicate IsAsciiWhitespace(c: char) {
    c == ' ' || c == '\t' || c == '\n' || c == '\U{000C}' || c == '\r'
  }

  /** `.name` selects elements whose class list holds `name` as a whole token. */
  predicate HasClassToken(classAttr: string, name: string) {
    exists k :: 0 <= k <= |classAttr| && OccursAt(classAttr, name, k)
      && (k == 0 || IsAsciiWhitespace(classAttr[k - 1]))
      && (k + |name| == |classAttr| || IsAsciiWhitespace(classAttr[k + |name|]))
  }

  /** `[attr*="v"]`: the attribute is present and contains `v`, with case. */
  predicate AttrContains(attr: Option<string>, v: string) {
    attr.Some? && Includes(attr.value, v)
  }

  const RemovedTags: set<string> :=
    {"script", "style", "nav", "footer", "header", "form", "button", "input", "select", "textarea"}

  const RemovedClassParts: seq<string> := [
    "footer", "Footer", "privacy", "cookie", "share", "social",
    "alert", "apply", "navigation", "sidebar", "related-jobs"
  ]

  /** The elements removed before the heuristics run. */
  predicate Unwanted(a: Attributes) {
    || a.tag in RemovedTags
    || (a.classAttr.Some? && HasClassToken(a.classAttr.value, "application-form"))
    || (exists p :: p in RemovedClassParts && AttrContains(a.classAttr, p))
    || AttrContains(a.id, "footer")
  }

  /** A class token `name` is a piece of the attribute. */
  lemma HasClassTokenIncludes(classAttr: string, name: string)
    requires HasClassToken(classAttr, name)
    ensures Includes(classAttr, name)
  {
    IncludesIff(classAttr, name);
  }

  /**
   * The attribute matches are case-sensitive, and only `footer` is listed in
   * both cases: a `Footer` class is removed like a `privacy-banner` class ...
   */
  lemma RemovalMatchesListedCases()
    ensures Unwanted(Attributes("div", Some("Footer"), None))
    ensures Unwanted(Attributes("div", Some("privacy-banner"), None))
  {
    assert StartsWith("Footer", "Footer");
    assert "Footer" in RemovedClassParts && AttrContains(Some("Footer"), "Footer");
    assert "privacy-banner"[..7] == "privacy";
    assert "privacy" in RemovedClassParts && AttrContains(Some("privacy-banner"), "privacy");
  }

  /** ... while `Privacy` and `COOKIE` classes, and an `id` of `Footer`, survive. */
  lemma RemovalMissesOtherCases()
    ensures !Unwanted(Attributes("div", Some("Privacy"), None))
    ensures !Unwanted(Attributes("div", Some("COOKIE"), None))
    ensures !Unwanted(Attributes("div", None, Some("Footer")))
  {
    ClassWithoutOEPLettersSurvives("Privacy");
    ClassWithoutOEPLettersSurvives("COOKIE");
    if Includes("Footer", "footer") {
      IncludesChars("Footer", "footer", 'f');
    }
  }

  /**
   * Every listed fragment, and `application-form`, holds a lower-case `o`,
   * `e` or `p`: a `div` whose class has none of them is kept.
   */
  lemma ClassWithoutOEPLettersSurvives(classAttr: string)
    requires 'o' !in classAttr && 'e' !in classAttr && 'p' !in classAttr
    ensures !Unwanted(Attributes("div", Some(classAttr), None))
  {
    forall p | p in RemovedClassParts ensures !Includes(classAttr, p) {
      assert 'o' in p || 'e' in p || 'p' in p;
      if Includes(classAttr, p) {
        if 'o' in p {
          IncludesChars(classAttr, p, 'o');
        } else if 'e' in p {
          IncludesChars(classAttr, p, 'e');
        } else {
          IncludesChars(classAttr, p, 'p');
        }
      }
    }
    if HasClassToken(classAttr, "application-form") {
      HasClassTokenIncludes(classAttr, "application-form");
      IncludesChars(classAttr, "application-form", 'o');
    }
  }
}
