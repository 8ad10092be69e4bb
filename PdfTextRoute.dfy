/**
 * The PDF text route: the client sends a PDF as base64; the route loads it,
 * joins each page's text items with single spaces, follows every page with a
 * blank line, and answers with the trimmed text and the page count. A request
 * without PDF data is refused with 400; a PDF that cannot be decoded or
 * loaded becomes a 500 with `success: false`.
 *
 * Base64 decoding and the PDF library are one oracle from the request's
 * `pdfBase64` value to the text items of each page, or to the error thrown.
 */
module PdfTextRoute {
  import opened JsString
  import opened Json
  import opened LlmReply

  const PdfRequiredMessage: string := "PDF data is required"
  const ExtractFailedMessage: string := "Failed to extract text from PDF"

  /** A loaded document: the `str` of each text item, page by page; or the error thrown while loading. */
  datatype Loaded = Pages(pages: seq<seq<string>>) | LoadFailed(message: string)

  /** `items.join(sep)`. */
  function Join(items: seq<string>, sep: string): (s: string)
    ensures |items| == 1 ==> s == items[0]
    decreases |items|
  {
    if |items| == 0 then ""
    else if |items| == 1 then items[0]
    else items[0] + sep + Join(items[1..], sep)
  }

  /**
   * The pieces of `s` between the occurrences of `c`. The route never splits
   * text: this is a reference inverse of `Join`, used only to state in
   * `SplitJoin` that joining loses no item boundary when no item holds the
   * separator.
   */
  function Split(s: string, c: char): (pieces: seq<string>)
    ensures |pieces| >= 1
    decreases |s|
  {
    if s == [] then [""]
    else if s[0] == c then [""] + Split(s[1..], c)
    else
      var rest := Split(s[1..], c);
      [[s[0]] + rest[0]] + rest[1..]
  }

  /** One page's text: its items joined with single spaces, in item order. */
  function PageText(items: seq<string>): string {
    Join(items, " ")
  }

  /** The accumulated text of pages `1..|pages|`: each page's text followed by a blank line. */
  function PagesText(pages: seq<seq<string>>): (text: string)
    ensures |text| >= 2 * |pages|
  {
    if pages == [] then ""
    else PagesText(pages[..|pages| - 1]) + PageText(pages[|pages| - 1]) + "\n\n"
  }

  /** The page loop, appending each page's text and a blank line in page order. */
  method ExtractText(pages: seq<seq<string>>) returns (fullText: string)
    ensures fullText == PagesText(pages)
  {
    fullText := "";
    for pageNum := 1 to |pages| + 1
      invariant fullText == PagesText(pages[..pageNum - 1])
    {
      var items := pages[pageNum - 1];
      var pageText := Join(items, " ");
      assert pages[..pageNum][..pageNum - 1] == pages[..pageNum - 1];
      fullText := fullText + pageText + "\n\n";
    }
    assert pages[..|pages|] == pages;
  }

  /** The response to a request body, given what loading its PDF data yields. */
  function Respond(body: JsonObject, load: Json -> Loaded): (r: Response)
    ensures !Member(body, "pdfBase64").IsTruthy() ==> r == ErrorResponse(400, PdfRequiredMessage)
    ensures Member(body, "pdfBase64").IsTruthy() && load(body["pdfBase64"]).LoadFailed? ==>
      r == Failure(ExtractFailedMessage, load(body["pdfBase64"]).message)
    ensures Member(body, "pdfBase64").IsTruthy() && load(body["pdfBase64"]).Pages? ==>
      && r.status == 200
      && "success" in r.body && r.body["success"] == JBool(true)
      && "text" in r.body && "pages" in r.body
      && r.body["text"] == JStr(Trim(PagesText(load(body["pdfBase64"]).pages)))
      && r.body["pages"] == JNumber(|load(body["pdfBase64"]).pages| as real)
  {
    if !Member(body, "pdfBase64").IsTruthy() then ErrorResponse(400, PdfRequiredMessage)
    else match load(body["pdfBase64"])
      case LoadFailed(message) => Failure(ExtractFailedMessage, message)
      case Pages(pages) =>
        Response(200, map["success" := JBool(true), "text" := JStr(Trim(PagesText(pages))),
                          "pages" := JNumber(|pages| as real)])
  }

  /** `POST /api/extract-pdf-text`. */
  method Post(body: JsonObject, load: Json -> Loaded) returns (r: Response)
    ensures r == Respond(body, load)
  {
    var pdfBase64 := Member(body, "pdfBase64");
    if !pdfBase64.IsTruthy() {
      return ErrorResponse(400, PdfRequiredMessage);
    }
    match load(pdfBase64.v) {
      case LoadFailed(message) =>
        r := Failure(ExtractFailedMessage, message);
      case Pages(pages) =>
        var fullText := ExtractText(pages);
        var numPages := |pages|;
        r := Response(200, map["success" := JBool(true), "text" := JStr(Trim(fullText)),
                               "pages" := JNumber(numPages as real)]);
    }
  }

  /** The text of consecutive runs of pages is the concatenation of their texts. */
  lemma {:induction false} PagesTextAppend(a: seq<seq<string>>, b: seq<seq<string>>)
    ensures PagesText(a + b) == PagesText(a) + PagesText(b)
    decreases |b|
  {
    if b == [] {
      assert a + b == a;
    } else {
      var n := |b| - 1;
      assert (a + b)[..|a + b| - 1] == a + b[..n];
      PagesTextAppend(a, b[..n]);
    }
  }

  /** Every page's text appears, followed by a blank line, between the text of the pages before and after it. */
  lemma PageInPlace(pages: seq<seq<string>>, i: nat)
    requires i < |pages|
    ensures PagesText(pages) == PagesText(pages[..i]) + PageText(pages[i]) + "\n\n" + PagesText(pages[i + 1..])
  {
    var a, rest := pages[..i + 1], pages[i + 1..];
    assert pages == a + rest;
    PagesTextAppend(a, rest);
    assert a[..|a| - 1] == pages[..i] && a[|a| - 1] == pages[i];
    assert PagesText(a) == PagesText(pages[..i]) + PageText(pages[i]) + "\n\n";
  }

  lemma {:induction false} SplitWithout(s: string, c: char)
    requires c !in s
    ensures Split(s, c) == [s]
    decreases |s|
  {
    if s != [] {
      assert s[0] != c && c !in s[1..];
      SplitWithout(s[1..], c);
      assert [s[0]] + s[1..] == s;
    }
  }

  lemma {:induction false} SplitAt(x: string, y: string, c: char)
    requires c !in x
    ensures Split(x + [c] + y, c) == [x] + Split(y, c)
    decreases |x|
  {
    if x == [] {
      assert x + [c] + y == [c] + y;
    } else {
      var s := x + [c] + y;
      assert s[0] == x[0] && x[0] != c && c !in x[1..];
      assert s[1..] == x[1..] + [c] + y;
      SplitAt(x[1..], y, c);
      assert [x[0]] + x[1..] == x;
    }
  }

  /** Splitting a page's text at the separator gives back its items when no item contains it. */
  lemma {:induction false} SplitJoin(items: seq<string>, c: char)
    requires items != []
    requires forall i :: 0 <= i < |items| ==> c !in items[i]
    ensures Split(Join(items, [c]), c) == items
    decreases |items|
  {
    if |items| == 1 {
      SplitWithout(items[0], c);
    } else {
      SplitJoin(items[1..], c);
      SplitAt(items[0], Join(items[1..], [c]), c);
    }
  }

  /** Pages without text items contribute only blank lines. */
  lemma {:induction false} EmptyPagesBlank(pages: seq<seq<string>>)
    requires forall i :: 0 <= i < |pages| ==> pages[i] == []
    ensures forall k :: 0 <= k < |PagesText(pages)| ==> IsSpace(PagesText(pages)[k])
  {
    if pages != [] {
      var init := pages[..|pages| - 1];
      EmptyPagesBlank(init);
      var t := PagesText(init);
      assert PagesText(pages) == t + "\n\n";
      forall k | 0 <= k < |PagesText(pages)| ensures IsSpace(PagesText(pages)[k]) {
        if k < |t| {
          assert PagesText(pages)[k] == t[k];
        }
      }
    }
  }

  /**
   * A PDF whose pages carry no text items, such as a scanned one, is answered
   * with empty text and its page count.
   */
  lemma TextlessPdf(body: JsonObject, load: Json -> Loaded)
    requires Member(body, "pdfBase64").IsTruthy() && load(body["pdfBase64"]).Pages?
    requires forall i :: 0 <= i < |load(body["pdfBase64"]).pages| ==> load(body["pdfBase64"]).pages[i] == []
    ensures Respond(body, load).status == 200
    ensures Respond(body, load).body["text"] == JStr("")
    ensures Respond(body, load).body["pages"] == JNumber(|load(body["pdfBase64"]).pages| as real)
  {
    var pages := load(body["pdfBase64"]).pages;
    EmptyPagesBlank(pages);
    TrimSpec(PagesText(pages));
  }

  /** The text returned has no white space at either end. */
  lemma TextTrimmed(body: JsonObject, load: Json -> Loaded)
    requires Member(body, "pdfBase64").IsTruthy() && load(body["pdfBase64"]).Pages?
    ensures Respond(body, load).body["text"].JStr? && Trimmed(Respond(body, load).body["text"].s)
  {
    TrimSpec(PagesText(load(body["pdfBase64"]).pages));
  }
}
