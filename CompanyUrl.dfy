/**
 * The company-from-URL fallback of the job extractor: five case-insensitive
 * regular expressions of the shape `prefix([^stop]+)suffix`, tried in order,
 * whose first capture has its hyphens turned into spaces and the first
 * character of every word capitalised.
 */
module CompanyUrl {
  import opened JsString

  /**
   * The regular expression `prefix([^stop]+)suffix` with the `i` flag, where
   * `prefix` and `suffix` are literal text.
   */
  datatype Pattern = Pattern(prefix: string, stop: char, suffix: string)

  /** The URL patterns, in the order they are tried. */
  const UrlPatterns: seq<Pattern> := [
    Pattern("jobs.", '.', ".com"),
    Pattern("careers.", '.', ".com"),
    Pattern("", '.', ".greenhouse.io"),
    Pattern("smartrecruiters.com/", '/', ""),
    Pattern("boards.greenhouse.io/", '/', "")
  ]

  /** The literal `p` matches `s` at index `k` under the `i` flag. */
  predicate MatchesAtIgnoringCase(s: string, p: string, k: int) {
    0 <= k && k + |p| <= |s| && forall i :: 0 <= i < |p| ==> SameLetterIgnoringCase(s[k + i], p[i])
  }

  /** The end of the run of characters other than `stop` that starts at `k`. */
  function RunEnd(s: string, k: nat, stop: char): (e: nat)
    requires k <= |s|
    ensures k <= e <= |s|
    ensures forall i :: k <= i < e ==> s[i] != stop
    ensures e < |s| ==> s[e] == stop
    decreases |s| - k
  {
    if k == |s| || s[k] == stop then k else RunEnd(s, k + 1, stop)
  }

  /**
   * The capture of a match that starts at `k`. The group is greedy and the
   * suffix cannot begin with a character the group accepts, so the only match
   * at `k` takes the whole run.
   */
  function MatchAt(p: Pattern, s: string, k: nat): (g: Option<string>)
    ensures g.Some? ==> g.value != [] && p.stop !in g.value
  {
    if MatchesAtIgnoringCase(s, p.prefix, k) then
      var start := k + |p.prefix|;
      var e := RunEnd(s, start, p.stop);
      if e > start && MatchesAtIgnoringCase(s, p.suffix, e) then Some(s[start..e]) else None
    else None
  }

  /** `s.match(p)[1]`: the capture of the leftmost match at or after `k`. */
  function Search(p: Pattern, s: string, k: nat): (g: Option<string>)
    ensures g.Some? ==> g.value != [] && p.stop !in g.value
    decreases |s| + 1 - k
  {
    if k > |s| then None
    else if MatchAt(p, s, k).Some? then MatchAt(p, s, k)
    else Search(p, s, k + 1)
  }

  /** A successful search returns the capture of the leftmost match. */
  lemma {:induction false} SearchLeftmost(p: Pattern, s: string, k: nat)
    requires Search(p, s, k).Some?
    ensures exists j ::
      && k <= j <= |s|
      && MatchAt(p, s, j) == Search(p, s, k)
      && forall i :: k <= i < j ==> MatchAt(p, s, i).None?
    decreases |s| + 1 - k
  {
    if MatchAt(p, s, k).None? {
      SearchLeftmost(p, s, k + 1);
      var j :| k + 1 <= j <= |s| && MatchAt(p, s, j) == Search(p, s, k + 1)
        && forall i :: k + 1 <= i < j ==> MatchAt(p, s, i).None?;
      SearchSkips(p, s, k, j);
    }
  }

  /** One step of the leftmost-match argument: an index without a match is skipped. */
  lemma SearchSkips(p: Pattern, s: string, k: nat, j: nat)
    requires k < j <= |s| && MatchAt(p, s, k).None?
    requires forall i :: k + 1 <= i < j ==> MatchAt(p, s, i).None?
    ensures Search(p, s, k) == Search(p, s, k + 1)
    ensures forall i :: k <= i < j ==> MatchAt(p, s, i).None?
  {
  }

  /** The search fails exactly when there is no match at or after `k`. */
  lemma {:induction false} SearchFails(p: Pattern, s: string, k: nat)
    ensures Search(p, s, k).None? <==> forall j :: k <= j <= |s| ==> MatchAt(p, s, j).None?
    decreases |s| + 1 - k
  {
    if k <= |s| {
      var m := MatchAt(p, s, k);
      if m.None? {
        SearchFails(p, s, k + 1);
        assert Search(p, s, k) == Search(p, s, k + 1);
      } else {
        assert Search(p, s, k) == m;
      }
    }
  }

  /** A match anywhere guarantees that the search succeeds. */
  lemma SearchFindsMatch(p: Pattern, s: string, j: nat)
    requires j <= |s| && MatchAt(p, s, j).Some?
    ensures Search(p, s, 0).Some?
  {
    SearchFails(p, s, 0);
  }

  // ---------------------------------------------------------------- renaming

  /** `g.replace(/-/g, ' ')`. */
  function HyphensToSpaces(g: string): (r: string)
    ensures |r| == |g|
    ensures forall i :: 0 <= i < |g| ==> r[i] == if g[i] == '-' then ' ' else g[i]
  {
    if |g| == 0 then [] else [if g[0] == '-' then ' ' else g[0]] + HyphensToSpaces(g[1..])
  }

  /** Index `i` is where a `\b\w` match begins: a word character with no word character before it. */
  predicate WordStart(s: string, i: int) {
    0 <= i < |s| && IsWordChar(s[i]) && (i == 0 || !IsWordChar(s[i - 1]))
  }

  /** `s.replace(/\b\w/g, l => l.toUpperCase())`, given whether the character before `s` is a word character. */
  function CapitaliseAfter(s: string, afterWord: bool): (r: string)
    ensures |r| == |s|
  {
    if |s| == 0 then []
    else
      var c := if IsWordChar(s[0]) && !afterWord then UpperAscii(s[0]) else s[0];
      [c] + CapitaliseAfter(s[1..], IsWordChar(s[0]))
  }

  function Capitalise(s: string): string {
    CapitaliseAfter(s, false)
  }

  /** The character at `i` once `s`, preceded by a word character or not, is capitalised. */
  function CapitalisedAt(s: string, afterWord: bool, i: nat): char
    requires i < |s|
  {
    var starts := IsWordChar(s[i]) && if i == 0 then !afterWord else !IsWordChar(s[i - 1]);
    if starts then UpperAscii(s[i]) else s[i]
  }

  lemma {:induction false} CapitaliseAfterSpec(s: string, afterWord: bool)
    ensures forall i :: 0 <= i < |s| ==> CapitaliseAfter(s, afterWord)[i] == CapitalisedAt(s, afterWord, i)
  {
    if |s| > 0 {
      var t := s[1..];
      CapitaliseAfterSpec(t, IsWordChar(s[0]));
      var r := CapitaliseAfter(s, afterWord);
      var c := if IsWordChar(s[0]) && !afterWord then UpperAscii(s[0]) else s[0];
      assert r == [c] + CapitaliseAfter(t, IsWordChar(s[0]));
      forall i | 0 <= i < |s| ensures r[i] == CapitalisedAt(s, afterWord, i) {
        if i > 0 {
          assert r[i] == CapitaliseAfter(t, IsWordChar(s[0]))[i - 1];
          assert t[i - 1] == s[i];
          if i > 1 {
            assert t[i - 2] == s[i - 1];
          }
          assert CapitalisedAt(t, IsWordChar(s[0]), i - 1) == CapitalisedAt(s, afterWord, i);
        }
      }
    }
  }

  /**
   * Capitalisation upper-cases exactly the characters that start a run of
   * word characters, and leaves every other character as it was.
   */
  lemma CapitaliseSpec(s: string)
    ensures |Capitalise(s)| == |s|
    ensures forall i :: 0 <= i < |s| ==> Capitalise(s)[i] == (if WordStart(s, i) then UpperAscii(s[i]) else s[i])
  {
    CapitaliseAfterSpec(s, false);
    forall i | 0 <= i < |s| ensures Capitalise(s)[i] == (if WordStart(s, i) then UpperAscii(s[i]) else s[i]) {
      assert Capitalise(s)[i] == CapitalisedAt(s, false, i);
    }
  }

  /** The company name a URL capture is turned into. */
  function CompanyName(g: string): string {
    Capitalise(HyphensToSpaces(g))
  }

  /**
   * The company name has the capture's length, no hyphen, a space where the
   * capture had a hyphen, and no lower-case letter at the start of a word.
   */
  lemma CompanyNameSpec(g: string)
    ensures var r := CompanyName(g);
      && |r| == |g|
      && '-' !in r
      && (forall i :: 0 <= i < |g| && g[i] == '-' ==> r[i] == ' ')
      && (forall i :: 0 <= i < |r| && WordStart(r, i) ==> !('a' <= r[i] <= 'z'))
      && (forall i :: 0 <= i < |g| && !WordStart(g, i) && g[i] != '-' ==> r[i] == g[i])
  {
    var h := HyphensToSpaces(g);
    CapitaliseSpec(h);
    var r := CompanyName(g);
    forall i | 0 <= i < |g| ensures WordStart(h, i) <==> WordStart(g, i) {
    }
    forall i | 0 <= i < |r| ensures WordStart(r, i) <==> WordStart(h, i) {
    }
  }

  // ---------------------------------------------------------------- the pattern list

  /** The company of the first pattern in `ps` that matches `url`. */
  function UrlCompany(url: string, ps: seq<Pattern>): (c: Option<string>)
    ensures c.Some? ==> c.value != []
  {
    if |ps| == 0 then None
    else match Search(ps[0], url, 0)
      case Some(g) => CompanyNameSpec(g); Some(CompanyName(g))
      case None => UrlCompany(url, ps[1..])
  }

  /** The company comes from the first pattern in list order that matches. */
  lemma {:induction false} UrlCompanyFirstPattern(url: string, ps: seq<Pattern>)
    ensures UrlCompany(url, ps).None? <==> forall n :: 0 <= n < |ps| ==> Search(ps[n], url, 0).None?
    ensures UrlCompany(url, ps).Some? ==>
      exists n :: 0 <= n < |ps| && Search(ps[n], url, 0).Some?
        && UrlCompany(url, ps) == Some(CompanyName(Search(ps[n], url, 0).value))
        && forall m :: 0 <= m < n ==> Search(ps[m], url, 0).None?
  {
    if |ps| > 0 && Search(ps[0], url, 0).None? {
      UrlCompanyFirstPattern(url, ps[1..]);
      assert forall n :: 1 <= n < |ps| ==> ps[1..][n - 1] == ps[n];
      if UrlCompany(url, ps).Some? {
        var n :| 0 <= n < |ps[1..]| && Search(ps[1..][n], url, 0).Some?
          && UrlCompany(url, ps[1..]) == Some(CompanyName(Search(ps[1..][n], url, 0).value))
          && forall m :: 0 <= m < n ==> Search(ps[1..][m], url, 0).None?;
        assert Search(ps[n + 1], url, 0).Some?;
      }
    }
  }

  /**
   * `([^.]+)\.greenhouse\.io` matches every URL that `boards\.greenhouse\.io\/([^/]+)`
   * matches: the `boards` label is a dot-free run followed by `.greenhouse.io`.
   */
  lemma BoardsMatchImpliesGenericMatch(url: string)
    requires Search(UrlPatterns[4], url, 0).Some?
    ensures Search(UrlPatterns[2], url, 0).Some?
  {
    var boards, generic := UrlPatterns[4], UrlPatterns[2];
    SearchLeftmost(boards, url, 0);
    var j :| 0 <= j <= |url| && MatchAt(boards, url, j).Some?;
    assert MatchesAtIgnoringCase(url, boards.prefix, j);
    BoardsPrefixSplit();
    GenericMatchInsideBoards(url, j, generic);
    SearchFindsMatch(generic, url, j);
  }

  /** Where the `boards.greenhouse.io/` prefix matches, `([^.]+)\.greenhouse\.io` matches too. */
  lemma GenericMatchInsideBoards(url: string, j: nat, generic: Pattern)
    requires generic.prefix == [] && generic.stop == '.' && |generic.suffix| > 0 && generic.suffix[0] == '.'
    requires MatchesAtIgnoringCase(url, "boards" + (generic.suffix + "/"), j)
    ensures MatchAt(generic, url, j).Some?
  {
    MatchesSplit(url, "boards", generic.suffix + "/", j);
    MatchesSplit(url, generic.suffix, "/", j + 6);
    MatchAvoids(url, "boards", j, '.');
    assert SameLetterIgnoringCase(url[j + 6], generic.suffix[0]);
    RunEndAt(url, j, j + 6, '.');
  }

  lemma BoardsPrefixSplit()
    ensures UrlPatterns[4].prefix == "boards" + (UrlPatterns[2].suffix + "/")
    ensures '.' !in "boards" && UrlPatterns[2].suffix[0] == '.'
  {
  }

  lemma MatchesSplit(s: string, a: string, b: string, k: int)
    requires MatchesAtIgnoringCase(s, a + b, k)
    ensures MatchesAtIgnoringCase(s, a, k) && MatchesAtIgnoringCase(s, b, k + |a|)
  {
    forall i | 0 <= i < |b| ensures SameLetterIgnoringCase(s[k + |a| + i], b[i]) {
      assert (a + b)[|a| + i] == b[i];
    }
    forall i | 0 <= i < |a| ensures SameLetterIgnoringCase(s[k + i], a[i]) {
      assert (a + b)[i] == a[i];
    }
  }

  /** Text matching a literal free of a non-letter `stop` contains no `stop`. */
  lemma MatchAvoids(s: string, p: string, k: int, stop: char)
    requires MatchesAtIgnoringCase(s, p, k) && stop !in p && !IsAsciiLetter(stop)
    ensures forall i :: k <= i < k + |p| ==> s[i] != stop
  {
    forall i | k <= i < k + |p| ensures s[i] != stop {
      assert SameLetterIgnoringCase(s[k + (i - k)], p[i - k]);
    }
  }

  /** Consequently the fifth URL pattern never supplies the company. */
  lemma BoardsPatternShadowed(url: string)
    ensures UrlCompany(url, UrlPatterns) == UrlCompany(url, UrlPatterns[..4])
  {
    var ps := UrlPatterns;
    if Search(ps[4], url, 0).Some? {
      BoardsMatchImpliesGenericMatch(url);
    }
    assert ps[..4][1..] == ps[1..4] && ps[1..][1..] == ps[2..] && ps[1..4][1..] == ps[2..4];
    assert ps[2..][1..] == ps[3..] && ps[2..4][1..] == [ps[3]];
    assert ps[3..][1..] == [ps[4]] && [ps[3]][1..] == [];
    if Search(ps[3], url, 0).None? {
      assert UrlCompany(url, [ps[3]]) == None;
      if Search(ps[2], url, 0).None? {
        assert UrlCompany(url, [ps[4]]) == None;
        assert UrlCompany(url, ps[3..]) == UrlCompany(url, [ps[3]]);
      }
    }
    assert UrlCompany(url, ps[2..]) == UrlCompany(url, ps[2..4]);
    assert UrlCompany(url, ps[1..]) == UrlCompany(url, ps[1..4]);
  }

  /** When the characters `k..e` avoid `stop` and `s[e]` is `stop`, the run from `k` ends at `e`. */
  lemma {:induction false} RunEndAt(s: string, k: nat, e: nat, stop: char)
    requires k <= e < |s| && s[e] == stop
    requires forall i :: k <= i < e ==> s[i] != stop
    ensures RunEnd(s, k, stop) == e
    decreases e - k
  {
    if k < e {
      RunEndAt(s, k + 1, e, stop);
    }
  }
}
