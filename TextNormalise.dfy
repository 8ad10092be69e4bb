/**
 * The text clean-up chains of the job-content extractor
 * (src/components/JobUrlInput.tsx): each regular-expression replacement is
 * written out as the left-to-right, non-overlapping scan that a global
 * `String.prototype.replace` performs.
 *
 *   StripTags           `replace(/<[^>]*>/g, '\n')`
 *   CollapseBlankLines  `replace(/\n\s*\n\s*\n/g, '\n\n')`
 *   CollapseBlanks      `replace(/[ \t]+/g, ' ')`
 *   Normalise           the three-step chain ending in `trim()`
 */
module TextNormalise {
  import opened JsString

  // ---------------------------------------------------------------- tags

  /**
   * `s.replace(/<[^>]*>/g, '\n')`. At a `<` the pattern matches up to the
   * first `>` after it; a `<` with no `>` anywhere after it is left alone.
   */
  function StripTags(s: string): string
    decreases |s|
  {
    if |s| == 0 then []
    else if s[0] == '<' && '>' in s[1..] then
      var j := IndexOf(s[1..], '>').value;
      "\n" + StripTags(s[j + 2..])
    else [s[0]] + StripTags(s[1..])
  }

  /** No `<` is followed, anywhere later, by a `>`. */
  predicate NoTagLeft(s: string) {
    forall i, j :: 0 <= i < j < |s| && s[i] == '<' ==> s[j] != '>'
  }

  /** Stripping introduces no character but the line feed. */
  lemma {:induction false} StripTagsChars(s: string, c: char)
    requires c in StripTags(s) && c != '\n'
    ensures c in s
    decreases |s|
  {
    if s[0] == '<' && '>' in s[1..] {
      var j := IndexOf(s[1..], '>').value;
      assert c in StripTags(s[j + 2..]);
      StripTagsChars(s[j + 2..], c);
      assert s[j + 2..] == s[1..][j + 1..];
    } else if c != s[0] {
      StripTagsChars(s[1..], c);
    }
  }

  /** After stripping, nothing of the form `<...>` remains. */
  lemma {:induction false} StripTagsLeavesNoTag(s: string)
    ensures NoTagLeft(StripTags(s))
    decreases |s|
  {
    if |s| > 0 {
      var r := StripTags(s);
      if s[0] == '<' && '>' in s[1..] {
        var j := IndexOf(s[1..], '>').value;
        StripTagsLeavesNoTag(s[j + 2..]);
        var rest := StripTags(s[j + 2..]);
        assert r == "\n" + rest;
        forall i, k | 0 <= i < k < |r| && r[i] == '<' ensures r[k] != '>' {
          assert r[i] == rest[i - 1] && r[k] == rest[k - 1];
        }
      } else {
        StripTagsLeavesNoTag(s[1..]);
        var rest := StripTags(s[1..]);
        assert r == [s[0]] + rest;
        if s[0] == '<' {
          forall k | 0 < k < |r| ensures r[k] != '>' {
            if r[k] == '>' {
              assert rest[k - 1] == '>';
              StripTagsChars(s[1..], '>');
            }
          }
        }
        forall i, k | 0 <= i < k < |r| && r[i] == '<' ensures r[k] != '>' {
          if i > 0 {
            assert r[i] == rest[i - 1] && r[k] == rest[k - 1];
          }
        }
      }
    }
  }

  /** Text without a `<` passes through unchanged. */
  lemma {:induction false} StripTagsPlainText(s: string)
    requires '<' !in s
    ensures StripTags(s) == s
    decreases |s|
  {
    if |s| > 0 {
      StripTagsPlainText(s[1..]);
    }
  }

  // ---------------------------------------------------------------- blank lines

  /** The number of line feeds in the run of white space that begins `t`. */
  function LeadingBreaks(t: string): nat {
    if |t| == 0 || !IsSpace(t[0]) then 0
    else (if t[0] == '\n' then 1 else 0) + LeadingBreaks(t[1..])
  }

  /**
   * The length of the prefix of `t` that ends with the last line feed of its
   * leading white space (0 when that white space holds no line feed).
   */
  function BreakRunEnd(t: string): (e: nat)
    ensures e <= |t|
    ensures LeadingBreaks(t[e..]) == 0
    ensures e > 0 ==> LeadingBreaks(t) > 0
  {
    if |t| == 0 || !IsSpace(t[0]) then 0
    else
      var e := BreakRunEnd(t[1..]);
      assert t[1..][e..] == t[e + 1..];
      if e > 0 then e + 1 else if t[0] == '\n' then 1 else 0
  }

  /**
   * `s.replace(/\n\s*\n\s*\n/g, '\n\n')`. At a line feed followed by white
   * space holding at least two more line feeds, the greedy pattern reaches to
   * the last line feed of that white space, and the match becomes two line
   * feeds; white space after that last line feed is kept.
   */
  function CollapseBlankLines(s: string): string
    decreases |s|
  {
    if |s| == 0 then []
    else if s[0] == '\n' && LeadingBreaks(s[1..]) >= 2 then
      "\n\n" + CollapseBlankLines(s[1 + BreakRunEnd(s[1..])..])
    else [s[0]] + CollapseBlankLines(s[1..])
  }

  /** No line feed is followed by white space holding two more: the pattern has no match. */
  predicate NoBlankRun(s: string) {
    forall i :: 0 <= i < |s| && s[i] == '\n' ==> LeadingBreaks(s[i + 1..]) < 2
  }

  lemma NoBlankRunCons(c: char, t: string)
    ensures NoBlankRun([c] + t) <==> (c == '\n' ==> LeadingBreaks(t) < 2) && NoBlankRun(t)
  {
    if NoBlankRun(t) && (c == '\n' ==> LeadingBreaks(t) < 2) {
      NoBlankRunConsIntro(c, t);
    }
    if NoBlankRun([c] + t) {
      NoBlankRunConsElim(c, t);
    }
  }

  lemma NoBlankRunConsIntro(c: char, t: string)
    requires NoBlankRun(t) && (c == '\n' ==> LeadingBreaks(t) < 2)
    ensures NoBlankRun([c] + t)
  {
    var s := [c] + t;
    assert s[1..] == t;
    forall i | 0 < i < |s| && s[i] == '\n' ensures LeadingBreaks(s[i + 1..]) < 2 {
      assert s[i] == t[i - 1];
      assert s[i + 1..] == t[i..];
    }
  }

  lemma NoBlankRunConsElim(c: char, t: string)
    requires NoBlankRun([c] + t)
    ensures (c == '\n' ==> LeadingBreaks(t) < 2) && NoBlankRun(t)
  {
    var s := [c] + t;
    assert s[1..] == t;
    if c == '\n' {
      assert s[0] == '\n';
    }
    NoBlankRunSuffix(s, 1);
  }

  lemma NoBlankRunSuffix(s: string, k: nat)
    requires NoBlankRun(s) && k <= |s|
    ensures NoBlankRun(s[k..])
  {
    forall i | 0 <= i < |s| - k && s[k..][i] == '\n' ensures LeadingBreaks(s[k..][i + 1..]) < 2 {
      assert s[k..][i + 1..] == s[k + i + 1..];
    }
  }

  /** Cutting a string short cannot add line feeds to a run of white space. */
  lemma {:induction false} LeadingBreaksPrefix(t: string, m: nat)
    requires m <= |t|
    ensures LeadingBreaks(t[..m]) <= LeadingBreaks(t)
    decreases m
  {
    if m > 0 && IsSpace(t[0]) {
      LeadingBreaksPrefix(t[1..], m - 1);
      assert t[..m][1..] == t[1..][..m - 1];
    }
  }

  lemma NoBlankRunPrefix(s: string, m: nat)
    requires NoBlankRun(s) && m <= |s|
    ensures NoBlankRun(s[..m])
  {
    forall i | 0 <= i < m && s[..m][i] == '\n' ensures LeadingBreaks(s[..m][i + 1..]) < 2 {
      assert s[..m][i + 1..] == s[i + 1..][..m - i - 1];
      LeadingBreaksPrefix(s[i + 1..], m - i - 1);
    }
  }

  /** Collapsing never lengthens the run of line feeds at the front. */
  lemma {:induction false} LeadingBreaksCollapse(t: string)
    ensures LeadingBreaks(CollapseBlankLines(t)) <= LeadingBreaks(t)
    decreases |t|
  {
    if |t| > 0 {
      var r := CollapseBlankLines(t);
      if t[0] == '\n' && LeadingBreaks(t[1..]) >= 2 {
        var u := t[1 + BreakRunEnd(t[1..])..];
        assert t[1..][BreakRunEnd(t[1..])..] == u;
        LeadingBreaksCollapse(u);
        var rest := CollapseBlankLines(u);
        assert r == "\n\n" + rest;
        assert r[1..] == "\n" + rest && r[1..][1..] == rest;
      } else {
        LeadingBreaksCollapse(t[1..]);
        assert r[1..] == CollapseBlankLines(t[1..]);
      }
    }
  }

  /** After the collapse the pattern has no match left. */
  lemma {:induction false} CollapseBlankLinesLeavesNone(s: string)
    ensures NoBlankRun(CollapseBlankLines(s))
    decreases |s|
  {
    if |s| > 0 {
      var r := CollapseBlankLines(s);
      if s[0] == '\n' && LeadingBreaks(s[1..]) >= 2 {
        var u := s[1 + BreakRunEnd(s[1..])..];
        assert s[1..][BreakRunEnd(s[1..])..] == u;
        CollapseBlankLinesLeavesNone(u);
        LeadingBreaksCollapse(u);
        var rest := CollapseBlankLines(u);
        NoBlankRunCons('\n', rest);
        NoBlankRunCons('\n', "\n" + rest);
        assert ("\n" + rest)[1..] == rest;
        assert r == ['\n'] + ("\n" + rest);
      } else {
        CollapseBlankLinesLeavesNone(s[1..]);
        LeadingBreaksCollapse(s[1..]);
        NoBlankRunCons(s[0], CollapseBlankLines(s[1..]));
      }
    }
  }

  /** Text the pattern does not match passes through unchanged. */
  lemma {:induction false} CollapseBlankLinesIdentity(s: string)
    requires NoBlankRun(s)
    ensures CollapseBlankLines(s) == s
    decreases |s|
  {
    if |s| > 0 {
      NoBlankRunCons(s[0], s[1..]);
      assert [s[0]] + s[1..] == s;
      CollapseBlankLinesIdentity(s[1..]);
    }
  }

  // ---------------------------------------------------------------- spaces and tabs

  predicate IsBlank(c: char) { c == ' ' || c == '\t' }

  /** `s` without its leading spaces and tabs. */
  function DropBlanks(s: string): (r: string)
    ensures |r| <= |s| && r == s[|s| - |r|..]
    ensures r == [] || !IsBlank(r[0])
    ensures |s| > 0 && IsBlank(s[0]) ==> |r| < |s|
    ensures forall i :: 0 <= i < |s| - |r| ==> IsBlank(s[i])
  {
    if |s| > 0 && IsBlank(s[0]) then DropBlanks(s[1..]) else s
  }

  /** `s.replace(/[ \t]+/g, ' ')`: every run of spaces and tabs becomes one space. */
  function CollapseBlanks(s: string): string
    decreases |s|
  {
    if |s| == 0 then []
    else if IsBlank(s[0]) then " " + CollapseBlanks(DropBlanks(s))
    else [s[0]] + CollapseBlanks(s[1..])
  }

  predicate NoDoubleSpace(s: string) {
    forall i :: 0 <= i < |s| - 1 ==> !(s[i] == ' ' && s[i + 1] == ' ')
  }

  /** No tab and no two spaces in a row: the pattern's matches are all single spaces. */
  predicate BlanksCollapsed(s: string) {
    '\t' !in s && NoDoubleSpace(s)
  }

  lemma BlanksCollapsedCons(c: char, t: string)
    ensures BlanksCollapsed([c] + t) <==>
      c != '\t' && (c == ' ' ==> t == [] || t[0] != ' ') && BlanksCollapsed(t)
  {
    var s := [c] + t;
    assert s[1..] == t;
    assert '\t' in s <==> c == '\t' || '\t' in t;
    if c != '\t' && (c == ' ' ==> t == [] || t[0] != ' ') && BlanksCollapsed(t) {
      forall i | 0 <= i < |s| - 1 ensures !(s[i] == ' ' && s[i + 1] == ' ') {
        if i > 0 {
          assert s[i] == t[i - 1] && s[i + 1] == t[i];
        } else {
          assert s[0] == c && s[1] == t[0];
        }
      }
      assert NoDoubleSpace(s);
    }
    if BlanksCollapsed(s) {
      if c == ' ' && t != [] {
        assert s[0] == c && s[1] == t[0];
      }
      forall i | 0 <= i < |t| - 1 ensures !(t[i] == ' ' && t[i + 1] == ' ') {
        assert s[i + 1] == t[i] && s[i + 2] == t[i + 1];
      }
    }
  }

  lemma {:induction false} CollapseBlanksFirst(s: string)
    requires s != [] && !IsBlank(s[0])
    ensures CollapseBlanks(s) != [] && CollapseBlanks(s)[0] == s[0]
  {
  }

  /** After the collapse no tab and no two adjacent spaces remain. */
  lemma {:induction false} CollapseBlanksLeavesNone(s: string)
    ensures BlanksCollapsed(CollapseBlanks(s))
    decreases |s|
  {
    if |s| > 0 {
      if IsBlank(s[0]) {
        var d := DropBlanks(s);
        CollapseBlanksLeavesNone(d);
        if d != [] { CollapseBlanksFirst(d); }
        BlanksCollapsedCons(' ', CollapseBlanks(d));
      } else {
        CollapseBlanksLeavesNone(s[1..]);
        BlanksCollapsedCons(s[0], CollapseBlanks(s[1..]));
      }
    }
  }

  /** Text whose blanks are already single spaces passes through unchanged. */
  lemma {:induction false} CollapseBlanksIdentity(s: string)
    requires BlanksCollapsed(s)
    ensures CollapseBlanks(s) == s
    decreases |s|
  {
    if |s| > 0 {
      BlanksCollapsedCons(s[0], s[1..]);
      assert [s[0]] + s[1..] == s;
      CollapseBlanksIdentity(s[1..]);
      if s[0] == ' ' {
        assert DropBlanks(s) == s[1..];
      }
    }
  }

  /** Spaces and tabs are white space but not line feeds, so the line-feed count is unchanged. */
  lemma {:induction false} LeadingBreaksDropBlanks(t: string)
    ensures LeadingBreaks(DropBlanks(t)) == LeadingBreaks(t)
    decreases |t|
  {
    if |t| > 0 && IsBlank(t[0]) {
      LeadingBreaksDropBlanks(t[1..]);
      assert IsSpace(t[0]) && t[0] != '\n';
      assert LeadingBreaks(t) == LeadingBreaks(t[1..]);
      assert DropBlanks(t) == DropBlanks(t[1..]);
    }
  }

  lemma {:induction false} LeadingBreaksCollapseBlanks(t: string)
    ensures LeadingBreaks(CollapseBlanks(t)) == LeadingBreaks(t)
    decreases |t|
  {
    if |t| > 0 {
      var r := CollapseBlanks(t);
      if IsBlank(t[0]) {
        LeadingBreaksCollapseBlanks(DropBlanks(t));
        LeadingBreaksDropBlanks(t);
        assert r[1..] == CollapseBlanks(DropBlanks(t));
        LeadingBreaksDropBlanks(t[1..]);
      } else {
        LeadingBreaksCollapseBlanks(t[1..]);
        assert r[1..] == CollapseBlanks(t[1..]);
      }
    }
  }

  /** Collapsing blanks cannot create a run of blank lines. */
  lemma {:induction false} CollapseBlanksKeepsNoBlankRun(s: string)
    requires NoBlankRun(s)
    ensures NoBlankRun(CollapseBlanks(s))
    decreases |s|
  {
    if |s| > 0 {
      if IsBlank(s[0]) {
        var d := DropBlanks(s);
        NoBlankRunSuffix(s, |s| - |d|);
        CollapseBlanksKeepsNoBlankRun(d);
        NoBlankRunCons(' ', CollapseBlanks(d));
      } else {
        NoBlankRunCons(s[0], s[1..]);
        assert [s[0]] + s[1..] == s;
        CollapseBlanksKeepsNoBlankRun(s[1..]);
        LeadingBreaksCollapseBlanks(s[1..]);
        NoBlankRunCons(s[0], CollapseBlanks(s[1..]));
      }
    }
  }

  // ---------------------------------------------------------------- the chains

  /**
   * `text.replace(/\n\s*\n\s*\n/g, '\n\n').replace(/[ \t]+/g, ' ').trim()`,
   * the final clean-up of every extracted description.
   */
  function Normalise(s: string): string {
    Trim(CollapseBlanks(CollapseBlankLines(s)))
  }

  /** What normalised text looks like. */
  predicate Normalised(s: string) {
    Trimmed(s) && NoBlankRun(s) && BlanksCollapsed(s)
  }

  /** Trimming keeps a string's runs of blank lines and blanks collapsed. */
  lemma TrimKeepsCollapsed(s: string)
    requires NoBlankRun(s) && BlanksCollapsed(s)
    ensures Normalised(Trim(s))
  {
    TrimSpec(s);
    var k := |s| - |TrimStart(s)|;
    var r := Trim(s);
    NoBlankRunSuffix(s, k);
    NoBlankRunPrefix(s[k..], |r|);
    assert s[k..][..|r|] == r;
    assert '\t' !in r by {
      forall i | 0 <= i < |r| ensures r[i] != '\t' { assert r[i] == s[k + i]; }
    }
    forall i | 0 <= i < |r| - 1 ensures !(r[i] == ' ' && r[i + 1] == ' ') {
      assert r[i] == s[k + i] && r[i + 1] == s[k + i + 1];
    }
  }

  /**
   * The normaliser's promise: no surrounding white space, no tab, no two
   * adjacent spaces, and no three line feeds separated only by white space.
   */
  lemma NormaliseSpec(s: string)
    ensures Normalised(Normalise(s))
  {
    var c := CollapseBlankLines(s);
    CollapseBlankLinesLeavesNone(s);
    CollapseBlanksKeepsNoBlankRun(c);
    CollapseBlanksLeavesNone(c);
    TrimKeepsCollapsed(CollapseBlanks(c));
  }

  /** Normalised text is a fixed point of the normaliser. */
  lemma NormaliseFixesNormalised(s: string)
    requires Normalised(s)
    ensures Normalise(s) == s
  {
    CollapseBlankLinesIdentity(s);
    CollapseBlanksIdentity(s);
    TrimOfTrimmed(s);
  }

  /** Normalising twice is normalising once. */
  lemma NormaliseIdempotent(s: string)
    ensures Normalise(Normalise(s)) == Normalise(s)
  {
    NormaliseSpec(s);
    NormaliseFixesNormalised(Normalise(s));
  }

  /**
   * The JSON-LD description chain, which leaves out the blank collapse:
   * `replace(/<[^>]*>/g, '\n').replace(/\n\s*\n\s*\n/g, '\n\n').trim()`.
   */
  function StructuredLdText(html: string): string {
    Trim(CollapseBlankLines(StripTags(html)))
  }

  /** The embedded application-state description chain: tags, then the full normaliser. */
  function StructuredAppText(html: string): string {
    Normalise(StripTags(html))
  }

  /** The JSON-LD chain leaves trimmed text without runs of blank lines (tabs and double spaces may remain). */
  lemma StructuredLdTextSpec(html: string)
    ensures var r := StructuredLdText(html);
      Trimmed(r) && NoBlankRun(r)
  {
    var c := CollapseBlankLines(StripTags(html));
    CollapseBlankLinesLeavesNone(StripTags(html));
    TrimSpec(c);
    var k := |c| - |TrimStart(c)|;
    NoBlankRunSuffix(c, k);
    NoBlankRunPrefix(c[k..], |Trim(c)|);
    assert c[k..][..|Trim(c)|] == Trim(c);
  }
}
