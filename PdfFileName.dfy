/**
 * The name of the downloaded tailored resume:
 * `<name>_resume_<company>_<position>.pdf`, where the name has its whitespace
 * runs turned into `_`, the company (or `Company` when none is known) keeps
 * only ASCII letters and digits, and the position (the tailored job title)
 * has its whitespace runs turned into `_` and keeps only letters, digits,
 * `_` and `-`.
 */
module PdfFileName {
  import opened JsString
  import opened Json
  import opened JobTypes

  /** `s` without its leading whitespace. */
  function DropSpaces(s: string): (r: string)
    ensures |r| <= |s|
    ensures r == [] || !IsSpace(r[0])
    ensures s != [] && IsSpace(s[0]) ==> |r| < |s|
  {
    if s == [] || !IsSpace(s[0]) then s else DropSpaces(s[1..])
  }

  /** What is dropped is whitespace, and what is kept is the rest of `s`. */
  lemma {:induction false} DropSpacesSuffix(s: string)
    ensures var r := DropSpaces(s);
      && r == s[|s| - |r|..]
      && forall i :: 0 <= i < |s| - |r| ==> IsSpace(s[i])
    decreases |s|
  {
    if s != [] && IsSpace(s[0]) {
      DropSpacesSuffix(s[1..]);
    }
  }

  /** `s.replace(/\s+/g, rep)`: every maximal run of whitespace becomes `rep`. */
  function ReplaceSpaceRuns(s: string, rep: string): string
    decreases |s|
  {
    if s == [] then []
    else if IsSpace(s[0]) then rep + ReplaceSpaceRuns(DropSpaces(s), rep)
    else [s[0]] + ReplaceSpaceRuns(s[1..], rep)
  }

  /** `s.replace(/[^...]/g, '')`: the characters of `s` that `keep` accepts, in order. */
  function KeepOnly(s: string, keep: char -> bool): (r: string)
    ensures forall i :: 0 <= i < |r| ==> keep(r[i])
    ensures |r| <= |s|
  {
    if s == [] then []
    else (if keep(s[0]) then [s[0]] else []) + KeepOnly(s[1..], keep)
  }

  predicate IsPositionChar(c: char) { IsAsciiAlnum(c) || c == '_' || c == '-' }

  /** The name part. */
  function NamePart(name: string): string {
    ReplaceSpaceRuns(name, "_")
  }

  /** The company part: `Company` when the job has no company or an empty one. */
  function CompanyPart(job: Option<JobData>): (c: string)
    ensures forall i :: 0 <= i < |c| ==> IsAsciiAlnum(c[i])
    ensures job.None? || job.value.company.None? || job.value.company.value == [] ==> c == "Company"
  {
    if job.Some? && job.value.company.Some? && job.value.company.value != [] then
      KeepOnly(ReplaceSpaceRuns(job.value.company.value, ""), IsAsciiAlnum)
    else "Company"
  }

  /** The position part. */
  function PositionPart(jobTitle: string): (p: string)
    ensures forall i :: 0 <= i < |p| ==> IsPositionChar(p[i])
  {
    KeepOnly(ReplaceSpaceRuns(jobTitle, "_"), IsPositionChar)
  }

  function FileName(name: string, job: Option<JobData>, jobTitle: string): string {
    NamePart(name) + "_resume_" + CompanyPart(job) + "_" + PositionPart(jobTitle) + ".pdf"
  }

  /**
   * The file name for a tailored resume; `None` when its `name` or `jobTitle`
   * is not a string, where calling `replace` on it throws.
   */
  function DownloadFileName(tailored: JsonObject, job: Option<JobData>): (f: Option<string>)
    ensures f.Some? <==> (Member(tailored, "name").Value? && Member(tailored, "name").v.JStr?
                      && Member(tailored, "jobTitle").Value? && Member(tailored, "jobTitle").v.JStr?)
    ensures f.Some? ==> f.value == FileName(tailored["name"].s, job, tailored["jobTitle"].s)
  {
    if "name" in tailored && tailored["name"].JStr? && "jobTitle" in tailored && tailored["jobTitle"].JStr? then
      Some(FileName(tailored["name"].s, job, tailored["jobTitle"].s))
    else None
  }

  /** Every character of the replacement output is a non-space character of the input or one of `rep`. */
  lemma {:induction false} ReplaceSpaceRunsChars(s: string, rep: string)
    ensures forall i :: 0 <= i < |ReplaceSpaceRuns(s, rep)| ==>
      ReplaceSpaceRuns(s, rep)[i] in rep || (ReplaceSpaceRuns(s, rep)[i] in s && !IsSpace(ReplaceSpaceRuns(s, rep)[i]))
    decreases |s|
  {
    if s == [] {
    } else if IsSpace(s[0]) {
      var d := DropSpaces(s);
      DropSpacesSuffix(s);
      ReplaceSpaceRunsChars(d, rep);
      forall c | c in d ensures c in s {
        var j :| 0 <= j < |d| && d[j] == c;
        assert s[|s| - |d| + j] == c;
      }
    } else {
      ReplaceSpaceRunsChars(s[1..], rep);
      forall c | c in s[1..] ensures c in s {
        var j :| 0 <= j < |s[1..]| && s[1..][j] == c;
        assert s[j + 1] == c;
      }
    }
  }

  /** No whitespace is left when the replacement has none. */
  lemma ReplaceSpaceRunsNoSpace(s: string, rep: string)
    requires forall i :: 0 <= i < |rep| ==> !IsSpace(rep[i])
    ensures forall i :: 0 <= i < |ReplaceSpaceRuns(s, rep)| ==> !IsSpace(ReplaceSpaceRuns(s, rep)[i])
  {
    ReplaceSpaceRunsChars(s, rep);
  }

  /** Text without whitespace is left as it is. */
  lemma {:induction false} ReplaceSpaceRunsIdentity(s: string, rep: string)
    requires forall i :: 0 <= i < |s| ==> !IsSpace(s[i])
    ensures ReplaceSpaceRuns(s, rep) == s
    decreases |s|
  {
    if s != [] {
      ReplaceSpaceRunsIdentity(s[1..], rep);
    }
  }

  /** Each run becomes a single replacement: a `c` not in the input never appears twice in a row. */
  lemma {:induction false} ReplaceSpaceRunsSingle(s: string, c: char)
    requires !IsSpace(c) && c !in s
    ensures forall i :: 0 <= i < |ReplaceSpaceRuns(s, [c])| - 1 ==>
      !(ReplaceSpaceRuns(s, [c])[i] == c && ReplaceSpaceRuns(s, [c])[i + 1] == c)
    decreases |s|
  {
    if s == [] {
    } else if IsSpace(s[0]) {
      var d := DropSpaces(s);
      DropSpacesSuffix(s);
      ReplaceSpaceRunsSingle(d, c);
      if d != [] {
        assert d[0] == s[|s| - |d|];
        assert ReplaceSpaceRuns(d, [c])[0] == d[0];
      }
    } else {
      ReplaceSpaceRunsSingle(s[1..], c);
    }
  }

  lemma {:induction false} KeepOnlyAppend(a: string, b: string, keep: char -> bool)
    ensures KeepOnly(a + b, keep) == KeepOnly(a, keep) + KeepOnly(b, keep)
    decreases |a|
  {
    if a != [] {
      assert (a + b)[0] == a[0] && (a + b)[1..] == a[1..] + b;
      KeepOnlyAppend(a[1..], b, keep);
      var h := if keep(a[0]) then [a[0]] else [];
      assert KeepOnly(a + b, keep) == h + KeepOnly(a[1..] + b, keep);
      assert h + (KeepOnly(a[1..], keep) + KeepOnly(b, keep)) == (h + KeepOnly(a[1..], keep)) + KeepOnly(b, keep);
    } else {
      assert a + b == b;
    }
  }

  /** A filter that rejects whitespace does not see leading whitespace. */
  lemma {:induction false} KeepOnlyDropSpaces(s: string, keep: char -> bool)
    requires forall c :: keep(c) ==> !IsSpace(c)
    ensures KeepOnly(DropSpaces(s), keep) == KeepOnly(s, keep)
    decreases |s|
  {
    if s != [] && IsSpace(s[0]) {
      KeepOnlyDropSpaces(s[1..], keep);
    }
  }

  /**
   * The replacement does not disturb the other characters: a filter that
   * rejects whitespace and the replacement sees the same text before and after.
   */
  lemma {:induction false} ReplaceSpaceRunsKeepsOthers(s: string, rep: string, keep: char -> bool)
    requires forall c :: keep(c) ==> !IsSpace(c)
    requires KeepOnly(rep, keep) == []
    ensures KeepOnly(ReplaceSpaceRuns(s, rep), keep) == KeepOnly(s, keep)
    decreases |s|
  {
    if s == [] {
    } else if IsSpace(s[0]) {
      var d := DropSpaces(s);
      ReplaceSpaceRunsKeepsOthers(d, rep, keep);
      KeepOnlyAppend(rep, ReplaceSpaceRuns(d, rep), keep);
      KeepOnlyDropSpaces(s, keep);
    } else {
      ReplaceSpaceRunsKeepsOthers(s[1..], rep, keep);
      KeepOnlyAppend([s[0]], ReplaceSpaceRuns(s[1..], rep), keep);
    }
  }

  /** A filter every character passes leaves the text unchanged. */
  lemma {:induction false} KeepOnlyAll(s: string, keep: char -> bool)
    requires forall i :: 0 <= i < |s| ==> keep(s[i])
    ensures KeepOnly(s, keep) == s
    decreases |s|
  {
    if s != [] {
      KeepOnlyAll(s[1..], keep);
    }
  }

  /** A filter no character passes leaves nothing. */
  lemma {:induction false} KeepOnlyNone(s: string, keep: char -> bool)
    requires forall i :: 0 <= i < |s| ==> !keep(s[i])
    ensures KeepOnly(s, keep) == []
    decreases |s|
  {
    if s != [] {
      KeepOnlyNone(s[1..], keep);
    }
  }

  /** Removing whitespace before keeping letters and digits changes nothing: the company part is its letters and digits. */
  lemma CompanyPartIsAlnum(job: JobData)
    requires job.company.Some? && job.company.value != []
    ensures CompanyPart(Some(job)) == KeepOnly(job.company.value, IsAsciiAlnum)
  {
    KeepOnlyNone("", IsAsciiAlnum);
    ReplaceSpaceRunsKeepsOthers(job.company.value, "", IsAsciiAlnum);
  }

  /** A company with no ASCII letter or digit gives an empty company part, not `Company`. */
  lemma CompanyPartCanBeEmpty(job: JobData)
    requires job.company.Some? && job.company.value != []
    requires forall i :: 0 <= i < |job.company.value| ==> !IsAsciiAlnum(job.company.value[i])
    ensures CompanyPart(Some(job)) == ""
  {
    CompanyPartIsAlnum(job);
    KeepOnlyNone(job.company.value, IsAsciiAlnum);
  }

  /** A title made of position characters and whitespace only has its whitespace runs replaced. */
  lemma PositionPartOfPlainTitle(jobTitle: string)
    requires forall i :: 0 <= i < |jobTitle| ==> IsPositionChar(jobTitle[i]) || IsSpace(jobTitle[i])
    ensures PositionPart(jobTitle) == ReplaceSpaceRuns(jobTitle, "_")
  {
    var r := ReplaceSpaceRuns(jobTitle, "_");
    ReplaceSpaceRunsChars(jobTitle, "_");
    forall i | 0 <= i < |r| ensures IsPositionChar(r[i]) {
      if r[i] !in "_" {
        var j :| 0 <= j < |jobTitle| && jobTitle[j] == r[i];
      }
    }
    KeepOnlyAll(r, IsPositionChar);
  }

  lemma NoSpaceConcat(a: string, b: string)
    requires forall i :: 0 <= i < |a| ==> !IsSpace(a[i])
    requires forall i :: 0 <= i < |b| ==> !IsSpace(b[i])
    ensures forall i :: 0 <= i < |a + b| ==> !IsSpace((a + b)[i])
  {
    forall i | 0 <= i < |a + b| ensures !IsSpace((a + b)[i]) {
      if i >= |a| {
        assert (a + b)[i] == b[i - |a|];
      }
    }
  }

  /** The file name has no whitespace and ends in `.pdf`. */
  lemma FileNameShape(name: string, job: Option<JobData>, jobTitle: string)
    ensures var f := FileName(name, job, jobTitle);
      && |f| >= 4 && f[|f| - 4..] == ".pdf"
      && forall i :: 0 <= i < |f| ==> !IsSpace(f[i])
  {
    var n := NamePart(name);
    var c := CompanyPart(job);
    var p := PositionPart(jobTitle);
    ReplaceSpaceRunsNoSpace(name, "_");
    var lead := "_resume_";
    var sep := "_";
    var ext := ".pdf";
    assert forall i :: 0 <= i < |lead| ==> !IsSpace(lead[i]);
    assert forall i :: 0 <= i < |ext| ==> !IsSpace(ext[i]);
    NoSpaceConcat(n, lead);
    NoSpaceConcat(n + lead, c);
    NoSpaceConcat(n + lead + c, sep);
    NoSpaceConcat(n + lead + c + sep, p);
    NoSpaceConcat(n + lead + c + sep + p, ext);
    var f := n + lead + c + sep + p + ext;
    assert f[|f| - 4..] == ext;
  }
}
