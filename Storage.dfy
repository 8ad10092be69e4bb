/**
 * The browser-side store: one saved resume and a list of tailored resumes,
 * each kept as JSON text under its own `localStorage` key. During server-side
 * rendering there is no `window`, and every operation then does nothing or
 * yields its empty value.
 *
 * Each key is a slot that is absent, holds what was last written, or holds
 * text that does not read back (an empty string or malformed JSON written by
 * someone else). Writing serialises a JSON value and reading parses it back,
 * which yields the value written; resumes are JSON objects of which the store
 * inspects only `jobUrl`.
 */
module Storage {
  import opened JsString
  import opened Json

  const ResumeKey: string := "makefastresume_user_resume"
  const TailoredResumesKey: string := "makefastresume_tailored_resumes"

  datatype Slot<T> = Absent | Stored(value: T) | Unreadable

  type Resume = JsonObject
  type TailoredResume = JsonObject

  /** `r.jobUrl === jobUrl`: the member is a string equal to `jobUrl`. */
  predicate ForJob(r: TailoredResume, jobUrl: string) {
    Member(r, "jobUrl") == Value(JStr(jobUrl))
  }

  /** `list.find(r => r.jobUrl === jobUrl)`. */
  function FindByJobUrl(list: seq<TailoredResume>, jobUrl: string): (found: Option<TailoredResume>)
    ensures found.None? <==> forall i :: 0 <= i < |list| ==> !ForJob(list[i], jobUrl)
    ensures found.Some? ==> found.value in list && ForJob(found.value, jobUrl)
  {
    if list == [] then None
    else if ForJob(list[0], jobUrl) then Some(list[0])
    else FindByJobUrl(list[1..], jobUrl)
  }

  /** The lookup yields the earliest entry for the job. */
  lemma {:induction false} FindByJobUrlEarliest(list: seq<TailoredResume>, jobUrl: string, i: nat)
    requires i < |list| && ForJob(list[i], jobUrl)
    requires forall j :: 0 <= j < i ==> !ForJob(list[j], jobUrl)
    ensures FindByJobUrl(list, jobUrl) == Some(list[i])
  {
    if i > 0 {
      FindByJobUrlEarliest(list[1..], jobUrl, i - 1);
    }
  }

  /** `list.filter(r => r.jobUrl !== jobUrl)`. */
  function WithoutJobUrl(list: seq<TailoredResume>, jobUrl: string): (kept: seq<TailoredResume>)
    ensures forall i :: 0 <= i < |kept| ==> !ForJob(kept[i], jobUrl)
    ensures |kept| <= |list|
  {
    if list == [] then []
    else if ForJob(list[0], jobUrl) then WithoutJobUrl(list[1..], jobUrl)
    else [list[0]] + WithoutJobUrl(list[1..], jobUrl)
  }

  /** The entries of `list` that `keep` accepts, in their order. */
  function Select(list: seq<TailoredResume>, keep: TailoredResume -> bool): seq<TailoredResume> {
    if list == [] then []
    else (if keep(list[0]) then [list[0]] else []) + Select(list[1..], keep)
  }

  /**
   * Deleting by URL keeps exactly the entries for other jobs, in their
   * original order, and drops every entry for that job.
   */
  lemma {:induction false} WithoutJobUrlSpec(list: seq<TailoredResume>, jobUrl: string)
    ensures WithoutJobUrl(list, jobUrl) == Select(list, r => !ForJob(r, jobUrl))
    ensures forall r :: r in list && !ForJob(r, jobUrl) ==> r in WithoutJobUrl(list, jobUrl)
    ensures forall r :: r in WithoutJobUrl(list, jobUrl) ==> r in list
  {
    if list != [] {
      WithoutJobUrlSpec(list[1..], jobUrl);
      assert list == [list[0]] + list[1..];
    }
  }

  /** A delete by a URL no entry carries changes nothing. */
  lemma {:induction false} WithoutJobUrlKeepsOthers(list: seq<TailoredResume>, jobUrl: string)
    requires forall i :: 0 <= i < |list| ==> !ForJob(list[i], jobUrl)
    ensures WithoutJobUrl(list, jobUrl) == list
  {
    if list != [] {
      WithoutJobUrlKeepsOthers(list[1..], jobUrl);
    }
  }

  /** After a delete by URL, a lookup of that URL finds nothing. */
  lemma FindAfterDelete(list: seq<TailoredResume>, jobUrl: string)
    ensures FindByJobUrl(WithoutJobUrl(list, jobUrl), jobUrl).None?
  {
  }

  /**
   * After an append, the lookup still finds the earliest entry: an existing
   * one if there is any, otherwise the appended one when it is for that job.
   */
  lemma {:induction false} FindAfterAppend(list: seq<TailoredResume>, t: TailoredResume, jobUrl: string)
    ensures FindByJobUrl(list + [t], jobUrl)
      == if FindByJobUrl(list, jobUrl).Some? then FindByJobUrl(list, jobUrl)
         else if ForJob(t, jobUrl) then Some(t) else None
  {
    if list != [] {
      assert (list + [t])[1..] == list[1..] + [t];
      FindAfterAppend(list[1..], t, jobUrl);
    }
  }

  class ResumeStorage {
    /** `typeof window !== 'undefined'`. */
    const hasWindow: bool
    var resumeSlot: Slot<Resume>
    var tailoredSlot: Slot<seq<TailoredResume>>

    constructor(hasWindow: bool, resumeSlot: Slot<Resume>, tailoredSlot: Slot<seq<TailoredResume>>)
      ensures this.hasWindow == hasWindow && this.resumeSlot == resumeSlot && this.tailoredSlot == tailoredSlot
    {
      this.hasWindow := hasWindow;
      this.resumeSlot := resumeSlot;
      this.tailoredSlot := tailoredSlot;
    }

    /** `getResume()`: the stored resume, or null when absent, unreadable or without a window. */
    function GetResume(): (r: Option<Resume>)
      reads this
      ensures r.Some? <==> hasWindow && resumeSlot.Stored?
      ensures r.Some? ==> r.value == resumeSlot.value
    {
      if !hasWindow then None
      else match resumeSlot
        case Stored(v) => Some(v)
        case _ => None
    }

    /** `hasResume()`: the key is present, whether or not its text reads back. */
    predicate HasResume()
      reads this
    {
      hasWindow && !resumeSlot.Absent?
    }

    /** `getTailoredResumes()`: the stored list, or `[]`. */
    function GetTailoredResumes(): (list: seq<TailoredResume>)
      reads this
      ensures hasWindow && tailoredSlot.Stored? ==> list == tailoredSlot.value
      ensures !hasWindow || !tailoredSlot.Stored? ==> list == []
    {
      if hasWindow && tailoredSlot.Stored? then tailoredSlot.value else []
    }

    /** `getTailoredResumeByJobUrl(u)`: the earliest stored entry for `u`, or null. */
    function GetTailoredResumeByJobUrl(jobUrl: string): (r: Option<TailoredResume>)
      reads this
      ensures r.Some? ==> ForJob(r.value, jobUrl) && r.value in GetTailoredResumes()
      ensures r.None? <==> forall t :: t in GetTailoredResumes() ==> !ForJob(t, jobUrl)
    {
      FindByJobUrl(GetTailoredResumes(), jobUrl)
    }

    method SaveResume(resume: Resume)
      modifies this
      ensures hasWindow ==> resumeSlot == Stored(resume)
      ensures !hasWindow ==> resumeSlot == old(resumeSlot)
      ensures tailoredSlot == old(tailoredSlot)
    {
      if !hasWindow {
        return;
      }
      resumeSlot := Stored(resume);
    }

    method DeleteResume()
      modifies this
      ensures hasWindow ==> resumeSlot == Absent
      ensures !hasWindow ==> resumeSlot == old(resumeSlot)
      ensures tailoredSlot == old(tailoredSlot)
    {
      if !hasWindow {
        return;
      }
      resumeSlot := Absent;
    }

    /** Reads the list (an unreadable one as `[]`), appends, and writes it back. */
    method SaveTailoredResume(tailored: TailoredResume)
      modifies this
      ensures hasWindow ==> tailoredSlot == Stored(old(GetTailoredResumes()) + [tailored])
      ensures !hasWindow ==> tailoredSlot == old(tailoredSlot)
      ensures resumeSlot == old(resumeSlot)
    {
      if !hasWindow {
        return;
      }
      var existing := GetTailoredResumes();
      existing := existing + [tailored];
      tailoredSlot := Stored(existing);
    }

    /** Writes back the list without the entries for `jobUrl`. */
    method DeleteTailoredResume(jobUrl: string)
      modifies this
      ensures hasWindow ==> tailoredSlot == Stored(WithoutJobUrl(old(GetTailoredResumes()), jobUrl))
      ensures !hasWindow ==> tailoredSlot == old(tailoredSlot)
      ensures resumeSlot == old(resumeSlot)
    {
      if !hasWindow {
        return;
      }
      var tailored := GetTailoredResumes();
      var filtered := WithoutJobUrl(tailored, jobUrl);
      tailoredSlot := Stored(filtered);
    }

    method ClearAll()
      modifies this
      ensures hasWindow ==> resumeSlot == Absent && tailoredSlot == Absent
      ensures !hasWindow ==> resumeSlot == old(resumeSlot) && tailoredSlot == old(tailoredSlot)
    {
      if !hasWindow {
        return;
      }
      resumeSlot := Absent;
      tailoredSlot := Absent;
    }
  }

  /** Saving then reading the resume gives back what was saved; the tailored list is untouched. */
  method ResumeRoundTrip(store: ResumeStorage, resume: Resume)
    requires store.hasWindow
    modifies store
    ensures store.GetResume() == Some(resume) && store.HasResume()
    ensures store.GetTailoredResumes() == old(store.GetTailoredResumes())
  {
    store.SaveResume(resume);
  }

  /** Deleting the resume makes `hasResume` false and leaves the tailored list alone. */
  method DeleteThenHas(store: ResumeStorage)
    modifies store
    ensures !store.HasResume() && store.GetResume().None?
    ensures store.GetTailoredResumes() == old(store.GetTailoredResumes())
  {
    store.DeleteResume();
  }

  /** Without a window nothing is ever stored or found. */
  method NoWindowStoresNothing(store: ResumeStorage, resume: Resume, t: TailoredResume, jobUrl: string)
    requires !store.hasWindow
    modifies store
    ensures store.GetResume().None? && !store.HasResume()
    ensures store.GetTailoredResumes() == [] && store.GetTailoredResumeByJobUrl(jobUrl).None?
    ensures store.resumeSlot == old(store.resumeSlot) && store.tailoredSlot == old(store.tailoredSlot)
  {
    store.SaveResume(resume);
    store.SaveTailoredResume(t);
    store.DeleteTailoredResume(jobUrl);
    store.ClearAll();
  }

  /**
   * Appending keeps the earlier entries in order and puts the new one last;
   * a lookup afterwards finds the earliest entry for its job.
   */
  method AppendThenFind(store: ResumeStorage, t: TailoredResume, jobUrl: string)
    requires store.hasWindow
    modifies store
    ensures store.GetTailoredResumes() == old(store.GetTailoredResumes()) + [t]
    ensures store.GetTailoredResumeByJobUrl(jobUrl)
      == if old(store.GetTailoredResumeByJobUrl(jobUrl)).Some? then old(store.GetTailoredResumeByJobUrl(jobUrl))
         else if ForJob(t, jobUrl) then Some(t) else None
  {
    FindAfterAppend(store.GetTailoredResumes(), t, jobUrl);
    store.SaveTailoredResume(t);
  }
}
