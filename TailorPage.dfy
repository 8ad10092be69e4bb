/**
 * The tailoring wizard: four steps (upload the resume, give the job, tailor,
 * download) with the resume, the job and the tailored resume it holds, the
 * progress indicator, and the buttons that move between steps. The request to
 * tailor is served by the tailor route's handler; whether the request reaches
 * it at all is a parameter. React's state hooks are the class's fields; the
 * one-second delay before the job step is the separate `UploadDelayElapsed`.
 */
module TailorPage {
  import opened JsString
  import opened Json
  import opened JobTypes
  import opened Storage
  import opened LlmReply
  import opened CodeFences
  import TailorRoute

  datatype Step = Upload | JobDetails | Tailor | Download

  /** The steps in the order the progress indicator shows them. */
  const Steps: seq<Step> := [Upload, JobDetails, Tailor, Download]

  /** `steps.findIndex(s => s.id === currentStep)`. */
  function StepIndex(step: Step): (i: nat)
    ensures i < |Steps| && Steps[i] == step
    ensures forall j :: 0 <= j < i ==> Steps[j] != step
  {
    match step
    case Upload => 0
    case JobDetails => 1
    case Tailor => 2
    case Download => 3
  }

  predicate IsCompleted(i: nat, current: Step) { i < StepIndex(current) }

  predicate IsCurrent(i: nat, current: Step) { i == StepIndex(current) }

  /**
   * The indicator marks exactly the current step as current, the steps before
   * it as completed, and no step as both.
   */
  lemma ProgressMarks(current: Step)
    ensures forall i :: 0 <= i < |Steps| ==> (IsCurrent(i, current) <==> Steps[i] == current)
    ensures forall i :: 0 <= i < |Steps| ==> (IsCompleted(i, current) <==> StepIndex(Steps[i]) < StepIndex(current))
    ensures forall i :: 0 <= i < |Steps| ==> !(IsCurrent(i, current) && IsCompleted(i, current))
  {
    forall i | 0 <= i < |Steps| ensures StepIndex(Steps[i]) == i {
    }
  }

  /** The body the wizard posts to the tailor route. */
  function RequestBody(resume: Resume, job: JobData): (body: JsonObject)
    ensures Member(body, "resume") == Value(JObj(resume))
    ensures Member(body, "jobDescription") == Value(JStr(job.content))
    ensures Member(body, "jobTitle") == Value(JStr(job.title)) && Member(body, "jobUrl") == Value(JStr(job.url))
  {
    map["resume" := JObj(resume), "jobDescription" := JStr(job.content), "jobTitle" := JStr(job.title),
        "jobUrl" := JStr(job.url)]
  }

  /** The route's response to the wizard's request. */
  function Served(resume: Resume, job: JobData, apiKey: bool, reply: Reply, parse: string -> Parsed, now: string): Response {
    TailorRoute.Respond(RequestBody(resume, job), apiKey, reply, parse, now)
  }

  /**
   * The route accepts every request the wizard makes except one for a job
   * whose description is empty, which it refuses with 400.
   */
  lemma RequestAccepted(resume: Resume, job: JobData)
    ensures TailorRoute.Complete(RequestBody(resume, job)) <==> job.content != []
  {
  }

  /**
   * A tailored resume the route returns for the wizard's request carries the
   * job's URL, title and description, so the store's lookup by the job's URL
   * can find it.
   */
  lemma TailoredIsForJob(resume: Resume, job: JobData, apiKey: bool, reply: Reply, parse: string -> Parsed, now: string)
    requires Served(resume, job, apiKey, reply, parse, now).status == 200
    ensures var t := Served(resume, job, apiKey, reply, parse, now).body["tailoredResume"].fields;
      && ForJob(t, job.url)
      && Member(t, "jobTitle") == Value(JStr(job.title))
      && Member(t, "jobDescription") == Value(JStr(job.content))
  {
    var body := RequestBody(resume, job);
    var result := parse(Unfenced(reply.text)).value;
    assert TailorRoute.Complete(body) && apiKey;
    var t := TailorRoute.Assemble(result, body, now);
    assert Served(resume, job, apiKey, reply, parse, now).body["tailoredResume"] == JObj(t);
  }

  /**
   * The wizard's request succeeds exactly when the job has a description,
   * the key is configured, and the model's reply is text that parses to
   * something other than `null`.
   */
  lemma ServedSucceeds(resume: Resume, job: JobData, apiKey: bool, reply: Reply, parse: string -> Parsed, now: string)
    ensures Served(resume, job, apiKey, reply, parse, now).status == 200
      <==> (job.content != [] && apiKey && reply.TextReply?
            && parse(Unfenced(reply.text)).Parsed? && !parse(Unfenced(reply.text)).value.JNull?)
  {
    RequestAccepted(resume, job);
  }

  class Wizard {
    const store: ResumeStorage
    var currentStep: Step
    var resume: Option<Resume>
    var jobData: Option<JobData>
    var tailoredResume: Option<TailoredResume>
    var explanation: Read
    var tokenUsage: Read

    /** The download step always has a tailored resume to offer. */
    predicate Valid()
      reads this
    {
      currentStep == Download ==> tailoredResume.Some?
    }

    constructor(store: ResumeStorage)
      ensures Valid() && this.store == store
      ensures currentStep == Upload && resume.None? && jobData.None? && tailoredResume.None?
      ensures explanation == Value(JStr("")) && tokenUsage == Value(JNull)
    {
      this.store := store;
      currentStep := Upload;
      resume := None;
      jobData := None;
      tailoredResume := None;
      explanation := Value(JStr(""));
      tokenUsage := Value(JNull);
    }

    /** On mount, a stored resume is loaded; otherwise the resume is left as it is. */
    method Mount()
      requires Valid()
      modifies this
      ensures Valid()
      ensures resume == if store.GetResume().Some? then store.GetResume() else old(resume)
      ensures currentStep == old(currentStep) && jobData == old(jobData) && tailoredResume == old(tailoredResume)
      ensures explanation == old(explanation) && tokenUsage == old(tokenUsage)
    {
      var existingResume := store.GetResume();
      if existingResume.Some? {
        resume := existingResume;
      }
    }

    /** A parsed resume is kept and saved; the move to the job step comes later. */
    method ResumeUploaded(uploaded: Resume)
      requires Valid()
      modifies this, store
      ensures Valid()
      ensures resume == Some(uploaded)
      ensures store.hasWindow ==> store.GetResume() == Some(uploaded)
      ensures store.GetTailoredResumes() == old(store.GetTailoredResumes())
      ensures currentStep == old(currentStep) && jobData == old(jobData) && tailoredResume == old(tailoredResume)
      ensures explanation == old(explanation) && tokenUsage == old(tokenUsage)
    {
      resume := Some(uploaded);
      store.SaveResume(uploaded);
    }

    /** The delayed move to the job step after an upload. */
    method UploadDelayElapsed()
      requires Valid()
      modifies this
      ensures Valid() && currentStep == JobDetails
      ensures resume == old(resume) && jobData == old(jobData) && tailoredResume == old(tailoredResume)
      ensures explanation == old(explanation) && tokenUsage == old(tokenUsage)
    {
      currentStep := JobDetails;
    }

    method JobFetched(job: JobData)
      requires Valid()
      modifies this
      ensures Valid() && jobData == Some(job) && currentStep == Tailor
      ensures resume == old(resume) && tailoredResume == old(tailoredResume)
      ensures explanation == old(explanation) && tokenUsage == old(tokenUsage)
    {
      jobData := Some(job);
      currentStep := Tailor;
    }

    /** The resume input's clear button. */
    method ClearResume()
      requires Valid()
      modifies this
      ensures Valid() && resume.None?
      ensures currentStep == old(currentStep) && jobData == old(jobData) && tailoredResume == old(tailoredResume)
      ensures explanation == old(explanation) && tokenUsage == old(tokenUsage)
    {
      resume := None;
    }

    /** The job input's clear button. */
    method ClearJob()
      requires Valid()
      modifies this
      ensures Valid() && jobData.None?
      ensures currentStep == old(currentStep) && resume == old(resume) && tailoredResume == old(tailoredResume)
      ensures explanation == old(explanation) && tokenUsage == old(tokenUsage)
    {
      jobData := None;
    }

    /** "Back to Resume Upload". */
    method BackToUpload()
      requires Valid()
      modifies this
      ensures Valid() && currentStep == Upload
      ensures resume == old(resume) && jobData == old(jobData) && tailoredResume == old(tailoredResume)
      ensures explanation == old(explanation) && tokenUsage == old(tokenUsage)
    {
      currentStep := Upload;
    }

    /** "Back to Job Details": the job is dropped. */
    method BackToJob()
      requires Valid()
      modifies this
      ensures Valid() && currentStep == JobDetails && jobData.None?
      ensures resume == old(resume) && tailoredResume == old(tailoredResume)
      ensures explanation == old(explanation) && tokenUsage == old(tokenUsage)
    {
      currentStep := JobDetails;
      jobData := None;
    }

    /** "Tailor for Another Job": the resume is kept, the job and the tailored resume are dropped. */
    method AnotherJob()
      requires Valid()
      modifies this
      ensures Valid() && currentStep == JobDetails && jobData.None? && tailoredResume.None?
      ensures resume == old(resume)
      ensures explanation == old(explanation) && tokenUsage == old(tokenUsage)
    {
      currentStep := JobDetails;
      jobData := None;
      tailoredResume := None;
    }

    /** "Start Over with New Resume": everything is dropped. */
    method StartOver()
      requires Valid()
      modifies this
      ensures Valid() && currentStep == Upload && resume.None? && jobData.None? && tailoredResume.None?
      ensures explanation == old(explanation) && tokenUsage == old(tokenUsage)
    {
      currentStep := Upload;
      resume := None;
      jobData := None;
      tailoredResume := None;
    }

    /**
     * "Tailor Resume with AI": without a resume or a job nothing happens.
     * Otherwise the request goes to the tailor route; a success response is
     * kept, saved to the store and shown on the download step, and anything
     * else raises an alert and changes nothing.
     */
    method TailorResume(delivered: bool, apiKey: bool, reply: Reply, parse: string -> Parsed, now: string)
      returns (alerted: bool)
      requires Valid()
      modifies this, store
      ensures Valid()
      ensures resume == old(resume) && jobData == old(jobData)
      ensures old(resume.None? || jobData.None?) ==>
        !alerted && currentStep == old(currentStep) && tailoredResume == old(tailoredResume)
        && store.tailoredSlot == old(store.tailoredSlot)
        && explanation == old(explanation) && tokenUsage == old(tokenUsage)
      ensures old(resume.Some? && jobData.Some?) ==>
        var r := Served(resume.value, jobData.value, apiKey, reply, parse, now);
        if delivered && r.status == 200 then
          && !alerted
          && Accepted(r, old(store.GetTailoredResumes()))
        else
          && alerted && currentStep == old(currentStep) && tailoredResume == old(tailoredResume)
          && store.tailoredSlot == old(store.tailoredSlot)
          && explanation == old(explanation) && tokenUsage == old(tokenUsage)
      ensures store.resumeSlot == old(store.resumeSlot)
    {
      if resume.None? || jobData.None? {
        return false;
      }
      if !delivered {
        return true;
      }
      var body := RequestBody(resume.value, jobData.value);
      var response, _ := TailorRoute.Post(body, apiKey, reply, parse, now);
      if !(200 <= response.status < 300) {
        return true;
      }
      Receive(response);
      alerted := false;
    }

    /**
     * The state after a success response: the download step, showing the
     * tailored resume, its explanation and usage; the store has it appended.
     */
    predicate Accepted(r: Response, storedBefore: seq<TailoredResume>)
      reads this, store
      requires "tailoredResume" in r.body && r.body["tailoredResume"].JObj?
    {
      && currentStep == Download
      && tailoredResume == Some(r.body["tailoredResume"].fields)
      && explanation == Member(r.body, "explanation") && tokenUsage == Member(r.body, "usage")
      && (store.hasWindow ==> store.GetTailoredResumes() == storedBefore + [r.body["tailoredResume"].fields])
    }

    /** The success branch: the response's tailored resume is kept, saved and shown. */
    method Receive(r: Response)
      requires "tailoredResume" in r.body && r.body["tailoredResume"].JObj?
      modifies this, store
      ensures Valid() && Accepted(r, old(store.GetTailoredResumes()))
      ensures resume == old(resume) && jobData == old(jobData)
      ensures store.resumeSlot == old(store.resumeSlot)
    {
      var tailored := r.body["tailoredResume"].fields;
      tailoredResume := Some(tailored);
      explanation := Member(r.body, "explanation");
      tokenUsage := Member(r.body, "usage");
      store.SaveTailoredResume(tailored);
      currentStep := Download;
    }
  }

  /**
   * Once tailoring succeeds, the store's lookup by the job's URL finds an
   * entry for that job: the one just saved, or an earlier one for the same URL.
   */
  method TailorThenLookup(page: Wizard, apiKey: bool, reply: Reply, parse: string -> Parsed, now: string)
    returns (found: Option<TailoredResume>)
    requires page.Valid() && page.store.hasWindow && page.resume.Some? && page.jobData.Some?
    requires page.jobData.value.content != [] && apiKey && reply.TextReply?
    requires parse(Unfenced(reply.text)).Parsed? && !parse(Unfenced(reply.text)).value.JNull?
    modifies page, page.store
    ensures page.currentStep == Download && page.resume == old(page.resume) && page.jobData == old(page.jobData)
    ensures found == page.store.GetTailoredResumeByJobUrl(page.jobData.value.url)
    ensures found.Some? && ForJob(found.value, page.jobData.value.url)
  {
    var resume, job := page.resume.value, page.jobData.value;
    var r := Served(resume, job, apiKey, reply, parse, now);
    ServedSucceeds(resume, job, apiKey, reply, parse, now);
    TailoredIsForJob(resume, job, apiKey, reply, parse, now);
    var t := r.body["tailoredResume"].fields;
    var before := page.store.GetTailoredResumes();
    var alerted := page.TailorResume(true, apiKey, reply, parse, now);
    assert page.Accepted(r, before);
    assert page.store.GetTailoredResumes() == before + [t];
    FindAfterAppend(before, t, job.url);
    found := page.store.GetTailoredResumeByJobUrl(job.url);
  }
}
