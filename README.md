# makefastresume, modelled in Dafny

makefastresume is a Next.js application that tailors a resume to a job
posting. A user takes four steps:

1. Paste their resume. A route has a language model parse it into a
   structured resume, which the browser keeps in `localStorage`.
2. Give a job posting's URL. A server route fetches the page, and the
   browser component extracts the title, the company and the description
   from its HTML. The user can also type the job in by hand.
3. Have the language model rewrite the resume for that job. The route
   assembles the tailored resume, and the browser stores it.
4. Download it as a PDF under a file name built from the resume and the job.

The model covers the following parts.

- **Text helpers.** JavaScript `trim` and its white-space set, `includes`,
  and the global `replace` calls the extractor uses (`JsString`,
  `TextNormalise`). JSON values with JavaScript truthiness, property reads
  that throw on `null`, object spread, and `JSON.stringify` dropping
  `undefined` members (`Json`).
- **The extraction cascade** in `JobUrlInput.tsx` (`Extractor`,
  `CompanyUrl`):
  - the embedded `window.__appData` script, then JSON-LD `JobPosting`
    scripts;
  - then the heuristics: the title from `h1` or `<title>`; the company from
    CSS selectors, else from the URL patterns; the description from
    container selectors, else from the body text;
  - the final text normalisation.
- **The job-URL component** as a class (`JobUrlInput`): the URL guard, the
  choice of endpoint, the choice of error message, and the manual-entry
  form.
- **The two job-fetch routes.** The plain route refuses known
  script-rendered boards (`FetchJobRoute`). The browser route sends those
  boards to a headless browser, or every URL when the client forces it, and
  always closes a browser it launched (`PuppeteerRoute`). Both share
  `HttpExchange`.
- **The browser store** `ResumeStorage` as a class over its two
  `localStorage` slots (`Storage`).
- **The tailoring wizard** in `tailor/page.tsx` as a class: the steps, the
  progress marks, the tailor request and what a success does to the state
  and the store (`TailorPage`). The download file name is in `PdfFileName`.
- **The two language-model routes** (`TailorRoute`, `ParseRoute`, sharing
  `LlmReply` and `CodeFences`): request validation, the API-key check,
  code-fence stripping, the parse of the reply, and assembly of the result.
  The tailor route adds the reported token total; the parse route stamps
  `lastUpdated`.
- **The PDF-text route's page loop** and its response (`PdfTextRoute`).

Everything outside the program is a parameter of the operation that uses
it:

- the network, and what a `fetch` returns;
- the headless browser session;
- the language model's reply and `JSON.parse`;
- the HTML parser and its selector engine;
- the PDF library;
- the clock;
- whether `window` exists.

Where behaviour depends on V8, the model uses V8's error wording.

## Model

| member | source | states |
|---|---|---|
| JsString.TrimSpec | src/components/JobUrlInput.tsx:179 | `trim` returns a contiguous slice of its input that neither starts nor ends with white space, and everything it drops is white space |
| JsString.TrimIdempotent | src/components/JobUrlInput.tsx:179 | trimming twice is trimming once |
| Json.Get | src/app/api/tailor-resume/route.ts:126 | a property read throws exactly on `null`, and yields a value exactly when an object holds the key |
| Json.Spread | src/app/api/parse-resume/route.ts:94 | spreading an object copies its members; an array or a string gives its elements under decimal index keys and nothing else |
| Json.Put | src/app/api/tailor-resume/route.ts:131 | a member set to `undefined` is absent from the serialised object and every other member is kept |
| TextNormalise.StripTagsChars | src/components/JobUrlInput.tsx:41 | replacing tags adds no character except the line feed |
| TextNormalise.StripTagsLeavesNoTag | src/components/JobUrlInput.tsx:41 | after the tag replacement, no `<` is followed anywhere later by a `>` |
| TextNormalise.StripTagsPlainText | src/components/JobUrlInput.tsx:41 | text without `<` is unchanged |
| TextNormalise.CollapseBlankLinesLeavesNone | src/components/JobUrlInput.tsx:42 | after the replace, the blank-line pattern has no match left, even though a global replace does not rescan its output |
| TextNormalise.CollapseBlankLinesIdentity | src/components/JobUrlInput.tsx:42 | text the blank-line pattern does not match is unchanged |
| TextNormalise.CollapseBlanksLeavesNone | src/components/JobUrlInput.tsx:43 | after the replace, no tab and no two adjacent spaces remain |
| TextNormalise.CollapseBlanksIdentity | src/components/JobUrlInput.tsx:43 | text with only single spaces and no tabs is unchanged |
| TextNormalise.CollapseBlanksKeepsNoBlankRun | src/components/JobUrlInput.tsx:42-43 | collapsing blanks after collapsing blank lines cannot bring a blank-line run back |
| TextNormalise.NormaliseSpec | src/components/JobUrlInput.tsx:179 | the final clean-up yields text that is trimmed, has no run of three line feeds separated only by white space, and has no tab or double space |
| TextNormalise.NormaliseFixesNormalised | src/components/JobUrlInput.tsx:179 | text already in that shape is a fixed point of the clean-up |
| TextNormalise.NormaliseIdempotent | src/components/JobUrlInput.tsx:179 | cleaning up twice is cleaning up once |
| TextNormalise.StructuredLdTextSpec | src/components/JobUrlInput.tsx:62 | the JSON-LD description chain yields trimmed text without blank-line runs; tabs and double spaces may remain |
| CompanyUrl.MatchAt | src/components/JobUrlInput.tsx:120-124 | a URL pattern's capture at a given index is non-empty and free of the pattern's stop character |
| CompanyUrl.Search | src/components/JobUrlInput.tsx:128 | a successful `match` yields a non-empty capture free of the stop character |
| CompanyUrl.SearchLeftmost | src/components/JobUrlInput.tsx:128 | the capture is taken from the leftmost matching index |
| CompanyUrl.SearchFails | src/components/JobUrlInput.tsx:128-129 | `match` fails exactly when no index matches |
| CompanyUrl.HyphensToSpaces | src/components/JobUrlInput.tsx:131 | every hyphen becomes a space and every other character is kept, at the same position |
| CompanyUrl.CapitaliseSpec | src/components/JobUrlInput.tsx:132 | exactly the characters that start a run of word characters are upper-cased; the rest are kept |
| CompanyUrl.CompanyNameSpec | src/components/JobUrlInput.tsx:130-132 | the company name has the capture's length and no hyphen; it has a space where the capture had a hyphen, no lower-case word start, and every other character kept |
| CompanyUrl.UrlCompany | src/components/JobUrlInput.tsx:127-135 | a company found in the URL is never empty |
| CompanyUrl.UrlCompanyFirstPattern | src/components/JobUrlInput.tsx:127-135 | the company comes from the first pattern in list order that matches; there is none exactly when no pattern matches |
| CompanyUrl.BoardsMatchImpliesGenericMatch | src/components/JobUrlInput.tsx:122-124 | every URL that the `boards.greenhouse.io/…` pattern matches is also matched by the earlier `….greenhouse.io` pattern |
| CompanyUrl.BoardsPatternShadowed | src/components/JobUrlInput.tsx:119-135 | the fifth URL pattern therefore never supplies the company: the list gives the same result as its first four patterns |
| JobTypes.WithUrl | src/components/JobUrlInput.tsx:214-217 | the job handed on is the extraction with the typed URL attached and nothing else changed |
| Extractor.AppDataCaptureShape | src/components/JobUrlInput.tsx:33 | the lazy capture is a brace-delimited slice that follows a `window.__appData` and ends at the first `};` after its opening brace |
| Extractor.DescriptionOf | src/components/JobUrlInput.tsx:40-41 | `?.replace` is skipped for `undefined` and `null`, applies to strings, and throws for anything else |
| Extractor.TitleOr | src/components/JobUrlInput.tsx:39 | `title \|\| fallback` keeps a non-empty string title and otherwise gives the fallback |
| Extractor.AppDataHit | src/components/JobUrlInput.tsx:29-52 | an appData hit has a non-empty title, no company, and normalised content |
| Extractor.LdHit | src/components/JobUrlInput.tsx:56-68 | a JSON-LD hit has no company, and content that is trimmed and free of blank-line runs |
| Extractor.FirstHitSpec | src/components/JobUrlInput.tsx:29-68 | a script loop yields nothing exactly when no script yields a result; otherwise it yields the first script's result |
| Extractor.FirstHitAt | src/components/JobUrlInput.tsx:29-68 | a script that yields a result, preceded only by scripts that yield none, supplies the loop's result |
| Extractor.ScanStops | src/components/JobUrlInput.tsx:105-115 | the selector loop returns the first value that satisfies its break test |
| Extractor.ScanKeepsLast | src/components/JobUrlInput.tsx:105-115 | when no value passes the break test, the loop leaves the last value found, or its initial value when nothing is found |
| Extractor.ExtractJobContent | src/components/JobUrlInput.tsx:23-181 | the extractor's loops compute the cascade `Extract` |
| Extractor.FindTitle | src/components/JobUrlInput.tsx:86-94 | the title statements compute the heuristic title |
| Extractor.ScanAppData | src/components/JobUrlInput.tsx:29-52 | the appData loop returns the first script's appData result |
| Extractor.ScanJsonLd | src/components/JobUrlInput.tsx:55-68 | the JSON-LD loop returns the first script's JSON-LD result |
| Extractor.FindCompany | src/components/JobUrlInput.tsx:97-136 | the selector loop followed by the URL-pattern loop computes the heuristic company |
| Extractor.FindDescription | src/components/JobUrlInput.tsx:139-174 | the container loop and the body fallback compute the heuristic description |
| Extractor.ExtractCascade | src/components/JobUrlInput.tsx:27-68 | an appData hit in any script wins, and the first one is taken; JSON-LD is consulted only without one; the heuristics run only when neither yields a result |
| Extractor.AppDataWinsOnPresence | src/components/JobUrlInput.tsx:36-45 | a truthy but empty `jobPosting` still wins, with the default title and empty content |
| Extractor.LdTitleMayBeEmpty | src/components/JobUrlInput.tsx:61 | a JSON-LD posting without a title yields an empty title |
| Extractor.LdNonStringDescriptionSkipped | src/components/JobUrlInput.tsx:62-67 | a JSON-LD description that is not a string throws, and the script is passed over |
| Extractor.HeuristicTitleSpec | src/components/JobUrlInput.tsx:86-94 | an `h1` decides the title even when blank; otherwise the part of `<title>` before the first `\|` is used; the returned title is never empty |
| Extractor.CompanyFirstQualifying | src/components/JobUrlInput.tsx:105-118 | the first candidate of 3 to 99 characters is the company, and the URL cannot override it |
| Extractor.CompanyKeepsLast | src/components/JobUrlInput.tsx:105-136 | without a qualifying candidate, the last one found is kept whatever its length; the URL is consulted only when that is empty; a returned company is never empty |
| Extractor.DescriptionSpec | src/components/JobUrlInput.tsx:160-174 | the first container with more than 200 characters wins; otherwise the last one found is kept, and the body replaces it only when it has fewer than 200 characters |
| Extractor.ExtractShape | src/components/JobUrlInput.tsx:176-180 | every strategy returns trimmed content without blank-line runs; when the JSON-LD strategy does not decide, the title is also non-empty and the content has no tab or double space (a JSON-LD title may be empty) |
| Extractor.RemovalMatchesListedCases | src/components/JobUrlInput.tsx:71-80 | the class fragments match with case, so a `Footer` class and a `privacy-banner` class are both removed |
| Extractor.RemovalMissesOtherCases | src/components/JobUrlInput.tsx:71-80 | `Privacy` and `COOKIE` classes and an id of `Footer` survive the removal |
| Extractor.ClassWithoutOEPLettersSurvives | src/components/JobUrlInput.tsx:71-80 | a `div` whose class holds no lower-case `o`, `e` or `p` is never removed |
| JobUrlInput.Endpoint | src/components/JobUrlInput.tsx:194 | the browser-rendering endpoint is used exactly when the component is configured for it |
| JobUrlInput.ErrorMessage | src/components/JobUrlInput.tsx:201-207 | the error line is never empty: a truthy `details` first, then a non-empty `error`, then the fixed text |
| JobUrlInput.ErrorMessageIgnoresDynamic | src/components/JobUrlInput.tsx:203-207 | the separate `isDynamic` branch shows the same message as the general branch |
| JobUrlInput.ManualJob | src/components/JobUrlInput.tsx:388-397 | a manual job exists exactly when company, title and description are all non-blank; its fields are the untrimmed inputs, and its URL is `manually-entered` when the box is empty |
| JobUrlInput.FetchedJob | src/components/JobUrlInput.tsx:211-217 | a fetched job carries the typed URL, and content that is trimmed and free of blank-line runs |
| JobUrlInput.ErrorAfter | src/components/JobUrlInput.tsx:201-223 | the error line is empty after a success, the error body's non-empty message after an error status, an `Error`'s own message after such a throw, and the fixed text after any other throw |
| JobUrlInput.ExtractAndAttach | src/components/JobUrlInput.tsx:211-217 | the extraction plus URL computes `FetchedJob` |
| JobUrlInput.JobUrlInputState.constructor | src/components/JobUrlInput.tsx:14-21 | every field starts empty or false |
| JobUrlInput.JobUrlInputState.EditUrl | src/components/JobUrlInput.tsx:273 | typing changes the URL only |
| JobUrlInput.JobUrlInputState.FetchJob | src/components/JobUrlInput.tsx:183-227 | a blank URL sends nothing and sets the validation error. Otherwise one request goes to the configured endpoint with the typed URL. The error line follows `ErrorAfter`, the loading flag is down again, and only a success hands on the job and clears the URL |
| JobUrlInput.JobUrlInputState.ClearJob | src/components/JobUrlInput.tsx:247-252 | clears the URL and the error line only |
| JobUrlInput.JobUrlInputState.ShowManualInput | src/components/JobUrlInput.tsx:308-329 | either link opens the manual form and changes nothing else |
| JobUrlInput.JobUrlInputState.EditManual | src/components/JobUrlInput.tsx:355-380 | typing in the form changes the form's fields only |
| JobUrlInput.JobUrlInputState.CancelManual | src/components/JobUrlInput.tsx:335-341 | cancel hides and empties the form and leaves the URL and error alone |
| JobUrlInput.JobUrlInputState.SubmitManual | src/components/JobUrlInput.tsx:386-405 | the job handed on is `ManualJob`. A blank field only sets the error line. A success hides and empties the form, clears the URL and keeps the old error line |
| HttpExchange.StatusError | src/app/api/fetch-job/route.ts:48-50 | the thrown message is the fixed prefix followed by the status in decimal digits, which read back as the status |
| HttpExchange.UrlRequired | src/app/api/fetch-job/route.ts:21-26 | a request without a URL is answered 400 with `URL is required` |
| HttpExchange.Caught | src/app/api/fetch-job/route.ts:56-64 | anything thrown becomes a 500 whose `details` is the thrown message |
| HttpExchange.FetchText | src/app/api/fetch-job-puppeteer/route.ts:69-83 | a plain fetch yields the page text exactly on an ok status; otherwise it yields the status error or the network error |
| HttpExchange.IncludesAny | src/app/api/fetch-job/route.ts:12-14 | the site test holds exactly when some listed pattern is a substring of the URL |
| FetchJobRoute.Refusal | src/app/api/fetch-job/route.ts:29-38 | a dynamic site is refused with 400, `isDynamic` set, and the fixed explanation |
| FetchJobRoute.Relay | src/app/api/fetch-job/route.ts:40-64 | one fetch gives 200 with the page text exactly on an ok status; otherwise the `catch` block's 500 |
| FetchJobRoute.Post | src/app/api/fetch-job/route.ts:16-66 | at most the request's own URL is fetched, and it is fetched exactly when it is non-empty and not on a listed board |
| FetchJobRoute.PostWithoutUrl | src/app/api/fetch-job/route.ts:21-26 | a missing or empty URL is answered 400 and nothing is fetched |
| FetchJobRoute.PostRefusesDynamic | src/app/api/fetch-job/route.ts:28-38 | a URL containing any listed board is refused with 400 before any network request |
| FetchJobRoute.PostRelays | src/app/api/fetch-job/route.ts:40-64 | any other URL is fetched exactly once; its text comes back unchanged on an ok status, and a bad status or a network error becomes a 500 with its message |
| FetchJobRoute.RefusalOffersManualEntry | src/app/api/fetch-job/route.ts:29-38 | the refusal's explanation is the message the component shows, and it carries the phrase on which the component offers manual entry |
| PuppeteerRoute.RenderResult | src/app/api/fetch-job-puppeteer/route.ts:19-67 | a browser session yields the page's HTML exactly when neither the launch, nor a page step, nor closing throws. A launch error is reported first; otherwise a close error replaces an earlier one |
| PuppeteerRoute.Browser.FetchWithPuppeteer | src/app/api/fetch-job-puppeteer/route.ts:19-67 | the session's steps compute `RenderResult`; a browser is launched at most once and closed exactly as often as it was launched |
| PuppeteerRoute.Browser.Post | src/app/api/fetch-job-puppeteer/route.ts:97-132 | no URL gives 400. The browser is used exactly when forced or when the URL names a listed board; otherwise the URL is fetched plainly once. Every launch is paired with a close |
| PuppeteerRoute.Answer | src/app/api/fetch-job-puppeteer/route.ts:120-131 | the response is 200 with the HTML exactly when the text was obtained, and otherwise the `catch` block's 500 |
| PuppeteerRoute.PatternListsDiffer | src/app/api/fetch-job-puppeteer/route.ts:85-95 | the plain route's list is the browser route's list plus one board, so the two classify every other URL alike |
| PuppeteerRoute.CruiseBoardRefused | src/app/api/fetch-job/route.ts:3-14 | a job URL on the cruise-line group's site is refused by the plain route |
| PuppeteerRoute.CruiseBoardFetchedPlainly | src/app/api/fetch-job-puppeteer/route.ts:85-95 | the browser route fetches that same URL without a browser unless the client forces one |
| Storage.FindByJobUrl | src/lib/storage.ts:58-61 | the lookup finds nothing exactly when no entry is for the URL; otherwise it finds an entry of the list that is for the URL |
| Storage.FindByJobUrlEarliest | src/lib/storage.ts:58-61 | the lookup yields the earliest entry for the URL |
| Storage.WithoutJobUrl | src/lib/storage.ts:64-69 | the filtered list holds no entry for the URL and is no longer than the original |
| Storage.WithoutJobUrlSpec | src/lib/storage.ts:64-69 | deleting keeps exactly the entries for other jobs, in their original order |
| Storage.WithoutJobUrlKeepsOthers | src/lib/storage.ts:64-69 | deleting a URL that no entry carries changes nothing |
| Storage.FindAfterDelete | src/lib/storage.ts:58-69 | after a delete by URL, the lookup of that URL finds nothing |
| Storage.FindAfterAppend | src/lib/storage.ts:38-61 | after an append, the lookup finds an existing entry when there is one, and otherwise the appended entry when it is for that job |
| Storage.ResumeStorage.GetResume | src/lib/storage.ts:14-23 | a resume is returned exactly when there is a window and the slot holds a readable value, and it is that value |
| Storage.ResumeStorage.GetTailoredResumes | src/lib/storage.ts:46-55 | the stored list, or empty without a window or with an absent or unreadable slot |
| Storage.ResumeStorage.GetTailoredResumeByJobUrl | src/lib/storage.ts:58-61 | a stored entry for the URL, or nothing exactly when no stored entry is for it |
| Storage.ResumeStorage.SaveResume | src/lib/storage.ts:8-11 | with a window, the resume slot holds the resume; the tailored slot is untouched |
| Storage.ResumeStorage.DeleteResume | src/lib/storage.ts:32-35 | with a window, the resume slot is absent; the tailored slot is untouched |
| Storage.ResumeStorage.SaveTailoredResume | src/lib/storage.ts:38-43 | with a window, the slot holds the readable list plus the new entry at the end (an unreadable list counts as empty) |
| Storage.ResumeStorage.DeleteTailoredResume | src/lib/storage.ts:64-69 | with a window, the slot holds the readable list without the URL's entries |
| Storage.ResumeStorage.ClearAll | src/lib/storage.ts:72-76 | with a window, both slots are absent; without one, nothing changes |
| Storage.ResumeRoundTrip | src/lib/storage.ts:8-23 | saving then reading the resume gives back what was saved, and `hasResume` holds |
| Storage.DeleteThenHas | src/lib/storage.ts:26-35 | after a delete, `hasResume` is false and no resume is read |
| Storage.NoWindowStoresNothing | src/lib/storage.ts:8-76 | without a window, no operation changes a slot, and every read is empty |
| Storage.AppendThenFind | src/lib/storage.ts:38-61 | appending keeps the earlier entries and puts the new one last; the lookup then finds the earliest entry for the job |
| CodeFences.RemoveAll | src/app/api/tailor-resume/route.ts:106 | removing a marker never lengthens the text |
| CodeFences.RemoveAllKeepsPrefix | src/app/api/tailor-resume/route.ts:106 | text in front of the first occurrence of the marker is kept unchanged and in order: the replace only drops marker occurrences |
| CodeFences.ClosingFenceRemoved | src/app/api/tailor-resume/route.ts:106-108 | a fence-free body followed by the closing fence on its own line keeps the body and its line feed |
| CodeFences.UnfencedJsonBlock | src/app/api/tailor-resume/route.ts:102-106 | a reply fenced as ```` ```json ```` … ```` ``` ```` around a fence-free body is parsed as exactly that body plus the line feed before the closing fence |
| CodeFences.UnfencedPlainBlock | src/app/api/tailor-resume/route.ts:102-108 | a reply fenced as ```` ``` ```` … ```` ``` ```` around a fence-free body is parsed as exactly that body plus the line feed before the closing fence |
| CodeFences.StripCodeFences | src/app/api/tailor-resume/route.ts:102-109 | the statements that strip code fences compute `Unfenced` |
| CodeFences.RemoveAllAbsent | src/app/api/tailor-resume/route.ts:106 | text without the marker is unchanged |
| CodeFences.UnfencedPlain | src/app/api/tailor-resume/route.ts:102-109 | a reply that does not start with a fence once trimmed is only trimmed |
| CodeFences.RemoveFenceLeavesNone | src/app/api/tailor-resume/route.ts:108 | after the backtick pass no ```` ``` ```` remains, although the replace does not rescan its output |
| CodeFences.UnfencedHasNoFence | src/app/api/tailor-resume/route.ts:102-109 | whenever the trimmed reply starts with a fence, the text parsed contains no fence |
| LlmReply.ErrorResponse | src/app/api/tailor-resume/route.ts:14-17 | an early error response carries only `error`, with the given status |
| LlmReply.Failure | src/app/api/tailor-resume/route.ts:153-162 | the `catch` block's response is a 500 with exactly `success: false`, `error` and `details` |
| LlmReply.SpreadRead | src/app/api/tailor-resume/route.ts:126 | spreading an `undefined` member adds nothing, and spreading a value adds its members |
| ParseRoute.Stamp | src/app/api/parse-resume/route.ts:93-96 | the resume keeps every member of the parsed value except `lastUpdated`, which is set to the time of parsing |
| ParseRoute.Answer | src/app/api/parse-resume/route.ts:82-99 | the response is 200 exactly when the reply is text that parses. Its body then has exactly `success`, `resume` and `rawText`, and `rawText` is the text received. Otherwise it is a 500 with `success: false` |
| ParseRoute.Post | src/app/api/parse-resume/route.ts:102-138 | missing, falsy or blank text gives 400 without a model call. Text that is not a string gives the 500 of the failed `trim` call. A missing key gives 500. Otherwise one model call is made and answered as `Answer` |
| ParseRoute.SuccessShape | src/app/api/parse-resume/route.ts:92-96 | a reply parsing to an object yields that object with `lastUpdated` set, alongside the echoed text |
| TailorRoute.OrEmpty | src/app/api/tailor-resume/route.ts:127-128 | a truthy member is kept, and anything else becomes `''` |
| TailorRoute.Assemble | src/app/api/tailor-resume/route.ts:125-133 | the tailored resume has the model's members plus the route's own fields (`changes` only when the model gave one). The route's URL, title, description and time override the model's, and every other member of the model is kept |
| TailorRoute.Usage | src/app/api/tailor-resume/route.ts:114-116 | the total is the sum of the reported input and output tokens |
| TailorRoute.SuccessBody | src/app/api/tailor-resume/route.ts:135-149 | the success body holds `success: true`, the assembled resume and the usage, plus `explanation` exactly when the model gave one |
| TailorRoute.Answer | src/app/api/tailor-resume/route.ts:100-152 | the response is 200 exactly when the reply is text that parses to something other than `null`, and it then holds the assembled resume; anything else is a 500 with `success: false` |
| TailorRoute.Respond | src/app/api/tailor-resume/route.ts:9-164 | an incomplete request gives 400, and a missing key gives 500; otherwise the response is `Answer`. The status is always 200, 400 or 500, and a 200 always carries an object `tailoredResume` |
| TailorRoute.Post | src/app/api/tailor-resume/route.ts:9-164 | the handler's statements compute `Respond`, and the model is called once exactly when the request is complete and the key is configured |
| TailorRoute.OwnFieldsOverride | src/app/api/tailor-resume/route.ts:125-133 | whatever the model puts in `jobUrl`, `jobTitle` or `jobDescription`, the client's values are returned; without `changes` from the model there is none |
| TailorPage.StepIndex | src/app/tailor/page.tsx:81-88 | `findIndex` gives the first position of the step in the step list |
| TailorPage.ProgressMarks | src/app/tailor/page.tsx:124-127 | exactly the current step is marked current, the steps before it completed, and no step both |
| TailorPage.RequestBody | src/app/tailor/page.tsx:54-59 | the request carries the resume, and the job's content as `jobDescription`, its title and its URL |
| TailorPage.RequestAccepted | src/app/tailor/page.tsx:54-59 | the route accepts the wizard's request exactly when the job's description is non-empty |
| TailorPage.TailoredIsForJob | src/app/api/tailor-resume/route.ts:125-133 | a tailored resume returned for the wizard's request carries the job's URL, title and description, so the store's lookup by URL can find it |
| TailorPage.ServedSucceeds | src/app/tailor/page.tsx:51-64 | the request succeeds exactly when the job has a description, the key is configured, and the reply is text that parses to something other than `null` |
| TailorPage.Wizard.constructor | src/app/tailor/page.tsx:18-24 | the wizard starts on the upload step with no resume, job or tailored resume, an empty explanation and a `null` token usage |
| TailorPage.Wizard.Mount | src/app/tailor/page.tsx:27-32 | a stored resume is loaded on mount; otherwise the resume is left as it was |
| TailorPage.Wizard.ResumeUploaded | src/app/tailor/page.tsx:34-36 | the uploaded resume is kept and saved to the store; the tailored list and the step are unchanged |
| TailorPage.Wizard.UploadDelayElapsed | src/app/tailor/page.tsx:37 | the delayed move goes to the job step |
| TailorPage.Wizard.JobFetched | src/app/tailor/page.tsx:40-43 | the job is kept, and the wizard moves to the tailor step |
| TailorPage.Wizard.ClearResume | src/app/tailor/page.tsx:191 | only the resume is dropped |
| TailorPage.Wizard.ClearJob | src/app/tailor/page.tsx:208 | only the job is dropped |
| TailorPage.Wizard.BackToUpload | src/app/tailor/page.tsx:211-220 | returns to the upload step and keeps everything else |
| TailorPage.Wizard.BackToJob | src/app/tailor/page.tsx:270-274 | returns to the job step and drops the job |
| TailorPage.Wizard.AnotherJob | src/app/tailor/page.tsx:347-351 | returns to the job step, keeps the resume, and drops the job and the tailored resume |
| TailorPage.Wizard.StartOver | src/app/tailor/page.tsx:358-363 | returns to the upload step and drops the resume, the job and the tailored resume; the explanation and token usage are kept |
| TailorPage.Wizard.TailorResume | src/app/tailor/page.tsx:45-79 | without a resume or a job nothing happens. A delivered 200 response is shown on the download step and appended to the store. Anything else raises the alert and changes nothing, the explanation and token usage included. The download step always has a tailored resume |
| TailorPage.Wizard.Receive | src/app/tailor/page.tsx:66-72 | a success keeps the response's tailored resume, explanation and usage, appends the resume to the store, and moves to the download step |
| TailorPage.TailorThenLookup | src/app/tailor/page.tsx:45-79 | once tailoring succeeds, the store's own lookup by the job's URL returns an entry, and that entry is for the job |
| PdfFileName.KeepOnly | src/app/tailor/page.tsx:334 | removing the unlisted characters leaves only accepted characters and never lengthens the text |
| PdfFileName.CompanyPart | src/app/tailor/page.tsx:333-335 | the company part holds only ASCII letters and digits, and is `Company` when the job has no company or an empty one |
| PdfFileName.PositionPart | src/app/tailor/page.tsx:336-338 | the position part holds only ASCII letters, digits, `_` and `-` |
| PdfFileName.DownloadFileName | src/app/tailor/page.tsx:330-340 | a file name exists exactly when the tailored resume's `name` and `jobTitle` are strings |
| PdfFileName.ReplaceSpaceRunsChars | src/app/tailor/page.tsx:331 | replacing white-space runs yields only characters of the replacement or non-space characters of the input |
| PdfFileName.ReplaceSpaceRunsNoSpace | src/app/tailor/page.tsx:331 | with a replacement free of white space, the result has no white space |
| PdfFileName.ReplaceSpaceRunsIdentity | src/app/tailor/page.tsx:331 | text without white space is unchanged |
| PdfFileName.ReplaceSpaceRunsSingle | src/app/tailor/page.tsx:331 | when the input holds no `_`, the result holds no two adjacent `_` |
| PdfFileName.KeepOnlyAppend | src/app/tailor/page.tsx:334 | the character filter distributes over concatenation |
| PdfFileName.ReplaceSpaceRunsKeepsOthers | src/app/tailor/page.tsx:334 | filtering after the white-space replace gives what filtering the raw text gives, when neither white space nor the replacement passes the filter |
| PdfFileName.KeepOnlyAll | src/app/tailor/page.tsx:338 | text whose characters all pass the filter is unchanged |
| PdfFileName.CompanyPartIsAlnum | src/app/tailor/page.tsx:333-335 | the company part is exactly the company's ASCII letters and digits, in order; removing white space first makes no difference |
| PdfFileName.CompanyPartCanBeEmpty | src/app/tailor/page.tsx:333-335 | a company with no ASCII letter or digit gives an empty company part, not `Company` |
| PdfFileName.PositionPartOfPlainTitle | src/app/tailor/page.tsx:336-338 | for a title of letters, digits, `_`, `-` and white space, the position part is the title with white-space runs turned into `_` |
| PdfFileName.FileNameShape | src/app/tailor/page.tsx:339 | the file name ends in `.pdf` and contains no white space |
| PdfTextRoute.PagesText | src/app/api/extract-pdf-text/route.ts:40-50 | every page adds at least its blank line |
| PdfTextRoute.ExtractText | src/app/api/extract-pdf-text/route.ts:40-50 | the page loop computes `PagesText`: each page's items joined with single spaces and followed by a blank line, in page order |
| PdfTextRoute.Respond | src/app/api/extract-pdf-text/route.ts:15-73 | no PDF data gives 400, and a load failure gives the 500 with its message. Otherwise the response is 200 with the trimmed text and the page count |
| PdfTextRoute.Post | src/app/api/extract-pdf-text/route.ts:15-73 | the handler's statements compute `Respond` |
| PdfTextRoute.PagesTextAppend | src/app/api/extract-pdf-text/route.ts:43-50 | the text of consecutive runs of pages is the concatenation of their texts |
| PdfTextRoute.PageInPlace | src/app/api/extract-pdf-text/route.ts:43-50 | each page's text appears, followed by a blank line, between the texts of the pages before and after it |
| PdfTextRoute.SplitJoin | src/app/api/extract-pdf-text/route.ts:46-48 | splitting a page's text at the separator gives back its items when no item contains the separator |
| PdfTextRoute.EmptyPagesBlank | src/app/api/extract-pdf-text/route.ts:46-49 | pages without text items contribute only white space |
| PdfTextRoute.TextlessPdf | src/app/api/extract-pdf-text/route.ts:52-61 | a PDF whose pages carry no text items is answered 200 with empty text and its page count |
| PdfTextRoute.TextTrimmed | src/app/api/extract-pdf-text/route.ts:53 | the text returned has no white space at either end |

## Left out

- The HTML parser, `querySelector` and the CSS selector engine are a parameter: a query function from selector to the first matching element. The element removal is stated as a predicate over an element's tag, class and id (`Extractor.Unwanted`), not as a mutation of a DOM tree.
- Class matching for `.name` selectors follows standards mode, where it is case-sensitive; quirks-mode documents, where it is not, are not modelled.
- Extractor: a JSON title that is truthy but not a string (a number, say) is modelled as falling back to the default title, where JavaScript would keep the number.
- `JSON.parse` is a parameter that yields a JSON value, a syntax error, or, in the extractor, nothing. Numbers are reals, and duplicate keys are not modelled.
- The network: each `fetch` outcome is a parameter. So are the headless browser's session and the `Promise.race` wait for selectors. That wait never throws, so it is omitted. Timeouts and the user agent are not modelled.
- `PuppeteerRoute.Browser.FetchWithPuppeteer`: the browser is represented by ghost launch and close counters only.
- Request bodies are JSON objects. A body that is not JSON, or not an object, makes `req.json()` or destructuring throw, and this is not modelled.
- The fetch routes read `url` as an optional string and `forcePuppeteer` as a boolean; other JSON types are not modelled.
- The language-model call and the prompt text are left out: the call is a parameter yielding a text reply with token counts, another kind of first block, or a throw. An empty `content` array throws a `TypeError` when the route reads the first block's `type`; it is the throw whose message is V8's `Cannot read properties of undefined (reading 'type')`.
- `TailorRoute.Usage`: the estimated cost fields (`toFixed(4)` on floating-point products) are not modelled; only the token counts and their total are.
- The two `new Date().toISOString()` calls in the tailor route are modelled as one time value `now`. The clock is a parameter.
- Base64 decoding and the PDF library are one parameter, which yields the text items of each page or the error thrown. A `getPage` or `getTextContent` failure on one page is folded into that error, and `item.str` is taken to be a string.
- Strings are sequences of Unicode code points, while JavaScript lengths count UTF-16 code units. The 3-to-99 and 200-character thresholds therefore differ for text outside the Basic Multilingual Plane.
- The store's slots hold JSON values. Text in `localStorage` that parses to something other than what was written (a non-object resume, a non-array list) is not modelled. Empty or malformed text is modelled as unreadable.
- React rendering, the `tailoring` and `loading` flags' effect on disabled buttons, and the conditions under which a button is shown are not modelled. Each handler is modelled for any state.
- The `alert` text and `console` logging are left out. The one-second `setTimeout` after an upload is the separate method `TailorPage.Wizard.UploadDelayElapsed`.
- `TailorPage.Wizard.TailorResume`: the model shows an alert for any status outside 200–299, and the route only ever answers 200, 400 or 500. A 2xx body whose `tailoredResume` is not an object cannot arise from the route, and is not modelled.
- The PDF rendering of the resume (`ResumePDF`) and the resume text input component are not part of this model.
