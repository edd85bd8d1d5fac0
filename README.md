# hire-me-be core, modelled in Dafny

This project models the request handlers of an AI interview platform's backend,
and the services behind them. Candidates upload resumes as PDFs. Recruiters upload
job descriptions. Gemini turns each upload into a structured record, which is
stored in MongoDB. A stored resume can be assessed against a stored job
description. Interviews can be scheduled. An interview is driven question by
question, and its recorded chat can be assessed at the end. Users register and
log in, and interview recordings are saved to disk.

The model is written in Dafny's own terms:

- **Collections.** A MongoDB collection is a class, `Store.Collection`. It holds
  the documents by ObjectId (`docs`) and the natural order in which scans visit
  them (`order`). Every handler that inserts changes exactly one collection, and
  its postcondition states the new `docs` and `order` in full.
- **Handlers.** Each handler is a method that returns `Ok(response)` or
  `Err(exception)`. An exception is either FastAPI's `HTTPException(status, detail)`
  or an uncaught Python exception (`Raised`), which the framework answers with a
  bare 500.
- **Checks before the insert.** The checks a handler makes before it inserts are a
  function (`Prepare…`, `…Check`). The method's postcondition ties its result and
  the new collection state to that function. Lemmas then state what the function
  accepts and refuses, and what a stored record reads back as.
- **Collaborators.** Gemini, the JSON text parser, `json.dumps`, pydantic's
  `model_dump_json`, Python's `str` of a dict, `dateutil` and the password and
  token library are parameters: fields of function type in `External.Services`
  and `Auth.Crypto`. The properties hold whatever these return.
- **Driver-generated values.** The ObjectId the driver generates on insert is a
  parameter (`newId`), and so are the clock readings. An insert under an id that
  is already taken is refused like MongoDB's duplicate-key error.
- **Pydantic models.** Each pydantic model is a datatype with a validator
  (JSON to record, with the checks pydantic makes) and a dump (record to JSON).
  Round trips between the two are proved.

## Model

| member | source | states |
|---|---|---|
| ObjectIds.IdString | controllers/assessment_controller.py:129 | `str(oid)` is 24 hex digits that `ObjectId.is_valid` accepts and that parse back to the same id |
| ObjectIds.ParseObjectId | controllers/assessment_controller.py:125 | `ObjectId(s)` of a valid string is the number its 24 hex digits spell |
| ObjectIds.HexToNat | controllers/assessment_controller.py:125 | a string of `n` hex digits spells a number below 16 to the `n` |
| ObjectIds.Hex | controllers/assessment_controller.py:129 | the rendering has exactly the requested width, in lower-case hex digits |
| ObjectIds.HexRoundTrip | controllers/assessment_controller.py:125-129 | writing a number as fixed-width hex and reading it back gives the number |
| ObjectIds.RenderParsed | controllers/schedule_controller.py:71-76 | parsing a hex string and rendering it again gives the string lower-cased |
| ObjectIds.IdStringOfParsed | controllers/schedule_controller.py:71-76 | `str(ObjectId(s))` is `s` in lower case |
| ObjectIds.SameIdIffSameLower | controllers/assessment_controller.py:122-125 | two valid id strings name the same document exactly when they agree up to case |
| PyStrings.Strip | services/parsers.py:186 | `strip()` leaves no white space at either end, and is empty exactly when the text is all white space |
| PyStrings.StripTrimmed | services/parsers.py:186 | text with no white space at either end is left unchanged by `strip()` |
| PyStrings.Lower | controllers/video_controller.py:10 | `lower()` keeps the length and lower-cases each character in place |
| PyStrings.StripIsSlice | services/parsers.py:183 | the stripped text is the piece after the leading white space, and only white space follows it |
| PyStrings.StripIdempotent | services/parsers.py:183-186 | stripping twice is stripping once |
| PyStrings.IntToString | controllers/interview_assess_controller.py:162 | `str(n)` is non-empty and starts with '-' exactly when `n` is negative |
| JsonValues.Without | controllers/assessment_controller.py:158-160 | popping keys leaves exactly the other keys, with their values unchanged |
| JsonValues.PopKeys | controllers/interview_assess_controller.py:39-41 | the pop loop over `_id`, `original_filename` and `raw_text` on both documents gives the documents without those keys |
| JsonValues.Get | controllers/job_controller.py:115-117 | `d.get(k)` is the field when present and `None` otherwise |
| JsonValues.ConvertObjectIds | controllers/job_controller.py:24 | the converted document holds no ObjectId, and a document without one is unchanged |
| Store.Collection.InsertOne | controllers/assessment_controller.py:175-177 | an insert adds the document under a fresh id at the end of the natural order, or is refused and changes nothing when the id is taken |
| Store.Collection.InsertThen | controllers/schedule_controller.py:48-62 | an insert followed by the handler's answer, or by the handler's error when the insert is refused |
| Store.Collection.FirstHit | controllers/job_controller.py:20 | the first position in the scan whose document matches the filter, with none before it |
| Store.Collection.FindOne | controllers/assessment_controller.py:124-126 | `find_one(filter)` is the first match in natural order, and is `None` exactly when nothing matches |
| Store.Collection.FindById | controllers/assessment_controller.py:124-128 | `find_one({"_id": id})` finds exactly the document stored under `id` |
| Store.Collection.NoneFound | auth/routes.py:28-29 | when `find_one` finds nothing, no stored document matches the filter |
| Store.Collection.Matching | controllers/job_controller.py:110 | `find(filter)` visits exactly the matching documents, and no more of them than there are ids |
| Store.Collection.MatchingInOrder | controllers/job_controller.py:110 | over ids without repeats, `find` visits each match once, in the order of the ids |
| Store.Collection.MatchingAppend | controllers/job_controller.py:110-118 | scanning two runs of ids one after the other gives the two results one after the other |
| Http.Wrap | controllers/assessment_controller.py:185-188 | an HTTP exception passes through the handler's except clauses unchanged; any other becomes a 500 whose detail is the prefix and the message |
| External.JsonDumps | controllers/interview_assess_controller.py:45-46 | `json.dumps` fails, with a `TypeError`, exactly when an ObjectId occurs in the value |
| External.ValidateText | services/parsers.py:234 | parsing and validating JSON text succeeds exactly when the text parses and the value validates, and then gives the validated value |
| Schemas.ValidateHeader | services/parsers.py:18-20 | an accepted header has the full name and the contact-information object of the JSON |
| Schemas.Req | services/parsers.py:18-20 | a required field is accepted only when present, as its validated value |
| Schemas.Def | services/parsers.py:72-79 | a field with a default takes the default when absent, and its validated value otherwise |
| Schemas.Opt | services/parsers.py:11-15 | an `Optional` field that is absent or null is `None` |
| Schemas.Each | services/parsers.py:73-78 | a list is accepted item by item, keeping its length and order |
| Schemas.ValidateExperience | services/parsers.py:23-30 | an accepted experience entry has the title and company of the JSON (ResumeDocument binds to this first class) |
| Schemas.ValidateEducation | services/parsers.py:33-40 | an accepted education entry has the degree and university of the JSON |
| Schemas.ValidateResume | services/parsers.py:69-79 | a resume needs a header, and every absent list field is empty |
| Schemas.ValidateResumeDocument | services/parsers.py:83-84 | a resume document is accepted exactly when its `resume` field validates, and then holds that resume |
| Schemas.AsDifficulty | services/parsers.py:171 | the difficulty is accepted exactly when it is "easy", "moderate" or "hard", and names the value it gives |
| Schemas.ValidateJobDescription | services/parsers.py:162-170 | an accepted job description has the title and the three required lists of the JSON, and an absent `preferred_skills` is `[]` |
| Schemas.OptDef | services/parsers.py:167 | an absent `Optional[List[str]] = []` field is `[]` |
| Schemas.ValidateParsedJobDescription | services/parsers.py:162-171 | the parser's job description is the common one plus a difficulty that is one of the three literals |
| Schemas.StrListRoundTrip | services/parsers.py:72 | a list of strings dumped and validated is the same list |
| Schemas.OptStrRoundTrip | services/parsers.py:71 | an optional string dumped and validated is the same value |
| Schemas.EachDumped | services/parsers.py:73-78 | a list whose items each round-trip is validated back item by item |
| Schemas.ListRoundTrip | services/parsers.py:73-78 | a list of records dumped and validated is the same list |
| Schemas.ContactInformationRoundTrip | services/parsers.py:10-15 | contact information dumped and validated is the same record |
| Schemas.HeaderRoundTrip | services/parsers.py:18-20 | a header dumped and validated is the same record |
| Schemas.ExperienceRoundTrip | services/parsers.py:23-30 | an experience entry dumped and validated is the same record |
| Schemas.ExperienceFromFields | services/parsers.py:23-30 | an object whose fields validate to an entry's fields validates to that entry |
| Schemas.EducationRoundTrip | services/parsers.py:33-40 | an education entry dumped and validated is the same record |
| Schemas.EducationFromFields | services/parsers.py:33-40 | an object whose fields validate to an entry's fields validates to that entry |
| Schemas.ProjectRoundTrip | services/parsers.py:43-48 | a project dumped and validated is the same record |
| Schemas.CertificationRoundTrip | services/parsers.py:51-55 | a certification dumped and validated is the same record |
| Schemas.AwardHonorRoundTrip | services/parsers.py:58-61 | an award dumped and validated is the same record |
| Schemas.LanguageRoundTrip | services/parsers.py:64-66 | a language dumped and validated is the same record |
| Schemas.ExperiencesRoundTrip | services/parsers.py:73 | a list of experience entries round-trips |
| Schemas.EducationsRoundTrip | services/parsers.py:74 | a list of education entries round-trips |
| Schemas.ProjectsRoundTrip | services/parsers.py:75 | a list of projects round-trips |
| Schemas.CertificationsRoundTrip | services/parsers.py:76 | a list of certifications round-trips |
| Schemas.AwardsRoundTrip | services/parsers.py:77 | a list of awards round-trips |
| Schemas.LanguagesRoundTrip | services/parsers.py:78 | a list of languages round-trips |
| Schemas.ResumeFromFields | services/parsers.py:69-79 | an object whose fields validate to a resume's fields validates to that resume |
| Schemas.ResumeHeadFields | services/parsers.py:70-72 | the dumped header, summary and skills validate back |
| Schemas.ResumeListFields1 | services/parsers.py:73-75 | the dumped experience, education and project lists validate back |
| Schemas.ResumeListFields2 | services/parsers.py:76-79 | the dumped certification, award, language and interest lists validate back |
| Schemas.ResumeRoundTrip | services/parsers.py:69-79 | a resume dumped and validated is the same resume |
| Schemas.ResumeDocumentRoundTrip | services/parsers.py:83-84 | a resume document dumped and validated is the same document |
| Schemas.JobDescriptionFromFields | services/parsers.py:162-170 | an object whose fields validate to a job description's fields validates to it |
| Schemas.JobDescriptionFields1 | services/parsers.py:163-166 | the dumped title, company and first two lists validate back, whatever extra keys the object carries |
| Schemas.JobDescriptionFields2 | services/parsers.py:167-170 | the dumped remaining fields validate back, whatever extra keys the object carries |
| Schemas.JobDescriptionRoundTrip | services/parsers.py:162-170 | a dumped job description with any extra keys validates to the same job description |
| Schemas.ParsedJobDescriptionRoundTrip | services/parsers.py:162-171 | the parser's job description dumped and validated is the same value |
| Schemas.DifficultyRoundTrip | services/parsers.py:171 | each difficulty's name validates back to it |
| Schemas.ParsedFromFields | services/parsers.py:162-171 | an object whose fields validate to a job description and a difficulty validates to both |
| Parsers.StripLeadingFence | services/parsers.py:183 | the anchored opening fence, with its `\w` tag and the line breaks after it, is cut once from the front; text not starting with a fence is unchanged |
| Parsers.StripTrailingFence | services/parsers.py:185 | the closing fence and the line breaks before it are cut from the end; text not ending with a fence is unchanged |
| Parsers.FenceEndsDiffer | services/parsers.py:185 | text ending with a fence does not end with a fence and a newline |
| Parsers.ExtractJson | services/parsers.py:178-186 | the cleaned text has no white space at either end |
| Parsers.LeadingFenceIs | services/parsers.py:183 | both repetitions of the opening pattern are greedy: the cut ends after the whole tag and every line break |
| Parsers.TrailingFenceIs | services/parsers.py:185 | the closing cut starts at the first of the line breaks before the fence |
| Parsers.UnfencedIsStripped | services/parsers.py:183-186 | unfenced text is only stripped |
| Parsers.FencedShape | services/parsers.py:180-182 | the layout of a fenced reply |
| Parsers.FencedOpener | services/parsers.py:183 | a fenced reply loses exactly its opening line |
| Parsers.FencedCloser | services/parsers.py:185 | a body followed by a closing fence loses exactly the fence |
| Parsers.FencedBody | services/parsers.py:178-186 | the clean-up of a fenced reply with any `\w` tag is its trimmed body |
| Parsers.FencedLiteral | services/parsers.py:178-186 | the same, for the fence written out as a literal |
| Parsers.JsonFencedBody | services/parsers.py:180-186 | a "```json" fenced reply gives back its trimmed body |
| Parsers.BareFencedBody | services/parsers.py:182-186 | a bare "```" fenced reply gives back its trimmed body |
| Parsers.ExtractIsSlice | services/parsers.py:178-186 | the clean-up only removes text: its result is a contiguous piece of the stripped input |
| Parsers.ExtractPiece | services/parsers.py:178-186 | the bounds of that piece |
| Parsers.FencesCutPiece | services/parsers.py:183-185 | cutting both fences leaves a contiguous piece of the stripped text |
| Parsers.StrippedPiece | services/parsers.py:186 | stripping a piece of a text gives a piece of that text |
| Parsers.TrailingFencePrefix | services/parsers.py:185 | cutting the closing fence leaves a prefix |
| Parsers.NoFenceBeforeNewline | services/parsers.py:185 | stripped text never ends with a fence followed by a newline |
| Parsers.DoubledOpener | services/parsers.py:183 | only the first of two opening fences is cut |
| Parsers.BareOpener | services/parsers.py:183 | a bare opener and its line breaks are cut |
| Parsers.BareOpenedShape | services/parsers.py:183-186 | a bare opener followed by a body is trimmed text with no closing fence |
| Parsers.DoubledFence | services/parsers.py:178-186 | the clean-up removes one opening fence per call, so it is not idempotent: a doubled opener needs two calls |
| Parsers.ParseJdWithGemini | services/parsers.py:202-236 | every failure is a 500 whose detail starts "Gemini job description parsing failed: " |
| Parsers.ParseResumeWithGemini | services/parsers.py:241-345 | every failure is a 500 whose detail starts "Gemini parsing failed: " |
| Parsers.ParseJdOutcome | services/parsers.py:226-234 | the job-description parse succeeds exactly when Gemini answers and the cleaned answer validates once, and gives that value |
| Parsers.ParseResumeOutcome | services/parsers.py:333-343 | the resume parse succeeds exactly when Gemini answers and the cleaned answer validates once, and gives that value |
| Parsers.ParseJdOfFencedReply | services/parsers.py:226-234 | a fenced reply holding a job description's JSON parses to that job description |
| Parsers.ParseResumeOfFencedReply | services/parsers.py:333-343 | a fenced reply holding a resume document's JSON parses to that document |
| CandidateAssessment.AsScore | services/candidate_assessment.py:100-103 | a score is accepted exactly when it is a number in [0, 100] |
| CandidateAssessment.ValidateAssessmentResult | services/candidate_assessment.py:97-109 | an accepted assessment has all twelve fields with the right types and scores in range |
| CandidateAssessment.WellFormedAccepted | services/candidate_assessment.py:97-109 | an object with all twelve well-typed fields is accepted |
| CandidateAssessment.AssessmentResultFromFields | services/candidate_assessment.py:97-109 | an object whose fields validate to an assessment's fields validates to it |
| CandidateAssessment.AssessmentTextFields | services/candidate_assessment.py:98-99 | the dumped text fields validate back |
| CandidateAssessment.AssessmentScoreFields | services/candidate_assessment.py:100-103 | the dumped scores validate back |
| CandidateAssessment.AssessmentListFields | services/candidate_assessment.py:104-107 | the dumped lists validate back |
| CandidateAssessment.AssessmentResultRoundTrip | services/candidate_assessment.py:97-109 | an assessment dumped and validated is the same assessment |
| CandidateAssessment.ScoreOutOfRange | services/candidate_assessment.py:100-103 | a score outside [0, 100] is refused whatever the other fields hold |
| CandidateAssessment.FitmentContents | services/candidate_assessment.py:119-120 | the request text is the job description's JSON followed by the resume's JSON |
| CandidateAssessment.AssessCandidateFitment | services/candidate_assessment.py:115-156 | every failure is a 500 whose detail starts "Assessment failed: " |
| CandidateAssessment.FitmentOutcome | services/candidate_assessment.py:147-154 | the assessment succeeds exactly when Gemini answers with JSON that validates, with no clean-up and no retry |
| CandidateAssessment.FitmentOfReply | services/candidate_assessment.py:147-154 | a reply that is an assessment's JSON gives that assessment |
| AssessmentController.GetAssessment | controllers/assessment_controller.py:121-130 | 400 for a malformed id, 404 when nothing is stored under it, otherwise the record with its `_id` as the lower-cased id string |
| AssessmentController.AssessmentRecord | controllers/assessment_controller.py:170-173 | the stored record has no `_id` yet and carries both ids as given and the job description |
| AssessmentController.AssessmentRecordRoundTrip | controllers/assessment_controller.py:170-173 | the stored record validates back to the assessment |
| AssessmentController.AssessmentRecordJobDescription | controllers/assessment_controller.py:173 | the stored job description validates back to the one assessed against |
| AssessmentController.RecordKeepsFields | controllers/assessment_controller.py:170-173 | adding the three keys keeps every assessment field |
| AssessmentController.AddedKeysAreNew | controllers/assessment_controller.py:171-173 | the three added keys are none of the assessment's own |
| AssessmentController.AssessmentIgnoresExtra | controllers/assessment_controller.py:170-173 | extra keys do not change the validated assessment |
| AssessmentController.PrepareAssessment | controllers/assessment_controller.py:139-166 | the two ids are checked, resume first, then both lookups, resume first; every failure is an HTTP error |
| AssessmentController.AssessFetched | controllers/assessment_controller.py:158-173 | schema and Gemini failures become HTTP errors, and the prepared record has no `_id` |
| AssessmentController.AssessCandidate | controllers/assessment_controller.py:135-188 | one record is inserted on success and nothing otherwise; the answer carries the new id and the assessment |
| AssessmentController.AssessAndInsert | controllers/assessment_controller.py:162-188 | the same, from the stripped documents on |
| JobController.GetJd | controllers/job_controller.py:15-25 | the id is stripped first; 400, 404, or the document with every ObjectId turned into its string |
| JobController.ReadJdShape | controllers/job_controller.py:24-25 | what `get_jd` returns holds no ObjectId, and its `_id` is the document's id string |
| JobController.JdRecord | controllers/job_controller.py:52-55 | the stored job description has no `_id` yet |
| JobController.ParsedFieldsNotInternal | controllers/job_controller.py:52-54 | the parsed fields are none of the keys added for storage |
| JobController.PrepareJdUpload | controllers/job_controller.py:34-55 | user id, then file name, then PDF text, which must not be blank; every failure is an HTTP error |
| JobController.JdFromText | controllers/job_controller.py:51-55 | a parse failure is an HTTP error |
| JobController.PreparedJdUpload | controllers/job_controller.py:34-55 | an upload is stored exactly when the id and the name are valid, the text is not blank and the parse succeeds, and then as that parse with the upload's fields |
| JobController.UploadJd | controllers/job_controller.py:29-70 | one document is inserted on success and none otherwise; a refused insert is a 500 with the upload prefix |
| JobController.StoreJdText | controllers/job_controller.py:51-65 | the same, from the non-blank text on |
| JobController.UploadedJdReadsBack | controllers/job_controller.py:52-58 | a stored job description, stripped of its internal keys, validates back to the parsed one |
| JobController.ExtraKeysAreNew | controllers/job_controller.py:55 | the difficulty and the uploader are none of the common job-description keys |
| JobController.ApplicationRecord | controllers/job_controller.py:88-94 | the stored application has no `_id` yet |
| JobController.ApplyJob | controllers/job_controller.py:74-99 | ids checked in the order user, resume, job; one application inserted, with status "rejected", and its id answered |
| JobController.GetApplicantsForJob | controllers/job_controller.py:102-120 | one entry per application of the job, in natural order |
| JobController.AppliedIsListed | controllers/job_controller.py:88-120 | an application stored by `apply_job` is listed under its job |
| JobController.AppliedEntry | controllers/job_controller.py:114-118 | its entry shows both ids as strings and the status "rejected" |
| JobController.GetJobsCreatedByUser | controllers/job_controller.py:126-140 | the id strings of the documents whose `creator_user_id` is the user, in natural order |
| JobController.UploadsHaveNoCreator | controllers/job_controller.py:134 | over documents without `creator_user_id`, every user's listing is empty |
| JobController.JdRecordHasNoCreator | controllers/job_controller.py:52-55 | no document `upload_jd` stores has a `creator_user_id` |
| JobController.GetJobsUploadedByUser | controllers/job_controller.py:55 | the evidently intended listing: a job description's id string is listed exactly when its `user_id`, the field `upload_jd` writes, is the user |
| JobController.UploadedJdIsListed | controllers/job_controller.py:55 | every job description a user uploaded is in that listing |
| ScheduleController.InterviewRecord | controllers/schedule_controller.py:37-46 | the stored event has no `_id` yet |
| ScheduleController.ScheduleCheck | controllers/schedule_controller.py:23-34 | every check before the insert fails with a 400 |
| ScheduleController.ScheduleInterview | controllers/schedule_controller.py:21-62 | the checks in order; one event inserted with status "scheduled"; a refused insert is a 500 "Scheduling failed: …" |
| ScheduleController.GetScheduledInterview | controllers/schedule_controller.py:65-77 | 400, 404, or the event with its `_id` as the lower-cased id string |
| ScheduleController.ListedIds | controllers/schedule_controller.py:81-84 | the listing visits only stored events |
| ScheduleController.GetAllScheduledInterviews | controllers/schedule_controller.py:80-89 | one entry per listed event, in natural order, each with its `_id` rewritten as a string |
| ScheduleController.ScheduledIsListed | controllers/schedule_controller.py:37-46 | a scheduled interview is in its user's listing, as "scheduled" at the time sent |
| ScheduleController.ScheduledIsNotListedForOthers | controllers/schedule_controller.py:82-84 | another user's listing leaves it out |
| ScheduleController.UnfilteredListsAll | controllers/schedule_controller.py:81-84 | with no user, or an empty one, every stored event is listed once, in natural order |
| ScheduleController.ScheduledReadsBack | controllers/schedule_controller.py:51-57 | the id answered reads back the event that was stored |
| ResumeController.ResumeRecord | controllers/resume_controller.py:24-26 | the stored resume has no `_id` yet |
| ResumeController.PrepareResumeUpload | controllers/resume_controller.py:16-26 | file name, then PDF text, which must not be blank; every failure is an HTTP error |
| ResumeController.ResumeFromText | controllers/resume_controller.py:23-26 | a parse failure is an HTTP error |
| ResumeController.PreparedResumeUpload | controllers/resume_controller.py:16-26 | a resume is stored exactly when the name ends ".pdf", the text is not blank and the parse succeeds, and then as that parse |
| ResumeController.UploadResume | controllers/resume_controller.py:15-36 | one document is inserted on success and none otherwise; a refused insert is a 500 "Upload failed: …" |
| ResumeController.StoreResumeText | controllers/resume_controller.py:23-32 | the same, from the non-blank text on |
| ResumeController.UploadedResumeReadsBack | controllers/resume_controller.py:24-27 | a stored resume, stripped of its internal keys, is exactly the parsed document and validates back to it |
| ResumeController.GetResume | controllers/resume_controller.py:40-48 | a malformed id raises `InvalidId` before the check, so the 400 is never answered |
| ResumeController.GetResumeChecked | controllers/resume_controller.py:40-48 | the evidently intended handler: a malformed id is a 400 and every error is an HTTP error |
| ResumeController.UnownedJdRecord | controllers/resume_controller.py:66-68 | this file's stored job description has neither `_id` nor `user_id` |
| ResumeController.PrepareJdUpload | controllers/resume_controller.py:52-68 | file name, then PDF text, which must not be blank; every failure is an HTTP error |
| ResumeController.JdFromText | controllers/resume_controller.py:65-68 | a parse failure is an HTTP error |
| ResumeController.UploadJd | controllers/resume_controller.py:51-82 | one document is inserted on success and none otherwise |
| ResumeController.StoreJdText | controllers/resume_controller.py:65-77 | the same, from the non-blank text on |
| ResumeController.UnownedJdReadsBack | controllers/resume_controller.py:66-71 | a job description stored this way, stripped, is exactly the parsed one and validates back to it |
| Uploads.ExtractTextFromPdf | services/parsers.py:189-199 | the PDF text, or a 400 "Error parsing PDF: …" when the library raises |
| Uploads.StrippedUpload | controllers/job_controller.py:52-58 | stripping the internal keys from a stored upload gives back the parsed fields and the extra ones |
| Uploads.StrippedPlainUpload | controllers/resume_controller.py:24-27 | the same, with nothing extra |
| InterviewAssess.Speaker | controllers/interview_assess_controller.py:68 | "Interviewer" exactly for the model's turns, "Candidate" for every other role |
| InterviewAssess.BuildTranscript | controllers/interview_assess_controller.py:66-69 | the loop builds the transcript: one line per turn, in order |
| InterviewAssess.TranscriptAppend | controllers/interview_assess_controller.py:66-69 | the transcript of two pieces of a chat is the two transcripts concatenated |
| InterviewAssess.TranscriptSnoc | controllers/interview_assess_controller.py:69 | one more turn adds one more line at the end |
| InterviewAssess.TranscriptLine | controllers/interview_assess_controller.py:66-69 | turn `i` is rendered right after the turns before it |
| InterviewAssess.InterviewPrompt | controllers/interview_assess_controller.py:71-76 | the prompt holds the job description, the resume, the difficulty and the conversation, in that order, each after its heading |
| InterviewAssess.ValidateInterviewResult | controllers/interview_assess_controller.py:93-98 | accepted exactly when the three fields are strings; the rating is any text |
| InterviewAssess.InterviewResultRoundTrip | controllers/interview_assess_controller.py:93-98 | a verdict dumped and validated is the same verdict |
| InterviewAssess.InterviewVerdictAsWritten | controllers/interview_assess_controller.py:45-98 | as written, the step after the lookups never returns a verdict: it fails while serialising or asking Gemini, and otherwise with the `ImportError` of line 92 |
| InterviewAssess.InterviewVerdict | controllers/interview_assess_controller.py:45-98 | the evidently intended step: nothing after the lookups is guarded, so every failure is an uncaught exception |
| InterviewAssess.AssessCandidateInterview | controllers/interview_assess_controller.py:21-99 | 400s in the order job, resume; 404s in the same order; then the as-written step on the stripped documents; nothing is written |
| InterviewAssess.Verdict | controllers/interview_assess_controller.py:45-98 | the handler's serialisation, transcript loop, Gemini call and import compute the as-written step |
| InterviewAssess.ObjectIdFieldFails | controllers/interview_assess_controller.py:45 | a job description with an ObjectId field besides `_id`, as the job controller's upload stores, fails with `TypeError` |
| InterviewAssess.VerdictOfReply | controllers/interview_assess_controller.py:79-98 | with plain-JSON documents, a reply that is a verdict's JSON is that verdict for the intended step |
| InterviewAssess.ImportFailsOnValidReply | controllers/interview_assess_controller.py:92-98 | the same reply gives the verdict for the intended step and an uncaught `ImportError` as written |
| InterviewAssess.TurnEntries | controllers/interview_assess_controller.py:155-159 | each turn is replayed as the model's question, then the user's timestamped answer |
| InterviewAssess.ChatHistory | controllers/interview_assess_controller.py:146-167 | the instruction, the context, two entries per turn, the elapsed time, the request, in that order |
| InterviewAssess.BuildChatHistory | controllers/interview_assess_controller.py:146-167 | the handler's appends build that history |
| InterviewAssess.GenerateNextQuestion | controllers/interview_assess_controller.py:115-171 | the reply to "Next question, please." in a chat opened with that history |
| Auth.UserRecord | auth/routes.py:35-39 | the stored user has no `_id` yet |
| Auth.Register | auth/routes.py:17-42 | role checked first, then the email; a taken email changes nothing; one user inserted otherwise; emails stay unique |
| Auth.NewEmailKeepsUnique | auth/routes.py:28-40 | adding a user whose email nobody has keeps emails unique |
| Auth.Authenticate | auth/routes.py:53-61 | a token exactly when the password verifies and the user has an email and a role; it signs the payload of auth/utils.py:25-32 |
| Auth.Login | auth/routes.py:47-61 | an unknown email is a 401; otherwise the first user with that email is authenticated; nothing is written |
| Auth.StoredUserIsFound | auth/routes.py:52 | with unique emails, login finds the user stored with the email |
| Auth.RegisteredUserLogsIn | auth/routes.py:35-61 | a registered user logs in with its password, and the token names its id, email and role |
| Auth.WrongPasswordLooksUnknown | auth/routes.py:53-54 | a wrong password gets the same answer as an unknown email |
| Auth.PasswordNotStored | auth/routes.py:32-37 | the stored record holds the hash, not the password |
| VideoController.DirChain | controllers/video_controller.py:14 | `makedirs` creates the directory itself and only prefixes of its path |
| VideoController.JoinPath | controllers/video_controller.py:16 | the joined path ends with the file name |
| VideoController.FileSystem.MakeDirs | controllers/video_controller.py:14 | the directory and its ancestors exist afterwards; no file changes |
| VideoController.FileSystem.WriteFile | controllers/video_controller.py:22-23 | the file holds exactly the content; nothing else changes |
| VideoController.UploadVideo | controllers/video_controller.py:8-27 | a name without a video extension is a 400 and changes nothing; otherwise the directory is made, and the file is written or a 500 "Failed to save video: …" is answered |
| VideoController.LowerCharIdempotent | controllers/video_controller.py:10 | lower-casing a character twice is lower-casing it once |
| VideoController.VideoNameIgnoresCase | controllers/video_controller.py:10 | a name and its lower-case form are accepted or refused together |
| VideoController.AnyCaseExtensionAccepted | controllers/video_controller.py:10 | a name is accepted whatever the case of its extension: its last characters, lower-cased, need only spell one of the five |
| VideoController.SavedUnderDirectory | controllers/video_controller.py:5-16 | a relative name is saved inside the video directory, an absolute one where it points |
| VideoController.ParentInChain | controllers/video_controller.py:14 | `makedirs` on `dir/name` creates `dir` as well |
| VideoController.PrefixInChain | controllers/video_controller.py:14 | each prefix ending just before a separator is created |

## Findings

| source | as written | input that shows it | evidently intended | confidence | as-written member | corrected member |
|---|---|---|---|---|---|---|
| controllers/job_controller.py:134 | `get_jobs_created_by_user` filters on `creator_user_id`, which no handler writes; `upload_jd` stores the uploader as `user_id` (line 55) | any valid user id, after that user has uploaded job descriptions: the listing is `[]` | list the job descriptions whose `user_id` is the user | not executed | JobController.GetJobsCreatedByUser (with JobController.UploadsHaveNoCreator, JobController.JdRecordHasNoCreator) | JobController.GetJobsUploadedByUser (with JobController.UploadedJdIsListed) |
| controllers/resume_controller.py:41-43 | `get_resume` builds `ObjectId(...)` before calling `is_valid`, so a malformed id raises `InvalidId` and the 400 branch can never run | `resume_id = "abc"`: an uncaught `InvalidId`, answered with a bare 500 instead of 400 "Invalid resume ID" | check the string first and answer 400 | not executed | ResumeController.GetResume | ResumeController.GetResumeChecked |
| controllers/interview_assess_controller.py:92 | `assess_candidate_interview` imports `parse_raw_as` from pydantic, a name pydantic 2 removed (the code uses pydantic 2: `model_dump`, `model_validate_json`), so the import raises `ImportError` after Gemini answers | any request whose documents serialise and whose Gemini call answers, even with `{"capabilities_summary":"a","fitment_rating":"b","justification":"c"}`: an uncaught `ImportError`, a bare 500 | drop the import and validate the reply as `AssessmentResult` | not executed | InterviewAssess.InterviewVerdictAsWritten (with InterviewAssess.ImportFailsOnValidReply) | InterviewAssess.InterviewVerdict (with InterviewAssess.VerdictOfReply) |

## Left out

- Gemini (`generate_content`, chat sessions) is a parameter, not modelled. So are the JSON text parser, `json.dumps`, `model_dump_json`, Python's `str` of a dict, `dateutil.parser.parse`, argon2 hashing and verification, and JWT signing. Properties hold for any behaviour of these.
- The PDF library is not modelled. `extract_text_from_pdf`'s page loop (the text of each page that has text, each followed by "\n") is taken as its result: the text, or the library's exception message.
- `Parsers.IsWordChar`: the regex class `\w` is modelled over ASCII only, while Python's `re` on `str` also matches Unicode letters and digits in a fence tag.
- `PyStrings.Lower`: `str.lower()` is modelled on ASCII letters only. The video-extension check therefore ignores non-ASCII case mappings.
- `Schemas.ValidateHeader`: pydantic's `EmailStr` check on `email` is not modelled; any string is accepted.
- Pydantic's lax-mode coercions (numeric strings to numbers, numbers to strings, etc.) are not modelled. Each field accepts its own JSON type only; an integer counts as a number.
- Pydantic's error texts are shortened to one fixed message per failure kind. The exact `str(ValidationError)` listing is not reproduced.
- `ResumeController.InvalidIdMessage` writes the rejected value between single quotes. Python's `repr` would switch to double quotes, or escape characters, for some inputs.
- The texts of `KeyError`s (`'password'`, `'email'`, `'role'`), of the duplicate-key error and of pydantic's `ImportError` (`InterviewAssess.ParseRawAsRemoved`, without the link to pydantic's documentation that follows it) are fixed strings standing for the real exception texts.
- Async plumbing is not modelled: `async`/`await`, `run_in_threadpool`, the executor wrappers in utils/pymango_wrappers.py, and concurrent requests. Every handler runs as one atomic step against the collections.
- Auth.Register: unique emails are proved only for requests run one after another. The source checks for the email and then inserts, with no unique index, so two concurrent registrations of one email can both be stored.
- `JobController.ApplyJob`: modelled as the insert it issues. As written, the line `await` sits on a synchronous pymongo `insert_one` result. With a pymongo collection, as in config.py, that `await` raises `TypeError` after the insert.
- `JobController.GetApplicantsForJob`: modelled as the scan it issues. As written, it iterates a synchronous pymongo cursor with `async for`, which raises `TypeError` with a pymongo collection.
- `JobController.GetJobsCreatedByUser`: the same `async for` over a pymongo cursor is not modelled.
- config.py as shown defines neither `applications_collection`, `users_collection` nor `interviews_collection`. Neither does utils/pymango_wrappers.py define `convert_objectids`. The model takes the first three to be collections like the others. `JsonValues.ConvertObjectIds` is the recursive ObjectId-to-string conversion its name and its use at controllers/job_controller.py:24 describe.
- `VideoController.UploadVideo`: reading the upload and writing the file are one outcome parameter: success, or the exception text. Partial writes are not modelled. `makedirs` failures are not modelled: permissions, or a file where a directory should be.
- Paths are compared as strings: `..`, `.` and doubled slashes are not resolved.
- `ScheduleController.InterviewRecord`: `created_at` is a parameter standing for `datetime.utcnow().isoformat()`. The same holds for `time.time()` in `JobController.ApplicationRecord`.
- The `/me` and `/protected` routes and `get_current_user` (JWT decoding) are not modelled: they are outside the core routes.
- controllers/speech_controller.py, main.py and routes/ are not modelled: they hold router wiring and a separate speech service.
- The `print` calls of the Gemini-backed functions are not modelled: they write to standard output only.
- The second set of `Experience`/`Education`/`Resume` classes in services/parsers.py (lines 89-158) is not represented. No model refers to it: `ResumeDocument` is declared before it and binds to the first set.
