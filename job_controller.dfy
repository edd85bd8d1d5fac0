/** controllers/job_controller.py: reading and uploading job descriptions,
    applying to a job, and the two listings over the applications and job
    descriptions collections. */
module JobController {
  import opened Wrappers
  import opened PyStrings
  import opened ObjectIds
  import opened JsonValues
  import opened Http
  import opened External
  import opened Schemas
  import opened Store
  import opened Parsers
  import opened Uploads

  /** `get_jd`: the id is stripped first; the stored document comes back with every
      ObjectId in it, `_id` included, turned into its string. */
  method GetJd(jds: Collection, jobId: string) returns (r: Result<Json, Exception>)
    requires jds.Valid()
    ensures !IsValidObjectId(Strip(jobId)) ==> r == Err(HTTPException(400, "Invalid job ID"))
    ensures IsValidObjectId(Strip(jobId)) && ParseObjectId(Strip(jobId)) !in jds.docs ==>
              r == Err(HTTPException(404, "Job description not found"))
    ensures IsValidObjectId(Strip(jobId)) && ParseObjectId(Strip(jobId)) in jds.docs ==>
              r == Ok(ConvertObjectIds(JObj(jds.docs[ParseObjectId(Strip(jobId))])))
  {
    var id := Strip(jobId);
    if !IsValidObjectId(id) {
      return Err(HTTPException(400, "Invalid job ID"));
    }
    var oid := ParseObjectId(id);
    jds.FindById(oid);
    var hit := jds.FindOne("_id", JOid(oid));
    if hit.None? {
      return Err(HTTPException(404, "Job description not found"));
    }
    return Ok(ConvertObjectIds(JObj(jds.docs[hit.value])));
  }

  /** What `get_jd` returns for a stored document holds no ObjectId, and its `_id`
      is the document's id as a string. */
  lemma ReadJdShape(jds: Collection, id: ObjectId)
    requires jds.Valid() && id in jds.docs
    ensures !HasObjectId(ConvertObjectIds(JObj(jds.docs[id])))
    ensures "_id" in ConvertObjectIds(JObj(jds.docs[id])).fields
    ensures ConvertObjectIds(JObj(jds.docs[id])).fields["_id"] == JStr(IdString(id))
  {
  }

  // ------------------------------------------------------------------ upload_jd

  const UploadJdPrefix := "Job description upload failed: "

  /** The document `upload_jd` stores: the parsed job description with its
      difficulty, the file name, the text, and the uploader as an ObjectId. */
  function JdRecord(p: ParsedJobDescription, filename: string, text: string, user: ObjectId): (d: Doc)
    ensures "_id" !in d
  {
    ParsedFieldsNotInternal(p);
    UploadedRecord(DumpParsedJobDescription(p).fields, filename, text) + map["user_id" := JOid(user)]
  }

  lemma ParsedFieldsNotInternal(p: ParsedJobDescription)
    ensures DumpParsedJobDescription(p).fields.Keys !! InternalKeys
  {
  }

  datatype JdUpload = JdUpload(parsed: ParsedJobDescription, record: Doc)

  /** Everything `upload_jd` does before the insert: the user id, then the file
      name, then the PDF text, which must not be blank, then the parse. Every
      failure is an HTTP error. */
  function PrepareJdUpload(svc: Services, userId: string, filename: string, pages: Result<string, string>)
    : (r: Result<JdUpload, Exception>)
    ensures r.Err? ==> r.error.HTTPException?
    ensures !IsValidObjectId(userId) ==> r == Err(HTTPException(400, "Invalid user_id"))
    ensures IsValidObjectId(userId) && !IsPdfName(filename) ==> r == Err(HTTPException(400, "Only PDF files allowed"))
    ensures IsValidObjectId(userId) && IsPdfName(filename) && pages.Ok? && AllSpace(pages.value) ==>
              r == Err(HTTPException(400, "Empty PDF text extracted"))
  {
    if !IsValidObjectId(userId) then Err(HTTPException(400, "Invalid user_id"))
    else if !IsPdfName(filename) then Err(HTTPException(400, "Only PDF files allowed"))
    else match ExtractTextFromPdf(pages)
      case Err(e) => Err(Wrap(UploadJdPrefix, e))
      case Ok(text) =>
        if Strip(text) == [] then Err(HTTPException(400, "Empty PDF text extracted"))
        else JdFromText(svc, filename, text, ParseObjectId(userId))
  }

  /** The parse of a non-blank text and the record built from it. */
  function JdFromText(svc: Services, filename: string, text: string, user: ObjectId): (r: Result<JdUpload, Exception>)
    ensures r.Err? ==> r.error.HTTPException?
  {
    match ParseJdWithGemini(svc, text)
    case Err(e) => Err(Wrap(UploadJdPrefix, e))
    case Ok(p) => Ok(JdUpload(p, JdRecord(p, filename, text, user)))
  }

  /** An upload is stored exactly when the user id and the file name are valid,
      the PDF text is not blank and the parse succeeds; what is stored is then the
      parsed job description with the upload's fields. */
  lemma PreparedJdUpload(svc: Services, userId: string, filename: string, pages: Result<string, string>)
    ensures var r := PrepareJdUpload(svc, userId, filename, pages);
            && (r.Ok? <==>
                  IsValidObjectId(userId) && IsPdfName(filename) && pages.Ok? && !AllSpace(pages.value)
                  && ParseJdWithGemini(svc, pages.value).Ok?)
            && (r.Ok? ==>
                  && r.value.parsed == ParseJdWithGemini(svc, pages.value).value
                  && r.value.record == JdRecord(r.value.parsed, filename, pages.value, ParseObjectId(userId)))
  {
  }

  function JdUploadResponse(p: ParsedJobDescription, id: ObjectId, userId: string): Doc {
    map["message" := JStr("Job description parsed and stored"), "jd_id" := JStr(IdString(id)),
        "job_title" := JStr(p.jd.jobTitle), "user_id" := JStr(userId)]
  }

  /** `upload_jd`, with `pages` what the PDF library read from the file and `newId`
      the ObjectId the driver generates. One document is inserted on success and
      none otherwise. */
  method UploadJd(svc: Services, jds: Collection, userId: string, filename: string,
                  pages: Result<string, string>, newId: ObjectId) returns (r: Result<Doc, Exception>)
    requires jds.Valid()
    modifies jds
    ensures jds.Valid()
    ensures var p := PrepareJdUpload(svc, userId, filename, pages);
            if p.Err? || newId in old(jds.docs) then
              && jds.docs == old(jds.docs) && jds.order == old(jds.order)
              && r == Err(if p.Err? then p.error else HTTPException(500, UploadJdPrefix + DuplicateKeyError))
            else
              && jds.docs == old(jds.docs)[newId := p.value.record["_id" := JOid(newId)]]
              && jds.order == old(jds.order) + [newId]
              && r == Ok(JdUploadResponse(p.value.parsed, newId, userId))
  {
    if !IsValidObjectId(userId) {
      return Err(HTTPException(400, "Invalid user_id"));
    }
    if !IsPdfName(filename) {
      return Err(HTTPException(400, "Only PDF files allowed"));
    }
    var text := ExtractTextFromPdf(pages);
    if text.Err? {
      return Err(Wrap(UploadJdPrefix, text.error));
    }
    if Strip(text.value) == [] {
      return Err(HTTPException(400, "Empty PDF text extracted"));
    }
    assert PrepareJdUpload(svc, userId, filename, pages) == JdFromText(svc, filename, text.value, ParseObjectId(userId));
    r := StoreJdText(svc, jds, filename, text.value, ParseObjectId(userId), userId, newId);
  }

  /** The rest of `upload_jd` once the text is known not to be blank: parse it,
      build the record, insert it and answer. */
  method StoreJdText(svc: Services, jds: Collection, filename: string, text: string, user: ObjectId,
                     userId: string, newId: ObjectId) returns (r: Result<Doc, Exception>)
    requires jds.Valid()
    modifies jds
    ensures jds.Valid()
    ensures var p := JdFromText(svc, filename, text, user);
            if p.Err? || newId in old(jds.docs) then
              && jds.docs == old(jds.docs) && jds.order == old(jds.order)
              && r == Err(if p.Err? then p.error else HTTPException(500, UploadJdPrefix + DuplicateKeyError))
            else
              && jds.docs == old(jds.docs)[newId := p.value.record["_id" := JOid(newId)]]
              && jds.order == old(jds.order) + [newId]
              && r == Ok(JdUploadResponse(p.value.parsed, newId, userId))
  {
    var parsed := ParseJdWithGemini(svc, text);
    if parsed.Err? {
      return Err(Wrap(UploadJdPrefix, parsed.error));
    }
    var record := JdRecord(parsed.value, filename, text, user);
    var refused := HTTPException(500, UploadJdPrefix + DuplicateKeyError);
    assert Wrap(UploadJdPrefix, Raised(DuplicateKeyError)) == refused;
    r := jds.InsertThen(newId, record, refused,
                        JdUploadResponse(parsed.value, newId, userId));
  }

  /** A stored upload, once its internal keys are stripped, validates back to the
      parsed job description; the uploader's id and the difficulty stay behind as
      extra keys, which the job-description schema ignores. */
  lemma UploadedJdReadsBack(p: ParsedJobDescription, filename: string, text: string, user: ObjectId, id: ObjectId)
    ensures ValidateJobDescription(JObj(Without(JdRecord(p, filename, text, user)["_id" := JOid(id)], InternalKeys)))
            == Ok(p.jd)
  {
    var extra := map["user_id" := JOid(user)];
    var difficulty := JStr(DifficultyName(p.interviewDifficulty));
    ParsedFieldsNotInternal(p);
    assert extra.Keys !! InternalKeys;
    StrippedUpload(DumpParsedJobDescription(p).fields, filename, text, extra, id);
    UpdateIsUnion(JdRecord(p, filename, text, user), "_id", JOid(id));
    TwoKeys(JobDescriptionFields(p.jd), "interview_difficulty", difficulty, "user_id", JOid(user));
    ExtraKeysAreNew(p.jd, difficulty, JOid(user));
    JobDescriptionRoundTrip(p.jd, map["interview_difficulty" := difficulty, "user_id" := JOid(user)]);
  }

  lemma UpdateIsUnion(m: Doc, k: string, v: Json)
    ensures m[k := v] == m + map[k := v]
  {
  }

  lemma TwoKeys(m: Doc, a: string, x: Json, b: string, y: Json)
    requires a != b
    ensures m[a := x] + map[b := y] == m + map[a := x, b := y]
  {
  }

  lemma ExtraKeysAreNew(jd: JobDescription, x: Json, y: Json)
    ensures map["interview_difficulty" := x, "user_id" := y].Keys !! JobDescriptionFields(jd).Keys
  {
  }

  // ------------------------------------------------------------------ apply_job

  /** The application `apply_job` stores: the three ids, the literal status
      "rejected" and the time of the request. */
  function ApplicationRecord(user: ObjectId, resume: ObjectId, job: ObjectId, now: real): (d: Doc)
    ensures "_id" !in d
  {
    map["user_id" := JOid(user), "resume_id" := JOid(resume), "job_id" := JOid(job),
        "status" := JStr("rejected"), "application_date" := JNum(now)]
  }

  /** `apply_job`, with `now` the value of `time.time()`. The ids are checked in the
      order user, resume, job; neither the resume nor the job is looked up. There
      is no handler around the insert, so a refused insert is an uncaught error. */
  method ApplyJob(applications: Collection, userId: string, resumeId: string, jobId: string,
                  now: real, newId: ObjectId) returns (r: Result<Doc, Exception>)
    requires applications.Valid()
    modifies applications
    ensures applications.Valid()
    ensures !IsValidObjectId(userId) ==> r == Err(HTTPException(400, "Invalid user_id"))
    ensures IsValidObjectId(userId) && !IsValidObjectId(resumeId) ==> r == Err(HTTPException(400, "Invalid resume_id"))
    ensures IsValidObjectId(userId) && IsValidObjectId(resumeId) && !IsValidObjectId(jobId) ==>
              r == Err(HTTPException(400, "Invalid job_id"))
    ensures r.Err? ==> applications.docs == old(applications.docs) && applications.order == old(applications.order)
    ensures IsValidObjectId(userId) && IsValidObjectId(resumeId) && IsValidObjectId(jobId) ==>
              if newId in old(applications.docs) then r == Err(Raised(DuplicateKeyError))
              else
                && applications.docs == old(applications.docs)[newId :=
                     ApplicationRecord(ParseObjectId(userId), ParseObjectId(resumeId), ParseObjectId(jobId), now)["_id" := JOid(newId)]]
                && applications.order == old(applications.order) + [newId]
                && r == Ok(map["application_id" := JStr(IdString(newId)),
                               "status" := JStr("Application submitted successfully")])
  {
    if !IsValidObjectId(userId) {
      return Err(HTTPException(400, "Invalid user_id"));
    }
    if !IsValidObjectId(resumeId) {
      return Err(HTTPException(400, "Invalid resume_id"));
    }
    if !IsValidObjectId(jobId) {
      return Err(HTTPException(400, "Invalid job_id"));
    }
    var record := ApplicationRecord(ParseObjectId(userId), ParseObjectId(resumeId), ParseObjectId(jobId), now);
    r := applications.InsertThen(newId, record, Raised(DuplicateKeyError),
                                 map["application_id" := JStr(IdString(newId)),
                                     "status" := JStr("Application submitted successfully")]);
  }

  // ------------------------------------------------------------------ listings

  /** One entry of `get_applicants_for_job`: `str` of the two ids (the text "None"
      when a field is missing) and the status as stored. */
  function ApplicantEntry(svc: Services, d: Doc): Doc {
    map["user_id" := JStr(PyStr(svc, Get(d, "user_id"))),
        "resume_id" := JStr(PyStr(svc, Get(d, "resume_id"))),
        "status" := Get(d, "status")]
  }

  /** `get_applicants_for_job`: one entry per application whose `job_id` is the
      given job, in the collection's natural order. */
  method GetApplicantsForJob(svc: Services, applications: Collection, jobId: string)
    returns (r: Result<seq<Doc>, Exception>)
    requires applications.Valid()
    ensures !IsValidObjectId(jobId) ==> r == Err(HTTPException(400, "Invalid job_id"))
    ensures IsValidObjectId(jobId) ==>
              var hits := applications.Matching(applications.order, "job_id", JOid(ParseObjectId(jobId)));
              && r.Ok? && |r.value| == |hits|
              && forall k :: 0 <= k < |hits| ==> r.value[k] == ApplicantEntry(svc, applications.docs[hits[k]])
  {
    if !IsValidObjectId(jobId) {
      return Err(HTTPException(400, "Invalid job_id"));
    }
    var cursor := applications.Matching(applications.order, "job_id", JOid(ParseObjectId(jobId)));
    var applicants: seq<Doc> := [];
    for i := 0 to |cursor|
      invariant |applicants| == i
      invariant forall k :: 0 <= k < i ==> applicants[k] == ApplicantEntry(svc, applications.docs[cursor[k]])
    {
      applicants := applicants + [ApplicantEntry(svc, applications.docs[cursor[i]])];
    }
    return Ok(applicants);
  }

  /** An application stored by `apply_job` is listed under its job. */
  lemma AppliedIsListed(applications: Collection, id: ObjectId, user: ObjectId, resume: ObjectId, job: ObjectId, now: real)
    requires applications.Valid()
    requires id in applications.docs && applications.docs[id] == ApplicationRecord(user, resume, job, now)["_id" := JOid(id)]
    ensures id in applications.Matching(applications.order, "job_id", JOid(job))
  {
    assert applications.Hit(id, "job_id", JOid(job));
  }

  /** Its entry shows both ids as their 24-digit strings and the status "rejected". */
  lemma AppliedEntry(svc: Services, id: ObjectId, user: ObjectId, resume: ObjectId, job: ObjectId, now: real)
    ensures ApplicantEntry(svc, ApplicationRecord(user, resume, job, now)["_id" := JOid(id)])
            == map["user_id" := JStr(IdString(user)), "resume_id" := JStr(IdString(resume)), "status" := JStr("rejected")]
  {
  }

  /** `get_jobs_created_by_user`: the ids, as strings, of the job descriptions whose
      `creator_user_id` is the given user, in natural order. */
  method GetJobsCreatedByUser(jds: Collection, userId: string) returns (r: Result<seq<string>, Exception>)
    requires jds.Valid()
    ensures !IsValidObjectId(userId) ==> r == Err(HTTPException(400, "Invalid user_id"))
    ensures IsValidObjectId(userId) ==>
              var hits := jds.Matching(jds.order, "creator_user_id", JOid(ParseObjectId(userId)));
              && r.Ok? && |r.value| == |hits|
              && forall k :: 0 <= k < |hits| ==> r.value[k] == IdString(hits[k])
  {
    if !IsValidObjectId(userId) {
      return Err(HTTPException(400, "Invalid user_id"));
    }
    var cursor := jds.Matching(jds.order, "creator_user_id", JOid(ParseObjectId(userId)));
    var jobIds: seq<string> := [];
    for i := 0 to |cursor|
      invariant |jobIds| == i
      invariant forall k :: 0 <= k < i ==> jobIds[k] == IdString(cursor[k])
    {
      jobIds := jobIds + [IdString(jds.docs[cursor[i]]["_id"].oid)];
    }
    return Ok(jobIds);
  }

  /** No document `upload_jd` stores has a `creator_user_id`, so a collection
      filled by it gives every user an empty listing. */
  lemma UploadsHaveNoCreator(jds: Collection, user: ObjectId)
    requires jds.Valid()
    requires forall id :: id in jds.docs ==> "creator_user_id" !in jds.docs[id]
    ensures jds.Matching(jds.order, "creator_user_id", JOid(user)) == []
  {
    var hits := jds.Matching(jds.order, "creator_user_id", JOid(user));
    NonEmptyHasMember(hits);
  }

  lemma NonEmptyHasMember<T>(s: seq<T>)
    ensures s == [] || s[0] in s
  {
  }

  lemma JdRecordHasNoCreator(p: ParsedJobDescription, filename: string, text: string, user: ObjectId, id: ObjectId)
    ensures "creator_user_id" !in JdRecord(p, filename, text, user)["_id" := JOid(id)]
  {
  }

  /** Listing by the field `upload_jd` does write: the ids of the job descriptions
      whose `user_id` is the given user. */
  method GetJobsUploadedByUser(jds: Collection, userId: string) returns (r: Result<seq<string>, Exception>)
    requires jds.Valid()
    ensures !IsValidObjectId(userId) ==> r == Err(HTTPException(400, "Invalid user_id"))
    ensures IsValidObjectId(userId) ==>
              var hits := jds.Matching(jds.order, "user_id", JOid(ParseObjectId(userId)));
              && r.Ok? && |r.value| == |hits|
              && forall k :: 0 <= k < |hits| ==> r.value[k] == IdString(hits[k])
    ensures IsValidObjectId(userId) ==>
              r.Ok? && forall id :: IdString(id) in r.value <==> jds.Hit(id, "user_id", JOid(ParseObjectId(userId)))
  {
    if !IsValidObjectId(userId) {
      return Err(HTTPException(400, "Invalid user_id"));
    }
    var user := JOid(ParseObjectId(userId));
    var cursor := jds.Matching(jds.order, "user_id", user);
    var jobIds: seq<string> := [];
    for i := 0 to |cursor|
      invariant |jobIds| == i
      invariant forall k :: 0 <= k < i ==> jobIds[k] == IdString(cursor[k])
    {
      jobIds := jobIds + [IdString(jds.docs[cursor[i]]["_id"].oid)];
    }
    forall id ensures IdString(id) in jobIds <==> jds.Hit(id, "user_id", user) {
      if IdString(id) in jobIds {
        var k :| 0 <= k < |jobIds| && jobIds[k] == IdString(id);
        assert ParseObjectId(IdString(cursor[k])) == cursor[k];
      }
      if jds.Hit(id, "user_id", user) {
        var k :| 0 <= k < |cursor| && cursor[k] == id;
        assert jobIds[k] == IdString(id);
      }
    }
    return Ok(jobIds);
  }

  /** Every job description a user uploaded is in that user's listing. */
  lemma UploadedJdIsListed(jds: Collection, p: ParsedJobDescription, filename: string, text: string,
                           user: ObjectId, id: ObjectId)
    requires jds.Valid()
    requires id in jds.docs && jds.docs[id] == JdRecord(p, filename, text, user)["_id" := JOid(id)]
    ensures id in jds.Matching(jds.order, "user_id", JOid(user))
  {
    assert jds.Hit(id, "user_id", JOid(user));
  }
}
