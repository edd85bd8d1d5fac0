/** controllers/assessment_controller.py: reading a stored assessment, and
    assessing a stored resume against a stored job description, which stores
    the result as a new assessment. */
module AssessmentController {
  import opened Wrappers
  import opened PyStrings
  import opened ObjectIds
  import opened JsonValues
  import opened Http
  import opened External
  import opened Schemas
  import opened Store
  import opened CandidateAssessment

  /** `get_assessment`: the stored record, its `_id` turned into the id string. */
  method GetAssessment(assessments: Collection, assessmentId: string) returns (r: Result<Doc, Exception>)
    requires assessments.Valid()
    ensures !IsValidObjectId(assessmentId) ==> r == Err(HTTPException(400, "Invalid assessment ID"))
    ensures IsValidObjectId(assessmentId) && ParseObjectId(assessmentId) !in assessments.docs ==>
              r == Err(HTTPException(404, "Assessment not found"))
    ensures IsValidObjectId(assessmentId) && ParseObjectId(assessmentId) in assessments.docs ==>
              r == Ok(assessments.docs[ParseObjectId(assessmentId)]["_id" := JStr(Lower(assessmentId))])
  {
    if !IsValidObjectId(assessmentId) {
      return Err(HTTPException(400, "Invalid assessment ID"));
    }
    var id := ParseObjectId(assessmentId);
    assessments.FindById(id);
    var hit := assessments.FindOne("_id", JOid(id));
    if hit.None? {
      return Err(HTTPException(404, "Assessment not found"));
    }
    IdStringOfParsed(assessmentId);
    return Ok(assessments.docs[hit.value]["_id" := JStr(IdString(hit.value))]);
  }

  /** The record stored for an assessment: its fields, the two ids as given, and
      the job description it was made against. */
  function AssessmentRecord(a: AssessmentResult, resumeId: string, jobId: string, jd: JobDescription): (d: Doc)
    ensures "_id" !in d
    ensures "resume_id" in d && d["resume_id"] == JStr(resumeId)
    ensures "job_id" in d && d["job_id"] == JStr(jobId)
    ensures "job_description" in d && d["job_description"] == DumpJobDescription(jd)
  {
    DumpAssessmentResult(a).fields["resume_id" := JStr(resumeId)]["job_id" := JStr(jobId)]
      ["job_description" := DumpJobDescription(jd)]
  }

  /** The stored record validates back to the assessment. */
  lemma AssessmentRecordRoundTrip(a: AssessmentResult, resumeId: string, jobId: string, jd: JobDescription)
    ensures ValidateAssessmentResult(JObj(AssessmentRecord(a, resumeId, jobId, jd))) == Ok(a)
  {
    AssessmentResultRoundTrip(a);
    AddedKeysAreNew(a);
    RecordKeepsFields(DumpAssessmentResult(a).fields, AssessmentRecord(a, resumeId, jobId, jd),
                      JStr(resumeId), JStr(jobId), DumpJobDescription(jd));
    AssessmentIgnoresExtra(a, AssessmentRecord(a, resumeId, jobId, jd));
  }

  /** Its job description validates back to the job description it was made against. */
  lemma AssessmentRecordJobDescription(a: AssessmentResult, resumeId: string, jobId: string, jd: JobDescription)
    ensures ValidateJobDescription(AssessmentRecord(a, resumeId, jobId, jd)["job_description"]) == Ok(jd)
  {
    JobDescriptionRoundTrip(jd, map[]);
    assert JobDescriptionFields(jd) + map[] == JobDescriptionFields(jd);
  }

  lemma RecordKeepsFields(o: Doc, d: Doc, x: Json, y: Json, z: Json)
    requires "resume_id" !in o && "job_id" !in o && "job_description" !in o
    requires d == o["resume_id" := x]["job_id" := y]["job_description" := z]
    ensures forall k :: k in o ==> k in d && d[k] == o[k]
  {
  }

  /** The three keys the record adds are none of the assessment's own. */
  lemma AddedKeysAreNew(a: AssessmentResult)
    ensures "resume_id" !in DumpAssessmentResult(a).fields
    ensures "job_id" !in DumpAssessmentResult(a).fields
    ensures "job_description" !in DumpAssessmentResult(a).fields
  {
  }

  /** Keys beyond the twelve assessment fields do not change the validated result. */
  lemma AssessmentIgnoresExtra(a: AssessmentResult, d: Doc)
    requires ValidateAssessmentResult(DumpAssessmentResult(a)) == Ok(a)
    requires forall k :: k in DumpAssessmentResult(a).fields ==> k in d && d[k] == DumpAssessmentResult(a).fields[k]
    ensures ValidateAssessmentResult(JObj(d)) == Ok(a)
  {
    var o := DumpAssessmentResult(a).fields;
    assert Req(d, "candidate_name", AsStr) == Req(o, "candidate_name", AsStr);
    assert Req(d, "job_title", AsStr) == Req(o, "job_title", AsStr);
    assert Req(d, "overall_match_score", AsScore) == Req(o, "overall_match_score", AsScore);
    assert Req(d, "skills_match_score", AsScore) == Req(o, "skills_match_score", AsScore);
    assert Req(d, "experience_match_score", AsScore) == Req(o, "experience_match_score", AsScore);
    assert Req(d, "education_match_score", AsScore) == Req(o, "education_match_score", AsScore);
    assert Req(d, "matched_skills", StrList) == Req(o, "matched_skills", StrList);
    assert Req(d, "missing_skills", StrList) == Req(o, "missing_skills", StrList);
    assert Req(d, "strengths", StrList) == Req(o, "strengths", StrList);
    assert Req(d, "weaknesses", StrList) == Req(o, "weaknesses", StrList);
    assert Req(d, "recommendation", AsStr) == Req(o, "recommendation", AsStr);
    assert Req(d, "detailed_analysis", AsStr) == Req(o, "detailed_analysis", AsStr);
  }

  /** What `assess_candidate` has computed when it reaches the insert. */
  datatype Prepared = Prepared(assessment: AssessmentResult, record: Doc)

  const Prefix := "Assessment failed: "

  /** Everything `assess_candidate` does before the insert: the id checks, the two
      lookups, the schema checks on the stripped documents and the fitment call.
      Every failure is an HTTP error; a non-HTTP one becomes a 500. */
  function PrepareAssessment(svc: Services, resumes: map<ObjectId, Doc>, jds: map<ObjectId, Doc>,
                             resumeId: string, jobId: string): (r: Result<Prepared, Exception>)
    ensures r.Err? ==> r.error.HTTPException?
    ensures !IsValidObjectId(resumeId) ==> r == Err(HTTPException(400, "Invalid resume ID"))
    ensures IsValidObjectId(resumeId) && !IsValidObjectId(jobId) ==> r == Err(HTTPException(400, "Invalid job ID"))
    ensures IsValidObjectId(resumeId) && IsValidObjectId(jobId) && ParseObjectId(resumeId) !in resumes ==>
              r == Err(HTTPException(404, "Resume not found"))
    ensures IsValidObjectId(resumeId) && IsValidObjectId(jobId) && ParseObjectId(resumeId) in resumes
            && ParseObjectId(jobId) !in jds ==>
              r == Err(HTTPException(404, "Job description not found"))
  {
    if !IsValidObjectId(resumeId) then Err(HTTPException(400, "Invalid resume ID"))
    else if !IsValidObjectId(jobId) then Err(HTTPException(400, "Invalid job ID"))
    else if ParseObjectId(resumeId) !in resumes then Err(HTTPException(404, "Resume not found"))
    else if ParseObjectId(jobId) !in jds then Err(HTTPException(404, "Job description not found"))
    else AssessFetched(svc, Without(resumes[ParseObjectId(resumeId)], InternalKeys),
                       Without(jds[ParseObjectId(jobId)], InternalKeys), resumeId, jobId)
  }

  /** The part of `assess_candidate` after both documents are fetched and stripped:
      the two schema checks and the fitment call. */
  function AssessFetched(svc: Services, resumeData: Doc, jobData: Doc, resumeId: string, jobId: string)
    : (r: Result<Prepared, Exception>)
    ensures r.Err? ==> r.error.HTTPException?
    ensures r.Ok? ==> "_id" !in r.value.record
  {
    match ValidateResumeDocument(JObj(resumeData))
    case Err(e) => Err(Wrap(Prefix, Raised(e)))
    case Ok(rd) =>
      match ValidateJobDescription(JObj(jobData))
      case Err(e) => Err(Wrap(Prefix, Raised(e)))
      case Ok(jd) =>
        match AssessCandidateFitment(svc, jd, rd)
        case Err(e) => Err(Wrap(Prefix, e))
        case Ok(a) => Ok(Prepared(a, AssessmentRecord(a, resumeId, jobId, jd)))
  }

  /** The response of a successful assessment. */
  function AssessResponse(a: AssessmentResult, id: ObjectId): Doc {
    map["message" := JStr("Assessment completed"), "assessment_id" := JStr(IdString(id)),
        "assessment" := DumpAssessmentResult(a)]
  }

  /** `assess_candidate`, with `newId` the ObjectId the driver generates for the
      insert. It inserts exactly one record on success and nothing otherwise. */
  method AssessCandidate(svc: Services, resumes: Collection, jds: Collection, assessments: Collection,
                         resumeId: string, jobId: string, newId: ObjectId) returns (r: Result<Doc, Exception>)
    requires resumes.Valid() && jds.Valid() && assessments.Valid()
    requires assessments != resumes && assessments != jds
    modifies assessments
    ensures assessments.Valid()
    ensures var p := PrepareAssessment(svc, resumes.docs, jds.docs, resumeId, jobId);
            if p.Err? || newId in old(assessments.docs) then
              && assessments.docs == old(assessments.docs) && assessments.order == old(assessments.order)
              && r == Err(if p.Err? then p.error else HTTPException(500, Prefix + DuplicateKeyError))
            else
              && assessments.docs == old(assessments.docs)[newId := p.value.record["_id" := JOid(newId)]]
              && assessments.order == old(assessments.order) + [newId]
              && r == Ok(AssessResponse(p.value.assessment, newId))
  {
    if !IsValidObjectId(resumeId) {
      return Err(HTTPException(400, "Invalid resume ID"));
    }
    if !IsValidObjectId(jobId) {
      return Err(HTTPException(400, "Invalid job ID"));
    }
    var rid := ParseObjectId(resumeId);
    var jid := ParseObjectId(jobId);
    resumes.FindById(rid);
    jds.FindById(jid);
    var resumeHit := resumes.FindOne("_id", JOid(rid));
    if resumeHit.None? {
      return Err(HTTPException(404, "Resume not found"));
    }
    var jobHit := jds.FindOne("_id", JOid(jid));
    if jobHit.None? {
      return Err(HTTPException(404, "Job description not found"));
    }
    var resumeData, jobData := PopKeys(resumes.docs[rid], jds.docs[jid], InternalKeyList);
    assert PrepareAssessment(svc, resumes.docs, jds.docs, resumeId, jobId)
        == AssessFetched(svc, resumeData, jobData, resumeId, jobId);
    r := AssessAndInsert(svc, assessments, resumeData, jobData, resumeId, jobId, newId);
  }

  /** The rest of `assess_candidate` once both documents are fetched and stripped:
      validate them and assess (`AssessFetched`), then insert the record and answer. */
  method AssessAndInsert(svc: Services, assessments: Collection, resumeData: Doc, jobData: Doc,
                         resumeId: string, jobId: string, newId: ObjectId) returns (r: Result<Doc, Exception>)
    requires assessments.Valid()
    modifies assessments
    ensures assessments.Valid()
    ensures var p := AssessFetched(svc, resumeData, jobData, resumeId, jobId);
            if p.Err? || newId in old(assessments.docs) then
              && assessments.docs == old(assessments.docs) && assessments.order == old(assessments.order)
              && r == Err(if p.Err? then p.error else HTTPException(500, Prefix + DuplicateKeyError))
            else
              && assessments.docs == old(assessments.docs)[newId := p.value.record["_id" := JOid(newId)]]
              && assessments.order == old(assessments.order) + [newId]
              && r == Ok(AssessResponse(p.value.assessment, newId))
  {
    var p := AssessFetched(svc, resumeData, jobData, resumeId, jobId);
    if p.Err? {
      return Err(p.error);
    }
    var refused := HTTPException(500, Prefix + DuplicateKeyError);
    assert Wrap(Prefix, Raised(DuplicateKeyError)) == refused;
    r := assessments.InsertThen(newId, p.value.record, refused,
                                AssessResponse(p.value.assessment, newId));
  }
}
