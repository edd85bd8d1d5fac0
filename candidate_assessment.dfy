/** The fitment assessment of services/candidate_assessment.py: the
    `AssessmentResult` schema and the single Gemini call that produces one. */
module CandidateAssessment {
  import opened Wrappers
  import opened PyStrings
  import opened JsonValues
  import opened Http
  import opened External
  import opened Schemas

  /** A match score: `float = Field(..., ge=0, le=100)`. */
  type Score = x: real | 0.0 <= x <= 100.0

  datatype AssessmentResult = AssessmentResult(
    candidateName: string, jobTitle: string,
    overallMatchScore: Score, skillsMatchScore: Score,
    experienceMatchScore: Score, educationMatchScore: Score,
    matchedSkills: seq<string>, missingSkills: seq<string>,
    strengths: seq<string>, weaknesses: seq<string>,
    recommendation: string, detailedAnalysis: string)

  function AsScore(j: Json): (r: Result<Score, string>)
    ensures r.Ok? <==> j.JNum? && 0.0 <= j.n <= 100.0
    ensures r.Ok? ==> r.value == j.n
  {
    if !j.JNum? then Err("Input should be a valid number")
    else if j.n < 0.0 then Err("Input should be greater than or equal to 0")
    else if j.n > 100.0 then Err("Input should be less than or equal to 100")
    else Ok(j.n)
  }

  predicate TextField(o: Doc, key: string) {
    key in o && o[key].JStr?
  }

  predicate ListField(o: Doc, key: string) {
    key in o && StrList(o[key]).Ok?
  }

  predicate ScoreField(o: Doc, key: string) {
    key in o && o[key].JNum? && 0.0 <= o[key].n <= 100.0
  }

  /** What the validator accepts: every one of the twelve fields present, four
      strings, four lists of strings and four numbers in [0, 100]. */
  predicate WellFormedResult(o: Doc) {
    TextField(o, "candidate_name") && TextField(o, "job_title")
    && ScoreField(o, "overall_match_score") && ScoreField(o, "skills_match_score")
    && ScoreField(o, "experience_match_score") && ScoreField(o, "education_match_score")
    && ListField(o, "matched_skills") && ListField(o, "missing_skills")
    && ListField(o, "strengths") && ListField(o, "weaknesses")
    && TextField(o, "recommendation") && TextField(o, "detailed_analysis")
  }

  function ValidateAssessmentResult(j: Json): (r: Result<AssessmentResult, string>)
    ensures r.Ok? ==> j.JObj? && WellFormedResult(j.fields)
  {
    var o :- AsObj(j);
    var name :- Req(o, "candidate_name", AsStr);
    var title :- Req(o, "job_title", AsStr);
    var overall :- Req(o, "overall_match_score", AsScore);
    var skills :- Req(o, "skills_match_score", AsScore);
    var experience :- Req(o, "experience_match_score", AsScore);
    var education :- Req(o, "education_match_score", AsScore);
    var matched :- Req(o, "matched_skills", StrList);
    var missing :- Req(o, "missing_skills", StrList);
    var strengths :- Req(o, "strengths", StrList);
    var weaknesses :- Req(o, "weaknesses", StrList);
    var recommendation :- Req(o, "recommendation", AsStr);
    var analysis :- Req(o, "detailed_analysis", AsStr);
    Ok(AssessmentResult(name, title, overall, skills, experience, education,
                        matched, missing, strengths, weaknesses, recommendation, analysis))
  }

  /** Every object with the twelve well-typed fields is accepted. */
  lemma WellFormedAccepted(o: Doc)
    requires WellFormedResult(o)
    ensures ValidateAssessmentResult(JObj(o)).Ok?
  {
  }

  function DumpAssessmentResult(a: AssessmentResult): Json {
    JObj(map[
      "candidate_name" := JStr(a.candidateName), "job_title" := JStr(a.jobTitle),
      "overall_match_score" := JNum(a.overallMatchScore),
      "skills_match_score" := JNum(a.skillsMatchScore),
      "experience_match_score" := JNum(a.experienceMatchScore),
      "education_match_score" := JNum(a.educationMatchScore),
      "matched_skills" := StrListJson(a.matchedSkills),
      "missing_skills" := StrListJson(a.missingSkills),
      "strengths" := StrListJson(a.strengths),
      "weaknesses" := StrListJson(a.weaknesses),
      "recommendation" := JStr(a.recommendation),
      "detailed_analysis" := JStr(a.detailedAnalysis)])
  }

  lemma AssessmentResultFromFields(o: Doc, a: AssessmentResult)
    requires Req(o, "candidate_name", AsStr) == Ok(a.candidateName)
    requires Req(o, "job_title", AsStr) == Ok(a.jobTitle)
    requires Req(o, "overall_match_score", AsScore) == Ok(a.overallMatchScore)
    requires Req(o, "skills_match_score", AsScore) == Ok(a.skillsMatchScore)
    requires Req(o, "experience_match_score", AsScore) == Ok(a.experienceMatchScore)
    requires Req(o, "education_match_score", AsScore) == Ok(a.educationMatchScore)
    requires Req(o, "matched_skills", StrList) == Ok(a.matchedSkills)
    requires Req(o, "missing_skills", StrList) == Ok(a.missingSkills)
    requires Req(o, "strengths", StrList) == Ok(a.strengths)
    requires Req(o, "weaknesses", StrList) == Ok(a.weaknesses)
    requires Req(o, "recommendation", AsStr) == Ok(a.recommendation)
    requires Req(o, "detailed_analysis", AsStr) == Ok(a.detailedAnalysis)
    ensures ValidateAssessmentResult(JObj(o)) == Ok(a)
  {
  }

  lemma AssessmentTextFields(a: AssessmentResult)
    ensures Req(DumpAssessmentResult(a).fields, "candidate_name", AsStr) == Ok(a.candidateName)
    ensures Req(DumpAssessmentResult(a).fields, "job_title", AsStr) == Ok(a.jobTitle)
    ensures Req(DumpAssessmentResult(a).fields, "recommendation", AsStr) == Ok(a.recommendation)
    ensures Req(DumpAssessmentResult(a).fields, "detailed_analysis", AsStr) == Ok(a.detailedAnalysis)
  {
  }

  lemma AssessmentScoreFields(a: AssessmentResult)
    ensures Req(DumpAssessmentResult(a).fields, "overall_match_score", AsScore) == Ok(a.overallMatchScore)
    ensures Req(DumpAssessmentResult(a).fields, "skills_match_score", AsScore) == Ok(a.skillsMatchScore)
    ensures Req(DumpAssessmentResult(a).fields, "experience_match_score", AsScore) == Ok(a.experienceMatchScore)
    ensures Req(DumpAssessmentResult(a).fields, "education_match_score", AsScore) == Ok(a.educationMatchScore)
  {
  }

  lemma AssessmentListFields(a: AssessmentResult)
    ensures Req(DumpAssessmentResult(a).fields, "matched_skills", StrList) == Ok(a.matchedSkills)
    ensures Req(DumpAssessmentResult(a).fields, "missing_skills", StrList) == Ok(a.missingSkills)
    ensures Req(DumpAssessmentResult(a).fields, "strengths", StrList) == Ok(a.strengths)
    ensures Req(DumpAssessmentResult(a).fields, "weaknesses", StrList) == Ok(a.weaknesses)
  {
    StrListRoundTrip(a.matchedSkills);
    StrListRoundTrip(a.missingSkills);
    StrListRoundTrip(a.strengths);
    StrListRoundTrip(a.weaknesses);
  }

  lemma AssessmentResultRoundTrip(a: AssessmentResult)
    ensures ValidateAssessmentResult(DumpAssessmentResult(a)) == Ok(a)
  {
    AssessmentTextFields(a);
    AssessmentScoreFields(a);
    AssessmentListFields(a);
    AssessmentResultFromFields(DumpAssessmentResult(a).fields, a);
  }

  /** A score outside [0, 100] is refused whatever the other fields hold. */
  lemma ScoreOutOfRange(o: Doc, key: string, x: real)
    requires key in {"overall_match_score", "skills_match_score", "experience_match_score", "education_match_score"}
    requires key in o && o[key] == JNum(x)
    requires x < 0.0 || x > 100.0
    ensures ValidateAssessmentResult(JObj(o)).Err?
  {
  }

  /** The request text: the job description's JSON first, then the resume's. */
  function FitmentContents(svc: Services, jd: JobDescription, rd: ResumeDocument): (c: string)
    ensures StartsWith(c, "Job Description: " + svc.modelDumpJson(DumpJobDescription(jd)))
    ensures EndsWith(c, " Candidate Resume: " + svc.modelDumpJson(DumpResumeDocument(rd)))
  {
    var jdJson := svc.modelDumpJson(DumpJobDescription(jd));
    var resumeJson := svc.modelDumpJson(DumpResumeDocument(rd));
    var c := "Job Description: " + jdJson + " Candidate Resume: " + resumeJson;
    assert c[..|"Job Description: " + jdJson|] == "Job Description: " + jdJson;
    assert c[|c| - |" Candidate Resume: " + resumeJson|..] == " Candidate Resume: " + resumeJson;
    c
  }

  /** `assess_candidate_fitment`: one Gemini call, the reply validated once as an
      `AssessmentResult` with no clean-up or repair; any failure is a 500 whose
      detail starts "Assessment failed: ". */
  function AssessCandidateFitment(svc: Services, jd: JobDescription, rd: ResumeDocument): (r: Result<AssessmentResult, Exception>)
    ensures r.Err? ==>
              r.error.HTTPException? && r.error.status == 500
              && StartsWith(r.error.detail, "Assessment failed: ")
  {
    var prefix := "Assessment failed: ";
    match svc.generate(FitmentAssessment, FitmentContents(svc, jd, rd))
    case Failed(m) => Err(HTTPException(500, prefix + m))
    case Answered(text) =>
      match ValidateText(svc, text, ValidateAssessmentResult)
      case Ok(a) => Ok(a)
      case Err(e) => Err(HTTPException(500, prefix + e))
  }

  /** The assessment succeeds exactly when Gemini answers with text that parses as
      JSON and validates as an assessment; there is no second attempt. */
  lemma FitmentOutcome(svc: Services, jd: JobDescription, rd: ResumeDocument)
    ensures AssessCandidateFitment(svc, jd, rd).Ok? <==>
              svc.generate(FitmentAssessment, FitmentContents(svc, jd, rd)).Answered?
              && svc.parseJson(svc.generate(FitmentAssessment, FitmentContents(svc, jd, rd)).text).Some?
              && ValidateAssessmentResult(svc.parseJson(svc.generate(FitmentAssessment, FitmentContents(svc, jd, rd)).text).value).Ok?
  {
  }

  /** The reply is used as it is: text that is the JSON of an assessment gives
      that assessment. */
  lemma FitmentOfReply(svc: Services, jd: JobDescription, rd: ResumeDocument, text: string, a: AssessmentResult)
    requires svc.generate(FitmentAssessment, FitmentContents(svc, jd, rd)) == Answered(text)
    requires svc.parseJson(text) == Some(DumpAssessmentResult(a))
    ensures AssessCandidateFitment(svc, jd, rd) == Ok(a)
  {
    AssessmentResultRoundTrip(a);
  }
}
