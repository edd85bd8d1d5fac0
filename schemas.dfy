/** The pydantic models of `services/parsers.py` for parsed resumes and job
    descriptions, as typed records with a validator (JSON to record, the checks
    pydantic makes) and a dump (`model_dump`, record to JSON).

    `ResumeDocument` is declared before the second set of `Resume`, `Experience`
    and `Education` classes, so it binds to the first set: an experience needs a
    company name and an education entry a degree and a university. The second set
    is referenced by no model and is not represented. The controllers' own copies
    of these classes (and their `JobDescription` without `interview_difficulty`)
    have the same fields and are this module's `JobDescription` and
    `ResumeDocument`. */
module Schemas {
  import opened Wrappers
  import opened JsonValues

  // ---------------------------------------------------------------- field checks

  function AsStr(j: Json): Result<string, string> {
    if j.JStr? then Ok(j.s) else Err("Input should be a valid string")
  }

  function AsObj(j: Json): Result<Doc, string> {
    if j.JObj? then Ok(j.fields) else Err("Input should be a valid dictionary or instance")
  }

  /** Validate every element of a JSON array, stopping at the first failure. */
  function Each<T>(items: seq<Json>, v: Json -> Result<T, string>): (r: Result<seq<T>, string>)
    ensures r.Ok? ==> |r.value| == |items|
    ensures r.Ok? ==> forall i :: 0 <= i < |items| ==> v(items[i]) == Ok(r.value[i])
  {
    if items == [] then Ok([])
    else
      var x :- v(items[0]);
      var rest :- Each(items[1..], v);
      Ok([x] + rest)
  }

  function AsList<T>(j: Json, v: Json -> Result<T, string>): Result<seq<T>, string> {
    if j.JArr? then Each(j.items, v) else Err("Input should be a valid list")
  }

  /** A required field of type `T`. */
  function Req<T>(o: Doc, key: string, v: Json -> Result<T, string>): (r: Result<T, string>)
    ensures r.Ok? ==> key in o && v(o[key]) == r
  {
    if key !in o then Err(key + ": Field required")
    else match v(o[key])
      case Ok(x) => Ok(x)
      case Err(e) => Err(key + ": " + e)
  }

  /** A field of type `T` with a default used when the key is absent. */
  function Def<T>(o: Doc, key: string, v: Json -> Result<T, string>, default: T): (r: Result<T, string>)
    ensures key !in o ==> r == Ok(default)
    ensures key in o && r.Ok? ==> v(o[key]) == r
  {
    if key !in o then Ok(default) else Req(o, key, v)
  }

  /** An `Optional[...] = None` field: absent or `null` gives `None`. */
  function Opt<T>(o: Doc, key: string, v: Json -> Result<T, string>): (r: Result<Option<T>, string>)
    ensures key !in o || o[key] == JNull ==> r == Ok(None)
  {
    if key !in o || o[key] == JNull then Ok(None)
    else var x :- Req(o, key, v); Ok(Some(x))
  }

  function StrList(j: Json): Result<seq<string>, string> {
    AsList(j, AsStr)
  }

  // ---------------------------------------------------------------- dumps

  function OptJson<T>(x: Option<T>, d: T -> Json): Json {
    match x
    case None => JNull
    case Some(v) => d(v)
  }

  function StrJson(s: string): Json {
    JStr(s)
  }

  function OptStrJson(x: Option<string>): Json {
    OptJson(x, StrJson)
  }

  function Dumped<T>(xs: seq<T>, d: T -> Json): (r: seq<Json>)
    ensures |r| == |xs|
  {
    seq(|xs|, i requires 0 <= i < |xs| => d(xs[i]))
  }

  function ListJson<T>(xs: seq<T>, d: T -> Json): Json {
    JArr(Dumped(xs, d))
  }

  function StrListJson(xs: seq<string>): Json {
    ListJson(xs, StrJson)
  }

  /** Validating the dump of a list gives the list back, whenever that holds of
      each element. */
  lemma {:induction false} EachDumped<T>(xs: seq<T>, d: T -> Json, v: Json -> Result<T, string>)
    requires forall x :: x in xs ==> v(d(x)) == Ok(x)
    ensures Each(Dumped(xs, d), v) == Ok(xs)
  {
    if xs != [] {
      assert Dumped(xs, d)[1..] == Dumped(xs[1..], d);
      EachDumped(xs[1..], d, v);
      assert [xs[0]] + xs[1..] == xs;
    }
  }

  lemma StrListRoundTrip(xs: seq<string>)
    ensures StrList(StrListJson(xs)) == Ok(xs)
  {
    EachDumped(xs, StrJson, AsStr);
  }

  lemma OptStrRoundTrip(o: Doc, key: string, x: Option<string>)
    requires key in o && o[key] == OptStrJson(x)
    ensures Opt(o, key, AsStr) == Ok(x)
  {
  }

  // ---------------------------------------------------------------- resume

  datatype ContactInformation = ContactInformation(
    email: Option<string>, phone: Option<string>, linkedIn: Option<string>,
    github: Option<string>, portfolioWebsite: Option<string>)

  datatype Header = Header(fullName: string, contactInformation: ContactInformation)

  datatype Experience = Experience(
    jobTitle: string, companyName: string, location: Option<string>,
    startDate: Option<string>, endDate: Option<string>,
    responsibilities: seq<string>, technologiesUsed: seq<string>)

  datatype Education = Education(
    degree: string, major: Option<string>, university: string, location: Option<string>,
    startDate: Option<string>, endDate: Option<string>, additionalInfo: Option<string>)

  datatype Project = Project(
    projectName: string, description: string, technologiesUsed: seq<string>,
    role: Option<string>, link: Option<string>)

  datatype Certification = Certification(
    certificationName: string, issuingOrganization: string,
    issueDate: Option<string>, expirationDate: Option<string>)

  datatype AwardHonor = AwardHonor(title: string, issuer: string, dateReceived: Option<string>)

  datatype Language = Language(language: string, proficiency: string)

  datatype Resume = Resume(
    header: Header, summary: Option<string>, skills: seq<string>,
    experience: seq<Experience>, education: seq<Education>, projects: seq<Project>,
    certifications: seq<Certification>, awardsAndHonors: seq<AwardHonor>,
    languages: seq<Language>, interests: seq<string>)

  datatype ResumeDocument = ResumeDocument(resume: Resume)

  function ValidateContactInformation(j: Json): Result<ContactInformation, string> {
    var o :- AsObj(j);
    var email :- Opt(o, "email", AsStr);
    var phone :- Opt(o, "phone", AsStr);
    var linkedIn :- Opt(o, "linkedIn", AsStr);
    var github :- Opt(o, "github", AsStr);
    var site :- Opt(o, "portfolio_website", AsStr);
    Ok(ContactInformation(email, phone, linkedIn, github, site))
  }

  function DumpContactInformation(c: ContactInformation): Json {
    JObj(map[
      "email" := OptStrJson(c.email), "phone" := OptStrJson(c.phone),
      "linkedIn" := OptStrJson(c.linkedIn), "github" := OptStrJson(c.github),
      "portfolio_website" := OptStrJson(c.portfolioWebsite)])
  }

  /** A header needs a full name and a contact-information object. */
  function ValidateHeader(j: Json): (r: Result<Header, string>)
    ensures r.Ok? ==> j.JObj? && "full_name" in j.fields && j.fields["full_name"] == JStr(r.value.fullName)
    ensures r.Ok? ==> "contact_information" in j.fields && j.fields["contact_information"].JObj?
  {
    var o :- AsObj(j);
    var name :- Req(o, "full_name", AsStr);
    var contact :- Req(o, "contact_information", ValidateContactInformation);
    Ok(Header(name, contact))
  }

  function DumpHeader(h: Header): Json {
    JObj(map["full_name" := JStr(h.fullName), "contact_information" := DumpContactInformation(h.contactInformation)])
  }

  /** An experience entry needs a job title and a company name; its two lists
      default to empty. */
  function ValidateExperience(j: Json): (r: Result<Experience, string>)
    ensures r.Ok? ==> j.JObj? && "company_name" in j.fields && j.fields["company_name"] == JStr(r.value.companyName)
    ensures r.Ok? ==> "job_title" in j.fields && j.fields["job_title"] == JStr(r.value.jobTitle)
    ensures r.Ok? && "responsibilities" !in j.fields ==> r.value.responsibilities == []
    ensures r.Ok? && "technologies_used" !in j.fields ==> r.value.technologiesUsed == []
  {
    var o :- AsObj(j);
    var title :- Req(o, "job_title", AsStr);
    var company :- Req(o, "company_name", AsStr);
    var location :- Opt(o, "location", AsStr);
    var start :- Opt(o, "start_date", AsStr);
    var end :- Opt(o, "end_date", AsStr);
    var resp :- Def(o, "responsibilities", StrList, []);
    var tech :- Def(o, "technologies_used", StrList, []);
    Ok(Experience(title, company, location, start, end, resp, tech))
  }

  function DumpExperience(e: Experience): Json {
    JObj(map[
      "job_title" := JStr(e.jobTitle), "company_name" := JStr(e.companyName),
      "location" := OptStrJson(e.location), "start_date" := OptStrJson(e.startDate),
      "end_date" := OptStrJson(e.endDate), "responsibilities" := StrListJson(e.responsibilities),
      "technologies_used" := StrListJson(e.technologiesUsed)])
  }

  /** An education entry needs a degree and a university. */
  function ValidateEducation(j: Json): (r: Result<Education, string>)
    ensures r.Ok? ==> j.JObj? && "degree" in j.fields && j.fields["degree"] == JStr(r.value.degree)
    ensures r.Ok? ==> "university" in j.fields && j.fields["university"] == JStr(r.value.university)
  {
    var o :- AsObj(j);
    var degree :- Req(o, "degree", AsStr);
    var major :- Opt(o, "major", AsStr);
    var university :- Req(o, "university", AsStr);
    var location :- Opt(o, "location", AsStr);
    var start :- Opt(o, "start_date", AsStr);
    var end :- Opt(o, "end_date", AsStr);
    var info :- Opt(o, "additional_info", AsStr);
    Ok(Education(degree, major, university, location, start, end, info))
  }

  function DumpEducation(e: Education): Json {
    JObj(map[
      "degree" := JStr(e.degree), "major" := OptStrJson(e.major),
      "university" := JStr(e.university), "location" := OptStrJson(e.location),
      "start_date" := OptStrJson(e.startDate), "end_date" := OptStrJson(e.endDate),
      "additional_info" := OptStrJson(e.additionalInfo)])
  }

  function ValidateProject(j: Json): Result<Project, string> {
    var o :- AsObj(j);
    var name :- Req(o, "project_name", AsStr);
    var description :- Req(o, "description", AsStr);
    var tech :- Def(o, "technologies_used", StrList, []);
    var role :- Opt(o, "role", AsStr);
    var link :- Opt(o, "link", AsStr);
    Ok(Project(name, description, tech, role, link))
  }

  function DumpProject(p: Project): Json {
    JObj(map[
      "project_name" := JStr(p.projectName), "description" := JStr(p.description),
      "technologies_used" := StrListJson(p.technologiesUsed),
      "role" := OptStrJson(p.role), "link" := OptStrJson(p.link)])
  }

  function ValidateCertification(j: Json): Result<Certification, string> {
    var o :- AsObj(j);
    var name :- Req(o, "certification_name", AsStr);
    var org :- Req(o, "issuing_organization", AsStr);
    var issued :- Opt(o, "issue_date", AsStr);
    var expires :- Opt(o, "expiration_date", AsStr);
    Ok(Certification(name, org, issued, expires))
  }

  function DumpCertification(c: Certification): Json {
    JObj(map[
      "certification_name" := JStr(c.certificationName),
      "issuing_organization" := JStr(c.issuingOrganization),
      "issue_date" := OptStrJson(c.issueDate), "expiration_date" := OptStrJson(c.expirationDate)])
  }

  function ValidateAwardHonor(j: Json): Result<AwardHonor, string> {
    var o :- AsObj(j);
    var title :- Req(o, "title", AsStr);
    var issuer :- Req(o, "issuer", AsStr);
    var date :- Opt(o, "date_received", AsStr);
    Ok(AwardHonor(title, issuer, date))
  }

  function DumpAwardHonor(a: AwardHonor): Json {
    JObj(map["title" := JStr(a.title), "issuer" := JStr(a.issuer), "date_received" := OptStrJson(a.dateReceived)])
  }

  function ValidateLanguage(j: Json): Result<Language, string> {
    var o :- AsObj(j);
    var language :- Req(o, "language", AsStr);
    var proficiency :- Req(o, "proficiency", AsStr);
    Ok(Language(language, proficiency))
  }

  function DumpLanguage(l: Language): Json {
    JObj(map["language" := JStr(l.language), "proficiency" := JStr(l.proficiency)])
  }

  function ExperienceList(j: Json): Result<seq<Experience>, string> { AsList(j, ValidateExperience) }
  function EducationList(j: Json): Result<seq<Education>, string> { AsList(j, ValidateEducation) }
  function ProjectList(j: Json): Result<seq<Project>, string> { AsList(j, ValidateProject) }
  function CertificationList(j: Json): Result<seq<Certification>, string> { AsList(j, ValidateCertification) }
  function AwardList(j: Json): Result<seq<AwardHonor>, string> { AsList(j, ValidateAwardHonor) }
  function LanguageList(j: Json): Result<seq<Language>, string> { AsList(j, ValidateLanguage) }

  /** A resume needs a header; every list field defaults to empty. */
  function ValidateResume(j: Json): (r: Result<Resume, string>)
    ensures r.Ok? ==> j.JObj? && "header" in j.fields && ValidateHeader(j.fields["header"]) == Ok(r.value.header)
    ensures r.Ok? && "skills" !in j.fields ==> r.value.skills == []
    ensures r.Ok? && "experience" !in j.fields ==> r.value.experience == []
    ensures r.Ok? && "education" !in j.fields ==> r.value.education == []
    ensures r.Ok? && "projects" !in j.fields ==> r.value.projects == []
    ensures r.Ok? && "certifications" !in j.fields ==> r.value.certifications == []
    ensures r.Ok? && "awards_and_honors" !in j.fields ==> r.value.awardsAndHonors == []
    ensures r.Ok? && "languages" !in j.fields ==> r.value.languages == []
    ensures r.Ok? && "interests" !in j.fields ==> r.value.interests == []
  {
    var o :- AsObj(j);
    var header :- Req(o, "header", ValidateHeader);
    var summary :- Opt(o, "summary", AsStr);
    var skills :- Def(o, "skills", StrList, []);
    var experience :- Def(o, "experience", ExperienceList, []);
    var education :- Def(o, "education", EducationList, []);
    var projects :- Def(o, "projects", ProjectList, []);
    var certifications :- Def(o, "certifications", CertificationList, []);
    var awards :- Def(o, "awards_and_honors", AwardList, []);
    var languages :- Def(o, "languages", LanguageList, []);
    var interests :- Def(o, "interests", StrList, []);
    Ok(Resume(header, summary, skills, experience, education, projects, certifications, awards, languages, interests))
  }

  function DumpResume(r: Resume): Json {
    JObj(map[
      "header" := DumpHeader(r.header), "summary" := OptStrJson(r.summary),
      "skills" := StrListJson(r.skills),
      "experience" := ListJson(r.experience, DumpExperience),
      "education" := ListJson(r.education, DumpEducation),
      "projects" := ListJson(r.projects, DumpProject),
      "certifications" := ListJson(r.certifications, DumpCertification),
      "awards_and_honors" := ListJson(r.awardsAndHonors, DumpAwardHonor),
      "languages" := ListJson(r.languages, DumpLanguage),
      "interests" := StrListJson(r.interests)])
  }

  /** A resume document is an object with a valid `resume`; other keys are ignored. */
  function ValidateResumeDocument(j: Json): (r: Result<ResumeDocument, string>)
    ensures r.Ok? <==> j.JObj? && "resume" in j.fields && ValidateResume(j.fields["resume"]).Ok?
    ensures r.Ok? ==> r.value.resume == ValidateResume(j.fields["resume"]).value
  {
    var o :- AsObj(j);
    var resume :- Req(o, "resume", ValidateResume);
    Ok(ResumeDocument(resume))
  }

  function DumpResumeDocument(d: ResumeDocument): Json {
    JObj(map["resume" := DumpResume(d.resume)])
  }

  // ---------------------------------------------------------------- job description

  datatype Difficulty = Easy | Moderate | Hard

  function DifficultyName(d: Difficulty): string {
    match d
    case Easy => "easy"
    case Moderate => "moderate"
    case Hard => "hard"
  }

  /** `Literal["easy", "moderate", "hard"]`. */
  function AsDifficulty(j: Json): (r: Result<Difficulty, string>)
    ensures r.Ok? <==> j in {JStr("easy"), JStr("moderate"), JStr("hard")}
    ensures r.Ok? ==> j == JStr(DifficultyName(r.value))
  {
    if j == JStr("easy") then Ok(Easy)
    else if j == JStr("moderate") then Ok(Moderate)
    else if j == JStr("hard") then Ok(Hard)
    else Err("Input should be 'easy', 'moderate' or 'hard'")
  }

  /** The eight fields every version of `JobDescription` has. */
  datatype JobDescription = JobDescription(
    jobTitle: string, companyName: Option<string>, jobRequirements: seq<string>,
    requiredSkills: seq<string>, preferredSkills: Option<seq<string>>,
    qualifications: seq<string>, experienceRequired: Option<string>, jobDescription: Option<string>)

  /** The parser's `JobDescription`, which adds the target interview difficulty. */
  datatype ParsedJobDescription = ParsedJobDescription(jd: JobDescription, interviewDifficulty: Difficulty)

  /** A job description needs a title, requirements, required skills and
      qualifications; preferred skills default to an empty list (and may be `null`). */
  function ValidateJobDescription(j: Json): (r: Result<JobDescription, string>)
    ensures r.Ok? ==> j.JObj? && "job_title" in j.fields && j.fields["job_title"] == JStr(r.value.jobTitle)
    ensures r.Ok? ==> "job_requirements" in j.fields && StrList(j.fields["job_requirements"]) == Ok(r.value.jobRequirements)
    ensures r.Ok? ==> "required_skills" in j.fields && StrList(j.fields["required_skills"]) == Ok(r.value.requiredSkills)
    ensures r.Ok? ==> "qualifications" in j.fields && StrList(j.fields["qualifications"]) == Ok(r.value.qualifications)
    ensures r.Ok? && "preferred_skills" !in j.fields ==> r.value.preferredSkills == Some([])
  {
    var o :- AsObj(j);
    var title :- Req(o, "job_title", AsStr);
    var company :- Opt(o, "company_name", AsStr);
    var requirements :- Req(o, "job_requirements", StrList);
    var required :- Req(o, "required_skills", StrList);
    var preferred :- OptDef(o, "preferred_skills");
    var qualifications :- Req(o, "qualifications", StrList);
    var experience :- Opt(o, "experience_required", AsStr);
    var description :- Opt(o, "job_description", AsStr);
    Ok(JobDescription(title, company, requirements, required, preferred, qualifications, experience, description))
  }

  /** `Optional[List[str]] = []`: absent gives `[]`, `null` gives `None`. */
  function OptDef(o: Doc, key: string): (r: Result<Option<seq<string>>, string>)
    ensures key !in o ==> r == Ok(Some([]))
  {
    if key !in o then Ok(Some([])) else Opt(o, key, StrList)
  }

  /** The parser's job description: the eight fields plus a difficulty that must
      be one of "easy", "moderate" or "hard". */
  function ValidateParsedJobDescription(j: Json): (r: Result<ParsedJobDescription, string>)
    ensures r.Ok? ==> ValidateJobDescription(j) == Ok(r.value.jd)
    ensures r.Ok? ==> "interview_difficulty" in j.fields && j.fields["interview_difficulty"] in {JStr("easy"), JStr("moderate"), JStr("hard")}
    ensures r.Ok? ==> j.fields["interview_difficulty"] == JStr(DifficultyName(r.value.interviewDifficulty))
  {
    var jd :- ValidateJobDescription(j);
    var difficulty :- Req(j.fields, "interview_difficulty", AsDifficulty);
    Ok(ParsedJobDescription(jd, difficulty))
  }

  function JobDescriptionFields(jd: JobDescription): Doc {
    map[
      "job_title" := JStr(jd.jobTitle), "company_name" := OptStrJson(jd.companyName),
      "job_requirements" := StrListJson(jd.jobRequirements),
      "required_skills" := StrListJson(jd.requiredSkills),
      "preferred_skills" := OptJson(jd.preferredSkills, StrListJson),
      "qualifications" := StrListJson(jd.qualifications),
      "experience_required" := OptStrJson(jd.experienceRequired),
      "job_description" := OptStrJson(jd.jobDescription)]
  }

  function DumpJobDescription(jd: JobDescription): Json {
    JObj(JobDescriptionFields(jd))
  }

  function DumpParsedJobDescription(p: ParsedJobDescription): Json {
    JObj(JobDescriptionFields(p.jd)["interview_difficulty" := JStr(DifficultyName(p.interviewDifficulty))])
  }

  // ---------------------------------------------------------------- round trips

  lemma ContactInformationRoundTrip(c: ContactInformation)
    ensures ValidateContactInformation(DumpContactInformation(c)) == Ok(c)
  {
  }

  lemma HeaderRoundTrip(h: Header)
    ensures ValidateHeader(DumpHeader(h)) == Ok(h)
  {
    ContactInformationRoundTrip(h.contactInformation);
  }

  lemma ExperienceRoundTrip(e: Experience)
    ensures ValidateExperience(DumpExperience(e)) == Ok(e)
  {
    var o := DumpExperience(e).fields;
    OptStrRoundTrip(o, "location", e.location);
    OptStrRoundTrip(o, "start_date", e.startDate);
    OptStrRoundTrip(o, "end_date", e.endDate);
    StrListRoundTrip(e.responsibilities);
    StrListRoundTrip(e.technologiesUsed);
    ExperienceFromFields(o, e);
  }

  lemma ExperienceFromFields(o: Doc, e: Experience)
    requires Req(o, "job_title", AsStr) == Ok(e.jobTitle)
    requires Req(o, "company_name", AsStr) == Ok(e.companyName)
    requires Opt(o, "location", AsStr) == Ok(e.location)
    requires Opt(o, "start_date", AsStr) == Ok(e.startDate)
    requires Opt(o, "end_date", AsStr) == Ok(e.endDate)
    requires Def(o, "responsibilities", StrList, []) == Ok(e.responsibilities)
    requires Def(o, "technologies_used", StrList, []) == Ok(e.technologiesUsed)
    ensures ValidateExperience(JObj(o)) == Ok(e)
  {
  }

  lemma EducationRoundTrip(e: Education)
    ensures ValidateEducation(DumpEducation(e)) == Ok(e)
  {
    var o := DumpEducation(e).fields;
    OptStrRoundTrip(o, "major", e.major);
    OptStrRoundTrip(o, "location", e.location);
    OptStrRoundTrip(o, "start_date", e.startDate);
    OptStrRoundTrip(o, "end_date", e.endDate);
    OptStrRoundTrip(o, "additional_info", e.additionalInfo);
    EducationFromFields(o, e);
  }

  lemma EducationFromFields(o: Doc, e: Education)
    requires Req(o, "degree", AsStr) == Ok(e.degree)
    requires Opt(o, "major", AsStr) == Ok(e.major)
    requires Req(o, "university", AsStr) == Ok(e.university)
    requires Opt(o, "location", AsStr) == Ok(e.location)
    requires Opt(o, "start_date", AsStr) == Ok(e.startDate)
    requires Opt(o, "end_date", AsStr) == Ok(e.endDate)
    requires Opt(o, "additional_info", AsStr) == Ok(e.additionalInfo)
    ensures ValidateEducation(JObj(o)) == Ok(e)
  {
  }

  lemma ProjectRoundTrip(p: Project)
    ensures ValidateProject(DumpProject(p)) == Ok(p)
  {
    StrListRoundTrip(p.technologiesUsed);
  }

  lemma CertificationRoundTrip(c: Certification)
    ensures ValidateCertification(DumpCertification(c)) == Ok(c)
  {
  }

  lemma AwardHonorRoundTrip(a: AwardHonor)
    ensures ValidateAwardHonor(DumpAwardHonor(a)) == Ok(a)
  {
  }

  lemma LanguageRoundTrip(l: Language)
    ensures ValidateLanguage(DumpLanguage(l)) == Ok(l)
  {
  }

  /** Validating the dump of a list of records gives the list back, whenever
      that holds of each record. */
  lemma ListRoundTrip<T>(xs: seq<T>, d: T -> Json, v: Json -> Result<T, string>)
    requires forall x :: x in xs ==> v(d(x)) == Ok(x)
    ensures AsList(ListJson(xs, d), v) == Ok(xs)
  {
    EachDumped(xs, d, v);
  }

  /** Validation of a resume is decided field by field. */
  lemma ResumeFromFields(o: Doc, r: Resume)
    requires Req(o, "header", ValidateHeader) == Ok(r.header)
    requires Opt(o, "summary", AsStr) == Ok(r.summary)
    requires Def(o, "skills", StrList, []) == Ok(r.skills)
    requires Def(o, "experience", ExperienceList, []) == Ok(r.experience)
    requires Def(o, "education", EducationList, []) == Ok(r.education)
    requires Def(o, "projects", ProjectList, []) == Ok(r.projects)
    requires Def(o, "certifications", CertificationList, []) == Ok(r.certifications)
    requires Def(o, "awards_and_honors", AwardList, []) == Ok(r.awardsAndHonors)
    requires Def(o, "languages", LanguageList, []) == Ok(r.languages)
    requires Def(o, "interests", StrList, []) == Ok(r.interests)
    ensures ValidateResume(JObj(o)) == Ok(r)
  {
  }

  lemma ExperiencesRoundTrip(xs: seq<Experience>)
    ensures ExperienceList(ListJson(xs, DumpExperience)) == Ok(xs)
  {
    forall x | x in xs ensures ValidateExperience(DumpExperience(x)) == Ok(x) { ExperienceRoundTrip(x); }
    ListRoundTrip(xs, DumpExperience, ValidateExperience);
  }

  lemma EducationsRoundTrip(xs: seq<Education>)
    ensures EducationList(ListJson(xs, DumpEducation)) == Ok(xs)
  {
    forall x | x in xs ensures ValidateEducation(DumpEducation(x)) == Ok(x) { EducationRoundTrip(x); }
    ListRoundTrip(xs, DumpEducation, ValidateEducation);
  }

  lemma ProjectsRoundTrip(xs: seq<Project>)
    ensures ProjectList(ListJson(xs, DumpProject)) == Ok(xs)
  {
    forall x | x in xs ensures ValidateProject(DumpProject(x)) == Ok(x) { ProjectRoundTrip(x); }
    ListRoundTrip(xs, DumpProject, ValidateProject);
  }

  lemma CertificationsRoundTrip(xs: seq<Certification>)
    ensures CertificationList(ListJson(xs, DumpCertification)) == Ok(xs)
  {
    forall x | x in xs ensures ValidateCertification(DumpCertification(x)) == Ok(x) { CertificationRoundTrip(x); }
    ListRoundTrip(xs, DumpCertification, ValidateCertification);
  }

  lemma AwardsRoundTrip(xs: seq<AwardHonor>)
    ensures AwardList(ListJson(xs, DumpAwardHonor)) == Ok(xs)
  {
    forall x | x in xs ensures ValidateAwardHonor(DumpAwardHonor(x)) == Ok(x) { AwardHonorRoundTrip(x); }
    ListRoundTrip(xs, DumpAwardHonor, ValidateAwardHonor);
  }

  lemma LanguagesRoundTrip(xs: seq<Language>)
    ensures LanguageList(ListJson(xs, DumpLanguage)) == Ok(xs)
  {
    forall x | x in xs ensures ValidateLanguage(DumpLanguage(x)) == Ok(x) { LanguageRoundTrip(x); }
    ListRoundTrip(xs, DumpLanguage, ValidateLanguage);
  }

  lemma ResumeHeadFields(r: Resume)
    ensures Req(DumpResume(r).fields, "header", ValidateHeader) == Ok(r.header)
    ensures Opt(DumpResume(r).fields, "summary", AsStr) == Ok(r.summary)
    ensures Def(DumpResume(r).fields, "skills", StrList, []) == Ok(r.skills)
    ensures Def(DumpResume(r).fields, "interests", StrList, []) == Ok(r.interests)
  {
    HeaderRoundTrip(r.header);
    StrListRoundTrip(r.skills);
    StrListRoundTrip(r.interests);
    OptStrRoundTrip(DumpResume(r).fields, "summary", r.summary);
  }

  lemma ResumeListFields1(r: Resume)
    ensures Def(DumpResume(r).fields, "experience", ExperienceList, []) == Ok(r.experience)
    ensures Def(DumpResume(r).fields, "education", EducationList, []) == Ok(r.education)
    ensures Def(DumpResume(r).fields, "projects", ProjectList, []) == Ok(r.projects)
  {
    ExperiencesRoundTrip(r.experience);
    EducationsRoundTrip(r.education);
    ProjectsRoundTrip(r.projects);
  }

  lemma ResumeListFields2(r: Resume)
    ensures Def(DumpResume(r).fields, "certifications", CertificationList, []) == Ok(r.certifications)
    ensures Def(DumpResume(r).fields, "awards_and_honors", AwardList, []) == Ok(r.awardsAndHonors)
    ensures Def(DumpResume(r).fields, "languages", LanguageList, []) == Ok(r.languages)
  {
    CertificationsRoundTrip(r.certifications);
    AwardsRoundTrip(r.awardsAndHonors);
    LanguagesRoundTrip(r.languages);
  }

  /** A stored resume validates back to itself: `model_dump` followed by
      validation is the identity on resumes. */
  lemma ResumeRoundTrip(r: Resume)
    ensures ValidateResume(DumpResume(r)) == Ok(r)
  {
    ResumeHeadFields(r);
    ResumeListFields1(r);
    ResumeListFields2(r);
    ResumeFromFields(DumpResume(r).fields, r);
  }

  lemma ResumeDocumentRoundTrip(d: ResumeDocument)
    ensures ValidateResumeDocument(DumpResumeDocument(d)) == Ok(d)
  {
    ResumeRoundTrip(d.resume);
  }

  /** Validation of a job description is decided field by field. */
  lemma JobDescriptionFromFields(o: Doc, jd: JobDescription)
    requires Req(o, "job_title", AsStr) == Ok(jd.jobTitle)
    requires Opt(o, "company_name", AsStr) == Ok(jd.companyName)
    requires Req(o, "job_requirements", StrList) == Ok(jd.jobRequirements)
    requires Req(o, "required_skills", StrList) == Ok(jd.requiredSkills)
    requires OptDef(o, "preferred_skills") == Ok(jd.preferredSkills)
    requires Req(o, "qualifications", StrList) == Ok(jd.qualifications)
    requires Opt(o, "experience_required", AsStr) == Ok(jd.experienceRequired)
    requires Opt(o, "job_description", AsStr) == Ok(jd.jobDescription)
    ensures ValidateJobDescription(JObj(o)) == Ok(jd)
  {
  }

  lemma JobDescriptionFields1(jd: JobDescription, extra: Doc)
    requires extra.Keys !! JobDescriptionFields(jd).Keys
    ensures Req(JobDescriptionFields(jd) + extra, "job_title", AsStr) == Ok(jd.jobTitle)
    ensures Opt(JobDescriptionFields(jd) + extra, "company_name", AsStr) == Ok(jd.companyName)
    ensures Req(JobDescriptionFields(jd) + extra, "job_requirements", StrList) == Ok(jd.jobRequirements)
    ensures Req(JobDescriptionFields(jd) + extra, "required_skills", StrList) == Ok(jd.requiredSkills)
  {
    var o := JobDescriptionFields(jd) + extra;
    assert "job_title" !in extra && "company_name" !in extra;
    assert "job_requirements" !in extra && "required_skills" !in extra;
    StrListRoundTrip(jd.jobRequirements);
    StrListRoundTrip(jd.requiredSkills);
    OptStrRoundTrip(o, "company_name", jd.companyName);
  }

  lemma JobDescriptionFields2(jd: JobDescription, extra: Doc)
    requires extra.Keys !! JobDescriptionFields(jd).Keys
    ensures OptDef(JobDescriptionFields(jd) + extra, "preferred_skills") == Ok(jd.preferredSkills)
    ensures Req(JobDescriptionFields(jd) + extra, "qualifications", StrList) == Ok(jd.qualifications)
    ensures Opt(JobDescriptionFields(jd) + extra, "experience_required", AsStr) == Ok(jd.experienceRequired)
    ensures Opt(JobDescriptionFields(jd) + extra, "job_description", AsStr) == Ok(jd.jobDescription)
  {
    var o := JobDescriptionFields(jd) + extra;
    assert "preferred_skills" !in extra && "qualifications" !in extra;
    assert "experience_required" !in extra && "job_description" !in extra;
    StrListRoundTrip(jd.qualifications);
    if jd.preferredSkills.Some? { StrListRoundTrip(jd.preferredSkills.value); }
    assert o["preferred_skills"] == OptJson(jd.preferredSkills, StrListJson);
    OptStrRoundTrip(o, "experience_required", jd.experienceRequired);
    OptStrRoundTrip(o, "job_description", jd.jobDescription);
  }

  /** Validation looks only at the job-description keys: any other keys added to
      a dumped job description are ignored. */
  lemma JobDescriptionRoundTrip(jd: JobDescription, extra: Doc)
    requires extra.Keys !! JobDescriptionFields(jd).Keys
    ensures ValidateJobDescription(JObj(JobDescriptionFields(jd) + extra)) == Ok(jd)
  {
    JobDescriptionFields1(jd, extra);
    JobDescriptionFields2(jd, extra);
    JobDescriptionFromFields(JobDescriptionFields(jd) + extra, jd);
  }

  lemma ParsedJobDescriptionRoundTrip(p: ParsedJobDescription)
    ensures ValidateParsedJobDescription(DumpParsedJobDescription(p)) == Ok(p)
  {
    var extra := map["interview_difficulty" := JStr(DifficultyName(p.interviewDifficulty))];
    var o := JobDescriptionFields(p.jd) + extra;
    assert JobDescriptionFields(p.jd)["interview_difficulty" := JStr(DifficultyName(p.interviewDifficulty))] == o;
    JobDescriptionRoundTrip(p.jd, extra);
    DifficultyRoundTrip(p.interviewDifficulty);
    ParsedFromFields(o, p);
  }

  lemma DifficultyRoundTrip(d: Difficulty)
    ensures AsDifficulty(JStr(DifficultyName(d))) == Ok(d)
  {
  }

  lemma ParsedFromFields(o: Doc, p: ParsedJobDescription)
    requires ValidateJobDescription(JObj(o)) == Ok(p.jd)
    requires "interview_difficulty" in o && AsDifficulty(o["interview_difficulty"]) == Ok(p.interviewDifficulty)
    ensures ValidateParsedJobDescription(JObj(o)) == Ok(p)
  {
  }
}
