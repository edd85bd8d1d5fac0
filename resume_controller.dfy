/** controllers/resume_controller.py: uploading a resume, reading one back, and
    this file's own version of the job-description upload, which records no
    uploader. */
module ResumeController {
  import opened Wrappers
  import opened PyStrings
  import opened ObjectIds
  import opened JsonValues
  import opened Http
  import opened External
  import opened Schemas
  import opened Store
  import opened Parsers
  import opened Uploads

  // ------------------------------------------------------------------ upload_resume

  const UploadPrefix := "Upload failed: "

  /** The document `upload_resume` stores: the parsed resume document, the file
      name and the text. */
  function ResumeRecord(d: ResumeDocument, filename: string, text: string): (r: Doc)
    ensures "_id" !in r
  {
    UploadedRecord(DumpResumeDocument(d).fields, filename, text)
  }

  datatype ResumeUpload = ResumeUpload(parsed: ResumeDocument, record: Doc)

  /** Everything `upload_resume` does before the insert: the file name, then the
      PDF text, which must not be blank, then the parse. Every failure is an HTTP
      error. */
  function PrepareResumeUpload(svc: Services, filename: string, pages: Result<string, string>)
    : (r: Result<ResumeUpload, Exception>)
    ensures r.Err? ==> r.error.HTTPException?
    ensures !IsPdfName(filename) ==> r == Err(HTTPException(400, "Only PDF files allowed"))
    ensures IsPdfName(filename) && pages.Ok? && AllSpace(pages.value) ==> r == Err(HTTPException(400, "Empty PDF text"))
  {
    if !IsPdfName(filename) then Err(HTTPException(400, "Only PDF files allowed"))
    else match ExtractTextFromPdf(pages)
      case Err(e) => Err(Wrap(UploadPrefix, e))
      case Ok(text) =>
        if Strip(text) == [] then Err(HTTPException(400, "Empty PDF text"))
        else ResumeFromText(svc, filename, text)
  }

  /** The parse of a non-blank text and the record built from it. */
  function ResumeFromText(svc: Services, filename: string, text: string): (r: Result<ResumeUpload, Exception>)
    ensures r.Err? ==> r.error.HTTPException?
  {
    match ParseResumeWithGemini(svc, text)
    case Err(e) => Err(Wrap(UploadPrefix, e))
    case Ok(d) => Ok(ResumeUpload(d, ResumeRecord(d, filename, text)))
  }

  /** A resume is stored exactly when the name ends in ".pdf", the text is not
      blank and the parse succeeds; the record then holds the parsed document. */
  lemma PreparedResumeUpload(svc: Services, filename: string, pages: Result<string, string>)
    ensures var r := PrepareResumeUpload(svc, filename, pages);
            && (r.Ok? <==>
                  IsPdfName(filename) && pages.Ok? && !AllSpace(pages.value)
                  && ParseResumeWithGemini(svc, pages.value).Ok?)
            && (r.Ok? ==>
                  && r.value.parsed == ParseResumeWithGemini(svc, pages.value).value
                  && r.value.record == ResumeRecord(r.value.parsed, filename, pages.value))
  {
  }

  function ResumeUploadResponse(d: ResumeDocument, id: ObjectId): Doc {
    map["message" := JStr("Resume parsed and stored"), "resume_id" := JStr(IdString(id)),
        "candidate_name" := JStr(d.resume.header.fullName)]
  }

  /** `upload_resume`, with `pages` what the PDF library read from the file and
      `newId` the ObjectId the driver generates. */
  method UploadResume(svc: Services, resumes: Collection, filename: string, pages: Result<string, string>,
                      newId: ObjectId) returns (r: Result<Doc, Exception>)
    requires resumes.Valid()
    modifies resumes
    ensures resumes.Valid()
    ensures var p := PrepareResumeUpload(svc, filename, pages);
            if p.Err? || newId in old(resumes.docs) then
              && resumes.docs == old(resumes.docs) && resumes.order == old(resumes.order)
              && r == Err(if p.Err? then p.error else HTTPException(500, UploadPrefix + DuplicateKeyError))
            else
              && resumes.docs == old(resumes.docs)[newId := p.value.record["_id" := JOid(newId)]]
              && resumes.order == old(resumes.order) + [newId]
              && r == Ok(ResumeUploadResponse(p.value.parsed, newId))
  {
    if !IsPdfName(filename) {
      return Err(HTTPException(400, "Only PDF files allowed"));
    }
    var text := ExtractTextFromPdf(pages);
    if text.Err? {
      return Err(Wrap(UploadPrefix, text.error));
    }
    if Strip(text.value) == [] {
      return Err(HTTPException(400, "Empty PDF text"));
    }
    assert PrepareResumeUpload(svc, filename, pages) == ResumeFromText(svc, filename, text.value);
    r := StoreResumeText(svc, resumes, filename, text.value, newId);
  }

  /** The rest of `upload_resume` once the text is known not to be blank. */
  method StoreResumeText(svc: Services, resumes: Collection, filename: string, text: string, newId: ObjectId)
    returns (r: Result<Doc, Exception>)
    requires resumes.Valid()
    modifies resumes
    ensures resumes.Valid()
    ensures var p := ResumeFromText(svc, filename, text);
            if p.Err? || newId in old(resumes.docs) then
              && resumes.docs == old(resumes.docs) && resumes.order == old(resumes.order)
              && r == Err(if p.Err? then p.error else HTTPException(500, UploadPrefix + DuplicateKeyError))
            else
              && resumes.docs == old(resumes.docs)[newId := p.value.record["_id" := JOid(newId)]]
              && resumes.order == old(resumes.order) + [newId]
              && r == Ok(ResumeUploadResponse(p.value.parsed, newId))
  {
    var parsed := ParseResumeWithGemini(svc, text);
    if parsed.Err? {
      return Err(Wrap(UploadPrefix, parsed.error));
    }
    var record := ResumeRecord(parsed.value, filename, text);
    var refused := HTTPException(500, UploadPrefix + DuplicateKeyError);
    assert Wrap(UploadPrefix, Raised(DuplicateKeyError)) == refused;
    r := resumes.InsertThen(newId, record, refused,
                            ResumeUploadResponse(parsed.value, newId));
  }

  /** A stored resume, once its internal keys are stripped, is exactly the parsed
      document again, so it validates back to it. */
  lemma UploadedResumeReadsBack(d: ResumeDocument, filename: string, text: string, id: ObjectId)
    ensures Without(ResumeRecord(d, filename, text)["_id" := JOid(id)], InternalKeys) == DumpResumeDocument(d).fields
    ensures ValidateResumeDocument(JObj(Without(ResumeRecord(d, filename, text)["_id" := JOid(id)], InternalKeys))) == Ok(d)
  {
    assert DumpResumeDocument(d).fields.Keys !! InternalKeys;
    StrippedPlainUpload(DumpResumeDocument(d).fields, filename, text, id);
    ResumeDocumentRoundTrip(d);
  }

  // ------------------------------------------------------------------ get_resume

  /** The message of bson's `InvalidId`: the rejected value's `repr`, then why. */
  function InvalidIdMessage(s: string): string {
    "'" + s + "' is not a valid ObjectId, it must be a 12-byte input or a 24-character hex string"
  }

  /** `get_resume`: the ObjectId is built from the stripped text before the
      validity check, so a malformed id raises `InvalidId` in the constructor and
      the 400 branch after it cannot be taken. */
  method GetResume(resumes: Collection, resumeId: string) returns (r: Result<Doc, Exception>)
    requires resumes.Valid()
    ensures !IsValidObjectId(Strip(resumeId)) ==> r == Err(Raised(InvalidIdMessage(Strip(resumeId))))
    ensures r != Err(HTTPException(400, "Invalid resume ID"))
    ensures IsValidObjectId(Strip(resumeId)) && ParseObjectId(Strip(resumeId)) !in resumes.docs ==>
              r == Err(HTTPException(404, "Resume not found"))
    ensures IsValidObjectId(Strip(resumeId)) && ParseObjectId(Strip(resumeId)) in resumes.docs ==>
              r == Ok(resumes.docs[ParseObjectId(Strip(resumeId))]["_id" := JStr(Lower(Strip(resumeId)))])
  {
    var s := Strip(resumeId);
    if !IsValidObjectId(s) {
      return Err(Raised(InvalidIdMessage(s)));
    }
    var id := ParseObjectId(s);
    // `ObjectId.is_valid` of an ObjectId is always true: the 400 branch is dead.
    resumes.FindById(id);
    var hit := resumes.FindOne("_id", JOid(id));
    if hit.None? {
      return Err(HTTPException(404, "Resume not found"));
    }
    IdStringOfParsed(s);
    return Ok(resumes.docs[hit.value]["_id" := JStr(IdString(hit.value))]);
  }

  /** `get_resume` as evidently intended: a malformed id is a 400. */
  method GetResumeChecked(resumes: Collection, resumeId: string) returns (r: Result<Doc, Exception>)
    requires resumes.Valid()
    ensures !IsValidObjectId(Strip(resumeId)) ==> r == Err(HTTPException(400, "Invalid resume ID"))
    ensures r.Err? ==> r.error.HTTPException?
    ensures IsValidObjectId(Strip(resumeId)) && ParseObjectId(Strip(resumeId)) !in resumes.docs ==>
              r == Err(HTTPException(404, "Resume not found"))
    ensures IsValidObjectId(Strip(resumeId)) && ParseObjectId(Strip(resumeId)) in resumes.docs ==>
              r == Ok(resumes.docs[ParseObjectId(Strip(resumeId))]["_id" := JStr(Lower(Strip(resumeId)))])
  {
    var s := Strip(resumeId);
    if !IsValidObjectId(s) {
      return Err(HTTPException(400, "Invalid resume ID"));
    }
    var id := ParseObjectId(s);
    resumes.FindById(id);
    var hit := resumes.FindOne("_id", JOid(id));
    if hit.None? {
      return Err(HTTPException(404, "Resume not found"));
    }
    IdStringOfParsed(s);
    return Ok(resumes.docs[hit.value]["_id" := JStr(IdString(hit.value))]);
  }

  // ------------------------------------------------------------------ upload_jd

  const UploadJdPrefix := "Job description upload failed: "

  /** The document this `upload_jd` stores: the parsed job description with its
      difficulty, the file name and the text, and no uploader. */
  function UnownedJdRecord(p: ParsedJobDescription, filename: string, text: string): (d: Doc)
    ensures "_id" !in d && "user_id" !in d
  {
    UploadedRecord(DumpParsedJobDescription(p).fields, filename, text)
  }

  datatype JdUpload = JdUpload(parsed: ParsedJobDescription, record: Doc)

  function PrepareJdUpload(svc: Services, filename: string, pages: Result<string, string>)
    : (r: Result<JdUpload, Exception>)
    ensures r.Err? ==> r.error.HTTPException?
    ensures !IsPdfName(filename) ==> r == Err(HTTPException(400, "Only PDF files allowed"))
    ensures IsPdfName(filename) && pages.Ok? && AllSpace(pages.value) ==>
              r == Err(HTTPException(400, "Empty PDF text extracted"))
  {
    if !IsPdfName(filename) then Err(HTTPException(400, "Only PDF files allowed"))
    else match ExtractTextFromPdf(pages)
      case Err(e) => Err(Wrap(UploadJdPrefix, e))
      case Ok(text) =>
        if Strip(text) == [] then Err(HTTPException(400, "Empty PDF text extracted"))
        else JdFromText(svc, filename, text)
  }

  function JdFromText(svc: Services, filename: string, text: string): (r: Result<JdUpload, Exception>)
    ensures r.Err? ==> r.error.HTTPException?
  {
    match ParseJdWithGemini(svc, text)
    case Err(e) => Err(Wrap(UploadJdPrefix, e))
    case Ok(p) => Ok(JdUpload(p, UnownedJdRecord(p, filename, text)))
  }

  function JdUploadResponse(p: ParsedJobDescription, id: ObjectId): Doc {
    map["message" := JStr("Job description parsed and stored"), "jd_id" := JStr(IdString(id)),
        "job_title" := JStr(p.jd.jobTitle)]
  }

  /** This file's `upload_jd`: no user id to check and none stored. */
  method UploadJd(svc: Services, jds: Collection, filename: string, pages: Result<string, string>,
                  newId: ObjectId) returns (r: Result<Doc, Exception>)
    requires jds.Valid()
    modifies jds
    ensures jds.Valid()
    ensures var p := PrepareJdUpload(svc, filename, pages);
            if p.Err? || newId in old(jds.docs) then
              && jds.docs == old(jds.docs) && jds.order == old(jds.order)
              && r == Err(if p.Err? then p.error else HTTPException(500, UploadJdPrefix + DuplicateKeyError))
            else
              && jds.docs == old(jds.docs)[newId := p.value.record["_id" := JOid(newId)]]
              && jds.order == old(jds.order) + [newId]
              && r == Ok(JdUploadResponse(p.value.parsed, newId))
  {
    if !IsPdfName(filename) {
      return Err(HTTPException(400, "Only PDF files allowed"));
    }
    var text := ExtractTextFromPdf(pages);
    if text.Err? {
      return Err(Wrap(UploadJdPrefix, text.error));
    }
    if Strip(text.value) == [] {
      return Err(HTTPException(400, "Empty PDF text extracted"));
    }
    assert PrepareJdUpload(svc, filename, pages) == JdFromText(svc, filename, text.value);
    r := StoreJdText(svc, jds, filename, text.value, newId);
  }

  /** The rest of this `upload_jd` once the text is known not to be blank. */
  method StoreJdText(svc: Services, jds: Collection, filename: string, text: string, newId: ObjectId)
    returns (r: Result<Doc, Exception>)
    requires jds.Valid()
    modifies jds
    ensures jds.Valid()
    ensures var p := JdFromText(svc, filename, text);
            if p.Err? || newId in old(jds.docs) then
              && jds.docs == old(jds.docs) && jds.order == old(jds.order)
              && r == Err(if p.Err? then p.error else HTTPException(500, UploadJdPrefix + DuplicateKeyError))
            else
              && jds.docs == old(jds.docs)[newId := p.value.record["_id" := JOid(newId)]]
              && jds.order == old(jds.order) + [newId]
              && r == Ok(JdUploadResponse(p.value.parsed, newId))
  {
    var parsed := ParseJdWithGemini(svc, text);
    if parsed.Err? {
      return Err(Wrap(UploadJdPrefix, parsed.error));
    }
    var record := UnownedJdRecord(parsed.value, filename, text);
    var refused := HTTPException(500, UploadJdPrefix + DuplicateKeyError);
    assert Wrap(UploadJdPrefix, Raised(DuplicateKeyError)) == refused;
    r := jds.InsertThen(newId, record, refused,
                        JdUploadResponse(parsed.value, newId));
  }

  /** A job description stored this way, stripped of its internal keys, is the
      parsed job description with its difficulty, and validates back to it. */
  lemma UnownedJdReadsBack(p: ParsedJobDescription, filename: string, text: string, id: ObjectId)
    ensures Without(UnownedJdRecord(p, filename, text)["_id" := JOid(id)], InternalKeys) == DumpParsedJobDescription(p).fields
    ensures ValidateParsedJobDescription(
              JObj(Without(UnownedJdRecord(p, filename, text)["_id" := JOid(id)], InternalKeys))) == Ok(p)
  {
    assert DumpParsedJobDescription(p).fields.Keys !! InternalKeys;
    StrippedPlainUpload(DumpParsedJobDescription(p).fields, filename, text, id);
    ParsedJobDescriptionRoundTrip(p);
  }
}
