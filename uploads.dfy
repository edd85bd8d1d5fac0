/** What the two PDF upload handlers of controllers/job_controller.py and
    controllers/resume_controller.py share: the file-name check, the PDF text
    (the PDF library itself is not modelled), and the two fields they add to a
    parsed document before storing it. */
module Uploads {
  import opened Wrappers
  import opened PyStrings
  import opened ObjectIds
  import opened JsonValues
  import opened Http

  /** `file.filename.endswith(".pdf")`: case-sensitive. */
  predicate IsPdfName(filename: string) {
    EndsWith(filename, ".pdf")
  }

  /** `extract_text_from_pdf` given what reading the pages produced: their text,
      or the message of the exception the PDF library raised, which the function
      turns into a 400. */
  function ExtractTextFromPdf(pages: Result<string, string>): (r: Result<string, Exception>)
    ensures r.Ok? <==> pages.Ok?
    ensures r.Ok? ==> r.value == pages.value
    ensures r.Err? ==> r.error == HTTPException(400, "Error parsing PDF: " + pages.error)
  {
    match pages
    case Ok(text) => Ok(text)
    case Err(m) => Err(HTTPException(400, "Error parsing PDF: " + m))
  }

  /** A parsed document with the uploaded file's name and its text added. */
  function UploadedRecord(fields: Doc, filename: string, text: string): Doc {
    fields["original_filename" := JStr(filename)]["raw_text" := JStr(text)]
  }

  /** Stripping the internal keys from a stored upload gives back the parsed
      document and whatever else was added, provided none of it uses an
      internal key. */
  lemma StrippedUpload(fields: Doc, filename: string, text: string, extra: Doc, id: ObjectId)
    requires fields.Keys !! InternalKeys && extra.Keys !! InternalKeys
    ensures Without(UploadedRecord(fields, filename, text) + extra + map["_id" := JOid(id)], InternalKeys)
            == fields + extra
  {
    assert "original_filename" in InternalKeys && "raw_text" in InternalKeys && "_id" in InternalKeys;
  }

  /** The same with nothing added besides the two upload fields. */
  lemma StrippedPlainUpload(fields: Doc, filename: string, text: string, id: ObjectId)
    requires fields.Keys !! InternalKeys
    ensures Without(UploadedRecord(fields, filename, text)["_id" := JOid(id)], InternalKeys) == fields
  {
    var rec := UploadedRecord(fields, filename, text);
    StrippedUpload(fields, filename, text, map[], id);
    assert rec + map[] == rec;
    assert fields + map[] == fields;
    assert rec["_id" := JOid(id)] == rec + map["_id" := JOid(id)];
  }
}
