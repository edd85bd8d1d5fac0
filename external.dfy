/** The collaborators the handlers call but whose code is not modelled: the Gemini
    client, the JSON text parser and printers, Python's `str` of a dict, and the
    date parser. Each is a field of function type, so every property proved here
    holds whatever those collaborators return. */
module External {
  import opened Wrappers
  import opened ObjectIds
  import opened JsonValues
  import opened Http

  /** What a Gemini call gives back: the response text, or the text of the
      exception the client raised. */
  datatype Reply = Answered(text: string) | Failed(message: string)

  /** The `generate_content` call sites. Each fixes the model name, the system
      instruction, the thinking budget and the response MIME type it sends. */
  datatype Site = JdParsing | ResumeParsing | FitmentAssessment | InterviewAssessment

  /** One entry of a Gemini chat history: `{"role": role, "parts": [{"text": text}]}`. */
  datatype ChatEntry = ChatEntry(role: string, text: string)

  datatype Services = Services(
    /** `client.models.generate_content(...)` at a call site, given the contents sent. */
    generate: (Site, string) -> Reply,
    /** `client.chats.create(history=h).send_message(m)`. */
    chat: (seq<ChatEntry>, string) -> Reply,
    /** The JSON text parser under `parse_raw` / `model_validate_json`; `None` on malformed text. */
    parseJson: string -> Option<Json>,
    /** `json.dumps` of a serialisable value. */
    jsonDumps: Json -> string,
    /** pydantic's `model_dump_json`. */
    modelDumpJson: Json -> string,
    /** Python's `str` of a dict, list or number. */
    repr: Json -> string,
    /** `dateutil.parser.parse(s)` returns rather than raising. */
    parsesAsDateTime: string -> bool,
    /** The fixed instruction text that opens every interview chat. */
    interviewerInstruction: string
  )

  /** `json.dumps(j)`: raises `TypeError` as soon as an ObjectId occurs in `j`. */
  function JsonDumps(svc: Services, j: Json): (r: Result<string, Exception>)
    ensures r.Err? <==> HasObjectId(j)
    ensures r.Err? ==> r.error.Raised?
  {
    if HasObjectId(j) then Err(Raised("Object of type ObjectId is not JSON serializable"))
    else Ok(svc.jsonDumps(j))
  }

  /** `str(v)` for a value read out of a document. */
  function PyStr(svc: Services, v: Json): string {
    match v
    case JNull => "None"
    case JStr(s) => s
    case JOid(id) => IdString(id)
    case JBool(b) => if b then "True" else "False"
    case _ => svc.repr(v)
  }

  /** Parse `text` as JSON and validate it against a schema, once, with no repair. */
  function ValidateText<T>(svc: Services, text: string, validate: Json -> Result<T, string>): (r: Result<T, string>)
    ensures r.Ok? <==> svc.parseJson(text).Some? && validate(svc.parseJson(text).value).Ok?
    ensures r.Ok? ==> r.value == validate(svc.parseJson(text).value).value
  {
    match svc.parseJson(text)
    case None => Err("Invalid JSON")
    case Some(j) => validate(j)
  }
}
