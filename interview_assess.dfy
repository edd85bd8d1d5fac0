/** controllers/interview_assess_controller.py: the end-of-interview assessment,
    which renders the chat into a transcript and asks Gemini for a verdict, and
    the next-question call, which replays the interview as a chat history. */
module InterviewAssess {
  import opened Wrappers
  import opened PyStrings
  import opened ObjectIds
  import opened JsonValues
  import opened Http
  import opened External
  import opened Schemas
  import opened Store

  // ------------------------------------------------------------ transcript

  /** One turn of the recorded interview chat. */
  datatype ChatTurn = ChatTurn(role: string, content: string)

  /** "Interviewer" for the model's turns, "Candidate" for any other role. */
  function Speaker(role: string): (s: string)
    ensures s == "Interviewer" <==> role == "model"
    ensures s == "Candidate" <==> role != "model"
  {
    if role == "model" then "Interviewer" else "Candidate"
  }

  function TurnLine(t: ChatTurn): string {
    Speaker(t.role) + ": " + t.content + "\n"
  }

  /** The transcript: one line per turn, in the order of the turns. */
  function Transcript(turns: seq<ChatTurn>): string {
    if turns == [] then "" else Transcript(turns[..|turns| - 1]) + TurnLine(turns[|turns| - 1])
  }

  /** The loop of the handler that appends one line per turn to the text. */
  method BuildTranscript(turns: seq<ChatTurn>) returns (text: string)
    ensures text == Transcript(turns)
  {
    text := "";
    for i := 0 to |turns|
      invariant text == Transcript(turns[..i])
    {
      assert turns[..i + 1][..i] == turns[..i];
      text := text + TurnLine(turns[i]);
    }
    assert turns[..|turns|] == turns;
  }

  /** Transcripts of consecutive pieces of a chat are concatenated. */
  lemma {:induction false} TranscriptAppend(a: seq<ChatTurn>, b: seq<ChatTurn>)
    ensures Transcript(a + b) == Transcript(a) + Transcript(b)
    decreases |b|
  {
    if b == [] {
      assert a + b == a;
    } else {
      var b', last := b[..|b| - 1], b[|b| - 1];
      assert b == b' + [last];
      assert a + b == (a + b') + [last];
      TranscriptSnoc(a + b', last);
      TranscriptSnoc(b', last);
      TranscriptAppend(a, b');
      ConcatAssoc(Transcript(a), Transcript(b'), TurnLine(last));
    }
  }

  lemma TranscriptSnoc(s: seq<ChatTurn>, t: ChatTurn)
    ensures Transcript(s + [t]) == Transcript(s) + TurnLine(t)
  {
    assert (s + [t])[..|s|] == s;
  }

  /** Turn `i` is rendered right after the transcript of the turns before it. */
  lemma TranscriptLine(turns: seq<ChatTurn>, i: nat)
    requires i < |turns|
    ensures |Transcript(turns[..i])| + |TurnLine(turns[i])| <= |Transcript(turns)|
    ensures Transcript(turns)[|Transcript(turns[..i])|..|Transcript(turns[..i])| + |TurnLine(turns[i])|] == TurnLine(turns[i])
  {
    assert turns == turns[..i] + [turns[i]] + turns[i + 1..];
    TranscriptAppend(turns[..i] + [turns[i]], turns[i + 1..]);
    TranscriptAppend(turns[..i], [turns[i]]);
    assert Transcript([turns[i]]) == TurnLine(turns[i]) by {
      assert [turns[i]][..0] == [];
    }
  }

  // ------------------------------------------------------------ assessment

  /** The prompt: the job description, the resume, the difficulty and the
      conversation, in that order. */
  function InterviewPrompt(jdJson: string, resumeJson: string, difficulty: string, transcript: string): (c: string)
    ensures StartsWith(c, "Job Description:\n" + jdJson + "\n\nCandidate Resume:\n")
    ensures EndsWith(c, "\n\nConversation History:\n" + transcript)
    ensures |"Job Description:\n" + jdJson + "\n\nCandidate Resume:\n"| + |"\n\nConversation History:\n" + transcript| <= |c|
    ensures c[|"Job Description:\n" + jdJson + "\n\nCandidate Resume:\n"|..|c| - |"\n\nConversation History:\n" + transcript|]
            == resumeJson + "\n\nDifficulty Level: " + difficulty
  {
    var head := "Job Description:\n" + jdJson + "\n\nCandidate Resume:\n";
    var tail := "\n\nConversation History:\n" + transcript;
    var c := head + (resumeJson + "\n\nDifficulty Level: " + difficulty) + tail;
    assert c[..|head|] == head;
    assert c[|c| - |tail|..] == tail;
    assert c[|head|..|c| - |tail|] == resumeJson + "\n\nDifficulty Level: " + difficulty;
    c
  }

  /** The nested `AssessmentResult` of the handler: three strings, the rating
      being any text at all. */
  datatype InterviewResult = InterviewResult(capabilitiesSummary: string, fitmentRating: string, justification: string)

  function ValidateInterviewResult(j: Json): (r: Result<InterviewResult, string>)
    ensures r.Ok? <==>
              j.JObj? && "capabilities_summary" in j.fields && j.fields["capabilities_summary"].JStr?
              && "fitment_rating" in j.fields && j.fields["fitment_rating"].JStr?
              && "justification" in j.fields && j.fields["justification"].JStr?
    ensures r.Ok? ==> r.value.fitmentRating == j.fields["fitment_rating"].s
  {
    var o :- AsObj(j);
    var summary :- Req(o, "capabilities_summary", AsStr);
    var rating :- Req(o, "fitment_rating", AsStr);
    var justification :- Req(o, "justification", AsStr);
    Ok(InterviewResult(summary, rating, justification))
  }

  function DumpInterviewResult(a: InterviewResult): Json {
    JObj(map["capabilities_summary" := JStr(a.capabilitiesSummary),
             "fitment_rating" := JStr(a.fitmentRating),
             "justification" := JStr(a.justification)])
  }

  lemma InterviewResultRoundTrip(a: InterviewResult)
    ensures ValidateInterviewResult(DumpInterviewResult(a)) == Ok(a)
  {
    var o := DumpInterviewResult(a).fields;
    assert o["capabilities_summary"] == JStr(a.capabilitiesSummary);
    assert o["fitment_rating"] == JStr(a.fitmentRating);
    assert o["justification"] == JStr(a.justification);
  }

  datatype AssessRequest = AssessRequest(jobId: string, resumeId: string, chatHistory: seq<ChatTurn>, difficulty: string)

  /** The message of the `ImportError` that pydantic 2 raises for
      `from pydantic import parse_raw_as`, a name it has removed. */
  const ParseRawAsRemoved := "`pydantic:parse_raw_as` has been removed in V2."

  /** What the handler does, as written, once both documents are fetched and
      stripped. It serialises them and asks Gemini; whatever Gemini answers, the
      import that follows fails under pydantic 2, so no verdict is ever returned. */
  function InterviewVerdictAsWritten(svc: Services, jd: Doc, resume: Doc, difficulty: string, turns: seq<ChatTurn>): (r: Result<InterviewResult, Exception>)
    ensures r.Err? && r.error.Raised?
    ensures r.error.message != ParseRawAsRemoved ==>
              JsonDumps(svc, JObj(jd)).Err? || JsonDumps(svc, JObj(resume)).Err?
              || svc.generate(InterviewAssessment, InterviewPrompt(JsonDumps(svc, JObj(jd)).value, JsonDumps(svc, JObj(resume)).value, difficulty, Transcript(turns))).Failed?
  {
    var jdJson :- JsonDumps(svc, JObj(jd));
    var resumeJson :- JsonDumps(svc, JObj(resume));
    match svc.generate(InterviewAssessment, InterviewPrompt(jdJson, resumeJson, difficulty, Transcript(turns)))
    case Failed(m) => Err(Raised(m))
    case Answered(_) => Err(Raised(ParseRawAsRemoved))
  }

  /** What the handler evidently means to do once both documents are fetched and
      stripped: validate Gemini's reply as the verdict. None of it is guarded:
      every failure escapes as an uncaught exception. */
  function InterviewVerdict(svc: Services, jd: Doc, resume: Doc, difficulty: string, turns: seq<ChatTurn>): (r: Result<InterviewResult, Exception>)
    ensures r.Err? ==> r.error.Raised?
  {
    var jdJson :- JsonDumps(svc, JObj(jd));
    var resumeJson :- JsonDumps(svc, JObj(resume));
    match svc.generate(InterviewAssessment, InterviewPrompt(jdJson, resumeJson, difficulty, Transcript(turns)))
    case Failed(m) => Err(Raised(m))
    case Answered(text) =>
      match ValidateText(svc, text, ValidateInterviewResult)
      case Ok(a) => Ok(a)
      case Err(e) => Err(Raised(e))
  }

  /** `assess_candidate_interview`. It reads the two collections and writes to none. */
  method AssessCandidateInterview(svc: Services, jds: Collection, resumes: Collection, req: AssessRequest)
    returns (r: Result<InterviewResult, Exception>)
    requires jds.Valid() && resumes.Valid()
    ensures !IsValidObjectId(req.jobId) ==> r == Err(HTTPException(400, "Invalid job_id"))
    ensures IsValidObjectId(req.jobId) && !IsValidObjectId(req.resumeId) ==>
              r == Err(HTTPException(400, "Invalid resume_id"))
    ensures IsValidObjectId(req.jobId) && IsValidObjectId(req.resumeId) ==>
              r == (if ParseObjectId(req.jobId) !in jds.docs then Err(HTTPException(404, "Job description not found"))
                    else if ParseObjectId(req.resumeId) !in resumes.docs then Err(HTTPException(404, "Resume not found"))
                    else InterviewVerdictAsWritten(svc, Without(jds.docs[ParseObjectId(req.jobId)], InternalKeys),
                                          Without(resumes.docs[ParseObjectId(req.resumeId)], InternalKeys),
                                          req.difficulty, req.chatHistory))
  {
    if !IsValidObjectId(req.jobId) {
      return Err(HTTPException(400, "Invalid job_id"));
    }
    if !IsValidObjectId(req.resumeId) {
      return Err(HTTPException(400, "Invalid resume_id"));
    }
    var jobId := ParseObjectId(req.jobId);
    var resumeId := ParseObjectId(req.resumeId);
    jds.FindById(jobId);
    resumes.FindById(resumeId);
    var jobHit := jds.FindOne("_id", JOid(jobId));
    if jobHit.None? {
      return Err(HTTPException(404, "Job description not found"));
    }
    var resumeHit := resumes.FindOne("_id", JOid(resumeId));
    if resumeHit.None? {
      return Err(HTTPException(404, "Resume not found"));
    }
    var jd, resume := PopKeys(jds.docs[jobId], resumes.docs[resumeId], InternalKeyList);
    r := Verdict(svc, jd, resume, req.difficulty, req.chatHistory);
  }

  /** The rest of `assess_candidate_interview` once both documents are fetched
      and stripped: serialise them, build the transcript, ask Gemini, then import
      `parse_raw_as`, which fails. */
  method Verdict(svc: Services, jd: Doc, resume: Doc, difficulty: string, turns: seq<ChatTurn>)
    returns (r: Result<InterviewResult, Exception>)
    ensures r == InterviewVerdictAsWritten(svc, jd, resume, difficulty, turns)
  {
    var jdJson :- JsonDumps(svc, JObj(jd));
    var resumeJson :- JsonDumps(svc, JObj(resume));
    var transcript := BuildTranscript(turns);
    var reply := svc.generate(InterviewAssessment, InterviewPrompt(jdJson, resumeJson, difficulty, transcript));
    if reply.Failed? {
      return Err(Raised(reply.message));
    }
    return Err(Raised(ParseRawAsRemoved));
  }

  /** A stored job description carrying an ObjectId field besides `_id` (the
      `user_id` that the job controller's upload adds) cannot be serialised, so
      the assessment fails with an uncaught `TypeError`. */
  lemma ObjectIdFieldFails(svc: Services, jd: Doc, resume: Doc, difficulty: string, turns: seq<ChatTurn>, key: string)
    requires key in jd && jd[key].JOid?
    ensures InterviewVerdictAsWritten(svc, jd, resume, difficulty, turns) == Err(Raised("Object of type ObjectId is not JSON serializable"))
    ensures InterviewVerdict(svc, jd, resume, difficulty, turns) == Err(Raised("Object of type ObjectId is not JSON serializable"))
  {
    assert HasObjectId(jd[key]);
  }

  /** With plain-JSON documents, Gemini's reply is the verdict when it is the JSON
      of one. */
  lemma VerdictOfReply(svc: Services, jd: Doc, resume: Doc, difficulty: string, turns: seq<ChatTurn>, text: string, a: InterviewResult)
    requires !HasObjectId(JObj(jd)) && !HasObjectId(JObj(resume))
    requires svc.generate(InterviewAssessment, InterviewPrompt(svc.jsonDumps(JObj(jd)), svc.jsonDumps(JObj(resume)), difficulty, Transcript(turns))) == Answered(text)
    requires svc.parseJson(text) == Some(DumpInterviewResult(a))
    ensures InterviewVerdict(svc, jd, resume, difficulty, turns) == Ok(a)
  {
    InterviewResultRoundTrip(a);
  }

  /** The gap between the two: a reply that is exactly a verdict's JSON is that
      verdict for the intended handler, and an uncaught `ImportError` as written. */
  lemma ImportFailsOnValidReply(svc: Services, jd: Doc, resume: Doc, difficulty: string, turns: seq<ChatTurn>, text: string, a: InterviewResult)
    requires !HasObjectId(JObj(jd)) && !HasObjectId(JObj(resume))
    requires svc.generate(InterviewAssessment, InterviewPrompt(svc.jsonDumps(JObj(jd)), svc.jsonDumps(JObj(resume)), difficulty, Transcript(turns))) == Answered(text)
    requires svc.parseJson(text) == Some(DumpInterviewResult(a))
    ensures InterviewVerdictAsWritten(svc, jd, resume, difficulty, turns) == Err(Raised(ParseRawAsRemoved))
    ensures InterviewVerdict(svc, jd, resume, difficulty, turns) == Ok(a)
  {
    VerdictOfReply(svc, jd, resume, difficulty, turns, text, a);
  }

  // ------------------------------------------------------------ next question

  datatype CandidateTurn = CandidateTurn(question: string, answer: string, timestamp: string)

  datatype InterviewRequest = InterviewRequest(
    resume: Doc, jobDescription: Doc, difficulty: string, turns: seq<CandidateTurn>, durationSeconds: int)

  function ContextEntry(svc: Services, req: InterviewRequest): ChatEntry {
    ChatEntry("user", "Candidate resume:\n" + svc.repr(JObj(req.resume)) + "\nJob description:\n"
                      + svc.repr(JObj(req.jobDescription)) + "\nDifficulty: " + req.difficulty)
  }

  function AnswerEntry(t: CandidateTurn): ChatEntry {
    ChatEntry("user", "Answer [" + t.timestamp + "]: " + t.answer)
  }

  function ElapsedEntry(seconds: int): ChatEntry {
    ChatEntry("user", "Interview elapsed time: " + IntToString(seconds) + " seconds")
  }

  const NextQuestionEntry := ChatEntry("user", "Generate the next interview question for the candidate.")

  /** Each earlier turn replayed as the model's question and the user's answer. */
  function TurnEntries(turns: seq<CandidateTurn>): (h: seq<ChatEntry>)
    ensures |h| == 2 * |turns|
    ensures forall i :: 0 <= i < |turns| ==>
              h[2 * i] == ChatEntry("model", turns[i].question) && h[2 * i + 1] == AnswerEntry(turns[i])
  {
    if turns == [] then []
    else
      var h := TurnEntries(turns[..|turns| - 1]) + [ChatEntry("model", turns[|turns| - 1].question), AnswerEntry(turns[|turns| - 1])];
      assert forall i :: 0 <= i < |turns| - 1 ==> turns[..|turns| - 1][i] == turns[i];
      h
  }

  /** The history `generate_next_question` opens the chat with. */
  function ChatHistory(svc: Services, req: InterviewRequest): (h: seq<ChatEntry>)
    ensures |h| == 2 * |req.turns| + 4
    ensures h[0] == ChatEntry("model", svc.interviewerInstruction)
    ensures h[1] == ContextEntry(svc, req)
    ensures forall i :: 0 <= i < |req.turns| ==>
              h[2 + 2 * i] == ChatEntry("model", req.turns[i].question) && h[3 + 2 * i] == AnswerEntry(req.turns[i])
    ensures h[|h| - 2] == ElapsedEntry(req.durationSeconds)
    ensures h[|h| - 1] == NextQuestionEntry
  {
    [ChatEntry("model", svc.interviewerInstruction), ContextEntry(svc, req)]
      + TurnEntries(req.turns) + [ElapsedEntry(req.durationSeconds), NextQuestionEntry]
  }

  /** The handler's list building: two opening entries, two appends per turn,
      then the elapsed time and the request. */
  method BuildChatHistory(svc: Services, req: InterviewRequest) returns (h: seq<ChatEntry>)
    ensures h == ChatHistory(svc, req)
  {
    h := [ChatEntry("model", svc.interviewerInstruction), ContextEntry(svc, req)];
    for i := 0 to |req.turns|
      invariant h == [ChatEntry("model", svc.interviewerInstruction), ContextEntry(svc, req)] + TurnEntries(req.turns[..i])
    {
      assert req.turns[..i + 1][..i] == req.turns[..i];
      h := h + [ChatEntry("model", req.turns[i].question)];
      h := h + [AnswerEntry(req.turns[i])];
    }
    assert req.turns[..|req.turns|] == req.turns;
    h := h + [ElapsedEntry(req.durationSeconds)];
    h := h + [NextQuestionEntry];
  }

  /** `generate_next_question`: the reply to "Next question, please." in a chat
      opened with that history, returned as `next_question`. */
  method GenerateNextQuestion(svc: Services, req: InterviewRequest) returns (r: Result<Doc, Exception>)
    ensures svc.chat(ChatHistory(svc, req), "Next question, please.").Answered? ==>
              r == Ok(map["next_question" := JStr(svc.chat(ChatHistory(svc, req), "Next question, please.").text)])
    ensures svc.chat(ChatHistory(svc, req), "Next question, please.").Failed? ==>
              r == Err(Raised(svc.chat(ChatHistory(svc, req), "Next question, please.").message))
  {
    var history := BuildChatHistory(svc, req);
    var reply := svc.chat(history, "Next question, please.");
    if reply.Failed? {
      return Err(Raised(reply.message));
    }
    return Ok(map["next_question" := JStr(reply.text)]);
  }
}
