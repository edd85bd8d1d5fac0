/** controllers/schedule_controller.py: scheduling an interview, reading one
    scheduled interview back, and listing them. */
module ScheduleController {
  import opened Wrappers
  import opened PyStrings
  import opened ObjectIds
  import opened JsonValues
  import opened Http
  import opened External
  import opened Store

  /** The body of a scheduling request; every field is a string as sent. */
  datatype ScheduleRequest = ScheduleRequest(
    resumeId: string, jobId: string, scheduledTime: string, difficulty: string,
    customInstructions: Option<string>, userId: string)

  const SchedulePrefix := "Scheduling failed: "

  const BadTimeMessage := "Invalid datetime format for scheduled_time. Use ISO8601 (e.g. 2025-10-14T12:00:00Z)"

  /** The interview event `schedule_interview` stores, with `createdAt` the
      `isoformat()` of the request time. The ids and the time are kept as the
      strings sent; the parsed time is not stored. */
  function InterviewRecord(req: ScheduleRequest, createdAt: string): (d: Doc)
    ensures "_id" !in d
  {
    map["resume_id" := JStr(req.resumeId), "job_id" := JStr(req.jobId),
        "scheduled_time" := JStr(req.scheduledTime), "difficulty" := JStr(req.difficulty),
        "custom_instructions" := (if req.customInstructions.Some? then JStr(req.customInstructions.value) else JNull),
        "user_id" := JStr(req.userId), "created_at" := JStr(createdAt), "status" := JStr("scheduled")]
  }

  /** Everything `schedule_interview` decides before the insert: the three ids in
      the order resume, job, user, then the date. */
  function ScheduleCheck(svc: Services, req: ScheduleRequest): (r: Option<Exception>)
    ensures r.Some? ==> r.value.HTTPException? && r.value.status == 400
  {
    if !IsValidObjectId(req.resumeId) then Some(HTTPException(400, "Invalid resume_id"))
    else if !IsValidObjectId(req.jobId) then Some(HTTPException(400, "Invalid job_id"))
    else if !IsValidObjectId(req.userId) then Some(HTTPException(400, "Invalid user_id"))
    else if !svc.parsesAsDateTime(req.scheduledTime) then Some(HTTPException(400, BadTimeMessage))
    else None
  }

  /** The answer to a successful scheduling: the new id and the time as sent. */
  function ScheduleResponse(req: ScheduleRequest, id: ObjectId): Doc {
    map["message" := JStr("Interview scheduled"), "interview_session_id" := JStr(IdString(id)),
        "scheduled_time" := JStr(req.scheduledTime)]
  }

  /** `schedule_interview`, with `createdAt` the request time and `newId` the id
      the driver generates. A refused insert is caught and becomes a 500. */
  method ScheduleInterview(svc: Services, interviews: Collection, req: ScheduleRequest,
                           createdAt: string, newId: ObjectId) returns (r: Result<Doc, Exception>)
    requires interviews.Valid()
    modifies interviews
    ensures interviews.Valid()
    ensures ScheduleCheck(svc, req).Some? ==>
              && r == Err(ScheduleCheck(svc, req).value)
              && interviews.docs == old(interviews.docs) && interviews.order == old(interviews.order)
    ensures ScheduleCheck(svc, req).None? ==>
              if newId in old(interviews.docs) then
                && r == Err(HTTPException(500, SchedulePrefix + DuplicateKeyError))
                && interviews.docs == old(interviews.docs) && interviews.order == old(interviews.order)
              else
                && r == Ok(ScheduleResponse(req, newId))
                && interviews.docs == old(interviews.docs)[newId := InterviewRecord(req, createdAt)["_id" := JOid(newId)]]
                && interviews.order == old(interviews.order) + [newId]
  {
    if !IsValidObjectId(req.resumeId) {
      return Err(HTTPException(400, "Invalid resume_id"));
    }
    if !IsValidObjectId(req.jobId) {
      return Err(HTTPException(400, "Invalid job_id"));
    }
    if !IsValidObjectId(req.userId) {
      return Err(HTTPException(400, "Invalid user_id"));
    }
    if !svc.parsesAsDateTime(req.scheduledTime) {
      return Err(HTTPException(400, BadTimeMessage));
    }
    var refused := HTTPException(500, SchedulePrefix + DuplicateKeyError);
    assert Wrap(SchedulePrefix, Raised(DuplicateKeyError)) == refused;
    r := interviews.InsertThen(newId, InterviewRecord(req, createdAt), refused, ScheduleResponse(req, newId));
  }

  /** `get_scheduled_interview`: the stored event with its `_id` as a string. */
  method GetScheduledInterview(interviews: Collection, sessionId: string) returns (r: Result<Doc, Exception>)
    requires interviews.Valid()
    ensures !IsValidObjectId(sessionId) ==> r == Err(HTTPException(400, "Invalid interview_session_id"))
    ensures IsValidObjectId(sessionId) && ParseObjectId(sessionId) !in interviews.docs ==>
              r == Err(HTTPException(404, "Interview session not found"))
    ensures IsValidObjectId(sessionId) && ParseObjectId(sessionId) in interviews.docs ==>
              r == Ok(interviews.docs[ParseObjectId(sessionId)]["_id" := JStr(Lower(sessionId))])
  {
    if !IsValidObjectId(sessionId) {
      return Err(HTTPException(400, "Invalid interview_session_id"));
    }
    var id := ParseObjectId(sessionId);
    interviews.FindById(id);
    var hit := interviews.FindOne("_id", JOid(id));
    if hit.None? {
      return Err(HTTPException(404, "Interview session not found"));
    }
    var interview := interviews.docs[hit.value];
    IdStringOfParsed(sessionId);
    interview := interview["_id" := JStr(IdString(interview["_id"].oid))];
    return Ok(interview);
  }

  /** The ids `find(filter_query)` visits: every stored event when no user is
      given or the user is the empty string, else those whose `user_id` is it. */
  function ListedIds(interviews: Collection, userId: Option<string>): (ids: seq<ObjectId>)
    reads interviews
    ensures forall x :: x in ids ==> x in interviews.order
  {
    if userId.Some? && userId.value != "" then interviews.Matching(interviews.order, "user_id", JStr(userId.value))
    else interviews.order
  }

  /** The stored event under `id` as the listing returns it. */
  function Listed(interviews: Collection, id: ObjectId): Doc
    reads interviews
    requires id in interviews.docs
  {
    interviews.docs[id]["_id" := JStr(IdString(id))]
  }

  /** `get_all_scheduled_interviews`: the listed events, in natural order, each
      with its `_id` rewritten in place to its string. */
  method GetAllScheduledInterviews(interviews: Collection, userId: Option<string>) returns (r: seq<Doc>)
    requires interviews.Valid()
    ensures |r| == |ListedIds(interviews, userId)|
    ensures forall k :: 0 <= k < |r| ==> r[k] == Listed(interviews, ListedIds(interviews, userId)[k])
  {
    var cursor := ListedIds(interviews, userId);
    var docs := interviews.docs;
    var found := seq(|cursor|, k requires 0 <= k < |cursor| => docs[cursor[k]]);
    r := found;
    for i := 0 to |r|
      invariant |r| == |cursor|
      invariant forall k :: 0 <= k < i ==> r[k] == Listed(interviews, cursor[k])
      invariant forall k :: i <= k < |r| ==> r[k] == interviews.docs[cursor[k]]
    {
      r := r[i := r[i]["_id" := JStr(IdString(r[i]["_id"].oid))]];
    }
  }

  /** A scheduled interview is in its user's listing: the filter is on the
      `user_id` string the event was stored with. */
  lemma ScheduledIsListed(interviews: Collection, req: ScheduleRequest, createdAt: string, id: ObjectId)
    requires interviews.Valid() && IsValidObjectId(req.userId)
    requires id in interviews.docs && interviews.docs[id] == InterviewRecord(req, createdAt)["_id" := JOid(id)]
    ensures id in ListedIds(interviews, Some(req.userId))
    ensures Listed(interviews, id)["status"] == JStr("scheduled")
    ensures Listed(interviews, id)["scheduled_time"] == JStr(req.scheduledTime)
  {
    assert interviews.Hit(id, "user_id", JStr(req.userId));
  }

  /** Another user's listing leaves it out. */
  lemma ScheduledIsNotListedForOthers(interviews: Collection, req: ScheduleRequest, createdAt: string,
                                      id: ObjectId, other: string)
    requires interviews.Valid() && other != "" && other != req.userId
    requires id in interviews.docs && interviews.docs[id] == InterviewRecord(req, createdAt)["_id" := JOid(id)]
    ensures id !in ListedIds(interviews, Some(other))
  {
    assert !interviews.Hit(id, "user_id", JStr(other));
  }

  /** Without a user, or with an empty one, every stored event is listed once,
      in natural order. */
  lemma UnfilteredListsAll(interviews: Collection, userId: Option<string>)
    requires userId.None? || userId.value == ""
    ensures ListedIds(interviews, userId) == interviews.order
  {
  }

  /** Reading a scheduled interview back by the id the scheduling answered with
      gives the stored event with that id string. */
  lemma ScheduledReadsBack(req: ScheduleRequest, createdAt: string, id: ObjectId)
    ensures IsValidObjectId(ScheduleResponse(req, id)["interview_session_id"].s)
    ensures ParseObjectId(ScheduleResponse(req, id)["interview_session_id"].s) == id
    ensures Lower(ScheduleResponse(req, id)["interview_session_id"].s) == IdString(id)
  {
    IdStringOfParsed(IdString(id));
  }
}
