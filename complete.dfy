/**
 * Task completion (server/src/routes/complete.js): guarded reads in a fixed
 * order, then the intervention is marked completed and the student is
 * unlocked back to `on_track`.
 */
module Complete {
  import opened Json
  import opened Tables
  import Ws

  /** The request body; a missing or falsy `studentId` is "", a missing or falsy `interventionId` is 0. */
  datatype CompleteRequest = CompleteRequest(studentId: string, interventionId: int)

  datatype CompleteData = CompleteData(studentId: string, interventionId: int, status: Status, completedAt: nat, unlockedAt: nat)

  /**
   * `SELECT ... FROM interventions WHERE id = $1 AND student_id = $2`: the
   * index of the row with that id, if it belongs to that student.
   */
  function FindIntervention(ivs: seq<Intervention>, id: int, sid: string): (r: Option<nat>)
    ensures r.Some? <==> 1 <= id <= |ivs| && ivs[id - 1].studentId == sid
    ensures r.Some? ==> r.value == id - 1
  {
    if 1 <= id <= |ivs| && ivs[id - 1].studentId == sid then Some(id - 1) else None
  }

  /** An intervention of another student is never found, whatever its id. */
  lemma OtherStudentsInterventionHidden(ivs: seq<Intervention>, id: int, sid: string)
    requires 1 <= id <= |ivs| && ivs[id - 1].studentId != sid
    ensures FindIntervention(ivs, id, sid).None?
  {
  }

  /** How the handler's `catch` turns a database error into a reply. */
  function CompleteError<T>(e: DbError): (r: Reply<T>)
    ensures r.Fail?
    ensures r.code == 400 <==> e == ForeignKeyViolation
    ensures r.code == 500 <==> e != ForeignKeyViolation
  {
    if e == ForeignKeyViolation then Fail(400, "Foreign key constraint failed")
    else Fail(500, "Failed to complete task")
  }

  /** The student UPDATE: on track, task cleared, unlock stamped, whatever the status was. */
  function Unlocked(s: Student, t: nat): (r: Student)
    ensures StudentOk(r)
    ensures r.status == OnTrack && r.currentTask.None? && r.unlockedAt == Some(t)
    ensures r.lastCheckinAt == s.lastCheckinAt && r.lockedAt == s.lockedAt
  {
    s.(status := OnTrack, currentTask := None, unlockedAt := Some(t))
  }

  /** What completion pushes to the student's room. */
  function CompletePayload(interventionId: int, completedAt: nat, unlockedAt: nat): map<string, Json> {
    map["type" := JStr("task_completed"), "status" := JStr("on_track"), "currentTask" := JNull,
        "interventionId" := JNum(interventionId), "completedAt" := JNum(completedAt), "unlockedAt" := JNum(unlockedAt)]
  }

  /**
   * The last writes of a completion, once the intervention is marked and
   * `unlockedAt` is read: query 3 unlocks the student, and the emit's
   * timestamp is the next clock reading.
   */
  method UnlockAndEmit(db: Database, hub: Ws.SocketHub, studentId: string, interventionId: int, completedAt: nat,
                       unlockedAt: nat, fault: Fault)
    returns (reply: Reply<CompleteData>)
    requires db.Valid() && hub.Valid() && studentId in db.students
    modifies db`students, db`clock, hub`outbox
    ensures db.Valid() && hub.Valid()
    ensures fault.Hits(3) ==>
      && reply == CompleteError(fault.error)
      && db.students == old(db.students) && db.clock == old(db.clock) && hub.outbox == old(hub.outbox)
    ensures !fault.Hits(3) ==>
      && db.students == old(db.students)[studentId := Unlocked(old(db.students)[studentId], unlockedAt)]
      && db.clock == old(db.clock) + 1
      && hub.outbox == old(hub.outbox) + Ws.StatusOut(hub.ioReady, hub.rooms, Some(JStr(studentId)),
                                                      CompletePayload(interventionId, completedAt, unlockedAt),
                                                      db.clock)
      && reply == Ok(200, CompleteData(studentId, interventionId, OnTrack, completedAt, unlockedAt))
  {
    if fault.Hits(3) {
      return CompleteError(fault.error);
    }
    db.UpdateStudent(studentId, Unlocked(db.students[studentId], unlockedAt));

    hub.EmitStatusNow(db, Some(JStr(studentId)), CompletePayload(interventionId, completedAt, unlockedAt));
    reply := Ok(200, CompleteData(studentId, interventionId, OnTrack, completedAt, unlockedAt));
  }

  /**
   * The writing half of the handler, once intervention `k` is found, is the
   * student's and is still open: `completedAt` is read from the clock,
   * query 2 marks the intervention, and the student is unlocked. A failing
   * query 3 leaves the intervention completed and the student as it was.
   */
  method MarkAndUnlock(db: Database, hub: Ws.SocketHub, studentId: string, interventionId: int, k: nat, fault: Fault)
    returns (reply: Reply<CompleteData>)
    requires db.Valid() && hub.Valid()
    requires studentId in db.students && k < |db.interventions|
    modifies db, hub`outbox
    ensures db.Valid() && hub.Valid()
    ensures db.logs == old(db.logs)
    ensures var completedAt := old(db.clock) + 1;
      && (fault.Hits(2) ==>
            && reply == CompleteError(fault.error)
            && db.students == old(db.students) && db.interventions == old(db.interventions)
            && db.clock == completedAt && hub.outbox == old(hub.outbox))
      && (!fault.Hits(2) ==>
            && db.interventions == old(db.interventions)[k := old(db.interventions)[k].(status := Completed, completedAt := Some(completedAt))]
            && (fault.Hits(3) ==>
                  && reply == CompleteError(fault.error)
                  && db.students == old(db.students) && db.clock == completedAt + 1 && hub.outbox == old(hub.outbox))
            && (!fault.Hits(3) ==>
                  var unlockedAt := completedAt + 1;
                  && db.students == old(db.students)[studentId := Unlocked(old(db.students)[studentId], unlockedAt)]
                  && db.clock == unlockedAt + 1
                  && hub.outbox == old(hub.outbox) + Ws.StatusOut(hub.ioReady, hub.rooms, Some(JStr(studentId)),
                                                                  CompletePayload(interventionId, completedAt, unlockedAt),
                                                                  db.clock)
                  && reply == Ok(200, CompleteData(studentId, interventionId, OnTrack, completedAt, unlockedAt))))
  {
    var completedAt := db.Tick();
    if fault.Hits(2) {
      return CompleteError(fault.error);
    }
    db.MarkCompleted(k, completedAt);
    var unlockedAt := db.Tick();
    reply := UnlockAndEmit(db, hub, studentId, interventionId, completedAt, unlockedAt, fault);
  }

  /**
   * `POST /api/interventions/complete`. Query 0 selects the student and
   * query 1 the intervention; the student's current status is selected but
   * never consulted.
   */
  method CompleteTask(db: Database, hub: Ws.SocketHub, req: CompleteRequest, fault: Fault)
    returns (reply: Reply<CompleteData>)
    requires db.Valid() && hub.Valid()
    modifies db, hub`outbox
    ensures db.Valid() && hub.Valid()
    ensures db.logs == old(db.logs)
    ensures req.studentId == "" || req.interventionId == 0 ==>
      reply == Fail(400, "Missing required fields") && unchanged(db) && hub.outbox == old(hub.outbox)
    ensures req.studentId != "" && req.interventionId != 0 ==>
      var found := FindIntervention(old(db.interventions), req.interventionId, req.studentId);
      && (fault.Hits(0) ==>
            reply == CompleteError(fault.error) && unchanged(db) && hub.outbox == old(hub.outbox))
      && (!fault.Hits(0) && req.studentId !in old(db.students) ==>
            reply == Fail(404, "Student not found") && unchanged(db) && hub.outbox == old(hub.outbox))
      && (!fault.Hits(0) && req.studentId in old(db.students) && fault.Hits(1) ==>
            reply == CompleteError(fault.error) && unchanged(db) && hub.outbox == old(hub.outbox))
      && (!fault.Hits(0) && req.studentId in old(db.students) && !fault.Hits(1) && found.None? ==>
            reply == Fail(404, "Intervention not found") && unchanged(db) && hub.outbox == old(hub.outbox))
      && (!fault.Hits(0) && req.studentId in old(db.students) && !fault.Hits(1) && found.Some?
          && old(db.interventions)[found.value].status == Completed ==>
            reply == Fail(400, "Intervention already completed") && unchanged(db) && hub.outbox == old(hub.outbox))
      && (!fault.Hits(0) && req.studentId in old(db.students) && !fault.Hits(1) && found.Some?
          && old(db.interventions)[found.value].status == Assigned && fault.Hits(2) ==>
            && reply == CompleteError(fault.error) && hub.outbox == old(hub.outbox)
            && db.students == old(db.students) && db.interventions == old(db.interventions))
      && (!fault.Hits(0) && req.studentId in old(db.students) && !fault.Hits(1) && found.Some?
          && old(db.interventions)[found.value].status == Assigned && fault.Hits(3) ==>
            var k := found.value;
            && reply == CompleteError(fault.error) && hub.outbox == old(hub.outbox) && db.students == old(db.students)
            && db.interventions == old(db.interventions)[k := old(db.interventions)[k].(status := Completed, completedAt := Some(old(db.clock) + 1))])
      && (!fault.Hits(0) && req.studentId in old(db.students) && !fault.Hits(1) && found.Some?
          && old(db.interventions)[found.value].status == Assigned && !fault.Hits(2) && !fault.Hits(3) ==>
            var k := found.value;
            var completedAt := old(db.clock) + 1;
            var unlockedAt := completedAt + 1;
            && db.interventions == old(db.interventions)[k := old(db.interventions)[k].(status := Completed, completedAt := Some(completedAt))]
            && db.students == old(db.students)[req.studentId := Unlocked(old(db.students)[req.studentId], unlockedAt)]
            && db.clock == unlockedAt + 1
            && hub.outbox == old(hub.outbox) + Ws.StatusOut(hub.ioReady, hub.rooms, Some(JStr(req.studentId)),
                                                            CompletePayload(req.interventionId, completedAt, unlockedAt),
                                                            db.clock)
            && reply == Ok(200, CompleteData(req.studentId, req.interventionId, OnTrack, completedAt, unlockedAt)))
  {
    if req.studentId == "" || req.interventionId == 0 {
      return Fail(400, "Missing required fields");
    }
    if fault.Hits(0) {
      return CompleteError(fault.error);
    }
    if req.studentId !in db.students {
      return Fail(404, "Student not found");
    }
    if fault.Hits(1) {
      return CompleteError(fault.error);
    }
    var found := FindIntervention(db.interventions, req.interventionId, req.studentId);
    if found.None? {
      return Fail(404, "Intervention not found");
    }
    if db.interventions[found.value].status == Completed {
      return Fail(400, "Intervention already completed");
    }
    reply := MarkAndUnlock(db, hub, req.studentId, req.interventionId, found.value, fault);
  }
}
