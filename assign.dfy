/**
 * Mentor assignment (server/src/routes/assign.js): validates the body,
 * inserts an `assigned` intervention, moves the student to `remedial` with
 * the trimmed task, and pushes the assignment to the student's room.
 */
module Assign {
  import opened Text
  import opened Json
  import opened Tables
  import Ws

  /** The request body; `studentId` is "" when it is missing or falsy. */
  datatype AssignRequest = AssignRequest(studentId: string, task: Field, mentorNotes: Field)

  datatype AssignData = AssignData(interventionId: nat, studentId: string, task: string, status: Status, assignedAt: nat)

  /** What `mentorNotes?.trim() || null` evaluates to. */
  datatype Notes = NoNotes | NoteText(text: string) | NotesTypeError {
    function Value(): Option<string> {
      if NoteText? then Some(text) else None
    }

    function AsJson(): Json {
      if NoteText? then JStr(text) else JNull
    }
  }

  /**
   * Null or undefined notes give null; text is trimmed and a blank result
   * gives null; any other value has no `trim` method and throws.
   */
  function TrimNotes(v: Field): (r: Notes)
    ensures r.NotesTypeError? <==> !Nullish(v) && !v.value.JStr?
    ensures r.NoNotes? <==> Nullish(v) || (v.value.JStr? && Trim(v.value.s) == "")
    ensures r.NoteText? ==> TrimmedNonEmpty(r.text) && IsTrimOf(r.text, v.value.s)
  {
    if Nullish(v) then NoNotes
    else if !v.value.JStr? then NotesTypeError
    else
      TrimSpec(v.value.s);
      var t := Trim(v.value.s);
      if t == "" then NoNotes else NoteText(t)
  }

  /** How the handler's `catch` turns a database error into a reply. */
  function AssignError<T>(e: DbError): (r: Reply<T>)
    ensures r.Fail?
    ensures e == ForeignKeyViolation <==> r.code == 400
    ensures e == UniqueViolation <==> r.code == 409
    ensures r.code == 500 <==> e != ForeignKeyViolation && e != UniqueViolation
  {
    match e
    case ForeignKeyViolation => Fail(400, "Foreign key constraint failed")
    case UniqueViolation => Fail(409, "Duplicate entry")
    case _ => Fail(500, "Failed to assign intervention")
  }

  /** The task validation: present, then text, then non-blank after trimming. */
  function TaskCheck(task: Field): (r: Option<string>)
    ensures r.Some? <==> Truthy(task) && task.value.JStr? && !AllSpace(task.value.s)
    ensures r.Some? ==> TrimmedNonEmpty(r.value) && IsTrimOf(r.value, task.value.s)
  {
    if !Truthy(task) || !task.value.JStr? then None
    else
      TrimSpec(task.value.s);
      var t := Trim(task.value.s);
      if t == "" then None else Some(t)
  }

  /** The student UPDATE: remedial, with the new task; the timestamps are untouched. */
  function WithTask(s: Student, task: string): (r: Student)
    requires TrimmedNonEmpty(task)
    ensures StudentOk(r)
    ensures r.status == Remedial && r.currentTask == Some(task)
    ensures r.lastCheckinAt == s.lastCheckinAt && r.lockedAt == s.lockedAt && r.unlockedAt == s.unlockedAt
  {
    s.(status := Remedial, currentTask := Some(task))
  }

  /** What the assignment pushes to the student's room. */
  function AssignPayload(task: string, interventionId: nat, assignedAt: nat, notes: Notes): map<string, Json> {
    map["type" := JStr("intervention_assigned"), "status" := JStr("remedial"), "currentTask" := JStr(task),
        "interventionId" := JNum(interventionId), "assignedAt" := JNum(assignedAt), "mentorNotes" := notes.AsJson()]
  }

  /**
   * The last writes of an assignment, once intervention `id` is inserted
   * at `at`: query 2 makes the student remedial, and the emit's timestamp
   * is the next clock reading.
   */
  method RemedialAndEmit(db: Database, hub: Ws.SocketHub, studentId: string, task: string, notes: Notes,
                         id: nat, at: nat, fault: Fault)
    returns (reply: Reply<AssignData>)
    requires db.Valid() && hub.Valid()
    requires studentId in db.students && TrimmedNonEmpty(task)
    modifies db`students, db`clock, hub`outbox
    ensures db.Valid() && hub.Valid()
    ensures fault.Hits(2) ==>
      && reply == AssignError(fault.error)
      && db.students == old(db.students) && db.clock == old(db.clock) && hub.outbox == old(hub.outbox)
    ensures !fault.Hits(2) ==>
      && db.students == old(db.students)[studentId := WithTask(old(db.students)[studentId], task)]
      && db.clock == old(db.clock) + 1
      && hub.outbox == old(hub.outbox) + Ws.StatusOut(hub.ioReady, hub.rooms, Some(JStr(studentId)),
                                                      AssignPayload(task, id, at, notes), db.clock)
      && reply == Ok(201, AssignData(id, studentId, task, Remedial, at))
  {
    if fault.Hits(2) {
      return AssignError(fault.error);
    }
    db.UpdateStudent(studentId, WithTask(db.students[studentId], task));

    hub.EmitStatusNow(db, Some(JStr(studentId)), AssignPayload(task, id, at, notes));
    reply := Ok(201, AssignData(id, studentId, task, Remedial, at));
  }

  /**
   * The writing half of the handler, once the student is found and the
   * notes are evaluated: query 1 inserts the intervention (its
   * `assigned_at` and `created_at` are one clock reading), then the student
   * is made remedial. A failing query 2 leaves the inserted intervention in
   * place.
   */
  method InsertAndAssign(db: Database, hub: Ws.SocketHub, studentId: string, task: string, notes: Notes, fault: Fault)
    returns (reply: Reply<AssignData>)
    requires db.Valid() && hub.Valid()
    requires studentId != "" && studentId in db.students && TrimmedNonEmpty(task) && !notes.NotesTypeError?
    modifies db, hub`outbox
    ensures db.Valid() && hub.Valid()
    ensures db.logs == old(db.logs)
    ensures fault.Hits(1) ==> reply == AssignError(fault.error) && unchanged(db) && hub.outbox == old(hub.outbox)
    ensures !fault.Hits(1) ==>
      var id := |old(db.interventions)| + 1;
      var at := old(db.clock) + 1;
      && db.interventions == old(db.interventions) + [Intervention(studentId, task, notes.Value(), Assigned, at, at, None)]
      && (fault.Hits(2) ==>
            && reply == AssignError(fault.error)
            && db.students == old(db.students) && db.clock == at && hub.outbox == old(hub.outbox))
      && (!fault.Hits(2) ==>
            && db.students == old(db.students)[studentId := WithTask(old(db.students)[studentId], task)]
            && db.clock == at + 1
            && hub.outbox == old(hub.outbox) + Ws.StatusOut(hub.ioReady, hub.rooms, Some(JStr(studentId)),
                                                            AssignPayload(task, id, at, notes), db.clock)
            && reply == Ok(201, AssignData(id, studentId, task, Remedial, at)))
  {
    if fault.Hits(1) {
      return AssignError(fault.error);
    }
    var interventionId := db.InsertIntervention(studentId, task, notes.Value());
    reply := RemedialAndEmit(db, hub, studentId, task, notes, interventionId, db.clock, fault);
  }

  /**
   * `POST /api/interventions/assign`. Query 0 selects the student; the
   * student's current status is never consulted.
   */
  method AssignIntervention(db: Database, hub: Ws.SocketHub, req: AssignRequest, fault: Fault)
    returns (reply: Reply<AssignData>)
    requires db.Valid() && hub.Valid()
    modifies db, hub`outbox
    ensures db.Valid() && hub.Valid()
    ensures db.logs == old(db.logs)
    ensures req.studentId == "" || !Truthy(req.task) ==>
      reply == Fail(400, "Missing required fields") && unchanged(db) && hub.outbox == old(hub.outbox)
    ensures req.studentId != "" && Truthy(req.task) && TaskCheck(req.task).None? ==>
      reply == Fail(400, "Invalid task") && unchanged(db) && hub.outbox == old(hub.outbox)
    ensures req.studentId != "" && TaskCheck(req.task).Some? && fault.Hits(0) ==>
      reply == AssignError(fault.error) && unchanged(db) && hub.outbox == old(hub.outbox)
    ensures req.studentId != "" && TaskCheck(req.task).Some? && !fault.Hits(0) && req.studentId !in old(db.students) ==>
      reply == Fail(404, "Student not found") && unchanged(db) && hub.outbox == old(hub.outbox)
    ensures req.studentId != "" && TaskCheck(req.task).Some? && !fault.Hits(0) && req.studentId in old(db.students)
            && TrimNotes(req.mentorNotes).NotesTypeError? ==>
      reply == Fail(500, "Failed to assign intervention") && unchanged(db) && hub.outbox == old(hub.outbox)
    ensures req.studentId != "" && TaskCheck(req.task).Some? && !fault.Hits(0) && req.studentId in old(db.students)
            && !TrimNotes(req.mentorNotes).NotesTypeError? ==>
      var task := TaskCheck(req.task).value;
      var notes := TrimNotes(req.mentorNotes);
      var id := |old(db.interventions)| + 1;
      var at := old(db.clock) + 1;
      && (fault.Hits(1) ==> reply == AssignError(fault.error) && unchanged(db) && hub.outbox == old(hub.outbox))
      && (!fault.Hits(1) ==>
            && db.interventions == old(db.interventions) + [Intervention(req.studentId, task, notes.Value(), Assigned, at, at, None)]
            && (fault.Hits(2) ==>
                  && reply == AssignError(fault.error)
                  && db.students == old(db.students) && db.clock == at && hub.outbox == old(hub.outbox))
            && (!fault.Hits(2) ==>
                  && db.students == old(db.students)[req.studentId := WithTask(old(db.students)[req.studentId], task)]
                  && db.clock == at + 1
                  && hub.outbox == old(hub.outbox) + Ws.StatusOut(hub.ioReady, hub.rooms, Some(JStr(req.studentId)),
                                                                  AssignPayload(task, id, at, notes), db.clock)
                  && reply == Ok(201, AssignData(id, req.studentId, task, Remedial, at))))
  {
    if req.studentId == "" || !Truthy(req.task) {
      return Fail(400, "Missing required fields");
    }
    var task := TaskCheck(req.task);
    if task.None? {
      return Fail(400, "Invalid task");
    }

    if fault.Hits(0) {
      return AssignError(fault.error);
    }
    if req.studentId !in db.students {
      return Fail(404, "Student not found");
    }

    var notes := TrimNotes(req.mentorNotes);
    if notes.NotesTypeError? {
      return Fail(500, "Failed to assign intervention");
    }
    reply := InsertAndAssign(db, hub, req.studentId, task.value, notes, fault);
  }
}
