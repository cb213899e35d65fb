/**
 * The client's status holder (client/src/App.jsx): the student id, the
 * state a pushed `status` payload is merged into, the initial load, the
 * subscription sent on every (re)connect, and the choice of view.
 */
module App {
  import opened Text
  import opened Json
  import opened Tables
  import Ws
  import StudentRead
  import Daily
  import Assign
  import Complete

  const DefaultStudentId := "alice-2024"

  /** `params.get('studentId') || 'alice-2024'`. */
  function GetStudentId(param: Option<string>): (id: string)
    ensures id != ""
    ensures param.Some? && param.value != "" ==> id == param.value
    ensures param.None? || param.value == "" ==> id == DefaultStudentId
  {
    if param.Some? && param.value != "" then param.value else DefaultStudentId
  }

  /** The `studentData` state, field by field as the client holds it. */
  datatype ClientState = ClientState(status: Json, currentTask: Json, message: Json, latestIntervention: Json)

  /** The state before anything is loaded, which is also the fallback of a failed load. */
  const Initial := ClientState(JStr("on_track"), JNull, JStr(""), JNull)

  /** The `status` listener's update of the previous state. */
  function OnStatus(prev: ClientState, payload: map<string, Json>): ClientState {
    prev.(status := OrElse(Get(payload, "status"), prev.status),
          message := OrElse(Get(payload, "message"), JStr("")),
          currentTask := OrElse(Get(payload, "currentTask"), OrElse(Get(payload, "task"), prev.currentTask)))
  }

  /** The state after the payloads `ps` arrive, in order. */
  function ApplyAll(s: ClientState, ps: seq<map<string, Json>>): ClientState
    decreases |ps|
  {
    if ps == [] then s else OnStatus(ApplyAll(s, ps[..|ps| - 1]), ps[|ps| - 1])
  }

  predicate HasStatus(p: map<string, Json>) {
    Truthy(Get(p, "status"))
  }

  /** Pushed payloads never touch `latestIntervention`: it comes from the load alone. */
  lemma {:induction false} PushesKeepIntervention(s: ClientState, ps: seq<map<string, Json>>)
    ensures ApplyAll(s, ps).latestIntervention == s.latestIntervention
    decreases |ps|
  {
    if ps != [] {
      PushesKeepIntervention(s, ps[..|ps| - 1]);
    }
  }

  /** The status shown is that of the last payload with a truthy status, or the one held before them all. */
  lemma {:induction false} StatusIsLastTruthy(s: ClientState, ps: seq<map<string, Json>>)
    ensures ApplyAll(s, ps).status == match LastIndexWhere(ps, HasStatus)
      case None => s.status
      case Some(k) => ps[k]["status"]
    decreases |ps|
  {
    if ps != [] {
      var front := ps[..|ps| - 1];
      StatusIsLastTruthy(s, front);
      if !HasStatus(ps[|ps| - 1]) {
        assert LastIndexWhere(ps, HasStatus) == LastIndexWhere(front, HasStatus);
      }
    }
  }

  /** Once the client holds a truthy task, no pushed payload makes it falsy again. */
  lemma {:induction false} TaskNeverCleared(s: ClientState, ps: seq<map<string, Json>>)
    requires Truthy(Some(s.currentTask))
    ensures Truthy(Some(ApplyAll(s, ps).currentTask))
    decreases |ps|
  {
    if ps != [] {
      TaskNeverCleared(s, ps[..|ps| - 1]);
    }
  }

  /**
   * The payload pushed on completion (its `currentTask` is null) puts the
   * client back on track but leaves the finished task in place.
   */
  lemma CompletionKeepsStaleTask(prev: ClientState, interventionId: int, completedAt: nat, unlockedAt: nat, now: nat)
    ensures var next := OnStatus(prev, Ws.Stamped(Complete.CompletePayload(interventionId, completedAt, unlockedAt), now));
      && next.status == JStr("on_track") && next.currentTask == prev.currentTask
      && next.message == JStr("") && next.latestIntervention == prev.latestIntervention
  {
    var p := Ws.Stamped(Complete.CompletePayload(interventionId, completedAt, unlockedAt), now);
    assert Get(p, "status") == Some(JStr("on_track"));
    assert Get(p, "currentTask") == Some(JNull);
    assert Get(p, "task") == None;
    assert Get(p, "message") == None;
  }

  /** The payload pushed on assignment shows the remedial status and the new task. */
  lemma AssignmentShowsTask(prev: ClientState, task: string, interventionId: nat, assignedAt: nat, notes: Assign.Notes, now: nat)
    requires task != ""
    ensures var next := OnStatus(prev, Ws.Stamped(Assign.AssignPayload(task, interventionId, assignedAt, notes), now));
      && next.status == JStr("remedial") && next.currentTask == JStr(task)
      && Route(next) == RemedialView(JStr(task), Prop(Some(prev.latestIntervention), "id"))
  {
    var p := Ws.Stamped(Assign.AssignPayload(task, interventionId, assignedAt, notes), now);
    assert Get(p, "status") == Some(JStr("remedial"));
    assert Get(p, "currentTask") == Some(JStr(task));
  }

  /** The payload pushed by a failed check-in locks the client with the waiting message. */
  lemma FailedCheckinLocks(prev: ClientState, logId: nat, now: nat)
    ensures var next := OnStatus(prev, Ws.Stamped(Daily.CheckinPayload(false, logId), now));
      && Route(next) == LockedView(JStr(Daily.FailureMessage)) && next.currentTask == prev.currentTask
  {
    var p := Ws.Stamped(Daily.CheckinPayload(false, logId), now);
    assert Get(p, "status") == Some(JStr("needs_intervention"));
    assert Get(p, "message") == Some(JStr(Daily.FailureMessage));
    assert Get(p, "currentTask") == None && Get(p, "task") == None;
  }

  /**
   * The initial load. `body` is the parsed reply of a successful request;
   * None stands for a request that threw (a failed fetch or a non-2xx
   * reply), which falls back to on track.
   */
  function LoadState(body: Option<Json>): (s: ClientState)
    ensures body.None? ==> s == Initial
    ensures s.message == JStr("") && Truthy(Some(s.status))
  {
    if body.None? then Initial
    else
      var data := Prop(body, "data");
      ClientState(OrElse(Prop(data, "status"), JStr("on_track")),
                  OrElse(Prop(data, "currentTask"), JNull),
                  JStr(""),
                  OrElse(Prop(data, "latestIntervention"), JNull))
  }

  datatype View = LockedView(message: Json) | RemedialView(task: Json, interventionId: Field) | NormalView

  /** The status→view routing; the comparisons are strict equality with the two texts. */
  function Route(s: ClientState): (v: View)
    ensures v.LockedView? <==> s.status == JStr("needs_intervention")
    ensures v.RemedialView? <==> s.status == JStr("remedial")
    ensures v.NormalView? <==> s.status != JStr("needs_intervention") && s.status != JStr("remedial")
  {
    if s.status == JStr("needs_intervention") then LockedView(s.message)
    else if s.status == JStr("remedial") then RemedialView(s.currentTask, Prop(Some(s.latestIntervention), "id"))
    else NormalView
  }

  /** Loading a served view: its status text, its task (blank text reads as null) and its latest intervention. */
  lemma LoadOfView(v: StudentRead.StudentView)
    ensures var s := LoadState(StudentRead.ResponseBody(Ok(200, v)));
      && s.status == JStr(StatusText(v.status))
      && (v.currentTask.Some? && v.currentTask.value != "" ==> s.currentTask == JStr(v.currentTask.value))
      && s.latestIntervention == (if v.latestIntervention.Some? then StudentRead.InterventionJson(v.latestIntervention.value) else JNull)
  {
    var st := StudentRead.StudentJson(v);
    assert Prop(StudentRead.ResponseBody(Ok(200, v)), "data") == Some(st);
    assert Prop(Some(st), "status") == Some(JStr(StatusText(v.status)));
    assert Prop(Some(st), "currentTask") == Some(StudentRead.OptText(v.currentTask));
    assert Prop(Some(st), "latestIntervention")
        == Some(if v.latestIntervention.Some? then StudentRead.InterventionJson(v.latestIntervention.value) else JNull);
  }

  /** The view a served student view opens, given that a remedial view always carries a non-blank task. */
  lemma RouteOfView(v: StudentRead.StudentView)
    requires v.status == Remedial ==> v.currentTask.Some? && v.currentTask.value != ""
    ensures var w := Route(LoadState(StudentRead.ResponseBody(Ok(200, v))));
      && (w.LockedView? <==> v.status == NeedsIntervention)
      && (w.NormalView? <==> v.status == OnTrack)
      && (v.status == Remedial ==>
            && w.RemedialView? && w.task == JStr(v.currentTask.value)
            && w.interventionId == (if v.latestIntervention.Some? then Some(JNum(v.latestIntervention.value.id)) else None))
  {
    LoadOfView(v);
    if v.latestIntervention.Some? {
      var iv := StudentRead.InterventionJson(v.latestIntervention.value);
      assert Prop(Some(iv), "id") == Some(JNum(v.latestIntervention.value.id));
    }
  }

  /**
   * End to end: the view the client opens on is the one the stored status
   * calls for. A remedial student's view carries the stored task and the id
   * of the intervention the read returns as the latest, which is the
   * student's newest (`StudentRead.ReadStudent`), and no id exactly when
   * the student has none; a failed read shows the normal view.
   */
  lemma LoadedViewFollowsServer(students: map<string, Student>, ivs: seq<Intervention>, studentId: string,
                                fault: Option<DbError>)
    requires forall k :: k in students ==> StudentOk(students[k])
    ensures var r := StudentRead.ReadStudent(students, ivs, studentId, fault);
      var v := Route(LoadState(StudentRead.ResponseBody(r)));
      && (r.Fail? ==> v == NormalView)
      && (r.Ok? ==>
            var s := students[studentId];
            && (v.LockedView? <==> s.status == NeedsIntervention)
            && (v.NormalView? <==> s.status == OnTrack)
            && (s.status == Remedial ==>
                  && s.currentTask.Some? && v.RemedialView? && v.task == JStr(s.currentTask.value)
                  && (v.interventionId.None? <==> forall i :: 0 <= i < |ivs| ==> ivs[i].studentId != studentId)
                  && v.interventionId == (if r.data.latestIntervention.Some? then Some(JNum(r.data.latestIntervention.value.id))
                                          else None)))
  {
    var r := StudentRead.ReadStudent(students, ivs, studentId, fault);
    if r.Ok? {
      assert StudentOk(students[studentId]);
      RouteOfView(r.data);
    }
  }

  /** What every (re)connect sends: `subscribe` with the page's student id. */
  function SubscribeMessage(param: Option<string>): map<string, Json> {
    map["student_id" := JStr(GetStudentId(param))]
  }

  /**
   * Whatever the page id, the subscription joins exactly the room the
   * server's routes push updates for that id to.
   */
  lemma SubscribeMatchesEmit(param: Option<string>)
    ensures Ws.NormalizeStudentId(Get(SubscribeMessage(param), "student_id"))
         == Ws.NormalizeStudentId(Some(JStr(GetStudentId(param))))
  {
    assert Get(SubscribeMessage(param), "student_id") == Some(JStr(GetStudentId(param)));
  }

  /** A page id with no whitespace at its ends is the very id the server normalises it to. */
  lemma SubscribeKeepsPageId(param: Option<string>)
    requires NoEdgeSpace(GetStudentId(param))
    ensures Ws.NormalizeStudentId(Get(SubscribeMessage(param), "student_id")) == Some(GetStudentId(param))
  {
    SubscribeMatchesEmit(param);
    Ws.NormalizeTrimmed(GetStudentId(param));
  }

  /** Without a query parameter the page subscribes to the default student's room. */
  lemma DefaultSubscription()
    ensures Ws.NormalizeStudentId(Get(SubscribeMessage(None), "student_id")) == Some(DefaultStudentId)
  {
    SubscribeKeepsPageId(None);
  }
}
