/**
 * The status read (server/src/routes/student.js): the student row plus its
 * latest intervention by `created_at`. It reads and never writes, so it is
 * a function of the tables.
 */
module StudentRead {
  import opened Text
  import opened Json
  import opened Tables

  datatype InterventionView = InterventionView(
    id: nat,
    task: string,
    mentorNotes: Option<string>,
    status: InterventionStatus,
    createdAt: nat,
    completedAt: Option<nat>)

  datatype StudentView = StudentView(
    studentId: string,
    status: Status,
    currentTask: Option<string>,
    lastCheckinAt: Option<nat>,
    lockedAt: Option<nat>,
    unlockedAt: Option<nat>,
    latestIntervention: Option<InterventionView>)

  /** The index of the student's latest intervention, as the subquery picks it. */
  function LatestIntervention(ivs: seq<Intervention>, sid: string): Option<nat> {
    LastIndexWhere(ivs, (iv: Intervention) => iv.studentId == sid)
  }

  /** On a table kept in creation order, the latest intervention has the greatest `created_at` of the student's. */
  lemma LatestIsNewest(ivs: seq<Intervention>, sid: string, j: nat)
    requires StrictlyIncreasing(ivs, InterventionCreatedAt)
    requires j < |ivs| && ivs[j].studentId == sid
    ensures LatestIntervention(ivs, sid).Some?
    ensures var k := LatestIntervention(ivs, sid).value;
      ivs[k].studentId == sid && (j == k || ivs[j].createdAt < ivs[k].createdAt)
  {
    LastIndexIsNewest(ivs, (iv: Intervention) => iv.studentId == sid, InterventionCreatedAt, j);
  }

  /** The row at index `k` as the response shows it (its id is `k + 1`). */
  function ViewOf(ivs: seq<Intervention>, k: nat): InterventionView
    requires k < |ivs|
  {
    var iv := ivs[k];
    InterventionView(k + 1, iv.task, iv.mentorNotes, iv.status, iv.createdAt, iv.completedAt)
  }

  /** The `latestIntervention` field: the view of the student's last row, if any. */
  function LatestView(ivs: seq<Intervention>, sid: string): (r: Option<InterventionView>)
    ensures r.None? <==> forall i :: 0 <= i < |ivs| ==> ivs[i].studentId != sid
    ensures r.Some? ==>
      && 1 <= r.value.id <= |ivs| && ivs[r.value.id - 1].studentId == sid
      && r.value == ViewOf(ivs, r.value.id - 1)
      && forall j :: r.value.id <= j < |ivs| ==> ivs[j].studentId != sid
  {
    match LatestIntervention(ivs, sid)
    case None => None
    case Some(k) => Some(ViewOf(ivs, k))
  }

  /** How the handler's `catch` turns a database error into a reply. */
  function ReadError<T>(e: DbError): (r: Reply<T>)
    ensures r.Fail?
    ensures r.code == 503 <==> e == ConnectionRefused || e == LockWaitTimeout
    ensures r.code == 500 <==> e != ConnectionRefused && e != LockWaitTimeout
  {
    match e
    case ConnectionRefused => Fail(503, "Database connection failed")
    case LockWaitTimeout => Fail(503, "Database lock timeout")
    case BadFieldError => Fail(500, "Database schema error")
    case _ => Fail(500, "Failed to fetch student data")
  }

  /**
   * `GET /api/student/:studentId`. A missing or blank id is refused
   * (`Text.TrimSpec`: the trim is empty exactly for blank text); the
   * lookup itself uses the id as given, untrimmed. `fault` is the error the
   * one query throws, if any.
   */
  function ReadStudent(students: map<string, Student>, ivs: seq<Intervention>, studentId: string,
                       fault: Option<DbError>): (r: Reply<StudentView>)
    ensures Trim(studentId) == "" ==> r == Fail(400, "Invalid studentId")
    ensures Trim(studentId) != "" && fault.Some? ==> r == ReadError(fault.value)
    ensures Trim(studentId) != "" && fault.None? && studentId !in students ==> r == Fail(404, "Student not found")
    ensures r.Ok? <==> Trim(studentId) != "" && fault.None? && studentId in students
    ensures r.Ok? ==>
      var s := students[studentId];
      && r.code == 200
      && r.data.studentId == studentId
      && r.data.status == s.status && r.data.currentTask == s.currentTask
      && r.data.lastCheckinAt == s.lastCheckinAt && r.data.lockedAt == s.lockedAt && r.data.unlockedAt == s.unlockedAt
      && (r.data.latestIntervention.None? <==> forall i :: 0 <= i < |ivs| ==> ivs[i].studentId != studentId)
      && (r.data.latestIntervention.Some? ==>
            var v := r.data.latestIntervention.value;
            && 1 <= v.id <= |ivs| && ivs[v.id - 1].studentId == studentId
            && v == ViewOf(ivs, v.id - 1)
            && forall j :: v.id <= j < |ivs| ==> ivs[j].studentId != studentId)
  {
    if Trim(studentId) == "" then Fail(400, "Invalid studentId")
    else if fault.Some? then ReadError(fault.value)
    else if studentId !in students then Fail(404, "Student not found")
    else
      var s := students[studentId];
      Ok(200, StudentView(studentId, s.status, s.currentTask, s.lastCheckinAt, s.lockedAt, s.unlockedAt,
                          LatestView(ivs, studentId)))
  }

  function OptText(o: Option<string>): Json {
    if o.Some? then JStr(o.value) else JNull
  }

  function OptTime(o: Option<nat>): Json {
    if o.Some? then JNum(o.value) else JNull
  }

  function InterventionJson(v: InterventionView): Json {
    JObj(map["id" := JNum(v.id), "task" := JStr(v.task), "mentorNotes" := OptText(v.mentorNotes),
             "status" := JStr(InterventionStatusText(v.status)), "createdAt" := JNum(v.createdAt),
             "completedAt" := OptTime(v.completedAt)])
  }

  function StudentJson(v: StudentView): Json {
    JObj(map["studentId" := JStr(v.studentId), "status" := JStr(StatusText(v.status)),
             "currentTask" := OptText(v.currentTask), "lastCheckinAt" := OptTime(v.lastCheckinAt),
             "lockedAt" := OptTime(v.lockedAt), "unlockedAt" := OptTime(v.unlockedAt),
             "latestIntervention" := if v.latestIntervention.Some? then InterventionJson(v.latestIntervention.value) else JNull])
  }

  /**
   * The body a client receives: `{ success: true, data }` for a 2xx reply.
   * For any other reply the client's `apiCall` throws, so there is no body.
   */
  function ResponseBody(r: Reply<StudentView>): (b: Option<Json>)
    ensures b.Some? <==> r.Ok?
  {
    if r.Ok? then Some(JObj(map["success" := JBool(true), "data" := StudentJson(r.data)])) else None
  }
}
