/**
 * Cheat-signal ingest (server/src/utils/logCheaterEvent.js): flags the
 * most recent daily log row of a student, one event at a time or in a
 * batch.
 */
module CheaterLog {
  import opened Text
  import opened Json
  import opened Tables

  /** The object `logCheaterEvent` resolves to; it never rejects. */
  datatype LogOutcome =
    | InvalidStudentId
    | NoLogRow(studentId: int)
    | Logged(studentId: int, reason: Json)
    | DbFailure(studentId: int, reason: Json, error: DbError)
  {
    /** The `success` field. */
    predicate Success() {
      Logged?
    }
  }

  /** The id check: only a number greater than zero passes. */
  predicate ValidCheaterId(v: Field) {
    v.Some? && v.value.JNum? && v.value.n > 0
  }

  /** The `reason = 'unknown'` default: it applies only when the argument is undefined. */
  function ReasonOrDefault(reason: Field): Json {
    if reason.None? then JStr("unknown") else reason.value
  }

  /** The text a numeric id is compared as against `daily_logs.student_id`. */
  function LogKey(n: int): string {
    DecimalString(n)
  }

  /** The row `ORDER BY created_at DESC LIMIT 1` selects for a student. */
  function LatestLogIndex(logs: seq<DailyLog>, sid: string): Option<nat> {
    LastIndexWhere(logs, (l: DailyLog) => l.studentId == sid)
  }

  /** The UPDATE applied to the selected row. */
  function Flagged(row: DailyLog): DailyLog {
    row.(pageVisibilityEvents := row.pageVisibilityEvents + 1, cheaterDetected := true)
  }

  /** One call of `logCheaterEvent`: the table afterwards and the resolved result. */
  function CheatStep(logs: seq<DailyLog>, studentId: Field, reason: Field, fault: Option<DbError>)
    : (r: (seq<DailyLog>, LogOutcome))
    ensures |r.0| == |logs|
    ensures !ValidCheaterId(studentId) ==> r == (logs, InvalidStudentId)
    ensures r.1.Logged? <==>
      ValidCheaterId(studentId) && fault.None? && LatestLogIndex(logs, LogKey(studentId.value.n)).Some?
    ensures r.1.NoLogRow? <==>
      ValidCheaterId(studentId) && fault.None? && LatestLogIndex(logs, LogKey(studentId.value.n)).None?
    ensures r.1.DbFailure? <==> ValidCheaterId(studentId) && fault.Some?
    ensures !r.1.Logged? ==> r.0 == logs
    ensures r.1.Logged? ==> r.1.studentId == studentId.value.n && r.1.reason == ReasonOrDefault(reason)
    ensures r.1.Logged? ==>
      var k := LatestLogIndex(logs, LogKey(studentId.value.n)).value;
      && r.0[k].pageVisibilityEvents == logs[k].pageVisibilityEvents + 1
      && r.0[k].cheaterDetected
      && r.0 == logs[k := r.0[k]]
  {
    if !ValidCheaterId(studentId) then (logs, InvalidStudentId)
    else
      var n := studentId.value.n;
      var why := ReasonOrDefault(reason);
      if fault.Some? then (logs, DbFailure(n, why, fault.value))
      else
        match LatestLogIndex(logs, LogKey(n))
        case None => (logs, NoLogRow(n))
        case Some(k) => (logs[k := Flagged(logs[k])], Logged(n, why))
  }

  /** An id given as text, as the socket handler passes it, is rejected before any query. */
  lemma TextIdRejected(logs: seq<DailyLog>, id: string, reason: Field, fault: Option<DbError>)
    ensures CheatStep(logs, Some(JStr(id)), reason, fault) == (logs, InvalidStudentId)
  {
    assert !ValidCheaterId(Some(JStr(id)));
  }

  /** The flagged row is the student's newest one, and it keeps its place and its other columns. */
  lemma FlagsNewestRow(logs: seq<DailyLog>, n: int, reason: Field, j: nat)
    requires StrictlyIncreasing(logs, LogCreatedAt)
    requires n > 0 && j < |logs| && logs[j].studentId == LogKey(n)
    ensures CheatStep(logs, Some(JNum(n)), reason, None).1.Logged?
    ensures var k := LatestLogIndex(logs, LogKey(n)).value;
      && (j == k || logs[j].createdAt < logs[k].createdAt)
      && CheatStep(logs, Some(JNum(n)), reason, None).0[k]
         == logs[k].(pageVisibilityEvents := logs[k].pageVisibilityEvents + 1, cheaterDetected := true)
  {
    LastIndexIsNewest(logs, (l: DailyLog) => l.studentId == LogKey(n), LogCreatedAt, j);
  }

  /** `logCheaterEvent(studentId, reason)`; a thrown query becomes `fault`. */
  method LogCheaterEvent(db: Database, studentId: Field, reason: Field, fault: Option<DbError>)
    returns (r: LogOutcome)
    requires db.Valid()
    modifies db`logs
    ensures db.Valid()
    ensures (db.logs, r) == CheatStep(old(db.logs), studentId, reason, fault)
  {
    if !(studentId.Some? && studentId.value.JNum? && studentId.value.n > 0) {
      return InvalidStudentId;
    }
    var n := studentId.value.n;
    var why := if reason.None? then JStr("unknown") else reason.value;
    if fault.Some? {
      return DbFailure(n, why, fault.value);
    }
    var k := LatestLogIndex(db.logs, LogKey(n));
    if k.None? {
      return NoLogRow(n);
    }
    var row := db.logs[k.value];
    db.logs := db.logs[k.value := row.(pageVisibilityEvents := row.pageVisibilityEvents + 1,
                                       cheaterDetected := true)];
    assert db.logs == old(db.logs)[k.value := Flagged(row)];
    assert forall i :: 0 <= i < |db.logs| ==> db.logs[i].createdAt == old(db.logs)[i].createdAt;
    r := Logged(n, why);
  }

  /** What the batch reads from each element: `event.studentId` and `event.reason`. */
  function EventStudentId(e: Json): Field {
    Prop(Some(e), "studentId")
  }

  function EventReason(e: Json): Field {
    Prop(Some(e), "reason")
  }

  /** The batch's fault parameter: the calls (by position) whose query throws. */
  function FaultAt(i: nat, failing: set<nat>): Option<DbError> {
    if i in failing then Some(OtherError) else None
  }

  /** The table after the calls for `evs`, in order. */
  function Replay(logs: seq<DailyLog>, evs: seq<Json>, failing: set<nat>): seq<DailyLog>
    decreases |evs|
  {
    if evs == [] then logs
    else
      var i := |evs| - 1;
      CheatStep(Replay(logs, evs[..i], failing), EventStudentId(evs[i]), EventReason(evs[i]), FaultAt(i, failing)).0
  }

  /** The result of the call for `evs[i]`. */
  function ReplayResult(logs: seq<DailyLog>, evs: seq<Json>, failing: set<nat>, i: nat): LogOutcome
    requires i < |evs|
  {
    CheatStep(Replay(logs, evs[..i], failing), EventStudentId(evs[i]), EventReason(evs[i]), FaultAt(i, failing)).1
  }

  /** The results of the calls for `evs[..n]`. */
  function ReplayResults(logs: seq<DailyLog>, evs: seq<Json>, failing: set<nat>, n: nat): (rs: seq<LogOutcome>)
    requires n <= |evs|
    ensures |rs| == n
    ensures forall j :: 0 <= j < n ==> rs[j] == ReplayResult(logs, evs, failing, j)
  {
    if n == 0 then [] else ReplayResults(logs, evs, failing, n - 1) + [ReplayResult(logs, evs, failing, n - 1)]
  }

  /** Replaying one more event is one more call on the table the earlier ones left. */
  lemma ReplayStep(logs: seq<DailyLog>, xs: seq<Json>, failing: set<nat>, i: nat)
    requires i < |xs|
    ensures Replay(logs, xs[..i + 1], failing) ==
      CheatStep(Replay(logs, xs[..i], failing), EventStudentId(xs[i]), EventReason(xs[i]), FaultAt(i, failing)).0
    ensures ReplayResult(logs, xs, failing, i) ==
      CheatStep(Replay(logs, xs[..i], failing), EventStudentId(xs[i]), EventReason(xs[i]), FaultAt(i, failing)).1
  {
    assert xs[..i + 1][..i] == xs[..i];
  }

  /** `results.filter(r => r.status === 'fulfilled' && r.value.success).length`. */
  function CountSuccessful(results: seq<LogOutcome>): (n: nat)
    ensures n <= |results|
    ensures n == 0 <==> forall i :: 0 <= i < |results| ==> !results[i].Success()
    ensures n == |results| <==> forall i :: 0 <= i < |results| ==> results[i].Success()
  {
    if results == [] then 0
    else CountSuccessful(results[..|results| - 1]) + (if results[|results| - 1].Success() then 1 else 0)
  }

  /** The position of the first `null` element, where reading `event.studentId` throws. */
  function FirstNull(xs: seq<Json>): (k: nat)
    ensures k <= |xs|
    ensures forall i :: 0 <= i < k ==> xs[i] != JNull
    ensures k < |xs| ==> xs[k] == JNull
  {
    if xs == [] then 0 else if xs[0] == JNull then 0 else 1 + FirstNull(xs[1..])
  }

  datatype BatchOutcome =
    | InvalidEvents
    | Rejected
    | Summary(total: nat, successful: nat, failed: nat, results: seq<LogOutcome>)

  predicate IsEventArray(events: Field) {
    events.Some? && events.value.JArr? && |events.value.items| > 0
  }

  /** The call for `xs[i]`, on the table the calls for `xs[..i]` left. */
  method LogNext(db: Database, ghost logs: seq<DailyLog>, xs: seq<Json>, failing: set<nat>, i: nat)
    returns (r: LogOutcome)
    requires db.Valid() && i < |xs| && db.logs == Replay(logs, xs[..i], failing)
    modifies db`logs
    ensures db.Valid()
    ensures db.logs == Replay(logs, xs[..i + 1], failing)
    ensures r == ReplayResult(logs, xs, failing, i)
  {
    ReplayStep(logs, xs, failing, i);
    r := LogCheaterEvent(db, EventStudentId(xs[i]), EventReason(xs[i]), FaultAt(i, failing));
  }

  /**
   * `events.map(event => logCheaterEvent(event.studentId, event.reason))`:
   * the calls for the elements before the first `null`, whose property
   * read throws and ends the map.
   */
  method LogEach(db: Database, xs: seq<Json>, failing: set<nat>) returns (results: seq<LogOutcome>)
    requires db.Valid()
    modifies db`logs
    ensures db.Valid()
    ensures db.logs == Replay(old(db.logs), xs[..FirstNull(xs)], failing)
    ensures |results| == FirstNull(xs)
    ensures forall i :: 0 <= i < |results| ==> results[i] == ReplayResult(old(db.logs), xs, failing, i)
  {
    results := [];
    var i := 0;
    while i < |xs| && xs[i] != JNull
      invariant 0 <= i <= FirstNull(xs)
      invariant db.Valid()
      invariant db.logs == Replay(old(db.logs), xs[..i], failing)
      invariant |results| == i
      invariant results == ReplayResults(old(db.logs), xs, failing, i)
    {
      var r := LogNext(db, old(db.logs), xs, failing, i);
      results := results + [r];
      i := i + 1;
    }
  }

  /**
   * `logCheaterEventsBatch(events)`. The calls run one after another here;
   * the source starts them together, and each one's UPDATE is a single
   * statement, so the table ends the same.
   */
  method LogCheaterEventsBatch(db: Database, events: Field, failing: set<nat>) returns (b: BatchOutcome)
    requires db.Valid()
    modifies db`logs
    ensures db.Valid()
    ensures !IsEventArray(events) ==> b == InvalidEvents && db.logs == old(db.logs)
    ensures IsEventArray(events) ==>
      var xs := events.value.items;
      var k := FirstNull(xs);
      && db.logs == Replay(old(db.logs), xs[..k], failing)
      && (k < |xs| ==> b == Rejected)
      && (k == |xs| ==>
            && b.Summary? && b.total == |xs| && |b.results| == |xs|
            && b.successful == CountSuccessful(b.results)
            && b.successful + b.failed == b.total
            && forall i :: 0 <= i < |xs| ==> b.results[i] == ReplayResult(old(db.logs), xs, failing, i))
  {
    if !(events.Some? && events.value.JArr? && |events.value.items| > 0) {
      return InvalidEvents;
    }
    var xs := events.value.items;
    var results := LogEach(db, xs, failing);
    if |results| < |xs| {
      return Rejected;
    }
    var successful := CountSuccessful(results);
    b := Summary(|results|, successful, |results| - successful, results);
  }
}
