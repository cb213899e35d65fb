/**
 * The persistent state the server routes read and write: the `students`,
 * `daily_logs` and `interventions` tables, a wall clock, the database
 * errors a query can raise, and the shape of an HTTP reply.
 *
 * Row ids are serial: the row at index i of `logs` or `interventions`
 * has id i + 1.
 */
module Tables {
  import opened Text
  import opened Json

  datatype Status = OnTrack | NeedsIntervention | Remedial

  /** The text stored in `students.status` and sent to clients. */
  function StatusText(s: Status): string {
    match s
    case OnTrack => "on_track"
    case NeedsIntervention => "needs_intervention"
    case Remedial => "remedial"
  }

  /** A `students` row; timestamps are readings of the clock. */
  datatype Student = Student(
    status: Status,
    currentTask: Option<string>,
    lastCheckinAt: Option<nat>,
    lockedAt: Option<nat>,
    unlockedAt: Option<nat>)

  /** A `daily_logs` row. */
  datatype DailyLog = DailyLog(
    studentId: string,
    focusMinutes: int,
    quizScore: int,
    pageVisibilityEvents: int,
    cheaterDetected: bool,
    isSuccess: bool,
    createdAt: nat)

  datatype InterventionStatus = Assigned | Completed

  function InterventionStatusText(s: InterventionStatus): string {
    match s
    case Assigned => "assigned"
    case Completed => "completed"
  }

  /** An `interventions` row. */
  datatype Intervention = Intervention(
    studentId: string,
    task: string,
    mentorNotes: Option<string>,
    status: InterventionStatus,
    assignedAt: nat,
    createdAt: nat,
    completedAt: Option<nat>)

  /** What a failing query reports in `error.code`. */
  datatype DbError =
    | ForeignKeyViolation   // 23503
    | UniqueViolation       // 23505
    | ConnectionRefused     // ECONNREFUSED
    | LockWaitTimeout       // ER_LOCK_WAIT_TIMEOUT
    | BadFieldError         // ER_BAD_FIELD_ERROR
    | OtherError

  /**
   * Which query of a handler throws, if any. Each handler numbers its
   * queries from 0 in the order it issues them.
   */
  datatype Fault = NoFault | FailAt(step: nat, error: DbError) {
    predicate Hits(k: nat) {
      FailAt? && step == k
    }
  }

  /** An HTTP reply: a status code with either the data or the `error` text. */
  datatype Reply<T> = Ok(code: nat, data: T) | Fail(code: nat, error: string)

  /** The student-row invariant: a remedial student always has a trimmed, non-blank task. */
  predicate StudentOk(s: Student) {
    s.status == Remedial ==> s.currentTask.Some? && TrimmedNonEmpty(s.currentTask.value)
  }

  function LogCreatedAt(l: DailyLog): nat { l.createdAt }

  function InterventionCreatedAt(i: Intervention): nat { i.createdAt }

  predicate StrictlyIncreasing<T>(s: seq<T>, key: T -> nat) {
    forall i, j :: 0 <= i < j < |s| ==> key(s[i]) < key(s[j])
  }

  /** The index of the last element satisfying `p`, if any. */
  function LastIndexWhere<T>(s: seq<T>, p: T -> bool): (r: Option<nat>)
    ensures r.None? <==> forall i :: 0 <= i < |s| ==> !p(s[i])
    ensures r.Some? ==> r.value < |s| && p(s[r.value])
    ensures r.Some? ==> forall j :: r.value < j < |s| ==> !p(s[j])
  {
    if s == [] then None
    else if p(s[|s| - 1]) then Some(|s| - 1)
    else LastIndexWhere(s[..|s| - 1], p)
  }

  /**
   * On rows whose keys increase along the table, the last row matching `p`
   * is the matching row with the greatest key: `ORDER BY created_at DESC LIMIT 1`.
   */
  lemma LastIndexIsNewest<T>(s: seq<T>, p: T -> bool, key: T -> nat, j: nat)
    requires StrictlyIncreasing(s, key)
    requires j < |s| && p(s[j])
    ensures LastIndexWhere(s, p).Some?
    ensures var k := LastIndexWhere(s, p).value; j == k || key(s[j]) < key(s[k])
  {
  }

  /** Appending an element whose key exceeds every earlier key keeps the order. */
  lemma AppendIncreasing<T>(s: seq<T>, x: T, key: T -> nat)
    requires StrictlyIncreasing(s, key)
    requires forall i :: 0 <= i < |s| ==> key(s[i]) < key(x)
    ensures StrictlyIncreasing(s + [x], key)
  {
    var t := s + [x];
    forall i, j | 0 <= i < j < |t|
      ensures key(t[i]) < key(t[j])
    {
      if j == |s| {
        assert t[i] == s[i];
      } else {
        assert t[i] == s[i] && t[j] == s[j];
      }
    }
  }

  class Database {
    var students: map<string, Student>
    var logs: seq<DailyLog>
    var interventions: seq<Intervention>
    /** The server's wall clock; NOW() and new Date() both read it. */
    var clock: nat

    ghost predicate Valid()
      reads this
    {
      && StrictlyIncreasing(logs, LogCreatedAt)
      && (forall i :: 0 <= i < |logs| ==> logs[i].createdAt <= clock)
      && StrictlyIncreasing(interventions, InterventionCreatedAt)
      && (forall i :: 0 <= i < |interventions| ==> interventions[i].createdAt <= clock)
      && (forall i :: 0 <= i < |interventions| ==> interventions[i].studentId in students)
      && (forall sid :: sid in students ==> StudentOk(students[sid]))
    }

    /** A database seeded with on-track students and no logs or interventions. */
    constructor (seed: set<string>)
      ensures Valid()
      ensures students == map sid | sid in seed :: Student(OnTrack, None, None, None, None)
      ensures logs == [] && interventions == [] && clock == 0
    {
      students := map sid | sid in seed :: Student(OnTrack, None, None, None, None);
      logs := [];
      interventions := [];
      clock := 0;
    }

    /** `INSERT INTO daily_logs ... RETURNING id`: `created_at` defaults to the current time. */
    method InsertLog(studentId: string, focusMinutes: int, quizScore: int, pageVisibilityEvents: int,
                     cheaterDetected: bool, isSuccess: bool)
      returns (id: nat)
      requires Valid()
      modifies this`logs, this`clock
      ensures Valid()
      ensures clock == old(clock) + 1
      ensures logs == old(logs) + [DailyLog(studentId, focusMinutes, quizScore, pageVisibilityEvents,
                                            cheaterDetected, isSuccess, clock)]
      ensures id == |logs| && id == |old(logs)| + 1
    {
      clock := clock + 1;
      var row := DailyLog(studentId, focusMinutes, quizScore, pageVisibilityEvents, cheaterDetected, isSuccess, clock);
      AppendIncreasing(logs, row, LogCreatedAt);
      logs := logs + [row];
      id := |logs|;
    }

    /** `INSERT INTO interventions ... RETURNING *` for a student that exists (the foreign key holds). */
    method InsertIntervention(studentId: string, task: string, mentorNotes: Option<string>)
      returns (id: nat)
      requires Valid() && studentId in students
      modifies this`interventions, this`clock
      ensures Valid()
      ensures clock == old(clock) + 1
      ensures interventions == old(interventions) + [Intervention(studentId, task, mentorNotes, Assigned, clock, clock, None)]
      ensures id == |interventions| && id == |old(interventions)| + 1
    {
      clock := clock + 1;
      var row := Intervention(studentId, task, mentorNotes, Assigned, clock, clock, None);
      AppendIncreasing(interventions, row, InterventionCreatedAt);
      interventions := interventions + [row];
      id := |interventions|;
    }

    /** An UPDATE of one existing `students` row to a row that keeps the invariant. */
    method UpdateStudent(sid: string, row: Student)
      requires Valid() && sid in students && StudentOk(row)
      modifies this`students
      ensures Valid()
      ensures students == old(students)[sid := row]
    {
      students := students[sid := row];
    }

    /** `UPDATE interventions SET status = 'completed', completed_at = t WHERE id = k + 1`. */
    method MarkCompleted(k: nat, t: nat)
      requires Valid() && k < |interventions|
      modifies this`interventions
      ensures Valid()
      ensures interventions == old(interventions)[k := old(interventions)[k].(status := Completed, completedAt := Some(t))]
    {
      interventions := interventions[k := interventions[k].(status := Completed, completedAt := Some(t))];
      assert forall i :: 0 <= i < |interventions| ==> interventions[i].createdAt == old(interventions)[i].createdAt;
    }

    /** Reads the clock; every reading is later than all earlier ones. */
    method Tick() returns (t: nat)
      requires Valid()
      modifies this`clock
      ensures Valid()
      ensures clock == old(clock) + 1 && t == clock
    {
      clock := clock + 1;
      t := clock;
    }
  }
}
