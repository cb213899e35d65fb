/**
 * The daily check-in (server/src/routes/daily.js): the success rule, the
 * log row every accepted check-in appends, the two student transitions,
 * the failure webhook and the pushed status.
 */
module Daily {
  import opened Text
  import opened Json
  import opened Tables
  import Ws

  const QuizThreshold := 7
  const FocusThreshold := 60

  /** The success rule: quiz above 7, focus above 60 and no cheat flag. */
  predicate IsSuccess(focusMinutes: int, quizScore: int, cheaterDetected: bool) {
    quizScore > QuizThreshold && focusMinutes > FocusThreshold && !cheaterDetected
  }

  /** Both thresholds are strict: a quiz score of 7 or a focus time of 60 fails. */
  lemma ThresholdsAreStrict(focusMinutes: int, quizScore: int, cheaterDetected: bool)
    ensures !IsSuccess(FocusThreshold, quizScore, cheaterDetected)
    ensures !IsSuccess(focusMinutes, QuizThreshold, cheaterDetected)
    ensures IsSuccess(FocusThreshold + 1, QuizThreshold + 1, false)
  {
  }

  /** A cheat flag fails the check-in whatever the numbers are. */
  lemma CheatForcesFailure(focusMinutes: int, quizScore: int)
    ensures !IsSuccess(focusMinutes, quizScore, true)
  {
  }

  datatype FailureReason = LowFocus(minutes: int) | LowQuiz(score: int) | CheatFlag

  /** The order in which `determineFailureReason` pushes the reasons. */
  function Rank(r: FailureReason): nat {
    match r
    case LowFocus(_) => 0
    case LowQuiz(_) => 1
    case CheatFlag => 2
  }

  function ReasonText(r: FailureReason): (t: string)
    ensures t != ""
  {
    match r
    case LowFocus(m) => "Low focus time: " + DecimalString(m) + " minutes (needed > " + DecimalString(FocusThreshold) + ")"
    case LowQuiz(q) => "Low quiz score: " + DecimalString(q) + " (needed > " + DecimalString(QuizThreshold) + ")"
    case CheatFlag => "Cheater detection triggered (tab switch / hidden window)"
  }

  /**
   * The reasons `determineFailureReason` collects. The focus test is
   * `focusMinutes < 60`, while the success rule needs more than 60.
   */
  function FailureReasons(focusMinutes: int, quizScore: int, cheaterDetected: bool): (rs: seq<FailureReason>)
    ensures LowFocus(focusMinutes) in rs <==> focusMinutes < FocusThreshold
    ensures LowQuiz(quizScore) in rs <==> quizScore <= QuizThreshold
    ensures CheatFlag in rs <==> cheaterDetected
    ensures forall i :: 0 <= i < |rs| ==> rs[i] == LowFocus(focusMinutes) || rs[i] == LowQuiz(quizScore) || rs[i] == CheatFlag
    ensures forall i, j :: 0 <= i < j < |rs| ==> Rank(rs[i]) < Rank(rs[j])
  {
    var focus := if focusMinutes < FocusThreshold then [LowFocus(focusMinutes)] else [];
    var quiz := if quizScore <= QuizThreshold then [LowQuiz(quizScore)] else [];
    var cheat := if cheaterDetected then [CheatFlag] else [];
    focus + quiz + cheat
  }

  function ReasonTexts(rs: seq<FailureReason>): (ts: seq<string>)
    ensures |ts| == |rs| && forall i :: 0 <= i < |ts| ==> ts[i] == ReasonText(rs[i])
  {
    seq(|rs|, i requires 0 <= i < |rs| => ReasonText(rs[i]))
  }

  /** `determineFailureReason(...)`: the reason texts joined with "; ". */
  function DetermineFailureReason(focusMinutes: int, quizScore: int, cheaterDetected: bool): string {
    Join(ReasonTexts(FailureReasons(focusMinutes, quizScore, cheaterDetected)), "; ")
  }

  /** The reason is empty exactly when none of the three tests fires. */
  lemma EmptyReasonIff(focusMinutes: int, quizScore: int, cheaterDetected: bool)
    ensures DetermineFailureReason(focusMinutes, quizScore, cheaterDetected) == ""
        <==> focusMinutes >= FocusThreshold && quizScore > QuizThreshold && !cheaterDetected
  {
    var rs := FailureReasons(focusMinutes, quizScore, cheaterDetected);
    JoinEmptyIff(ReasonTexts(rs), "; ");
    if rs != [] {
      assert rs[0] in rs;
    }
  }

  /**
   * A failed check-in comes with an empty reason exactly when the focus
   * time is 60 and the rest passes: the one failure the reasons miss.
   */
  lemma SilentFailureIff(focusMinutes: int, quizScore: int, cheaterDetected: bool)
    ensures !IsSuccess(focusMinutes, quizScore, cheaterDetected)
            && DetermineFailureReason(focusMinutes, quizScore, cheaterDetected) == ""
        <==> focusMinutes == FocusThreshold && quizScore > QuizThreshold && !cheaterDetected
  {
    EmptyReasonIff(focusMinutes, quizScore, cheaterDetected);
  }

  /** Every other failure carries at least one reason. */
  lemma FailureExplained(focusMinutes: int, quizScore: int, cheaterDetected: bool)
    requires !IsSuccess(focusMinutes, quizScore, cheaterDetected) && focusMinutes != FocusThreshold
    ensures DetermineFailureReason(focusMinutes, quizScore, cheaterDetected) != ""
  {
    EmptyReasonIff(focusMinutes, quizScore, cheaterDetected);
  }

  /** The request body after its defaults (`= 0`, `= false`) are applied. */
  datatype CheckinRequest = CheckinRequest(
    studentId: string,
    focusMinutes: int,
    quizScore: int,
    pageVisibilityEvents: int,
    cheaterDetected: bool)

  datatype CheckinData = CheckinData(status: Status, message: string, logId: nat)

  /** The body `sendWebhook` posts on a failure. */
  datatype WebhookCall = WebhookCall(
    url: string,
    studentId: string,
    focusMinutes: int,
    quizScore: int,
    cheaterDetected: bool,
    reason: string,
    logId: nat)

  /** The success UPDATE: back on track, task cleared, check-in stamped. */
  function CheckedIn(s: Student, t: nat): (r: Student)
    ensures StudentOk(r)
    ensures r.status == OnTrack && r.currentTask.None? && r.lastCheckinAt == Some(t)
    ensures r.lockedAt == s.lockedAt && r.unlockedAt == s.unlockedAt
  {
    s.(status := OnTrack, currentTask := None, lastCheckinAt := Some(t))
  }

  /** The failure UPDATE: locked; the task and the last check-in stay as they were. */
  function Locked(s: Student, t: nat): (r: Student)
    ensures StudentOk(r)
    ensures r.status == NeedsIntervention && r.lockedAt == Some(t)
    ensures r.currentTask == s.currentTask && r.lastCheckinAt == s.lastCheckinAt && r.unlockedAt == s.unlockedAt
  {
    s.(status := NeedsIntervention, lockedAt := Some(t))
  }

  /** The students table after the check-in UPDATE at time `t` (`WHERE student_id = $1`). */
  function AfterCheckin(students: map<string, Student>, sid: string, success: bool, t: nat)
    : (r: map<string, Student>)
    ensures r.Keys == students.Keys
    ensures forall k :: k in students && k != sid ==> r[k] == students[k]
    ensures sid in students && success ==> r[sid] == CheckedIn(students[sid], t)
    ensures sid in students && !success ==> r[sid] == Locked(students[sid], t)
  {
    if sid !in students then students
    else if success then students[sid := CheckedIn(students[sid], t)]
    else students[sid := Locked(students[sid], t)]
  }

  /** The check-in keeps the remedial-task invariant of every row. */
  lemma AfterCheckinKeepsInvariant(students: map<string, Student>, sid: string, success: bool, t: nat)
    requires forall k :: k in students ==> StudentOk(students[k])
    ensures var r := AfterCheckin(students, sid, success, t); forall k :: k in r ==> StudentOk(r[k])
  {
  }

  /** What the check-in pushes to the student's room. */
  function CheckinPayload(success: bool, logId: nat): map<string, Json> {
    if success then
      map["status" := JStr("on_track"), "message" := JStr("Great job! You're on track."), "logId" := JNum(logId)]
    else
      map["status" := JStr("needs_intervention"),
          "message" := JStr("Analysis in progress. Waiting for mentor..."), "logId" := JNum(logId)]
  }

  const FailureMessage := "Analysis in progress. Waiting for mentor..."

  /**
   * `POST /api/daily/checkin`. Query 0 is the log INSERT, query 1 the
   * student UPDATE; the clock is read by the INSERT, the UPDATE and the
   * emit's timestamp, in that order. The webhook call, if any, is
   * returned; its outcome never reaches the reply.
   */
  method Checkin(db: Database, hub: Ws.SocketHub, req: CheckinRequest, webhookUrl: string, fault: Fault)
    returns (reply: Reply<CheckinData>, hook: Option<WebhookCall>)
    requires db.Valid() && hub.Valid()
    modifies db, hub`outbox
    ensures db.Valid() && hub.Valid()
    ensures db.interventions == old(db.interventions)
    ensures req.studentId == "" ==>
      && reply == Fail(400, "studentId is required") && hook.None?
      && unchanged(db) && hub.outbox == old(hub.outbox)
    ensures req.studentId != "" && fault.Hits(0) ==>
      && reply == Fail(500, "Internal server error") && hook.None?
      && unchanged(db) && hub.outbox == old(hub.outbox)
    ensures req.studentId != "" && !fault.Hits(0) ==>
      var success := IsSuccess(req.focusMinutes, req.quizScore, req.cheaterDetected);
      && db.logs == old(db.logs) + [DailyLog(req.studentId, req.focusMinutes, req.quizScore, req.pageVisibilityEvents,
                                             req.cheaterDetected, success, old(db.clock) + 1)]
      && (fault.Hits(1) ==>
            && reply == Fail(500, "Internal server error") && hook.None?
            && db.students == old(db.students) && db.clock == old(db.clock) + 1
            && hub.outbox == old(hub.outbox))
      && (!fault.Hits(1) ==>
            var logId := |old(db.logs)| + 1;
            && db.students == AfterCheckin(old(db.students), req.studentId, success, old(db.clock) + 2)
            && db.clock == old(db.clock) + 3
            && hook == (if !success && webhookUrl != "" then
                          Some(WebhookCall(webhookUrl, req.studentId, req.focusMinutes, req.quizScore, req.cheaterDetected,
                                           DetermineFailureReason(req.focusMinutes, req.quizScore, req.cheaterDetected),
                                           logId))
                        else None)
            && hub.outbox == old(hub.outbox) + Ws.StatusOut(hub.ioReady, hub.rooms, Some(JStr(req.studentId)),
                                                            CheckinPayload(success, logId), db.clock)
            && reply == (if success then Ok(200, CheckinData(OnTrack, "Check-in successful", logId))
                         else Ok(200, CheckinData(NeedsIntervention, FailureMessage, logId))))
  {
    hook := None;
    if req.studentId == "" {
      return Fail(400, "studentId is required"), None;
    }
    var isSuccess := req.quizScore > QuizThreshold && req.focusMinutes > FocusThreshold && !req.cheaterDetected;

    if fault.Hits(0) {
      return Fail(500, "Internal server error"), None;
    }
    var logId := db.InsertLog(req.studentId, req.focusMinutes, req.quizScore, req.pageVisibilityEvents,
                              req.cheaterDetected, isSuccess);

    if fault.Hits(1) {
      return Fail(500, "Internal server error"), None;
    }
    var now := db.Tick();
    if req.studentId in db.students {
      var row := db.students[req.studentId];
      db.UpdateStudent(req.studentId, if isSuccess then CheckedIn(row, now) else Locked(row, now));
    }

    if !isSuccess && webhookUrl != "" {
      hook := Some(WebhookCall(webhookUrl, req.studentId, req.focusMinutes, req.quizScore, req.cheaterDetected,
                               DetermineFailureReason(req.focusMinutes, req.quizScore, req.cheaterDetected), logId));
    }

    hub.EmitStatusNow(db, Some(JStr(req.studentId)), CheckinPayload(isSuccess, logId));

    if isSuccess {
      reply := Ok(200, CheckinData(OnTrack, "Check-in successful", logId));
    } else {
      reply := Ok(200, CheckinData(NeedsIntervention, FailureMessage, logId));
    }
  }
}
