# Intervention engine: a Dafny model of the student status core

The Intervention engine keeps one status per student: `on_track`, `needs_intervention` (locked) or `remedial`.

A daily check-in either keeps the student on track or locks them. A mentor then assigns a remedial task. Completing that task unlocks the student. Every transition is pushed over a socket room named `student_<id>`. The browser client holds the pushed state, picks one of three views from it, and reports tab switches and window blurs as cheat signals.

This project models that core and proves properties about it:

* the server's state machine:
  * the check-in, assignment, completion and status-read routes;
  * the real-time layer: rooms, subscriptions, the `cheater` and `status` handlers, and `emitStatus`;
  * the cheat-signal logger;
* the client:
  * the cheat detector;
  * the status reducer;
  * the initial load and view routing.

## Modules

* **Text** (`text.dfy`): the text operations the JavaScript uses. These are `String.prototype.trim`, with its whitespace set, plus `Array.prototype.join` and the decimal rendering of integers.
* **Json** (`json.dfy`): the JavaScript values the code reads: `undefined` as `None`, `null`, `||`, `??`, `?.` and `String()`.
* **Tables** (`tables.dfy`):
  * the three tables and their rows;
  * the database errors and the HTTP reply;
  * the `Database` class, whose fields are the tables and a clock.
* **CheaterLog** (`cheater_log.dfy`): `logCheaterEvent` and `logCheaterEventsBatch`.
* **Ws** (`ws.js` → `ws.dfy`): `normalizeStudentId`, room names, status emission, and the `SocketHub` class. Its fields are the open connections, the room membership and the outbox of everything sent.
* **Daily** (`daily.dfy`): the success rule, `determineFailureReason` and the check-in handler.
* **Assign**, **Complete** and **StudentRead** (`assign.dfy`, `complete.dfy`, `student.dfy`): the other three routes.
* **CheaterDetection** (`cheater_detection.dfy`): the client detector, as a `Detector` class over the module's variables.
* **App** (`app.dfy`): the client's pure parts and the properties that join client and server.

### How state and failures are represented

* **Handlers.** The check-in, assignment and completion handlers are methods that change a `Database` and a `SocketHub` in place. The status read changes nothing, so it is a function of the tables (`StudentRead.ReadStudent`). The socket handlers are methods of `SocketHub`.
* **Query failures.** A query that throws is a `Fault` parameter. `FailAt(k, e)` makes the handler's k-th query (counted from 0) raise the error `e`. This is how the contracts show what a failure leaves behind. The handlers are not transactional, so a later failing query leaves the earlier writes in place.
* **Time.** In the routes and in `emitStatus`, every `NOW()` or `new Date()` whose value is stored, returned or pushed is one reading of `Database.clock`. Each reading is strictly later than the one before. The socket handlers `subscribe`, `cheater` and `status` are the exception: the `new Date()` they stamp their messages with is a `now` parameter. Timestamps are numbers, not ISO strings.
* **Row ids.** Ids are serial: the row at index `i` has id `i + 1`. This is an abstraction: a failed INSERT uses up a sequence value in the database, so real ids can have gaps that model ids do not. Because `created_at` increases along each table, "latest by `created_at`" is the last matching row.

### Code versus design

Where the design description of the system and the code disagree, the model follows the code.

* **`currentTask` and `remedial`.** The design says `currentTask` is non-null exactly when the status is `remedial`. In the code only one direction holds: a failing check-in keeps the old task. The invariant kept and proved (`Tables.StudentOk`) is "remedial ⇒ a trimmed, non-blank task".
* **Empty failure reason.** The design says every failed check-in carries a non-empty reason. The focus test in `determineFailureReason` is `< 60`, while the success rule needs `> 60`. So a focus time of exactly 60, with a passing quiz and no cheat flag, fails with an empty reason (`Daily.SilentFailureIff`).
* **Atomicity.** The design asks for atomic transitions. The handlers issue separate queries, and the contracts state the partial states a failing later query leaves.
* **Completing twice.** The design asks for a conflict error when an intervention is completed a second time. The code answers 400 `Intervention already completed`.
* **Unknown student at check-in.** The design has students created on their first check-in. The code inserts the log row, updates no student, and still pushes and replies.
* **Cheat flag and the next check-in.** The design says a cheat signal sets the flag on the latest check-in row, and that this flag biases the next evaluation. In the code it never does. The check-in takes `cheaterDetected` from the request body (`server/src/routes/daily.js:22-28`, `39-42`). Nothing reads the `cheater_detected` column that `logCheaterEvent` sets. `Daily.Checkin`'s ensures shows this: the verdict is `IsSuccess(req.focusMinutes, req.quizScore, req.cheaterDetected)`, a function of the request alone, and the log rows do not enter it.
* **Cheat signals from a socket.** The socket `cheater` handler passes the trimmed id as text. `logCheaterEvent` accepts only a number greater than zero, so on that path nothing is ever logged (`Ws.SocketHub.Cheater`).

## Model

| member | source | states |
|---|---|---|
| Text.Trim | server/src/ws.js:28 | The result is no longer than the input and has no JavaScript whitespace at either end. |
| Text.TrimSpec | server/src/ws.js:28 | `trim` removes exactly a maximal leading and trailing run of whitespace. Its result is empty exactly when the text is blank. |
| Text.TrimOfTrimmed | server/src/ws.js:28 | Text with no whitespace at its ends is left unchanged by `trim`. |
| Text.TrimIdempotent | server/src/ws.js:26-30 | Trimming twice gives the same as trimming once. |
| Text.JoinEmptyIff | server/src/routes/daily.js:180 | `Text.Join` models `Array.prototype.join`. Joining non-empty parts gives `""` exactly when there are no parts. |
| Text.DecimalString | server/src/routes/daily.js:168 | The decimal rendering of an integer is non-empty and has no surrounding whitespace. |
| Text.DigitsRoundTrip | server/src/utils/logCheaterEvent.js:29-33 | Parsing the digits of a natural number gives the number back. |
| Text.DecimalRoundTrip | server/src/utils/logCheaterEvent.js:29-33 | Parsing an integer's decimal text gives it back. So distinct numeric ids are compared as distinct `student_id` texts. |
| Tables.LastIndexWhere | server/src/routes/student.js:40-46 | The result is None exactly when no row matches. Otherwise it is a matching row with no matching row after it. |
| Tables.LastIndexIsNewest | server/src/routes/student.js:44-45 | When `created_at` increases along the table, the last matching row has the greatest `created_at` of all matching rows. This is `ORDER BY created_at DESC LIMIT 1`. |
| Tables.Database.InsertLog | server/src/routes/daily.js:50-67 | Appends exactly one row with the given columns and a `created_at` later than every earlier one. The returned id is the new row's serial id. |
| Tables.Database.InsertIntervention | server/src/routes/assign.js:48-56 | Appends exactly one `assigned` row. Its `assigned_at` and `created_at` are one new clock reading. The returned id is the new row's serial id. Earlier rows are untouched. |
| Tables.Database.UpdateStudent | server/src/routes/daily.js:104-113 | Replaces one existing student row and no other, keeping the table invariants. |
| Tables.Database.MarkCompleted | server/src/routes/complete.js:65-72 | Only row `k` changes: its status becomes `completed` and its `completed_at` is set. |
| Tables.Database.Tick | server/src/routes/complete.js:62 | A clock reading later than every earlier one. |
| CheaterLog.CheatStep | server/src/utils/logCheaterEvent.js:10-70 | An id that is not a number > 0 is rejected with no write (`CheaterLog.ValidCheaterId`). A thrown query gives a failure and no write. With no log row for the student, the failure has no row fabricated. Otherwise only the student's latest row changes (`CheaterLog.Flagged`): `page_visibility_events` + 1 and `cheater_detected` true. The success result echoes the id and the reason, which defaults to `'unknown'` only when it is `undefined` (`CheaterLog.ReasonOrDefault`). |
| CheaterLog.TextIdRejected | server/src/utils/logCheaterEvent.js:12-15 | An id given as text is rejected before any query, and the table is left as it was. |
| CheaterLog.FlagsNewestRow | server/src/utils/logCheaterEvent.js:20-34 | When a student has a log row, the flagged row is the one with the greatest `created_at`. It is updated in place. |
| CheaterLog.LogCheaterEvent | server/src/utils/logCheaterEvent.js:10-71 | The table afterwards and the resolved result are those of `CheatStep`. |
| CheaterLog.CountSuccessful | server/src/utils/logCheaterEvent.js:89 | The count is at most the number of results. It is 0 exactly when none succeeded, and equals the number of results exactly when all did. |
| CheaterLog.FirstNull | server/src/utils/logCheaterEvent.js:86 | The position of the first `null` event, where `event.studentId` throws: every earlier element is non-null. |
| CheaterLog.ReplayStep | server/src/utils/logCheaterEvent.js:85-87 | Replaying one more event is one more `logCheaterEvent` call on the table the earlier calls left, and that event's result is the outcome of this call. |
| CheaterLog.ReplayResults | server/src/utils/logCheaterEvent.js:86 | The results of the first `n` calls: there are `n` of them, and each is the outcome of its own call. |
| CheaterLog.LogNext | server/src/utils/logCheaterEvent.js:86 | One step of the `map`: on the table the earlier calls left, the table becomes the replay of one more event, and the result is that event's outcome. |
| CheaterLog.LogEach | server/src/utils/logCheaterEvent.js:85-87 | One call per event before the first `null`, in order. The table is the replay of those calls, and each result is that call's outcome. |
| CheaterLog.LogCheaterEventsBatch | server/src/utils/logCheaterEvent.js:79-100 | Input that is not a non-empty array is rejected with no write. A `null` element makes the batch reject after the earlier calls. Otherwise there is one result per event, `total` is the array length, each result is that call's outcome, `successful` counts the successes, and `successful + failed == total`. |
| Ws.NormalizeStudentId | server/src/ws.js:26-30 | `null`/`undefined` give null. Any id accepted is non-empty and trimmed. |
| Ws.NormalizeSpec | server/src/ws.js:26-30 | The id is rejected exactly when it is missing or its `String()` (`Json.JsString`) is blank. Otherwise it is that text, trimmed. |
| Ws.SameNormalization | server/src/ws.js:140-147 | `emitStatus` computes the same id as `normalizeStudentId`. |
| Ws.NormalizeTrimmed | server/src/ws.js:26-30 | Text that is non-empty and has no whitespace at its ends normalises to itself. |
| Ws.NormalizeIdempotent | server/src/ws.js:26-30 | Normalising an accepted id again gives the same id. |
| Ws.RoomNameInjective | server/src/ws.js:40 | Two ids share a room name exactly when they are equal. |
| Ws.JoinRoom | server/src/ws.js:41 | The socket is added to that room. Every other room is unchanged. |
| Ws.JoinRoomIdempotent | server/src/ws.js:41 | Joining a room twice is the same as joining it once. |
| Ws.LeaveAll | server/src/ws.js:115-117 | After a disconnect, the socket is in no room and each room keeps its other members. |
| Ws.StatusOut | server/src/ws.js:134-155 | Nothing is sent exactly when `io` is unset or the id is missing or blank. Otherwise exactly one message is sent. |
| Ws.StatusReachesRoom | server/src/ws.js:149-155 | A status is sent as event `status`, to the room `student_<trimmed id>` and to exactly that room's current members. |
| Ws.StatusPayloadStamped | server/src/ws.js:150-153 | The payload pushed is the caller's fields plus `timestamp`, and the server's timestamp overrides any caller timestamp. |
| Ws.StatusIsolation | server/src/ws.js:140-155 | A socket that joined only another student's room never receives this student's status. |
| Ws.RelayPayload | server/src/ws.js:90-105 | The relayed payload: `status` ← `status` or `'unknown'` (`Json.OrElse`, the JavaScript logical or over `Json.Truthy`); `task` ← `task` ?? null (`Json.Coalesce`, JavaScript `??`); `message` ← `message` ?? `"Status updated"`; every other field but `student_id` is kept; and a server timestamp is added. |
| Ws.SocketHub.constructor | server/src/ws.js:12-18 | The hub starts with no connections, no rooms and nothing sent. |
| Ws.SocketHub.Connect | server/src/ws.js:20-21 | A new socket is in no room and has received none of the earlier messages: missed events are not replayed. |
| Ws.SocketHub.Disconnect | server/src/ws.js:115-117 | The socket closes and leaves every room. Nothing is sent. |
| Ws.SocketHub.Send | server/src/ws.js:107 | One emission is added at the end of the outbox and nothing else changes. It reaches only sockets that are already connected. |
| Ws.SocketHub.Subscribe | server/src/ws.js:32-52 | An invalid id joins nothing and sends nothing. A valid id joins `student_<id>` and sends the acknowledgement (`Ws.SubscribedAck`: room, id, message and timestamp, as at `server/src/ws.js:46-51`) to the subscribing socket only. |
| Ws.SocketHub.Cheater | server/src/ws.js:57-85 | An invalid id is dropped. Otherwise the `cheater_event` (`Ws.CheaterBroadcast`, the payload at `server/src/ws.js:77-82`) goes to every open connection, with the reason defaulting to `'unknown'`. No log row changes, because the logger always rejects the text id (`CheaterLog.TextIdRejected`). |
| Ws.SocketHub.Status | server/src/ws.js:90-110 | An invalid id sends nothing. Otherwise the relayed payload goes to the members of that student's room. Rooms and connections are unchanged. |
| Ws.SocketHub.EmitStatus | server/src/ws.js:134-161 | The outbox grows by exactly what `StatusOut` sends. |
| Ws.SocketHub.EmitStatusNow | server/src/ws.js:150-155 | The same send, stamped with a new clock reading. |
| Daily.ThresholdsAreStrict | server/src/routes/daily.js:36-42 | For `Daily.IsSuccess` (focus > 60, quiz > 7 and no cheat flag): a focus time of 60 fails, a quiz score of 7 fails, and 61 with 8 and no flag succeeds. |
| Daily.CheatForcesFailure | server/src/routes/daily.js:39-42 | Under `Daily.IsSuccess`, the cheat flag makes the check-in fail whatever the scores. |
| Daily.ReasonText | server/src/routes/daily.js:166-178 | Each reason's text is non-empty. |
| Daily.FailureReasons | server/src/routes/daily.js:164-178 | The focus reason is present exactly when focus < 60, the quiz reason exactly when quiz ≤ 7, and the cheat reason exactly when flagged. There are no other reasons, and they appear in focus, quiz, cheat order. |
| Daily.EmptyReasonIff | server/src/routes/daily.js:157-181 | `Daily.DetermineFailureReason` joins the texts of `FailureReasons` (each via `ReasonText`, in order) with `"; "`. The result is `""` exactly when focus ≥ 60, quiz > 7 and there is no flag. |
| Daily.SilentFailureIff | server/src/routes/daily.js:166-170 | A failing check-in has an empty reason exactly when focus is 60 and the rest passes. |
| Daily.FailureExplained | server/src/routes/daily.js:157-181 | Every other failing check-in gets a non-empty `DetermineFailureReason`. |
| Daily.CheckedIn | server/src/routes/daily.js:74-84 | On success the student becomes `on_track`, the task is cleared and `last_checkin_at` is stamped. The other timestamps are kept. |
| Daily.Locked | server/src/routes/daily.js:104-113 | On failure the student becomes `needs_intervention` and `locked_at` is stamped. The task and `last_checkin_at` are kept. |
| Daily.AfterCheckin | server/src/routes/daily.js:73-113 | Only the named student's row changes. For an unknown student no row changes. |
| Daily.AfterCheckinKeepsInvariant | server/src/routes/daily.js:73-113 | A check-in keeps every row's "remedial ⇒ trimmed task" invariant. |
| Daily.Checkin | server/src/routes/daily.js:18-150 | A falsy id gives 400 with no write and no push. Every accepted check-in appends one log row with the computed success, whatever the prior status. A failing second query leaves that row and changes no student. Otherwise the student is updated, the webhook is called only when the check-in failed and a URL is set, exactly one status is pushed to the room. Its payload is `Daily.CheckinPayload`, the object at lines 87-91 or 135-139. The reply (200, with `logId`) does not depend on the webhook. |
| Assign.TrimNotes | server/src/routes/assign.js:52 | Absent or blank notes give null. Text notes are trimmed. Any non-text value throws. |
| Assign.AssignError | server/src/routes/assign.js:94-117 | Error 23503 gives 400, 23505 gives 409, and everything else gives 500. |
| Assign.TaskCheck | server/src/routes/assign.js:19-31 | The task passes exactly when it is truthy text that is not blank. What passes is that text, trimmed. |
| Assign.WithTask | server/src/routes/assign.js:59-66 | The student becomes `remedial` with the trimmed task, whatever the prior status. The timestamps are kept. |
| Assign.RemedialAndEmit | server/src/routes/assign.js:58-92 | A failing update leaves the student and the outbox unchanged. Otherwise the student becomes remedial, one status is pushed (`Assign.AssignPayload`, the object at lines 78-86), and the reply is 201 carrying the new intervention id and the trimmed task. |
| Assign.InsertAndAssign | server/src/routes/assign.js:47-92 | A failing insert changes nothing. Otherwise exactly one `assigned` intervention is appended; earlier ones are untouched, so repeated assignments pile up. A failing update after it leaves that intervention in place with the student unchanged. |
| Assign.AssignIntervention | server/src/routes/assign.js:15-118 | Missing fields give 400, and an invalid task gives 400. An unknown student gives 404 with no intervention created. Notes that are not text give 500 and write nothing. Each failing query gives its error code. Otherwise it does what `InsertAndAssign` does. |
| Complete.FindIntervention | server/src/routes/complete.js:40-50 | An intervention is found exactly when the id names an existing row belonging to that student. |
| Complete.OtherStudentsInterventionHidden | server/src/routes/complete.js:40-50 | Another student's intervention is never found, whatever its id. |
| Complete.CompleteError | server/src/routes/complete.js:113-129 | Error 23503 gives 400, and everything else gives 500. |
| Complete.Unlocked | server/src/routes/complete.js:77-85 | The student becomes `on_track` with the task cleared and `unlocked_at` stamped, whatever the prior status. The row invariant holds. |
| Complete.UnlockAndEmit | server/src/routes/complete.js:74-111 | A failing update leaves the student unchanged and sends nothing. Otherwise only that student changes, a `task_completed` status is pushed (`Complete.CompletePayload`, the object at lines 92-99), and the reply is 200. |
| Complete.MarkAndUnlock | server/src/routes/complete.js:62-111 | A failing intervention update writes nothing. Otherwise only the named intervention becomes completed. A failing student update after it leaves that intervention completed. Otherwise the student is unlocked and is the only student row that changes. |
| Complete.CompleteTask | server/src/routes/complete.js:14-130 | Missing fields give 400 before any query. An unknown student gives 404, and an absent or foreign intervention gives 404, both with no write. An already completed intervention gives 400 with no write, so `unlocked_at` is never stamped twice. Each failing query gives its error and leaves the earlier writes. Otherwise it does what `MarkAndUnlock` does. |
| StudentRead.LatestIsNewest | server/src/routes/student.js:39-46 | A student with interventions gets the one with the greatest `created_at`. |
| StudentRead.ReadError | server/src/routes/student.js:89-119 | Connection refused and lock timeout give 503. Every other error gives 500. |
| StudentRead.ReadStudent | server/src/routes/student.js:11-121 | A blank id gives 400, and an unknown student gives 404. On success the five student fields are copied. `latestIntervention` is null exactly when the student has none; otherwise it is the student's row with no later row of that student. The read writes nothing. |
| StudentRead.LatestView | server/src/routes/student.js:71-81 | `latestIntervention` is null exactly when the student has no intervention. Otherwise it is the view of that student's row (its `id` is the row's position + 1), and no later row belongs to the student. |
| StudentRead.ResponseBody | server/src/routes/student.js:84-87 | A body exists exactly for a successful reply. The body's `data` is `StudentRead.StudentJson`, with the latest intervention as `StudentRead.InterventionJson`, as at lines 62-82. |
| CheaterDetection.Detector.constructor | client/src/utils/cheaterDetection.js:1-6 | The count starts at 0, the flag false, and no socket, id or handler is set. |
| CheaterDetection.Detector.Start | client/src/utils/cheaterDetection.js:8-42 | Sets the socket and id, and attaches one more pair of listeners. The count and flag are kept. |
| CheaterDetection.Detector.Stop | client/src/utils/cheaterDetection.js:44-55 | Detaches the last pair attached and clears the socket and id. The count and flag are kept. |
| CheaterDetection.Detector.Fire | client/src/utils/cheaterDetection.js:12-38 | Each attached listener adds 1 to the count, raises the flag, and sends one `tab_switch` message (`CheaterDetection.TabSwitch`) exactly when a socket and an id are set. |
| CheaterDetection.Detector.VisibilityChange | client/src/utils/cheaterDetection.js:12-25 | A change to hidden counts as above. Any other change changes nothing. |
| CheaterDetection.Detector.Blur | client/src/utils/cheaterDetection.js:27-38 | A blur always counts as above. |
| CheaterDetection.Detector.Reset | client/src/utils/cheaterDetection.js:61-64 | The count becomes 0 and the flag false. No other method lowers the count or clears the flag. |
| CheaterDetection.Detector.GetVisibilityEventCount | client/src/utils/cheaterDetection.js:57 | Returns the current count. |
| CheaterDetection.Detector.GetCheaterDetected | client/src/utils/cheaterDetection.js:59 | Returns the current flag. |
| App.GetStudentId | client/src/App.jsx:12-15 | A non-empty query parameter is used as given. Otherwise the id is `alice-2024`. |
| App.PushesKeepIntervention | client/src/App.jsx:50-55 | `App.OnStatus` is the `status` listener's update and `App.ApplyAll` applies it to payloads in arrival order. No sequence of pushed payloads changes `latestIntervention`. |
| App.StatusIsLastTruthy | client/src/App.jsx:50-52 | After `App.ApplyAll`, the status held is that of the last payload with a truthy status (`Json.Truthy`, JavaScript truthiness), or the earlier one if there is none. |
| App.TaskNeverCleared | client/src/App.jsx:54 | Once a truthy task is held, no sequence of pushed payloads (`App.ApplyAll`) makes it falsy. |
| App.CompletionKeepsStaleTask | client/src/App.jsx:50-55 | The completion push (`Complete.CompletePayload`, stamped) puts the client back on track and clears the message, but the finished task stays. |
| App.AssignmentShowsTask | client/src/App.jsx:50-55 | The assignment push (`Assign.AssignPayload`, stamped) shows the remedial view with the new task and the intervention id from the initial load. |
| App.FailedCheckinLocks | client/src/App.jsx:50-55 | The push of a failed check-in (`Daily.CheckinPayload`, stamped) shows the locked view with the waiting message and keeps the task. |
| App.LoadState | client/src/App.jsx:85-109 | A failed load falls back to `on_track` with no task or intervention. Every load clears the message and holds a truthy status. |
| App.Route | client/src/App.jsx:149-166 | The view is Locked exactly for `needs_intervention`, Remedial exactly for `remedial`, and Normal for every other status. |
| App.LoadOfView | client/src/App.jsx:88-97 | Loading a served view holds its status text, its non-empty task and its latest intervention. |
| App.RouteOfView | client/src/App.jsx:149-166 | A served view opens the view of its status. A remedial one shows its task and the latest intervention's id. |
| App.LoadedViewFollowsServer | client/src/App.jsx:85-166 | The client opens the view the stored status calls for. A remedial student sees the stored task and the id of their newest intervention, or no id exactly when they have none. A failed read shows the normal view. |
| App.SubscribeMatchesEmit | client/src/App.jsx:37-41 | For every page id, the server normalises the subscription's `student_id` exactly as it normalises that id when the routes push its status. So the page joins the room its updates go to. |
| App.SubscribeKeepsPageId | client/src/App.jsx:37-41 | A page id without surrounding whitespace is itself the id the server subscribes. |
| App.DefaultSubscription | client/src/App.jsx:12-15 | Without a query parameter, the page subscribes to `alice-2024`'s room. |

## Left out

- HTTP, Express and socket.io transport, logging and `console` output: replies are `Reply` values, and messages sent are entries in `SocketHub.outbox`.
- `sendWebhook` and the HTTP clients: a check-in returns the webhook call it would make. The call's outcome is ignored by the source, so it is not modelled.
- Database connections and SQL: tables are a map and two sequences. Foreign keys are not modelled, so an assignment or a check-in for an unknown student reaches the database only through its own guard or update.
- Concurrency: handlers run one at a time. The source's interleaving across `await` points, and `Promise.allSettled` running the batch calls together, are not modelled.
- CheaterLog.LogCheaterEventsBatch: the calls run in array order rather than concurrently. Each UPDATE is a single statement, so the table ends the same.
- Wall-clock time and ISO formatting: timestamps are readings of a monotone clock. The `updated_at` columns are not modelled.
- Socket handler timestamps (acknowledgement, broadcast, relay): they are a `now` parameter, not clock readings.
- JavaScript `Number()` coercion, NaN and floats: focus and quiz are integers after their defaults are applied.
- Non-string request ids: ids are text, with "" standing for a missing or falsy one. In completion, a falsy `interventionId` is 0.
- The `subscribe`, `cheater` and `status` socket handlers with an argument that is `null` or not an object: each destructures its argument, so it throws. The model takes a map or a field, which always destructures.
- Serial id gaps: a failed INSERT (for example the foreign-key error 23503 handled at `server/src/routes/assign.js:94-117`) uses up a sequence value. So real ids can skip numbers, while the model's id is always the row's position + 1.
- Seeding (`server/seed-student.js`): it is the `Database` constructor's seed set. Server setup, middleware and signals are not part of this model.
- `ORDER BY created_at DESC LIMIT 1` ties: they cannot arise, because every stored `created_at` is a distinct clock reading.
- React effects: the detector start/stop around the socket, the 2-second loading timeout and the loading screen are not modelled.
- Presentational components (`Normal`, `Remedial`, `Locked`, `Index.tsx`): not modelled.
- `client/src/hooks/useStudentStatus.js`: not modelled. It listens to events the server never sends.
- Browser events: `document.hidden` is the argument of `VisibilityChange`, and listeners attached by `Start` are counted, not stored.
