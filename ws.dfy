/**
 * The real-time layer (server/src/ws.js): socket connections, the
 * per-student rooms `student_<id>`, the `subscribe`, `cheater`, `status` and
 * `disconnect` handlers, and `emitStatus`, which the routes call.
 *
 * Every message the server sends is appended to `outbox` together with the
 * connections it reaches, fixed at the moment it is sent.
 */
module Ws {
  import opened Text
  import opened Json
  import opened Tables
  import CheaterLog

  /** A socket id; the library never reuses one. */
  type ConnId = nat

  /** `normalizeStudentId`: null or undefined give null, otherwise the trimmed text, unless blank. */
  function NormalizeStudentId(v: Field): (r: Option<string>)
    ensures Nullish(v) ==> r.None?
    ensures r.Some? ==> r.value != "" && NoEdgeSpace(r.value)
  {
    if Nullish(v) then None
    else
      var normalized := Trim(JsString(v.value));
      if |normalized| > 0 then Some(normalized) else None
  }

  /** An id is rejected exactly when it is missing or its text is blank; otherwise it is that text, trimmed. */
  lemma NormalizeSpec(v: Field)
    ensures NormalizeStudentId(v).None? <==> Nullish(v) || AllSpace(JsString(v.value))
    ensures NormalizeStudentId(v).Some? ==> IsTrimOf(NormalizeStudentId(v).value, JsString(v.value))
  {
    if !Nullish(v) {
      TrimSpec(JsString(v.value));
    }
  }

  /** The id computation `emitStatus` writes out for itself. */
  function EmitStatusId(v: Field): Option<string> {
    var normalizedId := if Nullish(v) then None else Some(Trim(JsString(v.value)));
    if normalizedId.None? || normalizedId.value == "" then None else normalizedId
  }

  /** `emitStatus` and the socket handlers normalise ids identically. */
  lemma SameNormalization(v: Field)
    ensures EmitStatusId(v) == NormalizeStudentId(v)
  {
  }

  /** Text that is non-empty and has no whitespace at its ends normalises to itself. */
  lemma NormalizeTrimmed(id: string)
    requires TrimmedNonEmpty(id)
    ensures NormalizeStudentId(Some(JStr(id))) == Some(id)
  {
    TrimOfTrimmed(id);
    assert JsString(JStr(id)) == id;
  }

  /** A normalised id is a fixed point: normalising it again changes nothing. */
  lemma NormalizeIdempotent(v: Field)
    requires NormalizeStudentId(v).Some?
    ensures NormalizeStudentId(Some(JStr(NormalizeStudentId(v).value))) == NormalizeStudentId(v)
  {
    NormalizeTrimmed(NormalizeStudentId(v).value);
  }

  const RoomPrefix := "student_"

  function RoomName(id: string): string {
    RoomPrefix + id
  }

  /** Room names are distinct for distinct ids, which keeps one student's room apart from another's. */
  lemma RoomNameInjective(a: string, b: string)
    ensures RoomName(a) == RoomName(b) <==> a == b
  {
    if RoomName(a) == RoomName(b) {
      assert a == RoomName(a)[|RoomPrefix|..];
      assert b == RoomName(b)[|RoomPrefix|..];
    }
  }

  datatype Target = Room(name: string) | Everyone | Socket(conn: ConnId)

  datatype Emission = Emission(target: Target, recipients: set<ConnId>, event: string, payload: map<string, Json>) {
    /** Every recipient is a connection opened before the `n`-th. */
    predicate ReachesOnlyBelow(n: nat) {
      forall c :: c in recipients ==> c < n
    }
  }

  function Members(rooms: map<string, set<ConnId>>, name: string): set<ConnId> {
    if name in rooms then rooms[name] else {}
  }

  /** `socket.join(name)`. */
  function JoinRoom(rooms: map<string, set<ConnId>>, name: string, c: ConnId): (r: map<string, set<ConnId>>)
    ensures Members(r, name) == Members(rooms, name) + {c}
    ensures forall n :: n != name ==> Members(r, n) == Members(rooms, n)
  {
    rooms[name := Members(rooms, name) + {c}]
  }

  /** Joining a room twice is joining it once. */
  lemma JoinRoomIdempotent(rooms: map<string, set<ConnId>>, name: string, c: ConnId)
    ensures JoinRoom(JoinRoom(rooms, name, c), name, c) == JoinRoom(rooms, name, c)
  {
    var once := JoinRoom(rooms, name, c);
    assert Members(once, name) + {c} == Members(once, name);
  }

  /** The library's clean-up on disconnect: the socket leaves every room. */
  function LeaveAll(rooms: map<string, set<ConnId>>, c: ConnId): (r: map<string, set<ConnId>>)
    ensures forall n :: Members(r, n) == Members(rooms, n) - {c}
  {
    map n | n in rooms :: rooms[n] - {c}
  }

  /** `c` belongs to no room other than `name`. */
  predicate OnlyIn(rooms: map<string, set<ConnId>>, c: ConnId, name: string) {
    forall n :: n in rooms && c in rooms[n] ==> n == name
  }

  /** The server timestamp, added last so that it overrides any caller timestamp. */
  function Stamped(payload: map<string, Json>, now: nat): map<string, Json> {
    payload["timestamp" := JNum(now)]
  }

  /** What `emitStatus(io, id, payload)` sends, given whether `io` is set and the current rooms. */
  function StatusOut(ioReady: bool, rooms: map<string, set<ConnId>>, id: Field, payload: map<string, Json>, now: nat)
    : (out: seq<Emission>)
    ensures out == [] <==> !ioReady || NormalizeStudentId(id).None?
    ensures |out| <= 1
  {
    var sid := EmitStatusId(id);
    if !ioReady || sid.None? then []
    else
      var room := RoomName(sid.value);
      [Emission(Room(room), Members(rooms, room), "status", Stamped(payload, now))]
  }

  /** An emitted status reaches exactly the current members of the student's room. */
  lemma StatusReachesRoom(ioReady: bool, rooms: map<string, set<ConnId>>, id: Field, payload: map<string, Json>, now: nat)
    requires ioReady && NormalizeStudentId(id).Some?
    ensures var out := StatusOut(ioReady, rooms, id, payload, now);
      var room := RoomName(NormalizeStudentId(id).value);
      && |out| == 1 && out[0].target == Room(room) && out[0].event == "status"
      && out[0].recipients == Members(rooms, room)
  {
    SameNormalization(id);
  }

  /** The pushed payload is the caller's, with the timestamp replaced by the server's. */
  lemma StatusPayloadStamped(ioReady: bool, rooms: map<string, set<ConnId>>, id: Field, payload: map<string, Json>, now: nat)
    requires ioReady && NormalizeStudentId(id).Some?
    ensures var p := StatusOut(ioReady, rooms, id, payload, now)[0].payload;
      && p.Keys == payload.Keys + {"timestamp"}
      && p["timestamp"] == JNum(now)
      && forall k :: k in payload && k != "timestamp" ==> p[k] == payload[k]
  {
    SameNormalization(id);
  }

  /** Room isolation: a socket that is only in the room of `other` never receives a status for a different student. */
  lemma StatusIsolation(ioReady: bool, rooms: map<string, set<ConnId>>, id: Field, payload: map<string, Json>, now: nat,
                        c: ConnId, other: string)
    requires OnlyIn(rooms, c, RoomName(other))
    requires NormalizeStudentId(id) != Some(other)
    ensures forall e :: e in StatusOut(ioReady, rooms, id, payload, now) ==> c !in e.recipients
  {
    SameNormalization(id);
    if ioReady && NormalizeStudentId(id).Some? {
      RoomNameInjective(NormalizeStudentId(id).value, other);
    }
  }

  /** The acknowledgement of a subscription. */
  function SubscribedAck(room: string, id: string, now: nat): map<string, Json> {
    map["room" := JStr(room), "studentId" := JStr(id),
        "message" := JStr("Subscribed to real-time updates"), "timestamp" := JNum(now)]
  }

  /** The global `cheater_event` broadcast. */
  function CheaterBroadcast(id: string, reason: Json, now: nat, c: ConnId): map<string, Json> {
    map["student_id" := JStr(id), "reason" := reason, "timestamp" := JNum(now), "socketId" := JNum(c)]
  }

  const RelayKeys: set<string> := {"student_id", "status", "task", "message"}

  /** The payload of the `status` relay: defaults first, then every other field of the message, then the timestamp. */
  function RelayPayload(msg: map<string, Json>, now: nat): (p: map<string, Json>)
    ensures p.Keys == (msg.Keys - {"student_id"}) + {"status", "task", "message", "timestamp"}
    ensures p["status"] == OrElse(Get(msg, "status"), JStr("unknown"))
    ensures p["task"] == Coalesce(Get(msg, "task"), JNull)
    ensures p["message"] == Coalesce(Get(msg, "message"), JStr("Status updated"))
    ensures p["timestamp"] == JNum(now)
    ensures forall k :: k in msg && k !in RelayKeys && k != "timestamp" ==> p[k] == msg[k]
  {
    var defaults := map[
      "status" := OrElse(Get(msg, "status"), JStr("unknown")),
      "task" := Coalesce(Get(msg, "task"), JNull),
      "message" := Coalesce(Get(msg, "message"), JStr("Status updated"))];
    var extraData := msg - RelayKeys;
    Stamped(defaults + extraData, now)
  }

  /** Only open connections are in rooms. */
  predicate RoomsWithin(rooms: map<string, set<ConnId>>, connected: set<ConnId>) {
    forall n :: n in rooms ==> rooms[n] <= connected
  }

  /** Every message sent so far went only to connections opened before the `n`-th. */
  predicate OutboxBelow(outbox: seq<Emission>, n: nat) {
    forall i :: 0 <= i < |outbox| ==> outbox[i].ReachesOnlyBelow(n)
  }

  lemma JoinWithin(rooms: map<string, set<ConnId>>, connected: set<ConnId>, name: string, c: ConnId)
    requires RoomsWithin(rooms, connected) && c in connected
    ensures RoomsWithin(JoinRoom(rooms, name, c), connected)
  {
  }

  /** A room's members are connected, so a message to a room reaches only opened connections. */
  lemma RoomBelow(rooms: map<string, set<ConnId>>, connected: set<ConnId>, n: nat, name: string)
    requires RoomsWithin(rooms, connected) && forall c :: c in connected ==> c < n
    ensures forall c :: c in Members(rooms, name) ==> c < n
  {
  }

  lemma AppendBelow(outbox: seq<Emission>, e: Emission, n: nat)
    requires OutboxBelow(outbox, n) && e.ReachesOnlyBelow(n)
    ensures OutboxBelow(outbox + [e], n)
  {
  }

  class SocketHub {
    /** Whether `app.locals.io` is set (`emitStatus` returns early when it is not). */
    const ioReady: bool
    var connected: set<ConnId>
    var rooms: map<string, set<ConnId>>
    var outbox: seq<Emission>
    var nextConn: nat

    ghost predicate Valid()
      reads this
    {
      && (forall c :: c in connected ==> c < nextConn)
      && RoomsWithin(rooms, connected)
      && OutboxBelow(outbox, nextConn)
    }

    constructor (ioReady: bool)
      ensures Valid() && this.ioReady == ioReady
      ensures connected == {} && rooms == map[] && outbox == [] && nextConn == 0
    {
      this.ioReady := ioReady;
      connected := {};
      rooms := map[];
      outbox := [];
      nextConn := 0;
    }

    /**
     * A client connects (the library's `connection` event). The new socket
     * is in no room, and none of the messages sent so far reached it:
     * missed messages are never replayed.
     */
    method Connect() returns (c: ConnId)
      requires Valid()
      modifies this
      ensures Valid()
      ensures c == old(nextConn) && nextConn == old(nextConn) + 1 && c !in old(connected)
      ensures connected == old(connected) + {c} && rooms == old(rooms) && outbox == old(outbox)
      ensures forall n :: c !in Members(rooms, n)
      ensures forall i :: 0 <= i < |outbox| ==> c !in outbox[i].recipients
    {
      c := nextConn;
      nextConn := nextConn + 1;
      connected := connected + {c};
    }

    /** `disconnect`: the handler only logs; the library takes the socket out of every room. */
    method Disconnect(c: ConnId)
      requires Valid()
      modifies this
      ensures Valid()
      ensures connected == old(connected) - {c} && rooms == LeaveAll(old(rooms), c)
      ensures outbox == old(outbox) && nextConn == old(nextConn)
    {
      connected := connected - {c};
      rooms := LeaveAll(rooms, c);
    }

    /** `subscribe`: join `student_<id>` and acknowledge to this socket only; an invalid id does nothing. */
    method Subscribe(c: ConnId, studentId: Field, now: nat)
      requires Valid() && c in connected
      modifies this
      ensures Valid()
      ensures connected == old(connected) && nextConn == old(nextConn)
      ensures NormalizeStudentId(studentId).None? ==> rooms == old(rooms) && outbox == old(outbox)
      ensures NormalizeStudentId(studentId).Some? ==>
        var id := NormalizeStudentId(studentId).value;
        && rooms == JoinRoom(old(rooms), RoomName(id), c)
        && outbox == old(outbox) + [Emission(Socket(c), {c}, "subscribed", SubscribedAck(RoomName(id), id, now))]
    {
      var id := NormalizeStudentId(studentId);
      if id.None? {
        return;
      }
      var room := RoomName(id.value);
      var ack := Emission(Socket(c), {c}, "subscribed", SubscribedAck(room, id.value, now));
      JoinWithin(rooms, connected, room, c);
      AppendBelow(outbox, ack, nextConn);
      rooms := JoinRoom(rooms, room, c);
      outbox := outbox + [ack];
    }

    /** Queue one emission; it reaches only connections already opened. */
    method Send(e: Emission)
      requires Valid() && e.ReachesOnlyBelow(nextConn)
      modifies this`outbox
      ensures Valid()
      ensures outbox == old(outbox) + [e]
    {
      AppendBelow(outbox, e, nextConn);
      outbox := outbox + [e];
    }

    /**
     * `cheater`: log the event, then broadcast it to every connection. The
     * handler passes the trimmed id as text, which `logCheaterEvent`
     * rejects before any query (`CheaterLog.TextIdRejected`), so the call is
     * its specification applied to the table, and no log row ever changes.
     */
    method Cheater(c: ConnId, studentId: Field, reason: Field, db: Database, now: nat)
      requires Valid() && c in connected
      modifies this`outbox
      ensures Valid()
      ensures unchanged(db)
      ensures connected == old(connected) && rooms == old(rooms) && nextConn == old(nextConn)
      ensures NormalizeStudentId(studentId).None? ==> outbox == old(outbox)
      ensures NormalizeStudentId(studentId).Some? ==>
        var id := NormalizeStudentId(studentId).value;
        outbox == old(outbox) + [Emission(Everyone, old(connected), "cheater_event",
                                          CheaterBroadcast(id, OrElse(reason, JStr("unknown")), now, c))]
    {
      var id := NormalizeStudentId(studentId);
      if id.None? {
        return;
      }
      var cheaterReason := OrElse(reason, JStr("unknown"));
      CheaterLog.TextIdRejected(db.logs, id.value, Some(cheaterReason), None);
      var logged := CheaterLog.CheatStep(db.logs, Some(JStr(id.value)), Some(cheaterReason), None).1;
      var e := Emission(Everyone, connected, "cheater_event", CheaterBroadcast(id.value, cheaterReason, now, c));
      Send(e);
    }

    /** `status`: relay a client-sent status to the named student's room. */
    method Status(c: ConnId, msg: map<string, Json>, now: nat)
      requires Valid() && c in connected
      modifies this`outbox
      ensures Valid()
      ensures connected == old(connected) && rooms == old(rooms) && nextConn == old(nextConn)
      ensures NormalizeStudentId(Get(msg, "student_id")).None? ==> outbox == old(outbox)
      ensures NormalizeStudentId(Get(msg, "student_id")).Some? ==>
        var room := RoomName(NormalizeStudentId(Get(msg, "student_id")).value);
        outbox == old(outbox) + [Emission(Room(room), Members(old(rooms), room), "status", RelayPayload(msg, now))]
    {
      var id := NormalizeStudentId(Get(msg, "student_id"));
      if id.None? {
        return;
      }
      var room := RoomName(id.value);
      var e := Emission(Room(room), Members(rooms, room), "status", RelayPayload(msg, now));
      RoomBelow(rooms, connected, nextConn, room);
      Send(e);
    }

    /** `emitStatus(io, studentId, { ...payload })` with the timestamp read from the database's clock. */
    method EmitStatusNow(db: Database, studentId: Field, payload: map<string, Json>)
      requires Valid() && db.Valid()
      modifies this`outbox, db`clock
      ensures Valid() && db.Valid()
      ensures db.clock == old(db.clock) + 1
      ensures outbox == old(outbox) + StatusOut(ioReady, rooms, studentId, payload, db.clock)
    {
      var stamp := db.Tick();
      EmitStatus(studentId, payload, stamp);
    }

    /** `emitStatus(io, studentId, payload)`. */
    method EmitStatus(studentId: Field, payload: map<string, Json>, now: nat)
      requires Valid()
      modifies this`outbox
      ensures Valid()
      ensures outbox == old(outbox) + StatusOut(ioReady, rooms, studentId, payload, now)
    {
      if !ioReady {
        return;
      }
      var normalizedId := EmitStatusId(studentId);
      if normalizedId.None? {
        return;
      }
      var room := RoomName(normalizedId.value);
      var e := Emission(Room(room), Members(rooms, room), "status", Stamped(payload, now));
      RoomBelow(rooms, connected, nextConn, room);
      Send(e);
    }
  }
}
