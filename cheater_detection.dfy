/**
 * The client's cheat detector (client/src/utils/cheaterDetection.js): a
 * module-level counter and flag, raised by window blur and by the page
 * becoming hidden, and a `cheater` socket message per event while a socket
 * and a student id are set.
 *
 * `start` attaches a fresh pair of listeners; `stop` detaches only the pair
 * it last attached. Every attached pair reads the same module state, so an
 * event runs once for each pair still attached.
 */
module CheaterDetection {
  import opened Json

  /** One `socket.emit('cheater', payload)` on the socket with id `socket`. */
  datatype CheaterMessage = CheaterMessage(socket: nat, payload: map<string, Json>)

  function TabSwitch(studentId: string): map<string, Json> {
    map["student_id" := JStr(studentId), "reason" := JStr("tab_switch")]
  }

  /** `n` copies of `m`: what `n` attached handlers send for one event. */
  function Repeat(m: CheaterMessage, n: nat): (r: seq<CheaterMessage>)
    ensures |r| == n && forall i :: 0 <= i < n ==> r[i] == m
  {
    seq(n, _ => m)
  }

  class Detector {
    var visibilityCount: nat
    var cheaterDetected: bool
    /** Whether `visibilityChangeHandler` and `blurHandler` are set. */
    var handlersSet: bool
    /** Listener pairs attached to the document and the window. */
    var attached: nat
    var socket: Option<nat>
    /** `currentStudentId`; "" stands for null, which is just as falsy. */
    var currentStudentId: string
    var sent: seq<CheaterMessage>

    /** The flag is raised exactly when some event has been counted since the last reset. */
    ghost predicate Valid()
      reads this
    {
      && (handlersSet ==> attached >= 1)
      && (cheaterDetected <==> visibilityCount > 0)
    }

    /** The module's initial state. */
    constructor ()
      ensures Valid()
      ensures visibilityCount == 0 && !cheaterDetected
      ensures !handlersSet && attached == 0 && socket.None? && currentStudentId == "" && sent == []
    {
      visibilityCount := 0;
      cheaterDetected := false;
      handlersSet := false;
      attached := 0;
      socket := None;
      currentStudentId := "";
      sent := [];
    }

    /** Whether a handler that fires now also sends a message. */
    predicate Reporting()
      reads this
    {
      socket.Some? && currentStudentId != ""
    }

    /** `startCheaterDetection(socketInstance, studentId)`. */
    method Start(socketInstance: Option<nat>, studentId: string)
      requires Valid()
      modifies this
      ensures Valid()
      ensures socket == socketInstance && currentStudentId == studentId
      ensures handlersSet && attached == old(attached) + 1
      ensures visibilityCount == old(visibilityCount) && cheaterDetected == old(cheaterDetected) && sent == old(sent)
    {
      socket := socketInstance;
      currentStudentId := studentId;
      handlersSet := true;
      attached := attached + 1;
    }

    /** `stopCheaterDetection()`: detaches the last pair, forgets the socket and id, keeps the count and flag. */
    method Stop()
      requires Valid()
      modifies this
      ensures Valid()
      ensures !handlersSet && attached == (if old(handlersSet) then old(attached) - 1 else old(attached))
      ensures socket.None? && currentStudentId == ""
      ensures visibilityCount == old(visibilityCount) && cheaterDetected == old(cheaterDetected) && sent == old(sent)
    {
      if handlersSet {
        attached := attached - 1;
      }
      handlersSet := false;
      socket := None;
      currentStudentId := "";
    }

    /** Every attached handler counts the event, raises the flag and, when reporting, sends one message. */
    method Fire()
      requires Valid()
      modifies this`visibilityCount, this`cheaterDetected, this`sent
      ensures Valid()
      ensures visibilityCount == old(visibilityCount) + attached
      ensures cheaterDetected == (old(cheaterDetected) || attached > 0)
      ensures sent == old(sent) + (if Reporting() then Repeat(CheaterMessage(socket.value, TabSwitch(currentStudentId)), attached) else [])
    {
      visibilityCount := visibilityCount + attached;
      if attached > 0 {
        cheaterDetected := true;
      }
      if socket.Some? && currentStudentId != "" {
        sent := sent + Repeat(CheaterMessage(socket.value, TabSwitch(currentStudentId)), attached);
      }
    }

    /** A `visibilitychange` event; only a change to hidden counts. */
    method VisibilityChange(hidden: bool)
      requires Valid()
      modifies this`visibilityCount, this`cheaterDetected, this`sent
      ensures Valid()
      ensures !hidden ==> visibilityCount == old(visibilityCount) && cheaterDetected == old(cheaterDetected) && sent == old(sent)
      ensures hidden ==>
        && visibilityCount == old(visibilityCount) + attached
        && cheaterDetected == (old(cheaterDetected) || attached > 0)
        && sent == old(sent) + (if Reporting() then Repeat(CheaterMessage(socket.value, TabSwitch(currentStudentId)), attached) else [])
    {
      if hidden {
        Fire();
      }
    }

    /** A window `blur` event: it always counts. */
    method Blur()
      requires Valid()
      modifies this`visibilityCount, this`cheaterDetected, this`sent
      ensures Valid()
      ensures visibilityCount == old(visibilityCount) + attached
      ensures cheaterDetected == (old(cheaterDetected) || attached > 0)
      ensures sent == old(sent) + (if Reporting() then Repeat(CheaterMessage(socket.value, TabSwitch(currentStudentId)), attached) else [])
    {
      Fire();
    }

    /** `resetCheaterStatus()`: the only way the count goes down or the flag clears. */
    method Reset()
      requires Valid()
      modifies this`visibilityCount, this`cheaterDetected
      ensures Valid()
      ensures visibilityCount == 0 && !cheaterDetected
    {
      visibilityCount := 0;
      cheaterDetected := false;
    }

    /** `getVisibilityEventCount()`. */
    method GetVisibilityEventCount() returns (n: nat)
      ensures n == visibilityCount
    {
      n := visibilityCount;
    }

    /** `getCheaterDetected()`. */
    method GetCheaterDetected() returns (b: bool)
      ensures b == cheaterDetected
    {
      b := cheaterDetected;
    }
  }
}
