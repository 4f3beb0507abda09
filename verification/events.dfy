/**
 * btmgmt/events.go: decoding a frame from the socket into an event, and
 * the listener that picks the result of one command out of the event
 * stream (`Filter` decides whether it wants an event, `Handle` consumes it).
 */
module Events {
  import opened Wrappers
  import opened Bytes
  import opened Globals
  import opened EvtParsers
  import opened Commands

  /** An event: code, controller index, the length field as sent, and the parameters. */
  datatype Event = Event(eventCode: Uint16, controllerIdx: Uint16, paramLen: Uint16, payload: seq<Byte>)

  /** The bytes of `e` on the socket: three little-endian header fields, then the parameters. */
  function EventBytes(e: Event): (r: seq<Byte>)
    ensures |r| == 6 + |e.payload|
  {
    LittleEndian(e.eventCode) + LittleEndian(e.controllerIdx) + LittleEndian(e.paramLen) + e.payload
  }

  /**
   * `parseEvt`: every packet shorter than six bytes is `ErrPayloadFormat`;
   * any longer packet decodes to the event whose bytes it is. The length
   * field is taken as sent and never compared with the parameters.
   */
  function ParseEvt(packet: seq<Byte>): (r: Result<Event, Error>)
    ensures r.Failure? <==> |packet| < 6
    ensures r.Failure? ==> r.error == PayloadFormat
    ensures r.Success? ==> EventBytes(r.value) == packet
  {
    if |packet| < 6 then Failure(PayloadFormat)
    else
      LittleEndianOfUint16At(packet, 0);
      LittleEndianOfUint16At(packet, 2);
      LittleEndianOfUint16At(packet, 4);
      assert packet == packet[0..2] + packet[2..4] + packet[4..6] + packet[6..];
      Success(Event(Uint16At(packet, 0), Uint16At(packet, 2), Uint16At(packet, 4), packet[6..]))
  }

  /** Decoding the bytes of an event gives back that event. */
  lemma ParseEvtOfEventBytes(e: Event)
    ensures ParseEvt(EventBytes(e)) == Success(e)
  {
    var r := EventBytes(e);
    assert r[0..2] == LittleEndian(e.eventCode);
    assert r[2..4] == LittleEndian(e.controllerIdx);
    assert r[4..6] == LittleEndian(e.paramLen);
    assert r[6..] == e.payload;
    ParseEvtRecoversFields(r);
  }

  lemma ParseEvtRecoversFields(r: seq<Byte>)
    requires |r| >= 6
    ensures ParseEvt(r) == Success(Event(Uint16At(r[0..2], 0), Uint16At(r[2..4], 0), Uint16At(r[4..6], 0), r[6..]))
  {
  }

  /**
   * The frame of a command built by `NewMgmtCmd` with fewer than 65536
   * parameter bytes decodes to an event with the same code, controller,
   * a length field equal to the parameter count, and the same parameters.
   */
  lemma NewCommandRoundTrip(c: Uint16, idx: Uint16, p: seq<Byte>)
    requires |p| < 0x1_0000
    ensures ParseEvt(Frame(NewMgmtCmd(c, idx, p))) == Success(Event(c, idx, |p|, p))
  {
    assert Frame(NewMgmtCmd(c, idx, p)) == EventBytes(Event(c, idx, |p|, p));
    ParseEvtOfEventBytes(Event(c, idx, |p|, p));
  }

  /** A header announcing five parameter bytes, followed by none, still decodes. */
  lemma ParamLenNotChecked()
    ensures ParseEvt([0x01, 0x00, 0x00, 0x00, 0x05, 0x00]) == Success(Event(EVT_COMMAND_COMPLETE, 0, 5, []))
  {
  }

  /** The fields of a `defaultCmdEvtListener` that its methods change. */
  datatype ListenerState = ListenerState(isDone: bool, resParam: seq<Byte>, resErr: Option<Error>, cancelled: bool)

  /** A listener that has received nothing yet. */
  const INITIAL_LISTENER := ListenerState(false, [], None, false)

  /**
   * The decision of `Filter` for a listener in state `s` waiting for `src`:
   * a finished listener takes every event; otherwise it takes exactly the
   * events for its controller that are a Command Status with a three-byte
   * payload, or a Command Complete with a payload of at least three bytes,
   * that echoes its opcode.
   */
  function Consumes(s: ListenerState, src: MgmtCommand, event: Event): (consume: bool)
    ensures s.isDone ==> consume
    ensures !s.isDone && event.controllerIdx != src.controllerIdx ==> !consume
    ensures !s.isDone ==>
      (consume <==>
        && event.controllerIdx == src.controllerIdx
        && (event.eventCode == EVT_COMMAND_STATUS || event.eventCode == EVT_COMMAND_COMPLETE)
        && (if event.eventCode == EVT_COMMAND_STATUS then |event.payload| == 3 else |event.payload| >= 3)
        && Uint16At(event.payload, 0) == src.commandCode)
  {
    if s.isDone then true
    else if event.controllerIdx != src.controllerIdx then false
    else if event.eventCode == EVT_COMMAND_STATUS then
      var parsed := ParseEvtCmdStatus(event.payload);
      parsed.Success? && parsed.value.cmd == src.commandCode
    else if event.eventCode == EVT_COMMAND_COMPLETE then
      var parsed := ParseEvtCmdComplete(event.payload);
      parsed.Success? && parsed.value.cmd == src.commandCode
    else false
  }

  /**
   * What `Handle` does to a listener in state `s`, and whether it reports
   * the listener finished. A finished listener stays as it is and reports
   * finished. A Command Status for the opcode stores the status's error
   * (`ErrUnknownCommandStatus` off the table) and cancels; a Command
   * Complete does the same and stores the return parameters when the status
   * is in the table. Anything else changes nothing and reports not
   * finished. The controller index is not looked at: that is `Filter`'s job.
   */
  function HandleStep(s: ListenerState, src: MgmtCommand, event: Event): (r: (ListenerState, bool))
    ensures r.1 <==> s.isDone || !Match(event.eventCode, event.payload, src.commandCode).NoMatch?
    ensures !r.1 || s.isDone ==> r.0 == s
    ensures r.0.isDone == s.isDone
    ensures !s.isDone && r.1 ==> r.0.cancelled
    ensures !s.isDone && r.1 ==> r.0.resErr == StatusError(event.payload[2], UnknownCommandStatus)
    ensures !s.isDone && r.1 && event.eventCode == EVT_COMMAND_STATUS ==> r.0.resParam == s.resParam
    ensures !s.isDone && r.1 && event.eventCode == EVT_COMMAND_COMPLETE ==>
      r.0.resParam == (if event.payload[2] <= CMD_STATUS_PERMISSION_DENIED then event.payload[3..] else s.resParam)
  {
    if s.isDone then (s, true)
    else
      match Match(event.eventCode, event.payload, src.commandCode)
      case NoMatch => (s, false)
      case StatusFor(st) =>
        (s.(resErr := StatusError(st, UnknownCommandStatus), cancelled := true), true)
      case CompleteFor(st, ret) =>
        var known := LookupStatus(st).Some?;
        (s.(resErr := StatusError(st, UnknownCommandStatus),
            resParam := if known then ret else s.resParam,
            cancelled := true), true)
  }

  /** A listener `Filter` accepts an event for is finished by `Handle` on it, unless it was already done. */
  lemma FilterThenHandleFinishes(s: ListenerState, src: MgmtCommand, event: Event)
    requires Consumes(s, src, event)
    ensures HandleStep(s, src, event).1
    ensures !s.isDone ==> HandleStep(s, src, event).0.cancelled
  {
  }

  /**
   * `defaultCmdEvtListener`: the command it waits for and the state its
   * methods change. `cancelled` stands for its context being done.
   */
  class DefaultCmdEvtListener {
    const srcCmd: MgmtCommand
    var isDone: bool
    var resParam: seq<Byte>
    var resErr: Option<Error>
    var cancelled: bool

    function State(): ListenerState
      reads this
    {
      ListenerState(isDone, resParam, resErr, cancelled)
    }

    /** `newDefaultCmdEvtListener`: nothing received yet, context live. */
    constructor (src: MgmtCommand)
      ensures srcCmd == src && State() == INITIAL_LISTENER
    {
      srcCmd := src;
      isDone := false;
      resParam := [];
      resErr := None;
      cancelled := false;
    }

    /**
     * `Filter`: once done the listener takes every event; before that it
     * takes exactly the answers for its controller that echo its opcode,
     * a Command Status of three bytes or a Command Complete of at least
     * three, and `Handle` then finishes it.
     */
    predicate Filter(event: Event): (consume: bool)
      reads this
      ensures isDone ==> consume
      ensures !isDone ==>
        (consume <==>
          && event.controllerIdx == srcCmd.controllerIdx
          && (event.eventCode == EVT_COMMAND_STATUS || event.eventCode == EVT_COMMAND_COMPLETE)
          && (if event.eventCode == EVT_COMMAND_STATUS then |event.payload| == 3 else |event.payload| >= 3)
          && Uint16At(event.payload, 0) == srcCmd.commandCode)
      ensures consume ==> HandleStep(State(), srcCmd, event).1
    {
      Consumes(State(), srcCmd, event)
    }

    /** `Handle`: changes the listener as `HandleStep` says and reports what it reports. */
    method Handle(event: Event) returns (finished: bool)
      modifies this
      ensures (State(), finished) == HandleStep(old(State()), srcCmd, event)
    {
      if isDone {
        return true;
      }
      if event.eventCode == EVT_COMMAND_STATUS {
        var parsed := ParseEvtCmdStatus(event.payload);
        if parsed.Success? && parsed.value.cmd == srcCmd.commandCode {
          var state := parsed.value.status;
          if state in CmdStatusErrorMap {
            resErr := CmdStatusErrorMap[state];
          } else {
            resErr := Some(UnknownCommandStatus);
          }
          cancelled := true;
          return true;
        }
      } else if event.eventCode == EVT_COMMAND_COMPLETE {
        var parsed := ParseEvtCmdComplete(event.payload);
        if parsed.Success? && parsed.value.cmd == srcCmd.commandCode {
          var state := parsed.value.status;
          if state in CmdStatusErrorMap {
            resErr := CmdStatusErrorMap[state];
            resParam := parsed.value.retParams;
          } else {
            resErr := Some(UnknownCommandStatus);
          }
          cancelled := true;
          return true;
        }
      } else {
        return false;
      }
      return false;
    }

    /** `SetDone`: marks the listener done and cancels its context; nothing else changes. */
    method SetDone()
      modifies this
      ensures State() == old(State()).(isDone := true, cancelled := true)
    {
      isDone := true;
      cancelled := true;
    }

    /**
     * `WaitResult`: when the deadline comes first (always, while the
     * context is live and nothing else runs), the listener is cancelled and
     * the error becomes `ErrCmdTimeout`; otherwise the stored result is
     * returned unchanged.
     */
    method WaitResult(deadlineFirst: bool) returns (param: seq<Byte>, err: Option<Error>)
      modifies this
      ensures (State(), param, err) == WaitStep(old(State()), deadlineFirst)
    {
      if deadlineFirst || !cancelled {
        cancelled := true;
        resErr := Some(CmdTimeout);
      }
      return resParam, resErr;
    }
  }

  /**
   * What `WaitResult` leaves in the listener and returns: when the
   * deadline comes first or the context is still live, the listener is
   * cancelled and the timeout is stored as its error and returned; the
   * stored result otherwise. The parameters are returned as stored in both cases.
   */
  function WaitStep(s: ListenerState, deadlineFirst: bool): (r: (ListenerState, seq<Byte>, Option<Error>))
    ensures r.1 == s.resParam && r.0.resParam == s.resParam && r.0.isDone == s.isDone && r.0.cancelled
    ensures deadlineFirst || !s.cancelled ==> r.0 == s.(cancelled := true, resErr := Some(CmdTimeout)) && r.2 == Some(CmdTimeout)
    ensures !deadlineFirst && s.cancelled ==> r.0 == s && r.2 == s.resErr
  {
    if deadlineFirst || !s.cancelled then
      var t := s.(cancelled := true, resErr := Some(CmdTimeout));
      (t, t.resParam, t.resErr)
    else (s, s.resParam, s.resErr)
  }

  /**
   * A worked exchange: a Set Powered command (opcode 0x05) for controller
   * 0, answered by a Command Complete with status Success and the four
   * settings bytes. The listener takes the event, stores the settings as
   * its result with no error, and is finished.
   */
  lemma SetPoweredAnswered()
    ensures var src := NewMgmtCmd(0x05, 0, [0x01]);
            var ev := Event(EVT_COMMAND_COMPLETE, 0, 7, [0x05, 0x00, 0x00, 0xd1, 0x0a, 0x00, 0x00]);
            Consumes(INITIAL_LISTENER, src, ev) &&
            HandleStep(INITIAL_LISTENER, src, ev) == (ListenerState(false, [0xd1, 0x0a, 0x00, 0x00], None, true), true)
  {
    var ev := Event(EVT_COMMAND_COMPLETE, 0, 7, [0x05, 0x00, 0x00, 0xd1, 0x0a, 0x00, 0x00]);
    assert ev.payload[3..] == [0xd1, 0x0a, 0x00, 0x00];
  }
}
