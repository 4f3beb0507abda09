/**
 * btmgmt/commands.go: a management command and its wire form, and the
 * earlier form of the listener that waits for a command's result (its
 * goroutine body is modelled one received event at a time).
 */
module Commands {
  import opened Wrappers
  import opened Bytes
  import opened Globals
  import opened EvtParsers

  /** A command: opcode, controller index, the stored parameter length, and the parameters. */
  datatype MgmtCommand = MgmtCommand(commandCode: Uint16, controllerIdx: Uint16, paramLen: Uint16, payload: seq<Byte>)

  /**
   * An event as the earlier snapshot of the package names it; it has the
   * same four fields as a command.
   */
  datatype MgmtEvent = MgmtEvent(eventCode: Uint16, controllerIdx: Uint16, paramLen: Uint16, payload: seq<Byte>)

  /**
   * `NewMgmtCmd`: keeps opcode, controller and parameters as given; the
   * length field is `uint16(len(params))`, so it is the true length exactly
   * when that fits in 16 bits and wraps around otherwise.
   */
  function NewMgmtCmd(command: Uint16, controller: Uint16, params: seq<Byte>): (res: MgmtCommand)
    ensures res.commandCode == command && res.controllerIdx == controller && res.payload == params
    ensures |params| < 0x1_0000 <==> res.paramLen == |params|
    ensures (res.paramLen - |params|) % 0x1_0000 == 0
  {
    MgmtCommand(command, controller, |params| % 0x1_0000, params)
  }

  /**
   * The bytes of a command on the socket: the three header fields as
   * little-endian 16-bit values at offsets 0, 2 and 4, then the payload.
   * The controller index goes out as stored, 0xFFFF included.
   */
  function Frame(mc: MgmtCommand): (r: seq<Byte>)
    ensures |r| == 6 + |mc.payload|
    ensures Uint16At(r, 0) == mc.commandCode
    ensures Uint16At(r, 2) == mc.controllerIdx
    ensures Uint16At(r, 4) == mc.paramLen
    ensures r[6..] == mc.payload
  {
    var r := LittleEndian(mc.commandCode) + LittleEndian(mc.controllerIdx) + LittleEndian(mc.paramLen) + mc.payload;
    assert r[0..2] == LittleEndian(mc.commandCode);
    assert r[2..4] == LittleEndian(mc.controllerIdx);
    assert r[4..6] == LittleEndian(mc.paramLen);
    r
  }

  /**
   * `toWire`: fills a six-byte header in place with `PutUint16` and
   * appends the payload; the result is the command's frame.
   */
  method ToWire(mc: MgmtCommand) returns (wire: seq<Byte>)
    ensures wire == Frame(mc)
  {
    var header := new Byte[6];
    PutUint16(header, 0, mc.commandCode);
    PutUint16(header, 2, mc.controllerIdx);
    PutUint16(header, 4, mc.paramLen);
    assert header[..] == header[0..2] + header[2..4] + header[4..6];
    wire := header[..] + mc.payload;
  }

  /** How a result event relates to the command with opcode `cmd`. */
  datatype Matched =
    | NoMatch
    | StatusFor(status: Uint16)
    | CompleteFor(status: Uint16, retParams: seq<Byte>)

  /**
   * The matching rule both listeners apply to an event's code and payload:
   * a Command Status event whose three-byte payload echoes `cmd`, or a
   * Command Complete event whose payload of at least three bytes echoes
   * `cmd`, is a result for that command; anything else is not.
   */
  function Match(eventCode: Uint16, payload: seq<Byte>, cmd: Uint16): (m: Matched)
    ensures m.StatusFor? <==> eventCode == EVT_COMMAND_STATUS && |payload| == 3 && Uint16At(payload, 0) == cmd
    ensures m.CompleteFor? <==> eventCode == EVT_COMMAND_COMPLETE && |payload| >= 3 && Uint16At(payload, 0) == cmd
    ensures !m.NoMatch? ==> m.status == payload[2]
    ensures m.CompleteFor? ==> m.retParams == payload[3..]
  {
    if eventCode == EVT_COMMAND_STATUS then
      match ParseEvtCmdStatus(payload)
      case Success(st) => if st.cmd == cmd then StatusFor(st.status) else NoMatch
      case Failure(_) => NoMatch
    else if eventCode == EVT_COMMAND_COMPLETE then
      match ParseEvtCmdComplete(payload)
      case Success(cc) => if cc.cmd == cmd then CompleteFor(cc.status, cc.retParams) else NoMatch
      case Failure(_) => NoMatch
    else NoMatch
  }

  /**
   * The error a listener stores for a result status: the table's entry
   * (none for success) when the status is in the table, `unknown` when it
   * is not.
   */
  function StatusError(status: Uint16, unknown: Error): (e: Option<Error>)
    ensures e == None <==> status == CMD_STATUS_SUCCESS
    ensures status > CMD_STATUS_PERMISSION_DENIED ==> e == Some(unknown)
    ensures CMD_STATUS_SUCCESS < status <= CMD_STATUS_PERMISSION_DENIED ==> e == CmdStatusErrorMap[status]
  {
    match LookupStatus(status)
    case Some(statusErr) => statusErr
    case None => Some(unknown)
  }

  /** The error the earlier listener builds on the spot for a status missing from the table. */
  const UNKNOWN_STATUS := Message("Unknown command status for received event")

  /**
   * `MgmtCommandDefaultListener`: the command it waits for, the result
   * parameters (`None` for a nil pointer), the result error, and whether its
   * context has been cancelled.
   */
  class MgmtCommandDefaultListener {
    const srcCmd: MgmtCommand
    var resParam: Option<seq<Byte>>
    var resErr: Option<Error>
    var cancelled: bool

    /** `NewCmdDefaultListener`: nothing received yet, context live. */
    constructor (src: MgmtCommand)
      ensures srcCmd == src && resParam == None && resErr == None && !cancelled
    {
      srcCmd := src;
      resParam := None;
      resErr := None;
      cancelled := false;
    }

    /**
     * One turn of the listener's goroutine on a received event. An event
     * for another controller, or one that is no result for the command,
     * changes nothing. A matching Command Status stores the status's error
     * and cancels; a matching Command Complete does the same and, only when
     * the status is in the table, also stores the return parameters.
     */
    method Receive(ev: MgmtEvent)
      modifies this
      ensures ev.controllerIdx != srcCmd.controllerIdx ==> unchanged(this)
      ensures Match(ev.eventCode, ev.payload, srcCmd.commandCode).NoMatch? ==> unchanged(this)
      ensures ev.controllerIdx == srcCmd.controllerIdx ==>
        match Match(ev.eventCode, ev.payload, srcCmd.commandCode)
        case NoMatch => true
        case StatusFor(st) =>
          resErr == StatusError(st, UNKNOWN_STATUS) && resParam == old(resParam) && cancelled
        case CompleteFor(st, ret) =>
          && resErr == StatusError(st, UNKNOWN_STATUS) && cancelled
          && resParam == (if st <= CMD_STATUS_PERMISSION_DENIED then Some(ret) else old(resParam))
    {
      if ev.controllerIdx == srcCmd.controllerIdx {
        if ev.eventCode == EVT_COMMAND_STATUS {
          var parsed := ParseEvtCmdStatus(ev.payload);
          if parsed.Success? && parsed.value.cmd == srcCmd.commandCode {
            var state := parsed.value.status;
            if state in CmdStatusErrorMap {
              resErr := CmdStatusErrorMap[state];
            } else {
              resErr := Some(UNKNOWN_STATUS);
            }
            cancelled := true;
          }
        } else if ev.eventCode == EVT_COMMAND_COMPLETE {
          var parsed := ParseEvtCmdComplete(ev.payload);
          if parsed.Success? && parsed.value.cmd == srcCmd.commandCode {
            var state := parsed.value.status;
            if state in CmdStatusErrorMap {
              resErr := CmdStatusErrorMap[state];
              resParam := Some(parsed.value.retParams);
            } else {
              resErr := Some(UNKNOWN_STATUS);
            }
            cancelled := true;
          }
        }
      }
    }

    /**
     * `WaitResult`: `deadlineFirst` says the timeout fired before the
     * listener's context was done (the only possibility while it is still
     * live, since nothing else runs during the wait). Then the listener is
     * cancelled and the error becomes the timeout; otherwise the stored
     * result is returned as it is. Either way the stored parameters are
     * returned.
     */
    method WaitResult(deadlineFirst: bool) returns (param: Option<seq<Byte>>, err: Option<Error>)
      modifies this
      ensures param == resParam == old(resParam)
      ensures deadlineFirst || !old(cancelled) ==> err == Some(CmdTimeout) && resErr == err && cancelled
      ensures !deadlineFirst && old(cancelled) ==> err == old(resErr) && unchanged(this)
    {
      if deadlineFirst || !cancelled {
        cancelled := true;
        resErr := Some(CmdTimeout);
      }
      return resParam, resErr;
    }
  }
}
