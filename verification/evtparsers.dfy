/**
 * btmgmt/evtParsers.go: the parameter layouts of the Command Complete,
 * Command Status and New Settings events of the management API.
 */
module EvtParsers {
  import opened Wrappers
  import opened Bytes
  import opened Globals

  /** A decoded Command Complete payload: the echoed opcode, the status, and the return parameters. */
  datatype CmdComplete = CmdComplete(cmd: Uint16, status: Uint16, retParams: seq<Byte>)

  /** A decoded Command Status payload: the echoed opcode and the status. */
  datatype CmdStatus = CmdStatus(cmd: Uint16, status: Uint16)

  /** The Command Complete payload the kernel sends for `c`: opcode, status byte, return parameters. */
  function EncodeCmdComplete(c: CmdComplete): (p: seq<Byte>)
    requires c.status < 0x100
    ensures |p| == 3 + |c.retParams|
  {
    LittleEndian(c.cmd) + [c.status as Byte] + c.retParams
  }

  /** The Command Status payload the kernel sends for `c`: opcode and status byte. */
  function EncodeCmdStatus(c: CmdStatus): (p: seq<Byte>)
    requires c.status < 0x100
    ensures |p| == 3
  {
    LittleEndian(c.cmd) + [c.status as Byte]
  }

  /**
   * `ParseEvtCmdComplete`: fails exactly on payloads shorter than three
   * bytes; otherwise the decoded fields, encoded again, are the payload, so
   * the return parameters are everything after the third byte (possibly
   * nothing).
   */
  function ParseEvtCmdComplete(payload: seq<Byte>): (r: Result<CmdComplete, Error>)
    ensures r.Failure? <==> |payload| < 3
    ensures r.Failure? ==> r.error == Message("No command complete payload format")
    ensures r.Success? ==> r.value.status < 0x100 && EncodeCmdComplete(r.value) == payload
    ensures r.Success? ==> |r.value.retParams| == |payload| - 3
  {
    if |payload| < 3 then Failure(Message("No command complete payload format"))
    else
      LittleEndianOfUint16At(payload, 0);
      Success(CmdComplete(Uint16At(payload, 0), payload[2], payload[3..]))
  }

  /**
   * `ParseEvtCmdStatus`: fails on every payload that is not exactly three
   * bytes long; otherwise the decoded fields, encoded again, are the payload.
   */
  function ParseEvtCmdStatus(payload: seq<Byte>): (r: Result<CmdStatus, Error>)
    ensures r.Failure? <==> |payload| != 3
    ensures r.Failure? ==> r.error == Message("No command status payload format")
    ensures r.Success? ==> r.value.status < 0x100 && EncodeCmdStatus(r.value) == payload
  {
    if |payload| != 3 then Failure(Message("No command status payload format"))
    else
      LittleEndianOfUint16At(payload, 0);
      Success(CmdStatus(Uint16At(payload, 0), payload[2]))
  }

  /** Decoding what the kernel encodes gives back the Command Complete fields. */
  lemma CmdCompleteRoundTrip(c: CmdComplete)
    requires c.status < 0x100
    ensures ParseEvtCmdComplete(EncodeCmdComplete(c)) == Success(c)
  {
    var p := EncodeCmdComplete(c);
    assert p[..2] == LittleEndian(c.cmd) && p[3..] == c.retParams;
    assert Uint16At(p, 0) == Uint16At(LittleEndian(c.cmd), 0);
  }

  /** Decoding what the kernel encodes gives back the Command Status fields. */
  lemma CmdStatusRoundTrip(c: CmdStatus)
    requires c.status < 0x100
    ensures ParseEvtCmdStatus(EncodeCmdStatus(c)) == Success(c)
  {
    var p := EncodeCmdStatus(c);
    assert Uint16At(p, 0) == Uint16At(LittleEndian(c.cmd), 0);
  }

  /**
   * `ParseEvtNewSettings`: any payload but exactly four bytes is an error
   * and yields no settings; a four-byte payload yields fresh settings that
   * `Update` has filled from it, so only its first byte counts.
   */
  method ParseEvtNewSettings(payload: seq<Byte>) returns (settings: ControllerSettings?, err: Option<Error>)
    ensures |payload| != 4 ==> settings == null && err == Some(Message("No new settings event"))
    ensures |payload| == 4 ==> settings != null && fresh(settings) && err == None
    ensures |payload| == 4 ==> settings.LowFlagsAre(payload[0]) && settings.HighFlagsClear()
  {
    if |payload| != 4 {
      return null, Some(Message("No new settings event"));
    }
    settings := new ControllerSettings();
    err := settings.Update(payload);
  }
}
