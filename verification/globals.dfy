/**
 * btmgmt/globals.go: the error values of the package, the event and status
 * codes of the management protocol, the status-to-error table, and the
 * controller settings bitfield.
 */
module Globals {
  import opened Wrappers
  import opened Bytes
  import Helper

  /** The controller index of a command or event that concerns no controller. */
  const INDEX_CONTROLLER_NONE: Uint16 := 0xFFFF

  /** How long a command waits for its result, in seconds. */
  const DEFAULT_COMMAND_TIMEOUT_SECONDS := 30

  const EVT_COMMAND_COMPLETE: Uint16 := 0x01
  const EVT_COMMAND_STATUS: Uint16 := 0x02
  const EVT_NEW_SETTINGS: Uint16 := 0x06

  const CMD_STATUS_SUCCESS: Uint16 := 0x00
  const CMD_STATUS_UNKNOWN_COMMAND: Uint16 := 0x01
  const CMD_STATUS_NOT_CONNECTED: Uint16 := 0x02
  const CMD_STATUS_FAILED: Uint16 := 0x03
  const CMD_STATUS_CONNECT_FAILED: Uint16 := 0x04
  const CMD_STATUS_AUTHENTICATION_FAILED: Uint16 := 0x05
  const CMD_STATUS_NOT_PAIRED: Uint16 := 0x06
  const CMD_STATUS_NO_RESOURCES: Uint16 := 0x07
  const CMD_STATUS_TIMEOUT: Uint16 := 0x08
  const CMD_STATUS_ALREADY_CONNECTED: Uint16 := 0x09
  const CMD_STATUS_BUSY: Uint16 := 0x0A
  const CMD_STATUS_REJECTED: Uint16 := 0x0B
  const CMD_STATUS_NOT_SUPPORTED: Uint16 := 0x0C
  const CMD_STATUS_INVALID_PARAMETERS: Uint16 := 0x0D
  const CMD_STATUS_DISCONNECTED: Uint16 := 0x0E
  const CMD_STATUS_NOT_POWERED: Uint16 := 0x0F
  const CMD_STATUS_CANCELLED: Uint16 := 0x10
  const CMD_STATUS_INVALID_INDEX: Uint16 := 0x11
  const CMD_STATUS_RF_KILLED: Uint16 := 0x12
  const CMD_STATUS_ALREADY_PAIRED: Uint16 := 0x13
  const CMD_STATUS_PERMISSION_DENIED: Uint16 := 0x14

  /**
   * The package's error values. The named ones are the package-level
   * sentinels; `Message` is an error made on the spot with `errors.New`,
   * `Errno` one handed back by a system call and passed on unchanged, and
   * `Wrapped` one made by formatting a system call's error after a prefix.
   */
  datatype Error =
    | SocketOpen
    | SocketBind
    | Closed
    | SocketNotConnected
    | RdLoop
    | EvtRdHdr
    | EvtParseHdr
    | EvtRdPayload
    | UnknownCommandStatus
    | PayloadFormat
    | SockClose
    | CmdTimeout
    | Message(text: string)
    | Errno(code: int)
    | Wrapped(prefix: string, code: int)

  /** The entry `genCmdStatusErrorMap` inserts for status code `s` of the management API. */
  function StatusEntry(s: Uint16): Option<Error>
    requires s <= CMD_STATUS_PERMISSION_DENIED
  {
    if s == CMD_STATUS_SUCCESS then None
    else if s == CMD_STATUS_UNKNOWN_COMMAND then Some(Message("Unknown command"))
    else if s == CMD_STATUS_NOT_CONNECTED then Some(Message("Not connected"))
    else if s == CMD_STATUS_FAILED then Some(Message("Failed"))
    else if s == CMD_STATUS_CONNECT_FAILED then Some(Message("Connect failed"))
    else if s == CMD_STATUS_AUTHENTICATION_FAILED then Some(Message("Authentication failed"))
    else if s == CMD_STATUS_NOT_PAIRED then Some(Message("Not paired"))
    else if s == CMD_STATUS_NO_RESOURCES then Some(Message("No resources"))
    else if s == CMD_STATUS_TIMEOUT then Some(Message("Timeout"))
    else if s == CMD_STATUS_ALREADY_CONNECTED then Some(Message("Already connected"))
    else if s == CMD_STATUS_BUSY then Some(Message("Busy"))
    else if s == CMD_STATUS_REJECTED then Some(Message("Rejected"))
    else if s == CMD_STATUS_NOT_SUPPORTED then Some(Message("Not supported"))
    else if s == CMD_STATUS_INVALID_PARAMETERS then Some(Message("Invalid parameters"))
    else if s == CMD_STATUS_DISCONNECTED then Some(Message("Disconnected"))
    else if s == CMD_STATUS_NOT_POWERED then Some(Message("Not powered"))
    else if s == CMD_STATUS_CANCELLED then Some(Message("Cancelled"))
    else if s == CMD_STATUS_INVALID_INDEX then Some(Message("Invalid index"))
    else if s == CMD_STATUS_RF_KILLED then Some(Message("RFKilled"))
    else if s == CMD_STATUS_ALREADY_PAIRED then Some(Message("Already paired"))
    else Some(Message("Permission denied"))
  }

  /**
   * `genCmdStatusErrorMap`: one entry per status code of the management
   * API, 0x00 to 0x14 and no other. Success maps to `nil` (no error); every
   * other code maps to an error value.
   */
  function GenCmdStatusErrorMap(): (eMap: map<Uint16, Option<Error>>)
    ensures forall s: Uint16 :: s in eMap <==> s <= CMD_STATUS_PERMISSION_DENIED
    ensures eMap[CMD_STATUS_SUCCESS] == None
    ensures forall s :: s in eMap && s != CMD_STATUS_SUCCESS ==> eMap[s].Some? && eMap[s].value.Message?
  {
    map s: Uint16 | s <= CMD_STATUS_PERMISSION_DENIED :: StatusEntry(s)
  }

  /** `CmdStatusErrorMap`, built once when the package loads. */
  const CmdStatusErrorMap := GenCmdStatusErrorMap()

  /** Reads back which status an entry of the table stands for (-1 for anything the table never holds). */
  function StatusOf(e: Option<Error>): int
  {
    match e
    case None => 0
    case Some(Message(t)) =>
      if t == "Unknown command" then 1
      else if t == "Not connected" then 2
      else if t == "Failed" then 3
      else if t == "Connect failed" then 4
      else if t == "Authentication failed" then 5
      else if t == "Not paired" then 6
      else if t == "No resources" then 7
      else if t == "Timeout" then 8
      else if t == "Already connected" then 9
      else if t == "Busy" then 10
      else if t == "Rejected" then 11
      else if t == "Not supported" then 12
      else if t == "Invalid parameters" then 13
      else if t == "Disconnected" then 14
      else if t == "Not powered" then 15
      else if t == "Cancelled" then 16
      else if t == "Invalid index" then 17
      else if t == "RFKilled" then 18
      else if t == "Already paired" then 19
      else if t == "Permission denied" then 20
      else -1
    case Some(_) => -1
  }

  /**
   * The comma-ok read `statusErr, exists := CmdStatusErrorMap[state]`:
   * `None` when the status is not in the table, `Some(e)` with the entry
   * `e` (itself `None` for success) when it is.
   */
  function LookupStatus(state: Uint16): (r: Option<Option<Error>>)
    ensures r.Some? <==> state <= CMD_STATUS_PERMISSION_DENIED
    ensures state == CMD_STATUS_SUCCESS ==> r == Some(None)
    ensures CMD_STATUS_SUCCESS < state <= CMD_STATUS_PERMISSION_DENIED ==> r.Some? && r.value.Some?
  {
    if state in CmdStatusErrorMap then Some(CmdStatusErrorMap[state]) else None
  }

  /** `StatusOf` undoes `StatusEntry`. */
  lemma StatusOfEntry(s: Uint16)
    requires s <= CMD_STATUS_PERMISSION_DENIED
    ensures StatusOf(StatusEntry(s)) == s
  {
    if s <= CMD_STATUS_NOT_PAIRED {
      StatusOfEntry0To6(s);
    } else if s <= CMD_STATUS_REJECTED {
      StatusOfEntry7To11(s);
    } else if s <= CMD_STATUS_NOT_POWERED {
      StatusOfEntry12To15(s);
    } else if s <= CMD_STATUS_RF_KILLED {
      StatusOfEntry16To18(s);
    } else {
      StatusOfEntry19To20(s);
    }
  }

  /** `StatusOfEntry` a few codes at a time, to keep each proof small. */
  lemma StatusOfEntry0To6(s: Uint16)
    requires s <= CMD_STATUS_NOT_PAIRED
    ensures StatusOf(StatusEntry(s)) == s
  {
  }

  lemma StatusOfEntry7To11(s: Uint16)
    requires CMD_STATUS_NOT_PAIRED < s <= CMD_STATUS_REJECTED
    ensures StatusOf(StatusEntry(s)) == s
  {
  }

  lemma StatusOfEntry12To15(s: Uint16)
    requires CMD_STATUS_REJECTED < s <= CMD_STATUS_NOT_POWERED
    ensures StatusOf(StatusEntry(s)) == s
  {
  }

  lemma StatusOfEntry16To18(s: Uint16)
    requires CMD_STATUS_NOT_POWERED < s <= CMD_STATUS_RF_KILLED
    ensures StatusOf(StatusEntry(s)) == s
  {
  }

  lemma StatusOfEntry19To20(s: Uint16)
    requires CMD_STATUS_RF_KILLED < s <= CMD_STATUS_PERMISSION_DENIED
    ensures StatusOf(StatusEntry(s)) == s
  {
  }

  /** Every status code of the table has an error of its own: no two codes share one. */
  lemma StatusErrorsDistinct()
    ensures forall s, t :: s in CmdStatusErrorMap && t in CmdStatusErrorMap && s != t ==>
              CmdStatusErrorMap[s] != CmdStatusErrorMap[t]
  {
    forall s | s in CmdStatusErrorMap
      ensures StatusOf(CmdStatusErrorMap[s]) == s
    {
      StatusOfEntry(s);
    }
  }

  /**
   * `ControllerSettings`: the sixteen flags of the management API's
   * current-settings bitfield, in bit order.
   */
  class ControllerSettings {
    var powered: bool
    var connectable: bool
    var fastConnectable: bool
    var discoverable: bool
    var bondable: bool
    var linkLevelSecurity: bool
    var secureSimplePairing: bool
    var brEdr: bool
    var highSpeed: bool
    var lowEnergy: bool
    var advertising: bool
    var secureConnections: bool
    var debugKeys: bool
    var privacy: bool
    var controllerConfiguration: bool
    var staticAddress: bool

    /** The flags in bit order: `Flags()[i]` is the flag for bit `i`. */
    function Flags(): (f: seq<bool>)
      reads this
      ensures |f| == 16
    {
      [powered, connectable, fastConnectable, discoverable,
       bondable, linkLevelSecurity, secureSimplePairing, brEdr,
       highSpeed, lowEnergy, advertising, secureConnections,
       debugKeys, privacy, controllerConfiguration, staticAddress]
    }

    /** Flags 0 to 7 hold bits 0 to 7 of `b`. */
    predicate LowFlagsAre(b: Byte)
      reads this
    {
      && powered == Bit(b, 0) && connectable == Bit(b, 1)
      && fastConnectable == Bit(b, 2) && discoverable == Bit(b, 3)
      && bondable == Bit(b, 4) && linkLevelSecurity == Bit(b, 5)
      && secureSimplePairing == Bit(b, 6) && brEdr == Bit(b, 7)
    }

    /** Flags 8 to 15 are all false. */
    predicate HighFlagsClear()
      reads this
    {
      !(highSpeed || lowEnergy || advertising || secureConnections ||
        debugKeys || privacy || controllerConfiguration || staticAddress)
    }

    /** The zero value `ControllerSettings{}`: every flag false. */
    constructor ()
      ensures forall i :: 0 <= i < 16 ==> !Flags()[i]
    {
      powered, connectable, fastConnectable, discoverable := false, false, false, false;
      bondable, linkLevelSecurity, secureSimplePairing, brEdr := false, false, false, false;
      highSpeed, lowEnergy, advertising, secureConnections := false, false, false, false;
      debugKeys, privacy, controllerConfiguration, staticAddress := false, false, false, false;
    }

    /**
     * `Update`: an empty bitfield is an error and leaves every flag alone.
     * Otherwise only the first byte is read: flag `i` becomes bit `i` of it
     * for `i` below 8, and the flags for bits 8 to 15 all become false, since
     * the byte-wide test cannot see those bits.
     */
    method Update(bitfield: seq<Byte>) returns (err: Option<Error>)
      modifies this
      ensures |bitfield| < 1 ==> err == Some(Message("Couldn't parse controller settings")) && unchanged(this)
      ensures |bitfield| >= 1 ==> err == None && LowFlagsAre(bitfield[0]) && HighFlagsClear()
    {
      if |bitfield| < 1 {
        return Some(Message("Couldn't parse controller settings"));
      }
      var b := bitfield[0];
      TestBits0To3(b);
      TestBits4To7(b);
      TestBits8To11(b);
      TestBits12To15(b);
      return None;
    }

    /** The `testBit` assignments of `Update` for bits 0 to 3. */
    method TestBits0To3(b: Byte)
      modifies this`powered, this`connectable, this`fastConnectable, this`discoverable
      ensures powered == Bit(b, 0)
      ensures connectable == Bit(b, 1)
      ensures fastConnectable == Bit(b, 2)
      ensures discoverable == Bit(b, 3)
    {
      powered := Helper.TestBit(b, 0);
      connectable := Helper.TestBit(b, 1);
      fastConnectable := Helper.TestBit(b, 2);
      discoverable := Helper.TestBit(b, 3);
    }

    /** The `testBit` assignments of `Update` for bits 4 to 7. */
    method TestBits4To7(b: Byte)
      modifies this`bondable, this`linkLevelSecurity, this`secureSimplePairing, this`brEdr
      ensures bondable == Bit(b, 4)
      ensures linkLevelSecurity == Bit(b, 5)
      ensures secureSimplePairing == Bit(b, 6)
      ensures brEdr == Bit(b, 7)
    {
      bondable := Helper.TestBit(b, 4);
      linkLevelSecurity := Helper.TestBit(b, 5);
      secureSimplePairing := Helper.TestBit(b, 6);
      brEdr := Helper.TestBit(b, 7);
    }

    /** The `testBit` assignments of `Update` for bits 8 to 11. */
    method TestBits8To11(b: Byte)
      modifies this`highSpeed, this`lowEnergy, this`advertising, this`secureConnections
      ensures !highSpeed
      ensures !lowEnergy
      ensures !advertising
      ensures !secureConnections
    {
      highSpeed := Helper.TestBit(b, 8);
      lowEnergy := Helper.TestBit(b, 9);
      advertising := Helper.TestBit(b, 10);
      secureConnections := Helper.TestBit(b, 11);
    }

    /** The `testBit` assignments of `Update` for bits 12 to 15. */
    method TestBits12To15(b: Byte)
      modifies this`debugKeys, this`privacy, this`controllerConfiguration, this`staticAddress
      ensures !debugKeys
      ensures !privacy
      ensures !controllerConfiguration
      ensures !staticAddress
    {
      debugKeys := Helper.TestBit(b, 12);
      privacy := Helper.TestBit(b, 13);
      controllerConfiguration := Helper.TestBit(b, 14);
      staticAddress := Helper.TestBit(b, 15);
    }
  }
}
