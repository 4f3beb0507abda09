/**
 * btmgmt/btmgmt.go: the earlier form of the management connection. It
 * guards reads and writes by `isBound` alone, reads events straight from
 * the socket (a six-byte header, then as many parameter bytes as the
 * header announces), and decodes frames without a length check.
 */
module BtMgmt {
  import opened Wrappers
  import opened Bytes
  import opened Globals
  import opened Syscall
  import opened Commands
  import Events
  import Connection

  /**
   * The earlier `parseEvt`: the three little-endian header fields and the
   * bytes after them. It does not check the length, so it needs a whole
   * header; on such a packet it agrees with the checked decoder.
   */
  function ParseEvt(packet: seq<Byte>): (evt: MgmtEvent)
    requires |packet| >= 6
    ensures Events.ParseEvt(packet) == Success(Events.Event(evt.eventCode, evt.controllerIdx, evt.paramLen, evt.payload))
  {
    MgmtEvent(Uint16At(packet, 0), Uint16At(packet, 2), Uint16At(packet, 4), packet[6..])
  }

  /**
   * The frame of a command built by `NewMgmtCmd` with fewer than 65536
   * parameter bytes decodes to an event with its code, controller, length
   * and parameters.
   */
  lemma ParseEvtOfCommandFrame(c: Uint16, idx: Uint16, p: seq<Byte>)
    requires |p| < 0x1_0000
    ensures ParseEvt(Frame(NewMgmtCmd(c, idx, p))) == MgmtEvent(c, idx, |p|, p)
  {
    Events.NewCommandRoundTrip(c, idx, p);
  }

  /**
   * The outcome of a read loop (the bytes, or the failed read's errno), the
   * number of read calls made so far, and the room the last of them offered.
   */
  datatype ReadTrace = ReadTrace(outcome: Result<seq<Byte>, int>, calls: nat, lastRoom: nat)

  /**
   * The `ReadBytes` loop with `got` already read out of `count`, the
   * `k`-th read being answered by `kernelRead(k, ·)` for the room left. It
   * ends with exactly `count` bytes: `got`, then what the next read
   * delivered, and so on. Or it ends with the errno of a failed read, which
   * is the last call made (`ReadLoopProvenance`). Each call is counted.
   */
  function ReadLoop(kernelRead: (nat, nat) -> ReadAnswer, count: nat, got: seq<Byte>, k: nat): (t: ReadTrace)
    requires ReadContract(kernelRead) && |got| <= count
    ensures t.outcome.Success? ==> |t.outcome.value| == count && got <= t.outcome.value
    ensures t.calls >= k
    ensures t.calls == k <==> |got| == count
    decreases count - |got|
  {
    if |got| == count then ReadTrace(Success(got), k, 0)
    else
      match kernelRead(k, count - |got|)
      case ReadFailed(e) => ReadTrace(Failure(e), k + 1, count - |got|)
      case Delivered(d) =>
        var t := ReadLoop(kernelRead, count, got + d, k + 1);
        assert t.outcome.Success? ==> got <= got + d <= t.outcome.value;
        t
  }

  /**
   * The earlier `ReadEvt` from read call `k` on: a failed header read is
   * `ErrEvtRdHdr`; otherwise the header is decoded and exactly as many
   * parameter bytes as it announces are read, a failure there being
   * `ErrEvtRdPayload`. The second component is the number of the next read
   * call.
   */
  function EventRead(kernelRead: (nat, nat) -> ReadAnswer, k: nat): (r: (Result<MgmtEvent, Error>, nat))
    requires ReadContract(kernelRead)
    ensures r.1 >= k
    ensures ReadLoop(kernelRead, 6, [], k).outcome.Failure? ==> r == (Failure(EvtRdHdr), ReadLoop(kernelRead, 6, [], k).calls)
    ensures r.0.Failure? ==> r.0.error == EvtRdHdr || r.0.error == EvtRdPayload
    ensures r.0.Success? ==> |r.0.value.payload| == r.0.value.paramLen
    ensures var h := ReadLoop(kernelRead, 6, [], k);
      h.outcome.Success? ==>
        var raw := h.outcome.value;
        var p := ReadLoop(kernelRead, Uint16At(raw, 4), [], h.calls);
        && r.1 == p.calls
        && (p.outcome.Failure? ==> r.0 == Failure(EvtRdPayload))
        && (p.outcome.Success? ==> r.0 == Success(MgmtEvent(Uint16At(raw, 0), Uint16At(raw, 2), Uint16At(raw, 4), p.outcome.value)))
  {
    var h := ReadLoop(kernelRead, 6, [], k);
    match h.outcome
    case Failure(_) => (Failure(EvtRdHdr), h.calls)
    case Success(raw) =>
      var paramLen := Uint16At(raw, 4);
      var p := ReadLoop(kernelRead, paramLen, [], h.calls);
      match p.outcome
      case Failure(_) => (Failure(EvtRdPayload), p.calls)
      case Success(payload) => (Success(MgmtEvent(Uint16At(raw, 0), Uint16At(raw, 2), paramLen, payload)), p.calls)
  }

  /**
   * Where a read loop's outcome comes from: the bytes of a successful loop
   * begin with `got` followed by what the first read delivered, and the
   * errno of a failed loop is what its last read call, offered a room of at
   * most the bytes still missing, answered.
   */
  lemma {:induction false} ReadLoopProvenance(kernelRead: (nat, nat) -> ReadAnswer, count: nat, got: seq<Byte>, k: nat)
    requires ReadContract(kernelRead) && |got| <= count
    ensures var t := ReadLoop(kernelRead, count, got, k);
      t.outcome.Success? && |got| < count ==>
        kernelRead(k, count - |got|).Delivered? && got + kernelRead(k, count - |got|).data <= t.outcome.value
    ensures var t := ReadLoop(kernelRead, count, got, k);
      t.outcome.Failure? ==>
        && t.calls > k && 0 < t.lastRoom <= count - |got|
        && kernelRead(t.calls - 1, t.lastRoom) == ReadFailed(t.outcome.error)
    decreases count - |got|
  {
    if |got| < count {
      match kernelRead(k, count - |got|)
      case ReadFailed(_) =>
      case Delivered(d) =>
        ReadLoopProvenance(kernelRead, count, got + d, k + 1);
        var t := ReadLoop(kernelRead, count, got + d, k + 1);
        assert t.outcome.Success? ==> got + d <= t.outcome.value;
    }
  }

  /** One read of a loop that is not finished: a failure ends it, delivered bytes are appended. */
  lemma ReadLoopStep(kernelRead: (nat, nat) -> ReadAnswer, count: nat, got: seq<Byte>, k: nat)
    requires ReadContract(kernelRead) && |got| < count
    ensures kernelRead(k, count - |got|).ReadFailed? ==>
      ReadLoop(kernelRead, count, got, k).outcome == Failure(kernelRead(k, count - |got|).errno) &&
      ReadLoop(kernelRead, count, got, k).calls == k + 1
    ensures kernelRead(k, count - |got|).Delivered? ==>
      var d := kernelRead(k, count - |got|).data;
      0 < |d| <= count - |got| &&
      ReadLoop(kernelRead, count, got, k) == ReadLoop(kernelRead, count, got + d, k + 1)
  {
  }

  /** A read loop for `count` bytes that the first read fills completely ends after that one call with its bytes. */
  lemma ReadLoopOneShot(kernelRead: (nat, nat) -> ReadAnswer, count: nat, k: nat, d: seq<Byte>)
    requires ReadContract(kernelRead)
    requires count > 0 && kernelRead(k, count) == Delivered(d) && |d| == count
    ensures ReadLoop(kernelRead, count, [], k).outcome == Success(d)
    ensures ReadLoop(kernelRead, count, [], k).calls == k + 1
  {
    assert [] + d == d;
  }

  /**
   * A kernel that hands over a frame whose length field is honest in two
   * reads, the header and then the parameters, makes `ReadEvt` return the
   * frame's event, the same event the frame decoder gives.
   */
  lemma EventReadOfFrame(kernelRead: (nat, nat) -> ReadAnswer, k: nat, frame: seq<Byte>)
    requires ReadContract(kernelRead)
    requires |frame| >= 6 && Uint16At(frame, 4) == |frame| - 6
    requires kernelRead(k, 6) == Delivered(frame[..6])
    requires |frame| > 6 ==> kernelRead(k + 1, |frame| - 6) == Delivered(frame[6..])
    ensures EventRead(kernelRead, k).0 == Success(ParseEvt(frame))
  {
    FrameReadInTwo(kernelRead, k, frame);
  }

  /** `EventReadOfFrame` with the event written out field by field. */
  lemma FrameReadInTwo(kernelRead: (nat, nat) -> ReadAnswer, k: nat, frame: seq<Byte>)
    requires ReadContract(kernelRead)
    requires |frame| >= 6 && Uint16At(frame, 4) == |frame| - 6
    requires kernelRead(k, 6) == Delivered(frame[..6])
    requires |frame| > 6 ==> kernelRead(k + 1, |frame| - 6) == Delivered(frame[6..])
    ensures EventRead(kernelRead, k).0 == Success(MgmtEvent(Uint16At(frame, 0), Uint16At(frame, 2), |frame| - 6, frame[6..]))
  {
    ReadLoopOneShot(kernelRead, 6, k, frame[..6]);
    var raw := frame[..6];
    assert Uint16At(raw, 0) == Uint16At(frame, 0) && Uint16At(raw, 2) == Uint16At(frame, 2) && Uint16At(raw, 4) == Uint16At(frame, 4);
    PayloadReadOfFrame(kernelRead, k + 1, frame);
  }

  /** The second read of `EventReadOfFrame`: the parameters the header announces, all at once. */
  lemma PayloadReadOfFrame(kernelRead: (nat, nat) -> ReadAnswer, k: nat, frame: seq<Byte>)
    requires ReadContract(kernelRead)
    requires |frame| >= 6
    requires |frame| > 6 ==> kernelRead(k, |frame| - 6) == Delivered(frame[6..])
    ensures ReadLoop(kernelRead, |frame| - 6, [], k).outcome == Success(frame[6..])
  {
    if |frame| > 6 {
      ReadLoopOneShot(kernelRead, |frame| - 6, k, frame[6..]);
    } else {
      assert frame[6..] == [];
    }
  }

  /**
   * The earlier `MgmtConnection`: the socket, the two lifecycle flags,
   * and whether the channel that stops the event handler has been closed.
   */
  class MgmtConnection {
    var socketFd: int
    var isBound: bool
    var isConnected: bool
    var aborted: bool

    /** The connection value before `Connect`. */
    constructor ()
      ensures !isConnected && !isBound && !aborted
    {
      socketFd := 0;
      isBound := false;
      isConnected := false;
      aborted := false;
    }

    /**
     * The earlier `NewMgmtConnection`: a failed open is `ErrSocketOpen`; a
     * failed bind disconnects and is `ErrSocketBind`. On success the
     * connection is open and bound (its goroutines are not modelled).
     */
    static method NewMgmtConnection(socketAnswer: SysAnswer, bindErr: Option<int>, closeErr: Option<int>)
      returns (conn: MgmtConnection?, err: Option<Error>)
      ensures socketAnswer.Failed? ==> conn == null && err == Some(SocketOpen)
      ensures socketAnswer.Done? && bindErr.Some? ==> conn == null && err == Some(SocketBind)
      ensures socketAnswer.Done? && bindErr.None? ==>
        && err == None && conn != null && fresh(conn)
        && conn.isConnected && conn.isBound && !conn.aborted && conn.socketFd == socketAnswer.n
    {
      var m := new MgmtConnection();
      err := m.Connect(socketAnswer);
      if err != None {
        return null, err;
      }
      err := m.Bind(bindErr);
      if err != None {
        var _ := m.Disconnect(closeErr);
        return null, err;
      }
      return m, None;
    }

    /**
     * `Read`: `ErrSocketNotConnected` with a count of 0 unless bound;
     * otherwise the read call's bytes and their count, or its errno with a
     * count of -1.
     */
    method Read(answer: ReadAnswer) returns (n: int, data: seq<Byte>, err: Option<Error>)
      ensures !isBound ==> n == 0 && data == [] && err == Some(SocketNotConnected)
      ensures isBound && answer.Delivered? ==> err == None && data == answer.data && n == |data|
      ensures isBound && answer.ReadFailed? ==> n == -1 && data == [] && err == Some(Errno(answer.errno))
    {
      if !isBound {
        return 0, [], Some(SocketNotConnected);
      }
      match answer
      case Delivered(d) => return |d|, d, None;
      case ReadFailed(e) => return -1, [], Some(Errno(e));
    }

    /**
     * `Write`: `ErrSocketNotConnected` with a count of 0 unless bound;
     * otherwise the write call's count, or its errno with a count of -1.
     */
    method Write(p: seq<Byte>, answer: SysAnswer) returns (n: int, err: Option<Error>)
      ensures !isBound ==> n == 0 && err == Some(SocketNotConnected)
      ensures isBound && answer.Done? ==> n == answer.n && err == None
      ensures isBound && answer.Failed? ==> n == -1 && err == Some(Errno(answer.errno))
    {
      if !isBound {
        return 0, Some(SocketNotConnected);
      }
      match answer
      case Done(k) => return k, None;
      case Failed(e) => return -1, Some(Errno(e));
    }

    /**
     * `Connect`: the socket call's descriptor is stored either way (-1 when
     * it failed). A failure is `ErrSocketOpen` and leaves the flags alone;
     * success marks the connection connected.
     */
    method Connect(socketAnswer: SysAnswer) returns (err: Option<Error>)
      modifies this
      ensures socketFd == (if socketAnswer.Done? then socketAnswer.n else -1)
      ensures socketAnswer.Failed? ==> err == Some(SocketOpen) && isConnected == old(isConnected)
      ensures socketAnswer.Done? ==> err == None && isConnected
      ensures isBound == old(isBound) && aborted == old(aborted)
    {
      match socketAnswer
      case Failed(_) =>
        socketFd := -1;
        return Some(SocketOpen);
      case Done(fd) =>
        socketFd := fd;
        isConnected := true;
        return None;
    }

    /**
     * `bind`: only a connected socket can be bound, and a failed bind call
     * is also `ErrSocketBind`; `isBound` is set only when the call succeeds.
     */
    method Bind(bindErr: Option<int>) returns (err: Option<Error>)
      modifies this
      ensures !old(isConnected) || bindErr.Some? ==> err == Some(SocketBind) && unchanged(this)
      ensures old(isConnected) && bindErr.None? ==> err == None && isBound
      ensures isConnected == old(isConnected) && aborted == old(aborted) && socketFd == old(socketFd)
    {
      if !isConnected {
        return Some(SocketBind);
      }
      if bindErr.Some? {
        return Some(SocketBind);
      }
      isBound := true;
      return None;
    }

    /**
     * `Disconnect`: on a connected socket a failed close call is an error
     * carrying the errno, with the flags left as they were. Otherwise (the
     * close succeeded or there was no socket) both flags are cleared and
     * the handler's stop channel is closed; closing it a second time would
     * panic, so a second successful call is excluded.
     */
    method Disconnect(closeErr: Option<int>) returns (err: Option<Error>)
      requires !aborted
      modifies this
      ensures old(isConnected) && closeErr.Some? ==>
        err == Some(Wrapped("Error closing socket: ", closeErr.value)) && unchanged(this)
      ensures !old(isConnected) || closeErr.None? ==> err == None && !isConnected && !isBound && aborted
      ensures socketFd == old(socketFd)
    {
      if isConnected {
        if closeErr.Some? {
          return Some(Wrapped("Error closing socket: ", closeErr.value));
        }
      }
      isConnected := false;
      isBound := false;
      aborted := true;
      return None;
    }

    /** `Close`: the same as `Disconnect`. */
    method Close(closeErr: Option<int>) returns (err: Option<Error>)
      requires !aborted
      modifies this
      ensures old(isConnected) && closeErr.Some? ==>
        err == Some(Wrapped("Error closing socket: ", closeErr.value)) && unchanged(this)
      ensures !old(isConnected) || closeErr.None? ==> err == None && !isConnected && !isBound && aborted
      ensures socketFd == old(socketFd)
    {
      err := Disconnect(closeErr);
    }

    /**
     * The earlier `SendCmd`: no closed check; writes the command's frame,
     * offering the unsent rest again after each partial write, and reports
     * the first write's error, or none once every byte is out.
     */
    method SendCmd(command: MgmtCommand, kernelWrite: (nat, seq<Byte>) -> SysAnswer) returns (err: Option<Error>)
      requires WriteContract(kernelWrite)
      ensures err == Connection.WriteLoop(isBound, kernelWrite, Frame(command), 0, 0).err
    {
      var sendbuf := ToWire(command);
      var lenBuff := |sendbuf|;
      var off := 0;
      var k := 0;
      while off < lenBuff
        invariant 0 <= off <= lenBuff
        invariant Connection.WriteLoop(isBound, kernelWrite, sendbuf, 0, 0).err ==
                  Connection.WriteLoop(isBound, kernelWrite, sendbuf, off, k).err
        decreases lenBuff - off
      {
        var s := sendbuf[off..];
        var n, e := Write(s, kernelWrite(k, s));
        if e != None {
          return e;
        }
        off := off + n;
        k := k + 1;
      }
      return None;
    }

    /**
     * `ReadBytes`: `ErrSocketNotConnected` unless bound, with no read made.
     * Otherwise reads into a fresh buffer of `count` bytes, offering the
     * unfilled rest after each partial read, until it is full; the first
     * failed read ends it with that read's errno. `next` is the number of
     * the next read call.
     */
    method ReadBytes(count: nat, kernelRead: (nat, nat) -> ReadAnswer, k: nat)
      returns (res: Option<seq<Byte>>, err: Option<Error>, next: nat)
      requires ReadContract(kernelRead)
      ensures !isBound ==> res == None && err == Some(SocketNotConnected) && next == k
      ensures isBound ==>
        var t := ReadLoop(kernelRead, count, [], k);
        && next == t.calls
        && (t.outcome.Success? ==> res == Some(t.outcome.value) && err == None)
        && (t.outcome.Failure? ==> res == None && err == Some(Errno(t.outcome.error)))
    {
      if !isBound {
        return None, Some(SocketNotConnected), k;
      }
      var readen := new Byte[count];
      var off := 0;
      next := k;
      while off < readen.Length
        invariant 0 <= off <= count
        invariant ReadLoop(kernelRead, count, [], k) == ReadLoop(kernelRead, count, readen[..off], next)
        decreases count - off
      {
        var answer := kernelRead(next, count - off);
        ReadLoopStep(kernelRead, count, readen[..off], next);
        next := next + 1;
        match answer
        case ReadFailed(e) =>
          return None, Some(Errno(e)), next;
        case Delivered(d) =>
          ghost var before := readen[..off];
          forall i | off <= i < off + |d| {
            readen[i] := d[i - off];
          }
          assert readen[..off + |d|] == before + d;
          off := off + |d|;
      }
      assert readen[..off] == readen[..];
      return Some(readen[..]), None, next;
    }

    /**
     * The earlier `ReadEvt`: `ErrEvtRdHdr` when the header read fails,
     * `ErrEvtRdPayload` when the parameter read fails, otherwise the event
     * the header and the parameters make up; as `EventRead` describes while
     * bound.
     */
    method ReadEvt(kernelRead: (nat, nat) -> ReadAnswer, k: nat)
      returns (hdr: Option<MgmtEvent>, err: Option<Error>, next: nat)
      requires ReadContract(kernelRead)
      ensures !isBound ==> hdr == None && err == Some(EvtRdHdr) && next == k
      ensures isBound ==>
        && next == EventRead(kernelRead, k).1
        && (EventRead(kernelRead, k).0.Success? ==> hdr == Some(EventRead(kernelRead, k).0.value) && err == None)
        && (EventRead(kernelRead, k).0.Failure? ==> hdr == None && err == Some(EventRead(kernelRead, k).0.error))
    {
      var rawHdr, hdrErr, k1 := ReadBytes(6, kernelRead, k);
      if hdrErr != None {
        return None, Some(EvtRdHdr), k1;
      }
      var raw := rawHdr.value;
      var paramLen := Uint16At(raw, 4);
      var payBytes, payErr, k2 := ReadBytes(paramLen, kernelRead, k1);
      if payErr != None {
        return None, Some(EvtRdPayload), k2;
      }
      return Some(MgmtEvent(Uint16At(raw, 0), Uint16At(raw, 2), paramLen, payBytes.value)), None, k2;
    }
  }
}
