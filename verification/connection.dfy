/**
 * btmgmt/connection.go: the management connection. Its lifecycle flags,
 * the guarded socket reads and writes, the write loop that sends a
 * command, the listener registry, and one turn of the reader and of the
 * event handler (dispatching one frame, or adding or removing a listener).
 * The system calls are answers handed in from outside; the goroutines and
 * channels become sequential steps.
 */
module Connection {
  import opened Wrappers
  import opened Bytes
  import opened Globals
  import opened Syscall
  import opened Commands
  import opened EvtParsers
  import opened Events

  /** The size of the reader's receive buffer. */
  const RECEIVE_BUFFER_SIZE := 1024

  /**
   * The error of a write loop, the bytes the kernel accepted in order, the
   * number of write calls made so far, and the offset the last of them
   * wrote from.
   */
  datatype SendTrace = SendTrace(err: Option<Error>, accepted: seq<Byte>, calls: nat, lastOff: nat)

  /**
   * The write loop from offset `off` of `buf`, the `k`-th write being
   * answered by `kernelWrite(k, ·)`. On a socket that is not bound the
   * first `Write` fails with `ErrSocketNotConnected` before any system
   * call. Each write offers the
   * rest of the buffer and the loop goes on after whatever part was taken;
   * the first failed write ends it with that write's errno, and that write
   * is the last call made. The accepted bytes are always a prefix of what
   * was to be sent, and all of it when no error came.
   */
  function WriteLoop(bound: bool, kernelWrite: (nat, seq<Byte>) -> SysAnswer, buf: seq<Byte>, off: nat, k: nat): (t: SendTrace)
    requires WriteContract(kernelWrite) && off <= |buf|
    ensures t.accepted <= buf[off..]
    ensures t.err == None ==> t.accepted == buf[off..]
    ensures t.err != None ==> off < |buf|
    ensures !bound && off < |buf| ==> t.err == Some(SocketNotConnected) && t.accepted == [] && t.calls == k
    ensures bound && t.err.Some? ==>
      && t.err.value.Errno? && t.calls > k && off <= t.lastOff < |buf|
      && kernelWrite(t.calls - 1, buf[t.lastOff..]) == Failed(t.err.value.code)
    decreases |buf| - off
  {
    if off == |buf| then SendTrace(None, [], k, off)
    else if !bound then SendTrace(Some(SocketNotConnected), [], k, off)
    else
      match kernelWrite(k, buf[off..])
      case Failed(e) => SendTrace(Some(Errno(e)), [], k + 1, off)
      case Done(n) =>
        var rest := WriteLoop(bound, kernelWrite, buf, off + n, k + 1);
        assert buf[off..] == buf[off..off + n] + buf[off + n..];
        SendTrace(rest.err, buf[off..off + n] + rest.accepted, rest.calls, rest.lastOff)
  }

  /**
   * The error `RunCmd` reports and the parameters it returns for a command
   * whose first answering event is `answer` (`None`: no frame answered it
   * before the wait), given whether the deadline comes first.
   */
  function CommandOutcome(src: MgmtCommand, answer: Option<Event>, deadlineFirst: bool): (r: (seq<Byte>, Option<Error>))
    ensures answer.None? || deadlineFirst ==> r.1 == Some(CmdTimeout)
    ensures answer.None? ==> r.0 == []
    ensures answer.Some? && !deadlineFirst ==>
      Consumes(INITIAL_LISTENER, src, answer.value) ==> r.1 == StatusError(answer.value.payload[2], UnknownCommandStatus)
    ensures answer.Some? && Consumes(INITIAL_LISTENER, src, answer.value) ==>
      r.0 == (if answer.value.eventCode == EVT_COMMAND_COMPLETE && answer.value.payload[2] <= CMD_STATUS_PERMISSION_DENIED
              then answer.value.payload[3..] else [])
  {
    var s := if answer.Some? && Consumes(INITIAL_LISTENER, src, answer.value)
             then HandleStep(INITIAL_LISTENER, src, answer.value).0
             else INITIAL_LISTENER;
    var w := WaitStep(s, deadlineFirst);
    (w.1, w.2)
  }

  /** A listener in state `s` for `src` after being offered `event`: handled if its filter takes the event. */
  function Dispatched(s: ListenerState, src: MgmtCommand, event: Event): (r: ListenerState)
    ensures !Consumes(s, src, event) ==> r == s
    ensures Consumes(s, src, event) && !s.isDone ==> r.cancelled && r.resErr == StatusError(event.payload[2], UnknownCommandStatus)
  {
    if Consumes(s, src, event) then HandleStep(s, src, event).0 else s
  }

  /**
   * Whether a listener in state `s` for `src` is marked for deletion when
   * offered `event`: exactly when its filter takes the event, since every
   * event the filter takes finishes the listener.
   */
  function Finishes(s: ListenerState, src: MgmtCommand, event: Event): (fin: bool)
    ensures fin <==> Consumes(s, src, event)
  {
    if Consumes(s, src, event) then
      FilterThenHandleFinishes(s, src, event);
      HandleStep(s, src, event).1
    else false
  }

  /** Frame `f` decodes to an event that a fresh listener for `src` takes. */
  predicate Answers(src: MgmtCommand, f: seq<Byte>)
  {
    ParseEvt(f).Success? && Consumes(INITIAL_LISTENER, src, ParseEvt(f).value)
  }

  /**
   * The event of the first frame in `frames` that answers `src`, if any:
   * `None` exactly when no frame answers it, and otherwise the event of a
   * frame that answers it with none before it that does.
   */
  function FirstAnswer(src: MgmtCommand, frames: seq<seq<Byte>>): (r: Option<Event>)
    ensures r.None? <==> forall i :: 0 <= i < |frames| ==> !Answers(src, frames[i])
    ensures r.Some? ==> exists i :: 0 <= i < |frames| && Answers(src, frames[i]) && ParseEvt(frames[i]).value == r.value &&
                                    forall j :: 0 <= j < i ==> !Answers(src, frames[j])
    decreases |frames|
  {
    if frames == [] then None
    else
      var earlier := frames[..|frames| - 1];
      var r := FirstAnswer(src, earlier);
      assert forall i :: 0 <= i < |earlier| ==> earlier[i] == frames[i];
      if r.Some? then r
      else if Answers(src, frames[|frames| - 1]) then Some(ParseEvt(frames[|frames| - 1]).value)
      else None
  }

  /**
   * Frames that do not answer a command do not hide the first one that
   * does, whatever comes after it.
   */
  lemma FirstAnswerAfterSilence(src: MgmtCommand, earlier: seq<seq<Byte>>, f: seq<Byte>, later: seq<seq<Byte>>)
    requires forall i :: 0 <= i < |earlier| ==> !Answers(src, earlier[i])
    requires Answers(src, f)
    ensures FirstAnswer(src, earlier + [f] + later) == Some(ParseEvt(f).value)
  {
    var frames := earlier + [f] + later;
    assert frames[|earlier|] == f;
    assert forall j :: 0 <= j < |earlier| ==> frames[j] == earlier[j];
  }

  /**
   * A command answered by the kernel's Command Complete for it, waited for
   * before the deadline: `RunCmd` returns the return parameters when the
   * status is in the table (and nothing otherwise) with the status's error,
   * none for success.
   */
  lemma CompleteAnswerOutcome(src: MgmtCommand, paramLen: Uint16, status: Byte, ret: seq<Byte>)
    ensures var ev := Event(EVT_COMMAND_COMPLETE, src.controllerIdx, paramLen, EncodeCmdComplete(CmdComplete(src.commandCode, status, ret)));
            CommandOutcome(src, Some(ev), false) ==
              (if status <= CMD_STATUS_PERMISSION_DENIED then ret else [], StatusError(status, UnknownCommandStatus))
  {
    var ev := Event(EVT_COMMAND_COMPLETE, src.controllerIdx, paramLen, EncodeCmdComplete(CmdComplete(src.commandCode, status, ret)));
    var p := ev.payload;
    assert p[..2] == LittleEndian(src.commandCode) && p[2] == status && p[3..] == ret;
    assert Uint16At(p, 0) == Uint16At(LittleEndian(src.commandCode), 0);
    assert Consumes(INITIAL_LISTENER, src, ev);
  }

  /**
   * `MgmtConnection`: the socket, the two lifecycle flags, whether the
   * channels have been closed, the registered listeners, and the set of
   * listeners marked for deletion, which the event handler keeps for its
   * whole life and never empties.
   */
  class MgmtConnection {
    var socketFd: int
    var isBound: bool
    var isConnected: bool
    var disposed: bool
    var registeredListeners: set<DefaultCmdEvtListener>
    var listenerDeleteMap: set<DefaultCmdEvtListener>

    /** The connection value before `Connect`: no socket, no listeners. */
    constructor ()
      ensures !isConnected && !isBound && !disposed
      ensures registeredListeners == {} && listenerDeleteMap == {}
    {
      socketFd := 0;
      isBound := false;
      isConnected := false;
      disposed := false;
      registeredListeners := {};
      listenerDeleteMap := {};
    }

    /**
     * `NewMgmtConnection`: opens and binds the socket. A failed open is
     * `ErrSocketOpen` and a failed bind `ErrSocketBind`; after a failed bind
     * the connection is closed and dropped. On success the connection is
     * open, bound and has no listeners (its two goroutines are not modelled).
     */
    static method NewMgmtConnection(socketAnswer: SysAnswer, bindErr: Option<int>, closeErr: Option<int>)
      returns (conn: MgmtConnection?, err: Option<Error>)
      ensures socketAnswer.Failed? ==> conn == null && err == Some(SocketOpen)
      ensures socketAnswer.Done? && bindErr.Some? ==> conn == null && err == Some(SocketBind)
      ensures socketAnswer.Done? && bindErr.None? ==>
        && err == None && conn != null && fresh(conn)
        && conn.isConnected && conn.isBound && !conn.disposed
        && conn.socketFd == socketAnswer.n && conn.registeredListeners == {} && conn.listenerDeleteMap == {}
    {
      var m := new MgmtConnection();
      err := m.Connect(socketAnswer);
      if err != None {
        return null, err;
      }
      err := m.Bind(bindErr);
      if err != None {
        var _ := m.Close(closeErr);
        return null, err;
      }
      return m, None;
    }

    /** `isClosed`: the connection counts as closed exactly when it is not connected, bound or not. */
    predicate IsClosed(): (closed: bool)
      reads this
      ensures closed <==> !isConnected
    {
      !isConnected
    }

    /**
     * `Connect`: the socket call's descriptor is stored either way (-1 when
     * it failed, as Go's wrapper returns). A failure is `ErrSocketOpen` and
     * leaves the flags alone; success marks the connection connected.
     */
    method Connect(socketAnswer: SysAnswer) returns (err: Option<Error>)
      modifies this
      ensures socketFd == (if socketAnswer.Done? then socketAnswer.n else -1)
      ensures socketAnswer.Failed? ==> err == Some(SocketOpen) && isConnected == old(isConnected)
      ensures socketAnswer.Done? ==> err == None && isConnected
      ensures isBound == old(isBound) && disposed == old(disposed)
      ensures registeredListeners == old(registeredListeners) && listenerDeleteMap == old(listenerDeleteMap)
    {
      match socketAnswer
      case Failed(_) =>
        socketFd := -1;
        return Some(SocketOpen);
      case Done(fd) =>
        socketFd := fd;
        isConnected := true;
        return None;
    }

    /**
     * `bind`: only a connected socket can be bound, and a failed bind call
     * is also `ErrSocketBind`; `isBound` is set only when the call succeeds.
     */
    method Bind(bindErr: Option<int>) returns (err: Option<Error>)
      modifies this
      ensures !old(isConnected) || bindErr.Some? ==> err == Some(SocketBind) && unchanged(this)
      ensures old(isConnected) && bindErr.None? ==> err == None && isBound
      ensures isConnected == old(isConnected) && disposed == old(disposed) && socketFd == old(socketFd)
      ensures registeredListeners == old(registeredListeners) && listenerDeleteMap == old(listenerDeleteMap)
    {
      if !isConnected {
        return Some(SocketBind);
      }
      if bindErr.Some? {
        return Some(SocketBind);
      }
      isBound := true;
      return None;
    }

    /**
     * `Close`: nothing to do, and no error, on a closed connection. A
     * failed close call is `ErrSockClose` with the flags left as they were;
     * otherwise the connection ends up neither connected nor bound and its
     * channels are closed. The listener registry is not touched.
     */
    method Close(closeErr: Option<int>) returns (err: Option<Error>)
      modifies this
      ensures old(IsClosed()) ==> err == None && unchanged(this)
      ensures !old(IsClosed()) && closeErr.Some? ==> err == Some(SockClose) && unchanged(this)
      ensures !old(IsClosed()) && closeErr.None? ==> err == None && !isConnected && !isBound && disposed
      ensures socketFd == old(socketFd)
      ensures registeredListeners == old(registeredListeners) && listenerDeleteMap == old(listenerDeleteMap)
    {
      if IsClosed() {
        return None;
      }
      if isConnected {
        if closeErr.Some? {
          return Some(SockClose);
        }
      }
      isConnected := false;
      isBound := false;
      disposed := true;
      return None;
    }

    /**
     * `Read`: `ErrClosed` on a closed connection and
     * `ErrSocketNotConnected` on one that is not bound, with a count of 0;
     * otherwise the read call's bytes and their count, or its errno with a
     * count of -1.
     */
    method Read(answer: ReadAnswer) returns (n: int, data: seq<Byte>, err: Option<Error>)
      ensures IsClosed() ==> n == 0 && data == [] && err == Some(Closed)
      ensures !IsClosed() && !isBound ==> n == 0 && data == [] && err == Some(SocketNotConnected)
      ensures !IsClosed() && isBound && answer.Delivered? ==> err == None && data == answer.data && n == |data|
      ensures !IsClosed() && isBound && answer.ReadFailed? ==> n == -1 && data == [] && err == Some(Errno(answer.errno))
    {
      if IsClosed() {
        return 0, [], Some(Closed);
      }
      if !isBound {
        return 0, [], Some(SocketNotConnected);
      }
      match answer
      case Delivered(d) => return |d|, d, None;
      case ReadFailed(e) => return -1, [], Some(Errno(e));
    }

    /**
     * `Write`: `ErrClosed` on a closed connection and
     * `ErrSocketNotConnected` on one that is not bound, with a count of 0;
     * otherwise the write call's count, or its errno with a count of -1.
     */
    method Write(p: seq<Byte>, answer: SysAnswer) returns (n: int, err: Option<Error>)
      ensures IsClosed() ==> n == 0 && err == Some(Closed)
      ensures !IsClosed() && !isBound ==> n == 0 && err == Some(SocketNotConnected)
      ensures !IsClosed() && isBound && answer.Done? ==> n == answer.n && err == None
      ensures !IsClosed() && isBound && answer.Failed? ==> n == -1 && err == Some(Errno(answer.errno))
    {
      if IsClosed() {
        return 0, Some(Closed);
      }
      if !isBound {
        return 0, Some(SocketNotConnected);
      }
      match answer
      case Done(k) => return k, None;
      case Failed(e) => return -1, Some(Errno(e));
    }

    /**
     * `SendCmd`: `ErrClosed` on a closed connection, with nothing written.
     * Otherwise writes the command's frame, offering the unsent rest again
     * after each partial write, and reports the first write's error, or
     * none once every byte is out.
     */
    method SendCmd(command: MgmtCommand, kernelWrite: (nat, seq<Byte>) -> SysAnswer) returns (err: Option<Error>)
      requires WriteContract(kernelWrite)
      ensures IsClosed() ==> err == Some(Closed)
      ensures !IsClosed() ==> err == WriteLoop(isBound, kernelWrite, Frame(command), 0, 0).err
    {
      if IsClosed() {
        return Some(Closed);
      }
      var sendbuf := ToWire(command);
      var lenBuff := |sendbuf|;
      var off := 0;
      var k := 0;
      while off < lenBuff
        invariant 0 <= off <= lenBuff
        invariant WriteLoop(isBound, kernelWrite, sendbuf, 0, 0).err == WriteLoop(isBound, kernelWrite, sendbuf, off, k).err
        decreases lenBuff - off
      {
        var s := sendbuf[off..];
        var n, e := Write(s, kernelWrite(k, s));
        if e != None {
          return e;
        }
        off := off + n;
        k := k + 1;
      }
      return None;
    }

    /** The event handler receiving a listener to add: nil is ignored, anything else is registered. */
    method OnAddListener(l: DefaultCmdEvtListener?)
      modifies this
      ensures registeredListeners == if l == null then old(registeredListeners) else old(registeredListeners) + {l}
      ensures listenerDeleteMap == old(listenerDeleteMap)
      ensures isConnected == old(isConnected) && isBound == old(isBound) && disposed == old(disposed)
      ensures socketFd == old(socketFd)
    {
      if l == null {
        return;
      }
      registeredListeners := registeredListeners + {l};
    }

    /** The event handler receiving a listener to remove: nil is ignored, anything else is unregistered. */
    method OnRemoveListener(l: DefaultCmdEvtListener?)
      modifies this
      ensures registeredListeners == if l == null then old(registeredListeners) else old(registeredListeners) - {l}
      ensures listenerDeleteMap == old(listenerDeleteMap)
      ensures isConnected == old(isConnected) && isBound == old(isBound) && disposed == old(disposed)
      ensures socketFd == old(socketFd)
    {
      if l == null {
        return;
      }
      registeredListeners := registeredListeners - {l};
    }

    /**
     * `AddListener`: `ErrClosed` on a closed connection, registering
     * nothing; otherwise the listener is handed to the event handler, which
     * registers it.
     */
    method AddListener(l: DefaultCmdEvtListener?) returns (err: Option<Error>)
      modifies this
      ensures old(IsClosed()) ==> err == Some(Closed) && unchanged(this)
      ensures !old(IsClosed()) ==>
        err == None && registeredListeners == (if l == null then old(registeredListeners) else old(registeredListeners) + {l})
      ensures listenerDeleteMap == old(listenerDeleteMap)
      ensures isConnected == old(isConnected) && isBound == old(isBound) && disposed == old(disposed)
      ensures socketFd == old(socketFd)
    {
      if IsClosed() {
        return Some(Closed);
      }
      OnAddListener(l);
      return None;
    }

    /**
     * The event handler offering a decoded event to one registered
     * listener: the listener is handled only when its `Filter` takes the
     * event, and marked for deletion when `Handle` reports it finished.
     */
    method Offer(l: DefaultCmdEvtListener, evt: Event)
      modifies this`listenerDeleteMap, l
      ensures l.State() == Dispatched(old(l.State()), l.srcCmd, evt)
      ensures listenerDeleteMap == old(listenerDeleteMap) + (if Finishes(old(l.State()), l.srcCmd, evt) then {l} else {})
    {
      if l.Filter(evt) {
        var finished := l.Handle(evt);
        if finished {
          listenerDeleteMap := listenerDeleteMap + {l};
        }
      }
    }

    /**
     * The event handler receiving one frame. A frame that does not decode
     * changes nothing and reaches no listener. Otherwise every registered
     * listener is offered the event, and only after all of them have been
     * offered are those marked for deletion removed from the registry.
     */
    method DispatchFrame(packet: seq<Byte>)
      modifies this, registeredListeners
      ensures ParseEvt(packet).Failure? ==>
        && registeredListeners == old(registeredListeners) && listenerDeleteMap == old(listenerDeleteMap)
        && forall l :: l in old(registeredListeners) ==> l.State() == old(l.State())
      ensures ParseEvt(packet).Success? ==>
        var evt := ParseEvt(packet).value;
        && (forall l :: l in old(registeredListeners) ==> l.State() == Dispatched(old(l.State()), l.srcCmd, evt))
        && (forall l :: l in listenerDeleteMap <==>
              l in old(listenerDeleteMap) || (l in old(registeredListeners) && Finishes(old(l.State()), l.srcCmd, evt)))
        && registeredListeners == old(registeredListeners) - listenerDeleteMap
      ensures isConnected == old(isConnected) && isBound == old(isBound) && disposed == old(disposed)
      ensures socketFd == old(socketFd)
    {
      var parsed := ParseEvt(packet);
      if parsed.Failure? {
        return;
      }
      var evt := parsed.value;
      var pending := registeredListeners;
      while pending != {}
        invariant pending <= registeredListeners == old(registeredListeners)
        invariant isConnected == old(isConnected) && isBound == old(isBound) && disposed == old(disposed)
        invariant socketFd == old(socketFd)
        invariant forall l :: l in pending ==> l.State() == old(l.State())
        invariant forall l :: l in registeredListeners && l !in pending ==>
          l.State() == Dispatched(old(l.State()), l.srcCmd, evt)
        invariant forall l :: l in listenerDeleteMap <==>
          l in old(listenerDeleteMap) || (l in registeredListeners && l !in pending && Finishes(old(l.State()), l.srcCmd, evt))
        decreases pending
      {
        var l :| l in pending;
        Offer(l, evt);
        pending := pending - {l};
      }
      registeredListeners := registeredListeners - listenerDeleteMap;
    }

    /**
     * One turn of the socket reader: a failed or empty read closes the
     * connection and stops the reader; otherwise the bytes read are handed
     * to the event handler as one frame, with the effect `DispatchFrame`
     * has on the registry and the listeners.
     */
    method ReaderStep(answer: ReadAnswer, closeErr: Option<int>) returns (stop: bool)
      requires answer.Delivered? ==> |answer.data| <= RECEIVE_BUFFER_SIZE
      modifies this, registeredListeners
      ensures stop <==> old(IsClosed()) || !old(isBound) || answer.ReadFailed? || answer.data == []
      ensures stop && closeErr.None? ==> IsClosed()
      ensures !stop ==> isConnected && isBound
      ensures !stop && ParseEvt(answer.data).Failure? ==>
        && registeredListeners == old(registeredListeners) && listenerDeleteMap == old(listenerDeleteMap)
        && forall l :: l in old(registeredListeners) ==> l.State() == old(l.State())
      ensures !stop && ParseEvt(answer.data).Success? ==>
        var evt := ParseEvt(answer.data).value;
        && (forall l :: l in old(registeredListeners) ==> l.State() == Dispatched(old(l.State()), l.srcCmd, evt))
        && (forall l :: l in listenerDeleteMap <==>
              l in old(listenerDeleteMap) || (l in old(registeredListeners) && Finishes(old(l.State()), l.srcCmd, evt)))
        && registeredListeners == old(registeredListeners) - listenerDeleteMap
    {
      var n, data, err := Read(answer);
      if err != None || n == 0 {
        var _ := Close(closeErr);
        return true;
      }
      var evtPacket := data[..n];
      assert evtPacket == answer.data;
      DispatchFrame(evtPacket);
      return false;
    }

    /**
     * The event handler dispatching `frames` in order while `watched`, a
     * listener in its initial state, is registered and not marked: it stays
     * so until the first frame that answers its command, which handles it
     * and removes it from the registry, after which no frame reaches it.
     */
    method DispatchAll(frames: seq<seq<Byte>>, watched: DefaultCmdEvtListener)
      requires watched in registeredListeners && watched !in listenerDeleteMap
      requires watched.State() == INITIAL_LISTENER
      modifies this, registeredListeners
      ensures registeredListeners <= old(registeredListeners)
      ensures FirstAnswer(watched.srcCmd, frames).None? ==>
        watched in registeredListeners && watched !in listenerDeleteMap && watched.State() == INITIAL_LISTENER
      ensures FirstAnswer(watched.srcCmd, frames).Some? ==>
        watched !in registeredListeners &&
        watched.State() == HandleStep(INITIAL_LISTENER, watched.srcCmd, FirstAnswer(watched.srcCmd, frames).value).0
    {
      var i := 0;
      while i < |frames|
        invariant 0 <= i <= |frames|
        invariant registeredListeners <= old(registeredListeners)
        invariant FirstAnswer(watched.srcCmd, frames[..i]).None? ==>
          watched in registeredListeners && watched !in listenerDeleteMap && watched.State() == INITIAL_LISTENER
        invariant FirstAnswer(watched.srcCmd, frames[..i]).Some? ==>
          watched !in registeredListeners &&
          watched.State() == HandleStep(INITIAL_LISTENER, watched.srcCmd, FirstAnswer(watched.srcCmd, frames[..i]).value).0
      {
        DispatchFrame(frames[i]);
        assert frames[..i + 1][..i] == frames[..i];
        i := i + 1;
      }
      assert frames[..i] == frames;
    }

    /**
     * `RunCmd`: `ErrClosed` on a closed connection, with nothing
     * registered or sent. Otherwise it builds the command, registers a
     * fresh listener for it, sends it (a failed send is not reported), lets
     * the event handler dispatch the frames in `incoming`, and waits. The
     * result is decided by the first of those frames that answers the
     * command, or is a timeout when none does.
     */
    method RunCmd(controllerId: Uint16, cmdCode: Uint16, params: seq<Byte>,
                  kernelWrite: (nat, seq<Byte>) -> SysAnswer, incoming: seq<seq<Byte>>, deadlineFirst: bool)
      returns (result: seq<Byte>, err: Option<Error>)
      requires WriteContract(kernelWrite)
      modifies this, registeredListeners
      ensures old(IsClosed()) ==> result == [] && err == Some(Closed) && unchanged(this)
      ensures !old(IsClosed()) ==>
        (result, err) == CommandOutcome(NewMgmtCmd(cmdCode, controllerId, params),
                                        FirstAnswer(NewMgmtCmd(cmdCode, controllerId, params), incoming), deadlineFirst)
    {
      if IsClosed() {
        return [], Some(Closed);
      }
      var command := NewMgmtCmd(cmdCode, controllerId, params);
      var commandL := new DefaultCmdEvtListener(command);
      var _ := AddListener(commandL);
      var _ := SendCmd(command, kernelWrite);
      DispatchAll(incoming, commandL);
      result, err := commandL.WaitResult(deadlineFirst);
    }
  }
}
