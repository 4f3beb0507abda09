# btmgmt in Dafny

A model of `btmgmt`, the Go client of the BlueZ Management API (the kernel's
Bluetooth control-socket protocol, documented in BlueZ's `doc/mgmt-api.txt`).
It covers:

- the command frame: a six-byte little-endian header (opcode, controller
  index, parameter length) followed by the parameters;
- the decoding of event frames and of the Command Complete, Command Status
  and New Settings parameters;
- the table from command status codes to errors;
- the listener that picks the result of one command out of the event stream;
- the connection: its lifecycle flags, guarded reads and writes, the write
  loop that sends a command, the listener registry and the dispatch of one
  frame to the registered listeners;
- the earlier form of the connection in `btmgmt.go`, with its read loop and
  its two-step event read.

One module per source file, plus three support modules:

| module | file | form |
|---|---|---|
| `Wrappers` | (support) | `Option`, `Result` |
| `Bytes` | (support) | Go `byte`/`uint16`, byte-wide shift, little-endian codec |
| `Syscall` | (support) | answers of the socket system calls, and the kernel's contract for `read`/`write` |
| `Helper` | btmgmt/helper.go | `copyReverse` over arrays, `testBit` |
| `Globals` | btmgmt/globals.go | constants, errors, the status table, `ControllerSettings` as a class |
| `EvtParsers` | btmgmt/evtParsers.go | payload decoders with their encoders |
| `Commands` | btmgmt/commands.go | `MgmtCommand`, `toWire`, the earlier listener as a class |
| `Events` | btmgmt/events.go | `Event`, `parseEvt`, `defaultCmdEvtListener` as a class with its state-transition functions |
| `Connection` | btmgmt/connection.go | `MgmtConnection` as a class |
| `BtMgmt` | btmgmt/btmgmt.go | the earlier `MgmtConnection` as a class |

System calls are not made. Every `socket`, `bind`, `read`, `write` and `close`
becomes a parameter holding the kernel's answer. A loop of calls takes a
function from the call number to the answer, and the kernel contract in
`Syscall` requires that a blocking call moves at least one byte and never
more than it was offered. The goroutines and channels become sequential
steps:

- one frame dispatched by the event handler (`DispatchFrame`);
- the frames that arrive between sending a command and waiting for it
  (`RunCmd`'s `incoming`);
- the race between a listener's context and the 30-second timeout (the flag
  `deadlineFirst`).

Some things declared twice in the package are modelled once:

- `ControllerSettings` and its `Update` (globals.go and evtParsers.go) are
  `Globals.ControllerSettings`.
- `testBit` (helper.go and evtParsers.go) is `Helper.TestBit`.
- The `command` type of events.go and connection.go is `Commands.MgmtCommand`,
  built by `Commands.NewMgmtCmd`.

Where the code does something other than its names or comments suggest, the
model follows the code:

- `testBit` shifts at byte width, so flags 8 to 15 of `ControllerSettings`
  always come out false. A New Settings bitfield of 0xFFFF does not set
  all sixteen flags.
- `parseEvt` never compares the header's length field with the number of
  parameter bytes.
- `Close` does not empty the listener registry.
- The set of listeners marked for deletion is created once for the event
  handler's whole life and never emptied. A listener removed once is
  removed again by every later dispatch, even after being added again.
- `NewMgmtCmd` stores `uint16(len(params))`, which wraps past 65535.
- `Handle` never looks at the controller index; only `Filter` does.
- commands.go builds a fresh "Unknown command status for received event"
  error, while events.go uses the `ErrUnknownCommandStatus` value. They are
  `Commands.UNKNOWN_STATUS` and `Globals.Error.UnknownCommandStatus`.
- A failed `socket` call leaves -1 in `socket_fd`.
- `RunCmd` returns what `WaitResult` returns. In the source their result
  types differ (`*[]byte` against `[]byte`); the model returns the bytes.
- The earlier `Read`, `Write` and `SendCmd` check only `isBound`.
- The earlier `ReadBytes` calls the system `read` directly.

## Model

| member | source | states |
|---|---|---|
| Bytes.LittleEndian | btmgmt/commands.go:25 | the two bytes `PutUint16` stores decode back to the value |
| Bytes.LittleEndianOfUint16At | btmgmt/events.go:149-153 | decoding two bytes and encoding the value again gives the same two bytes |
| Bytes.LittleEndianInjective | btmgmt/commands.go:25-36 | distinct 16-bit values have distinct little-endian images |
| Bytes.PutUint16 | btmgmt/commands.go:25-36 | writes the two little-endian bytes at the offset and leaves every other byte of the buffer as it was |
| Helper.ReversedAt | btmgmt/helper.go:5-8 | element i of the reversal is element len-1-i of the original, and the lengths agree |
| Helper.ReversedLength | btmgmt/helper.go:4 | reversing keeps the length |
| Helper.ReversedTwice | btmgmt/helper.go:3-10 | reversing twice gives back the original |
| Helper.CopyReverse | btmgmt/helper.go:3-10 | returns a fresh array whose contents are the reversal of `src`, and leaves `src` unchanged |
| Helper.TestBit | btmgmt/helper.go:12-14 | `testBit(b, n)` holds iff n < 8 and bit n of b is set: from 8 upwards the byte-wide mask has been shifted out and the test is false |
| Globals.GenCmdStatusErrorMap | btmgmt/globals.go:213-238 | the table has exactly the keys 0x00 to 0x14; Success maps to no error, and every other key to an error |
| Globals.LookupStatus | btmgmt/globals.go:211-238 | the comma-ok lookup finds a status iff it is at most 0x14; Success gives no error, and every other known status gives one |
| Globals.StatusOfEntry | btmgmt/globals.go:215-235 | each table entry determines its status code (its message is read back to the code) |
| Globals.StatusErrorsDistinct | btmgmt/globals.go:216-235 | no two status codes share an error |
| Globals.ControllerSettings.constructor | btmgmt/globals.go:240-257 | the zero value has all sixteen flags false |
| Globals.ControllerSettings.Update | btmgmt/globals.go:259-282 | an empty bitfield is an error and changes no flag; otherwise flags 0-7 are bits 0-7 of the first byte, flags 8-15 are false, and the rest of the bitfield is ignored |
| Globals.ControllerSettings.TestBits0To3 | btmgmt/globals.go:265-268 | flags 0-3 become bits 0-3 of the byte and nothing else changes |
| Globals.ControllerSettings.TestBits4To7 | btmgmt/globals.go:269-272 | flags 4-7 become bits 4-7 of the byte and nothing else changes |
| Globals.ControllerSettings.TestBits8To11 | btmgmt/globals.go:273-276 | flags 8-11 become false |
| Globals.ControllerSettings.TestBits12To15 | btmgmt/globals.go:277-280 | flags 12-15 become false |
| EvtParsers.ParseEvtCmdComplete | btmgmt/evtParsers.go:8-17 | fails iff the payload is shorter than 3 bytes, with its message; on success, re-encoding gives back the payload, so the opcode is bytes 0-1 LE, the status is byte 2 and the return parameters are `payload[3:]` (length len-3) |
| EvtParsers.ParseEvtCmdStatus | btmgmt/evtParsers.go:19-27 | fails iff the payload is not exactly 3 bytes, with its message; on success, re-encoding gives back the payload |
| EvtParsers.CmdCompleteRoundTrip | btmgmt/evtParsers.go:8-17 | decoding what the kernel encodes gives back opcode, status and return parameters |
| EvtParsers.CmdStatusRoundTrip | btmgmt/evtParsers.go:19-27 | decoding what the kernel encodes gives back opcode and status |
| EvtParsers.ParseEvtNewSettings | btmgmt/evtParsers.go:73-81 | any length other than 4 gives no settings and its error; a 4-byte payload gives fresh settings equal to `Update` applied to it |
| Commands.NewMgmtCmd | btmgmt/commands.go:42-49 | keeps opcode, controller and parameters; the length field equals the parameter count iff it is below 65536, and is congruent to it modulo 65536 |
| Commands.Frame | btmgmt/commands.go:23-40 | the frame has length 6+len(payload), with opcode, controller index (0xFFFF included) and stored length LE at 0, 2 and 4, and the payload from byte 6 |
| Commands.ToWire | btmgmt/commands.go:23-40 | the buffer filled in place and extended with the payload is the frame |
| Commands.Match | btmgmt/commands.go:106-148 | an event is a result for the opcode iff it is a Status with a 3-byte payload, or a Complete with at least 3 bytes, echoing the opcode; the status is byte 2 and the return parameters bytes 3 onward |
| Commands.StatusError | btmgmt/commands.go:113-117 | no error iff the status is Success; the table's error for 0x01-0x14; the "unknown status" error above 0x14 |
| Commands.MgmtCommandDefaultListener.constructor | btmgmt/commands.go:90-98 | a fresh listener has no result, no error and a live context |
| Commands.MgmtCommandDefaultListener.Receive | btmgmt/commands.go:102-163 | an event for another controller, or one that is not a result for the command, changes nothing; a result stores the status's error and cancels, and only a Complete with a known status stores the return parameters |
| Commands.MgmtCommandDefaultListener.WaitResult | btmgmt/commands.go:69-88 | when the deadline comes first (or the context is still live) it cancels and reports the timeout; otherwise it returns the stored error unchanged; the stored parameters are returned either way |
| Events.EventBytes | btmgmt/events.go:9-14 | an event's bytes are 6 plus the payload long |
| Events.ParseEvt | btmgmt/events.go:145-157 | fails with `ErrPayloadFormat` iff the packet is shorter than 6 bytes; otherwise the event's bytes are the packet (code, index, length LE at 0, 2, 4, payload from 6) |
| Events.ParseEvtOfEventBytes | btmgmt/events.go:145-157 | decoding an event's bytes gives back the event |
| Events.NewCommandRoundTrip | btmgmt/commands.go:23-49 | decoding the frame of `NewMgmtCmd(c, idx, p)` with len(p) < 65536 gives code c, index idx, length len(p) and payload p |
| Events.ParamLenNotChecked | btmgmt/events.go:149-154 | a header announcing 5 parameter bytes and carrying none still decodes |
| Events.Consumes | btmgmt/events.go:32-63 | a finished listener takes every event; otherwise it takes exactly the Status/Complete events for its controller whose payload parses and echoes its opcode |
| Events.HandleStep | btmgmt/events.go:65-106 | reports finished iff the listener was done or the event is a result for its opcode; a finished listener and a non-result are left as they are; a result stores the status's error (`ErrUnknownCommandStatus` off the table) and cancels; a Status leaves the parameters alone, and a Complete stores `payload[3:]` when the status is known |
| Events.DefaultCmdEvtListener.Filter | btmgmt/events.go:32-63 | a done listener takes every event; otherwise it takes exactly the events for its controller that are a 3-byte Status or an at-least-3-byte Complete echoing its opcode, and `Handle` then reports it finished |
| Events.FilterThenHandleFinishes | btmgmt/events.go:32-106 | every event `Filter` accepts makes `Handle` report finished and cancel the listener |
| Events.DefaultCmdEvtListener.constructor | btmgmt/events.go:133-142 | a fresh listener is not done, has no result and a live context |
| Events.DefaultCmdEvtListener.Handle | btmgmt/events.go:65-106 | the new state and the return value are `HandleStep` of the old state |
| Events.DefaultCmdEvtListener.SetDone | btmgmt/events.go:108-111 | sets `isDone` and cancels, nothing else |
| Events.DefaultCmdEvtListener.WaitResult | btmgmt/events.go:113-131 | the new state and the returned values are `WaitStep` of the old state |
| Events.WaitStep | btmgmt/events.go:113-131 | when the deadline comes first or the context is live: the listener is cancelled, the timeout becomes its stored error and is returned, nothing else changes; otherwise the stored error is returned unchanged; the stored parameters are returned and kept either way |
| Events.SetPoweredAnswered | btmgmt/events.go:32-106 | a Set Powered command answered by a successful Command Complete takes the event and stores the four settings bytes with no error |
| Connection.WriteLoop | btmgmt/connection.go:285-295 | the bytes the kernel accepted are a prefix of the frame, and the whole frame when no write failed; with bytes left, an unbound socket is `ErrSocketNotConnected` with nothing accepted and no call made; on a bound socket an error is the errno that the last write call, made from an offset inside the frame, returned |
| Connection.CommandOutcome | btmgmt/connection.go:188-204 | no answer, or the deadline first, is a timeout (with no parameters if unanswered); an answer waited for in time gives the status's error, and as parameters `payload[3:]` for a Complete with a known status and none for a Status |
| Connection.Dispatched | btmgmt/connection.go:151-157 | a listener whose filter refuses the event is unchanged; one that takes it is cancelled with the status's error |
| Connection.Finishes | btmgmt/connection.go:151-157 | a listener is marked for deletion iff its filter takes the event |
| Connection.FirstAnswer | btmgmt/connection.go:188-204 | none iff no frame answers the command; otherwise the event of an answering frame with none before it |
| Connection.FirstAnswerAfterSilence | btmgmt/connection.go:188-204 | frames that do not answer a command do not hide the first one that does, whatever follows |
| Connection.CompleteAnswerOutcome | btmgmt/connection.go:188-204 | a command answered in time by its own Command Complete returns the return parameters (if the status is known) and the status's error |
| Connection.MgmtConnection.IsClosed | btmgmt/connection.go:228-232 | closed exactly when not connected, whether bound or not |
| Connection.MgmtConnection.constructor | btmgmt/connection.go:45-62 | the new value is neither connected nor bound and has no listeners |
| Connection.MgmtConnection.NewMgmtConnection | btmgmt/connection.go:45-75 | a failed open is `ErrSocketOpen`, a failed bind `ErrSocketBind` (both give no connection); otherwise a fresh, connected, bound connection with no listeners and an empty deletion set |
| Connection.MgmtConnection.Connect | btmgmt/connection.go:255-265 | stores the descriptor (-1 on failure); a failure is `ErrSocketOpen` with the flags unchanged; success sets `isConnected` |
| Connection.MgmtConnection.Bind | btmgmt/connection.go:267-279 | `ErrSocketBind` with nothing changed unless connected and the call succeeds; `isBound` is set only on success |
| Connection.MgmtConnection.Close | btmgmt/connection.go:234-253 | nothing happens on a closed connection; a failed close is `ErrSockClose` with the flags unchanged; otherwise both flags are cleared; the registry is untouched |
| Connection.MgmtConnection.Read | btmgmt/connection.go:208-216 | `ErrClosed` when closed and `ErrSocketNotConnected` when not bound (count 0); otherwise the read's bytes and count, or its errno with -1 |
| Connection.MgmtConnection.Write | btmgmt/connection.go:218-226 | `ErrClosed` when closed and `ErrSocketNotConnected` when not bound (count 0); otherwise the write's count, or its errno with -1 |
| Connection.MgmtConnection.SendCmd | btmgmt/connection.go:281-299 | `ErrClosed` when closed; otherwise the error of `WriteLoop` on the command's frame |
| Connection.MgmtConnection.OnAddListener | btmgmt/connection.go:170-175 | nil leaves the registry unchanged; a listener is inserted |
| Connection.MgmtConnection.OnRemoveListener | btmgmt/connection.go:176-182 | nil leaves the registry unchanged; a listener is deleted |
| Connection.MgmtConnection.AddListener | btmgmt/connection.go:77-82 | `ErrClosed` with nothing registered when closed; otherwise the listener is registered |
| Connection.MgmtConnection.Offer | btmgmt/connection.go:152-157 | the listener is handled only if its filter takes the event, and marked for deletion iff `Handle` reports it finished |
| Connection.MgmtConnection.DispatchFrame | btmgmt/connection.go:142-164 | a frame that does not decode changes no listener and not the registry; otherwise each registered listener becomes `Dispatched`, those finished join the deletion set, and only then are all marked listeners removed |
| Connection.MgmtConnection.ReaderStep | btmgmt/connection.go:92-119 | the reader stops iff the read fails, is empty or the connection is closed or unbound, closing the connection (which succeeds unless the close fails); otherwise the connection stays open and bound, and the registry, the deletion set and every registered listener change exactly as `DispatchFrame` of the bytes read says |
| Connection.MgmtConnection.DispatchAll | btmgmt/connection.go:142-164 | a registered, unmarked listener that no frame answers stays registered, unmarked and in its initial state; otherwise it ends in `HandleStep` of the first answering frame and is out of the registry |
| Connection.MgmtConnection.RunCmd | btmgmt/connection.go:188-204 | `ErrClosed` with nothing registered or sent when closed; otherwise the result is `CommandOutcome` of the first frame that answers the command |
| BtMgmt.ParseEvt | btmgmt/btmgmt.go:318-328 | needs a whole header (no length check); on it, the result agrees with the checked decoder |
| BtMgmt.ParseEvtOfCommandFrame | btmgmt/btmgmt.go:318-328 | the frame of `NewMgmtCmd(c, idx, p)` decodes to code c, index idx, length len(p) and payload p |
| BtMgmt.ReadLoop | btmgmt/btmgmt.go:280-295 | ends with exactly `count` bytes extending what was read, or with a failed read; no call is made iff nothing is missing |
| BtMgmt.ReadLoopProvenance | btmgmt/btmgmt.go:287-293 | the bytes of a successful loop start with what was read and then what the next read delivered; the errno of a failed loop is the answer of its last read call, offered at most the missing room |
| BtMgmt.EventRead | btmgmt/btmgmt.go:297-316 | a failed header read is `ErrEvtRdHdr`; after a header, the parameter read asks for the length at bytes 4-5, its failure is exactly `ErrEvtRdPayload`, and its success gives the event with code and index from bytes 0-1 and 2-3 and those parameters |
| BtMgmt.ReadLoopOneShot | btmgmt/btmgmt.go:285-292 | a read that fills the buffer at once ends the loop after one call |
| BtMgmt.EventReadOfFrame | btmgmt/btmgmt.go:297-328 | a frame handed over as header then payload is read as the event `parseEvt` gives for it |
| BtMgmt.FrameReadInTwo | btmgmt/btmgmt.go:297-316 | such a frame is read as the event with the header's code and index, the parameter count as length, and the bytes after the header |
| BtMgmt.PayloadReadOfFrame | btmgmt/btmgmt.go:308-313 | the parameter read of such a frame yields the bytes after the header |
| BtMgmt.MgmtConnection.constructor | btmgmt/btmgmt.go:58-71 | the new value is neither connected nor bound |
| BtMgmt.MgmtConnection.NewMgmtConnection | btmgmt/btmgmt.go:58-88 | a failed open is `ErrSocketOpen`; a failed bind disconnects and is `ErrSocketBind`; otherwise a fresh, connected, bound connection |
| BtMgmt.MgmtConnection.Read | btmgmt/btmgmt.go:213-220 | `ErrSocketNotConnected` with 0 unless bound; otherwise the read's bytes and count, or its errno with -1 |
| BtMgmt.MgmtConnection.Write | btmgmt/btmgmt.go:222-229 | `ErrSocketNotConnected` with 0 unless bound; otherwise the write's count, or its errno with -1 |
| BtMgmt.MgmtConnection.Connect | btmgmt/btmgmt.go:235-245 | stores the descriptor (-1 on failure); a failure is `ErrSocketOpen` with the flags unchanged; success sets `isConnected` |
| BtMgmt.MgmtConnection.Bind | btmgmt/btmgmt.go:247-259 | `ErrSocketBind` with nothing changed unless connected and the call succeeds; `isBound` is set only on success |
| BtMgmt.MgmtConnection.Disconnect | btmgmt/btmgmt.go:330-343 | a failed close of a connected socket is an error carrying the errno, with the flags unchanged; otherwise both flags are cleared and the stop channel is closed |
| BtMgmt.MgmtConnection.Close | btmgmt/btmgmt.go:231-233 | the same as `Disconnect` |
| BtMgmt.MgmtConnection.SendCmd | btmgmt/btmgmt.go:261-278 | the error of `WriteLoop` on the command's frame, with no closed check |
| BtMgmt.MgmtConnection.ReadBytes | btmgmt/btmgmt.go:280-295 | `ErrSocketNotConnected` with no read unless bound; otherwise exactly `count` bytes, or the first failed read's errno, as `ReadLoop` describes |
| BtMgmt.MgmtConnection.ReadEvt | btmgmt/btmgmt.go:297-316 | the event, `ErrEvtRdHdr` or `ErrEvtRdPayload` as `EventRead` describes; `ErrEvtRdHdr` when not bound |

## Left out

- Goroutines, channels, mutexes and `context` are not modelled. The
  event handler's `select` becomes separate methods for a frame, an
  addition and a removal. A listener's goroutine becomes one method call
  per event.
- The earlier event handler in `btmgmt.go` is not modelled. It delivers
  each event through each listener's channel. When a listener's context is
  done, it calls `RemoveListener` (btmgmt.go:158) from inside
  `eventHandlerLoop`, holding the listener mutex. `RemoveListener` sends on
  the unbuffered `removeListener` channel (btmgmt.go:73, 95-98), whose only
  receiver is that same loop (btmgmt.go:172), so the handler deadlocks
  there. The `break fl` (btmgmt.go:140) only ends the drain, and the
  `break` on abort that follows it (btmgmt.go:143) only leaves the `select`,
  so the loop does not stop either. `AddListener`, `RemoveListener` and
  `socketReaderLoop` in `btmgmt.go`, and the `EventInput`/`Context`
  accessors in commands.go, are channel plumbing and are left out with it.
- The drain of pending packets on shutdown and the closing of the four
  channels in `Close` are left out, being channel semantics. In the model,
  `disposed`/`aborted` record that the channels were closed.
- The 30-second timeout and the wall clock are left out: the caller says
  whether the deadline comes before the result.
- Logging with `fmt` is left out.
- The DBus wrappers in toolz/ and dbusHelper/ are not part of this model.
- Command, event and status constants are declared only where the model
  uses them.
- BtMgmt.MgmtConnection.Disconnect: requires `!aborted`. A second call
  closes an already-closed channel and panics in Go. The model does not
  represent that panic: after `socketReaderLoop` has disconnected, a
  later `Close` in the source would panic.
- BtMgmt.MgmtConnection.Close: requires `!aborted`, for the same reason.
- Commands.MgmtCommandDefaultListener.Receive: once its context has been
  cancelled, the goroutine may still take a waiting event, because Go's
  `select` chooses at random among the ready cases. `Receive` models the
  turn in which it takes the event.
- Connection.MgmtConnection.ReaderStep: requires that the kernel delivers no
  more than the 1024-byte buffer holds, since the `read` system call never
  returns more than the buffer it is given. When the reader stops, the
  contract does not state what happens to the registry.
- Connection.MgmtConnection.RunCmd: it takes the dispatched frames
  as a list. Frames that arrive after the wait are not seen.
- BtMgmt.ParseEvt: requires a packet of at least 6 bytes. The Go code
  slices the header without a length check and panics on a shorter
  packet; the model does not represent that panic.
- Errors are modelled by value. In Go, each `errors.New("Unknown command
  status for received event")` call in commands.go (lines 117 and 144)
  makes a new error that equals no other. `Commands.UNKNOWN_STATUS` is one
  value and compares equal to itself, so the model does not capture that
  identity.
- Read and write loops rely on the kernel moving at least one byte per
  successful call. A Go loop that got 0 forever would never end, and the
  model excludes that case through the kernel contract.
