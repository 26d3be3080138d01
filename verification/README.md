# Verified model of simple-message

simple-message moves framed messages over TCP or WebSocket connections. This project models its
concurrent core in Dafny and proves, for every run, what a user of `SendMsg`, of a handler and of
`Stop` relies on.

## How it is modelled

- **Framing and transports are imperative.** `Protocol.Decoder` and the transports in `Transport`
  are classes with arrays, loops and Go's 32-bit arithmetic; an `io.Reader` or `io.Writer` is the
  datatype `Transport.Conn` with the two implementations. They are proved against the pure
  functions of `Codec`. A reader holds the pieces in which its bytes will arrive, so a contract that
  mentions only their concatenation holds for every chunking.
- **The task manager and the statistics are classes** proved against `TaskSpec` and the functions
  of `Stats`. The methods of `TaskGo` are single critical sections; `GetStatistic` and `AddBytes`
  take two locks one after the other, and what happens in between is in `Dispatch`.
- **Everything concurrent is a transition system.** `Step` gives the effect of one atomic action,
  `Run` of a sequence of them; a sequence of labels is an interleaving, and a theorem about all
  sequences is a theorem about all schedules, all cancellations and all points of failure.
  `Endpoint` is one connection: callers of `sendMsg`, send loop, read loop, `stop`, the three
  goroutines of the task manager (through `TaskSpec`) and the goroutine that calls `StopAndWait`
  and `ConnErr`. It uses the functions of `Codec` that the methods are proved against. `Network`
  joins two endpoints, `Server` models N acceptors, `Fleet` the server with the endpoints it
  serves, `Adaptor` the WebSocket adaptor with `Close` between its critical sections, `Redial` the
  client loop on a clock, `MessageBody` the acknowledgement under arbitrary callers and `Dispatch`
  `handleMsg` with readers of the statistics.
- Invariants live in `SendSafety`, `ReadSafety`, `Shutdown` and `Admission`; the results for users
  are in `Connection`, `Outcome`, `Answers`, `Reports`, `Ending`, `Network`, `Admission`, `Limits`,
  `ServerStop`, `Fleet`, `Adaptor`, `TaskSpec`, `Redial` and `Dispatch`.
- **Answers are tied to the actions of the run.** What a caller gets is stated in terms of the
  labels of the run (which Write failed with which error, which handlers were registered, which
  messages were given), by functions that recurse over the labels and do not mention `Step`.

What is assumed of the outside: a Write that returns nil wrote everything, a closed transport
accepts no further byte (the one WebSocket write that `Adaptor.OneLateWrite` leaves in flight counts
as done before the Close), a closed listener makes `Accept` fail, a transport never fails with
`ErrDataLength`, the clock is monotonic, callers do not change `Data` while it is queued, nobody
but the send loop receives from the channel that the exported `MsgChan()` returns
(connection/connection.go:34), a WebSocket connection has one reader and one writer at a time, a
`HandlerManager` is stopped once, and fewer than 2^31 tasks are unfinished at once.

## Results that differ from the obvious expectation

- `io.EOF` from `Unmarshal` does not mean that the stream ended between two frames: a stream cut
  right behind the header of a non-empty body reports it too, and no other cut does
  (`Codec.DecodePrefix`, `Codec.DecodeCutStream`).
- `Marshal` cuts bodies modulo 2^32 and, for limits above 2^32 - 9, can panic on a wrapped buffer
  size; `Codec.RoundTripIff` is the exact condition for a faithful frame.
- The connection limit holds in every run if and only if `maxConnCount + acceptAmount` fits an
  int32, because the optimistic increments wrap (`Limits.LimitIff`).
- `StopAndWait` can receive from `doneCh` exactly when all tasks have finished and not all of them
  had when the manager was stopped; otherwise it waits for its timeout (`Connection.TokenIff`,
  `TaskSpec.StoppedIdleNeverSignals`). A second caller gets nil at once, whatever is unfinished
  (`TaskSpec.SecondStopperLearnsNothing`).
- `ErrIsClose` and context errors from `SendMsg` do not say that the frame was not written. It can
  be out exactly if the error came out of the second of the two selects
  (`Outcome.WrittenDespiteErrorIff`); out of the first it never is, in no continuation
  (`Outcome.NeverQueuedStaysOut`), and out of the second it may be or not
  (`Outcome.UnwrittenDespiteQueue`). The result does not tell which select it was, but a call that
  starts on a closed transport never sends (`Outcome.ClosedTransportNeverSends`), and
  `Outcome.GoesOutIff` says exactly when a new call can still be written.
- One oversized message ends the connection (`Connection.OversizedEndsConnection`).
- A client without an action closes `done` while `IsStoped()` stays false
  (`Redial.DoneMeansStopped`).
- A WebSocket `Read` that is in flight while `Close` runs may still return bytes, because its second
  critical section does not look at `closed` (`Adaptor.LateReadHappens`); `Adaptor.LateBytesIff`
  and `Adaptor.AfterClose` say exactly when, and that it is at most one.
- If the close frame cannot be written, the WebSocket adaptor never closes the underlying
  connection, and every later `Close` returns nil (`Adaptor.UnderlyingClosedIff`).
- The redial loop spaces the time stamps by a second, not the `DialContext` calls, which may follow
  each other at once if the goroutine was delayed behind its stamp (`Redial.CallsCanBeClose`).
- `done` of the server does not mean that nothing runs: a handler of a connection whose
  `StopWithTimeout` timed out may still be running (`Fleet.HandlerMayOutliveDone`); but nothing is
  written on any connection any more (`Fleet.NothingSentBehindDone`).

## Model

| member | source | states |
|---|---|---|
| `Bytes.GetPut` | protocol/decoder.go:64-65 | the header fields written by Marshal read back to the same number; the byte order is in `Codec.WireFormat` |
| `Bytes.PutGet` | protocol/decoder.go:42-43 | the numbers Unmarshal reads determine the four header bytes; the byte order is in `Codec.AcceptedFormat` |
| `Codec.WireFormat` | protocol/decoder.go:63-66 | the bytes of a frame: id and length as four bytes each, most significant first, written out in arithmetic, then the body |
| `Codec.AcceptedFormat` | protocol/decoder.go:42-50 | whatever Unmarshal accepts carries the message's id and length in that byte order, and its body behind them |
| `Codec.EncodeTruncated` | protocol/decoder.go:59 | a frame is that of the body cut modulo 2^32, which is the body exactly if it is shorter than 2^32 |
| `Codec.RoundTripIff` | protocol/decoder.go:16-34 | Marshal's frame decodes to the same message iff the body is within the limit and 8 + length does not wrap; the default limit is safe |
| `Codec.LimitBoundary` | protocol/decoder.go:27-34 | a frame is written exactly for bodies within the limit given to NewDecoder, or within 2097152 bytes if that was 0 |
| `Codec.DecodeEncode` | protocol/decoder.go:36-56 | a frame followed by any bytes decodes to its message and leaves those bytes, or is refused by the limit |
| `Codec.EncodeDecode` | protocol/decoder.go:36-56 | whatever decodes was exactly one frame within the limit |
| `Codec.DecodePrefix` | protocol/decoder.go:38-50 | no proper prefix of a frame decodes; the end of the stream shows as ErrUnexpectedEOF except for the empty prefix and the bare header, any other error of the stream as itself |
| `Codec.DecodeAllFrames` | protocol/decoder.go:36-56 | frames in front of any tail are delivered one by one, then the tail is decoded |
| `Codec.DecodeCutStream` | protocol/decoder.go:36-69 | a stream cut anywhere yields exactly the complete messages, then the exact error, for every error of the stream |
| `Codec.DecodeAllOfEncodeAll` | protocol/decoder.go:44-46 | a receiver with a smaller limit delivers exactly the messages before the first larger one, then ErrDataLength |
| `Codec.DecodeAllSound` | protocol/decoder.go:36-56 | for arbitrary bytes, the delivered messages are exactly the frames the bytes start with |
| `Codec.PrefixCode` | README.md:199-209 | if the bytes of one message list are a prefix of another's, the list is a prefix too |
| `Codec.EncodeAllInjective` | README.md:199-209 | two message lists have the same bytes iff they are equal |
| `Transport.ReadsConserve` | examples/websocket/conn.go:40-83 | over any sequence of reads that meet the reader contract, bytes handed out plus bytes left are the stream, and an error ends it; for reads that Close interrupts see `Adaptor.BytesConserved` |
| `Transport.TcpConn.Read` | connection/api.go:10-14 | any chunking, including empty pieces and an error together with the last bytes, meets the reader contract |
| `Transport.TcpConn.Write` | connection/api.go:10-14 | everything is written iff the socket takes it, otherwise a front part and the socket's error |
| `Transport.PieceReadOutcome` | examples/websocket/conn.go:40-83 | serving leftover and messages piece by piece loses, repeats and reorders no byte and makes progress |
| `Transport.WsConn.Read` | examples/websocket/conn.go:40-83 | one call that nothing interferes with: leftover buffer and unread messages form one byte stream; sticky errors; nothing after a failure or close; for interference see `Adaptor.LateBytesIff` |
| `Transport.WsConn.Drain` | examples/websocket/conn.go:52-58 | the leftover is served first and keeps its unread rest |
| `Transport.WsConn.Fetch` | examples/websocket/conn.go:62-82 | the next message fills the buffer and the rest becomes the leftover, or the error becomes sticky |
| `Transport.WsConn.Write` | examples/websocket/conn.go:87-111 | one call that nothing interferes with: one whole message or none, the error of WriteMessage, and sticky errors; for interference see `Adaptor.WritesDelivered` and `Adaptor.RunTold` |
| `Transport.WsConn.Close` | examples/websocket/conn.go:114-132 | cancels the context and makes every later read fail; the first call closes the underlying connection and returns its error unless the close frame failed, whose error it then returns; later calls return nil and do nothing |
| `Adaptor.BytesConserved` | examples/websocket/conn.go:40-83 | in every run, Close at any moment included: bytes returned, message in hand, readBuf and unread messages are the bytes that have arrived, in order |
| `Adaptor.LateBytesIff` | examples/websocket/conn.go:40-83 | a read that ends behind Close returns bytes iff it passed the first critical section before, its ReadMessage yielded a non-empty message and its buffer is not empty |
| `Adaptor.OneLateRead` | examples/websocket/conn.go:43-46 | behind the one read in flight at Close every read returns ErrClosedPipe and nothing else |
| `Adaptor.AfterClose` | examples/websocket/conn.go:114-123 | everything returned in any continuation behind a Close comes from the one read in flight, and when exactly there is something |
| `Adaptor.NothingAfterError` | examples/websocket/conn.go:47-50 | behind a read that failed every read fails and returns no byte |
| `Adaptor.LateReadHappens` | examples/websocket/conn.go:63-82 | any non-empty message can be returned behind Close |
| `Adaptor.UndisturbedRead` | examples/websocket/conn.go:40-83 | the critical sections of a read without interference compose to the one plain read of `Transport.WsConn.Read` |
| `Adaptor.WritesDelivered` | examples/websocket/conn.go:87-111 | the messages on the wire are those of the writes that returned nil, in order, and at most one whose write has not returned |
| `Adaptor.OneLateWrite` | examples/websocket/conn.go:88-93 | behind the one write in flight at Close every write returns ErrClosedPipe |
| `Adaptor.WriteErrorSticks` | examples/websocket/conn.go:94-108 | behind a write that failed every write fails |
| `Adaptor.UnderlyingClosedIff` | examples/websocket/conn.go:114-132 | in every continuation the underlying connection is closed, once, iff the close frame of the first Close went out or had gone out; later calls return nil |
| `Adaptor.RunTold` | examples/websocket/conn.go:40-132 | in every run the messages, buffers and data are those given, in order; a call fails with ErrClosedPipe at its start iff it began behind a Close, every other failure is that of a ReadMessage or WriteMessage of the run; the first Close returns what its close frame and underlying Close give |
| `Transport.ReadFull` | protocol/decoder.go:37-50 | the buffer is filled with the front of the stream, or the exact short-read error, for every chunking |
| `Protocol.Decoder.constructor` | protocol/decoder.go:27-34 | a limit of 0 becomes 2097152, any other is kept |
| `Protocol.BuildFrame` | protocol/decoder.go:59-66 | the in-place buffer is the frame, with the header bytes written out in arithmetic; it panics exactly if the 32-bit size wraps |
| `Protocol.Decoder.Marshal` | protocol/decoder.go:58-69 | refusals and panics write nothing; otherwise the frame is written iff the transport takes it, and a failure writes a front part of it and returns the transport's own error |
| `Protocol.Decoder.Unmarshal` | protocol/decoder.go:36-56 | result and rest of the stream are those of the pure decoder, however the bytes arrive |
| `Protocol.Decoder.ReadAll` | connection/handler.go:179-194 | the read loop hands on exactly the messages of the byte stream and ends with its error |
| `SendSafety.StepQueue` | connection/connection.go:95-100 | every step keeps: enqueue order is dequeue order, at most 256 queued, each call at most once |
| `SendSafety.StepWire` | connection/handler.go:202-217 | every step keeps: the wire is complete frames plus a front part of at most one more |
| `SendSafety.StepSend` | connection/handler.go:196-222 | every step keeps the queue, wire and acknowledgement invariants together |
| `SendSafety.StepVerdict` | protocol/decoder.go:59-62 | every step keeps: ErrDataLength is acknowledged exactly for refused messages |
| `SendSafety.StepOrigin` | connection/connection.go:95-101 | every step keeps: a call is in the queue history iff it left the first select by enqueueing |
| `ReadSafety.StepRead` | connection/handler.go:179-194 | every step keeps: bytes read are the delivered frames plus an incomplete rest |
| `ReadSafety.DeliveredIsDecoded` | protocol/decoder.go:36-56 | the read loop's deliveries are those of repeated Unmarshal on the bytes read |
| `Shutdown.StepStop` | connection/handler.go:159-175 | every step keeps the order of stop's effects and their causes |
| `Shutdown.StepTask` | connection/handler.go:53-71 | every step keeps the task manager's records in agreement with the three goroutines |
| `Shutdown.AllGone` | pkg/taskgo/taskgo.go:98-114 | a sent token means the three goroutines are gone and stop is complete |
| `Shutdown.SendDrains` | connection/handler.go:202-221 | on a closed transport every step of the send loop lowers its rank |
| `Connection.WireInOrder` | connection/connection.go:22 | in every run: bounded FIFO queue, and the wire is the frames of the written items plus a front part of one more |
| `Connection.NothingAfterFailure` | connection/handler.go:213-216 | after a failed message nothing is dequeued or written any more |
| `Connection.OversizedEndsConnection` | protocol/decoder.go:60-62 | a refused message is the last one the connection ever processes |
| `Connection.AckSound` | connection/connection.go:95-109 | nil means the frame is on the wire exactly once; errors from a select have their cause; an acknowledged error belongs to the last message; which error it is, is in `Answers.SendMsgAnswers` |
| `Connection.AckOnce` | connection/message_body.go:33-38 | ackChan is closed at most once, behind the only write of m.err |
| `Connection.NeverStuck` | connection/message_body.go:33-38 | the loop's CompareAndSwap always succeeds and no final call of a goroutine panics or blocks |
| `Connection.DeliveredExactly` | connection/handler.go:186-193 | handleMsg got exactly the complete messages of the bytes read; ErrDataLength exactly for an oversized header |
| `Connection.StopOrder` | connection/handler.go:159-169 | without outside causes: h.ctx done implies transport closed implies connection context done implies err set |
| `Connection.FirstErrorWins` | connection/handler.go:171-175 | err is the first reported error in every continuation |
| `Connection.CleanShutdown` | connection/handler.go:138-148 | StopAndWait through doneCh: tasks ended, stop complete, ConnErr gets an error and a closed transport; which error it is, is in `Reports.ConnErrGetsFirst` |
| `Connection.StopWaits` | connection/handler.go:138-146 | a connection's own StopAndWait always goes on to wait |
| `Connection.TokenIff` | pkg/taskgo/taskgo.go:193-201 | when exactly the waiting StopAndWait can return nil |
| `Outcome.QueuedExactly` | connection/connection.go:95-109 | a returned call was enqueued iff its result did not come out of the first select |
| `Outcome.NeverQueuedStaysOut` | connection/connection.go:96-99 | after an error out of the first select no continuation queues, dequeues or writes the message |
| `Outcome.WrittenDespiteErrorIff` | connection/connection.go:95-109 | the complete frame can be out despite ErrIsClose or a context error iff the error came out of the second select |
| `Outcome.UnwrittenDespiteQueue` | connection/connection.go:101-108 | an error out of the second select may also leave the message unwritten for ever |
| `Outcome.ClosedTransportNeverSends` | connection/handler.go:202-217 | a call that starts when the transport is closed never puts a byte on the wire and never returns nil, in no continuation |
| `Outcome.GoesOutIff` | connection/handler.go:196-222 | in every reachable state a call that starts now can still be written iff the transport is open, the send loop has not failed or left, and neither the message nor one ahead of it fails in Marshal |
| `Outcome.OpenDrains` | connection/handler.go:202-217 | an open connection can write everything that is queued |
| `Answers.AckErrorIsWriteError` | protocol/decoder.go:67-68 | an acknowledgement carries ErrDataLength iff the limit refuses the message, and another error e iff the Write of this very frame failed with e in the run |
| `Answers.SendMsgAnswers` | connection/connection.go:90-110 | what every answer of SendMsg to its c-th call means, with message, cancellation, Close and Write failure taken from the actions of the run |
| `Answers.BlocksIff` | connection/connection.go:95-108 | SendMsg blocks exactly while 256 messages are queued, or the message is unacknowledged, and neither connection nor caller is cancelled |
| `Answers.RunInputs` | connection/connection.go:82-94 | messages, bytes and cancellations of the state are those given in the run |
| `Answers.EndedExactly` | connection/handler.go:159-169 | context, transport and manager context have ended iff stop's own effect or somebody outside has ended them |
| `Reports.ReadErrorIsTransportError` | protocol/decoder.go:38-50 | the read loop's error other than ErrDataLength is what Unmarshal makes of the transport's own error behind the bytes read |
| `Reports.EveryErrorIsReported` | connection/handler.go:186-219 | merr has been given exactly ErrIsClose of a begun stop, the read loop's error and the last message's error, each once and none lost, with the failed Write or the limit as the latter's cause |
| `Reports.ConnErrGetsFirst` | server/handler.go:52-56 | ConnErr gets the first error merr was ever given, none iff merr had not been called, the state of the transport at that moment, and the token iff one was taken |
| `Reports.LoopsLeaveForCause` | connection/handler.go:179-222 | the send loop leaves only for an ended context or a failed message, the read loop only for a failed Unmarshal or a panicking handler |
| `Ending.ErrorHasSource` | connection/handler.go:159-194 | every error given to merr is ErrIsClose of a begun stop, the error of the failed Unmarshal, or the error acknowledged to the last message; what ConnErr gets is in `Reports.ConnErrGetsFirst` |
| `Ending.DrainBound` | connection/handler.go:202-221 | at most one more message is dequeued once the transport is closed |
| `Ending.DrainDecreases` | connection/handler.go:202-221 | each step of callers, send loop, stop and of taskgo behind the loop then uses up a natural number |
| `Ending.DrainProgress` | connection/handler.go:202-221 | with the transport closed and either context ended such a step of the send loop is enabled until it is gone |
| `Ending.DrainReachesEnd` | connection/handler.go:202-221 | at most Drain(s) steps end the send loop, whatever is queued |
| `Ending.CallersCanReturn` | connection/connection.go:95-109 | with the connection's context done every call in flight has an enabled returning step |
| `Network.NetStepInv` | connection/handler.go:186-222 | every step of two joined endpoints keeps both invariants and both byte streams |
| `Network.RefinesFifo` | connection/connection.go:90-110 | every step of two joined endpoints: exactly sendMsg's enqueue pushes its caller's message, exactly handing a message to handleMsg pops the front, everything else leaves both FIFO queues alone |
| `Network.Fifo` | connection/handler.go:186-222 | in every run each side has handed on a prefix of what its peer enqueued, in order, and the enqueued items are the messages of pairwise different calls |
| `Network.FifoExact` | connection/connection.go:90-110 | the k-th delivered message is the k-th enqueued one iff its length fits 32 bits |
| `Network.AcknowledgedArrive` | connection/connection.go:102-103 | a receiver that has read the whole wire has delivered every written message within its limit |
| `MessageBody.StepInv` | connection/message_body.go:33-38 | every step of any number of callers keeps the one-winner invariant |
| `MessageBody.AckMessageOnce` | connection/message_body.go:33-38 | t, the write of m.err and close happen at most once, and every waiter reads the one value |
| `MessageBody.ReadersGetTheResult` | connection/message_body.go:33-38 | at most one caller's function runs, and every waiter reads the result that this function returned |
| `TaskSpec.DoneInv` | pkg/taskgo/taskgo.go:98-114 | the counter never goes negative and the send under the lock never blocks |
| `TaskSpec.TokenExact` | pkg/taskgo/taskgo.go:65-114 | at most one token, sent iff stopped, nothing unfinished, and something was unfinished at the stop; counter = unfinished tasks |
| `TaskSpec.DoneReturns` | pkg/taskgo/taskgo.go:105-113 | in every interleaving done returns |
| `TaskSpec.NilMeansAllFinished` | pkg/taskgo/taskgo.go:193-201 | nil through doneCh means every task ever started has finished |
| `TaskSpec.Monotone` | pkg/taskgo/taskgo.go:69-79 | names are never dropped, results of finished tasks never change, a stopped manager only drains; that no name is started twice is in `TaskSpec.RecordsAreHistory` |
| `TaskSpec.GoAnswers` | pkg/taskgo/taskgo.go:69-79 | Go starts a task iff the manager is not stopped and the name is new; it reports a stopped manager iff it is; any other answer than a start changes nothing |
| `TaskSpec.RecordsAreHistory` | pkg/taskgo/taskgo.go:65-103 | in every run a name is recorded iff one Go started it, at most once, and finished iff its task ended, once, with the error and time of that end |
| `TaskSpec.FirstStopperWaits` | pkg/taskgo/taskgo.go:181-187 | exactly the first caller of StopAndWait goes on to wait, and no call touches a task |
| `TaskSpec.StoppedIdleNeverSignals` | pkg/taskgo/taskgo.go:111-113 | a manager stopped when idle never sends a token |
| `TaskSpec.SecondStopperLearnsNothing` | pkg/taskgo/taskgo.go:181-185 | in every state behind the first StopAndWait a further one returns nil at once and changes nothing |
| `TaskSpec.SecondStopperMayBeEarly` | pkg/taskgo/taskgo.go:181-185 | a run in which it returns nil while a task is running |
| `TaskGo.Manager.constructor` | pkg/taskgo/taskgo.go:39-43 | a new manager is empty and not stopped |
| `TaskGo.Manager.Go` | pkg/taskgo/taskgo.go:65-96 | starts a task iff the manager is not stopped and the name is new, with a fresh record; otherwise reports which of the two it is and changes nothing |
| `TaskGo.Manager.Done` | pkg/taskgo/taskgo.go:98-114 | records the end, never panics, and finds doneCh empty when it sends |
| `TaskGo.Manager.MarkStopped` | pkg/taskgo/taskgo.go:181-187 | only the first caller goes on to wait |
| `TaskGo.Manager.Await` | pkg/taskgo/taskgo.go:193-201 | nil with all tasks finished, or a timeout that lists exactly the unfinished names |
| `TaskGo.Manager.IterTasks` | pkg/taskgo/taskgo.go:139-149 | the listing has no duplicates and exactly the selected names |
| `TaskGo.Manager.ListingsPartition` | pkg/taskgo/taskgo.go:120-136 | unfinished and finished names partition all names |
| `Admission.WrapAdd` | server/handler.go:24-26 | additions to the wrapped 32-bit counter are additions modulo 2^32 |
| `Admission.StepCap` | server/handler.go:24-29 | every step keeps slots held plus acceptors about to take one within the limit |
| `Admission.StepJoin` | server/handler.go:31-37 | every step keeps each WaitGroup equal to the goroutines it waits for |
| `Admission.ConnCountExact` | server/handler.go:24-37 | connCount = slots held + increments not yet decided or undone |
| `Admission.LimitHolds` | server/handler.go:24-29 | the limit is never exceeded when limit plus acceptors fits an int32 (the exact condition, see `Limits.LimitIff`) |
| `Admission.RefusalBound` | server/handler.go:24-29 | a refusal needs a limit and found at least max - (N - 1) slots held; with one acceptor exactly max |
| `Admission.ShutdownComplete` | server/server.go:82-124 | done is closed at most once, and then every acceptor and every goroutine started by accept has finished and connCount is 0 |
| `Admission.LoopLeftByError` | server/handler.go:17-22 | an acceptor leaves its loop only through an Accept error |
| `Admission.LeavingAfterError` | server/handler.go:17-29 | an acceptor that leaves has had an Accept fail; a refused connection does not end it |
| `Admission.DefersReturn` | server/handler.go:32-37 | no WaitGroup counter goes negative |
| `ServerStop.StopLeadsToDone` | server/server.go:105-124 | Stop cancels the context and closes the listener, from where at most Work(s) of the server's own actions close done |
| `ServerStop.StopDecreases` | server/handler.go:17-39 | with the listener closed each of the server's own actions uses up a natural number, in any order |
| `ServerStop.StopProgress` | server/server.go:82-98 | until done is closed one of these actions is enabled |
| `Fleet.DoneMeansReported` | server/handler.go:42-64 | behind done every connection was reported through ConnErr, with the first reported error if there was one, its context is cancelled and its transport closed; its three tasks are gone if StopWithTimeout did not time out |
| `Fleet.NothingSentBehindDone` | server/handler.go:31-37 | behind done no continuation puts a byte on any wire, and each send loop dequeues at most one more message |
| `Fleet.HandlerMayOutliveDone` | server/handler.go:52-56 | a run in which done is closed while a handler is still running |
| `Fleet.StopLeadsToDone` | server/server.go:105-112 | from every state of server and connections Stop can end in done without any further action of a loop, a handler or a caller |
| `Fleet.Projects` | server/handler.go:42-64 | what the fleet does to one connection is a run of that connection |
| `Limits.LimitIff` | server/handler.go:24-29 | the limit holds in every run iff max + N fits an int32 |
| `Limits.RefusalTight` | server/handler.go:24-29 | some run refuses with exactly max - (N - 1) slots held |
| `Redial.StepInv` | client/client.go:136-169 | every step keeps one second between the values of dialStartAt, each before its DialContext call |
| `Redial.DialPacing` | client/client.go:147-151 | the stamps of dials i and j are at least j - i seconds apart |
| `Redial.CallPacing` | client/client.go:147-151 | the DialContext calls i and j are at least j - i seconds apart, less the delay between stamp i and call i |
| `Redial.CallsCanBeClose` | client/client.go:147-151 | the bound is attained: for any delay of up to a second a run has two calls only SECOND - delay apart |
| `Redial.CancelStopsDialing` | client/client.go:138-153 | behind the cancellation at most one more dial starts, in every continuation |
| `Redial.CancelLeadsToDone` | client/client.go:120-130 | from every reachable state the cancellation and at most nine actions of the loop close done, without time passing |
| `Redial.OnlyCancelStops` | client/client.go:136-146 | a client with an action ends only if its context has been cancelled |
| `Redial.DoneMeansStopped` | client/client.go:112-116 | done is closed once, with the context cancelled; IsStoped() iff there was an action |
| `Stats.HandlerStatistic.Record` | stats/stats.go:81-90 | one packet and its bytes, in the success or the failed pair |
| `Stats.Wraps` | stats/stats.go:16-21 | the 64-bit counters hold the value in range that is congruent modulo 2^64 |
| `Stats.HandlerStats.GetOrCreateStatistic` | stats/stats.go:52-65 | an existing entry is returned, never replaced; a new one is zero |
| `Stats.HandlerStats.AddBytes` | stats/stats.go:78-91 | exactly one entry changes, by one packet and its bytes |
| `Stats.HandlerStats.GetStatistic` | stats/stats.go:30-50 | one call that nothing interferes with: the numbers of the entry, zeros for an unknown id; for concurrent writers see `Dispatch.ReaderSeesOneMoment` |
| `Stats.HandlerStats.IncUnknownMsg` | stats/stats.go:93-95 | one more unknown message |
| `Dispatch.StepInv` | client/client.go:80-98 | every step keeps the counters equal to the totals of the log; what is logged is in `Dispatch.CountedAsHandled` |
| `Dispatch.CallsConserved` | server/handler.go:66-85 | unknown + success + failed = completed calls; entries hold packets and byte sums modulo 2^64; what each call counts as is in `Dispatch.HandledIffRegistered` |
| `Dispatch.HandledIffRegistered` | server/handler.go:66-85 | a completed call was handled, once, iff a handler for its id was registered at its lookup; registrations are those of the actions before it |
| `Dispatch.CountedAsHandled` | server/handler.go:70-84 | in the order of counting, each call is logged as unknown, or under its own id and length with the result of its own handler |
| `Dispatch.ReaderSeesOneMoment` | stats/stats.go:30-50 | whatever happens between its two locks, GetStatistic returns the totals, for the id asked for, of the calls counted up to one moment between its start and its end |

## Left out

- The `useTaskgo == false` path, `MustStopWithTimeout`, `stopWithTimeout`: a second form of the same shutdown.
- `close(h.done)` of `HandlerManager` and the context of the task manager: nobody in the modelled paths waits for them.
- Connection properties, `String`, logging, error texts and wrapping: an error is its kind.
- The WebSocket HTTP upgrade server and the example programs.
- `UnfinishedTasksState` and `FinishedTasksState`: the same loop as the name listings, copying records.
- SetCancelFunc and the start time of a task: they do not influence the accounting.
- Time inside `StopAndWait`: the timeout is a nondeterministic branch.
- Fairness: that an enabled step is taken is not modelled; what is proved is that the steps are enabled and their number is bounded.
- The send and read loops, `sendMsg`, `stop`, `accept` and `start` are modelled on values, as transition systems, because their results depend on interleaving; aliasing of message buffers between callers and the queue is not captured.
- Transport.WsConn.Read: one call without interference; `Adaptor` models the interleavings with Close.
- Transport.WsConn.Write: one call without interference; `Adaptor` models the interleavings with Close.
- Stats.HandlerStats.GetStatistic: one call without interference; `Dispatch` models concurrent writers.
- The read of a reader that shares a WebSocket connection with another reader: the library allows one at a time.
- The errors that `read` and `send` return to the task manager: nobody looks at them.
- TaskGo.Manager.Go: requires fewer than 2^31 - 1 unfinished tasks, so the 32-bit counter is modelled without wrap-around.
- The clock that `SleepAtLeast` measures with cannot run backwards here; its guard against that is kept but has no case.
- Unsynchronised reads (`Err()`, the fields of `Server` before `Start`) are modelled as atomic.
