// One connection as a transition system: the callers of sendMsg, the send and read loops,
// HandlerManager.stop, the task manager and the goroutine that waits for it. Every label is
// one atomic action, so a sequence of labels is one interleaving.
module Endpoint {
  import opened Bytes
  import opened Errors
  import opened Codec
  import T = TaskSpec

  /** Capacity of msgChan. */
  const QUEUE: nat := 256

  /** Which branch of sendMsg's selects produced the result. */
  datatype Branch = ClosedBranch | CancelBranch | AckBranch

  datatype CallPc =
    | Offering                             // first select
    | Awaiting                             // enqueued, second select
    | Acked                                // ackChan seen closed, about to read m.err
    | Returned(r: Result, via: Branch, queued: bool)  // had the message been put into msgChan?

  /** A MessageBody; m.err starts out nil. `writes` and `closes` count what happened to err and ackChan. */
  datatype Body = Body(claimed: bool, err: Result, writes: nat, closes: nat)

  const NEW_BODY: Body := Body(false, Nil, 0, 0)

  /** One call of SendMsg or SendMsgContext. */
  datatype Call = Call(msg: Message, cancelled: bool, pc: CallPc, body: Body)

  /** What msgChan carries: the body of call `c`. */
  datatype Item = Item(c: nat, msg: Message)

  datatype SendPc =
    | SendUnborn
    | Selecting
    | Claiming(m: Item)             // received, before CompareAndSwap
    | Marshalling(m: Item)          // before the length check
    | Writing(m: Item, k: nat)      // in conn.Write, k bytes of the frame are out
    | Storing(m: Item, r: Result)   // before m.err = t()
    | Closing(m: Item, r: Result)   // before close(m.ackChan)
    | Testing(r: Result)            // before `if err != nil`
    | Recording(e: Failure)         // before h.merr(err)
    | SendStopping                  // in the deferred h.stop()
    | SendEnding                    // before taskgo's done
    | SendGone

  datatype ReadPc =
    | ReadUnborn
    | InHeader(got: seq<byte>)
    | InBody(id: uint32, size: uint32, got: seq<byte>)
    | Handling                      // in handleMsg
    | ReadFailed(e: Failure)        // before h.merr(err)
    | ReadStopping
    | ReadEnding
    | ReadGone

  datatype BeginPc = BeginUnborn | BeginRunning | BeginGone

  /** The names of the three tasks: "call begin", "read" and "send". */
  datatype TaskName = CallBegin | ReadTask | SendTask

  datatype Stopper = ByRead | BySend | ByOther

  /** sync.Once around stop: `effects` of its four effects have happened. */
  datatype StopPc = NotStopped | Stopping(who: Stopper, effects: nat) | StopDone

  /** The goroutine in handlerTcpConn or dialAndRun. */
  datatype WaitPc =
    | Watching                                   // <-handlerManager.Ctx().Done()
    | Waiting                                    // in StopAndWait's select
    | WaitOver(token: bool)                      // it returned, through doneCh or not
    | Reported(token: bool, err: Option<Failure>, closed: bool)  // ConnErr was called with this

  /** msgChan, and the histories of what went in and what came out. */
  datatype Chan = Chan(queue: seq<Item>, enqueued: seq<Item>, processed: seq<Item>)

  /** The send loop, the bytes it gave to the peer, and the items whose Write returned nil. */
  datatype Out = Out(pc: SendPc, wire: seq<byte>, written: seq<Item>)

  /**
   * The read loop, the bytes that have arrived, how many it has read, what handleMsg got, and
   * the error with which Unmarshal failed.
   */
  datatype In = In(pc: ReadPc, received: seq<byte>, taken: nat, delivered: seq<Message>, failure: Option<Failure>)

  /** Connection.ctx, HandlerManager.ctx and the transport, and who else ended them. */
  datatype Flags = Flags(connDone: bool, hDone: bool, closed: bool,
                         userClosed: bool, parentDone: bool, closedOutside: bool)

  /** HandlerManager.err and the history of all calls of merr. */
  datatype Errs = Errs(first: Option<Failure>, reports: seq<Failure>)

  /** Tasks started so far, the task manager, and the remaining program counters. */
  datatype Life = Life(built: nat, tasks: T.State<TaskName>, begin: BeginPc, stop: StopPc, wait: WaitPc)

  datatype State = State(calls: seq<Call>, chan: Chan, out: Out, inp: In, flags: Flags, errs: Errs, life: Life)

  const INIT: State := State([], Chan([], [], []), Out(SendUnborn, [], []), In(ReadUnborn, [], 0, [], None),
    Flags(false, false, false, false, false, false), Errs(None, []),
    Life(0, T.Empty(), BeginUnborn, NotStopped, Watching))

  datatype CallerAct = Enqueue | GiveUpClosed | GiveUpCancelled | SeeAck | ReadAck

  /** Marshal and Write; ErrDataLength is not an error of a transport. */
  datatype WireAct = MarshalIt | WriteSome(n: nat) | WriteOk | WriteFail(e: Failure) | Test

  /** AckMessage. */
  datatype BodyAct = Claim | Store | CloseAck

  datatype SendAct = Quit | Dequeue | OnWire(wa: WireAct) | OnBody(ba: BodyAct) | Record | LeaveStop

  datatype ReadAct =
    | ReadSome(n: nat) | ReadErr(e: Failure) | HandlerReturns | HandlerPanics | RecordErr | LeaveStopped

  datatype TaskAct =
    | Build
    | EndBegin(now: nat) | EndRead(now: nat) | EndSend(now: nat)
    | StopTasks | TakeToken | TimeOut | Report

  datatype EnvAct =
    | NewCall(msg: Message) | CancelCall(i: nat) | Arrive(bytes: seq<byte>)
    | UserClose | ParentCancel | OutsideClose

  datatype Label =
    | Caller(i: nat, ca: CallerAct)
    | Send(sa: SendAct)
    | Read(ra: ReadAct)
    | StopStart(who: Stopper)
    | StopEffect
    | Task(ta: TaskAct)
    | Env(ea: EnvAct)

  // ----- sendMsg

  function CallerStep(s: State, i: nat, a: CallerAct): Option<State> {
    if i >= |s.calls| then None
    else
      var c := s.calls[i];
      var selecting := c.pc.Offering? || c.pc.Awaiting?;
      match a
      case Enqueue =>
        var m := Item(i, c.msg);
        if c.pc.Offering? && |s.chan.queue| < QUEUE
        then Some(s.(calls := s.calls[i := c.(pc := Awaiting)],
                     chan := s.chan.(queue := s.chan.queue + [m], enqueued := s.chan.enqueued + [m])))
        else None
      case GiveUpClosed =>
        if selecting && s.flags.connDone
        then Some(s.(calls := s.calls[i := c.(pc := Returned(Err(IsClose), ClosedBranch, c.pc.Awaiting?))])) else None
      case GiveUpCancelled =>
        if selecting && c.cancelled
        then Some(s.(calls := s.calls[i := c.(pc := Returned(Err(ContextDone), CancelBranch, c.pc.Awaiting?))])) else None
      case SeeAck =>
        if c.pc.Awaiting? && c.body.closes > 0 then Some(s.(calls := s.calls[i := c.(pc := Acked)])) else None
      case ReadAck =>
        if c.pc.Acked? then Some(s.(calls := s.calls[i := c.(pc := Returned(c.body.err, AckBranch, true))])) else None
  }

  // ----- HandlerManager.send with MessageBody.AckMessage and Decoder.Marshal inlined

  /** Marshal's length check. */
  function Checked(max: uint32, m: Item): SendPc {
    match MarshalPlan(max, m.msg)
    case Refuse => Storing(m, Err(DataLength))
    case Crash => SendStopping  // taskgo recovers the panic after the deferred stop
    case Frame(_) => Writing(m, 0)
  }

  function WireStep(max: uint32, closed: bool, o: Out, a: WireAct): Option<Out> {
    match a
    case MarshalIt =>
      if o.pc.Marshalling? then Some(o.(pc := Checked(max, o.pc.m))) else None
    case WriteSome(n) =>
      if o.pc.Writing? && n > 0 && !closed && o.pc.k + n <= |Encode(o.pc.m.msg)|
      then Some(Out(Writing(o.pc.m, o.pc.k + n), o.wire + Encode(o.pc.m.msg)[o.pc.k..o.pc.k + n], o.written))
      else None
    case WriteOk =>
      if o.pc.Writing? && o.pc.k == |Encode(o.pc.m.msg)|
      then Some(Out(Storing(o.pc.m, Nil), o.wire, o.written + [o.pc.m]))
      else None
    case WriteFail(e) =>
      if o.pc.Writing? && !e.DataLength? then Some(o.(pc := Storing(o.pc.m, Err(e)))) else None
    case Test =>
      if o.pc.Testing? then Some(o.(pc := if o.pc.r.Nil? then Selecting else Recording(o.pc.r.e))) else None
  }

  /** The body of the item in hand, and where the send loop goes on. */
  function BodyStep(pc: SendPc, b: Body, a: BodyAct): Option<(Body, SendPc)> {
    match a
    case Claim =>
      if !pc.Claiming? then None
      else if b.claimed then Some((b, Testing(Nil)))
      else Some((b.(claimed := true), Marshalling(pc.m)))
    case Store =>
      if pc.Storing? then Some((b.(err := pc.r, writes := b.writes + 1), Closing(pc.m, pc.r))) else None
    case CloseAck =>
      if pc.Closing? then Some((b.(closes := b.closes + 1), Testing(pc.r))) else None
  }

  function InHand(pc: SendPc): Option<Item> {
    match pc
    case Claiming(m) => Some(m)
    case Marshalling(m) => Some(m)
    case Writing(m, _) => Some(m)
    case Storing(m, _) => Some(m)
    case Closing(m, _) => Some(m)
    case _ => None
  }

  /** merr: the first call wins. */
  function Merr(errs: Errs, e: Failure): Errs {
    Errs(if errs.first.None? then Some(e) else errs.first, errs.reports + [e])
  }

  function SendStep(max: uint32, s: State, a: SendAct): Option<State> {
    match a
    case Quit =>
      if s.out.pc.Selecting? && (s.flags.connDone || s.flags.hDone)
      then Some(s.(out := s.out.(pc := SendStopping))) else None
    case Dequeue =>
      var q := s.chan.queue;
      if s.out.pc.Selecting? && q != []
      then Some(s.(out := s.out.(pc := Claiming(q[0])),
                   chan := s.chan.(queue := q[1..], processed := s.chan.processed + [q[0]])))
      else None
    case OnWire(wa) =>
      (match WireStep(max, s.flags.closed, s.out, wa)
       case Some(o) => Some(s.(out := o))
       case None => None)
    case OnBody(ba) =>
      (match InHand(s.out.pc)
       case Some(m) =>
         if m.c >= |s.calls| then None
         else (match BodyStep(s.out.pc, s.calls[m.c].body, ba)
               case Some((b, pc)) =>
                 Some(s.(calls := s.calls[m.c := s.calls[m.c].(body := b)], out := s.out.(pc := pc)))
               case None => None)
       case None => None)
    case Record =>
      if s.out.pc.Recording?
      then Some(s.(out := s.out.(pc := SendStopping), errs := Merr(s.errs, s.out.pc.e))) else None
    case LeaveStop =>
      if s.out.pc.SendStopping? && s.life.stop.StopDone?
      then Some(s.(out := s.out.(pc := SendEnding))) else None
  }

  // ----- HandlerManager.read with Decoder.Unmarshal and io.ReadFull inlined

  function Fail(r: In, e: Failure): In {
    r.(pc := ReadFailed(e), failure := Some(e))
  }

  function HeaderDone(max: uint32, r: In, head: seq<byte>): In
    requires |head| == HEADER
  {
    var id, size := GetUint32(head[..4]), GetUint32(head[4..8]);
    if size > max then Fail(r, DataLength)
    else if size == 0 then r.(pc := Handling, delivered := r.delivered + [Message(id, [])])
    else r.(pc := InBody(id, size, []))
  }

  /** One Read of the transport that returns the next n bytes. */
  function TakeBytes(max: uint32, r: In, n: nat): Option<In> {
    if r.taken + n > |r.received| then None
    else
      var more := r.received[r.taken..r.taken + n];
      var r1 := r.(taken := r.taken + n);
      match r.pc
      case InHeader(got) =>
        if |got| + n > HEADER then None
        else if |got| + n < HEADER then Some(r1.(pc := InHeader(got + more)))
        else Some(HeaderDone(max, r1, got + more))
      case InBody(id, size, got) =>
        if |got| + n > size then None
        else if |got| + n < size then Some(r1.(pc := InBody(id, size, got + more)))
        else Some(r1.(pc := Handling, delivered := r.delivered + [Message(id, got + more)]))
      case _ => None
  }

  function ReadStep(max: uint32, s: State, a: ReadAct): Option<State> {
    match a
    case ReadSome(n) =>
      (match TakeBytes(max, s.inp, n)
       case Some(r) => Some(s.(inp := r))
       case None => None)
    case ReadErr(e) =>
      if e.DataLength? then None
      else (match s.inp.pc
            case InHeader(got) => Some(s.(inp := Fail(s.inp, ShortRead(|got|, e))))
            case InBody(_, _, got) => Some(s.(inp := Fail(s.inp, ShortRead(|got|, e))))
            case _ => None)
    case HandlerReturns => if s.inp.pc.Handling? then Some(s.(inp := s.inp.(pc := InHeader([])))) else None
    case HandlerPanics => if s.inp.pc.Handling? then Some(s.(inp := s.inp.(pc := ReadStopping))) else None
    case RecordErr =>
      if s.inp.pc.ReadFailed?
      then Some(s.(inp := s.inp.(pc := ReadStopping), errs := Merr(s.errs, s.inp.pc.e))) else None
    case LeaveStopped =>
      if s.inp.pc.ReadStopping? && s.life.stop.StopDone?
      then Some(s.(inp := s.inp.(pc := ReadEnding))) else None
  }

  // ----- HandlerManager.stop

  function StopStartStep(s: State, who: Stopper): Option<State> {
    if s.life.stop.NotStopped? && (who.ByRead? ==> s.inp.pc.ReadStopping?) && (who.BySend? ==> s.out.pc.SendStopping?)
    then Some(s.(life := s.life.(stop := Stopping(who, 0))))
    else None
  }

  function StopEffectStep(s: State): Option<State> {
    if !s.life.stop.Stopping? then None
    else
      var n := s.life.stop.effects;
      var next := s.life.(stop := if n < 3 then s.life.stop.(effects := n + 1) else StopDone);
      if n == 0 then Some(s.(errs := Merr(s.errs, IsClose), life := next))
      else if n == 1 then Some(s.(flags := s.flags.(connDone := true), life := next))
      else if n == 2 then Some(s.(flags := s.flags.(closed := true), life := next))
      else Some(s.(flags := s.flags.(hDone := true), life := next))
  }

  // ----- NewHandlerManager, the task manager, and the goroutine that ends the connection

  /** taskgo's final call for a task; it is disabled if it would panic or block. */
  function EndTask(f: Life, name: TaskName, now: nat): Option<Life> {
    if name !in f.tasks.Unfinished() || now == 0 then None
    else match T.Done(f.tasks, name, None, now)
      case Returned(t) => Some(f.(tasks := t))
      case _ => None
  }

  function TaskStep(s: State, a: TaskAct): Option<State> {
    var f := s.life;
    match a
    case Build =>
      if f.built == 0 then Some(s.(life := f.(built := 1, tasks := T.Go(f.tasks, CallBegin).0, begin := BeginRunning)))
      else if f.built == 1 then Some(s.(life := f.(built := 2, tasks := T.Go(f.tasks, ReadTask).0),
                                        inp := s.inp.(pc := InHeader([]))))
      else if f.built == 2 then Some(s.(life := f.(built := 3, tasks := T.Go(f.tasks, SendTask).0),
                                        out := s.out.(pc := Selecting)))
      else None
    case EndBegin(now) =>
      if !f.begin.BeginRunning? then None
      else (match EndTask(f.(begin := BeginGone), CallBegin, now)
            case Some(f') => Some(s.(life := f'))
            case None => None)
    case EndRead(now) =>
      if !s.inp.pc.ReadEnding? then None
      else (match EndTask(f, ReadTask, now)
            case Some(f') => Some(s.(life := f', inp := s.inp.(pc := ReadGone)))
            case None => None)
    case EndSend(now) =>
      if !s.out.pc.SendEnding? then None
      else (match EndTask(f, SendTask, now)
            case Some(f') => Some(s.(life := f', out := s.out.(pc := SendGone)))
            case None => None)
    case StopTasks =>
      if f.built == 3 && s.flags.hDone && f.wait.Watching? then
        var (t, first) := T.Stop(f.tasks);
        Some(s.(life := f.(tasks := t, wait := if first then Waiting else WaitOver(false))))
      else None
    case TakeToken =>
      if f.wait.Waiting? && f.tasks.tokens > 0
      then Some(s.(life := f.(tasks := f.tasks.(tokens := f.tasks.tokens - 1), wait := WaitOver(true))))
      else None
    case TimeOut => if f.wait.Waiting? then Some(s.(life := f.(wait := WaitOver(false)))) else None
    case Report =>
      if f.wait.WaitOver?
      then Some(s.(life := f.(wait := Reported(f.wait.token, s.errs.first, s.flags.closed)))) else None
  }

  function EnvStep(s: State, a: EnvAct): Option<State> {
    match a
    case NewCall(msg) => Some(s.(calls := s.calls + [Call(msg, false, Offering, NEW_BODY)]))
    case CancelCall(i) =>
      if i < |s.calls| then Some(s.(calls := s.calls[i := s.calls[i].(cancelled := true)])) else None
    case Arrive(bytes) => Some(s.(inp := s.inp.(received := s.inp.received + bytes)))
    case UserClose => Some(s.(flags := s.flags.(connDone := true, userClosed := true)))
    case ParentCancel => Some(s.(flags := s.flags.(hDone := true, parentDone := true)))
    case OutsideClose => Some(s.(flags := s.flags.(closed := true, closedOutside := true)))
  }

  function Step(max: uint32, s: State, l: Label): Option<State> {
    match l
    case Caller(i, a) => CallerStep(s, i, a)
    case Send(a) => SendStep(max, s, a)
    case Read(a) => ReadStep(max, s, a)
    case StopStart(who) => StopStartStep(s, who)
    case StopEffect => StopEffectStep(s)
    case Task(a) => TaskStep(s, a)
    case Env(a) => EnvStep(s, a)
  }

  function Run(max: uint32, s: State, ls: seq<Label>): Option<State>
    decreases |ls|
  {
    if ls == [] then Some(s)
    else match Step(max, s, ls[0])
      case None => None
      case Some(s1) => Run(max, s1, ls[1..])
  }
}
