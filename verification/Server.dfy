// Server.Start, Stop, stop and accept as a transition system over N acceptors.
module Server {
  import opened Bytes
  import opened Errors
  import opened Counting

  /** atomic.Int32 wraps around. */
  function ConnCount(s: State): int {
    ToInt32(s.adds)
  }

  /** A connection's goroutine inside accept. */
  datatype Phase =
    | Serving    // in handlerTcpConn
    | Returned   // before connCount.Add(-1)
    | Counted    // before conn.Close()
    | Closed     // before wg.Done()
    | Gone

  datatype Conn = Conn(owner: nat, phase: Phase)

  /** One acceptor. `held` records how many slots were held when it incremented connCount. */
  datatype APc =
    | Unborn
    | Checking                        // m.IsRunning()
    | Accepting                       // listener.Accept()
    | Adding                          // before connCount.Add(1)
    | Comparing(count: int, held: nat, admit: bool)
    | Undoing(held: nat)              // before connCount.Add(-1)
    | Rejecting                       // before conn.Close()
    | Registering                     // before wg.Add(1)
    | Spawning                        // before the go statement
    | Cancelling(failed: bool)        // deferred m.cancel(); did Accept fail?
    | Joining                         // deferred wg.Wait()
    | Leaving                         // before the outer wg.Done()
    | Off

  /** The goroutine started by Start. */
  datatype SupPc = NotStarted | Launching(i: nat) | Awaiting | Stopping | ClosingDone | Over

  datatype State = State(
    isRun: bool, ctxDone: bool, listenerClosed: bool,
    adds: int,  // net additions to connCount, which holds ToInt32(adds)
    outer: nat, sup: SupPc, doneCloses: nat,
    acc: seq<APc>, wg: seq<nat>, conns: seq<Conn>)

  /** Start treats a non-positive acceptAmount as 1; maxConnCount <= 0 means no limit. */
  datatype Config = Config(acceptAmount: int, max: int) {
    function N(): nat {
      if acceptAmount <= 0 then 1 else acceptAmount
    }

    ghost predicate Valid() {
      -MAX_INT32 - 1 <= max <= MAX_INT32
    }
  }

  function Init(cfg: Config): State {
    State(false, false, false, 0, 0, NotStarted, 0,
          seq(cfg.N(), _ => Unborn), seq(cfg.N(), _ => 0), [])
  }

  datatype AAct = Check | AcceptOk | AcceptErr | Add | Compare | Undo | Reject | Register | Spawn | Cancel | Join | Leave

  datatype Label =
    | Start | Launch | JoinAll | StopCheck | CloseDone
    | Acceptor(i: nat, a: AAct)
    | ConnStep(k: nat)
    | StopCancel | StopClose | CloserClose | ParentCancel | ListenerFails

  // ----- counting

  function HoldingAcc(a: APc): nat {
    if a.Registering? || a.Spawning? then 1 else 0
  }

  function HoldingConn(c: Conn): nat {
    if c.phase.Serving? || c.phase.Returned? then 1 else 0
  }

  /** Connections that hold a handler slot. */
  function Held(s: State): nat {
    Sum(HoldingAcc, s.acc) + Sum(HoldingConn, s.conns)
  }

  /** Acceptors between their Add(1) and their decision or undoing Add(-1). */
  function InFlightAcc(a: APc): nat {
    if a.Comparing? || a.Undoing? then 1 else 0
  }

  function InFlight(s: State): nat {
    Sum(InFlightAcc, s.acc)
  }

  /** Acceptors that hold a slot, or have a count within the limit and will take one. */
  function TakingAcc(a: APc): nat {
    if a.Registering? || a.Spawning? || (a.Comparing? && a.admit) then 1 else 0
  }

  function OnDuty(a: APc): nat {
    if a.Off? then 0 else 1
  }

  function LiveOwnedBy(i: nat): Conn -> nat {
    (c: Conn) => if c.owner == i && !c.phase.Gone? then 1 else 0
  }

  /** Goroutines of acceptor `i` that its WaitGroup still waits for. */
  function LiveOf(conns: seq<Conn>, i: nat): nat {
    Sum(LiveOwnedBy(i), conns)
  }

  // ----- steps

  function SetAcc(s: State, i: nat, a: APc): State
    requires i < |s.acc|
  {
    s.(acc := s.acc[i := a])
  }

  function AcceptorStep(cfg: Config, s: State, i: nat, act: AAct): Option<State> {
    if i >= |s.acc| || i >= |s.wg| then None
    else
      var a := s.acc[i];
      match act
      case Check =>
        if a.Checking? then Some(SetAcc(s, i, if s.isRun then Accepting else Cancelling(false))) else None
      case AcceptOk => if a.Accepting? && !s.listenerClosed then Some(SetAcc(s, i, Adding)) else None
      case AcceptErr => if a.Accepting? then Some(SetAcc(s, i, Cancelling(true))) else None
      case Add =>
        if a.Adding? then
          var count := ToInt32(s.adds + 1);
          Some(SetAcc(s, i, Comparing(count, Held(s), !(cfg.max > 0 && count > cfg.max))).(adds := s.adds + 1))
        else None
      case Compare =>
        if a.Comparing?
        then Some(SetAcc(s, i, if cfg.max > 0 && a.count > cfg.max then Undoing(a.held) else Registering))
        else None
      case Undo =>
        if a.Undoing? then Some(SetAcc(s, i, Rejecting).(adds := s.adds - 1)) else None
      case Reject => if a.Rejecting? then Some(SetAcc(s, i, Checking)) else None
      case Register => if a.Registering? then Some(SetAcc(s, i, Spawning).(wg := s.wg[i := s.wg[i] + 1])) else None
      case Spawn => if a.Spawning? then Some(SetAcc(s, i, Checking).(conns := s.conns + [Conn(i, Serving)])) else None
      case Cancel => if a.Cancelling? then Some(SetAcc(s, i, Joining).(ctxDone := true)) else None
      case Join => if a.Joining? && s.wg[i] == 0 then Some(SetAcc(s, i, Leaving)) else None
      case Leave => if a.Leaving? && s.outer > 0 then Some(SetAcc(s, i, Off).(outer := s.outer - 1)) else None
  }

  function NextPhase(p: Phase): Phase {
    match p
    case Serving => Returned
    case Returned => Counted
    case Counted => Closed
    case _ => Gone
  }

  /** The goroutine's deferred calls, last one first: connCount.Add(-1), conn.Close(), wg.Done(). */
  function ConnStepOf(s: State, k: nat): Option<State> {
    if k >= |s.conns| || s.conns[k].phase.Gone? then None
    else
      var c := s.conns[k];
      var s1 := s.(conns := s.conns[k := Conn(c.owner, NextPhase(c.phase))]);
      if c.phase.Returned? then Some(s1.(adds := s.adds - 1))
      else if !c.phase.Closed? then Some(s1)
      else if c.owner < |s.wg| && s.wg[c.owner] > 0 then Some(s1.(wg := s.wg[c.owner := s.wg[c.owner] - 1]))
      else None
  }

  function LaunchStep(s: State): Option<State> {
    if !s.sup.Launching? then None
    else if s.sup.i < |s.acc| then Some(SetAcc(s, s.sup.i, Checking).(sup := Launching(s.sup.i + 1)))
    else Some(s.(sup := Awaiting))
  }

  function Step(cfg: Config, s: State, l: Label): Option<State> {
    match l
    case Start =>
      // startOnce: later calls do nothing
      if s.sup.NotStarted? then Some(s.(isRun := true, outer := cfg.N(), sup := Launching(0))) else Some(s)
    case Launch =>
      LaunchStep(s)
    case JoinAll => if s.sup.Awaiting? && s.outer == 0 then Some(s.(sup := Stopping)) else None
    case StopCheck =>
      if !s.sup.Stopping? then None
      else if !s.isRun then Some(s.(sup := Over))
      else Some(s.(isRun := false, sup := ClosingDone))
    case CloseDone => if s.sup.ClosingDone? then Some(s.(sup := Over, doneCloses := s.doneCloses + 1)) else None
    case Acceptor(i, a) => AcceptorStep(cfg, s, i, a)
    case ConnStep(k) => ConnStepOf(s, k)
    case StopCancel => if s.sup.NotStarted? then None else Some(s.(ctxDone := true))
    case StopClose => if s.ctxDone then Some(s.(listenerClosed := true)) else None
    case CloserClose => if s.ctxDone && !s.sup.NotStarted? then Some(s.(listenerClosed := true)) else None
    case ParentCancel => if s.sup.NotStarted? then None else Some(s.(ctxDone := true))
    case ListenerFails => Some(s.(listenerClosed := true))
  }

  function Run(cfg: Config, s: State, ls: seq<Label>): Option<State>
    decreases |ls|
  {
    if ls == [] then Some(s)
    else match Step(cfg, s, ls[0])
      case None => None
      case Some(t) => Run(cfg, t, ls[1..])
  }

  ghost predicate Reachable(cfg: Config, s: State) {
    exists ls :: Run(cfg, Init(cfg), ls) == Some(s)
  }
}
