// The server together with the connections it serves: what `done` says about their tasks.
module Fleet {
  import opened Bytes
  import opened Errors
  import opened Codec
  import E = Endpoint
  import C = Connection
  import S = Server
  import Admission
  import Outcome
  import Reports
  import ServerStop
  import Ending

  datatype Setup = Setup(cfg: S.Config, max: uint32)

  /** The k-th endpoint belongs to the goroutine of the k-th admitted connection. */
  datatype State = State(server: S.State, ends: seq<E.State>)

  datatype Move = AtServer(sl: S.Label) | AtEnd(k: nat, el: E.Label)

  function Init(cf: Setup): State {
    State(S.Init(cf.cfg), [])
  }

  /** handlerTcpConn returns behind ConnErr only. */
  predicate Allowed(f: State, l: S.Label) {
    l.ConnStep? ==>
      && l.k < |f.ends| && l.k < |f.server.conns|
      && (f.server.conns[l.k].phase.Serving? ==> f.ends[l.k].life.wait.Reported?)
  }

  function Closed(e: E.State): E.State {
    e.(flags := e.flags.(closed := true, closedOutside := true))
  }

  /** A new goroutine brings an endpoint, and its deferred conn.Close() closes the transport. */
  function Follow(f: State, l: S.Label): seq<E.State>
    requires Allowed(f, l)
  {
    match l
    case Acceptor(_, Spawn) => f.ends + [E.INIT]
    case ConnStep(k) => if f.server.conns[k].phase.Counted? then f.ends[k := Closed(f.ends[k])] else f.ends
    case _ => f.ends
  }

  function Step(cf: Setup, f: State, m: Move): Option<State> {
    match m
    case AtServer(l) =>
      if !Allowed(f, l) then None
      else (match S.Step(cf.cfg, f.server, l)
            case Some(t) => Some(State(t, Follow(f, l)))
            case None => None)
    case AtEnd(k, l) =>
      // the parent of a connection's context is the server's
      if k >= |f.ends| || (l == E.Env(E.ParentCancel) && !f.server.ctxDone) then None
      else (match E.Step(cf.max, f.ends[k], l)
            case Some(e) => Some(f.(ends := f.ends[k := e]))
            case None => None)
  }

  function Run(cf: Setup, f: State, ms: seq<Move>): Option<State>
    decreases |ms|
  {
    if ms == [] then Some(f)
    else match Step(cf, f, ms[0])
      case None => None
      case Some(t) => Run(cf, t, ms[1..])
  }

  ghost predicate Reachable(cf: Setup, f: State) {
    exists ms :: Run(cf, Init(cf), ms) == Some(f)
  }

  // ----- what every run keeps

  ghost predicate EndInv(max: uint32, phase: S.Phase, e: E.State) {
    && C.Reachable(max, e)
    && (!e.life.wait.Watching? ==> e.flags.hDone)
    && (!phase.Serving? ==> e.life.wait.Reported?)
    && (phase.Closed? || phase.Gone? ==> e.flags.closed)
  }

  ghost predicate Inv(cf: Setup, f: State) {
    && S.Reachable(cf.cfg, f.server)
    && |f.ends| == |f.server.conns|
    && forall k :: 0 <= k < |f.ends| ==> EndInv(cf.max, f.server.conns[k].phase, f.ends[k])
  }

  lemma EndStepInv(max: uint32, phase: S.Phase, e: E.State, l: E.Label)
    requires EndInv(max, phase, e) && E.Step(max, e, l).Some?
    ensures EndInv(max, phase, E.Step(max, e, l).value)
  {
    C.ReachableStep(max, e, l);
    EndKeeps(max, e, l);
  }

  lemma EndKeeps(max: uint32, e: E.State, l: E.Label)
    requires E.Step(max, e, l).Some?
    ensures var t := E.Step(max, e, l).value;
      && (e.life.wait.Reported? ==> t.life.wait == e.life.wait)
      && (e.flags.closed ==> t.flags.closed) && (e.flags.hDone ==> t.flags.hDone)
      && (!t.life.wait.Watching? ==> !e.life.wait.Watching? || e.flags.hDone)
  {
    match l
    case Task(a) => TaskKeeps(e, a);
    case _ => OtherKeeps(max, e, l);
  }

  lemma TaskKeeps(e: E.State, a: E.TaskAct)
    requires E.TaskStep(e, a).Some?
    ensures var t := E.TaskStep(e, a).value;
      && t.flags == e.flags && (e.life.wait.Reported? ==> t.life.wait == e.life.wait)
      && (!t.life.wait.Watching? ==> !e.life.wait.Watching? || e.flags.hDone)
  {
  }

  lemma OtherKeeps(max: uint32, e: E.State, l: E.Label)
    requires E.Step(max, e, l).Some? && !l.Task?
    ensures Kept(e, E.Step(max, e, l).value)
  {
    match l
    case Send(a) => SendKeeps(max, e, a);
    case Read(a) => ReadKeeps(max, e, a);
    case _ =>
  }

  ghost predicate Kept(e: E.State, t: E.State) {
    && t.life.wait == e.life.wait
    && (e.flags.closed ==> t.flags.closed) && (e.flags.hDone ==> t.flags.hDone)
  }

  lemma SendKeeps(max: uint32, e: E.State, a: E.SendAct)
    requires E.SendStep(max, e, a).Some?
    ensures Kept(e, E.SendStep(max, e, a).value)
  {
  }

  lemma ReadKeeps(max: uint32, e: E.State, a: E.ReadAct)
    requires E.ReadStep(max, e, a).Some?
    ensures Kept(e, E.ReadStep(max, e, a).value)
  {
  }

  lemma InitEnd(max: uint32)
    ensures EndInv(max, S.Serving, E.INIT)
  {
    assert E.Run(max, E.INIT, []) == Some(E.INIT);
  }

  /** How the server's own step moves the goroutines of the connections. */
  lemma ServerConns(cf: Setup, f: State, l: S.Label)
    requires Step(cf, f, AtServer(l)).Some? && |f.ends| == |f.server.conns|
    ensures var t := Step(cf, f, AtServer(l)).value;
      && |t.ends| == |t.server.conns|
      && match l
         case Acceptor(_, Spawn) =>
           t.ends == f.ends + [E.INIT] && |t.server.conns| == |f.server.conns| + 1
           && t.server.conns[|f.ends|].phase == S.Serving
           && forall j :: 0 <= j < |f.ends| ==> t.server.conns[j] == f.server.conns[j]
         case ConnStep(k) =>
           && |t.ends| == |f.ends| && t.server.conns[k].phase == S.NextPhase(f.server.conns[k].phase)
           && !f.server.conns[k].phase.Gone?
           && forall j :: 0 <= j < |f.ends| && j != k ==>
                t.server.conns[j] == f.server.conns[j] && t.ends[j] == f.ends[j]
         case _ => t.ends == f.ends && t.server.conns == f.server.conns
  {
    match l
    case Acceptor(_, Spawn) =>
    case ConnStep(_) =>
    case _ => OtherConns(cf, f.server, l);
  }

  lemma OtherConns(cf: Setup, s: S.State, l: S.Label)
    requires S.Step(cf.cfg, s, l).Some? && !l.ConnStep? && !(l.Acceptor? && l.a.Spawn?)
    ensures S.Step(cf.cfg, s, l).value.conns == s.conns
  {
  }

  lemma ConnEnd(cf: Setup, f: State, k: nat)
    requires Inv(cf, f) && Step(cf, f, AtServer(S.ConnStep(k))).Some?
    ensures var t := Step(cf, f, AtServer(S.ConnStep(k))).value;
            k < |t.ends| == |t.server.conns| && EndInv(cf.max, t.server.conns[k].phase, t.ends[k])
  {
    assert EndInv(cf.max, f.server.conns[k].phase, f.ends[k]);
    if f.server.conns[k].phase.Counted? {
      EndStepInv(cf.max, f.server.conns[k].phase, f.ends[k], E.Env(E.OutsideClose));
    }
  }

  lemma StepInv(cf: Setup, f: State, m: Move)
    requires Inv(cf, f) && Step(cf, f, m).Some?
    ensures Inv(cf, Step(cf, f, m).value)
  {
    var t := Step(cf, f, m).value;
    match m
    case AtEnd(k, l) => EndStepInv(cf.max, f.server.conns[k].phase, f.ends[k], l);
    case AtServer(l) =>
      var _ := Admission.Next(cf.cfg, f.server, l);
      ServerConns(cf, f, l);
      InitEnd(cf.max);
      if l.ConnStep? {
        ConnEnd(cf, f, l.k);
      }
      forall k | 0 <= k < |t.ends|
        ensures EndInv(cf.max, t.server.conns[k].phase, t.ends[k])
      {
        if k < |f.ends| {
          assert EndInv(cf.max, f.server.conns[k].phase, f.ends[k]);
        }
      }
  }

  lemma {:induction false} RunInv(cf: Setup, f: State, ms: seq<Move>)
    requires Inv(cf, f) && Run(cf, f, ms).Some?
    ensures Inv(cf, Run(cf, f, ms).value)
    decreases |ms|
  {
    if ms != [] {
      StepInv(cf, f, ms[0]);
      RunInv(cf, Step(cf, f, ms[0]).value, ms[1..]);
    }
  }

  lemma ReachableInv(cf: Setup, f: State)
    requires Reachable(cf, f)
    ensures Inv(cf, f)
  {
    var ms :| Run(cf, Init(cf), ms) == Some(f);
    assert S.Run(cf.cfg, S.Init(cf.cfg), []) == Some(S.Init(cf.cfg));
    RunInv(cf, Init(cf), ms);
  }

  // ----- behind `done`

  predicate TasksGone(e: E.State) {
    e.life.begin.BeginGone? && e.inp.pc.ReadGone? && e.out.pc.SendGone?
  }

  /**
   * Behind `done` every connection has been reported through ConnErr, with the first error
   * that was reported if there was one by then; its context is cancelled and its transport
   * closed, and its three tasks are gone if its StopWithTimeout did not time out.
   */
  lemma DoneMeansReported(cf: Setup, f: State, k: nat)
    requires Reachable(cf, f) && f.server.doneCloses == 1 && k < |f.ends|
    ensures var e := f.ends[k];
      && k < |f.server.conns| && f.server.conns[k].phase.Gone?
      && e.life.wait.Reported? && e.flags.hDone && e.flags.closed
      && (e.life.wait.err.Some? ==> e.errs.reports != [] && e.life.wait.err == Some(e.errs.reports[0]))
      && (e.life.wait.token ==> TasksGone(e) && e.life.wait.err.Some?)
  {
    ReachableInv(cf, f);
    Admission.ShutdownComplete(cf.cfg, f.server);
    assert EndInv(cf.max, f.server.conns[k].phase, f.ends[k]);
    var ls :| E.Run(cf.max, E.INIT, ls) == Some(f.ends[k]);
    Reports.ConnErrGetsFirst(cf.max, ls);
    if f.ends[k].life.wait.token {
      C.CleanShutdown(cf.max, f.ends[k]);
    }
  }

  /** What the fleet does to one connection is a run of that connection. */
  lemma {:induction false} Projects(cf: Setup, f: State, ms: seq<Move>, k: nat) returns (ls: seq<E.Label>)
    requires k < |f.ends| && Run(cf, f, ms).Some?
    ensures k < |Run(cf, f, ms).value.ends|
    ensures E.Run(cf.max, f.ends[k], ls) == Some(Run(cf, f, ms).value.ends[k])
    decreases |ms|
  {
    ls := [];
    if ms != [] {
      var t := Step(cf, f, ms[0]).value;
      var first := OneLabel(cf, f, ms[0], k);
      var more := Projects(cf, t, ms[1..], k);
      ls := first + more;
      C.RunAppend(cf.max, f.ends[k], first, more);
    }
  }

  lemma OneLabel(cf: Setup, f: State, m: Move, k: nat) returns (ls: seq<E.Label>)
    requires k < |f.ends| && Step(cf, f, m).Some?
    ensures var t := Step(cf, f, m).value; k < |t.ends| && E.Run(cf.max, f.ends[k], ls) == Some(t.ends[k])
  {
    var t := Step(cf, f, m).value;
    ls := match m
      case AtEnd(j, l) => if j == k then [l] else []
      case AtServer(l) =>
        if l.ConnStep? && l.k == k && f.server.conns[k].phase.Counted? then [E.Env(E.OutsideClose)] else [];
    if ls != [] {
      assert E.Run(cf.max, f.ends[k], ls) == E.Step(cf.max, f.ends[k], ls[0]);
    }
  }

  /**
   * Whatever still runs behind `done` cannot do much: in every continuation no connection puts
   * a byte on the wire any more, and each send loop dequeues at most one further message.
   */
  lemma NothingSentBehindDone(cf: Setup, f: State, ms: seq<Move>, k: nat)
    requires Reachable(cf, f) && f.server.doneCloses == 1 && k < |f.ends| && Run(cf, f, ms).Some?
    ensures var t := Run(cf, f, ms).value;
      && k < |t.ends| && t.ends[k].out.wire == f.ends[k].out.wire
      && |t.ends[k].chan.processed| <= |f.ends[k].chan.processed| + 1
  {
    ReachableInv(cf, f);
    DoneMeansReported(cf, f, k);
    assert EndInv(cf.max, f.server.conns[k].phase, f.ends[k]);
    var ls := Projects(cf, f, ms, k);
    Outcome.ClosedTransportNeverSends(cf.max, f.ends[k], ls, |f.ends[k].calls|);
    Ending.DrainBound(cf.max, f.ends[k], ls);
  }

  // ----- a handler may outlive `done`

  lemma Next(cf: Setup, f: State, m: Move) returns (t: State)
    requires Reachable(cf, f) && Step(cf, f, m).Some?
    ensures Reachable(cf, t) && t == Step(cf, f, m).value
  {
    t := Step(cf, f, m).value;
    assert Run(cf, f, [m]) == Step(cf, f, m);
    ReachableRun(cf, f, [m]);
  }

  function Moves(k: nat, ls: seq<E.Label>): seq<Move> {
    seq(|ls|, i requires 0 <= i < |ls| => AtEnd(k, ls[i]))
  }

  /** Once the server's context is cancelled, a connection can do in the fleet whatever it can do. */
  lemma {:induction false} Lift(cf: Setup, f: State, k: nat, ls: seq<E.Label>)
    requires f.server.ctxDone && k < |f.ends| && E.Run(cf.max, f.ends[k], ls).Some?
    ensures Run(cf, f, Moves(k, ls)) == Some(f.(ends := f.ends[k := E.Run(cf.max, f.ends[k], ls).value]))
    decreases |ls|
  {
    if ls != [] {
      var t := Step(cf, f, AtEnd(k, ls[0])).value;
      Lift(cf, t, k, ls[1..]);
      assert Moves(k, ls)[1..] == Moves(k, ls[1..]);
      assert t.ends[k := E.Run(cf.max, t.ends[k], ls[1..]).value] == f.ends[k := E.Run(cf.max, f.ends[k], ls).value];
    } else {
      assert f.ends[k := f.ends[k]] == f.ends;
    }
  }

  lemma {:induction false} RunAppend(cf: Setup, f: State, xs: seq<Move>, ys: seq<Move>)
    ensures Run(cf, f, xs + ys) == match Run(cf, f, xs) case None => None case Some(t) => Run(cf, t, ys)
    decreases |xs|
  {
    if xs == [] {
      assert xs + ys == ys;
    } else {
      assert (xs + ys)[0] == xs[0] && (xs + ys)[1..] == xs[1..] + ys;
      if Step(cf, f, xs[0]).Some? {
        RunAppend(cf, Step(cf, f, xs[0]).value, xs[1..], ys);
      }
    }
  }

  lemma ReachableRun(cf: Setup, f: State, ms: seq<Move>)
    requires Reachable(cf, f) && Run(cf, f, ms).Some?
    ensures Reachable(cf, Run(cf, f, ms).value)
  {
    var front :| Run(cf, Init(cf), front) == Some(f);
    RunAppend(cf, Init(cf), front, ms);
    assert Run(cf, Init(cf), front + ms) == Run(cf, f, ms);
  }

  /** A connection whose StopWithTimeout timed out, with a handler that has not returned. */
  predicate TimedOutInHandler(e: E.State) {
    e.life.wait == E.Reported(false, None, false) && e.inp.pc.Handling?
  }

  /** The header of an empty message is read at once. */
  lemma ReadEmpty(max: uint32, r: E.In, frame: seq<byte>)
    requires r == E.In(E.InHeader([]), frame, 0, [], None) && frame == Encode(Message(0, []))
    ensures E.TakeBytes(max, r, HEADER).Some? && E.TakeBytes(max, r, HEADER).value.pc.Handling?
  {
    GetPut(0);
    assert frame[4..8] == PutUint32(0);
    assert [] + frame[0..HEADER] == frame;
  }

  /** A message has been handed to a handler. */
  lemma HandlerRuns(max: uint32) returns (e: E.State)
    ensures C.Reachable(max, e) && e.inp.pc.Handling?
    ensures e.life.built == 3 && e.life.wait.Watching? && e.errs == E.INIT.errs && !e.flags.closed
  {
    var frame := Encode(Message(0, []));
    e := C.Selected(max);
    e := C.Next(max, e, E.Env(E.Arrive(frame)));
    assert e.inp.received == frame;
    ReadEmpty(max, e.inp, frame);
    e := C.Next(max, e, E.Read(E.ReadSome(HEADER)));
  }

  lemma StopWaits(max: uint32) returns (e: E.State)
    ensures C.Reachable(max, e) && e.inp.pc.Handling?
    ensures e.life.wait.Waiting? && e.errs == E.INIT.errs && !e.flags.closed
  {
    e := HandlerRuns(max);
    C.ReachableInv(max, e);
    e := C.Next(max, e, E.Env(E.ParentCancel));
    e := C.Next(max, e, E.Task(E.StopTasks));
  }

  lemma HandlerTimesOut(max: uint32) returns (e: E.State)
    ensures C.Reachable(max, e) && TimedOutInHandler(e)
  {
    e := StopWaits(max);
    e := C.Next(max, e, E.Task(E.TimeOut));
    e := C.Next(max, e, E.Task(E.Report));
  }

  /** The only acceptor at a program counter, behind `adds` additions, while the server runs. */
  function Alone(cancelled: bool, adds: int, pc: S.APc, wg: nat, conns: seq<S.Conn>): S.State {
    S.State(true, cancelled, false, adds, 1, S.Awaiting, 0, [pc], [wg], conns)
  }

  /** ... with the one connection in a phase, behind the cancellation. */
  function Served(adds: int, wg: nat, phase: S.Phase): S.State {
    Alone(true, adds, S.Checking, wg, [S.Conn(0, phase)])
  }

  lemma AloneSet(cancelled: bool, adds: int, pc: S.APc, wg: nat, conns: seq<S.Conn>, pc': S.APc)
    ensures S.SetAcc(Alone(cancelled, adds, pc, wg, conns), 0, pc') == Alone(cancelled, adds, pc', wg, conns)
  {
    assert [pc][0 := pc'] == [pc'];
  }

  /** One action of the only acceptor leads the server to `to` and touches no connection. */
  lemma Acts(cf: Setup, f: State, a: S.AAct, to: S.State) returns (t: State)
    requires Reachable(cf, f) && !a.Spawn? && S.AcceptorStep(cf.cfg, f.server, 0, a) == Some(to)
    ensures Reachable(cf, t) && t.ends == f.ends && t.server == to
  {
    t := Next(cf, f, AtServer(S.Acceptor(0, a)));
  }

  /** The one acceptor is running. */
  lemma Started(max: uint32) returns (f: State)
    ensures Reachable(Setup(S.Config(1, 0), max), f) && f.ends == []
    ensures f.server == Alone(false, 0, S.Checking, 0, [])
  {
    var cf := Setup(S.Config(1, 0), max);
    assert Run(cf, Init(cf), []) == Some(Init(cf));
    f := Next(cf, Init(cf), AtServer(S.Start));
    f := Next(cf, f, AtServer(S.Launch));
    f := Next(cf, f, AtServer(S.Launch));
  }

  lemma AdmitSteps(cfg: S.Config)
    requires cfg.max == 0
    ensures S.AcceptorStep(cfg, Alone(false, 0, S.Checking, 0, []), 0, S.Check) == Some(Alone(false, 0, S.Accepting, 0, []))
    ensures S.AcceptorStep(cfg, Alone(false, 0, S.Accepting, 0, []), 0, S.AcceptOk) == Some(Alone(false, 0, S.Adding, 0, []))
    ensures S.AcceptorStep(cfg, Alone(false, 0, S.Adding, 0, []), 0, S.Add)
            == Some(Alone(false, 1, S.Comparing(1, 0, true), 0, []))
    ensures S.AcceptorStep(cfg, Alone(false, 1, S.Comparing(1, 0, true), 0, []), 0, S.Compare)
            == Some(Alone(false, 1, S.Registering, 0, []))
    ensures S.AcceptorStep(cfg, Alone(false, 1, S.Registering, 0, []), 0, S.Register)
            == Some(Alone(false, 1, S.Spawning, 1, []))
  {
    AloneSet(false, 0, S.Checking, 0, [], S.Accepting);
    AloneSet(false, 0, S.Accepting, 0, [], S.Adding);
    AloneSet(false, 0, S.Adding, 0, [], S.Comparing(1, 0, true));
    AloneSet(false, 1, S.Comparing(1, 0, true), 0, [], S.Registering);
    AloneSet(false, 1, S.Registering, 0, [], S.Spawning);
    assert [0 as nat][0 := 1] == [1];
  }

  /** It has admitted a connection, and Stop has cancelled the context. */
  lemma AdmittedAndCancelled(max: uint32) returns (f: State)
    ensures Reachable(Setup(S.Config(1, 0), max), f) && f.ends == [E.INIT]
    ensures f.server == Served(1, 1, S.Serving)
  {
    var cf := Setup(S.Config(1, 0), max);
    f := Started(max);
    AdmitSteps(cf.cfg);
    f := Acts(cf, f, S.Check, Alone(false, 0, S.Accepting, 0, []));
    f := Acts(cf, f, S.AcceptOk, Alone(false, 0, S.Adding, 0, []));
    f := Acts(cf, f, S.Add, Alone(false, 1, S.Comparing(1, 0, true), 0, []));
    f := Acts(cf, f, S.Compare, Alone(false, 1, S.Registering, 0, []));
    f := Acts(cf, f, S.Register, Alone(false, 1, S.Spawning, 1, []));
    f := SpawnAndCancel(cf, f);
  }

  lemma SpawnAndCancel(cf: Setup, f: State) returns (t: State)
    requires Reachable(cf, f) && f.server == Alone(false, 1, S.Spawning, 1, []) && f.ends == []
    ensures Reachable(cf, t) && t.ends == [E.INIT]
    ensures t.server == Served(1, 1, S.Serving)
  {
    AloneSet(false, 1, S.Spawning, 1, [], S.Checking);
    t := Next(cf, f, AtServer(S.Acceptor(0, S.Spawn)));
    t := Next(cf, t, AtServer(S.StopCancel));
  }

  lemma ConnSteps()
    ensures S.ConnStepOf(Served(1, 1, S.Serving), 0) == Some(Served(1, 1, S.Returned))
    ensures S.ConnStepOf(Served(1, 1, S.Returned), 0) == Some(Served(0, 1, S.Counted))
    ensures S.ConnStepOf(Served(0, 1, S.Counted), 0) == Some(Served(0, 1, S.Closed))
    ensures S.ConnStepOf(Served(0, 1, S.Closed), 0) == Some(Served(0, 0, S.Gone))
  {
    assert forall p, q :: [S.Conn(0, p)][0 := S.Conn(0, q)] == [S.Conn(0, q)];
    assert [1 as nat][0 := 0] == [0];
  }

  /** The goroutine of the one connection returns from handlerTcpConn and ends. */
  lemma ConnectionEnds(cf: Setup, f: State) returns (t: State)
    requires Reachable(cf, f) && |f.ends| == 1 && f.ends[0].life.wait.Reported?
    requires f.server == Served(1, 1, S.Serving)
    ensures Reachable(cf, t) && t.ends == [Closed(f.ends[0])] && t.server == Served(0, 0, S.Gone)
  {
    ConnSteps();
    t := Next(cf, f, AtServer(S.ConnStep(0)));
    t := Next(cf, t, AtServer(S.ConnStep(0)));
    t := Next(cf, t, AtServer(S.ConnStep(0)));
    t := Next(cf, t, AtServer(S.ConnStep(0)));
  }

  lemma EndSteps(cfg: S.Config, c: seq<S.Conn>)
    ensures S.AcceptorStep(cfg, Alone(true, 0, S.Checking, 0, c), 0, S.Check) == Some(Alone(true, 0, S.Accepting, 0, c))
    ensures S.AcceptorStep(cfg, Alone(true, 0, S.Accepting, 0, c), 0, S.AcceptErr)
            == Some(Alone(true, 0, S.Cancelling(true), 0, c))
    ensures S.AcceptorStep(cfg, Alone(true, 0, S.Cancelling(true), 0, c), 0, S.Cancel)
            == Some(Alone(true, 0, S.Joining, 0, c))
    ensures S.AcceptorStep(cfg, Alone(true, 0, S.Joining, 0, c), 0, S.Join) == Some(Alone(true, 0, S.Leaving, 0, c))
    ensures S.AcceptorStep(cfg, Alone(true, 0, S.Leaving, 0, c), 0, S.Leave)
            == Some(Alone(true, 0, S.Off, 0, c).(outer := 0))
  {
    AloneSet(true, 0, S.Checking, 0, c, S.Accepting);
    AloneSet(true, 0, S.Accepting, 0, c, S.Cancelling(true));
    AloneSet(true, 0, S.Cancelling(true), 0, c, S.Joining);
    AloneSet(true, 0, S.Joining, 0, c, S.Leaving);
    AloneSet(true, 0, S.Leaving, 0, c, S.Off);
  }

  /** The acceptor leaves its loop and ends. */
  lemma AcceptorEnds(cf: Setup, f: State) returns (t: State)
    requires Reachable(cf, f) && f.server == Served(0, 0, S.Gone)
    ensures Reachable(cf, t) && t.ends == f.ends
    ensures t.server == f.server.(outer := 0, acc := [S.Off])
  {
    var c := [S.Conn(0, S.Gone)];
    EndSteps(cf.cfg, c);
    t := Acts(cf, f, S.Check, Alone(true, 0, S.Accepting, 0, c));
    t := Acts(cf, t, S.AcceptErr, Alone(true, 0, S.Cancelling(true), 0, c));
    t := Acts(cf, t, S.Cancel, Alone(true, 0, S.Joining, 0, c));
    t := Acts(cf, t, S.Join, Alone(true, 0, S.Leaving, 0, c));
    t := Acts(cf, t, S.Leave, Alone(true, 0, S.Off, 0, c).(outer := 0));
  }

  /** Start's goroutine closes `done`. */
  lemma ServerEnds(cf: Setup, f: State) returns (t: State)
    requires Reachable(cf, f)
    requires f.server == Served(0, 0, S.Gone)
    ensures Reachable(cf, t) && t.ends == f.ends && t.server.doneCloses == 1
  {
    t := AcceptorEnds(cf, f);
    t := Next(cf, t, AtServer(S.JoinAll));
    t := Next(cf, t, AtServer(S.StopCheck));
    t := Next(cf, t, AtServer(S.CloseDone));
  }

  /**
   * `done` does not mean that nothing runs any more: with any message limit there is a run in
   * which it is closed while the handler of a connection that timed out has not returned.
   */
  lemma HandlerMayOutliveDone(max: uint32)
    ensures exists f :: Reachable(Setup(S.Config(1, 0), max), f) && f.server.doneCloses == 1
                        && |f.ends| == 1 && f.ends[0].inp.pc.Handling?
  {
    var cf := Setup(S.Config(1, 0), max);
    var f := AdmittedAndCancelled(max);
    var e := HandlerTimesOut(max);
    var ls :| E.Run(max, E.INIT, ls) == Some(e);
    Lift(cf, f, 0, ls);
    ReachableRun(cf, f, Moves(0, ls));
    f := Run(cf, f, Moves(0, ls)).value;
    f := ConnectionEnds(cf, f);
    f := ServerEnds(cf, f);
    assert Reachable(cf, f) && f.ends[0].inp.pc.Handling?;
  }

  // ----- Stop ends the fleet

  /** What brings a connection to its call of ConnErr: its context ends, and its wait times out. */
  function NextToReport(e: E.State): E.Label {
    match e.life.wait
    case Watching =>
      if e.life.built < 3 then E.Task(E.Build) else if !e.flags.hDone then E.Env(E.ParentCancel) else E.Task(E.StopTasks)
    case Waiting => E.Task(E.TimeOut)
    case _ => E.Task(E.Report)
  }

  function ToReport(e: E.State): nat {
    match e.life.wait
    case Watching => 4 + (if e.life.built <= 3 then 3 - e.life.built else 0) + (if e.flags.hDone then 0 else 1)
    case Waiting => 2
    case WaitOver(_) => 1
    case Reported(_, _, _) => 0
  }

  /** Neither loop, no handler and no caller has to do anything for this. */
  predicate Unhelped(l: E.Label) {
    l.Task? || l == E.Env(E.ParentCancel)
  }

  predicate UnhelpedMove(m: Move) {
    m.AtEnd? ==> Unhelped(m.el)
  }

  lemma ReportNearer(max: uint32, e: E.State)
    requires e.life.built <= 3 && !e.life.wait.Reported?
    ensures E.Step(max, e, NextToReport(e)).Some?
    ensures var t := E.Step(max, e, NextToReport(e)).value; t.life.built <= 3 && ToReport(t) < ToReport(e)
  {
  }

  lemma {:induction false} ReachesReport(max: uint32, e: E.State) returns (ls: seq<E.Label>)
    requires e.life.built <= 3
    ensures E.Run(max, e, ls).Some? && E.Run(max, e, ls).value.life.wait.Reported?
    ensures forall l :: l in ls ==> Unhelped(l)
    decreases ToReport(e)
  {
    ls := [];
    if !e.life.wait.Reported? {
      ReportNearer(max, e);
      var more := ReachesReport(max, E.Step(max, e, NextToReport(e)).value);
      ls := [NextToReport(e)] + more;
    }
  }

  /** A connection comes to its call of ConnErr while the server stands still. */
  lemma EndReports(cf: Setup, f: State, k: nat) returns (ms: seq<Move>)
    requires Reachable(cf, f) && f.server.ctxDone && k < |f.ends|
    ensures forall m :: m in ms ==> UnhelpedMove(m)
    ensures Run(cf, f, ms).Some?
    ensures var t := Run(cf, f, ms).value;
            t.server == f.server && |t.ends| == |f.ends| && t.ends[k].life.wait.Reported?
  {
    ReachableInv(cf, f);
    assert EndInv(cf.max, f.server.conns[k].phase, f.ends[k]);
    BuiltBound(cf.max, f.ends[k]);
    var ls := ReachesReport(cf.max, f.ends[k]);
    Lift(cf, f, k, ls);
    ms := Moves(k, ls);
  }

  lemma BuiltBound(max: uint32, e: E.State)
    requires C.Reachable(max, e)
    ensures e.life.built <= 3
  {
    C.ReachableInv(max, e);
  }

  /** The server's next action, behind what its connection has to do first. */
  lemma ServerMoves(cf: Setup, f: State, l: S.Label) returns (ms: seq<Move>)
    requires Reachable(cf, f) && f.server.ctxDone && ServerStop.Own(l) && S.Step(cf.cfg, f.server, l).Some?
    ensures Run(cf, f, ms).Some? && Run(cf, f, ms).value.server == S.Step(cf.cfg, f.server, l).value
    ensures forall m :: m in ms ==> UnhelpedMove(m)
  {
    ms := [];
    ReachableInv(cf, f);
    if l.ConnStep? {
      ms := EndReports(cf, f, l.k);
    }
    var t := Run(cf, f, ms).value;
    RunAppend(cf, f, ms, [AtServer(l)]);
    assert Run(cf, t, [AtServer(l)]) == Step(cf, t, AtServer(l));
    ms := ms + [AtServer(l)];
  }

  lemma NextOwn(cf: Setup, s: S.State) returns (l: S.Label)
    requires S.Reachable(cf.cfg, s) && !s.sup.NotStarted? && s.listenerClosed && s.ctxDone && s.doneCloses == 0
    ensures ServerStop.Own(l) && S.Step(cf.cfg, s, l).Some?
    ensures var t := S.Step(cf.cfg, s, l).value;
            !t.sup.NotStarted? && t.listenerClosed && t.ctxDone && ServerStop.Work(t) < ServerStop.Work(s)
  {
    l := ServerStop.StopProgress(cf.cfg, s);
    ServerStop.StopDecreases(cf.cfg, s, l);
    ServerStop.OwnStarted(cf.cfg, s, l);
  }

  /** What is left of the fleet's run once the listener is closed. */
  lemma {:induction false} RunsOut(cf: Setup, f: State) returns (ms: seq<Move>)
    requires Reachable(cf, f) && !f.server.sup.NotStarted? && f.server.listenerClosed && f.server.ctxDone
    ensures Run(cf, f, ms).Some? && Run(cf, f, ms).value.server.doneCloses == 1
    ensures forall m :: m in ms ==> UnhelpedMove(m)
    decreases ServerStop.Work(f.server)
  {
    ms := [];
    ReachableInv(cf, f);
    Admission.ShutdownComplete(cf.cfg, f.server);
    if f.server.doneCloses == 0 {
      var l := NextOwn(cf, f.server);
      ms := ServerMoves(cf, f, l);
      ReachableRun(cf, f, ms);
      var more := RunsOut(cf, Run(cf, f, ms).value);
      RunAppend(cf, f, ms, more);
      ms := ms + more;
    }
  }

  /**
   * Server.Stop works with connections in any state: the run can go on to the closing of
   * `done` without any further action of a send loop, a read loop, a handler or a caller,
   * because each connection's context ends and its StopWithTimeout times out.
   */
  lemma StopLeadsToDone(cf: Setup, f: State)
    requires Reachable(cf, f) && !f.server.sup.NotStarted?
    ensures exists ms :: DoneBehindStop(cf, f, ms)
  {
    var stop := [AtServer(S.StopCancel), AtServer(S.StopClose)];
    var s1 := Next(cf, f, stop[0]);
    var s2 := Next(cf, s1, stop[1]);
    assert stop[1..] == [stop[1]] && stop[1..][1..] == [];
    assert Run(cf, s1, stop[1..]) == Some(s2);
    assert Run(cf, f, stop) == Some(s2);
    var ms := RunsOut(cf, s2);
    RunAppend(cf, f, stop, ms);
    assert DoneBehindStop(cf, f, ms);
  }

  ghost predicate DoneBehindStop(cf: Setup, f: State, ms: seq<Move>) {
    var t := Run(cf, f, [AtServer(S.StopCancel), AtServer(S.StopClose)] + ms);
    (forall m :: m in ms ==> UnhelpedMove(m)) && t.Some? && t.value.server.doneCloses == 1
  }
}
