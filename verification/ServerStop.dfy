// What Server.Stop leads to: with the listener closed the server runs out of work, whatever
// connections are still served.
module ServerStop {
  import opened Bytes
  import opened Errors
  import opened Counting
  import opened Server
  import opened Admission

  /** How many actions an acceptor has left, the goroutine it may still start included. */
  function AccRank(a: APc): nat {
    match a
    case Adding => 14
    case Comparing(_, _, _) => 13
    case Registering => 12
    case Spawning => 11
    case Undoing(_) => 7
    case Rejecting => 6
    case Unborn => 6
    case Checking => 5
    case Accepting => 4
    case Cancelling(_) => 3
    case Joining => 2
    case Leaving => 1
    case Off => 0
  }

  function ConnRank(c: Conn): nat {
    match c.phase
    case Serving => 4
    case Returned => 3
    case Counted => 2
    case Closed => 1
    case Gone => 0
  }

  function SupRank(p: SupPc): nat {
    match p
    case NotStarted => 5
    case Launching(_) => 4
    case Awaiting => 3
    case Stopping => 2
    case ClosingDone => 1
    case Over => 0
  }

  /** All that is left to do once no connection is accepted any more. */
  function Work(s: State): nat {
    Sum(AccRank, s.acc) + Sum(ConnRank, s.conns) + SupRank(s.sup)
  }

  /** The server's own actions, as opposed to what is done to it. */
  predicate Own(l: Label) {
    l.Launch? || l.JoinAll? || l.StopCheck? || l.CloseDone? || l.Acceptor? || l.ConnStep?
  }

  lemma SpawnWorks(cfg: Config, s: State, i: nat)
    requires s.listenerClosed && AcceptorStep(cfg, s, i, Spawn).Some?
    ensures var t := AcceptorStep(cfg, s, i, Spawn).value; t.listenerClosed && Work(t) < Work(s)
  {
    SumUpdate(AccRank, s.acc, i, Checking);
    SumSnoc(ConnRank, s.conns, Conn(i, Serving));
  }

  lemma ActRank(cfg: Config, s: State, i: nat, a: AAct)
    requires s.listenerClosed && !a.Spawn? && AcceptorStep(cfg, s, i, a).Some?
    ensures var t := AcceptorStep(cfg, s, i, a).value;
      && t.listenerClosed && t.conns == s.conns && t.sup == s.sup
      && t.acc == s.acc[i := t.acc[i]] && AccRank(t.acc[i]) < AccRank(s.acc[i])
  {
  }

  lemma AcceptorWorks(cfg: Config, s: State, i: nat, a: AAct)
    requires s.listenerClosed && AcceptorStep(cfg, s, i, a).Some?
    ensures var t := AcceptorStep(cfg, s, i, a).value; t.listenerClosed && Work(t) < Work(s)
  {
    if a.Spawn? {
      SpawnWorks(cfg, s, i);
    } else {
      ActRank(cfg, s, i, a);
      SumUpdate(AccRank, s.acc, i, AcceptorStep(cfg, s, i, a).value.acc[i]);
    }
  }

  lemma ConnWorks(s: State, k: nat)
    requires ConnStepOf(s, k).Some?
    ensures var t := ConnStepOf(s, k).value; t.listenerClosed == s.listenerClosed && Work(t) < Work(s)
  {
    SumUpdate(ConnRank, s.conns, k, ConnStepOf(s, k).value.conns[k]);
  }

  lemma LaunchWorks(cfg: Config, s: State)
    requires LaunchInv(cfg, s) && LaunchStep(s).Some?
    ensures var t := LaunchStep(s).value; t.listenerClosed == s.listenerClosed && Work(t) < Work(s)
  {
    if s.sup.i < |s.acc| {
      SumUpdate(AccRank, s.acc, s.sup.i, Checking);
    }
  }

  /** With the listener closed, each of the server's own actions uses up a natural number. */
  lemma StopDecreases(cfg: Config, s: State, l: Label)
    requires Reachable(cfg, s) && s.listenerClosed && Own(l) && Step(cfg, s, l).Some?
    ensures Step(cfg, s, l).value.listenerClosed && Work(Step(cfg, s, l).value) < Work(s)
  {
    ReachableInv(cfg, s);
    match l
    case Acceptor(i, a) => AcceptorWorks(cfg, s, i, a);
    case ConnStep(k) => ConnWorks(s, k);
    case Launch => LaunchWorks(cfg, s);
    case _ =>
  }

  /** What an acceptor does next when Accept fails. */
  function NextAct(a: APc): AAct {
    match a
    case Checking => Check
    case Accepting => AcceptErr
    case Adding => Add
    case Comparing(_, _, _) => Compare
    case Undoing(_) => Undo
    case Rejecting => Reject
    case Registering => Register
    case Spawning => Spawn
    case Cancelling(_) => Cancel
    case Joining => Join
    case _ => Leave
  }

  lemma AcceptorGoesOn(cfg: Config, s: State, i: nat) returns (l: Label)
    requires Reachable(cfg, s) && i < |s.acc| && !s.acc[i].Off? && !s.acc[i].Unborn?
    ensures Own(l) && Step(cfg, s, l).Some?
  {
    ReachableInv(cfg, s);
    DefersReturn(cfg, s);
    if s.acc[i].Joining? && s.wg[i] > 0 {
      SumZero(LiveOwnedBy(i), s.conns);
      var k :| 0 <= k < |s.conns| && LiveOwnedBy(i)(s.conns[k]) > 0;
      l := ConnStep(k);
    } else {
      l := Acceptor(i, NextAct(s.acc[i]));
    }
  }

  /** Until `done` is closed some action of the server's own is enabled. */
  lemma StopProgress(cfg: Config, s: State) returns (l: Label)
    requires Reachable(cfg, s) && !s.sup.NotStarted? && s.doneCloses == 0
    ensures Own(l) && Step(cfg, s, l).Some?
  {
    ReachableInv(cfg, s);
    match s.sup
    case Launching(_) => l := Launch;
    case Awaiting =>
      if s.outer == 0 {
        l := JoinAll;
      } else {
        SumZero(OnDuty, s.acc);
        var i :| 0 <= i < |s.acc| && OnDuty(s.acc[i]) > 0;
        l := AcceptorGoesOn(cfg, s, i);
      }
    case Stopping => l := StopCheck;
    case _ => l := CloseDone;
  }

  /**
   * Stop cancels the context and closes the listener; from then on the server's own actions
   * lead to the closing of `done` in at most Work(s) steps, whatever it was doing.
   */
  lemma StopLeadsToDone(cfg: Config, s: State)
    requires Reachable(cfg, s) && !s.sup.NotStarted?
    ensures Step(cfg, s, StopCancel).Some? && Step(cfg, Step(cfg, s, StopCancel).value, StopClose).Some?
    ensures var t := Step(cfg, Step(cfg, s, StopCancel).value, StopClose).value;
            t.ctxDone && t.listenerClosed && exists ls :: |ls| <= Work(s) && ClosesDone(cfg, t, ls)
  {
    var s1 := Next(cfg, s, StopCancel);
    var t := Next(cfg, s1, StopClose);
    var ls := RunsOut(cfg, t);
    assert ClosesDone(cfg, t, ls);
  }

  ghost predicate ClosesDone(cfg: Config, s: State, ls: seq<Label>) {
    var t := Run(cfg, s, ls);
    (forall l :: l in ls ==> Own(l)) && t.Some? && t.value.doneCloses == 1
  }

  lemma OwnStarted(cfg: Config, s: State, l: Label)
    requires Own(l) && Step(cfg, s, l).Some? && !s.sup.NotStarted?
    ensures !Step(cfg, s, l).value.sup.NotStarted? && (s.ctxDone ==> Step(cfg, s, l).value.ctxDone)
  {
  }

  lemma {:induction false} RunsOut(cfg: Config, s: State) returns (ls: seq<Label>)
    requires Reachable(cfg, s) && !s.sup.NotStarted? && s.listenerClosed
    ensures |ls| <= Work(s) && ClosesDone(cfg, s, ls)
    decreases Work(s)
  {
    ls := [];
    ShutdownComplete(cfg, s);
    if s.doneCloses == 0 {
      var l := StopProgress(cfg, s);
      StopDecreases(cfg, s, l);
      OwnStarted(cfg, s, l);
      var t := Next(cfg, s, l);
      var more := RunsOut(cfg, t);
      ls := [l] + more;
    }
  }
}
