// What every run of the server keeps: the connection limit, bounded refusals, and a complete shutdown.
module Admission {
  import opened Bytes
  import opened Errors
  import opened Counting
  import opened Server

  // ----- the counter

  /** connCount counts the held slots plus the optimistic increments. */
  ghost predicate CountInv(cfg: Config, s: State) {
    && |s.acc| == |s.wg| == cfg.N()
    && s.adds == Held(s) + InFlight(s)
    && forall i :: 0 <= i < |s.acc| ==> Judged(cfg, s.acc[i])
  }

  /** A refusal is decided on a count over the limit, taken when enough slots were held. */
  ghost predicate Judged(cfg: Config, a: APc) {
    match a
    case Comparing(count, held, admit) =>
      && admit == !(cfg.max > 0 && count > cfg.max)
      && (!admit ==> held >= cfg.max + 1 - cfg.N())
    case Undoing(held) => cfg.max > 0 && held >= cfg.max + 1 - cfg.N()
    case _ => true
  }

  /** Adding to the wrapped counter is adding to `adds`. */
  lemma WrapAdd(n: int, d: int)
    ensures ToInt32(ToInt32(n) + d) == ToInt32(n + d)
  {
  }

  lemma WrapBelow(n: nat)
    ensures ToInt32(n) <= n
    ensures n <= MAX_INT32 ==> ToInt32(n) == n
  {
  }

  /** How the counts move when one acceptor moves. */
  lemma AccCounts(acc: seq<APc>, i: nat, a: APc)
    requires i < |acc|
    ensures Sum(HoldingAcc, acc[i := a]) + HoldingAcc(acc[i]) == Sum(HoldingAcc, acc) + HoldingAcc(a)
    ensures Sum(InFlightAcc, acc[i := a]) + InFlightAcc(acc[i]) == Sum(InFlightAcc, acc) + InFlightAcc(a)
    ensures Sum(TakingAcc, acc[i := a]) + TakingAcc(acc[i]) == Sum(TakingAcc, acc) + TakingAcc(a)
    ensures Sum(OnDuty, acc[i := a]) + OnDuty(acc[i]) == Sum(OnDuty, acc) + OnDuty(a)
  {
    SumUpdate(HoldingAcc, acc, i, a);
    SumUpdate(InFlightAcc, acc, i, a);
    SumUpdate(TakingAcc, acc, i, a);
    SumUpdate(OnDuty, acc, i, a);
  }

  lemma ConnCounts(conns: seq<Conn>, k: nat, c: Conn)
    requires k < |conns|
    ensures Sum(HoldingConn, conns[k := c]) + HoldingConn(conns[k]) == Sum(HoldingConn, conns) + HoldingConn(c)
  {
    SumUpdate(HoldingConn, conns, k, c);
  }

  /** An acceptor that has not counted yet leaves at most N - 1 increments in flight. */
  lemma InFlightBound(acc: seq<APc>, i: nat)
    requires i < |acc| && InFlightAcc(acc[i]) == 0
    ensures Sum(InFlightAcc, acc) < |acc|
  {
    SumBound(InFlightAcc, acc, i);
  }

  lemma AddCount(cfg: Config, s: State, i: nat)
    requires CountInv(cfg, s) && AcceptorStep(cfg, s, i, Add).Some?
    ensures CountInv(cfg, AcceptorStep(cfg, s, i, Add).value)
  {
    var s' := AcceptorStep(cfg, s, i, Add).value;
    AccCounts(s.acc, i, s'.acc[i]);
    InFlightBound(s.acc, i);
    WrapBelow(Held(s) + InFlight(s) + 1);
  }

  lemma AcceptorCount(cfg: Config, s: State, i: nat, act: AAct)
    requires CountInv(cfg, s) && AcceptorStep(cfg, s, i, act).Some?
    ensures CountInv(cfg, AcceptorStep(cfg, s, i, act).value)
  {
    match act
    case Add => AddCount(cfg, s, i);
    case Spawn => SpawnCount(cfg, s, i);
    case _ =>
      assert Judged(cfg, s.acc[i]);
      OtherAct(cfg, s, i, act);
      AccCounts(s.acc, i, AcceptorStep(cfg, s, i, act).value.acc[i]);
  }

  lemma SpawnCount(cfg: Config, s: State, i: nat)
    requires CountInv(cfg, s) && AcceptorStep(cfg, s, i, Spawn).Some?
    ensures CountInv(cfg, AcceptorStep(cfg, s, i, Spawn).value)
  {
    AccCounts(s.acc, i, Checking);
    SumSnoc(HoldingConn, s.conns, Conn(i, Serving));
  }

  /** The other actions keep the account of their own acceptor. */
  lemma OtherAct(cfg: Config, s: State, i: nat, a: AAct)
    requires !a.Add? && !a.Spawn? && AcceptorStep(cfg, s, i, a).Some? && Judged(cfg, s.acc[i])
    ensures var s' := AcceptorStep(cfg, s, i, a).value;
      && s'.acc == s.acc[i := s'.acc[i]] && |s'.wg| == |s.wg| && s'.conns == s.conns
      && s'.adds - s.adds == HoldingAcc(s'.acc[i]) + InFlightAcc(s'.acc[i]) - HoldingAcc(s.acc[i]) - InFlightAcc(s.acc[i])
      && Judged(cfg, s'.acc[i])
  {
  }

  lemma ConnStepCount(cfg: Config, s: State, k: nat)
    requires CountInv(cfg, s) && ConnStepOf(s, k).Some?
    ensures CountInv(cfg, ConnStepOf(s, k).value)
  {
    var s' := ConnStepOf(s, k).value;
    ConnCounts(s.conns, k, s'.conns[k]);
  }

  /** Launching an acceptor changes none of the counts. */
  lemma LaunchCounts(cfg: Config, s: State)
    requires LaunchInv(cfg, s) && LaunchStep(s).Some?
    ensures var s' := LaunchStep(s).value;
            && |s'.acc| == |s.acc|
            && Sum(HoldingAcc, s'.acc) == Sum(HoldingAcc, s.acc) && Sum(InFlightAcc, s'.acc) == Sum(InFlightAcc, s.acc)
            && Sum(TakingAcc, s'.acc) == Sum(TakingAcc, s.acc) && Sum(OnDuty, s'.acc) == Sum(OnDuty, s.acc)
  {
    if s.sup.i < |s.acc| {
      AccCounts(s.acc, s.sup.i, Checking);
    }
  }

  lemma StepCount(cfg: Config, s: State, l: Label)
    requires CountInv(cfg, s) && LaunchInv(cfg, s) && Step(cfg, s, l).Some?
    ensures CountInv(cfg, Step(cfg, s, l).value)
  {
    match l
    case Acceptor(i, a) => AcceptorCount(cfg, s, i, a);
    case ConnStep(k) => ConnStepCount(cfg, s, k);
    case Launch => LaunchCounts(cfg, s);
    case _ =>
  }

  // ----- the limit

  /** Slots held, plus acceptors that will take one. */
  function Taking(s: State): nat {
    Sum(TakingAcc, s.acc) + Sum(HoldingConn, s.conns)
  }

  ghost predicate CapInv(cfg: Config, s: State) {
    && Taking(s) <= cfg.max
    && forall i :: 0 <= i < |s.acc| ==> FoundAtMost(cfg, s.acc[i])
  }

  ghost predicate FoundAtMost(cfg: Config, a: APc) {
    (a.Comparing? || a.Undoing?) ==> a.held <= cfg.max
  }

  lemma TakingBounds(s: State)
    ensures Held(s) <= Taking(s) <= Held(s) + InFlight(s)
  {
    SumLe(TakingAcc, HoldingAcc, InFlightAcc, s.acc);
    SumLe(HoldingAcc, TakingAcc, (a: APc) => 0, s.acc);
    SumZero((a: APc) => 0, s.acc);
  }

  lemma AddCap(cfg: Config, s: State, i: nat)
    requires 0 < cfg.max && cfg.max + cfg.N() <= MAX_INT32
    requires CountInv(cfg, s) && CapInv(cfg, s) && AcceptorStep(cfg, s, i, Add).Some?
    ensures CapInv(cfg, AcceptorStep(cfg, s, i, Add).value)
  {
    var s' := AcceptorStep(cfg, s, i, Add).value;
    AccCounts(s.acc, i, s'.acc[i]);
    TakingBounds(s);
    InFlightBound(s.acc, i);
    WrapBelow(s.adds + 1);
  }

  lemma SpawnCap(cfg: Config, s: State, i: nat)
    requires CapInv(cfg, s) && AcceptorStep(cfg, s, i, Spawn).Some?
    ensures CapInv(cfg, AcceptorStep(cfg, s, i, Spawn).value)
  {
    AccCounts(s.acc, i, Checking);
    SumSnoc(HoldingConn, s.conns, Conn(i, Serving));
  }

  lemma AcceptorCap(cfg: Config, s: State, i: nat, a: AAct)
    requires 0 < cfg.max && cfg.max + cfg.N() <= MAX_INT32
    requires CountInv(cfg, s) && CapInv(cfg, s) && AcceptorStep(cfg, s, i, a).Some?
    ensures CapInv(cfg, AcceptorStep(cfg, s, i, a).value)
  {
    match a
    case Add => AddCap(cfg, s, i);
    case Spawn => SpawnCap(cfg, s, i);
    case _ =>
      assert Judged(cfg, s.acc[i]) && FoundAtMost(cfg, s.acc[i]);
      OtherTaking(cfg, s, i, a);
      AccCounts(s.acc, i, AcceptorStep(cfg, s, i, a).value.acc[i]);
  }

  /** No other action of an acceptor takes a slot or records what it found. */
  lemma OtherTaking(cfg: Config, s: State, i: nat, a: AAct)
    requires !a.Add? && !a.Spawn? && AcceptorStep(cfg, s, i, a).Some? && Judged(cfg, s.acc[i])
    ensures var s' := AcceptorStep(cfg, s, i, a).value;
      && s'.acc == s.acc[i := s'.acc[i]] && s'.conns == s.conns
      && TakingAcc(s'.acc[i]) <= TakingAcc(s.acc[i])
      && (FoundAtMost(cfg, s.acc[i]) ==> FoundAtMost(cfg, s'.acc[i]))
  {
  }

  lemma StepCap(cfg: Config, s: State, l: Label)
    requires 0 < cfg.max && cfg.max + cfg.N() <= MAX_INT32
    requires CountInv(cfg, s) && LaunchInv(cfg, s) && CapInv(cfg, s) && Step(cfg, s, l).Some?
    ensures CapInv(cfg, Step(cfg, s, l).value)
  {
    match l
    case Acceptor(i, a) => AcceptorCap(cfg, s, i, a);
    case ConnStep(k) => ConnCap(cfg, s, k);
    case Launch => LaunchCap(cfg, s);
    case _ =>
      var s' := Step(cfg, s, l).value;
      assert s'.acc == s.acc && s'.conns == s.conns;
  }

  lemma ConnCap(cfg: Config, s: State, k: nat)
    requires CapInv(cfg, s) && ConnStepOf(s, k).Some?
    ensures CapInv(cfg, ConnStepOf(s, k).value)
  {
    ConnCounts(s.conns, k, ConnStepOf(s, k).value.conns[k]);
  }

  lemma LaunchCap(cfg: Config, s: State)
    requires LaunchInv(cfg, s) && CapInv(cfg, s) && LaunchStep(s).Some?
    ensures CapInv(cfg, LaunchStep(s).value)
  {
    LaunchCounts(cfg, s);
  }

  // ----- shutdown

  /** Acceptors are launched in order; before that they do nothing. */
  ghost predicate LaunchInv(cfg: Config, s: State) {
    && |s.acc| == |s.wg| == cfg.N()
    && (s.sup.Launching? ==> s.sup.i <= |s.acc|)
    && forall j :: 0 <= j < |s.acc| ==>
         (s.acc[j].Unborn? <==> s.sup.NotStarted? || (s.sup.Launching? && s.sup.i <= j))
  }

  lemma AcceptorBorn(cfg: Config, s: State, i: nat, a: AAct)
    requires AcceptorStep(cfg, s, i, a).Some?
    ensures var s' := AcceptorStep(cfg, s, i, a).value;
            && s'.acc == s.acc[i := s'.acc[i]] && |s'.wg| == |s.wg| && s'.sup == s.sup
            && !s.acc[i].Unborn? && !s'.acc[i].Unborn?
  {
  }

  lemma StepLaunch(cfg: Config, s: State, l: Label)
    requires LaunchInv(cfg, s) && Step(cfg, s, l).Some?
    ensures LaunchInv(cfg, Step(cfg, s, l).value)
  {
    match l
    case Acceptor(i, a) => AcceptorBorn(cfg, s, i, a);
    case _ =>
  }

  ghost predicate JoinInv(cfg: Config, s: State) {
    && |s.acc| == |s.wg| == cfg.N()
    && (forall i :: 0 <= i < |s.wg| ==> s.wg[i] == LiveOf(s.conns, i) + (if s.acc[i].Spawning? then 1 else 0))
    && (forall k :: 0 <= k < |s.conns| ==> s.conns[k].owner < cfg.N())
    && (forall i :: 0 <= i < |s.acc| && (s.acc[i].Leaving? || s.acc[i].Off?) ==> s.wg[i] == 0)
  }

  ghost predicate SupInv(cfg: Config, s: State) {
    && s.outer == (if s.sup.NotStarted? then 0 else Sum(OnDuty, s.acc))
    && (s.isRun <==> s.sup.Launching? || s.sup.Awaiting? || s.sup.Stopping?)
    && (s.sup.Stopping? || s.sup.ClosingDone? || s.sup.Over? ==> s.outer == 0)
    && s.doneCloses == (if s.sup.Over? then 1 else 0)
    && (forall i :: 0 <= i < |s.acc| ==> ExitOk(s, s.acc[i]))
  }

  /** An acceptor leaves its loop only through an Accept error, and cancels the context first. */
  ghost predicate ExitOk(s: State, a: APc) {
    && (a.Cancelling? ==> a.failed)
    && (a.Joining? || a.Leaving? || a.Off? ==> s.ctxDone)
  }

  lemma LiveAtLeast(conns: seq<Conn>, k: nat)
    requires k < |conns| && !conns[k].phase.Gone?
    ensures LiveOf(conns, conns[k].owner) > 0
  {
    SumZero(LiveOwnedBy(conns[k].owner), conns);
  }

  lemma SpawnJoin(cfg: Config, s: State, j: nat)
    requires JoinInv(cfg, s) && AcceptorStep(cfg, s, j, Spawn).Some?
    ensures JoinInv(cfg, AcceptorStep(cfg, s, j, Spawn).value)
  {
    var s' := AcceptorStep(cfg, s, j, Spawn).value;
    forall i | 0 <= i < |s.wg|
      ensures s'.wg[i] == LiveOf(s'.conns, i) + (if s'.acc[i].Spawning? then 1 else 0)
    {
      SumSnoc(LiveOwnedBy(i), s.conns, Conn(j, Serving));
    }
  }

  lemma ConnJoin(cfg: Config, s: State, k: nat)
    requires JoinInv(cfg, s) && ConnStepOf(s, k).Some?
    ensures JoinInv(cfg, ConnStepOf(s, k).value)
  {
    var s' := ConnStepOf(s, k).value;
    forall i | 0 <= i < |s.wg|
      ensures s'.wg[i] == LiveOf(s'.conns, i) + (if s'.acc[i].Spawning? then 1 else 0)
    {
      ConnLive(s, k, i);
    }
  }

  lemma ConnLive(s: State, k: nat, i: nat)
    requires ConnStepOf(s, k).Some? && i < |s.wg|
    ensures var s' := ConnStepOf(s, k).value;
            |s'.wg| == |s.wg| && s.wg[i] - LiveOf(s.conns, i) == s'.wg[i] - LiveOf(s'.conns, i) && s'.wg[i] <= s.wg[i]
  {
    SumUpdate(LiveOwnedBy(i), s.conns, k, ConnStepOf(s, k).value.conns[k]);
  }

  lemma AcceptorJoin(cfg: Config, s: State, i: nat, a: AAct)
    requires JoinInv(cfg, s) && AcceptorStep(cfg, s, i, a).Some?
    ensures JoinInv(cfg, AcceptorStep(cfg, s, i, a).value)
  {
    if a.Spawn? {
      SpawnJoin(cfg, s, i);
    }
  }

  lemma StepJoin(cfg: Config, s: State, l: Label)
    requires JoinInv(cfg, s) && LaunchInv(cfg, s) && Step(cfg, s, l).Some?
    ensures JoinInv(cfg, Step(cfg, s, l).value)
  {
    match l
    case Acceptor(j, a) => AcceptorJoin(cfg, s, j, a);
    case ConnStep(k) => ConnJoin(cfg, s, k);
    case _ =>
  }

  lemma AcceptorSup(cfg: Config, s: State, i: nat, a: AAct)
    requires SupInv(cfg, s) && LaunchInv(cfg, s) && AcceptorStep(cfg, s, i, a).Some?
    ensures SupInv(cfg, AcceptorStep(cfg, s, i, a).value)
  {
    var s' := AcceptorStep(cfg, s, i, a).value;
    AccCounts(s.acc, i, s'.acc[i]);
    OnDutyPositive(s.acc, i);
    assert ExitOk(s, s.acc[i]);
    forall j | 0 <= j < |s'.acc|
      ensures ExitOk(s', s'.acc[j])
    {
      assert ExitOk(s, s.acc[j]);
    }
  }

  lemma KeepExit(s: State, s': State)
    requires s'.acc == s.acc && (s.ctxDone ==> s'.ctxDone)
    requires forall i :: 0 <= i < |s.acc| ==> ExitOk(s, s.acc[i])
    ensures forall i :: 0 <= i < |s'.acc| ==> ExitOk(s', s'.acc[i])
  {
    forall i | 0 <= i < |s'.acc|
      ensures ExitOk(s', s'.acc[i])
    {
      assert ExitOk(s, s.acc[i]);
    }
  }

  lemma LaunchSup(cfg: Config, s: State)
    requires SupInv(cfg, s) && LaunchInv(cfg, s) && LaunchStep(s).Some?
    ensures SupInv(cfg, LaunchStep(s).value)
  {
    var s' := LaunchStep(s).value;
    LaunchCounts(cfg, s);
    forall i | 0 <= i < |s'.acc|
      ensures ExitOk(s', s'.acc[i])
    {
      assert ExitOk(s, s.acc[i]);
    }
  }

  lemma StartSup(cfg: Config, s: State)
    requires SupInv(cfg, s) && LaunchInv(cfg, s)
    ensures SupInv(cfg, Step(cfg, s, Start).value)
  {
    if s.sup.NotStarted? {
      AllOnDuty(s.acc);
      KeepExit(s, Step(cfg, s, Start).value);
    }
  }

  lemma StepSup(cfg: Config, s: State, l: Label)
    requires SupInv(cfg, s) && LaunchInv(cfg, s) && Step(cfg, s, l).Some?
    ensures SupInv(cfg, Step(cfg, s, l).value)
  {
    match l
    case Start => StartSup(cfg, s);
    case Launch => LaunchSup(cfg, s);
    case Acceptor(i, a) => AcceptorSup(cfg, s, i, a);
    case _ => KeepExit(s, Step(cfg, s, l).value);
  }

  lemma {:induction false} AllOnDuty(acc: seq<APc>)
    requires forall j :: 0 <= j < |acc| ==> acc[j].Unborn?
    ensures Sum(OnDuty, acc) == |acc|
  {
    if acc != [] {
      AllOnDuty(acc[1..]);
    }
  }

  lemma OnDutyPositive(acc: seq<APc>, i: nat)
    requires i < |acc|
    ensures !acc[i].Off? ==> Sum(OnDuty, acc) > 0
  {
    SumZero(OnDuty, acc);
  }

  // ----- what holds in every run

  ghost predicate Inv(cfg: Config, s: State) {
    CountInv(cfg, s) && LaunchInv(cfg, s) && JoinInv(cfg, s) && SupInv(cfg, s)
  }

  lemma InitInv(cfg: Config)
    ensures Inv(cfg, Init(cfg))
    ensures Taking(Init(cfg)) == 0
  {
    var acc := Init(cfg).acc;
    SumZero(HoldingAcc, acc);
    SumZero(InFlightAcc, acc);
    SumZero(TakingAcc, acc);
  }

  lemma StepInv(cfg: Config, s: State, l: Label)
    requires Inv(cfg, s) && Step(cfg, s, l).Some?
    ensures Inv(cfg, Step(cfg, s, l).value)
  {
    StepCount(cfg, s, l);
    StepLaunch(cfg, s, l);
    StepJoin(cfg, s, l);
    StepSup(cfg, s, l);
  }

  lemma {:induction false} RunInv(cfg: Config, s: State, ls: seq<Label>)
    requires Inv(cfg, s) && Run(cfg, s, ls).Some?
    ensures Inv(cfg, Run(cfg, s, ls).value)
    ensures 0 < cfg.max && cfg.max + cfg.N() <= MAX_INT32 && CapInv(cfg, s) ==> CapInv(cfg, Run(cfg, s, ls).value)
    decreases |ls|
  {
    if ls != [] {
      StepInv(cfg, s, ls[0]);
      if 0 < cfg.max && cfg.max + cfg.N() <= MAX_INT32 && CapInv(cfg, s) {
        StepCap(cfg, s, ls[0]);
      }
      RunInv(cfg, Step(cfg, s, ls[0]).value, ls[1..]);
    }
  }

  lemma ReachableInv(cfg: Config, s: State)
    requires Reachable(cfg, s)
    ensures Inv(cfg, s)
    ensures 0 < cfg.max && cfg.max + cfg.N() <= MAX_INT32 ==> CapInv(cfg, s)
  {
    var ls :| Run(cfg, Init(cfg), ls) == Some(s);
    InitInv(cfg);
    RunInv(cfg, Init(cfg), ls);
  }

  lemma {:induction false} RunSnoc(cfg: Config, s: State, ls: seq<Label>, l: Label)
    requires Run(cfg, s, ls).Some?
    ensures Run(cfg, s, ls + [l]) == Step(cfg, Run(cfg, s, ls).value, l)
    decreases |ls|
  {
    if ls == [] {
      assert ls + [l] == [l];
      assert [l][1..] == [];
    } else {
      assert (ls + [l])[0] == ls[0] && (ls + [l])[1..] == ls[1..] + [l];
      RunSnoc(cfg, Step(cfg, s, ls[0]).value, ls[1..], l);
    }
  }

  lemma Next(cfg: Config, s: State, l: Label) returns (t: State)
    requires Reachable(cfg, s) && Step(cfg, s, l).Some?
    ensures Reachable(cfg, t) && t == Step(cfg, s, l).value
  {
    var ls :| Run(cfg, Init(cfg), ls) == Some(s);
    RunSnoc(cfg, Init(cfg), ls, l);
    t := Step(cfg, s, l).value;
    assert Run(cfg, Init(cfg), ls + [l]) == Some(t);
  }

  /** connCount is exactly the held slots plus the increments not yet undone or turned into a slot. */
  lemma ConnCountExact(cfg: Config, s: State)
    requires Reachable(cfg, s)
    ensures ConnCount(s) == ToInt32(Held(s) + InFlight(s))
  {
    ReachableInv(cfg, s);
  }

  /** The limit is never exceeded, as long as the counter has room for the optimistic increments. */
  lemma LimitHolds(cfg: Config, s: State)
    requires Reachable(cfg, s) && 0 < cfg.max && cfg.max + cfg.N() <= MAX_INT32
    ensures Held(s) <= cfg.max
  {
    ReachableInv(cfg, s);
    TakingBounds(s);
  }

  /**
   * Bounded over-rejection: whoever is refused found at least max - (N - 1) slots held at its
   * increment; a single acceptor refuses only when exactly max slots are held.
   */
  lemma RefusalBound(cfg: Config, s: State, i: nat)
    requires Reachable(cfg, s) && i < |s.acc| && s.acc[i].Undoing?
    ensures cfg.max > 0 && s.acc[i].held >= cfg.max - (cfg.N() - 1)
    ensures cfg.N() == 1 && cfg.max < MAX_INT32 ==> s.acc[i].held == cfg.max
  {
    ReachableInv(cfg, s);
    assert Judged(cfg, s.acc[i]);
    if cfg.max < MAX_INT32 && cfg.N() == 1 {
      assert FoundAtMost(cfg, s.acc[i]);
    }
  }

  /**
   * Complete shutdown: `done` is closed at most once, and then the server is not running, the
   * context is cancelled, every acceptor and every connection goroutine has finished and
   * connCount is 0.
   */
  lemma ShutdownComplete(cfg: Config, s: State)
    requires Reachable(cfg, s)
    ensures s.doneCloses <= 1
    ensures s.doneCloses == 1 ==>
      && !s.isRun && s.ctxDone && ConnCount(s) == 0
      && (forall i :: 0 <= i < |s.acc| ==> s.acc[i].Off?)
      && (forall k :: 0 <= k < |s.conns| ==> s.conns[k].phase.Gone?)
  {
    ReachableInv(cfg, s);
    if s.doneCloses == 1 {
      SumZero(OnDuty, s.acc);
      assert forall i :: 0 <= i < |s.acc| ==> OnDuty(s.acc[i]) == 0;
      assert s.acc[0].Off? && ExitOk(s, s.acc[0]);
      forall k | 0 <= k < |s.conns|
        ensures s.conns[k].phase.Gone?
      {
        var i := s.conns[k].owner;
        assert s.acc[i].Off? && s.wg[i] == 0;
        if !s.conns[k].phase.Gone? {
          LiveAtLeast(s.conns, k);
        }
      }
      SumZero(HoldingAcc, s.acc);
      SumZero(InFlightAcc, s.acc);
      SumZero(HoldingConn, s.conns);
    }
  }

  /** An acceptor leaves its loop only because Accept failed: it never sees IsRunning() false. */
  lemma LoopLeftByError(cfg: Config, s: State, i: nat)
    requires Reachable(cfg, s) && i < |s.acc|
    ensures s.acc[i].Cancelling? ==> s.acc[i].failed
    ensures s.acc[i].Checking? ==> s.isRun
  {
    ReachableInv(cfg, s);
    assert ExitOk(s, s.acc[i]);
    SumZero(OnDuty, s.acc);
  }

  predicate Leaving(a: APc) {
    a.Cancelling? || a.Joining? || a.Leaving? || a.Off?
  }

  lemma StepLeaving(cfg: Config, s: State, l: Label, i: nat)
    requires Step(cfg, s, l).Some? && i < |s.acc|
    ensures i < |Step(cfg, s, l).value.acc|
    ensures Leaving(Step(cfg, s, l).value.acc[i]) ==>
      Leaving(s.acc[i]) || l == Acceptor(i, AcceptErr) || (s.acc[i].Checking? && !s.isRun)
  {
    match l
    case Acceptor(j, a) => ActLeaving(cfg, s, j, a);
    case ConnStep(_) =>
    case _ =>
  }

  lemma ActLeaving(cfg: Config, s: State, j: nat, a: AAct)
    requires AcceptorStep(cfg, s, j, a).Some?
    ensures var x, y := s.acc[j], AcceptorStep(cfg, s, j, a).value.acc;
      && y == s.acc[j := y[j]]
      && (Leaving(y[j]) ==> Leaving(x) || a.AcceptErr? || (x.Checking? && !s.isRun))
  {
  }

  /** ... so one of its own Accept calls must have failed: a refused connection does not end it. */
  lemma {:induction false} LeavingAfterError(cfg: Config, ls: seq<Label>, i: nat)
    requires Run(cfg, Init(cfg), ls).Some? && i < |Run(cfg, Init(cfg), ls).value.acc|
    ensures Leaving(Run(cfg, Init(cfg), ls).value.acc[i]) ==> Acceptor(i, AcceptErr) in ls
    decreases |ls|
  {
    if ls != [] {
      var n := |ls| - 1;
      assert ls == ls[..n] + [ls[n]];
      RunPrefix(cfg, Init(cfg), ls, n);
      RunSnoc(cfg, Init(cfg), ls[..n], ls[n]);
      var s := Run(cfg, Init(cfg), ls[..n]).value;
      assert Reachable(cfg, s) && Reachable(cfg, Run(cfg, Init(cfg), ls).value);
      ReachableInv(cfg, s);
      ReachableInv(cfg, Run(cfg, Init(cfg), ls).value);
      LoopLeftByError(cfg, s, i);
      StepLeaving(cfg, s, ls[n], i);
      LeavingAfterError(cfg, ls[..n], i);
    }
  }

  lemma {:induction false} RunPrefix(cfg: Config, s: State, ls: seq<Label>, n: nat)
    requires Run(cfg, s, ls).Some? && n <= |ls|
    ensures Run(cfg, s, ls[..n]).Some?
    decreases n
  {
    if n > 0 {
      assert ls[..n][1..] == ls[1..][..n - 1];
      RunPrefix(cfg, Step(cfg, s, ls[0]).value, ls[1..], n - 1);
    }
  }

  /** The deferred calls never get stuck: no WaitGroup counter would go negative. */
  lemma DefersReturn(cfg: Config, s: State)
    requires Reachable(cfg, s)
    ensures forall k :: 0 <= k < |s.conns| && !s.conns[k].phase.Gone? ==> ConnStepOf(s, k).Some?
    ensures forall i :: 0 <= i < |s.acc| && s.acc[i].Leaving? ==> s.outer > 0
  {
    ReachableInv(cfg, s);
    forall k | 0 <= k < |s.conns| && !s.conns[k].phase.Gone?
      ensures ConnStepOf(s, k).Some?
    {
      LiveAtLeast(s.conns, k);
    }
    forall i | 0 <= i < |s.acc| && s.acc[i].Leaving?
      ensures s.outer > 0
    {
      OnDutyPositive(s.acc, i);
    }
  }
}
