// Runs that show how far the admission bounds of module Admission can be reached.
module Limits {
  import opened Bytes
  import opened Errors
  import opened Counting
  import opened Server
  import opened Admission

  /** The first `j` acceptors have just incremented connCount, the others are about to accept. */
  ghost predicate CountedUp(cfg: Config, s: State, j: nat, held: nat) {
    && Reachable(cfg, s)
    && s.isRun && !s.listenerClosed && |s.acc| == |s.wg| == cfg.N()
    && j <= |s.acc| && s.adds == held + j
    && (forall i :: 0 <= i < j ==> s.acc[i].Comparing?)
    && (forall i :: j <= i < |s.acc| ==> s.acc[i].Checking?)
    && (j > 0 ==> s.acc[j - 1].count == ToInt32(held + j) && s.acc[j - 1].held == held)
  }

  lemma {:induction false} LaunchAll(cfg: Config, s: State) returns (t: State)
    requires Reachable(cfg, s) && s.sup.Launching? && s.sup.i <= |s.acc| && |s.acc| == |s.wg| == cfg.N()
    requires s.isRun && !s.listenerClosed && s.adds == 0
    requires forall i :: 0 <= i < s.sup.i ==> s.acc[i].Checking?
    ensures CountedUp(cfg, t, 0, 0)
    decreases |s.acc| - s.sup.i
  {
    if s.sup.i == |s.acc| {
      t := s;
    } else {
      t := Next(cfg, s, Launch);
      t := LaunchAll(cfg, t);
    }
  }

  lemma Launched(cfg: Config) returns (t: State)
    ensures CountedUp(cfg, t, 0, 0)
  {
    assert Run(cfg, Init(cfg), []) == Some(Init(cfg));
    t := Next(cfg, Init(cfg), Start);
    t := LaunchAll(cfg, t);
  }

  lemma CountOneUp(cfg: Config, s: State, j: nat, held: nat) returns (t: State)
    requires CountedUp(cfg, s, j, held) && j < cfg.N()
    ensures CountedUp(cfg, t, j + 1, held)
  {
    t := Next(cfg, s, Acceptor(j, Check));
    t := Next(cfg, t, Acceptor(j, AcceptOk));
    HeldIs(cfg, t, j, held);
    t := Next(cfg, t, Acceptor(j, Add));
  }

  lemma HeldIs(cfg: Config, s: State, j: nat, held: nat)
    requires Reachable(cfg, s) && j <= |s.acc| && s.adds == held + j
    requires forall i :: 0 <= i < j ==> s.acc[i].Comparing?
    requires forall i :: j <= i < |s.acc| ==> InFlightAcc(s.acc[i]) == 0
    ensures Held(s) == held
  {
    ReachableInv(cfg, s);
    InFlightFirst(s.acc, j);
  }

  lemma {:induction false} InFlightFirst(acc: seq<APc>, j: nat)
    requires j <= |acc|
    requires forall i :: 0 <= i < j ==> acc[i].Comparing?
    requires forall i :: j <= i < |acc| ==> InFlightAcc(acc[i]) == 0
    ensures Sum(InFlightAcc, acc) == j
    decreases |acc|
  {
    if acc != [] {
      InFlightFirst(acc[1..], if j == 0 then 0 else j - 1);
    }
  }

  /** One more connection is admitted by the first acceptor. */
  lemma AdmitOne(cfg: Config, s: State, held: nat) returns (t: State)
    requires CountedUp(cfg, s, 0, held) && held < cfg.max <= MAX_INT32
    ensures CountedUp(cfg, t, 0, held + 1)
  {
    t := CountOneUp(cfg, s, 0, held);
    WrapBelow(held + 1);
    t := Next(cfg, t, Acceptor(0, Compare));
    t := Next(cfg, t, Acceptor(0, Register));
    t := Next(cfg, t, Acceptor(0, Spawn));
  }

  lemma {:induction false} AdmitMany(cfg: Config, held: nat) returns (t: State)
    requires held <= cfg.max <= MAX_INT32
    ensures CountedUp(cfg, t, 0, held)
    decreases held
  {
    if held == 0 {
      t := Launched(cfg);
    } else {
      t := AdmitMany(cfg, held - 1);
      t := AdmitOne(cfg, t, held - 1);
    }
  }

  lemma {:induction false} CountUp(cfg: Config, j: nat, held: nat) returns (t: State)
    requires held <= cfg.max <= MAX_INT32 && j <= cfg.N()
    ensures CountedUp(cfg, t, j, held)
    decreases j
  {
    if j == 0 {
      t := AdmitMany(cfg, held);
    } else {
      t := CountUp(cfg, j - 1, held);
      t := CountOneUp(cfg, t, j - 1, held);
    }
  }

  lemma WrapOver()
    ensures ToInt32(MAX_INT32 + 1) < 0
  {
  }

  /** With too little room above the limit the counter wraps, and one connection too many is admitted. */
  lemma Overrun(cfg: Config) returns (t: State)
    requires cfg.Valid() && 0 < cfg.max && cfg.max + cfg.N() > MAX_INT32
    ensures Reachable(cfg, t) && Held(t) == cfg.max + 1
  {
    var j: nat := MAX_INT32 + 1 - cfg.max;
    t := CountUp(cfg, j, cfg.max);
    WrapOver();
    assert t.acc[j - 1].count < 0;
    InFlightFirst(t.acc, j);
    AccCounts(t.acc, j - 1, Registering);
    t := Next(cfg, t, Acceptor(j - 1, Compare));
    ReachableInv(cfg, t);
  }

  /**
   * The connection limit holds in every run if and only if the limit plus the number of
   * acceptors fits the 32-bit counter.
   */
  lemma LimitIff(cfg: Config)
    requires cfg.Valid() && 0 < cfg.max
    ensures (forall s :: Reachable(cfg, s) ==> Held(s) <= cfg.max) <==> cfg.max + cfg.N() <= MAX_INT32
  {
    if cfg.max + cfg.N() <= MAX_INT32 {
      forall s | Reachable(cfg, s)
        ensures Held(s) <= cfg.max
      {
        LimitHolds(cfg, s);
      }
    } else {
      var t := Overrun(cfg);
      assert Reachable(cfg, t) && Held(t) > cfg.max;
    }
  }

  /** The refusal bound is tight: some run refuses with only max - (N - 1) slots held. */
  lemma RefusalTight(cfg: Config)
    requires 0 < cfg.max < MAX_INT32 && cfg.N() - 1 <= cfg.max
    ensures exists s, i :: Reachable(cfg, s) && 0 <= i < |s.acc| && s.acc[i].Undoing?
                           && s.acc[i].held == cfg.max - (cfg.N() - 1)
  {
    var i := cfg.N() - 1;
    var t := CountUp(cfg, cfg.N(), cfg.max - i);
    WrapBelow(cfg.max + 1);
    assert t.acc[i].count == cfg.max + 1;
    t := Next(cfg, t, Acceptor(i, Compare));
    assert t.acc[i].Undoing?;
  }
}
