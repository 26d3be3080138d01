// client/client.go: the redial loop on a monotonic clock, and the end of the client.
module Redial {
  import opened Errors

  /** time.Second, in nanoseconds. */
  const SECOND: nat := 1_000_000_000

  datatype Pc =
    | Idle                                // Start not called
    | Checking                            // loop condition and select
    | Ready                               // before dialStartAt = time.Now()
    | Stamped(start: nat)                 // before dialAndRun
    | Dialing(start: nat)                 // in dialAndRun
    | Measuring(start: nat)               // SleepAtLeast, before time.Since(start)
    | Arming(start: nat, elapsed: nat)    // before context.WithTimeout
    | Sleeping(deadline: nat)
    | Left                                // the loop is over, before cancel()
    | Finishing                           // before close(done)
    | Finished

  /** `stamps` are the values of dialStartAt, `calls` the times at which DialContext was called. */
  datatype State = State(pc: Pc, clock: nat, ctxDone: bool, stoped: bool, closes: nat, stamps: seq<nat>, calls: seq<nat>)

  const INIT: State := State(Idle, 0, false, false, 0, [], [])

  datatype Label =
    | Start | Check | Stamp | Dial | DialEnds | Measure | Arm | Wake | CancelOwn | CloseDone
    | Cancel | Tick(d: nat)

  function Step(hasAction: bool, s: State, l: Label): Option<State> {
    match l
    case Start => if s.pc.Idle? then Some(s.(pc := Checking, stoped := false)) else Some(s)
    case Check =>
      if !s.pc.Checking? then None
      else if !hasAction then Some(s.(pc := Left))
      else if s.ctxDone then Some(s.(pc := Left, stoped := true))
      else Some(s.(pc := Ready))
    case Stamp => if s.pc.Ready? then Some(s.(pc := Stamped(s.clock), stamps := s.stamps + [s.clock])) else None
    case Dial => if s.pc.Stamped? then Some(s.(pc := Dialing(s.pc.start), calls := s.calls + [s.clock])) else None
    case DialEnds => if s.pc.Dialing? then Some(s.(pc := Measuring(s.pc.start))) else None
    case Measure =>
      if !s.pc.Measuring? then None
      else
        var elapsed := s.clock - s.pc.start;
        if elapsed < 0 || elapsed >= SECOND then Some(s.(pc := Checking))
        else Some(s.(pc := Arming(s.pc.start, elapsed)))
    case Arm =>
      if s.pc.Arming? && s.pc.elapsed < SECOND
      then Some(s.(pc := Sleeping(s.clock + (SECOND - s.pc.elapsed)))) else None
    case Wake => if s.pc.Sleeping? && (s.ctxDone || s.clock >= s.pc.deadline) then Some(s.(pc := Checking)) else None
    case CancelOwn => if s.pc.Left? then Some(s.(pc := Finishing, ctxDone := true)) else None
    case CloseDone => if s.pc.Finishing? then Some(s.(pc := Finished, closes := s.closes + 1)) else None
    case Cancel => Some(s.(ctxDone := true))
    case Tick(d) => Some(s.(clock := s.clock + d))
  }

  function Run(hasAction: bool, s: State, ls: seq<Label>): Option<State>
    decreases |ls|
  {
    if ls == [] then Some(s)
    else match Step(hasAction, s, ls[0])
      case None => None
      case Some(t) => Run(hasAction, t, ls[1..])
  }

  /** `t` is at least a second behind the last stamp. */
  ghost predicate Rested(s: State, t: nat) {
    s.stamps == [] || t >= Last(s) + SECOND
  }

  function Last(s: State): nat
    requires s.stamps != []
  {
    s.stamps[|s.stamps| - 1]
  }

  ghost predicate Spaced(stamps: seq<nat>) {
    forall i :: 0 <= i < |stamps| - 1 ==> stamps[i + 1] >= stamps[i] + SECOND
  }

  ghost predicate PcInv(s: State) {
    match s.pc
    case Idle => s.stamps == []
    case Checking => s.ctxDone || Rested(s, s.clock)
    case Ready => Rested(s, s.clock)
    case Stamped(start) => s.stamps != [] && Last(s) == start <= s.clock
    case Dialing(start) => s.stamps != [] && Last(s) == start <= s.clock
    case Measuring(start) => s.stamps != [] && Last(s) == start <= s.clock
    case Arming(start, e) => s.stamps != [] && Last(s) == start && start + e <= s.clock
    case Sleeping(deadline) => Rested(s, deadline)
    case _ => true
  }

  /** Every DialContext call but one under way follows its stamp. */
  ghost predicate CallInv(s: State) {
    && |s.stamps| == |s.calls| + (if s.pc.Stamped? then 1 else 0)
    && (forall i :: 0 <= i < |s.calls| ==> s.stamps[i] <= s.calls[i] <= s.clock)
  }

  ghost predicate EndInv(hasAction: bool, s: State) {
    && s.closes == (if s.pc.Finished? then 1 else 0)
    && (s.pc.Finishing? || s.pc.Finished? ==> s.ctxDone)
    && (s.stoped <==> hasAction && (s.pc.Left? || s.pc.Finishing? || s.pc.Finished?))
  }

  ghost predicate Inv(hasAction: bool, s: State) {
    Spaced(s.stamps) && PcInv(s) && CallInv(s) && EndInv(hasAction, s)
  }

  lemma StepInv(hasAction: bool, s: State, l: Label)
    requires Inv(hasAction, s) && Step(hasAction, s, l).Some?
    ensures Inv(hasAction, Step(hasAction, s, l).value)
  {
    StepPacing(hasAction, s, l);
    StepCalls(hasAction, s, l);
    StepEnd(hasAction, s, l);
  }

  lemma StepPacing(hasAction: bool, s: State, l: Label)
    requires Spaced(s.stamps) && PcInv(s) && Step(hasAction, s, l).Some?
    ensures var t := Step(hasAction, s, l).value; Spaced(t.stamps) && PcInv(t)
  {
    if l != Stamp {
      StampsStay(hasAction, s, l);
    }
  }

  lemma StampsStay(hasAction: bool, s: State, l: Label)
    requires l != Stamp && Step(hasAction, s, l).Some?
    ensures var t := Step(hasAction, s, l).value; t.stamps == s.stamps && s.clock <= t.clock
  {
  }

  lemma StepCalls(hasAction: bool, s: State, l: Label)
    requires CallInv(s) && PcInv(s) && Step(hasAction, s, l).Some?
    ensures CallInv(Step(hasAction, s, l).value)
  {
  }

  lemma StepEnd(hasAction: bool, s: State, l: Label)
    requires EndInv(hasAction, s) && Step(hasAction, s, l).Some?
    ensures EndInv(hasAction, Step(hasAction, s, l).value)
  {
  }

  lemma {:induction false} RunInv(hasAction: bool, s: State, ls: seq<Label>)
    requires Inv(hasAction, s) && Run(hasAction, s, ls).Some?
    ensures Inv(hasAction, Run(hasAction, s, ls).value)
    decreases |ls|
  {
    if ls != [] {
      StepInv(hasAction, s, ls[0]);
      RunInv(hasAction, Step(hasAction, s, ls[0]).value, ls[1..]);
    }
  }

  ghost predicate Reachable(hasAction: bool, s: State) {
    exists ls :: Run(hasAction, INIT, ls) == Some(s)
  }

  lemma ReachableInv(hasAction: bool, s: State)
    requires Reachable(hasAction, s)
    ensures Inv(hasAction, s)
  {
    var ls :| Run(hasAction, INIT, ls) == Some(s);
    RunInv(hasAction, INIT, ls);
  }

  lemma Next(hasAction: bool, s: State, l: Label) returns (t: State)
    requires Reachable(hasAction, s) && Step(hasAction, s, l).Some?
    ensures Reachable(hasAction, t) && t == Step(hasAction, s, l).value
  {
    var ls :| Run(hasAction, INIT, ls) == Some(s);
    RunSnoc(hasAction, INIT, ls, l);
    t := Step(hasAction, s, l).value;
    assert Run(hasAction, INIT, ls + [l]) == Some(t);
  }

  lemma {:induction false} RunSnoc(hasAction: bool, s: State, ls: seq<Label>, l: Label)
    requires Run(hasAction, s, ls).Some?
    ensures Run(hasAction, s, ls + [l]) == Step(hasAction, Run(hasAction, s, ls).value, l)
    decreases |ls|
  {
    if ls == [] {
      assert [] + [l] == [l];
    } else {
      assert (ls + [l])[0] == ls[0] && (ls + [l])[1..] == ls[1..] + [l];
      RunSnoc(hasAction, Step(hasAction, s, ls[0]).value, ls[1..], l);
    }
  }

  lemma {:induction false} SpacedFar(stamps: seq<nat>, i: nat, j: nat)
    requires Spaced(stamps) && i <= j < |stamps|
    ensures stamps[j] >= stamps[i] + (j - i) * SECOND
    decreases j - i
  {
    if i < j {
      SpacedFar(stamps, i, j - 1);
      assert stamps[(j - 1) + 1] >= stamps[j - 1] + SECOND;
    }
  }

  /**
   * Dial pacing: in every run, however long each dial takes and whenever the context is
   * cancelled, the stamps of dials i and j are at least j - i seconds apart.
   */
  lemma DialPacing(hasAction: bool, s: State, i: nat, j: nat)
    requires Reachable(hasAction, s) && i <= j < |s.stamps|
    ensures s.stamps[j] >= s.stamps[i] + (j - i) * SECOND
  {
    ReachableInv(hasAction, s);
    SpacedFar(s.stamps, i, j);
  }

  /**
   * The DialContext calls themselves follow their stamps by whatever the scheduler takes, and
   * only the first delay shortens their distance.
   */
  lemma CallPacing(hasAction: bool, s: State, i: nat, j: nat)
    requires Reachable(hasAction, s) && i <= j < |s.calls|
    ensures j < |s.stamps| && s.stamps[i] <= s.calls[i]
    ensures s.calls[j] >= s.calls[i] + (j - i) * SECOND - (s.calls[i] - s.stamps[i])
  {
    ReachableInv(hasAction, s);
    DialPacing(hasAction, s, i, j);
  }

  /**
   * The bound is attained: if a delay of up to a second separates the first stamp from its
   * call, the next call may follow SECOND - delay later, that is at once for a full second.
   */
  lemma CallsCanBeClose(delay: nat)
    requires delay <= SECOND
    ensures exists s :: Reachable(true, s) && s.stamps == [0, SECOND] && s.calls == [delay, SECOND]
  {
    var s1 := FirstDial(delay);
    var s2 := Next(true, s1, DialEnds);
    var s3 := Next(true, s2, Measure);
    if delay < SECOND {
      var s4 := Next(true, s3, Arm);
      var s5 := Next(true, s4, Tick(SECOND - delay));
      s3 := Next(true, s5, Wake);
    }
    var s6 := Next(true, s3, Check);
    var s7 := Next(true, s6, Stamp);
    var s8 := Next(true, s7, Dial);
    assert s8.calls == [delay, SECOND];
  }

  lemma FirstDial(delay: nat) returns (s: State)
    ensures Reachable(true, s) && s == State(Dialing(0), delay, false, false, 0, [0], [delay])
  {
    assert Run(true, INIT, []) == Some(INIT);
    var s1 := Next(true, INIT, Start);
    var s2 := Next(true, s1, Check);
    var s3 := Next(true, s2, Stamp);
    var s4 := Next(true, s3, Tick(delay));
    s := Next(true, s4, Dial);
  }

  // ----- cancellation

  /** Behind this program counter one more dial may start before the context is looked at again. */
  function Pending(pc: Pc): nat {
    if pc.Ready? then 1 else 0
  }

  lemma StepCancelled(hasAction: bool, s: State, l: Label)
    requires s.ctxDone && Step(hasAction, s, l).Some?
    ensures var t := Step(hasAction, s, l).value;
            t.ctxDone && |t.stamps| + Pending(t.pc) <= |s.stamps| + Pending(s.pc)
  {
  }

  /** Behind the cancellation at most one more dial starts, in whatever continuation. */
  lemma {:induction false} CancelStopsDialing(hasAction: bool, s: State, ls: seq<Label>)
    requires s.ctxDone && Run(hasAction, s, ls).Some?
    ensures var t := Run(hasAction, s, ls).value;
            t.ctxDone && |t.stamps| + Pending(t.pc) <= |s.stamps| + Pending(s.pc) <= |s.stamps| + 1
    decreases |ls|
  {
    if ls != [] {
      StepCancelled(hasAction, s, ls[0]);
      CancelStopsDialing(hasAction, Step(hasAction, s, ls[0]).value, ls[1..]);
    }
  }

  /** How many actions of the loop, and none of the clock, still lead to its end once it is cancelled. */
  function ToGo(pc: Pc): nat {
    match pc
    case Idle => 4
    case Checking => 3
    case Ready => 9
    case Stamped(_) => 8
    case Dialing(_) => 7
    case Measuring(_) => 6
    case Arming(_, _) => 5
    case Sleeping(_) => 4
    case Left => 2
    case Finishing => 1
    case Finished => 0
  }

  function NextAction(pc: Pc): Label {
    match pc
    case Idle => Start
    case Checking => Check
    case Ready => Stamp
    case Stamped(_) => Dial
    case Dialing(_) => DialEnds
    case Measuring(_) => Measure
    case Arming(_, _) => Arm
    case Sleeping(_) => Wake
    case Left => CancelOwn
    case _ => CloseDone
  }

  lemma ActionEnabled(hasAction: bool, s: State)
    requires s.ctxDone && ElapsedInv(s) && !s.pc.Finished?
    ensures Step(hasAction, s, NextAction(s.pc)).Some?
    ensures var t := Step(hasAction, s, NextAction(s.pc)).value;
            t.ctxDone && t.clock == s.clock && ToGo(t.pc) < ToGo(s.pc) && ElapsedInv(t)
  {
  }

  ghost predicate ElapsedInv(s: State) {
    s.pc.Arming? ==> s.pc.elapsed < SECOND
  }

  lemma {:induction false} Unwinds(hasAction: bool, s: State) returns (ls: seq<Label>)
    requires s.ctxDone && ElapsedInv(s)
    ensures |ls| <= ToGo(s.pc) && Run(hasAction, s, ls).Some?
    ensures Run(hasAction, s, ls).value.pc.Finished? && Run(hasAction, s, ls).value.clock == s.clock
    decreases ToGo(s.pc)
  {
    ls := [];
    if !s.pc.Finished? {
      var l := NextAction(s.pc);
      ActionEnabled(hasAction, s);
      var more := Unwinds(hasAction, Step(hasAction, s, l).value);
      ls := [l] + more;
    }
  }

  lemma {:induction false} RunElapsed(hasAction: bool, s: State, ls: seq<Label>)
    requires ElapsedInv(s) && Run(hasAction, s, ls).Some?
    ensures ElapsedInv(Run(hasAction, s, ls).value)
    decreases |ls|
  {
    if ls != [] {
      RunElapsed(hasAction, Step(hasAction, s, ls[0]).value, ls[1..]);
    }
  }

  /**
   * The cancellation that Stop causes ends the client: from every reachable state at most nine
   * actions of the loop itself lead to the closing of `done`, without any time having to pass,
   * so also out of the pause between two dials.
   */
  lemma CancelLeadsToDone(hasAction: bool, s: State)
    requires Reachable(hasAction, s)
    ensures Step(hasAction, s, Cancel).Some?
    ensures exists ls :: |ls| <= 9 && EndsAt(hasAction, Step(hasAction, s, Cancel).value, ls, s.clock)
  {
    var front :| Run(hasAction, INIT, front) == Some(s);
    RunElapsed(hasAction, INIT, front);
    ReachableInv(hasAction, s);
    var t := Step(hasAction, s, Cancel).value;
    StepInv(hasAction, s, Cancel);
    var ls := Unwinds(hasAction, t);
    RunInv(hasAction, t, ls);
    assert EndsAt(hasAction, t, ls, s.clock);
  }

  /** These actions close `done` at this time. */
  ghost predicate EndsAt(hasAction: bool, s: State, ls: seq<Label>, clock: nat) {
    var t := Run(hasAction, s, ls);
    t.Some? && t.value.closes == 1 && t.value.clock == clock
  }

  /** The context is cancelled, and a client with an action ends, only if somebody has cancelled it. */
  ghost predicate CancelTold(hasAction: bool, ls: seq<Label>, s: State) {
    && (hasAction && (s.ctxDone || s.pc.Left? || s.pc.Finishing? || s.pc.Finished?) ==> Cancel in ls)
    && (Cancel in ls ==> s.ctxDone)
    && (s.pc.Idle? <==> Start !in ls)
  }

  lemma {:induction false} OnlyCancelStops(hasAction: bool, ls: seq<Label>)
    requires Run(hasAction, INIT, ls).Some?
    ensures CancelTold(hasAction, ls, Run(hasAction, INIT, ls).value)
    decreases |ls|
  {
    if ls != [] {
      var n := |ls| - 1;
      assert ls == ls[..n] + [ls[n]];
      RunPrefix(hasAction, INIT, ls, n);
      RunSnoc(hasAction, INIT, ls[..n], ls[n]);
      OnlyCancelStops(hasAction, ls[..n]);
      assert forall x :: x in ls <==> x in ls[..n] || x == ls[n];
    }
  }

  lemma {:induction false} RunPrefix(hasAction: bool, s: State, ls: seq<Label>, n: nat)
    requires Run(hasAction, s, ls).Some? && n <= |ls|
    ensures Run(hasAction, s, ls[..n]).Some?
    decreases n
  {
    if n > 0 {
      assert ls[..n][1..] == ls[1..][..n - 1];
      RunPrefix(hasAction, Step(hasAction, s, ls[0]).value, ls[1..], n - 1);
    }
  }

  /**
   * `done` is closed at most once; behind it the context is cancelled, and IsStoped() is true
   * exactly if the client had an action: a client without one finishes as not stopped.
   */
  lemma DoneMeansStopped(hasAction: bool, s: State)
    requires Reachable(hasAction, s)
    ensures s.closes <= 1 && (s.closes == 1 ==> s.ctxDone && (s.stoped <==> hasAction))
  {
    ReachableInv(hasAction, s);
  }
}
