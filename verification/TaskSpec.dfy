// pkg/taskgo as a transition system: each operation below is one critical section of the
// task manager's lock, so a sequence of operations is an interleaving of its callers.
module TaskSpec {
  import opened Bytes
  import opened Errors

  /** A task's state; `doneAt == 0` is the zero time, i.e. the task has not finished. */
  datatype Info = Info(doneAt: nat, err: Option<Failure>)

  datatype State<N(==)> = State(
    tasks: map<N, Info>,
    num: int,             // tasksNum
    stopped: bool,        // status == Stoped
    tokens: nat,          // values in the one-slot doneCh
    sent: nat,            // history: values ever sent on doneCh
    atStop: set<N>)  // history: unfinished tasks when the manager was stopped
  {
    function Unfinished(): set<N> {
      set n | n in tasks && tasks[n].doneAt == 0
    }

    function Finished(): set<N> {
      set n | n in tasks && tasks[n].doneAt != 0
    }
  }

  function Empty<N(==)>(): State<N> {
    State(map[], 0, false, 0, 0, {})
  }

  datatype GoResult = Started | IsStopped | AlreadyRunning

  function Go<N(==)>(t: State<N>, name: N): (State<N>, GoResult) {
    if t.stopped then (t, IsStopped)
    else if name in t.tasks then (t, AlreadyRunning)
    else (t.(tasks := t.tasks[name := Info(0, None)], num := t.num + 1), Started)
  }

  /** `Panic` is the negative counter, `Blocked` a send on a full doneCh with the lock held. */
  datatype DoneResult<N(==)> = Returned(t: State<N>) | Panic | Blocked

  function Done<N(==)>(t: State<N>, name: N, err: Option<Failure>, now: nat): DoneResult<N> {
    var t1 := t.(tasks := t.tasks[name := Info(now, err)], num := t.num - 1);
    if t1.num < 0 then Panic
    else if t1.stopped && t1.num == 0 then
      if t1.tokens >= 1 then Blocked else Returned(t1.(tokens := t1.tokens + 1, sent := t1.sent + 1))
    else Returned(t1)
  }

  /** The first critical section of StopAndWait; only the first caller goes on to wait. */
  function Stop<N(==)>(t: State<N>): (State<N>, bool) {
    if t.stopped then (t, false) else (t.(stopped := true, atStop := t.Unfinished()), true)
  }

  datatype Op<N> =
    | GoOp(name: N)
    | DoneOp(name: N, err: Option<Failure>, now: nat)
    | StopOp
    | TakeOp  // the waiting StopAndWait receives from doneCh and returns nil

  /** None: the operation cannot happen in this state, or it never returns. */
  function Step<N(==)>(t: State<N>, op: Op<N>): Option<State<N>> {
    match op
    case GoOp(name) => if |t.Unfinished()| < MAX_INT32 then Some(Go(t, name).0) else None
    case DoneOp(name, err, now) =>
      if name !in t.Unfinished() || now == 0 then None
      else (match Done(t, name, err, now) case Returned(t') => Some(t') case _ => None)
    case StopOp => Some(Stop(t).0)
    case TakeOp => if t.tokens > 0 then Some(t.(tokens := t.tokens - 1)) else None
  }

  function Run<N(==)>(t: State<N>, ops: seq<Op<N>>): Option<State<N>>
    decreases |ops|
  {
    if ops == [] then Some(t)
    else match Step(t, ops[0])
      case None => None
      case Some(t') => Run(t', ops[1..])
  }

  ghost predicate Inv<N>(t: State<N>) {
    && t.num == |t.Unfinished()| <= MAX_INT32
    && t.tokens <= t.sent <= 1
    && (t.sent == 1 <==> t.stopped && t.Unfinished() == {} && t.atStop != {})
    && t.Unfinished() <= (if t.stopped then t.atStop else t.Unfinished())
    && (!t.stopped ==> t.atStop == {})
  }

  lemma GoInv<N>(t: State<N>, name: N)
    requires Inv(t) && |t.Unfinished()| < MAX_INT32
    ensures Inv(Go(t, name).0)
  {
    var t' := Go(t, name).0;
    if t' != t {
      assert t'.Unfinished() == t.Unfinished() + {name};
    }
  }

  /** The counter never goes negative and the send under the lock never blocks. */
  lemma DoneInv<N>(t: State<N>, name: N, err: Option<Failure>, now: nat)
    requires Inv(t) && name in t.Unfinished() && now > 0
    ensures var r := Done(t, name, err, now);
            && r.Returned? && Inv(r.t)
            && r.t.Unfinished() == t.Unfinished() - {name}
            && r.t.Finished() == t.Finished() + {name}
  {
    var t1 := t.(tasks := t.tasks[name := Info(now, err)], num := t.num - 1);
    assert t1.Unfinished() == t.Unfinished() - {name};
    assert t1.Finished() == t.Finished() + {name};
    if t.stopped && t1.num == 0 {
      var t2 := t1.(tokens := t1.tokens + 1, sent := t1.sent + 1);
      assert t2.Unfinished() == t1.Unfinished() && t2.Finished() == t1.Finished();
    }
  }

  /** What Done changes, field by field. */
  lemma DoneFields<N>(t: State<N>, name: N, err: Option<Failure>, now: nat) returns (t': State<N>)
    requires Inv(t) && name in t.Unfinished() && now > 0
    ensures Done(t, name, err, now) == Returned(t') && Inv(t')
    ensures var k := if t.stopped && t.num == 1 then 1 else 0;
            && t' == State(t.tasks[name := Info(now, err)], t.num - 1, t.stopped, t.tokens + k, t.sent + k, t.atStop)
            && t.num >= 1 && (k == 1 ==> t.tokens == 0)
  {
    DoneInv(t, name, err, now);
    t' := Done(t, name, err, now).t;
  }

  lemma StopInv<N>(t: State<N>)
    requires Inv(t)
    ensures Inv(Stop(t).0)
    ensures Stop(t).0.Unfinished() == t.Unfinished()
  {
  }

  lemma EmptyInv<N>()
    ensures Inv(Empty<N>()) && Empty<N>().Unfinished() == {}
  {
    assert Empty<N>().Unfinished() == {};
  }

  lemma StepInv<N>(t: State<N>, op: Op<N>)
    requires Inv(t) && Step(t, op).Some?
    ensures Inv(Step(t, op).value)
  {
    match op
    case GoOp(name) => GoInv(t, name);
    case DoneOp(name, err, now) => DoneInv(t, name, err, now);
    case StopOp => StopInv(t);
    case TakeOp => assert t.(tokens := t.tokens - 1).Unfinished() == t.Unfinished();
  }

  lemma {:induction false} RunInv<N>(t: State<N>, ops: seq<Op<N>>)
    requires Inv(t) && Run(t, ops).Some?
    ensures Inv(Run(t, ops).value)
    decreases |ops|
  {
    if ops != [] {
      StepInv(t, ops[0]);
      RunInv(Step(t, ops[0]).value, ops[1..]);
    }
  }

  // ----- the answers of Go

  /**
   * Go starts a task exactly if the manager is not stopped and has never seen the name,
   * running or finished; every other answer leaves the manager as it was.
   */
  lemma GoAnswers<N>(t: State<N>, name: N)
    ensures var (t', r) := Go(t, name);
      && (r == IsStopped <==> t.stopped)
      && (r == Started <==> !t.stopped && name !in t.tasks)
      && (r != Started ==> t' == t)
      && (r == Started ==> t'.tasks.Keys == t.tasks.Keys + {name} && t'.Unfinished() == t.Unfinished() + {name}
                           && t'.Finished() == t.Finished() && t'.num == t.num + 1)
  {
  }

  /** The k-th operation of a run from the empty manager is a Go that starts this name. */
  ghost predicate Starts<N>(ops: seq<Op<N>>, k: nat, name: N) {
    && k < |ops| && ops[k] == GoOp(name)
    && Run(Empty<N>(), ops[..k]).Some? && Go(Run(Empty<N>(), ops[..k]).value, name).1 == Started
  }

  /** The k-th operation of a run is the end of this task. */
  predicate Ends<N(==)>(ops: seq<Op<N>>, k: nat, name: N) {
    k < |ops| && ops[k].DoneOp? && ops[k].name == name
  }

  /** A name is in the records exactly if one Go has started it, which has happened once. */
  ghost predicate StartRecorded<N>(ops: seq<Op<N>>, t: State<N>, name: N) {
    && (name in t.tasks <==> exists k: nat :: Starts(ops, k, name))
    && (forall j: nat, k: nat :: Starts(ops, j, name) && Starts(ops, k, name) ==> j == k)
  }

  /** A task is finished exactly if it has ended, once, with the error and the time recorded. */
  ghost predicate EndRecorded<N>(ops: seq<Op<N>>, t: State<N>, name: N) {
    && (name in t.Finished() <==> exists k: nat :: Ends(ops, k, name))
    && (forall k: nat :: Ends(ops, k, name) ==> name in t.tasks && t.tasks[name] == Info(ops[k].now, ops[k].err))
    && (forall j: nat, k: nat :: Ends(ops, j, name) && Ends(ops, k, name) ==> j == k)
  }

  lemma RunLast<N>(t: State<N>, ops: seq<Op<N>>)
    requires ops != [] && Run(t, ops).Some?
    ensures var n := |ops| - 1;
            Run(t, ops[..n]).Some? && Run(t, ops) == Step(Run(t, ops[..n]).value, ops[n])
  {
    var n := |ops| - 1;
    assert ops == ops[..n] + [ops[n]];
    RunAppend(t, ops[..n], [ops[n]]);
    assert Run(t, ops[..n]).Some? ==> Run(Run(t, ops[..n]).value, [ops[n]]) == Step(Run(t, ops[..n]).value, ops[n]);
  }

  /** One more operation: the earlier ones stay what they were. */
  lemma HistoryGrows<N>(ops: seq<Op<N>>, name: N)
    requires ops != []
    ensures var n := |ops| - 1;
      && (forall k: nat :: k < n ==> (Starts(ops, k, name) <==> Starts(ops[..n], k, name)))
      && (forall k: nat :: k < n ==> (Ends(ops, k, name) <==> Ends(ops[..n], k, name)))
  {
    var n := |ops| - 1;
    forall k: nat | k < n
      ensures Starts(ops, k, name) <==> Starts(ops[..n], k, name)
    {
      assert ops[..n][..k] == ops[..k];
    }
  }

  lemma StepRecorded<N>(t: State<N>, op: Op<N>, name: N)
    requires Inv(t) && Step(t, op).Some?
    ensures var t' := Step(t, op).value;
      && (name in t'.tasks <==> name in t.tasks || (op == GoOp(name) && Go(t, name).1 == Started))
      && (name in t'.Finished() <==> name in t.Finished() || (op.DoneOp? && op.name == name))
      && (op.DoneOp? && op.name == name ==> name in t.Unfinished() && t'.tasks[name] == Info(op.now, op.err))
      && (name in t.Finished() ==> t'.tasks[name] == t.tasks[name])
      && (op == GoOp(name) && Go(t, name).1 == Started ==> name !in t.tasks)
  {
  }

  lemma StartSnoc<N>(ops: seq<Op<N>>, name: N)
    requires ops != [] && Run(Empty<N>(), ops).Some? && Run(Empty<N>(), ops[..|ops| - 1]).Some?
    requires StartRecorded(ops[..|ops| - 1], Run(Empty<N>(), ops[..|ops| - 1]).value, name)
    ensures StartRecorded(ops, Run(Empty<N>(), ops).value, name)
  {
    var n := |ops| - 1;
    var t := Run(Empty<N>(), ops[..n]).value;
    RunLast(Empty<N>(), ops);
    HistoryGrows(ops, name);
    EmptyInv<N>();
    RunInv(Empty<N>(), ops[..n]);
    StepRecorded(t, ops[n], name);
    assert Starts(ops, n, name) <==> ops[n] == GoOp(name) && Go(t, name).1 == Started;
  }

  lemma EndSnoc<N>(ops: seq<Op<N>>, name: N)
    requires ops != [] && Run(Empty<N>(), ops).Some? && Run(Empty<N>(), ops[..|ops| - 1]).Some?
    requires EndRecorded(ops[..|ops| - 1], Run(Empty<N>(), ops[..|ops| - 1]).value, name)
    ensures EndRecorded(ops, Run(Empty<N>(), ops).value, name)
  {
    var n := |ops| - 1;
    var t := Run(Empty<N>(), ops[..n]).value;
    RunLast(Empty<N>(), ops);
    HistoryGrows(ops, name);
    EmptyInv<N>();
    RunInv(Empty<N>(), ops[..n]);
    StepRecorded(t, ops[n], name);
    assert Ends(ops, n, name) <==> ops[n].DoneOp? && ops[n].name == name;
  }

  /**
   * In every run the records of the manager are exactly its history: a name is there if and
   * only if one Go started it, which happens at most once, and it is finished if and only if
   * its task has ended, which happens at most once, with the error and the time it ended with.
   */
  lemma {:induction false} RecordsAreHistory<N>(ops: seq<Op<N>>, name: N)
    requires Run(Empty<N>(), ops).Some?
    ensures var t := Run(Empty<N>(), ops).value; StartRecorded(ops, t, name) && EndRecorded(ops, t, name)
    decreases |ops|
  {
    if ops != [] {
      RunLast(Empty<N>(), ops);
      RecordsAreHistory(ops[..|ops| - 1], name);
      StartSnoc(ops, name);
      EndSnoc(ops, name);
    }
  }

  /** The manager is stopped exactly if somebody has stopped it. */
  lemma {:induction false} StoppedIff<N>(ops: seq<Op<N>>)
    requires Run(Empty<N>(), ops).Some?
    ensures Run(Empty<N>(), ops).value.stopped <==> StopOp in ops
    decreases |ops|
  {
    if ops != [] {
      var n := |ops| - 1;
      RunLast(Empty<N>(), ops);
      StoppedIff(ops[..n]);
      assert ops == ops[..n] + [ops[n]];
    }
  }

  /** Of all callers of StopAndWait exactly the first one goes on to wait, and no call touches a task. */
  lemma FirstStopperWaits<N>(ops: seq<Op<N>>)
    requires Run(Empty<N>(), ops).Some?
    ensures var t := Run(Empty<N>(), ops).value;
      && (Stop(t).1 <==> StopOp !in ops)
      && Stop(t).0.stopped && Stop(t).0.tasks == t.tasks && Stop(t).0.num == t.num && Stop(t).0.tokens == t.tokens
  {
    StoppedIff(ops);
  }

  // ----- what callers rely on, for every interleaving

  /**
   * Completion token: at most one is ever sent, and one has been sent exactly when the
   * manager is stopped, no task is unfinished, and some task was unfinished when it was stopped.
   */
  lemma TokenExact<N>(ops: seq<Op<N>>)
    requires Run(Empty<N>(), ops).Some?
    ensures var t := Run(Empty<N>(), ops).value;
            && t.num == |t.Unfinished()|
            && t.sent <= 1
            && (t.sent == 1 <==> t.stopped && t.Unfinished() == {} && t.atStop != {})
  {
    EmptyInv<N>();
    RunInv(Empty<N>(), ops);
  }

  /** A task's final call always returns, in every state of every interleaving. */
  lemma DoneReturns<N>(ops: seq<Op<N>>, name: N, err: Option<Failure>, now: nat)
    requires Run(Empty<N>(), ops).Some? && name in Run(Empty<N>(), ops).value.Unfinished() && now > 0
    ensures Done(Run(Empty<N>(), ops).value, name, err, now).Returned?
  {
    EmptyInv<N>();
    RunInv(Empty<N>(), ops);
    DoneInv(Run(Empty<N>(), ops).value, name, err, now);
  }

  /** A nil return through doneCh means that every task ever started has finished. */
  lemma NilMeansAllFinished<N>(ops: seq<Op<N>>)
    requires Run(Empty<N>(), ops + [TakeOp]).Some?
    ensures var t := Run(Empty<N>(), ops + [TakeOp]).value; t.stopped && t.Finished() == t.tasks.Keys
  {
    RunAppend(Empty<N>(), ops, [TakeOp]);
    TokenExact(ops);
    var t := Run(Empty<N>(), ops).value;
    EmptyInv<N>();
    RunInv(Empty<N>(), ops);
    assert forall n | n in t.tasks :: n !in t.Unfinished() && n in t.Finished();
    assert Run(t, [TakeOp]) == Step(t, TakeOp);
  }

  lemma {:induction false} RunAppend<N>(t: State<N>, xs: seq<Op<N>>, ys: seq<Op<N>>)
    ensures Run(t, xs + ys) == match Run(t, xs) case None => None case Some(t') => Run(t', ys)
    decreases |xs|
  {
    if xs == [] {
      assert xs + ys == ys;
    } else {
      assert (xs + ys)[0] == xs[0] && (xs + ys)[1..] == xs[1..] + ys;
      if Step(t, xs[0]).Some? {
        RunAppend(Step(t, xs[0]).value, xs[1..], ys);
      }
    }
  }

  /** Names are never dropped or restarted, results never change, and a stopped manager only drains. */
  lemma {:induction false} Monotone<N>(t: State<N>, ops: seq<Op<N>>)
    requires Run(t, ops).Some?
    ensures var t' := Run(t, ops).value;
            && t.tasks.Keys <= t'.tasks.Keys
            && (forall n | n in t.Finished() :: n in t'.tasks && t'.tasks[n] == t.tasks[n])
            && (t.stopped ==> t'.stopped && t'.tasks.Keys == t.tasks.Keys && t'.Unfinished() <= t.Unfinished()
                              && t'.atStop == t.atStop)
    decreases |ops|
  {
    if ops != [] {
      var t1 := Step(t, ops[0]).value;
      assert t.tasks.Keys <= t1.tasks.Keys;
      assert forall n | n in t.Finished() :: n in t1.Finished() && t1.tasks[n] == t.tasks[n];
      Monotone(t1, ops[1..]);
    }
  }

  /**
   * A manager stopped when all its tasks had already finished never gets a token: the waiting
   * StopAndWait can only leave through its timeout.
   */
  lemma StoppedIdleNeverSignals<N>(ops: seq<Op<N>>, rest: seq<Op<N>>)
    requires Run(Empty<N>(), ops + [StopOp] + rest).Some?
    requires Run(Empty<N>(), ops).Some? && !Run(Empty<N>(), ops).value.stopped
    ensures Run(Empty<N>(), ops).value.Unfinished() == {} ==> Run(Empty<N>(), ops + [StopOp] + rest).value.sent == 0
  {
    var t := Run(Empty<N>(), ops).value;
    var t1 := Stop(t).0;
    RunAppend(Empty<N>(), ops + [StopOp], rest);
    RunAppend(Empty<N>(), ops, [StopOp]);
    assert Run(t, [StopOp]) == Some(t1);
    Monotone(t1, rest);
    TokenExact(ops + [StopOp] + rest);
  }

  /**
   * Only the caller that stopped the manager waits. In every run, whatever is still unfinished
   * when the manager has been stopped, a further StopAndWait returns nil at once and changes
   * nothing: its nil says nothing about the tasks.
   */
  lemma SecondStopperLearnsNothing<N>(ops: seq<Op<N>>, rest: seq<Op<N>>)
    requires Run(Empty<N>(), ops + [StopOp] + rest).Some?
    ensures var t := Run(Empty<N>(), ops + [StopOp] + rest).value; t.stopped && Stop(t) == (t, false)
  {
    RunAppend(Empty<N>(), ops + [StopOp], rest);
    RunAppend(Empty<N>(), ops, [StopOp]);
    var t := Run(Empty<N>(), ops).value;
    assert Run(t, [StopOp]) == Some(Stop(t).0);
    Monotone(Stop(t).0, rest);
  }

  /** ... and any task may be unfinished at that moment. */
  lemma SecondStopperMayBeEarly<N>(name: N)
    ensures var t := Run(Empty<N>(), [GoOp(name), StopOp]);
            t.Some? && !Stop(t.value).1 && t.value.Unfinished() == {name}
  {
    EmptyInv<N>();
    var t1 := Go(Empty<N>(), name).0;
    var t2 := Stop(t1).0;
    assert Step(Empty<N>(), GoOp(name)) == Some(t1);
    assert Run(t1, [StopOp]) == Some(t2);
    assert [GoOp(name), StopOp][1..] == [StopOp];
  }
}
