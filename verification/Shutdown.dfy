// The end of a connection: HandlerManager.stop, the first error, the three tasks, and draining.
module Shutdown {
  import opened Errors
  import opened Bytes
  import opened Codec
  import opened Counting
  import opened Endpoint
  import opened SendSafety
  import T = TaskSpec

  // ----- stop and merr

  /** How many of stop's four effects have happened. */
  function Effects(p: StopPc): nat {
    match p
    case NotStopped => 0
    case Stopping(_, n) => n
    case StopDone => 4
  }

  /**
   * stop's effects happen in order: err is set, then Connection.ctx ends, then the transport
   * closes, then HandlerManager.ctx ends; without an outside cause none of them is ahead.
   * err is the first reported error. A task that has passed its deferred stop found it complete.
   */
  ghost predicate StopInv(s: State) {
    var n, fl := Effects(s.life.stop), s.flags;
    && (s.life.stop.Stopping? ==> n <= 3)
    && (n >= 1 ==> s.errs.first.Some?)
    && (n >= 2 ==> fl.connDone)
    && (n >= 3 ==> fl.closed)
    && (n >= 4 ==> fl.hDone)
    && (fl.connDone ==> n >= 2 || fl.userClosed)
    && (fl.closed ==> n >= 3 || fl.closedOutside)
    && (fl.hDone ==> n >= 4 || fl.parentDone)
    && s.errs.first == (if s.errs.reports == [] then None else Some(s.errs.reports[0]))
    && (s.life.stop.Stopping? && s.life.stop.who.ByRead? ==> s.inp.pc.ReadStopping?)
    && (s.life.stop.Stopping? && s.life.stop.who.BySend? ==> s.out.pc.SendStopping?)
    && (s.inp.pc.ReadEnding? || s.inp.pc.ReadGone? ==> s.life.stop.StopDone?)
    && (s.out.pc.SendEnding? || s.out.pc.SendGone? ==> s.life.stop.StopDone?)
  }

  lemma StepStop(max: uint32, s: State, l: Label)
    requires StopInv(s) && SendInv(max, s) && Step(max, s, l).Some?
    requires s.life.built < 2 ==> s.inp.pc.ReadUnborn?
    ensures StopInv(Step(max, s, l).value)
  {
    match l
    case Send(a) => SendStop(max, s, a);
    case Read(a) => ReadStop(max, s, a);
    case StopStart(who) => StopStartStop(s, who);
    case StopEffect => StopEffectStop(s);
    case Task(a) => TaskStop(max, s, a);
    case Caller(i, a) => CallerStop(s, i, a);
    case Env(a) => EnvStop(s, a);
  }

  lemma StopStartStop(s: State, who: Stopper)
    requires StopInv(s) && StopStartStep(s, who).Some?
    ensures StopInv(StopStartStep(s, who).value)
  {
  }

  lemma StopEffectStop(s: State)
    requires StopInv(s) && StopEffectStep(s).Some?
    ensures StopInv(StopEffectStep(s).value)
  {
  }

  lemma CallerStop(s: State, i: nat, a: CallerAct)
    requires StopInv(s) && CallerStep(s, i, a).Some?
    ensures StopInv(CallerStep(s, i, a).value)
  {
  }

  lemma EnvStop(s: State, a: EnvAct)
    requires StopInv(s) && EnvStep(s, a).Some?
    ensures StopInv(EnvStep(s, a).value)
  {
  }

  lemma SendStop(max: uint32, s: State, a: SendAct)
    requires StopInv(s) && SendStep(max, s, a).Some?
    ensures StopInv(SendStep(max, s, a).value)
  {
  }

  lemma ReadStop(max: uint32, s: State, a: ReadAct)
    requires StopInv(s) && ReadStep(max, s, a).Some?
    ensures StopInv(ReadStep(max, s, a).value)
  {
  }

  lemma TaskStop(max: uint32, s: State, a: TaskAct)
    requires StopInv(s) && TaskStep(s, a).Some? && UnbornInv(s)
    requires s.life.built < 2 ==> s.inp.pc.ReadUnborn?
    ensures StopInv(TaskStep(s, a).value)
  {
  }

  /** First error wins: err, once set, never changes. */
  lemma StepKeepsErr(max: uint32, s: State, l: Label)
    requires Step(max, s, l).Some? && s.errs.first.Some?
    ensures Step(max, s, l).value.errs.first == s.errs.first
  {
  }

  // ----- the three tasks

  function Index(name: TaskName): nat {
    match name case CallBegin => 0 case ReadTask => 1 case SendTask => 2
  }

  predicate IsRunning(s: State, name: TaskName) {
    match name
    case CallBegin => s.life.begin.BeginRunning?
    case ReadTask => !s.inp.pc.ReadUnborn? && !s.inp.pc.ReadGone?
    case SendTask => !s.out.pc.SendUnborn? && !s.out.pc.SendGone?
  }

  /** The task manager's records agree with the three goroutines. */
  ghost predicate TaskInv(s: State) {
    var f := s.life;
    && T.Inv(f.tasks)
    && f.built <= 3
    && Recorded(s, CallBegin) && Recorded(s, ReadTask) && Recorded(s, SendTask)
    && (f.begin.BeginUnborn? <==> f.built < 1)
    && (s.inp.pc.ReadUnborn? <==> f.built < 2)
    && (s.out.pc.SendUnborn? <==> f.built < 3)
    && (f.wait.Watching? <==> !f.tasks.stopped)
    && (f.tasks.stopped ==> f.built == 3)
    && (f.wait.Waiting? ==> f.tasks.tokens == f.tasks.sent)
    && WaitInv(s)
  }

  ghost predicate Recorded(s: State, name: TaskName) {
    && (name in s.life.tasks.tasks <==> Index(name) < s.life.built)
    && (name in s.life.tasks.Unfinished() <==> IsRunning(s, name))
  }

  /** What the waiting goroutine has learnt when it returned through doneCh. */
  ghost predicate WaitInv(s: State) {
    match s.life.wait
    case WaitOver(true) => s.life.tasks.sent == 1
    case Reported(true, err, closed) => s.life.tasks.sent == 1 && err.Some? && closed
    case _ => true
  }

  lemma SmallSets(s: set<TaskName>)
    ensures |s| <= 3
  {
    var all := {CallBegin, ReadTask, SendTask};
    forall n | n in s
      ensures n in all
    {
      match n case CallBegin => case ReadTask => case SendTask =>
    }
    assert all == s + (all - s);
    assert |all| <= 3;
  }

  /** NewHandlerManager starts its next task: the name is new and the manager is not stopped. */
  lemma BuildTask(s: State)
    requires TaskInv(s) && TaskStep(s, Build).Some?
    ensures TaskInv(TaskStep(s, Build).value)
  {
    if s.life.built == 0 {
      BuildBegin(s);
    } else if s.life.built == 1 {
      BuildRead(s);
    } else {
      BuildSend(s);
    }
  }

  lemma BuildBegin(s: State)
    requires TaskInv(s) && s.life.built == 0
    ensures TaskInv(TaskStep(s, Build).value)
  {
    SmallSets(s.life.tasks.Unfinished());
    GoTask(s.life.tasks, CallBegin);
  }

  lemma BuildRead(s: State)
    requires TaskInv(s) && s.life.built == 1
    ensures TaskInv(TaskStep(s, Build).value)
  {
    SmallSets(s.life.tasks.Unfinished());
    GoTask(s.life.tasks, ReadTask);
  }

  lemma BuildSend(s: State)
    requires TaskInv(s) && s.life.built == 2
    ensures TaskInv(TaskStep(s, Build).value)
  {
    SmallSets(s.life.tasks.Unfinished());
    GoTask(s.life.tasks, SendTask);
  }

  lemma GoTask(t: T.State<TaskName>, name: TaskName)
    requires T.Inv(t) && |t.Unfinished()| < MAX_INT32 && !t.stopped && name !in t.tasks
    ensures var t' := T.Go(t, name).0;
            && T.Inv(t') && t'.Unfinished() == t.Unfinished() + {name} && t'.tasks.Keys == t.tasks.Keys + {name}
            && t' == t.(tasks := t'.tasks, num := t'.num)
  {
    T.GoInv(t, name);
  }

  lemma DoneTask(t: T.State<TaskName>, name: TaskName, now: nat)
    requires T.Inv(t) && name in t.Unfinished() && now > 0
    ensures var r := T.Done(t, name, None, now);
            && r.Returned? && T.Inv(r.t)
            && r.t.Unfinished() == t.Unfinished() - {name} && r.t.tasks.Keys == t.tasks.Keys
            && r.t.stopped == t.stopped && (t.tokens == t.sent ==> r.t.tokens == r.t.sent)
            && r.t.sent >= t.sent
  {
    var t' := T.DoneFields(t, name, None, now);
    T.DoneInv(t, name, None, now);
  }

  lemma EndTaskTask(s: State, a: TaskAct)
    requires TaskInv(s) && (a.EndBegin? || a.EndRead? || a.EndSend?) && TaskStep(s, a).Some?
    ensures TaskInv(TaskStep(s, a).value)
  {
    var name := if a.EndBegin? then CallBegin else if a.EndRead? then ReadTask else SendTask;
    DoneTask(s.life.tasks, name, a.now);
  }

  lemma WaitTask(s: State, a: TaskAct)
    requires TaskInv(s) && StopInv(s) && (a.StopTasks? || a.TakeToken? || a.TimeOut? || a.Report?)
    requires TaskStep(s, a).Some?
    ensures TaskInv(TaskStep(s, a).value)
  {
    var s' := TaskStep(s, a).value;
    assert s'.life.tasks.Unfinished() == s.life.tasks.Unfinished();
    if a.Report? && s.life.wait.token {
      AllGone(s);
    }
  }

  /** A sent token means that all three goroutines are gone and stop has run completely. */
  lemma AllGone(s: State)
    requires TaskInv(s) && StopInv(s) && s.life.tasks.sent == 1
    ensures s.life.begin.BeginGone? && s.inp.pc.ReadGone? && s.out.pc.SendGone? && s.life.stop.StopDone?
  {
    assert Recorded(s, CallBegin) && Recorded(s, ReadTask) && Recorded(s, SendTask);
  }

  lemma OtherTask(max: uint32, s: State, l: Label)
    requires !l.Task? && Step(max, s, l).Some?
    ensures var s' := Step(max, s, l).value;
            && s'.life == s.life.(stop := s'.life.stop)
            && s'.inp.pc.ReadUnborn? == s.inp.pc.ReadUnborn? && s'.inp.pc.ReadGone? == s.inp.pc.ReadGone?
            && s'.out.pc.SendUnborn? == s.out.pc.SendUnborn? && s'.out.pc.SendGone? == s.out.pc.SendGone?
  {
  }

  lemma StepTask(max: uint32, s: State, l: Label)
    requires TaskInv(s) && StopInv(s) && Step(max, s, l).Some?
    ensures TaskInv(Step(max, s, l).value)
  {
    match l
    case Task(Build) => BuildTask(s);
    case Task(EndBegin(now)) => EndTaskTask(s, EndBegin(now));
    case Task(EndRead(now)) => EndTaskTask(s, EndRead(now));
    case Task(EndSend(now)) => EndTaskTask(s, EndSend(now));
    case Task(a) => WaitTask(s, a);
    case _ =>
      OtherTask(max, s, l);
  }

  // ----- draining once the transport is closed

  /** How far the send loop is from its end when every new write fails. */
  function SendRank(pc: SendPc): nat {
    match pc
    case SendUnborn => 15
    case Writing(m, k) => if k == |Encode(m.msg)| then 14 else 7
    case Storing(_, r) => if r.Nil? then 13 else 6
    case Closing(_, r) => if r.Nil? then 12 else 5
    case Testing(r) => if r.Nil? then 11 else 4
    case Selecting => 10
    case Claiming(_) => 9
    case Marshalling(_) => 8
    case Recording(_) => 3
    case SendStopping => 2
    case SendEnding => 1
    case SendGone => 0
  }

  function CallRank(pc: CallPc): nat {
    match pc case Offering => 3 case Awaiting => 2 case Acked => 1 case Returned(_, _, _) => 0
  }

  function CallWeight(c: Call): nat {
    CallRank(c.pc)
  }

  /** Decreases with every step of the send loop, of a caller in flight, and of stop. */
  function Drain(s: State): nat {
    SendRank(s.out.pc) + Sum(CallWeight, s.calls) + (if s.life.stop.NotStopped? then 5 else 4 - Min4(Effects(s.life.stop)))
  }

  function Min4(n: nat): nat {
    if n <= 4 then n else 4
  }

  lemma FrameNotEmpty(m: Message)
    ensures |Encode(m)| >= HEADER
  {
  }

  lemma CheckedRank(max: uint32, m: Item)
    ensures SendRank(Checked(max, m)) <= 7
  {
    FrameNotEmpty(m.msg);
  }

  lemma SendDrains(max: uint32, s: State, a: SendAct)
    requires SendInv(max, s) && s.flags.closed && SendStep(max, s, a).Some?
    ensures var s' := SendStep(max, s, a).value;
            && SendRank(s'.out.pc) < SendRank(s.out.pc)
            && Sum(CallWeight, s'.calls) == Sum(CallWeight, s.calls) && s'.life == s.life
  {
    match a
    case OnWire(MarshalIt) => CheckedRank(max, s.out.pc.m);
    case OnBody(b) =>
      var m := InHand(s.out.pc).value;
      SumUpdate(CallWeight, s.calls, m.c, SendStep(max, s, a).value.calls[m.c]);
    case _ =>
  }

  lemma CallerDrains(s: State, i: nat, a: CallerAct)
    requires CallerStep(s, i, a).Some?
    ensures var s' := CallerStep(s, i, a).value;
            Sum(CallWeight, s'.calls) < Sum(CallWeight, s.calls) && s'.out == s.out && s'.life == s.life
  {
    SumUpdate(CallWeight, s.calls, i, CallerStep(s, i, a).value.calls[i]);
  }

  /** The states in which the send loop may still reach its select again. */
  predicate MaySelect(pc: SendPc) {
    SendRank(pc) >= 10
  }

  /** A dequeue uses up the last return to the select. */
  lemma StepDequeues(max: uint32, s: State, l: Label)
    requires SendInv(max, s) && s.flags.closed && Step(max, s, l).Some?
    ensures var s' := Step(max, s, l).value;
            && s'.flags.closed
            && |s'.chan.processed| + (if MaySelect(s'.out.pc) then 1 else 0)
               <= |s.chan.processed| + (if MaySelect(s.out.pc) then 1 else 0)
  {
    match l
    case Send(a) => SendDrains(max, s, a);
    case _ => NoDequeue(max, s, l);
  }

  lemma NoDequeue(max: uint32, s: State, l: Label)
    requires UnbornInv(s) && !l.Send? && Step(max, s, l).Some?
    ensures var s' := Step(max, s, l).value;
            && s'.chan.processed == s.chan.processed && (s.flags.closed ==> s'.flags.closed)
            && SendRank(s'.out.pc) <= SendRank(s.out.pc)
  {
  }

  /** After a failed message, and in stop and behind it, nothing more is dequeued or written. */
  predicate SendOver(pc: SendPc) {
    match pc
    case Storing(_, r) => r.Err?
    case Closing(_, r) => r.Err?
    case Testing(r) => r.Err?
    case _ => pc.Recording? || pc.SendStopping? || pc.SendEnding? || pc.SendGone?
  }

  lemma StepSendOver(max: uint32, s: State, l: Label)
    requires SendOver(s.out.pc) && UnbornInv(s) && Step(max, s, l).Some?
    ensures var s' := Step(max, s, l).value;
            && SendOver(s'.out.pc) && s'.chan.processed == s.chan.processed
            && s'.out.wire == s.out.wire && s'.out.written == s.out.written
  {
  }
}
