// How a connection ends: where its error comes from, and that its send loop does end.
module Ending {
  import opened Bytes
  import opened Errors
  import opened Codec
  import opened Endpoint
  import opened SendSafety
  import opened ReadSafety
  import opened Shutdown
  import opened Connection
  import opened Counting

  // ----- what a reported error can be

  /** The send loop has acknowledged its last message and will not dequeue another one. */
  predicate AfterLastAck(pc: SendPc) {
    (pc.Testing? && pc.r.Err?) || pc.Recording? || pc.SendStopping? || pc.SendEnding? || pc.SendGone?
  }

  /** `e` is the error with which the last dequeued message failed, and its call's acknowledgement. */
  ghost predicate SendFailed(s: State, e: Failure) {
    AfterLastAck(s.out.pc) && exists c: nat :: FailedCall(s, e, c)
  }

  ghost predicate FailedCall(s: State, e: Failure, c: nat) {
    && c < |s.calls|
    && s.chan.processed == s.out.written + [Item(c, s.calls[c].msg)]
    && s.calls[c].body == Body(true, Err(e), 1, 1)
  }

  /** An error given to merr is stop's own, the read loop's, or the last message's. */
  ghost predicate Source(s: State, e: Failure) {
    || (e == IsClose && Effects(s.life.stop) >= 1)
    || s.inp.failure == Some(e)
    || SendFailed(s, e)
  }

  ghost predicate ReportInv(s: State) {
    && (s.out.pc.Testing? && s.out.pc.r.Err? ==> SendFailed(s, s.out.pc.r.e))
    && (s.out.pc.Recording? ==> SendFailed(s, s.out.pc.e))
    && forall e :: e in s.errs.reports ==> Source(s, e)
  }

  lemma CloseAckFails(max: uint32, s: State)
    requires SendInv(max, s) && s.out.pc.Closing? && s.out.pc.r.Err? && SendStep(max, s, OnBody(CloseAck)).Some?
    ensures SendFailed(SendStep(max, s, OnBody(CloseAck)).value, s.out.pc.r.e)
  {
    var m, ch := s.out.pc.m, s.chan;
    assert ch.enqueued[|s.out.written|] == m;
    assert Queued(s.calls, m);
    assert FailedCall(SendStep(max, s, OnBody(CloseAck)).value, s.out.pc.r.e, m.c);
  }

  lemma FailedStays(max: uint32, s: State, l: Label, e: Failure)
    requires UnbornInv(s) && SendFailed(s, e) && Step(max, s, l).Some?
    ensures SendFailed(Step(max, s, l).value, e)
  {
    var c: nat :| FailedCall(s, e, c);
    FailedFrame(max, s, l);
    assert FailedCall(Step(max, s, l).value, e, c);
  }

  lemma FailedFrame(max: uint32, s: State, l: Label)
    requires UnbornInv(s) && AfterLastAck(s.out.pc) && Step(max, s, l).Some?
    ensures var t := Step(max, s, l).value;
      && AfterLastAck(t.out.pc) && t.chan.processed == s.chan.processed && t.out.written == s.out.written
      && |s.calls| <= |t.calls|
      && forall c :: 0 <= c < |s.calls| ==> t.calls[c].msg == s.calls[c].msg && t.calls[c].body == s.calls[c].body
  {
  }

  lemma SourceStays(max: uint32, s: State, l: Label, e: Failure)
    requires UnbornInv(s) && ReadInv(max, s.inp) && UnbornRead(s) && EffectsBounded(s)
    requires Source(s, e) && Step(max, s, l).Some?
    ensures Source(Step(max, s, l).value, e)
  {
    if SendFailed(s, e) {
      FailedStays(max, s, l, e);
    } else {
      OriginFrame(max, s, l, e);
    }
  }

  predicate EffectsBounded(s: State) {
    s.life.stop.Stopping? ==> s.life.stop.effects <= 3
  }

  lemma OriginFrame(max: uint32, s: State, l: Label, e: Failure)
    requires ReadInv(max, s.inp) && UnbornRead(s) && Step(max, s, l).Some? && EffectsBounded(s)
    ensures var t := Step(max, s, l).value;
      && (s.inp.failure == Some(e) ==> t.inp.failure == Some(e))
      && Effects(s.life.stop) <= Effects(t.life.stop)
  {
    var rest :| Leftover(max, s.inp, rest);
  }

  /** Which report a step adds, and which program counters it leads to. */
  lemma NewReport(max: uint32, s: State, l: Label)
    requires Step(max, s, l).Some? && l != Send(OnBody(CloseAck))
    ensures var t := Step(max, s, l).value;
      && (t.errs == s.errs
          || (l.StopEffect? && t.errs.reports == s.errs.reports + [IsClose] && Effects(t.life.stop) >= 1)
          || (s.inp.pc.ReadFailed? && t.errs.reports == s.errs.reports + [s.inp.pc.e])
          || (s.out.pc.Recording? && t.errs.reports == s.errs.reports + [s.out.pc.e]))
      && (t.out.pc.Testing? && t.out.pc.r.Err? ==> t.out.pc == s.out.pc)
      && (t.out.pc.Recording? ==> t.out.pc == s.out.pc || s.out.pc == Testing(Err(t.out.pc.e)))
  {
  }

  lemma StepReport(max: uint32, s: State, l: Label)
    requires SendInv(max, s) && ReadInv(max, s.inp) && UnbornRead(s) && EffectsBounded(s)
    requires ReportInv(s) && Step(max, s, l).Some?
    ensures ReportInv(Step(max, s, l).value)
  {
    var t := Step(max, s, l).value;
    forall e | Source(s, e)
      ensures Source(t, e)
    {
      SourceStays(max, s, l, e);
    }
    forall e | SendFailed(s, e)
      ensures SendFailed(t, e)
    {
      FailedStays(max, s, l, e);
    }
    if l == Send(OnBody(CloseAck)) {
      if s.out.pc.r.Err? {
        CloseAckFails(max, s);
      }
    } else {
      var rest :| Leftover(max, s.inp, rest);
      NewReport(max, s, l);
    }
  }

  lemma {:induction false} RunReport(max: uint32, s: State, ls: seq<Label>)
    requires Connection.Inv(max, s) && ReportInv(s) && Run(max, s, ls).Some?
    ensures ReportInv(Run(max, s, ls).value)
    decreases |ls|
  {
    if ls != [] {
      StepInv(max, s, ls[0]);
      StepReport(max, s, ls[0]);
      RunReport(max, Step(max, s, ls[0]).value, ls[1..]);
    }
  }

  /**
   * Every error that merr has got, the first one included, is the ErrIsClose of a stop that has
   * begun, the error of the one Unmarshal that failed, or the error of the one message that
   * failed, which its caller has been told as well.
   */
  lemma ErrorHasSource(max: uint32, s: State)
    requires Reachable(max, s)
    ensures forall e :: e in s.errs.reports ==> Source(s, e)
    ensures s.errs.first.Some? ==> Source(s, s.errs.first.value)
  {
    var ls :| Run(max, INIT, ls) == Some(s);
    InitInv(max);
    RunReport(max, INIT, ls);
    ReachableInv(max, s);
  }

  // ----- draining behind a closed transport

  /** Once the transport is closed, at most one more message is ever dequeued. */
  lemma DrainBound(max: uint32, s: State, ls: seq<Label>)
    requires Reachable(max, s) && s.flags.closed && Run(max, s, ls).Some?
    ensures |Run(max, s, ls).value.chan.processed| <= |s.chan.processed| + 1
  {
    ReachableInv(max, s);
    DequeuesAfterClose(max, s, ls);
  }

  lemma {:induction false} DequeuesAfterClose(max: uint32, s: State, ls: seq<Label>)
    requires Connection.Inv(max, s) && s.flags.closed && Run(max, s, ls).Some?
    ensures |Run(max, s, ls).value.chan.processed| <= |s.chan.processed| + (if MaySelect(s.out.pc) then 1 else 0)
    decreases |ls|
  {
    if ls != [] {
      StepDequeues(max, s, ls[0]);
      StepInv(max, s, ls[0]);
      DequeuesAfterClose(max, Step(max, s, ls[0]).value, ls[1..]);
    }
  }

  /**
   * Every further step of the send loop, of a caller in flight, of stop or of taskgo behind the
   * loop uses up a natural number.
   */
  lemma DrainDecreases(max: uint32, s: State, l: Label)
    requires Reachable(max, s) && s.flags.closed && Step(max, s, l).Some?
    requires l.Send? || l.Caller? || l.StopStart? || l.StopEffect? || (l.Task? && l.ta.EndSend?)
    ensures Drain(Step(max, s, l).value) < Drain(s)
  {
    ReachableInv(max, s);
    match l
    case Send(a) => SendDrains(max, s, a);
    case Caller(i, a) => CallerDrains(s, i, a);
    case _ =>
  }

  /** Once the connection's context has ended, every call in flight has an enabled step that returns. */
  lemma CallersCanReturn(max: uint32, s: State, c: nat)
    requires s.flags.connDone && c < |s.calls| && !s.calls[c].pc.Returned?
    ensures exists a :: CallerStep(s, c, a).Some? && CallerStep(s, c, a).value.calls[c].pc.Returned?
  {
    var a := if s.calls[c].pc.Acked? then ReadAck else GiveUpClosed;
    assert CallerStep(s, c, a).Some? && CallerStep(s, c, a).value.calls[c].pc.Returned?;
  }

  // ----- the send loop ends

  /** The next step towards the end of the send loop; a Write on a closed transport fails. */
  function NextDrain(s: State): Label {
    match s.out.pc
    case Selecting => Send(Quit)
    case Claiming(_) => Send(OnBody(Claim))
    case Marshalling(_) => Send(OnWire(MarshalIt))
    case Writing(m, k) => Send(OnWire(if k == |Encode(m.msg)| then WriteOk else WriteFail(ClosedPipe)))
    case Storing(_, _) => Send(OnBody(Store))
    case Closing(_, _) => Send(OnBody(CloseAck))
    case Testing(_) => Send(OnWire(Test))
    case Recording(_) => Send(Record)
    case SendStopping =>
      if s.life.stop.NotStopped? then StopStart(BySend)
      else if s.life.stop.Stopping? then StopEffect
      else Send(LeaveStop)
    case _ => Task(EndSend(1))
  }

  /** The connection's context or the handler manager's has ended; the send loop selects on both. */
  predicate Ended(s: State) {
    s.flags.connDone || s.flags.hDone
  }

  ghost predicate Drains(max: uint32, s: State, l: Label) {
    match Step(max, s, l)
    case Some(t) => Drain(t) < Drain(s) && t.flags.closed && Ended(t) && !t.out.pc.SendUnborn?
    case None => false
  }

  /**
   * Once the transport is closed and one of the contexts has ended, a step that lowers Drain is
   * enabled until the loop is gone.
   */
  lemma DrainProgress(max: uint32, s: State)
    requires Reachable(max, s) && s.flags.closed && Ended(s)
    requires !s.out.pc.SendUnborn? && !s.out.pc.SendGone?
    ensures Drains(max, s, NextDrain(s))
  {
    if s.out.pc.SendEnding? {
      NeverStuck(max, s, 1);
    } else {
      ReachableInv(max, s);
      if NextDrain(s).Send? {
        LoopDrains(max, s);
      } else {
        StopDrains(max, s);
      }
    }
  }

  lemma LoopDrains(max: uint32, s: State)
    requires SendInv(max, s) && s.flags.closed && Ended(s) && NextDrain(s).Send?
    requires !s.out.pc.SendUnborn? && !s.out.pc.SendGone?
    ensures Drains(max, s, NextDrain(s))
  {
    SendEnabled(max, s);
    SendDrains(max, s, NextDrain(s).sa);
    SendKeepsFlags(max, s, NextDrain(s).sa);
  }

  lemma StopDrains(max: uint32, s: State)
    requires s.flags.closed && Ended(s) && s.out.pc.SendStopping? && !s.life.stop.StopDone? && EffectsBounded(s)
    ensures Drains(max, s, NextDrain(s))
  {
  }

  lemma SendKeepsFlags(max: uint32, s: State, a: SendAct)
    requires SendStep(max, s, a).Some?
    ensures var t := SendStep(max, s, a).value; t.flags == s.flags && t.out.pc.SendUnborn? == s.out.pc.SendUnborn?
  {
  }

  lemma SendEnabled(max: uint32, s: State)
    requires SendInv(max, s) && Ended(s) && NextDrain(s).Send?
    requires !s.out.pc.SendUnborn? && !s.out.pc.SendGone?
    ensures SendStep(max, s, NextDrain(s).sa).Some?
  {
  }

  /**
   * A connection of which a context has ended and the transport is closed comes to the end of its
   * send loop: at most Drain(s) further steps lead there, whatever is still queued.
   */
  lemma {:induction false} DrainReachesEnd(max: uint32, s: State) returns (ls: seq<Label>)
    requires Reachable(max, s) && s.flags.closed && Ended(s) && !s.out.pc.SendUnborn?
    ensures |ls| <= Drain(s)
    ensures Run(max, s, ls).Some? && Run(max, s, ls).value.out.pc.SendGone?
    decreases Drain(s)
  {
    ls := [];
    if !s.out.pc.SendGone? {
      var l := NextDrain(s);
      DrainProgress(max, s);
      ReachableStep(max, s, l);
      var more := DrainReachesEnd(max, Step(max, s, l).value);
      ls := [l] + more;
    }
  }
}
