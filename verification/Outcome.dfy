// What a result of SendMsg says about the frame, and when a message can still go out.
module Outcome {
  import opened Bytes
  import opened Errors
  import opened Codec
  import opened Endpoint
  import opened SendSafety
  import opened Shutdown
  import opened Connection

  // ----- a result from the first select, and one from the second

  /** A result came out of the first select exactly if the message never entered msgChan. */
  lemma QueuedExactly(max: uint32, s: State, c: nat)
    requires Reachable(max, s) && c < |s.calls| && s.calls[c].pc.Returned?
    ensures s.calls[c].pc.queued <==> Has(s.chan.enqueued, c)
  {
    ReachableInv(max, s);
  }

  lemma {:induction false} ReturnedStays(max: uint32, s: State, ls: seq<Label>, c: nat)
    requires c < |s.calls| && s.calls[c].pc.Returned? && Run(max, s, ls).Some?
    ensures var t := Run(max, s, ls).value;
            c < |t.calls| && t.calls[c].pc == s.calls[c].pc && t.calls[c].msg == s.calls[c].msg
    decreases |ls|
  {
    if ls != [] {
      ReturnedStep(max, s, ls[0], c);
      ReturnedStays(max, Step(max, s, ls[0]).value, ls[1..], c);
    }
  }

  lemma ReturnedStep(max: uint32, s: State, l: Label, c: nat)
    requires c < |s.calls| && s.calls[c].pc.Returned? && Step(max, s, l).Some?
    ensures var t := Step(max, s, l).value;
            c < |t.calls| && t.calls[c].pc == s.calls[c].pc && t.calls[c].msg == s.calls[c].msg
  {
  }

  /**
   * After an error out of the first select no continuation of the run queues, dequeues or
   * writes the message: the wire holds bytes of frames of other calls only.
   */
  lemma NeverQueuedStaysOut(max: uint32, s: State, ls: seq<Label>, c: nat)
    requires Reachable(max, s) && c < |s.calls| && s.calls[c].pc.Returned? && !s.calls[c].pc.queued
    requires Run(max, s, ls).Some?
    ensures var t := Run(max, s, ls).value;
            && !Has(t.chan.enqueued, c) && !Has(t.chan.processed, c) && !Has(t.out.written, c)
            && t.out.wire <= Frames(t.chan.processed)
  {
    var t := Run(max, s, ls).value;
    ReturnedStays(max, s, ls, c);
    ReachableRun(max, s, ls);
    ReachableInv(max, t);
    assert !Has(t.chan.enqueued, c);
    PrefixHas(t.chan.processed, t.chan.enqueued, c);
    PrefixHas(t.out.written, t.chan.processed, c);
  }

  lemma PrefixHas(front: seq<Item>, all: seq<Item>, c: nat)
    requires front <= all
    ensures Has(front, c) ==> Has(all, c)
  {
    if Has(front, c) {
      var j :| 0 <= j < |front| && front[j].c == c;
      assert all[j].c == c;
    }
  }

  /** The error that each of the two cancellation branches returns. */
  function ErrorOf(via: Branch): Result {
    if via.ClosedBranch? then Err(IsClose) else Err(ContextDone)
  }

  ghost predicate GaveUp(s: State, m: Message, via: Branch, queued: bool) {
    |s.calls| == 1 && s.calls[0].msg == m && s.calls[0].pc == Returned(ErrorOf(via), via, queued)
  }

  // ----- after the transport has closed

  /** Nothing of the calls from n0 on is written or being written, and the transport is closed. */
  ghost predicate ClosedBefore(n0: nat, s: State) {
    && s.flags.closed
    && (forall j :: 0 <= j < |s.out.written| ==> s.out.written[j].c < n0)
    && (s.out.pc.Writing? && s.out.pc.m.c >= n0 ==> s.out.pc.k == 0)
  }

  lemma ClosedStep(max: uint32, n0: nat, s: State, l: Label)
    requires ClosedBefore(n0, s) && UnbornInv(s) && Step(max, s, l).Some?
    ensures var t := Step(max, s, l).value; ClosedBefore(n0, t) && t.out.wire == s.out.wire
  {
    match l
    case Send(a) => ClosedSend(max, n0, s, a);
    case _ =>
  }

  lemma ClosedSend(max: uint32, n0: nat, s: State, a: SendAct)
    requires ClosedBefore(n0, s) && SendStep(max, s, a).Some?
    ensures var t := SendStep(max, s, a).value; ClosedBefore(n0, t) && t.out.wire == s.out.wire
  {
  }

  lemma {:induction false} ClosedRun(max: uint32, n0: nat, s: State, ls: seq<Label>)
    requires Reachable(max, s) && ClosedBefore(n0, s) && Run(max, s, ls).Some?
    ensures var t := Run(max, s, ls).value; ClosedBefore(n0, t) && t.out.wire == s.out.wire
    decreases |ls|
  {
    if ls != [] {
      ReachableInv(max, s);
      ClosedStep(max, n0, s, ls[0]);
      ReachableStep(max, s, ls[0]);
      ClosedRun(max, n0, Step(max, s, ls[0]).value, ls[1..]);
    }
  }

  /**
   * A closed transport takes no byte any more, so a call that starts then is never written,
   * not even in part, and never gets a nil result.
   */
  lemma ClosedTransportNeverSends(max: uint32, s: State, ls: seq<Label>, c: nat)
    requires Reachable(max, s) && s.flags.closed && Run(max, s, ls).Some?
    requires |s.calls| <= c
    ensures var t := Run(max, s, ls).value;
            && t.out.wire == s.out.wire && !Has(t.out.written, c)
            && (c < |t.calls| && t.calls[c].pc.Returned? ==> t.calls[c].pc.r != Nil)
  {
    var t := Run(max, s, ls).value;
    ReachableInv(max, s);
    WrittenBelow(s);
    ClosedRun(max, |s.calls|, s, ls);
    ReachableRun(max, s, ls);
    ReachableInv(max, t);
    if c < |t.calls| {
      assert CallOk(t, c);
    }
  }

  lemma WrittenBelow(s: State)
    requires QueueInv(s.calls, s.chan) && s.out.written <= s.chan.processed && HandInv(s.calls, s.out)
    ensures s.flags.closed ==> ClosedBefore(|s.calls|, s)
  {
    forall j | 0 <= j < |s.out.written|
      ensures s.out.written[j].c < |s.calls|
    {
      assert s.out.written[j] == s.chan.enqueued[j];
      assert Queued(s.calls, s.chan.enqueued[j]);
    }
  }

  // ----- when a message can still go out

  ghost predicate Fits(max: uint32, m: Message) {
    MarshalPlan(max, m).Frame?
  }

  /** A call made now is written in some continuation of the run. */
  ghost predicate CanGoOut(max: uint32, s: State, m: Message) {
    exists ls :: GoesOut(max, s, m, ls)
  }

  ghost predicate GoesOut(max: uint32, s: State, m: Message, ls: seq<Label>) {
    var t := Run(max, s, [Env(NewCall(m))] + ls);
    t.Some? && Has(t.value.out.written, |s.calls|)
  }

  /** The transport is open, and no message in the loop's hands or in the queue fails in Marshal. */
  ghost predicate Open(max: uint32, s: State) {
    && !s.flags.closed
    && !SendOver(s.out.pc)
    && (s.out.pc.Claiming? || s.out.pc.Marshalling? ==> Fits(max, s.out.pc.m.msg))
    && forall j :: 0 <= j < |s.chan.queue| ==> Fits(max, s.chan.queue[j].msg)
  }

  /** How far the send loop is from having written everything that is queued. */
  function Backlog(s: State): nat {
    10 * |s.chan.queue| +
    match s.out.pc
    case SendUnborn => if s.life.built <= 3 then 13 - s.life.built else 0
    case Claiming(_) => 9
    case Marshalling(_) => 8
    case Writing(m, k) => if k == |Encode(m.msg)| then 6 else 7
    case Storing(_, _) => 5
    case Closing(_, _) => 4
    case Testing(_) => 3
    case _ => 0
  }

  ghost predicate Idle(s: State) {
    s.out.pc.Selecting? && s.chan.queue == []
  }

  ghost predicate SameCalls(s: State, t: State) {
    && t.chan.enqueued == s.chan.enqueued && |t.calls| == |s.calls|
    && forall c :: 0 <= c < |s.calls| ==> t.calls[c].pc == s.calls[c].pc && t.calls[c].msg == s.calls[c].msg
  }

  function NextLabel(s: State): Label {
    match s.out.pc
    case SendUnborn => Task(Build)
    case Claiming(_) => Send(OnBody(Claim))
    case Marshalling(_) => Send(OnWire(MarshalIt))
    case Writing(m, k) =>
      Send(OnWire(if k < |Encode(m.msg)| then WriteSome(|Encode(m.msg)| - k) else WriteOk))
    case Storing(_, _) => Send(OnBody(Store))
    case Closing(_, _) => Send(OnBody(CloseAck))
    case Testing(_) => Send(OnWire(Test))
    case _ => Send(Dequeue)
  }

  ghost predicate OpenMove(max: uint32, s: State, l: Label) {
    match Step(max, s, l)
    case Some(t) => Open(max, t) && Backlog(t) < Backlog(s) && SameCalls(s, t)
    case None => false
  }

  lemma OpenBody(max: uint32, s: State)
    requires SendInv(max, s) && Open(max, s) && (s.out.pc.Claiming? || s.out.pc.Storing? || s.out.pc.Closing?)
    ensures OpenMove(max, s, NextLabel(s))
  {
  }

  lemma OpenWire(max: uint32, s: State)
    requires SendInv(max, s) && Open(max, s) && (s.out.pc.Marshalling? || s.out.pc.Writing? || s.out.pc.Testing?)
    ensures OpenMove(max, s, NextLabel(s))
  {
    if s.out.pc.Marshalling? {
      FrameNotEmpty(s.out.pc.m.msg);
    }
  }

  lemma OpenQueue(max: uint32, s: State)
    requires Open(max, s) && s.out.pc.Selecting? && s.chan.queue != []
    ensures OpenMove(max, s, Send(Dequeue))
  {
    assert forall j :: 0 <= j < |s.chan.queue| - 1 ==> s.chan.queue[1..][j] == s.chan.queue[j + 1];
  }

  lemma OpenBuild(max: uint32, s: State)
    requires Open(max, s) && s.out.pc.SendUnborn? && s.life.built < 3
    ensures OpenMove(max, s, Task(Build))
  {
  }

  lemma OpenStep(max: uint32, s: State)
    requires SendInv(max, s) && TaskInv(s) && Open(max, s) && !Idle(s)
    ensures OpenMove(max, s, NextLabel(s))
  {
    match s.out.pc
    case SendUnborn => OpenBuild(max, s);
    case Selecting => OpenQueue(max, s);
    case Marshalling(_) => OpenWire(max, s);
    case Writing(_, _) => OpenWire(max, s);
    case Testing(_) => OpenWire(max, s);
    case _ => OpenBody(max, s);
  }

  lemma {:induction false} OpenDrains(max: uint32, s: State) returns (ls: seq<Label>)
    requires Connection.Inv(max, s) && Open(max, s)
    ensures Run(max, s, ls).Some?
    ensures var t := Run(max, s, ls).value; Connection.Inv(max, t) && Idle(t) && !t.flags.closed && SameCalls(s, t)
    decreases Backlog(s)
  {
    ls := [];
    if !Idle(s) {
      var l := NextLabel(s);
      OpenStep(max, s);
      StepInv(max, s, l);
      var more := OpenDrains(max, Step(max, s, l).value);
      ls := [l] + more;
    }
  }

  /** A caller that offers a message to an open connection can be served. */
  lemma OfferedGoesOut(max: uint32, s: State, c: nat) returns (ls: seq<Label>)
    requires Connection.Inv(max, s) && Open(max, s)
    requires c < |s.calls| && s.calls[c].pc.Offering? && Fits(max, s.calls[c].msg)
    ensures Run(max, s, ls).Some?
    ensures var t := Run(max, s, ls).value;
            && Has(t.out.written, c) && |t.calls| == |s.calls|
            && t.calls[c].pc.Awaiting? && t.calls[c].msg == s.calls[c].msg
  {
    var front := OpenDrains(max, s);
    var s1 := Run(max, s, front).value;
    var s2 := EnqueueIdle(max, s1, c);
    var back := OpenDrains(max, s2);
    ls := front + ([Caller(c, Enqueue)] + back);
    RunAppend(max, s, front, [Caller(c, Enqueue)] + back);
    IdleWrote(max, Run(max, s2, back).value, c);
  }

  lemma EnqueueIdle(max: uint32, s: State, c: nat) returns (t: State)
    requires Connection.Inv(max, s) && Idle(s) && !s.flags.closed
    requires c < |s.calls| && s.calls[c].pc.Offering? && Fits(max, s.calls[c].msg)
    ensures Step(max, s, Caller(c, Enqueue)) == Some(t)
    ensures Connection.Inv(max, t) && Open(max, t) && Has(t.chan.enqueued, c)
    ensures |t.calls| == |s.calls| && t.calls[c].pc.Awaiting? && t.calls[c].msg == s.calls[c].msg
  {
    t := Step(max, s, Caller(c, Enqueue)).value;
    StepInv(max, s, Caller(c, Enqueue));
    HasSnoc(s.chan.enqueued, Item(c, s.calls[c].msg));
  }

  /** An idle send loop has written everything that was ever queued. */
  lemma IdleWrote(max: uint32, s: State, c: nat)
    requires Connection.Inv(max, s) && Idle(s)
    ensures Has(s.chan.enqueued, c) ==> Has(s.out.written, c)
  {
  }

  ghost predicate WrittenFit(max: uint32, s: State) {
    forall j :: 0 <= j < |s.out.written| ==> Fits(max, s.out.written[j].msg)
  }

  /** What a run keeps of the calls and the queue history it starts from. */
  ghost predicate Grows(s: State, t: State) {
    && s.chan.enqueued <= t.chan.enqueued && |s.calls| <= |t.calls|
    && forall c :: 0 <= c < |s.calls| ==> t.calls[c].msg == s.calls[c].msg
  }

  lemma StepGrows(max: uint32, s: State, l: Label)
    requires Step(max, s, l).Some?
    ensures Grows(s, Step(max, s, l).value)
  {
  }

  lemma SameWritten(max: uint32, s: State, l: Label)
    requires Step(max, s, l).Some? && l != Send(OnWire(WriteOk))
    ensures Step(max, s, l).value.out.written == s.out.written
  {
  }

  lemma StepWrittenFit(max: uint32, s: State, l: Label)
    requires WireInv(max, s.chan.processed, s.out) && WrittenFit(max, s) && Step(max, s, l).Some?
    ensures WrittenFit(max, Step(max, s, l).value)
  {
    if l != Send(OnWire(WriteOk)) {
      SameWritten(max, s, l);
    }
  }

  lemma {:induction false} RunGrows(max: uint32, s: State, ls: seq<Label>)
    requires Connection.Inv(max, s) && Run(max, s, ls).Some?
    ensures Grows(s, Run(max, s, ls).value)
    ensures WrittenFit(max, s) ==> WrittenFit(max, Run(max, s, ls).value)
    decreases |ls|
  {
    if ls != [] {
      StepInv(max, s, ls[0]);
      StepGrows(max, s, ls[0]);
      if WrittenFit(max, s) {
        StepWrittenFit(max, s, ls[0]);
      }
      RunGrows(max, Step(max, s, ls[0]).value, ls[1..]);
    }
  }

  /** Whatever was queued before a written call was written before it, and passed Marshal. */
  lemma WrittenBehind(max: uint32, s: State, t: State, c: nat)
    requires QueueInv(s.calls, s.chan) && QueueInv(t.calls, t.chan) && t.out.written <= t.chan.processed
    requires Grows(s, t) && WrittenFit(max, t)
    requires |s.calls| <= c && Has(t.out.written, c)
    ensures forall j :: 0 <= j < |s.chan.enqueued| ==> Fits(max, s.chan.enqueued[j].msg)
    ensures c < |t.calls| && Fits(max, t.calls[c].msg)
  {
    var w, e := t.out.written, t.chan.enqueued;
    var k :| 0 <= k < |w| && w[k].c == c;
    assert forall j :: 0 <= j < |w| ==> w[j] == e[j];
    assert Queued(t.calls, e[k]);
    assert forall j :: 0 <= j < |s.chan.enqueued| ==> Queued(s.calls, e[j]);
    assert |s.chan.enqueued| <= k;
    forall j | 0 <= j < |s.chan.enqueued|
      ensures Fits(max, s.chan.enqueued[j].msg)
    {
      assert w[j] == s.chan.enqueued[j];
    }
  }

  lemma QueueFits(max: uint32, ch: Chan)
    requires ch.enqueued == ch.processed + ch.queue
    requires forall j :: 0 <= j < |ch.enqueued| ==> Fits(max, ch.enqueued[j].msg)
    ensures forall j :: 0 <= j < |ch.queue| ==> Fits(max, ch.queue[j].msg)
  {
    assert forall j :: 0 <= j < |ch.queue| ==> ch.queue[j] == ch.enqueued[|ch.processed| + j];
  }

  lemma HandFits(max: uint32, ch: Chan, o: Out)
    requires ch.enqueued == ch.processed + ch.queue && WireInv(max, ch.processed, o)
    requires forall j :: 0 <= j < |ch.enqueued| ==> Fits(max, ch.enqueued[j].msg)
    ensures o.pc.Claiming? || o.pc.Marshalling? ==> Fits(max, o.pc.m.msg)
  {
    if o.pc.Claiming? || o.pc.Marshalling? {
      assert ch.enqueued[|o.written|] == o.pc.m;
    }
  }

  lemma FitsOpen(max: uint32, s: State)
    requires SendInv(max, s) && !s.flags.closed && !SendOver(s.out.pc)
    requires forall j :: 0 <= j < |s.chan.enqueued| ==> Fits(max, s.chan.enqueued[j].msg)
    ensures Open(max, s)
  {
    QueueFits(max, s.chan);
    HandFits(max, s.chan, s.out);
  }

  lemma GoesOutOpen(max: uint32, s: State, m: Message, ls: seq<Label>)
    requires Reachable(max, s) && GoesOut(max, s, m, ls)
    ensures Open(max, s) && Fits(max, m)
  {
    var all := [Env(NewCall(m))] + ls;
    var s1, t := Step(max, s, all[0]).value, Run(max, s, all).value;
    assert all[1..] == ls && s1.calls[|s.calls|].msg == m;
    ReachableInv(max, s);
    FreshCall(s);
    if s.flags.closed {
      ClosedTransportNeverSends(max, s, all, |s.calls|);
    }
    ReachableWrittenFit(max, s);
    RunGrows(max, s, all);
    RunInv(max, s, all);
    if SendOver(s.out.pc) {
      NothingAfterFailure(max, s, all);
      PrefixHas(t.out.written, t.chan.processed, |s.calls|);
    }
    WrittenBehind(max, s, t, |s.calls|);
    FitsOpen(max, s);
    StepInv(max, s, all[0]);
    RunGrows(max, s1, ls);
  }

  lemma ReachableWrittenFit(max: uint32, s: State)
    requires Reachable(max, s)
    ensures WrittenFit(max, s)
  {
    var ls :| Run(max, INIT, ls) == Some(s);
    InitInv(max);
    RunGrows(max, INIT, ls);
  }

  /**
   * In every reachable state: a call that starts now can still be written exactly if the
   * transport is open, the send loop has not failed or left, and neither the message itself nor
   * any message ahead of it fails in Marshal. A context that has ended is no obstacle.
   */
  lemma GoesOutIff(max: uint32, s: State, m: Message)
    requires Reachable(max, s)
    ensures CanGoOut(max, s, m) <==> Open(max, s) && Fits(max, m)
  {
    forall ls | GoesOut(max, s, m, ls)
      ensures Open(max, s) && Fits(max, m)
    {
      GoesOutOpen(max, s, m, ls);
    }
    if Open(max, s) && Fits(max, m) {
      var l, n := Env(NewCall(m)), |s.calls|;
      ReachableInv(max, s);
      StepInv(max, s, l);
      var s1 := Step(max, s, l).value;
      var ls := OfferedGoesOut(max, s1, n);
      assert ([l] + ls)[1..] == ls;
      assert GoesOut(max, s, m, ls);
    }
  }

  // ----- a result from the second select
  /**
   * ErrIsClose and a context error do not say that the frame was not written: the complete
   * frame can be out exactly if the error came out of the second select.
   */
  lemma WrittenDespiteErrorIff(max: uint32, m: Message, via: Branch, queued: bool)
    requires MarshalPlan(max, m).Frame? && !via.AckBranch?
    ensures (exists s :: Reachable(max, s) && GaveUp(s, m, via, queued) && WrittenOnce(s, 0)) <==> queued
  {
    if queued {
      var s := WrittenThenGaveUp(max, m, via);
    } else {
      forall s | Reachable(max, s) && GaveUp(s, m, via, false)
        ensures !WrittenOnce(s, 0)
      {
        NeverQueuedStaysOut(max, s, [], 0);
      }
    }
  }

  /** ... and it does not say that it was: the message may be queued and yet never reach the wire. */
  lemma UnwrittenDespiteQueue(max: uint32, m: Message, via: Branch)
    requires !via.AckBranch?
    ensures exists s :: Reachable(max, s) && GaveUp(s, m, via, true) && NeverOut(max, s)
  {
    var s0 := Selected(max);
    var s1 := Next(max, s0, Env(NewCall(m)));
    var s2 := Next(max, s1, Caller(0, Enqueue));
    var s3 := Next(max, s2, Env(UserClose));
    var s4 := Next(max, s3, Send(Quit));
    var s := GivesUp(max, s4, via);
    forall ls | Run(max, s, ls).Some?
      ensures Run(max, s, ls).value.out.wire == []
    {
      NothingAfterFailure(max, s, ls);
    }
    assert NeverOut(max, s);
  }

  /** No continuation of the run puts a byte on the wire. */
  ghost predicate NeverOut(max: uint32, s: State) {
    forall ls :: Run(max, s, ls).Some? ==> Run(max, s, ls).value.out.wire == []
  }

  lemma GivesUp(max: uint32, s: State, via: Branch) returns (t: State)
    requires Reachable(max, s) && |s.calls| == 1 && s.calls[0].pc.Awaiting? && s.flags.connDone && !via.AckBranch?
    ensures Reachable(max, t) && GaveUp(t, s.calls[0].msg, via, true) && t.out == s.out && t.chan == s.chan
  {
    if via.ClosedBranch? {
      t := Next(max, s, Caller(0, GiveUpClosed));
    } else {
      var s1 := Next(max, s, Env(CancelCall(0)));
      t := Next(max, s1, Caller(0, GiveUpCancelled));
    }
  }

  lemma WrittenThenGaveUp(max: uint32, m: Message, via: Branch) returns (t: State)
    requires MarshalPlan(max, m).Frame? && !via.AckBranch?
    ensures Reachable(max, t) && GaveUp(t, m, via, true) && WrittenOnce(t, 0)
  {
    var s0 := Selected(max);
    var s1 := Next(max, s0, Env(NewCall(m)));
    ReachableInv(max, s1);
    var ls := OfferedGoesOut(max, s1, 0);
    ReachableRun(max, s1, ls);
    var s3 := Run(max, s1, ls).value;
    var s4 := Next(max, s3, Env(UserClose));
    t := GivesUp(max, s4, via);
    ReachableInv(max, t);
    HasIsWrittenOnce(max, t, 0);
  }
}
