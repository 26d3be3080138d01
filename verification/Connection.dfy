// What holds in every run of one endpoint: any number of callers, any interleaving, any
// cancellation, any point of failure.
module Connection {
  import opened Bytes
  import opened Errors
  import opened Codec
  import opened Endpoint
  import opened SendSafety
  import opened ReadSafety
  import opened Shutdown
  import T = TaskSpec

  ghost predicate Inv(max: uint32, s: State) {
    && SendInv(max, s) && OriginInv(s.calls, s.chan) && VerdictInv(max, s)
    && ReadInv(max, s.inp) && UnbornRead(s) && StopInv(s) && TaskInv(s)
  }

  lemma InitInv(max: uint32)
    ensures Inv(max, INIT)
  {
    InitRead(max);
    T.EmptyInv<TaskName>();
    assert Frames([]) == [];
  }

  lemma StepInv(max: uint32, s: State, l: Label)
    requires Inv(max, s) && Step(max, s, l).Some?
    ensures Inv(max, Step(max, s, l).value)
  {
    StepSend(max, s, l);
    StepOrigin(max, s, l);
    StepVerdict(max, s, l);
    StepRead(max, s, l);
    StepStop(max, s, l);
    StepTask(max, s, l);
  }

  lemma {:induction false} RunInv(max: uint32, s: State, ls: seq<Label>)
    requires Inv(max, s) && Run(max, s, ls).Some?
    ensures Inv(max, Run(max, s, ls).value)
    decreases |ls|
  {
    if ls != [] {
      StepInv(max, s, ls[0]);
      RunInv(max, Step(max, s, ls[0]).value, ls[1..]);
    }
  }

  lemma {:induction false} RunAppend(max: uint32, s: State, xs: seq<Label>, ys: seq<Label>)
    ensures Run(max, s, xs + ys) == match Run(max, s, xs) case None => None case Some(t) => Run(max, t, ys)
    decreases |xs|
  {
    if xs == [] {
      assert xs + ys == ys;
    } else {
      assert (xs + ys)[0] == xs[0] && (xs + ys)[1..] == xs[1..] + ys;
      if Step(max, s, xs[0]).Some? {
        RunAppend(max, Step(max, s, xs[0]).value, xs[1..], ys);
      }
    }
  }

  lemma {:induction false} RunLast(max: uint32, s: State, ls: seq<Label>)
    requires ls != [] && Run(max, s, ls).Some?
    ensures var n := |ls| - 1;
            Run(max, s, ls[..n]).Some? && Run(max, s, ls) == Step(max, Run(max, s, ls[..n]).value, ls[n])
    decreases |ls|
  {
    if |ls| > 1 {
      RunLast(max, Step(max, s, ls[0]).value, ls[1..]);
      assert ls[1..][..|ls| - 2] == ls[..|ls| - 1][1..];
    }
  }

  ghost predicate Reachable(max: uint32, s: State) {
    exists ls :: Run(max, INIT, ls) == Some(s)
  }

  lemma ReachableInv(max: uint32, s: State)
    requires Reachable(max, s)
    ensures Inv(max, s)
  {
    var ls :| Run(max, INIT, ls) == Some(s);
    InitInv(max);
    RunInv(max, INIT, ls);
  }

  // ----- queue and wire

  /**
   * The queue is FIFO and bounded; the wire holds the frames of the written items in
   * dequeue order and behind them at most a front part of the frame of one more dequeued item.
   */
  lemma WireInOrder(max: uint32, s: State)
    requires Reachable(max, s)
    ensures s.chan.enqueued == s.chan.processed + s.chan.queue && |s.chan.queue| <= QUEUE
    ensures Frames(s.out.written) <= s.out.wire
    ensures s.chan.processed == s.out.written ==> s.out.wire == Frames(s.out.written)
    ensures s.chan.processed != s.out.written ==>
      exists m :: s.chan.processed == s.out.written + [m] && s.out.wire <= Frames(s.out.written) + Encode(m.msg)
  {
    ReachableInv(max, s);
    if s.chan.processed != s.out.written {
      var m := s.chan.processed[|s.out.written|];
      assert s.chan.processed == s.out.written + [m];
      FramesSnoc(s.out.written, m);
    }
  }

  /** After a failed message, or a cancellation seen by the send loop, the wire is final. */
  lemma {:induction false} NothingAfterFailure(max: uint32, s: State, ls: seq<Label>)
    requires Reachable(max, s) && SendOver(s.out.pc) && Run(max, s, ls).Some?
    ensures var t := Run(max, s, ls).value;
            SendOver(t.out.pc) && t.chan.processed == s.chan.processed && t.out.wire == s.out.wire
    decreases |ls|
  {
    if ls != [] {
      ReachableInv(max, s);
      StepSendOver(max, s, ls[0]);
      ReachableStep(max, s, ls[0]);
      NothingAfterFailure(max, Step(max, s, ls[0]).value, ls[1..]);
    }
  }

  /** One oversized message ends the connection: nothing is dequeued or written behind it. */
  lemma OversizedEndsConnection(max: uint32, s: State, ls: seq<Label>)
    requires Reachable(max, s) && s.out.pc.Marshalling? && MarshalPlan(max, s.out.pc.m.msg).Refuse?
    requires Run(max, s, [Send(OnWire(MarshalIt))] + ls).Some?
    ensures var t := Run(max, s, [Send(OnWire(MarshalIt))] + ls).value;
            t.chan.processed == s.chan.processed && t.out.wire == s.out.wire
  {
    var l := Send(OnWire(MarshalIt));
    RunAppend(max, s, [l], ls);
    assert Run(max, s, [l]) == Step(max, s, l);
    ReachableStep(max, s, l);
    NothingAfterFailure(max, Step(max, s, l).value, ls);
  }

  lemma ReachableStep(max: uint32, s: State, l: Label)
    requires Reachable(max, s) && Step(max, s, l).Some?
    ensures Reachable(max, Step(max, s, l).value)
  {
    assert Run(max, s, [l]) == Step(max, s, l);
    ReachableRun(max, s, [l]);
  }

  lemma ReachableRun(max: uint32, s: State, ls: seq<Label>)
    requires Reachable(max, s) && Run(max, s, ls).Some?
    ensures Reachable(max, Run(max, s, ls).value)
  {
    var front :| Run(max, INIT, front) == Some(s);
    RunAppend(max, INIT, front, ls);
    assert Run(max, INIT, front + ls) == Run(max, s, ls);
  }

  // ----- acknowledgements

  /** The complete frame of call `c` is on the wire at exactly one place. */
  ghost predicate WrittenOnce(s: State, c: nat) {
    c < |s.calls| &&
    exists k :: 0 <= k < |s.out.written| && WrittenAt(s, c, k)
                && forall j :: 0 <= j < |s.out.written| && s.out.written[j].c == c ==> j == k
  }

  ghost predicate WrittenAt(s: State, c: nat, k: nat)
    requires c < |s.calls| && k < |s.out.written|
  {
    && s.out.written[k] == Item(c, s.calls[c].msg)
    && Frames(s.out.written[..k]) + Encode(s.calls[c].msg) <= s.out.wire
  }

  lemma FrameAt(items: seq<Item>, k: nat)
    requires k < |items|
    ensures Frames(items[..k]) + Encode(items[k].msg) <= Frames(items)
  {
    var front, back := items[..k + 1], items[k + 1..];
    assert items == front + back && front == items[..k] + [items[k]];
    FramesSnoc(items[..k], items[k]);
    assert Sends(items) == Sends(front) + Sends(back);
    EncodeAllAppend(Sends(front), Sends(back));
  }

  lemma WrittenItems(calls: seq<Call>, ch: Chan, w: seq<Item>)
    requires QueueInv(calls, ch) && w <= ch.processed
    ensures forall j :: 0 <= j < |w| ==> w[j].c < |calls| && w[j].msg == calls[w[j].c].msg
    ensures forall j, k :: 0 <= j < k < |w| ==> w[j].c != w[k].c
  {
    assert forall j :: 0 <= j < |w| ==> w[j] == ch.enqueued[j];
    assert forall j :: 0 <= j < |w| ==> Queued(calls, ch.enqueued[j]);
  }

  lemma HasIsWrittenOnce(max: uint32, s: State, c: nat)
    requires Inv(max, s) && c < |s.calls| && Has(s.out.written, c)
    ensures WrittenOnce(s, c)
  {
    var w := s.out.written;
    WrittenItems(s.calls, s.chan, w);
    var k :| 0 <= k < |w| && w[k].c == c;
    FrameAt(w, k);
    assert WrittenAt(s, c, k);
  }

  /**
   * Acknowledgement soundness. A nil result comes from the ack, and then the complete frame is
   * on the wire exactly once. ErrIsClose out of a select means the connection's context has
   * ended, a context error that the caller's has. An error out of the ack belongs to the last
   * message that was ever dequeued, and it is ErrDataLength exactly if the limit refuses the message.
   */
  lemma AckSound(max: uint32, s: State, c: nat)
    requires Reachable(max, s) && c < |s.calls| && s.calls[c].pc.Returned?
    ensures match s.calls[c].pc
      case Returned(Nil, via, _) => via == AckBranch && WrittenOnce(s, c)
      case Returned(r, ClosedBranch, _) => r == Err(IsClose) && s.flags.connDone
      case Returned(r, CancelBranch, _) => r == Err(ContextDone) && s.calls[c].cancelled
      case Returned(r, AckBranch, _) =>
        && s.chan.processed == s.out.written + [Item(c, s.calls[c].msg)]
        && (r == Err(DataLength) <==> Refused(max, s.calls[c].msg))
  {
    ReachableInv(max, s);
    assert CallOk(s, c) && Verdict(max, s.calls[c]);
    match s.calls[c].pc
    case Returned(r, AckBranch, _) =>
      if r.Nil? {
        HasIsWrittenOnce(max, s, c);
      } else {
        FailedIsLast(s, c);
      }
    case _ =>
  }

  lemma FailedIsLast(s: State, c: nat)
    requires QueueInv(s.calls, s.chan) && WireShape(s.chan.processed, s.out) && c < |s.calls|
    requires Has(s.chan.processed, c) && !Has(s.out.written, c)
    ensures s.chan.processed == s.out.written + [Item(c, s.calls[c].msg)]
  {
    var p, w := s.chan.processed, s.out.written;
    var j :| 0 <= j < |p| && p[j].c == c;
    assert forall i :: 0 <= i < |w| ==> w[i] == p[i] && w[i].c != c;
    assert Queued(s.calls, s.chan.enqueued[j]);
    assert p == w + [p[j]];
  }

  lemma Next(max: uint32, s: State, l: Label) returns (t: State)
    requires Reachable(max, s) && Step(max, s, l).Some?
    ensures Reachable(max, t) && t == Step(max, s, l).value
  {
    ReachableStep(max, s, l);
    t := Step(max, s, l).value;
  }

  /** The endpoint right after NewHandlerManager has returned. */
  lemma Selected(max: uint32) returns (s: State)
    ensures Reachable(max, s) && s.calls == [] && s.chan == Chan([], [], [])
    ensures s.out == Out(Selecting, [], []) && s.flags == INIT.flags && s.errs == INIT.errs
    ensures s.inp == INIT.inp.(pc := InHeader([])) && s.life.built == 3 && s.life.wait.Watching?
  {
    assert Run(max, INIT, []) == Some(INIT);
    var s1 := Next(max, INIT, Task(Build));
    var s2 := Next(max, s1, Task(Build));
    s := Next(max, s2, Task(Build));
  }

  /** ackChan is closed at most once, behind the single write of m.err, which a caller reads afterwards. */
  lemma AckOnce(max: uint32, s: State, c: nat)
    requires Reachable(max, s) && c < |s.calls|
    ensures var b := s.calls[c].body;
            && b.closes <= b.writes <= 1
            && (s.calls[c].pc.Acked? || (s.calls[c].pc.Returned? && s.calls[c].pc.via.AckBranch?) ==> b.closes == 1)
  {
    ReachableInv(max, s);
    assert CallOk(s, c);
  }

  /**
   * No guard of the model hides a panic or a deadlock: the send loop's CompareAndSwap always
   * succeeds, its stores always find their body, and the final call of a task always returns.
   */
  lemma NeverStuck(max: uint32, s: State, now: nat)
    requires Reachable(max, s) && now > 0
    ensures s.out.pc.Claiming? ==>
      SendStep(max, s, OnBody(Claim)).Some? && SendStep(max, s, OnBody(Claim)).value.out.pc.Marshalling?
    ensures s.out.pc.Storing? ==> SendStep(max, s, OnBody(Store)).Some?
    ensures s.out.pc.Closing? ==> SendStep(max, s, OnBody(CloseAck)).Some?
    ensures s.life.begin.BeginRunning? ==> TaskStep(s, EndBegin(now)).Some?
    ensures s.inp.pc.ReadEnding? ==> TaskStep(s, EndRead(now)).Some?
    ensures s.out.pc.SendEnding? ==> TaskStep(s, EndSend(now)).Some?
  {
    ReachableInv(max, s);
    assert Recorded(s, CallBegin) && Recorded(s, ReadTask) && Recorded(s, SendTask);
    forall name | name in s.life.tasks.Unfinished()
      ensures T.Done(s.life.tasks, name, None, now).Returned?
    {
      T.DoneInv(s.life.tasks, name, None, now);
    }
  }

  // ----- the read loop

  /**
   * Exactly the messages that repeated Unmarshal calls yield on the bytes read have been handed
   * on, and the loop fails with ErrDataLength exactly when the next header exceeds the limit.
   */
  lemma DeliveredExactly(max: uint32, s: State)
    requires Reachable(max, s)
    ensures s.inp.taken <= |s.inp.received|
    ensures s.inp.delivered == DecodeAll(s.inp.received[..s.inp.taken], Eof, max).msgs
    ensures s.inp.failure.Some? ==>
      (s.inp.failure.value == DataLength <==> DecodeAll(s.inp.received[..s.inp.taken], Eof, max).err == DataLength)
  {
    ReachableInv(max, s);
    DeliveredIsDecoded(max, s.inp);
  }

  // ----- the end of the connection

  /** The order of stop's effects, and what else can have caused each of them. */
  lemma StopOrder(max: uint32, s: State)
    requires Reachable(max, s)
    ensures s.flags.hDone && !s.flags.parentDone ==> s.flags.closed && s.flags.connDone && s.errs.first.Some?
    ensures s.flags.closed && !s.flags.closedOutside ==> s.flags.connDone && s.errs.first.Some?
    ensures s.flags.connDone && !s.flags.userClosed ==> s.errs.first.Some?
  {
    ReachableInv(max, s);
  }

  /** h.err is the first error reported and never changes again. */
  lemma {:induction false} FirstErrorWins(max: uint32, s: State, ls: seq<Label>)
    requires Reachable(max, s) && s.errs.reports != [] && Run(max, s, ls).Some?
    ensures Run(max, s, ls).value.errs.first == Some(s.errs.reports[0])
    decreases |ls|
  {
    ReachableInv(max, s);
    if ls != [] {
      var t := Step(max, s, ls[0]).value;
      StepKeepsErr(max, s, ls[0]);
      ReachableStep(max, s, ls[0]);
      ReachableInv(max, t);
      FirstErrorWins(max, t, ls[1..]);
    }
  }

  /**
   * If StopAndWait returned through doneCh, the three tasks have ended and stop has run
   * completely; ConnErr is then called with an error and a closed transport.
   */
  lemma CleanShutdown(max: uint32, s: State)
    requires Reachable(max, s)
    requires s.life.wait == WaitOver(true) || (s.life.wait.Reported? && s.life.wait.token)
    ensures s.life.begin.BeginGone? && s.inp.pc.ReadGone? && s.out.pc.SendGone? && s.life.stop.StopDone?
    ensures s.errs.first.Some? && s.flags.closed && s.flags.connDone && s.flags.hDone
    ensures s.life.wait.Reported? ==> s.life.wait.err.Some? && s.life.wait.closed
  {
    ReachableInv(max, s);
    AllGone(s);
  }

  /** The connection's own StopAndWait is the only one, so it always waits. */
  lemma StopWaits(max: uint32, s: State)
    requires Reachable(max, s) && TaskStep(s, StopTasks).Some?
    ensures TaskStep(s, StopTasks).value.life.wait.Waiting?
  {
    ReachableInv(max, s);
  }

  /**
   * While StopAndWait waits, doneCh can be received from exactly when the three tasks are gone
   * and not all of them were gone when the manager was stopped. In particular a connection
   * whose tasks ended before StopAndWait always waits for the timeout.
   */
  lemma TokenIff(max: uint32, s: State)
    requires Reachable(max, s) && s.life.wait.Waiting?
    ensures TaskStep(s, TakeToken).Some? <==>
      s.life.begin.BeginGone? && s.inp.pc.ReadGone? && s.out.pc.SendGone? && s.life.tasks.atStop != {}
  {
    ReachableInv(max, s);
    var t := s.life.tasks;
    assert Recorded(s, CallBegin) && Recorded(s, ReadTask) && Recorded(s, SendTask);
    if s.life.begin.BeginGone? && s.inp.pc.ReadGone? && s.out.pc.SendGone? {
      forall n | n in t.Unfinished()
        ensures false
      {
        match n case CallBegin => case ReadTask => case SendTask =>
      }
      assert t.Unfinished() == {};
    }
  }
}
