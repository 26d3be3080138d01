// Where the answers of SendMsg come from, told by the actions of the run itself, and the inputs
// of a run as its state remembers them.
module Answers {
  import opened Bytes
  import opened Errors
  import opened Codec
  import opened Endpoint
  import opened SendSafety
  import opened Shutdown
  import opened Connection

  /** The state behind the first k actions of a run. */
  ghost predicate At(max: uint32, ls: seq<Label>, k: nat, u: State) {
    k <= |ls| && Run(max, INIT, ls[..k]) == Some(u)
  }

  // ----- the error of a Write

  /** The k-th action of the run is the failure, with `e`, of the Write of call c's frame. */
  ghost predicate WriteFailsAt(max: uint32, ls: seq<Label>, k: nat, c: nat, m: Message, e: Failure) {
    && k < |ls| && ls[k] == Send(OnWire(WriteFail(e)))
    && exists u :: At(max, ls, k, u) && u.out.pc.Writing? && u.out.pc.m == Item(c, m)
  }

  ghost predicate WriteFailed(max: uint32, ls: seq<Label>, c: nat, m: Message, e: Failure) {
    exists k :: 0 <= k < |ls| && WriteFailsAt(max, ls, k, c, m, e)
  }

  lemma WriteFailedGrows(max: uint32, ls: seq<Label>, l: Label, c: nat, m: Message, e: Failure)
    requires WriteFailed(max, ls, c, m, e)
    ensures WriteFailed(max, ls + [l], c, m, e)
  {
    var k :| 0 <= k < |ls| && WriteFailsAt(max, ls, k, c, m, e);
    assert (ls + [l])[..k] == ls[..k];
    var u :| At(max, ls, k, u) && u.out.pc.Writing? && u.out.pc.m == Item(c, m);
    assert At(max, ls + [l], k, u);
    assert WriteFailsAt(max, ls + [l], k, c, m, e);
  }

  lemma WriteFailsNow(max: uint32, ls: seq<Label>, s: State, e: Failure)
    requires Run(max, INIT, ls) == Some(s) && s.out.pc.Writing?
    ensures WriteFailed(max, ls + [Send(OnWire(WriteFail(e)))], s.out.pc.m.c, s.out.pc.m.msg, e)
  {
    var l := Send(OnWire(WriteFail(e)));
    assert (ls + [l])[..|ls|] == ls;
    assert At(max, ls + [l], |ls|, s);
    assert WriteFailsAt(max, ls + [l], |ls|, s.out.pc.m.c, s.out.pc.m.msg, e);
  }

  /** An error of the transport, as opposed to Marshal's own. */
  predicate FromWrite(r: Result) {
    r.Err? && r.e != DataLength
  }

  /** The error in the send loop's hands, and those in the bodies, are errors of Writes. */
  ghost predicate HandTold(max: uint32, ls: seq<Label>, o: Out) {
    match o.pc
    case Storing(m, r) => FromWrite(r) ==> WriteFailed(max, ls, m.c, m.msg, r.e)
    case Closing(m, r) => FromWrite(r) ==> WriteFailed(max, ls, m.c, m.msg, r.e)
    case _ => true
  }

  ghost predicate BodyTold(max: uint32, ls: seq<Label>, call: Call, c: nat) {
    FromWrite(call.body.err) ==> WriteFailed(max, ls, c, call.msg, call.body.err.e)
  }

  ghost predicate BodiesTold(max: uint32, ls: seq<Label>, calls: seq<Call>) {
    forall c :: 0 <= c < |calls| ==> BodyTold(max, ls, calls[c], c)
  }

  /** What an action does to the result in hand. */
  lemma HandFrame(max: uint32, s: State, l: Label)
    requires UnbornInv(s) && Step(max, s, l).Some?
    ensures var o := Step(max, s, l).value.out;
      match o.pc
      case Storing(m, r) =>
        || o.pc == s.out.pc || !FromWrite(r)
        || (s.out.pc.Writing? && s.out.pc.m == m && l == Send(OnWire(WriteFail(r.e))))
      case Closing(m, r) => o.pc == s.out.pc || s.out.pc == Storing(m, r)
      case _ => true
  {
  }

  /** What an action does to the errors in the bodies. */
  lemma BodyFrame(max: uint32, s: State, l: Label)
    requires Step(max, s, l).Some?
    ensures var t := Step(max, s, l).value;
      && |s.calls| <= |t.calls|
      && (forall c :: 0 <= c < |s.calls| ==>
            && t.calls[c].msg == s.calls[c].msg
            && (t.calls[c].body.err == s.calls[c].body.err
                || (s.out.pc.Storing? && s.out.pc.m.c == c && t.calls[c].body.err == s.out.pc.r)))
      && (forall c :: |s.calls| <= c < |t.calls| ==> t.calls[c].body.err == Nil)
  {
  }

  lemma StepHandTold(max: uint32, ls: seq<Label>, s: State, l: Label)
    requires Run(max, INIT, ls) == Some(s) && UnbornInv(s) && HandTold(max, ls, s.out) && Step(max, s, l).Some?
    ensures HandTold(max, ls + [l], Step(max, s, l).value.out)
  {
    HandFrame(max, s, l);
    var o := Step(max, s, l).value.out;
    if (o.pc.Storing? || o.pc.Closing?) && FromWrite(o.pc.r) {
      if o.pc.Storing? && o.pc != s.out.pc {
        WriteFailsNow(max, ls, s, o.pc.r.e);
      } else {
        WriteFailedGrows(max, ls, l, o.pc.m.c, o.pc.m.msg, o.pc.r.e);
      }
    }
  }

  /** The item in hand carries the message of its call. */
  lemma InHandMessage(max: uint32, s: State)
    requires SendInv(max, s) && s.out.pc.Storing?
    ensures s.out.pc.m.c < |s.calls| && s.calls[s.out.pc.m.c].msg == s.out.pc.m.msg
  {
    var m, ch := s.out.pc.m, s.chan;
    assert ch.enqueued[|ch.processed| - 1] == m;
    assert Queued(s.calls, m);
  }

  lemma StepBodiesTold(max: uint32, ls: seq<Label>, s: State, l: Label)
    requires SendInv(max, s) && HandTold(max, ls, s.out) && BodiesTold(max, ls, s.calls) && Step(max, s, l).Some?
    ensures BodiesTold(max, ls + [l], Step(max, s, l).value.calls)
  {
    var t := Step(max, s, l).value;
    BodyFrame(max, s, l);
    forall c | 0 <= c < |t.calls|
      ensures BodyTold(max, ls + [l], t.calls[c], c)
    {
      if FromWrite(t.calls[c].body.err) {
        assert c < |s.calls|;
        assert BodyTold(max, ls, s.calls[c], c);
        if t.calls[c].body.err != s.calls[c].body.err {
          InHandMessage(max, s);
        }
        WriteFailedGrows(max, ls, l, c, t.calls[c].msg, t.calls[c].body.err.e);
      }
    }
  }

  /** Where the error of a Write that failed has got to. */
  ghost predicate Arrived(s: State, c: nat, m: Message, e: Failure) {
    || s.out.pc == Storing(Item(c, m), Err(e))
    || (c < |s.calls| && s.calls[c].body.writes == 1 && s.calls[c].body.err == Err(e))
  }

  ghost predicate FailuresArrive(max: uint32, ls: seq<Label>, s: State) {
    forall c: nat, m, e :: WriteFailed(max, ls, c, m, e) ==> Arrived(s, c, m, e)
  }

  lemma ArrivedStays(max: uint32, s: State, l: Label, c: nat, m: Message, e: Failure)
    requires SendInv(max, s) && Step(max, s, l).Some? && Arrived(s, c, m, e)
    ensures Arrived(Step(max, s, l).value, c, m, e)
  {
    if s.out.pc == Storing(Item(c, m), Err(e)) {
      StoringStays(max, s, l);
    } else {
      WrittenStays(max, s, l, c);
    }
  }

  lemma StoringStays(max: uint32, s: State, l: Label)
    requires SendInv(max, s) && Step(max, s, l).Some? && s.out.pc.Storing?
    ensures var t, m := Step(max, s, l).value, s.out.pc.m;
      || t.out.pc == s.out.pc
      || (m.c < |t.calls| && t.calls[m.c].body.writes == 1 && t.calls[m.c].body.err == s.out.pc.r)
  {
    assert HandInv(s.calls, s.out) && UnbornInv(s);
  }

  lemma WrittenStays(max: uint32, s: State, l: Label, c: nat)
    requires SendInv(max, s) && Step(max, s, l).Some? && c < |s.calls| && s.calls[c].body.writes == 1
    ensures var t := Step(max, s, l).value;
            c < |t.calls| && t.calls[c].body.writes == 1 && t.calls[c].body.err == s.calls[c].body.err
  {
    assert HandInv(s.calls, s.out);
  }

  lemma StepFailures(max: uint32, ls: seq<Label>, s: State, l: Label)
    requires Run(max, INIT, ls) == Some(s) && SendInv(max, s) && FailuresArrive(max, ls, s) && Step(max, s, l).Some?
    ensures FailuresArrive(max, ls + [l], Step(max, s, l).value)
  {
    var all := ls + [l];
    forall c: nat, m, e | WriteFailed(max, all, c, m, e)
      ensures Arrived(Step(max, s, l).value, c, m, e)
    {
      var k :| 0 <= k < |all| && WriteFailsAt(max, all, k, c, m, e);
      var u :| At(max, all, k, u) && u.out.pc.Writing? && u.out.pc.m == Item(c, m);
      assert all[..k] == ls[..k];
      if k < |ls| {
        assert At(max, ls, k, u);
        assert WriteFailsAt(max, ls, k, c, m, e);
        assert WriteFailed(max, ls, c, m, e);
        ArrivedStays(max, s, l, c, m, e);
      } else {
        assert ls[..k] == ls;
      }
    }
  }

  ghost predicate Told(max: uint32, ls: seq<Label>, s: State) {
    HandTold(max, ls, s.out) && BodiesTold(max, ls, s.calls) && FailuresArrive(max, ls, s)
  }

  lemma StepTold(max: uint32, ls: seq<Label>, s: State, l: Label)
    requires Run(max, INIT, ls) == Some(s) && SendInv(max, s) && Told(max, ls, s) && Step(max, s, l).Some?
    ensures Told(max, ls + [l], Step(max, s, l).value)
  {
    StepHandTold(max, ls, s, l);
    StepBodiesTold(max, ls, s, l);
    StepFailures(max, ls, s, l);
  }

  lemma {:induction false} RunTold(max: uint32, ls: seq<Label>)
    requires Run(max, INIT, ls).Some?
    ensures Inv(max, Run(max, INIT, ls).value) && Told(max, ls, Run(max, INIT, ls).value)
    decreases |ls|
  {
    InitInv(max);
    if ls != [] {
      var n := |ls| - 1;
      RunLast(max, INIT, ls);
      RunTold(max, ls[..n]);
      assert ls == ls[..n] + [ls[n]];
      var s := Run(max, INIT, ls[..n]).value;
      StepInv(max, s, ls[n]);
      StepTold(max, ls[..n], s, ls[n]);
    }
  }

  /**
   * The error of an acknowledgement: SendMsg returns ErrDataLength exactly if the limit refuses
   * the message, and otherwise it returns the error e exactly if the Write of this very frame
   * failed with e in the course of the run.
   */
  lemma AckErrorIsWriteError(max: uint32, ls: seq<Label>, c: nat, e: Failure)
    requires Run(max, INIT, ls).Some? && c < |Run(max, INIT, ls).value.calls|
    requires var pc := Run(max, INIT, ls).value.calls[c].pc; pc.Returned? && pc.via.AckBranch?
    ensures var call := Run(max, INIT, ls).value.calls[c];
      call.pc.r == Err(e) <==>
        if e == DataLength then Refused(max, call.msg) else WriteFailed(max, ls, c, call.msg, e)
  {
    RunTold(max, ls);
    var s := Run(max, INIT, ls).value;
    assert CallOk(s, c) && Verdict(max, s.calls[c]) && BodyTold(max, ls, s.calls[c], c);
    if e != DataLength && WriteFailed(max, ls, c, s.calls[c].msg, e) {
      assert Arrived(s, c, s.calls[c].msg, e);
    }
  }

  // ----- the inputs

  /** The messages given to SendMsg, in order. */
  function Sent(ls: seq<Label>): seq<Message>
    decreases |ls|
  {
    if ls == [] then []
    else
      var n := |ls| - 1;
      Sent(ls[..n]) + (if ls[n].Env? && ls[n].ea.NewCall? then [ls[n].ea.msg] else [])
  }

  /** The bytes that the peer's frames have brought, in order. */
  function Brought(ls: seq<Label>): seq<byte>
    decreases |ls|
  {
    if ls == [] then []
    else
      var n := |ls| - 1;
      Brought(ls[..n]) + (if ls[n].Env? && ls[n].ea.Arrive? then ls[n].ea.bytes else [])
  }

  /** The state remembers the messages and the bytes. */
  ghost predicate DataTold(ls: seq<Label>, s: State) {
    && |s.calls| == |Sent(ls)| && s.inp.received == Brought(ls)
    && forall c :: 0 <= c < |s.calls| ==> s.calls[c].msg == Sent(ls)[c]
  }

  /** The state remembers who has cancelled or closed what. */
  ghost predicate EndsTold(ls: seq<Label>, s: State) {
    && (forall c: nat :: Env(CancelCall(c)) in ls <==> c < |s.calls| && s.calls[c].cancelled)
    && (s.flags.userClosed <==> Env(UserClose) in ls)
    && (s.flags.parentDone <==> Env(ParentCancel) in ls)
    && (s.flags.closedOutside <==> Env(OutsideClose) in ls)
  }

  lemma OtherData(max: uint32, s: State, l: Label)
    requires Step(max, s, l).Some? && !l.Env?
    ensures var t := Step(max, s, l).value;
      && |t.calls| == |s.calls| && t.inp.received == s.inp.received
      && forall c :: 0 <= c < |s.calls| ==> t.calls[c].msg == s.calls[c].msg
  {
  }

  lemma OtherEnds(max: uint32, s: State, l: Label)
    requires Step(max, s, l).Some? && !l.Env?
    ensures var t := Step(max, s, l).value;
      && |t.calls| == |s.calls|
      && (forall c :: 0 <= c < |s.calls| ==> t.calls[c].cancelled == s.calls[c].cancelled)
      && t.flags.userClosed == s.flags.userClosed && t.flags.parentDone == s.flags.parentDone
      && t.flags.closedOutside == s.flags.closedOutside
  {
  }

  lemma StepData(max: uint32, ls: seq<Label>, s: State, l: Label)
    requires DataTold(ls, s) && Step(max, s, l).Some?
    ensures DataTold(ls + [l], Step(max, s, l).value)
  {
    assert (ls + [l])[..|ls|] == ls;
    assert s.inp.received + [] == s.inp.received && Sent(ls) + [] == Sent(ls);
    if !l.Env? {
      OtherData(max, s, l);
    }
  }

  lemma StepEnds(max: uint32, ls: seq<Label>, s: State, l: Label)
    requires EndsTold(ls, s) && Step(max, s, l).Some?
    ensures EndsTold(ls + [l], Step(max, s, l).value)
  {
    assert forall x :: x in ls + [l] <==> x in ls || x == l;
    if !l.Env? {
      OtherEnds(max, s, l);
    }
  }

  /**
   * The inputs of a run are what its state goes by: message c is the one given to the c-th
   * SendMsg, the bytes are those that came in, and a context is cancelled, or the connection
   * closed from outside, exactly if that has been done.
   */
  lemma {:induction false} RunInputs(max: uint32, ls: seq<Label>)
    requires Run(max, INIT, ls).Some?
    ensures DataTold(ls, Run(max, INIT, ls).value) && EndsTold(ls, Run(max, INIT, ls).value)
    decreases |ls|
  {
    if ls != [] {
      var n := |ls| - 1;
      RunLast(max, INIT, ls);
      RunInputs(max, ls[..n]);
      assert ls == ls[..n] + [ls[n]];
      StepData(max, ls[..n], Run(max, INIT, ls[..n]).value, ls[n]);
      StepEnds(max, ls[..n], Run(max, INIT, ls[..n]).value, ls[n]);
    }
  }

  /** The contexts end and the transport closes by stop's effects, or because somebody does it. */
  ghost predicate CausesTold(ls: seq<Label>, s: State) {
    && (s.flags.connDone <==> Env(UserClose) in ls || Effects(s.life.stop) >= 2)
    && (s.flags.closed <==> Env(OutsideClose) in ls || Effects(s.life.stop) >= 3)
    && (s.flags.hDone <==> Env(ParentCancel) in ls || Effects(s.life.stop) >= 4)
  }

  ghost predicate Caused(s: State) {
    && (s.flags.userClosed ==> s.flags.connDone)
    && (s.flags.closedOutside ==> s.flags.closed)
    && (s.flags.parentDone ==> s.flags.hDone)
  }

  lemma StepCaused(max: uint32, s: State, l: Label)
    requires Caused(s) && Step(max, s, l).Some?
    ensures Caused(Step(max, s, l).value)
  {
  }

  lemma {:induction false} RunCaused(max: uint32, s: State, ls: seq<Label>)
    requires Caused(s) && Run(max, s, ls).Some?
    ensures Caused(Run(max, s, ls).value)
    decreases |ls|
  {
    if ls != [] {
      StepCaused(max, s, ls[0]);
      RunCaused(max, Step(max, s, ls[0]).value, ls[1..]);
    }
  }

  /** Each of the three ends exactly when stop's own effect or somebody outside has ended it. */
  lemma EndedExactly(max: uint32, ls: seq<Label>)
    requires Run(max, INIT, ls).Some?
    ensures CausesTold(ls, Run(max, INIT, ls).value)
  {
    RunInputs(max, ls);
    RunCaused(max, INIT, ls);
    InitInv(max);
    RunInv(max, INIT, ls);
  }

  /**
   * When SendMsg blocks: in its first select exactly while 256 messages are queued, in its
   * second exactly while the message is not acknowledged, and in both only while neither the
   * connection is closed nor the caller's context cancelled.
   */
  lemma BlocksIff(max: uint32, ls: seq<Label>, c: nat)
    requires Run(max, INIT, ls).Some? && c < |Run(max, INIT, ls).value.calls|
    ensures var s := Run(max, INIT, ls).value;
      var free := !s.flags.connDone && Env(CancelCall(c)) !in ls;
      && (s.calls[c].pc.Offering? ==>
            ((forall a :: CallerStep(s, c, a).None?) <==> |s.chan.queue| == 256 && free))
      && (s.calls[c].pc.Awaiting? ==>
            ((forall a :: CallerStep(s, c, a).None?) <==> s.calls[c].body.closes == 0 && free))
  {
    RunInputs(max, ls);
    InitInv(max);
    RunInv(max, INIT, ls);
    var s := Run(max, INIT, ls).value;
    assert CallerStep(s, c, Enqueue).None? && CallerStep(s, c, SeeAck).None?
           && CallerStep(s, c, GiveUpClosed).None? && CallerStep(s, c, GiveUpCancelled).None?
           ==> forall a :: CallerStep(s, c, a).Some? ==> a == ReadAck;
  }

  /**
   * What SendMsg's answer to its c-th call means, with the message as it was given: nil, the
   * frame is on the wire exactly once; an error of a select, the connection has been closed or
   * this call's context cancelled; an error of the acknowledgement, the limit refuses the
   * message or the Write of its frame failed with this error.
   */
  lemma SendMsgAnswers(max: uint32, ls: seq<Label>, c: nat)
    requires Run(max, INIT, ls).Some? && c < |Run(max, INIT, ls).value.calls|
    requires Run(max, INIT, ls).value.calls[c].pc.Returned?
    ensures c < |Sent(ls)| && Run(max, INIT, ls).value.calls[c].msg == Sent(ls)[c]
    ensures var s := Run(max, INIT, ls).value;
      var r, via := s.calls[c].pc.r, s.calls[c].pc.via;
      && (r.Nil? ==> via.AckBranch? && WrittenOnce(s, c))
      && (via.ClosedBranch? ==> r == Err(IsClose) && (Env(UserClose) in ls || Effects(s.life.stop) >= 2))
      && (via.CancelBranch? ==> r == Err(ContextDone) && Env(CancelCall(c)) in ls)
      && (via.AckBranch? && r.Err? ==>
            if r.e == DataLength then Refused(max, Sent(ls)[c]) else WriteFailed(max, ls, c, Sent(ls)[c], r.e))
  {
    RunInputs(max, ls);
    var s := Run(max, INIT, ls).value;
    assert Reachable(max, s);
    AckSound(max, s, c);
    ReachableInv(max, s);
    if s.calls[c].pc.via.AckBranch? && s.calls[c].pc.r.Err? {
      AckErrorIsWriteError(max, ls, c, s.calls[c].pc.r.e);
    }
  }
}
