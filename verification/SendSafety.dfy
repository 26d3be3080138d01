// What every step of an endpoint keeps about its queue, its wire and its acknowledgements.
module SendSafety {
  import opened Bytes
  import opened Errors
  import opened Codec
  import opened Endpoint

  /** The messages whose frames the items stand for: bodies are cut modulo 2^32. */
  function Sends(items: seq<Item>): (r: seq<Message>)
    ensures |r| == |items|
    ensures forall i :: 0 <= i < |r| ==> r[i] == Truncated(items[i].msg)
  {
    seq(|items|, i requires 0 <= i < |items| => Truncated(items[i].msg))
  }

  function Frames(items: seq<Item>): seq<byte> {
    EncodeAll(Sends(items))
  }

  lemma FramesSnoc(items: seq<Item>, m: Item)
    ensures Frames(items + [m]) == Frames(items) + Encode(m.msg)
  {
    assert Sends(items + [m]) == Sends(items) + [Truncated(m.msg)];
    EncodeAllSnoc(Sends(items), Truncated(m.msg));
    EncodeTruncated(m.msg);
  }

  ghost predicate Has(items: seq<Item>, c: nat) {
    exists j :: 0 <= j < |items| && items[j].c == c
  }

  lemma HasSnoc(items: seq<Item>, m: Item)
    ensures forall c: nat :: Has(items + [m], c) <==> Has(items, c) || c == m.c
  {
    forall c: nat
      ensures Has(items + [m], c) <==> Has(items, c) || c == m.c
    {
      var all := items + [m];
      if Has(items, c) {
        var j :| 0 <= j < |items| && items[j].c == c;
        assert all[j].c == c;
      } else if c == m.c {
        assert all[|items|].c == c;
      }
    }
  }

  // ----- the queue

  /** Enqueue order is dequeue order, and every call is enqueued at most once. */
  ghost predicate QueueInv(calls: seq<Call>, ch: Chan) {
    && ch.enqueued == ch.processed + ch.queue && |ch.queue| <= QUEUE
    && (forall j :: 0 <= j < |ch.enqueued| ==> Queued(calls, ch.enqueued[j]))
    && (forall j, k :: 0 <= j < k < |ch.enqueued| ==> ch.enqueued[j].c != ch.enqueued[k].c)
  }

  ghost predicate Queued(calls: seq<Call>, m: Item) {
    m.c < |calls| && calls[m.c].msg == m.msg && !calls[m.c].pc.Offering?
  }

  /** Calls only move forward: a queued call stays queued. */
  ghost predicate Later(calls: seq<Call>, calls': seq<Call>) {
    && |calls| <= |calls'|
    && forall c :: 0 <= c < |calls| ==>
         calls'[c].msg == calls[c].msg && (calls'[c].pc.Offering? ==> calls[c].pc.Offering?)
  }

  lemma QueueLater(calls: seq<Call>, calls': seq<Call>, ch: Chan)
    requires QueueInv(calls, ch) && Later(calls, calls')
    ensures QueueInv(calls', ch)
  {
    assert forall j :: 0 <= j < |ch.enqueued| ==> Queued(calls, ch.enqueued[j]);
  }

  lemma EnqueueQueue(s: State, i: nat)
    requires QueueInv(s.calls, s.chan) && CallerStep(s, i, Enqueue).Some?
    ensures var s' := CallerStep(s, i, Enqueue).value; QueueInv(s'.calls, s'.chan)
  {
    var s' := CallerStep(s, i, Enqueue).value;
    QueueLater(s.calls, s'.calls, s.chan);
    forall j | 0 <= j < |s.chan.enqueued|
      ensures s.chan.enqueued[j].c != i
    {
      assert Queued(s.calls, s.chan.enqueued[j]);
    }
  }

  lemma StepQueue(max: uint32, s: State, l: Label)
    requires QueueInv(s.calls, s.chan) && Step(max, s, l).Some?
    ensures var s' := Step(max, s, l).value; QueueInv(s'.calls, s'.chan)
  {
    var s' := Step(max, s, l).value;
    match l
    case Caller(i, Enqueue) => EnqueueQueue(s, i);
    case Send(Dequeue) => assert s.chan.queue == [s.chan.queue[0]] + s.chan.queue[1..];
    case _ =>
      SameChan(max, s, l);
      QueueLater(s.calls, s'.calls, s.chan);
  }

  lemma SameChan(max: uint32, s: State, l: Label)
    requires Step(max, s, l).Some? && l != Send(Dequeue) && !(l.Caller? && l.ca.Enqueue?)
    ensures var s' := Step(max, s, l).value; s'.chan == s.chan && Later(s.calls, s'.calls)
  {
  }

  // ----- the wire

  /** `m` is the one dequeued item that is not (yet) written. */
  ghost predicate Pending(processed: seq<Item>, o: Out, m: Item) {
    processed == o.written + [m]
  }

  /** The complete frames, then a front part of the frame of at most one more dequeued item. */
  ghost predicate WireShape(processed: seq<Item>, o: Out) {
    && o.written <= processed && |processed| <= |o.written| + 1
    && Frames(o.written) <= o.wire <= Frames(processed)
  }

  ghost predicate WireInv(max: uint32, processed: seq<Item>, o: Out) {
    && WireShape(processed, o)
    && match o.pc
       case Claiming(m) => Pending(processed, o, m) && o.wire == Frames(o.written)
       case Marshalling(m) => Pending(processed, o, m) && o.wire == Frames(o.written)
       case Writing(m, k) =>
         && Pending(processed, o, m) && MarshalPlan(max, m.msg).Frame?
         && k <= |Encode(m.msg)| && o.wire == Frames(o.written) + Encode(m.msg)[..k]
       case Storing(m, r) =>
         if r.Nil? then processed == o.written && processed != [] && processed[|processed| - 1] == m
         else Pending(processed, o, m)
       case Closing(m, r) => if r.Nil? then processed == o.written else Pending(processed, o, m)
       case Testing(r) => r.Nil? ==> processed == o.written
       case SendUnborn => processed == o.written
       case Selecting => processed == o.written
       case _ => true
  }

  lemma MarshalWire(max: uint32, processed: seq<Item>, o: Out)
    requires WireInv(max, processed, o) && o.pc.Marshalling?
    ensures WireInv(max, processed, o.(pc := Checked(max, o.pc.m)))
  {
    var m := o.pc.m;
    assert Encode(m.msg)[..0] == [];
    assert o.wire + [] == o.wire;
  }

  lemma WriteSomeWire(max: uint32, processed: seq<Item>, closed: bool, o: Out, n: nat)
    requires WireInv(max, processed, o) && WireStep(max, closed, o, WriteSome(n)).Some?
    ensures WireInv(max, processed, WireStep(max, closed, o, WriteSome(n)).value)
  {
    FramesSnoc(o.written, o.pc.m);
    Extend(Frames(o.written), Encode(o.pc.m.msg), o.pc.k, n);
  }

  lemma Extend(w: seq<byte>, f: seq<byte>, k: nat, n: nat)
    requires k + n <= |f|
    ensures (w + f[..k]) + f[k..k + n] == w + f[..k + n]
    ensures w <= w + f[..k + n] <= w + f
  {
    assert f[..k] + f[k..k + n] == f[..k + n];
    assert w + f == (w + f[..k + n]) + f[k + n..];
  }

  lemma WriteOkWire(max: uint32, processed: seq<Item>, closed: bool, o: Out)
    requires WireInv(max, processed, o) && WireStep(max, closed, o, WriteOk).Some?
    ensures WireInv(max, processed, WireStep(max, closed, o, WriteOk).value)
  {
    FramesSnoc(o.written, o.pc.m);
    HasSnoc(o.written, o.pc.m);
    assert Encode(o.pc.m.msg)[..o.pc.k] == Encode(o.pc.m.msg);
  }

  lemma WireStepWire(max: uint32, processed: seq<Item>, closed: bool, o: Out, a: WireAct)
    requires WireInv(max, processed, o) && WireStep(max, closed, o, a).Some?
    ensures WireInv(max, processed, WireStep(max, closed, o, a).value)
  {
    match a
    case MarshalIt => MarshalWire(max, processed, o);
    case WriteSome(n) => WriteSomeWire(max, processed, closed, o, n);
    case WriteOk => WriteOkWire(max, processed, closed, o);
    case _ =>
  }

  lemma DequeueWire(max: uint32, processed: seq<Item>, o: Out, m: Item)
    requires WireInv(max, processed, o) && o.pc.Selecting?
    ensures WireInv(max, processed + [m], o.(pc := Claiming(m)))
  {
    FramesSnoc(processed, m);
  }

  lemma BodyStepWire(max: uint32, processed: seq<Item>, o: Out, b: Body, a: BodyAct)
    requires WireInv(max, processed, o) && BodyStep(o.pc, b, a).Some?
    requires o.pc.Claiming? ==> !b.claimed
    ensures WireInv(max, processed, o.(pc := BodyStep(o.pc, b, a).value.1))
  {
  }

  /** A program counter about which WireInv says nothing beyond the shape of the wire. */
  ghost predicate Outside(pc: SendPc) {
    pc.Recording? || pc.SendStopping? || pc.SendEnding? || pc.SendGone?
  }

  lemma OtherWireFrame(max: uint32, s: State, l: Label)
    requires Step(max, s, l).Some?
    requires l.Send? ==> !l.sa.Dequeue? && !l.sa.OnBody? && !l.sa.OnWire?
    ensures var s' := Step(max, s, l).value;
            && s'.chan.processed == s.chan.processed
            && s'.out == s.out.(pc := s'.out.pc)
            && (s'.out.pc == s.out.pc || Outside(s'.out.pc) || (s'.out.pc.Selecting? && s.life.built == 2))
  {
  }

  lemma StepWire(max: uint32, s: State, l: Label)
    requires WireInv(max, s.chan.processed, s.out) && HandInv(s.calls, s.out) && UnbornInv(s)
    requires Step(max, s, l).Some?
    ensures var s' := Step(max, s, l).value; WireInv(max, s'.chan.processed, s'.out)
  {
    match l
    case Send(OnWire(a)) => WireStepWire(max, s.chan.processed, s.flags.closed, s.out, a);
    case Send(Dequeue) => DequeueWire(max, s.chan.processed, s.out, s.chan.queue[0]);
    case Send(OnBody(a)) =>
      BodyStepWire(max, s.chan.processed, s.out, s.calls[InHand(s.out.pc).value.c].body, a);
    case _ => OtherWireFrame(max, s, l);
  }

  /** The send loop does not exist before NewHandlerManager has started it. */
  ghost predicate UnbornInv(s: State) {
    s.life.built < 3 ==> s.out.pc.SendUnborn?
  }

  lemma StepUnborn(max: uint32, s: State, l: Label)
    requires UnbornInv(s) && Step(max, s, l).Some?
    ensures UnbornInv(Step(max, s, l).value)
  {
  }

  // ----- the acknowledgements

  /** A body is written once, then closed once, and its error is nil exactly if its frame went out. */
  ghost predicate BodyOk(call: Call, processed: bool, written: bool) {
    var b := call.body;
    && b.closes <= b.writes <= 1
    && (b.writes == 0 ==> b.err == Nil)
    && (b.writes == 1 ==> b.claimed && (b.err.Nil? <==> written))
    && (!processed ==> b == NEW_BODY)
  }

  /** Where a call's result came from. */
  ghost predicate ResultOk(call: Call, connDone: bool) {
    match call.pc
    case Acked => call.body.closes == 1
    case Returned(r, AckBranch, _) => call.body.closes == 1 && r == call.body.err
    case Returned(r, ClosedBranch, _) => r == Err(IsClose) && connDone
    case Returned(r, CancelBranch, _) => r == Err(ContextDone) && call.cancelled
    case _ => true
  }

  ghost predicate CallOk(s: State, c: nat)
    requires c < |s.calls|
  {
    && BodyOk(s.calls[c], Has(s.chan.processed, c), Has(s.out.written, c))
    && ResultOk(s.calls[c], s.flags.connDone)
  }

  ghost predicate CallsInv(s: State) {
    forall c: nat :: c < |s.calls| ==> CallOk(s, c)
  }

  /** The body of the item in hand, for each program counter of the send loop. */
  ghost predicate HandInv(calls: seq<Call>, o: Out) {
    match InHand(o.pc)
    case None => true
    case Some(m) =>
      && m.c < |calls|
      && var b := calls[m.c].body;
         match o.pc
         case Claiming(_) => b == NEW_BODY
         case Storing(_, r) => b == NEW_BODY.(claimed := true) && (r.Nil? <==> Has(o.written, m.c))
         case Closing(_, r) => b == Body(true, r, 1, 0)
         case _ => b == NEW_BODY.(claimed := true) && !Has(o.written, m.c)
  }

  // ----- which calls were enqueued

  predicate WasQueued(pc: CallPc) {
    pc.Awaiting? || pc.Acked? || (pc.Returned? && pc.queued)
  }

  /** A call has been enqueued exactly if it got past the first select that way. */
  ghost predicate OriginInv(calls: seq<Call>, ch: Chan) {
    forall c: nat :: c < |calls| ==> (Has(ch.enqueued, c) <==> WasQueued(calls[c].pc))
  }

  lemma EnqueueOrigin(s: State, i: nat)
    requires OriginInv(s.calls, s.chan) && CallerStep(s, i, Enqueue).Some?
    ensures var s' := CallerStep(s, i, Enqueue).value; OriginInv(s'.calls, s'.chan)
  {
    HasSnoc(s.chan.enqueued, Item(i, s.calls[i].msg));
  }

  lemma NewCallOrigin(s: State, msg: Message)
    requires OriginInv(s.calls, s.chan) && QueueInv(s.calls, s.chan)
    ensures var s' := EnvStep(s, NewCall(msg)).value; OriginInv(s'.calls, s'.chan)
  {
    forall j | 0 <= j < |s.chan.enqueued|
      ensures s.chan.enqueued[j].c != |s.calls|
    {
      assert Queued(s.calls, s.chan.enqueued[j]);
    }
  }

  lemma OtherOrigin(max: uint32, s: State, l: Label)
    requires Step(max, s, l).Some? && !(l.Caller? && l.ca.Enqueue?) && !(l.Env? && l.ea.NewCall?)
    ensures var s' := Step(max, s, l).value;
      && s'.chan.enqueued == s.chan.enqueued && |s'.calls| == |s.calls|
      && forall c :: 0 <= c < |s.calls| ==> WasQueued(s'.calls[c].pc) == WasQueued(s.calls[c].pc)
  {
  }

  lemma StepOrigin(max: uint32, s: State, l: Label)
    requires OriginInv(s.calls, s.chan) && QueueInv(s.calls, s.chan) && Step(max, s, l).Some?
    ensures var s' := Step(max, s, l).value; OriginInv(s'.calls, s'.chan)
  {
    match l
    case Caller(i, Enqueue) => EnqueueOrigin(s, i);
    case Env(NewCall(msg)) => NewCallOrigin(s, msg);
    case _ => OtherOrigin(max, s, l);
  }

  // ----- the length limit

  ghost predicate Refused(max: uint32, m: Message) {
    ToUint32(|m.data|) > max
  }

  /** ErrDataLength is the result exactly of the messages that the limit refuses. */
  ghost predicate VerdictInv(max: uint32, s: State) {
    && (forall c :: 0 <= c < |s.calls| ==> Verdict(max, s.calls[c]))
    && match s.out.pc
       case Storing(m, r) => r == Err(DataLength) <==> Refused(max, m.msg)
       case Writing(m, _) => !Refused(max, m.msg)
       case _ => true
  }

  ghost predicate Verdict(max: uint32, call: Call) {
    call.body.writes == 1 ==> (call.body.err == Err(DataLength) <==> Refused(max, call.msg))
  }

  lemma StoreVerdict(max: uint32, s: State)
    requires SendInv(max, s) && VerdictInv(max, s) && SendStep(max, s, OnBody(Store)).Some?
    ensures VerdictInv(max, SendStep(max, s, OnBody(Store)).value)
  {
    var m, ch := s.out.pc.m, s.chan;
    assert ch.enqueued[|ch.processed| - 1] == m;
    assert Queued(s.calls, m);
    var s' := SendStep(max, s, OnBody(Store)).value;
    forall c | 0 <= c < |s'.calls|
      ensures Verdict(max, s'.calls[c])
    {
      assert Verdict(max, s.calls[c]);
    }
  }

  /** Steps that store no result and do not pass the length check. */
  lemma OtherVerdict(max: uint32, s: State, l: Label)
    requires VerdictInv(max, s) && Step(max, s, l).Some? && l != Send(OnBody(Store)) && l != Send(OnWire(MarshalIt))
    requires UnbornInv(s)
    ensures VerdictInv(max, Step(max, s, l).value)
  {
    var s' := Step(max, s, l).value;
    SameWrites(max, s, l);
    forall c | 0 <= c < |s'.calls|
      ensures Verdict(max, s'.calls[c])
    {
      if c < |s.calls| {
        assert Verdict(max, s.calls[c]);
      }
    }
  }

  lemma SameWrites(max: uint32, s: State, l: Label)
    requires Step(max, s, l).Some? && l != Send(OnBody(Store)) && l != Send(OnWire(MarshalIt))
    ensures var s' := Step(max, s, l).value;
      && |s.calls| <= |s'.calls|
      && (forall c :: 0 <= c < |s.calls| ==>
            && s'.calls[c].msg == s.calls[c].msg
            && s'.calls[c].body.writes == s.calls[c].body.writes && s'.calls[c].body.err == s.calls[c].body.err)
      && (forall c :: |s.calls| <= c < |s'.calls| ==> s'.calls[c].body == NEW_BODY)
      && match s'.out.pc
         case Storing(m, r) =>
           s'.out.pc == s.out.pc || (s.out.pc.Writing? && s.out.pc.m == m && r != Err(DataLength))
         case Writing(m, _) => s.out.pc.Writing? && s.out.pc.m == m
         case _ => true
  {
  }

  lemma StepVerdict(max: uint32, s: State, l: Label)
    requires SendInv(max, s) && VerdictInv(max, s) && Step(max, s, l).Some?
    ensures VerdictInv(max, Step(max, s, l).value)
  {
    match l
    case Send(OnBody(Store)) => StoreVerdict(max, s);
    case Send(OnWire(MarshalIt)) =>
    case _ => OtherVerdict(max, s, l);
  }

  ghost predicate SendInv(max: uint32, s: State) {
    && QueueInv(s.calls, s.chan)
    && WireInv(max, s.chan.processed, s.out)
    && CallsInv(s)
    && HandInv(s.calls, s.out)
    && UnbornInv(s)
  }

  /** The next item of the queue has not been touched. */
  lemma NextUntouched(s: State)
    requires QueueInv(s.calls, s.chan) && CallsInv(s) && s.chan.queue != []
    ensures var m := s.chan.queue[0];
            m.c < |s.calls| && s.calls[m.c].body == NEW_BODY && !Has(s.chan.processed, m.c)
  {
    var ch := s.chan;
    assert ch.enqueued[|ch.processed|] == ch.queue[0];
    assert Queued(s.calls, ch.queue[0]);
    assert forall j :: 0 <= j < |ch.processed| ==> ch.processed[j] == ch.enqueued[j];
    assert CallOk(s, ch.queue[0].c);
  }

  lemma DequeueCalls(max: uint32, s: State)
    requires SendInv(max, s) && SendStep(max, s, Dequeue).Some?
    ensures var s' := SendStep(max, s, Dequeue).value; CallsInv(s') && HandInv(s'.calls, s'.out)
  {
    var s', m := SendStep(max, s, Dequeue).value, s.chan.queue[0];
    NextUntouched(s);
    HasSnoc(s.chan.processed, m);
    forall c: nat | c < |s'.calls|
      ensures CallOk(s', c)
    {
      assert CallOk(s, c);
      assert Has(s'.chan.processed, c) <==> Has(s.chan.processed, c) || c == m.c;
    }
  }

  lemma OnBodyCalls(max: uint32, s: State, a: BodyAct)
    requires SendInv(max, s) && SendStep(max, s, OnBody(a)).Some?
    ensures var s' := SendStep(max, s, OnBody(a)).value; CallsInv(s') && HandInv(s'.calls, s'.out)
  {
    var s', m := SendStep(max, s, OnBody(a)).value, InHand(s.out.pc).value;
    HandProcessed(max, s.chan.processed, s.out);
    if a.Claim? {
      PendingNotWritten(s, m);
    }
    forall c: nat | c < |s'.calls|
      ensures CallOk(s', c)
    {
      assert CallOk(s, c);
    }
  }

  lemma PendingNotWritten(s: State, m: Item)
    requires QueueInv(s.calls, s.chan) && Pending(s.chan.processed, s.out, m)
    ensures !Has(s.out.written, m.c)
  {
    var ch, w := s.chan, s.out.written;
    assert ch.enqueued[|w|] == m;
    assert forall j :: 0 <= j < |w| ==> w[j] == ch.enqueued[j];
  }

  lemma HandProcessed(max: uint32, processed: seq<Item>, o: Out)
    requires WireInv(max, processed, o)
    ensures (o.pc.Claiming? || o.pc.Marshalling? || o.pc.Writing? || o.pc.Storing?) ==> Has(processed, o.pc.m.c)
  {
    match InHand(o.pc)
    case None =>
    case Some(m) =>
      if Pending(processed, o, m) {
        HasSnoc(o.written, m);
      }
      if o.pc.Storing? {
        assert processed[|processed| - 1] == m;
      }
  }

  lemma OnWireCalls(max: uint32, s: State, a: WireAct)
    requires SendInv(max, s) && SendStep(max, s, OnWire(a)).Some?
    ensures var s' := SendStep(max, s, OnWire(a)).value; CallsInv(s') && HandInv(s'.calls, s'.out)
  {
    var s' := SendStep(max, s, OnWire(a)).value;
    if a.WriteOk? {
      HasSnoc(s.out.written, s.out.pc.m);
    }
    forall c: nat | c < |s'.calls|
      ensures CallOk(s', c)
    {
      assert CallOk(s, c);
      assert a.WriteOk? ==> (Has(s'.out.written, c) <==> Has(s.out.written, c) || c == s.out.pc.m.c);
    }
  }

  lemma CallerCalls(max: uint32, s: State, i: nat, a: CallerAct)
    requires SendInv(max, s) && CallerStep(s, i, a).Some?
    ensures var s' := CallerStep(s, i, a).value; CallsInv(s') && HandInv(s'.calls, s'.out)
  {
    var s' := CallerStep(s, i, a).value;
    forall c: nat | c < |s'.calls|
      ensures CallOk(s', c)
    {
      assert CallOk(s, c);
    }
  }

  lemma EnvCalls(max: uint32, s: State, a: EnvAct)
    requires SendInv(max, s) && EnvStep(s, a).Some?
    ensures var s' := EnvStep(s, a).value; CallsInv(s') && HandInv(s'.calls, s'.out)
  {
    var s' := EnvStep(s, a).value;
    forall c: nat | c < |s'.calls|
      ensures CallOk(s', c)
    {
      if c < |s.calls| {
        assert CallOk(s, c);
      } else {
        FreshCall(s);
      }
    }
  }

  /** No item carries the number of a call that does not exist yet. */
  lemma FreshCall(s: State)
    requires QueueInv(s.calls, s.chan) && s.out.written <= s.chan.processed
    ensures !Has(s.chan.processed, |s.calls|) && !Has(s.out.written, |s.calls|)
  {
    forall j | 0 <= j < |s.chan.processed|
      ensures s.chan.processed[j].c != |s.calls|
    {
      assert s.chan.processed[j] == s.chan.enqueued[j];
      assert Queued(s.calls, s.chan.enqueued[j]);
    }
    assert forall j :: 0 <= j < |s.out.written| ==> s.out.written[j] == s.chan.processed[j];
  }

  /** Steps that leave the calls, the histories and the item in hand alone. */
  lemma OtherCalls(max: uint32, s: State, l: Label)
    requires SendInv(max, s) && Step(max, s, l).Some?
    requires !l.Caller? && !l.Env? && (l.Send? ==> !l.sa.Dequeue? && !l.sa.OnBody? && !l.sa.OnWire?)
    ensures var s' := Step(max, s, l).value; CallsInv(s') && HandInv(s'.calls, s'.out)
  {
    var s' := Step(max, s, l).value;
    OtherFrame(max, s, l);
    forall c: nat | c < |s'.calls|
      ensures CallOk(s', c)
    {
      assert CallOk(s, c);
    }
  }

  lemma OtherFrame(max: uint32, s: State, l: Label)
    requires Step(max, s, l).Some?
    requires !l.Caller? && !l.Env? && (l.Send? ==> !l.sa.Dequeue? && !l.sa.OnBody? && !l.sa.OnWire?)
    ensures var s' := Step(max, s, l).value;
            && s'.calls == s.calls && s'.chan == s.chan && s'.out.written == s.out.written
            && (s.flags.connDone ==> s'.flags.connDone)
            && (s'.out.pc == s.out.pc || InHand(s'.out.pc).None?)
  {
  }

  lemma StepSend(max: uint32, s: State, l: Label)
    requires SendInv(max, s) && Step(max, s, l).Some?
    ensures SendInv(max, Step(max, s, l).value)
  {
    StepQueue(max, s, l);
    StepWire(max, s, l);
    StepUnborn(max, s, l);
    match l
    case Caller(i, a) => CallerCalls(max, s, i, a);
    case Env(a) => EnvCalls(max, s, a);
    case Send(Dequeue) => DequeueCalls(max, s);
    case Send(OnBody(a)) => OnBodyCalls(max, s, a);
    case Send(OnWire(a)) => OnWireCalls(max, s, a);
    case _ => OtherCalls(max, s, l);
  }
}
