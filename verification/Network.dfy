// Two endpoints joined by a byte stream in each direction: senders, wire, arbitrary chunking
// and receiver together behave like a FIFO of messages.
module Network {
  import opened Bytes
  import opened Errors
  import opened Codec
  import opened Endpoint
  import opened SendSafety
  import opened ReadSafety
  import opened Connection

  datatype Net = Net(a: State, b: State)

  /** The two ends may have different limits. */
  datatype EndLimits = EndLimits(a: uint32, b: uint32)

  datatype Move = AtA(l: Label) | AtB(l: Label)

  const START: Net := Net(INIT, INIT)

  /** Bytes arrive in the order in which the peer wrote them, in any portions, at any delay. */
  predicate Carried(l: Label, received: seq<byte>, wire: seq<byte>) {
    l.Env? && l.ea.Arrive? ==> received + l.ea.bytes <= wire
  }

  function NetStep(lim: EndLimits, n: Net, m: Move): Option<Net> {
    match m
    case AtA(l) =>
      if !Carried(l, n.a.inp.received, n.b.out.wire) then None
      else (match Step(lim.a, n.a, l) case Some(a) => Some(n.(a := a)) case None => None)
    case AtB(l) =>
      if !Carried(l, n.b.inp.received, n.a.out.wire) then None
      else (match Step(lim.b, n.b, l) case Some(b) => Some(n.(b := b)) case None => None)
  }

  function NetRun(lim: EndLimits, n: Net, ms: seq<Move>): Option<Net>
    decreases |ms|
  {
    if ms == [] then Some(n)
    else match NetStep(lim, n, ms[0])
      case None => None
      case Some(n1) => NetRun(lim, n1, ms[1..])
  }

  ghost predicate NetInv(lim: EndLimits, n: Net) {
    && Inv(lim.a, n.a) && Inv(lim.b, n.b)
    && n.b.inp.received <= n.a.out.wire
    && n.a.inp.received <= n.b.out.wire
  }

  /** Bytes are never taken back from the wire, and only Arrive adds to what has been received. */
  lemma StepStreams(max: uint32, s: State, l: Label)
    requires Step(max, s, l).Some?
    ensures var t := Step(max, s, l).value;
            && s.out.wire <= t.out.wire
            && t.inp.received == s.inp.received + (if l.Env? && l.ea.Arrive? then l.ea.bytes else [])
  {
    assert s.inp.received + [] == s.inp.received;
  }

  /** One end moves: its invariant and both of its streams. */
  lemma EndStep(max: uint32, s: State, l: Label, peerWire: seq<byte>)
    requires Inv(max, s) && Step(max, s, l).Some? && Carried(l, s.inp.received, peerWire)
    requires s.inp.received <= peerWire
    ensures var t := Step(max, s, l).value; Inv(max, t) && s.out.wire <= t.out.wire && t.inp.received <= peerWire
  {
    StepStreams(max, s, l);
    StepInv(max, s, l);
  }

  lemma NetStepInv(lim: EndLimits, n: Net, m: Move)
    requires NetInv(lim, n) && NetStep(lim, n, m).Some?
    ensures NetInv(lim, NetStep(lim, n, m).value)
  {
    match m
    case AtA(l) => EndStep(lim.a, n.a, l, n.b.out.wire);
    case AtB(l) => EndStep(lim.b, n.b, l, n.a.out.wire);
  }

  lemma {:induction false} NetRunInv(lim: EndLimits, n: Net, ms: seq<Move>)
    requires NetInv(lim, n) && NetRun(lim, n, ms).Some?
    ensures NetInv(lim, NetRun(lim, n, ms).value)
    decreases |ms|
  {
    if ms != [] {
      NetStepInv(lim, n, ms[0]);
      NetRunInv(lim, NetStep(lim, n, ms[0]).value, ms[1..]);
    }
  }

  lemma NetInvAfter(lim: EndLimits, ms: seq<Move>)
    requires NetRun(lim, START, ms).Some?
    ensures NetInv(lim, NetRun(lim, START, ms).value)
  {
    InitInv(lim.a);
    InitInv(lim.b);
    NetRunInv(lim, START, ms);
  }

  lemma SendsFit(items: seq<Item>)
    ensures AllFit(Sends(items))
  {
    forall i | 0 <= i < |items|
      ensures Fits(Sends(items)[i])
    {
      EncodeTruncated(items[i].msg);
    }
  }

  lemma SendsPrefix(front: seq<Item>, back: seq<Item>)
    ensures Sends(front) <= Sends(front + back)
  {
    assert Sends(front + back) == Sends(front) + Sends(back);
  }

  /** The frames of what has been delivered lead the bytes that were read. */
  lemma DeliveredBytes(max: uint32, r: In)
    requires ReadInv(max, r)
    ensures AllFit(r.delivered) && EncodeAll(r.delivered) <= r.received
  {
    var rest :| Leftover(max, r, rest);
    assert EncodeAll(r.delivered) <= r.received[..r.taken];
  }

  /** What one direction delivers, given the invariants of its sender and its receiver. */
  lemma Direction(maxS: uint32, s: State, maxR: uint32, r: In)
    requires QueueInv(s.calls, s.chan) && WireShape(s.chan.processed, s.out)
    requires ReadInv(maxR, r) && r.received <= s.out.wire
    ensures r.delivered <= Sends(s.chan.enqueued)
    ensures |r.delivered| <= |s.chan.processed|
  {
    var p := s.chan.processed;
    DeliveredBytes(maxR, r);
    SendsFit(p);
    PrefixCode(r.delivered, Sends(p));
    SendsPrefix(p, s.chan.queue);
  }

  // ----- refinement of a FIFO queue

  /** What one direction holds: enqueued by the sender and not yet handed on by the receiver. */
  ghost function Content(s: State, r: State): seq<Message>
    requires r.inp.delivered <= Sends(s.chan.enqueued)
  {
    Sends(s.chan.enqueued)[|r.inp.delivered|..]
  }

  /** sendMsg's enqueue pushes its message at the end; no other action touches the sender's side. */
  ghost predicate Pushes(s: State, l: Label, c: seq<Message>, out: seq<Message>, c': seq<Message>, out': seq<Message>) {
    && out' == out
    && c' == c + (if l.Caller? && l.ca.Enqueue? && l.i < |s.calls| then [Truncated(s.calls[l.i].msg)] else [])
  }

  /** The Read that completes a message, so that handleMsg is called with it. */
  predicate HandsOn(l: Label, t: State) {
    l.Read? && l.ra.ReadSome? && t.inp.pc.Handling?
  }

  /** Handing a message on pops the front; no other action touches the receiver's side. */
  ghost predicate Pops(l: Label, t: State, c: seq<Message>, out: seq<Message>, c': seq<Message>, out': seq<Message>) {
    if HandsOn(l, t) then c != [] && c' == c[1..] && out' == out + [c[0]]
    else c' == c && out' == out
  }

  lemma StepEnqueues(max: uint32, s: State, l: Label)
    requires Step(max, s, l).Some?
    ensures Step(max, s, l).value.chan.enqueued ==
      s.chan.enqueued + if l.Caller? && l.ca.Enqueue? then [Item(l.i, s.calls[l.i].msg)] else []
  {
  }

  lemma StepDelivers(max: uint32, s: State, l: Label)
    requires Step(max, s, l).Some?
    ensures var t := Step(max, s, l).value;
      if HandsOn(l, t) then |t.inp.delivered| == |s.inp.delivered| + 1 && s.inp.delivered <= t.inp.delivered
      else t.inp.delivered == s.inp.delivered
  {
  }

  lemma PushSide(max: uint32, s: State, l: Label, r: State)
    requires Step(max, s, l).Some? && r.inp.delivered <= Sends(s.chan.enqueued)
    ensures var t := Step(max, s, l).value;
      && r.inp.delivered <= Sends(t.chan.enqueued)
      && Pushes(s, l, Content(s, r), r.inp.delivered, Content(t, r), r.inp.delivered)
  {
    var e, d := s.chan.enqueued, |r.inp.delivered|;
    StepEnqueues(max, s, l);
    if l.Caller? && l.ca.Enqueue? {
      var m := Item(l.i, s.calls[l.i].msg);
      assert Sends(e + [m]) == Sends(e) + [Truncated(m.msg)];
    } else {
      assert Sends(e)[d..] + [] == Sends(e)[d..];
    }
  }

  lemma PopSide(max: uint32, r: State, l: Label, s: State)
    requires Step(max, r, l).Some?
    requires r.inp.delivered <= Sends(s.chan.enqueued) && Step(max, r, l).value.inp.delivered <= Sends(s.chan.enqueued)
    ensures var t := Step(max, r, l).value;
            Pops(l, t, Content(s, r), r.inp.delivered, Content(s, t), t.inp.delivered)
  {
    var t := Step(max, r, l).value;
    StepDelivers(max, r, l);
    if HandsOn(l, t) {
      var d := |r.inp.delivered|;
      assert t.inp.delivered == Sends(s.chan.enqueued)[..d + 1];
    }
  }

  ghost predicate Prefixes(n: Net) {
    n.b.inp.delivered <= Sends(n.a.chan.enqueued) && n.a.inp.delivered <= Sends(n.b.chan.enqueued)
  }

  /**
   * Every action of either endpoint is, for the queue of messages in its own direction, a push
   * of the caller's message if it is sendMsg's enqueue and nothing otherwise; and for the queue
   * in the other direction a pop if it hands a message to handleMsg and nothing otherwise.
   */
  ghost predicate Refines(n: Net, m: Move, t: Net)
    requires Prefixes(n) && Prefixes(t)
  {
    match m
    case AtA(l) =>
      && Pushes(n.a, l, Content(n.a, n.b), n.b.inp.delivered, Content(t.a, t.b), t.b.inp.delivered)
      && Pops(l, t.a, Content(n.b, n.a), n.a.inp.delivered, Content(t.b, t.a), t.a.inp.delivered)
    case AtB(l) =>
      && Pushes(n.b, l, Content(n.b, n.a), n.a.inp.delivered, Content(t.b, t.a), t.a.inp.delivered)
      && Pops(l, t.b, Content(n.a, n.b), n.b.inp.delivered, Content(t.a, t.b), t.b.inp.delivered)
  }

  lemma SidesRefine(lim: EndLimits, n: Net, m: Move)
    requires NetStep(lim, n, m).Some? && Prefixes(n) && Prefixes(NetStep(lim, n, m).value)
    ensures Refines(n, m, NetStep(lim, n, m).value)
  {
    match m
    case AtA(l) =>
      PushSide(lim.a, n.a, l, n.b);
      PopSide(lim.a, n.a, l, n.b);
    case AtB(l) =>
      PushSide(lim.b, n.b, l, n.a);
      PopSide(lim.b, n.b, l, n.a);
  }

  /** Every step of every reachable network refines the two FIFO queues. */
  lemma RefinesFifo(lim: EndLimits, n: Net, m: Move)
    requires NetInv(lim, n) && NetStep(lim, n, m).Some?
    ensures Prefixes(n) && Prefixes(NetStep(lim, n, m).value) && Refines(n, m, NetStep(lim, n, m).value)
  {
    NetStepInv(lim, n, m);
    BothDirections(lim, n);
    BothDirections(lim, NetStep(lim, n, m).value);
    SidesRefine(lim, n, m);
  }

  lemma BothDirections(lim: EndLimits, n: Net)
    requires NetInv(lim, n)
    ensures Prefixes(n)
  {
    Direction(lim.a, n.a, lim.b, n.b.inp);
    Direction(lim.b, n.b, lim.a, n.a.inp);
  }

  /** The queued items belong to different calls and carry the messages of those calls. */
  ghost predicate EachOnce(calls: seq<Call>, items: seq<Item>) {
    && (forall j, k :: 0 <= j < k < |items| ==> items[j].c != items[k].c)
    && (forall j :: 0 <= j < |items| ==> items[j].c < |calls| && calls[items[j].c].msg == items[j].msg)
  }

  lemma QueuedOnce(calls: seq<Call>, ch: Chan)
    requires QueueInv(calls, ch)
    ensures EachOnce(calls, ch.enqueued)
  {
    assert forall j :: 0 <= j < |ch.enqueued| ==> Queued(calls, ch.enqueued[j]);
  }

  /**
   * End-to-end FIFO: in every run, whatever the interleaving, the chunking and the point of
   * failure, each side has handed to handleMsg a prefix of the messages its peer enqueued, in
   * order, with the body cut modulo 2^32; and what was enqueued are messages of different
   * calls, so that each call is handed on at most once.
   */
  lemma Fifo(lim: EndLimits, ms: seq<Move>)
    requires NetRun(lim, START, ms).Some?
    ensures var n := NetRun(lim, START, ms).value;
            && n.b.inp.delivered <= Sends(n.a.chan.enqueued) && EachOnce(n.a.calls, n.a.chan.enqueued)
            && n.a.inp.delivered <= Sends(n.b.chan.enqueued) && EachOnce(n.b.calls, n.b.chan.enqueued)
  {
    NetInvAfter(lim, ms);
    var n := NetRun(lim, START, ms).value;
    BothDirections(lim, n);
    QueuedOnce(n.a.calls, n.a.chan);
    QueuedOnce(n.b.calls, n.b.chan);
  }

  /** The k-th delivered message is the k-th enqueued one unchanged exactly if its length fits 32 bits. */
  lemma FifoExact(lim: EndLimits, ms: seq<Move>, k: nat)
    requires NetRun(lim, START, ms).Some? && k < |NetRun(lim, START, ms).value.b.inp.delivered|
    ensures var n := NetRun(lim, START, ms).value;
            && k < |n.a.chan.enqueued|
            && (n.b.inp.delivered[k] == n.a.chan.enqueued[k].msg <==> Fits(n.a.chan.enqueued[k].msg))
  {
    Fifo(lim, ms);
    var n := NetRun(lim, START, ms).value;
    assert n.b.inp.delivered[k] == Sends(n.a.chan.enqueued)[k];
    EncodeTruncated(n.a.chan.enqueued[k].msg);
  }

  /**
   * Nothing acknowledged is lost on the way: when the receiver has read all bytes of the wire
   * and none of the written messages exceeds its limit, it has delivered all of them.
   */
  lemma AcknowledgedArrive(lim: EndLimits, ms: seq<Move>)
    requires NetRun(lim, START, ms).Some?
    ensures var n := NetRun(lim, START, ms).value;
            n.b.inp.taken == |n.a.out.wire| && Within(Sends(n.a.out.written), lim.b)
            ==> Sends(n.a.out.written) <= n.b.inp.delivered
  {
    NetInvAfter(lim, ms);
    var n := NetRun(lim, START, ms).value;
    if n.b.inp.taken == |n.a.out.wire| && Within(Sends(n.a.out.written), lim.b) {
      AllRead(lim.b, n.a, n.b.inp);
    }
  }

  lemma AllRead(max: uint32, s: State, r: In)
    requires WireShape(s.chan.processed, s.out) && ReadInv(max, r) && r.received <= s.out.wire
    requires r.taken == |s.out.wire| && Within(Sends(s.out.written), max)
    ensures Sends(s.out.written) <= r.delivered
  {
    var w := Sends(s.out.written);
    DeliveredIsDecoded(max, r);
    assert r.received[..r.taken] == s.out.wire;
    var tail := s.out.wire[|EncodeAll(w)|..];
    assert s.out.wire == EncodeAll(w) + tail;
    SendsFit(s.out.written);
    DecodeAllFrames(w, tail, Eof, max);
  }
}
