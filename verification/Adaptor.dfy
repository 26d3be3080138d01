// The WebSocket adaptor under interference: one reader, one writer, and Close at any moment,
// also between the two critical sections of a Read or a Write.
module Adaptor {
  import opened Bytes
  import opened Errors
  import opened Transport

  /** A finished Read: what it saw of `closed`, the message it fetched, and what it returned. */
  datatype ReadRec = ReadRec(room: nat, closedAtStart: bool, fetched: Option<seq<byte>>,
                             got: seq<byte>, err: Option<Failure>, closedAtEnd: bool)

  datatype ReadPc =
    | NoRead
    | Fetching(room: nat)                                // in ReadMessage, without the lock
    | Fetched(room: nat, msg: seq<byte>)                 // before the second critical section
    | Failed(room: nat, e: Failure, normalClose: bool)

  /** `all` are the messages that have arrived, `inbox` those that ReadMessage has not returned. */
  datatype Reader = Reader(pc: ReadPc, buf: seq<byte>, err: Option<Failure>,
                           all: seq<seq<byte>>, inbox: seq<seq<byte>>, log: seq<ReadRec>)

  datatype WriteRec = WriteRec(data: seq<byte>, closedAtStart: bool, err: Option<Failure>, closedAtEnd: bool)

  datatype WritePc =
    | NoWrite
    | Sending(data: seq<byte>)                           // in WriteMessage, without the lock
    | Sent(data: seq<byte>)
    | NotSent(data: seq<byte>, e: Failure)

  /** `outbox` are the messages that WriteMessage has written. */
  datatype Writer = Writer(pc: WritePc, err: Option<Failure>, outbox: seq<seq<byte>>, log: seq<WriteRec>)

  /** `frame` is what became of the close frame; `results` are those of all calls of Close. */
  datatype Closer = Closer(closed: bool, cancelled: bool, frame: Option<CloseFrame>, underCloses: nat,
                           results: seq<Option<Failure>>)

  datatype State = State(reader: Reader, writer: Writer, closer: Closer)

  const INIT: State := State(Reader(NoRead, [], None, [], [], []), Writer(NoWrite, None, [], []),
                             Closer(false, false, None, 0, []))

  datatype ReadAct =
    | Arrive(msg: seq<byte>)
    | ReadStart(room: nat)                               // the first critical section
    | Fetch
    | FetchFails(e: Failure, normalClose: bool)
    | ReadFinish                                         // the second critical section

  datatype WriteAct = WriteStart(data: seq<byte>) | Send | SendFails(e: Failure) | WriteFinish

  datatype Label =
    | Read(ra: ReadAct)
    | Write(wa: WriteAct)
    | Close(frame: CloseFrame, under: Option<Failure>)

  function ReadStep(r: Reader, closed: bool, a: ReadAct): Option<Reader> {
    match a
    case Arrive(msg) => Some(r.(all := r.all + [msg], inbox := r.inbox + [msg]))
    case ReadStart(room) =>
      if !r.pc.NoRead? then None
      else if closed then Some(r.(log := r.log + [ReadRec(room, true, None, [], Some(ClosedPipe), true)]))
      else if r.err.Some? then Some(r.(log := r.log + [ReadRec(room, false, None, [], r.err, false)]))
      else if |r.buf| > 0 then
        var n := Min(|r.buf|, room);
        Some(r.(buf := r.buf[n..], log := r.log + [ReadRec(room, false, None, r.buf[..n], None, false)]))
      else Some(r.(pc := Fetching(room)))
    case Fetch =>
      if r.pc.Fetching? && r.inbox != []
      then Some(r.(pc := Fetched(r.pc.room, r.inbox[0]), inbox := r.inbox[1..])) else None
    case FetchFails(e, normalClose) =>
      if r.pc.Fetching? then Some(r.(pc := Failed(r.pc.room, e, normalClose))) else None
    case ReadFinish =>
      match r.pc
      case Fetched(room, msg) =>
        var n := Min(|msg|, room);
        Some(r.(pc := NoRead, buf := if n < |msg| then msg[n..] else r.buf,
                log := r.log + [ReadRec(room, false, Some(msg), msg[..n], None, closed)]))
      case Failed(room, e, normalClose) =>
        Some(r.(pc := NoRead, err := Some(e),
                log := r.log + [ReadRec(room, false, None, [], Some(if normalClose then Eof else e), closed)]))
      case _ => None
  }

  function WriteStep(w: Writer, closed: bool, a: WriteAct): Option<Writer> {
    match a
    case WriteStart(data) =>
      if !w.pc.NoWrite? then None
      else if closed then Some(w.(log := w.log + [WriteRec(data, true, Some(ClosedPipe), true)]))
      else if w.err.Some? then Some(w.(log := w.log + [WriteRec(data, false, w.err, false)]))
      else Some(w.(pc := Sending(data)))
    case Send =>
      if w.pc.Sending? then Some(w.(pc := Sent(w.pc.data), outbox := w.outbox + [w.pc.data])) else None
    case SendFails(e) => if w.pc.Sending? then Some(w.(pc := NotSent(w.pc.data, e))) else None
    case WriteFinish =>
      match w.pc
      case Sent(data) => Some(w.(pc := NoWrite, log := w.log + [WriteRec(data, false, None, closed)]))
      case NotSent(data, e) =>
        Some(w.(pc := NoWrite, err := Some(e), log := w.log + [WriteRec(data, false, Some(e), closed)]))
      case _ => None
  }

  function CloseStep(c: Closer, frame: CloseFrame, under: Option<Failure>): Closer {
    if c.closed then c.(cancelled := true, results := c.results + [None])
    else if frame.FrameFailed? then Closer(true, true, Some(frame), c.underCloses, c.results + [Some(frame.e)])
    else Closer(true, true, Some(frame), c.underCloses + 1, c.results + [under])
  }

  function Step(s: State, l: Label): Option<State> {
    match l
    case Read(a) =>
      (match ReadStep(s.reader, s.closer.closed, a)
       case Some(r) => Some(s.(reader := r))
       case None => None)
    case Write(a) =>
      (match WriteStep(s.writer, s.closer.closed, a)
       case Some(w) => Some(s.(writer := w))
       case None => None)
    case Close(frame, under) => Some(s.(closer := CloseStep(s.closer, frame, under)))
  }

  function Run(s: State, ls: seq<Label>): Option<State>
    decreases |ls|
  {
    if ls == [] then Some(s)
    else match Step(s, ls[0])
      case None => None
      case Some(t) => Run(t, ls[1..])
  }

  // ----- no byte is lost, repeated or reordered

  function Gots(log: seq<ReadRec>): (r: seq<seq<byte>>)
    ensures |r| == |log|
  {
    seq(|log|, i requires 0 <= i < |log| => log[i].got)
  }

  /** The bytes that all reads so far have returned. */
  function Served(log: seq<ReadRec>): seq<byte> {
    Flatten(Gots(log))
  }

  lemma ServedSnoc(log: seq<ReadRec>, x: ReadRec)
    ensures Served(log + [x]) == Served(log) + x.got
  {
    assert Gots(log + [x]) == Gots(log) + [x.got];
    FlattenSnoc(Gots(log), x.got);
  }

  /** The message that ReadMessage has returned to the read under way. */
  function InHand(pc: ReadPc): seq<byte> {
    if pc.Fetched? then pc.msg else []
  }

  /** Of the message in hand and the left-over bytes one is always empty. */
  function Held(r: Reader): seq<byte> {
    if r.pc.NoRead? then r.buf else InHand(r.pc)
  }

  function Left(r: Reader): seq<byte> {
    Held(r) + Flatten(r.inbox)
  }

  /** Returned, in hand, left over and unread: together all bytes that have arrived. */
  ghost predicate Conserved(r: Reader) {
    && Flatten(r.all) == Served(r.log) + Left(r)
    && (!r.pc.NoRead? ==> r.buf == [] && r.err.None?)
  }

  lemma Assoc(x: seq<byte>, y: seq<byte>, z: seq<byte>)
    ensures (x + y) + z == x + (y + z)
  {
  }

  /** A read that ends moves what it returns from the left-over bytes to the returned ones. */
  lemma EndConserved(r: Reader, r': Reader, x: ReadRec)
    requires Conserved(r) && r'.all == r.all && r'.inbox == r.inbox && r'.log == r.log + [x]
    requires r'.pc.NoRead? && Held(r) == x.got + r'.buf
    ensures Conserved(r')
  {
    ServedSnoc(r.log, x);
    Assoc(x.got, r'.buf, Flatten(r.inbox));
    Assoc(Served(r.log), x.got, Left(r'));
  }

  lemma BufferConserved(r: Reader, n: nat, x: ReadRec)
    requires Conserved(r) && r.pc.NoRead? && n <= |r.buf| && x.got == r.buf[..n]
    ensures Conserved(r.(buf := r.buf[n..], log := r.log + [x]))
  {
    assert r.buf == x.got + r.buf[n..];
    EndConserved(r, r.(buf := r.buf[n..], log := r.log + [x]), x);
  }

  lemma NothingConserved(r: Reader, x: ReadRec)
    requires Conserved(r) && x.got == []
    ensures Conserved(r.(log := r.log + [x]))
  {
    ServedSnoc(r.log, x);
    assert Served(r.log) + [] == Served(r.log);
  }

  lemma StartConserved(r: Reader, closed: bool, room: nat)
    requires Conserved(r) && ReadStep(r, closed, ReadStart(room)).Some?
    ensures Conserved(ReadStep(r, closed, ReadStart(room)).value)
  {
    if closed {
      NothingConserved(r, ReadRec(room, true, None, [], Some(ClosedPipe), true));
    } else if r.err.Some? {
      NothingConserved(r, ReadRec(room, false, None, [], r.err, false));
    } else if |r.buf| > 0 {
      var n := Min(|r.buf|, room);
      BufferConserved(r, n, ReadRec(room, false, None, r.buf[..n], None, false));
    }
  }

  lemma FinishConserved(r: Reader, closed: bool)
    requires Conserved(r) && ReadStep(r, closed, ReadFinish).Some?
    ensures Conserved(ReadStep(r, closed, ReadFinish).value)
  {
    var r' := ReadStep(r, closed, ReadFinish).value;
    var x := r'.log[|r.log|];
    assert InHand(r.pc) == x.got + r'.buf;
    EndConserved(r, r', x);
  }

  lemma ArriveConserved(r: Reader, msg: seq<byte>)
    requires Conserved(r)
    ensures Conserved(r.(all := r.all + [msg], inbox := r.inbox + [msg]))
  {
    FlattenSnoc(r.all, msg);
    FlattenSnoc(r.inbox, msg);
    Assoc(Held(r), Flatten(r.inbox), msg);
    Assoc(Served(r.log), Left(r), msg);
  }

  lemma ReadConserved(r: Reader, closed: bool, a: ReadAct)
    requires Conserved(r) && ReadStep(r, closed, a).Some?
    ensures Conserved(ReadStep(r, closed, a).value)
  {
    match a
    case Arrive(msg) => ArriveConserved(r, msg);
    case ReadStart(room) => StartConserved(r, closed, room);
    case ReadFinish => FinishConserved(r, closed);
    case Fetch =>
      assert [] + Flatten(r.inbox) == r.inbox[0] + Flatten(r.inbox[1..]);
    case _ =>
  }

  // ----- what a read may return after Close

  /** What one finished Read tells; a read that starts on a closed connection fetches nothing. */
  ghost predicate RecOk(x: ReadRec) {
    && (x.closedAtStart ==> x.closedAtEnd && x.got == [] && x.fetched.None? && x.err == Some(ClosedPipe))
    && (x.fetched.Some? ==> x.err.None? && x.got == x.fetched.value[..Min(|x.fetched.value|, x.room)])
    && (x.closedAtEnd && x.fetched.None? ==> x.got == [] && x.err.Some?)
    && (x.err.Some? ==> x.got == [])
  }

  /** `closed` stays set, and a failure of ReadMessage sticks. */
  ghost predicate Ordered(x: ReadRec, y: ReadRec) {
    && (x.closedAtEnd ==> y.closedAtStart)
    && (x.err.Some? ==> y.err.Some?)
  }

  ghost predicate LogInv(r: Reader, closed: bool) {
    && (forall k :: 0 <= k < |r.log| ==> RecOk(r.log[k]))
    && (forall j, k :: 0 <= j < k < |r.log| ==> Ordered(r.log[j], r.log[k]))
    && (forall k :: 0 <= k < |r.log| && r.log[k].closedAtEnd ==> closed && r.pc.NoRead?)
    && (forall k :: 0 <= k < |r.log| && r.log[k].err.Some? ==> r.pc.NoRead? && (closed || r.err.Some?))
    && (!r.pc.NoRead? ==> r.buf == [] && r.err.None?)
  }

  lemma ReadLog(r: Reader, closed: bool, a: ReadAct)
    requires LogInv(r, closed) && ReadStep(r, closed, a).Some?
    ensures LogInv(ReadStep(r, closed, a).value, closed)
  {
    var r' := ReadStep(r, closed, a).value;
    if |r'.log| > |r.log| {
      var x := r'.log[|r.log|];
      assert r'.log == r.log + [x];
      assert RecOk(x);
      forall j | 0 <= j < |r.log|
        ensures Ordered(r.log[j], x)
      {
        assert RecOk(r.log[j]);
      }
    }
  }

  // ----- writing

  /** The data of the writes that returned nil, in order. */
  function Accepted(log: seq<WriteRec>): seq<seq<byte>> {
    if log == [] then []
    else
      var n := |log| - 1;
      Accepted(log[..n]) + if log[n].err.None? then [log[n].data] else []
  }

  lemma AcceptedSnoc(log: seq<WriteRec>, x: WriteRec)
    ensures Accepted(log + [x]) == Accepted(log) + if x.err.None? then [x.data] else []
  {
    assert (log + [x])[..|log|] == log;
  }

  /** The write that has been put on the wire but has not returned yet. */
  function Underway(pc: WritePc): seq<seq<byte>> {
    if pc.Sent? then [pc.data] else []
  }

  ghost predicate WriteOrdered(x: WriteRec, y: WriteRec) {
    && (x.closedAtEnd ==> y.closedAtStart)
    && (x.err.Some? ==> y.err.Some?)
  }

  ghost predicate OutboxInv(w: Writer) {
    w.outbox == Accepted(w.log) + Underway(w.pc)
  }

  lemma WriteOutbox(w: Writer, closed: bool, a: WriteAct)
    requires OutboxInv(w) && WriteStep(w, closed, a).Some?
    ensures OutboxInv(WriteStep(w, closed, a).value)
  {
    var w' := WriteStep(w, closed, a).value;
    if |w'.log| > |w.log| {
      AcceptedSnoc(w.log, w'.log[|w.log|]);
    }
  }

  ghost predicate WriteLogInv(w: Writer, closed: bool) {
    && (forall k :: 0 <= k < |w.log| && w.log[k].closedAtStart ==> w.log[k].err == Some(ClosedPipe))
    && (forall j, k :: 0 <= j < k < |w.log| ==> WriteOrdered(w.log[j], w.log[k]))
    && (forall k :: 0 <= k < |w.log| && w.log[k].closedAtEnd ==> closed && w.pc.NoWrite?)
    && (forall k :: 0 <= k < |w.log| && w.log[k].err.Some? ==> w.pc.NoWrite? && (closed || w.err.Some?))
    && (!w.pc.NoWrite? ==> w.err.None?)
  }

  lemma WriteKeepsLog(w: Writer, closed: bool, a: WriteAct)
    requires WriteLogInv(w, closed) && WriteStep(w, closed, a).Some?
    ensures WriteLogInv(WriteStep(w, closed, a).value, closed)
  {
  }

  // ----- closing

  predicate FrameOut(c: Closer) {
    c.frame.Some? && !c.frame.value.FrameFailed?
  }

  /**
   * The first Close decides: the underlying connection is closed, once, exactly if the close
   * frame went out or had gone out before. Every later Close returns nil and does nothing.
   */
  ghost predicate CloseInv(c: Closer) {
    && (c.closed <==> c.results != []) && (c.cancelled <==> c.closed) && (c.frame.Some? <==> c.closed)
    && c.underCloses == (if FrameOut(c) then 1 else 0)
    && (c.closed && c.frame.value.FrameFailed? ==> c.results[0] == Some(c.frame.value.e))
    && forall k :: 1 <= k < |c.results| ==> c.results[k] == None
  }

  // ----- every run

  ghost predicate Inv(s: State) {
    && Conserved(s.reader)
    && LogInv(s.reader, s.closer.closed)
    && OutboxInv(s.writer) && WriteLogInv(s.writer, s.closer.closed)
    && CloseInv(s.closer)
  }

  lemma StepInv(s: State, l: Label)
    requires Inv(s) && Step(s, l).Some?
    ensures Inv(Step(s, l).value)
  {
    match l
    case Read(a) =>
      ReadConserved(s.reader, s.closer.closed, a);
      ReadLog(s.reader, s.closer.closed, a);
    case Write(a) =>
      WriteOutbox(s.writer, s.closer.closed, a);
      WriteKeepsLog(s.writer, s.closer.closed, a);
    case Close(_, _) =>
  }

  lemma {:induction false} RunInv(s: State, ls: seq<Label>)
    requires Inv(s) && Run(s, ls).Some?
    ensures Inv(Run(s, ls).value)
    decreases |ls|
  {
    if ls != [] {
      StepInv(s, ls[0]);
      RunInv(Step(s, ls[0]).value, ls[1..]);
    }
  }

  ghost predicate Reachable(s: State) {
    exists ls :: Run(INIT, ls) == Some(s)
  }

  lemma ReachableInv(s: State)
    requires Reachable(s)
    ensures Inv(s)
  {
    var ls :| Run(INIT, ls) == Some(s);
    RunInv(INIT, ls);
  }

  /**
   * In every run, across Close too: the bytes returned, the message in hand, readBuf and the
   * unread messages are together exactly the bytes that have arrived, in order.
   */
  lemma BytesConserved(s: State)
    requires Reachable(s)
    ensures var r := s.reader;
            Flatten(r.all) == Served(r.log) + (InHand(r.pc) + r.buf + Flatten(r.inbox))
  {
    ReachableInv(s);
    assert InHand(s.reader.pc) + s.reader.buf == Held(s.reader);
  }

  /**
   * A read that ends behind a Close returns bytes exactly if it had passed the first critical
   * section before it, finding readBuf empty, and its ReadMessage then yielded a message that
   * is not empty, and its buffer is not empty either.
   */
  lemma LateBytesIff(s: State, k: nat)
    requires Reachable(s) && k < |s.reader.log| && s.reader.log[k].closedAtEnd
    ensures var x := s.reader.log[k];
            x.got != [] <==> !x.closedAtStart && x.fetched.Some? && x.fetched.value != [] && x.room > 0
  {
    ReachableInv(s);
    assert RecOk(s.reader.log[k]);
  }

  /** At most one read starts before a Close and ends behind it; all later ones return ErrClosedPipe. */
  lemma OneLateRead(s: State, j: nat, k: nat)
    requires Reachable(s) && j < k < |s.reader.log| && s.reader.log[j].closedAtEnd
    ensures s.reader.log[k] == ReadRec(s.reader.log[k].room, true, None, [], Some(ClosedPipe), true)
  {
    ReachableInv(s);
    assert Ordered(s.reader.log[j], s.reader.log[k]) && RecOk(s.reader.log[k]);
  }

  /** Behind a read that returned an error every read returns an error and no byte. */
  lemma NothingAfterError(s: State, j: nat, k: nat)
    requires Reachable(s) && j < k < |s.reader.log| && s.reader.log[j].err.Some?
    ensures s.reader.log[k].err.Some? && s.reader.log[k].got == []
  {
    ReachableInv(s);
    assert Ordered(s.reader.log[j], s.reader.log[k]) && RecOk(s.reader.log[k]);
  }

  // ----- from a Close on

  function LateGot(before: seq<ReadRec>, log: seq<ReadRec>): seq<byte> {
    if |log| > |before| then log[|before|].got else []
  }

  /** The reads that have ended since `before`, of which `inFlight` had already begun. */
  ghost predicate Since(before: seq<ReadRec>, inFlight: nat, r: Reader) {
    && before <= r.log
    && (r.pc.NoRead? || (inFlight == 1 && |r.log| == |before|))
    && (forall k :: |before| <= k < |r.log| ==> r.log[k].closedAtEnd)
    && (forall k :: |before| + inFlight <= k < |r.log| ==> r.log[k].closedAtStart && r.log[k].got == [])
    && Served(r.log) == Served(before) + LateGot(before, r.log)
  }

  lemma StepSince(before: seq<ReadRec>, inFlight: nat, r: Reader, a: ReadAct)
    requires inFlight <= 1 && Since(before, inFlight, r) && ReadStep(r, true, a).Some?
    ensures Since(before, inFlight, ReadStep(r, true, a).value)
  {
    var r' := ReadStep(r, true, a).value;
    if |r'.log| > |r.log| {
      var x := r'.log[|r.log|];
      assert r'.log == r.log + [x];
      ServedSnoc(r.log, x);
    }
  }

  lemma {:induction false} RunSince(before: seq<ReadRec>, inFlight: nat, s: State, ls: seq<Label>)
    requires inFlight <= 1 && s.closer.closed && Since(before, inFlight, s.reader) && Run(s, ls).Some?
    ensures var t := Run(s, ls).value; t.closer.closed && Since(before, inFlight, t.reader)
    decreases |ls|
  {
    if ls != [] {
      if ls[0].Read? {
        StepSince(before, inFlight, s.reader, ls[0].ra);
      }
      RunSince(before, inFlight, Step(s, ls[0]).value, ls[1..]);
    }
  }

  /**
   * Everything that reads return behind a Close comes from the one read that is in flight when
   * it runs, if there is one: no further byte is ever returned exactly unless that read ends
   * with a message that is not empty, into a buffer that is not empty.
   */
  lemma AfterClose(s: State, ls: seq<Label>)
    requires Reachable(s) && s.closer.closed && Run(s, ls).Some?
    ensures var log, log' := s.reader.log, Run(s, ls).value.reader.log;
      && log <= log' && Served(log') == Served(log) + LateGot(log, log')
      && (Served(log') != Served(log) <==>
            && !s.reader.pc.NoRead? && |log'| > |log|
            && var x := log'[|log|]; x.fetched.Some? && x.fetched.value != [] && x.room > 0)
  {
    var log, t := s.reader.log, Run(s, ls).value;
    var inFlight: nat := if s.reader.pc.NoRead? then 0 else 1;
    assert Served(log) + [] == Served(log);
    RunSince(log, inFlight, s, ls);
    ReachableInv(s);
    RunInv(s, ls);
    if |t.reader.log| > |log| {
      assert RecOk(t.reader.log[|log|]);
    }
  }

  lemma Next(s: State, l: Label) returns (t: State)
    requires Reachable(s) && Step(s, l).Some?
    ensures Reachable(t) && t == Step(s, l).value
  {
    var ls :| Run(INIT, ls) == Some(s);
    RunSnoc(INIT, ls, l);
    t := Step(s, l).value;
    assert Run(INIT, ls + [l]) == Some(t);
  }

  lemma {:induction false} RunSnoc(s: State, ls: seq<Label>, l: Label)
    requires Run(s, ls).Some?
    ensures Run(s, ls + [l]) == Step(Run(s, ls).value, l)
    decreases |ls|
  {
    if ls == [] {
      assert [] + [l] == [l];
    } else {
      assert (ls + [l])[0] == ls[0] && (ls + [l])[1..] == ls[1..] + [l];
      RunSnoc(Step(s, ls[0]).value, ls[1..], l);
    }
  }

  /** The late read exists: any message that is not empty can be returned behind Close. */
  lemma LateReadHappens(msg: seq<byte>, room: nat)
    requires msg != [] && room > 0
    ensures exists s :: Reachable(s) && |s.reader.log| == 1 && s.reader.log[0].closedAtEnd
                        && s.reader.log[0].got == msg[..Min(|msg|, room)] && s.reader.log[0].got != []
  {
    assert Run(INIT, []) == Some(INIT);
    var s1 := Next(INIT, Read(Arrive(msg)));
    var s2 := Next(s1, Read(ReadStart(room)));
    var s3 := Next(s2, Read(Fetch));
    var s4 := Next(s3, Close(FrameSent, None));
    var s5 := Next(s4, Read(ReadFinish));
    assert Reachable(s5) && s5.reader.log[0].got == msg[..Min(|msg|, room)];
  }

  // ----- a read that nothing interferes with

  /** The stream a reader offers when ReadMessage will fail with `fail` behind the inbox. */
  function View(s: State, fail: Failure, normalClose: bool): Stream {
    var r := s.reader;
    if s.closer.closed then Stream([], ClosedPipe, ClosedPipe)
    else match r.err
      case Some(e) => Stream([], e, e)
      case None =>
        Stream((if r.buf == [] then [] else [r.buf]) + r.inbox, if normalClose then Eof else fail, fail)
  }

  function WholeRead(s: State, room: nat, fail: Failure, normalClose: bool): seq<Label> {
    var r := s.reader;
    if s.closer.closed || r.err.Some? || r.buf != [] then [Read(ReadStart(room))]
    else if r.inbox != [] then [Read(ReadStart(room)), Read(Fetch), Read(ReadFinish)]
    else [Read(ReadStart(room)), Read(FetchFails(fail, normalClose)), Read(ReadFinish)]
  }

  lemma RunThree(s: State, a: Label, b: Label, c: Label)
    requires Step(s, a).Some? && Step(Step(s, a).value, b).Some?
    ensures Run(s, [a, b, c]) == Step(Step(Step(s, a).value, b).value, c)
  {
    assert [a, b, c][1..] == [b, c] && [b, c][1..] == [c];
    var t := Step(Step(s, a).value, b).value;
    assert Run(t, [c]) == Step(t, c);
  }

  /** `t` comes out of `s` by one plain read of the pieces. */
  ghost predicate PlainRead(s: State, t: State, room: nat, fail: Failure, normalClose: bool) {
    var (got, err, after) := PieceRead(View(s, fail, normalClose), room);
    && |t.reader.log| == |s.reader.log| + 1
    && t.reader.log[|s.reader.log|].got == got && t.reader.log[|s.reader.log|].err == err
    && View(t, fail, normalClose) == after
  }

  lemma OneSection(s: State, room: nat, fail: Failure, normalClose: bool)
    requires s.reader.pc.NoRead? && (s.closer.closed || s.reader.err.Some? || s.reader.buf != [])
    ensures PlainRead(s, Step(s, Read(ReadStart(room))).value, room, fail, normalClose)
  {
    var r := s.reader;
    assert ([r.buf] + r.inbox)[1..] == r.inbox;
  }

  /** The state in which an undisturbed read begins its second critical section. */
  function AtFinish(s: State, room: nat, fail: Failure, normalClose: bool): State {
    var r := s.reader;
    if r.inbox == [] then s.(reader := r.(pc := Failed(room, fail, normalClose)))
    else s.(reader := r.(pc := Fetched(room, r.inbox[0]), inbox := r.inbox[1..]))
  }

  lemma TwoSections(s: State, room: nat, fail: Failure, normalClose: bool)
    requires s.reader.pc.NoRead? && !s.closer.closed && s.reader.err.None? && s.reader.buf == []
    ensures PlainRead(s, Step(AtFinish(s, room, fail, normalClose), Read(ReadFinish)).value, room, fail, normalClose)
  {
    var r := s.reader;
    assert [] + r.inbox == r.inbox;
    if r.inbox != [] {
      assert [] + r.inbox[1..] == r.inbox[1..];
    }
  }

  /** Without interference a Read is one plain read of the pieces, as the class in Transport has it. */
  lemma UndisturbedRead(s: State, room: nat, fail: Failure, normalClose: bool)
    requires s.reader.pc.NoRead?
    ensures var ls := WholeRead(s, room, fail, normalClose);
            Run(s, ls).Some? && PlainRead(s, Run(s, ls).value, room, fail, normalClose)
  {
    var ls, r := WholeRead(s, room, fail, normalClose), s.reader;
    if |ls| == 1 {
      assert Run(s, ls) == Step(s, ls[0]);
      OneSection(s, room, fail, normalClose);
    } else {
      RunThree(s, ls[0], ls[1], ls[2]);
      TwoSections(s, room, fail, normalClose);
    }
  }

  // ----- writes and Close in every run

  /**
   * The messages on the wire are those of the writes that returned nil, in order, and at most
   * one more whose write has not returned yet.
   */
  lemma WritesDelivered(s: State)
    requires Reachable(s)
    ensures s.writer.outbox == Accepted(s.writer.log) + Underway(s.writer.pc)
  {
    ReachableInv(s);
  }

  /** Behind the one write that was in flight when Close ran no write returns nil. */
  lemma OneLateWrite(s: State, j: nat, k: nat)
    requires Reachable(s) && j < k < |s.writer.log| && s.writer.log[j].closedAtEnd
    ensures s.writer.log[k].closedAtStart && s.writer.log[k].err == Some(ClosedPipe)
  {
    ReachableInv(s);
    assert WriteOrdered(s.writer.log[j], s.writer.log[k]);
  }

  /** Write errors stick. */
  lemma WriteErrorSticks(s: State, j: nat, k: nat)
    requires Reachable(s) && j < k < |s.writer.log| && s.writer.log[j].err.Some?
    ensures s.writer.log[k].err.Some?
  {
    ReachableInv(s);
    assert WriteOrdered(s.writer.log[j], s.writer.log[k]);
  }

  /**
   * The underlying connection is closed exactly if the close frame of the first Close went out
   * (or had gone out before). If it could not be written, no run ever closes the connection.
   */
  lemma UnderlyingClosedIff(s: State, ls: seq<Label>)
    requires Reachable(s) && s.closer.closed && Run(s, ls).Some?
    ensures var c := Run(s, ls).value.closer;
      && c.underCloses <= 1 && (c.underCloses == 1 <==> FrameOut(s.closer))
      && c.frame == s.closer.frame && c.cancelled
      && forall k :: 1 <= k < |c.results| ==> c.results[k] == None
  {
    ReachableInv(s);
    RunInv(s, ls);
    FrameStays(s, ls);
  }

  lemma {:induction false} FrameStays(s: State, ls: seq<Label>)
    requires s.closer.closed && Run(s, ls).Some?
    ensures Run(s, ls).value.closer.closed && Run(s, ls).value.closer.frame == s.closer.frame
    decreases |ls|
  {
    if ls != [] {
      FrameStays(Step(s, ls[0]).value, ls[1..]);
    }
  }

  // ----- answers and inputs, told by the actions of the run

  function Arrivals(ls: seq<Label>): seq<seq<byte>>
    decreases |ls|
  {
    if ls == [] then []
    else
      var n := |ls| - 1;
      Arrivals(ls[..n]) + (if ls[n].Read? && ls[n].ra.Arrive? then [ls[n].ra.msg] else [])
  }

  /** The sizes of the buffers given to Read, in order, and whether Close had run before. */
  function Rooms(ls: seq<Label>): seq<(nat, bool)>
    decreases |ls|
  {
    if ls == [] then []
    else
      var n := |ls| - 1;
      Rooms(ls[..n]) + (if ls[n].Read? && ls[n].ra.ReadStart? then [(ls[n].ra.room, Closes(ls[..n]) != [])] else [])
  }

  /** The bytes given to Write, in order, and whether Close had run before. */
  function Given(ls: seq<Label>): seq<(seq<byte>, bool)>
    decreases |ls|
  {
    if ls == [] then []
    else
      var n := |ls| - 1;
      Given(ls[..n]) + (if ls[n].Write? && ls[n].wa.WriteStart? then [(ls[n].wa.data, Closes(ls[..n]) != [])] else [])
  }

  /** The calls of Close: what became of each one's close frame and underlying Close, if it comes to that. */
  function Closes(ls: seq<Label>): seq<(CloseFrame, Option<Failure>)>
    decreases |ls|
  {
    if ls == [] then []
    else
      var n := |ls| - 1;
      Closes(ls[..n]) + (if ls[n].Close? then [(ls[n].frame, ls[n].under)] else [])
  }

  /** A failure of a Read is that of the closed adaptor, or of a ReadMessage that failed in this run. */
  ghost predicate ReadBlame(ls: seq<Label>, x: ReadRec) {
    match x.err
    case None => !x.closedAtStart
    case Some(e) =>
      if x.closedAtStart then e == ClosedPipe
      else Read(FetchFails(e, false)) in ls || exists f :: Read(FetchFails(f, true)) in ls && (e == Eof || e == f)
  }

  ghost predicate ReaderTold(ls: seq<Label>, r: Reader) {
    && r.all == Arrivals(ls)
    && |Rooms(ls)| == |r.log| + (if r.pc.NoRead? then 0 else 1)
    && (!r.pc.NoRead? ==> Rooms(ls)[|r.log|] == (r.pc.room, false))
    && (forall k :: 0 <= k < |r.log| ==>
          Rooms(ls)[k] == (r.log[k].room, r.log[k].closedAtStart) && ReadBlame(ls, r.log[k]))
    && (r.pc.Failed? ==> Read(FetchFails(r.pc.e, r.pc.normalClose)) in ls)
    && (r.err.Some? ==> Read(FetchFails(r.err.value, true)) in ls || Read(FetchFails(r.err.value, false)) in ls)
  }

  lemma BlameStays(ls: seq<Label>, l: Label, x: ReadRec)
    requires ReadBlame(ls, x)
    ensures ReadBlame(ls + [l], x)
  {
    if x.err.Some? && !x.closedAtStart && Read(FetchFails(x.err.value, false)) !in ls {
      var f :| Read(FetchFails(f, true)) in ls && (x.err.value == Eof || x.err.value == f);
      assert Read(FetchFails(f, true)) in ls + [l];
    }
  }

  lemma RoomsGrow(ls: seq<Label>, a: ReadAct)
    ensures var all := ls + [Read(a)];
      && Rooms(all) == Rooms(ls) + (if a.ReadStart? then [(a.room, Closes(ls) != [])] else [])
      && Arrivals(all) == Arrivals(ls) + (if a.Arrive? then [a.msg] else [])
      && forall x :: ReadBlame(ls, x) ==> ReadBlame(all, x)
  {
    assert (ls + [Read(a)])[..|ls|] == ls;
    forall x | ReadBlame(ls, x)
      ensures ReadBlame(ls + [Read(a)], x)
    {
      BlameStays(ls, Read(a), x);
    }
  }

  lemma StartReaderTold(ls: seq<Label>, r: Reader, closed: bool, room: nat)
    requires ReaderTold(ls, r) && (closed <==> Closes(ls) != []) && ReadStep(r, closed, ReadStart(room)).Some?
    ensures ReaderTold(ls + [Read(ReadStart(room))], ReadStep(r, closed, ReadStart(room)).value)
  {
    RoomsGrow(ls, ReadStart(room));
    assert forall x :: x in ls ==> x in ls + [Read(ReadStart(room))];
    if r.err.Some? && Read(FetchFails(r.err.value, true)) in ls {
      assert Read(FetchFails(r.err.value, true)) in ls + [Read(ReadStart(room))];
    }
  }

  lemma FinishReaderTold(ls: seq<Label>, r: Reader, closed: bool)
    requires ReaderTold(ls, r) && ReadStep(r, closed, ReadFinish).Some?
    ensures ReaderTold(ls + [Read(ReadFinish)], ReadStep(r, closed, ReadFinish).value)
  {
    RoomsGrow(ls, ReadFinish);
    assert forall x :: x in ls ==> x in ls + [Read(ReadFinish)];
    if r.pc.Failed? && r.pc.normalClose {
      assert Read(FetchFails(r.pc.e, true)) in ls + [Read(ReadFinish)];
    }
  }

  lemma StepReaderTold(ls: seq<Label>, r: Reader, closed: bool, a: ReadAct)
    requires ReaderTold(ls, r) && (closed <==> Closes(ls) != []) && ReadStep(r, closed, a).Some?
    ensures ReaderTold(ls + [Read(a)], ReadStep(r, closed, a).value)
  {
    match a
    case ReadStart(room) => StartReaderTold(ls, r, closed, room);
    case ReadFinish => FinishReaderTold(ls, r, closed);
    case _ =>
      RoomsGrow(ls, a);
      assert forall x :: x in ls + [Read(a)] <==> x in ls || x == Read(a);
  }

  ghost predicate WriteBlame(ls: seq<Label>, x: WriteRec) {
    match x.err
    case None => !x.closedAtStart
    case Some(e) => if x.closedAtStart then e == ClosedPipe else Write(SendFails(e)) in ls
  }

  ghost predicate WriterTold(ls: seq<Label>, w: Writer) {
    && |Given(ls)| == |w.log| + (if w.pc.NoWrite? then 0 else 1)
    && (!w.pc.NoWrite? ==> Given(ls)[|w.log|] == (w.pc.data, false))
    && (forall k :: 0 <= k < |w.log| ==>
          Given(ls)[k] == (w.log[k].data, w.log[k].closedAtStart) && WriteBlame(ls, w.log[k]))
    && (w.pc.NotSent? ==> Write(SendFails(w.pc.e)) in ls)
    && (w.err.Some? ==> Write(SendFails(w.err.value)) in ls)
  }

  /** One more action: what has been given, and the blame of what has returned, stays. */
  lemma GivenGrows(ls: seq<Label>, a: WriteAct)
    ensures var all := ls + [Write(a)];
      && Given(all) == Given(ls) + (if a.WriteStart? then [(a.data, Closes(ls) != [])] else [])
      && Closes(all) == Closes(ls)
      && forall x :: WriteBlame(ls, x) ==> WriteBlame(all, x)
  {
    assert (ls + [Write(a)])[..|ls|] == ls;
  }

  lemma StartWriterTold(ls: seq<Label>, w: Writer, closed: bool, data: seq<byte>)
    requires WriterTold(ls, w) && (closed <==> Closes(ls) != []) && WriteStep(w, closed, WriteStart(data)).Some?
    ensures WriterTold(ls + [Write(WriteStart(data))], WriteStep(w, closed, WriteStart(data)).value)
  {
    GivenGrows(ls, WriteStart(data));
    assert forall x :: x in ls ==> x in ls + [Write(WriteStart(data))];
  }

  lemma FinishWriterTold(ls: seq<Label>, w: Writer, closed: bool)
    requires WriterTold(ls, w) && WriteStep(w, closed, WriteFinish).Some?
    ensures WriterTold(ls + [Write(WriteFinish)], WriteStep(w, closed, WriteFinish).value)
  {
    GivenGrows(ls, WriteFinish);
    assert forall x :: x in ls ==> x in ls + [Write(WriteFinish)];
  }

  lemma StepWriterTold(ls: seq<Label>, w: Writer, closed: bool, a: WriteAct)
    requires WriterTold(ls, w) && (closed <==> Closes(ls) != []) && WriteStep(w, closed, a).Some?
    ensures WriterTold(ls + [Write(a)], WriteStep(w, closed, a).value)
  {
    match a
    case WriteStart(data) => StartWriterTold(ls, w, closed, data);
    case WriteFinish => FinishWriterTold(ls, w, closed);
    case _ =>
      GivenGrows(ls, a);
      assert forall x :: x in ls + [Write(a)] <==> x in ls || x == Write(a);
  }

  /** What the first Close returns is the failure of its close frame, or that of the underlying Close. */
  ghost predicate CloserTold(ls: seq<Label>, c: Closer) {
    && (c.closed <==> Closes(ls) != []) && |c.results| == |Closes(ls)|
    && (c.closed ==>
          var (frame, under) := Closes(ls)[0];
          c.frame == Some(frame) && c.results[0] == if frame.FrameFailed? then Some(frame.e) else under)
  }

  ghost predicate Told(ls: seq<Label>, s: State) {
    ReaderTold(ls, s.reader) && WriterTold(ls, s.writer) && CloserTold(ls, s.closer)
  }

  /** An action of another part leaves what the run tells of this one. */
  lemma OtherTold(ls: seq<Label>, s: State, l: Label)
    ensures !l.Read? && ReaderTold(ls, s.reader) ==> ReaderTold(ls + [l], s.reader)
    ensures !l.Write? && WriterTold(ls, s.writer) ==> WriterTold(ls + [l], s.writer)
    ensures !l.Close? && CloserTold(ls, s.closer) ==> CloserTold(ls + [l], s.closer)
  {
    assert (ls + [l])[..|ls|] == ls;
    assert forall x :: x in ls + [l] <==> x in ls || x == l;
    if !l.Read? && ReaderTold(ls, s.reader) {
      forall k | 0 <= k < |s.reader.log|
        ensures ReadBlame(ls + [l], s.reader.log[k])
      {
        BlameStays(ls, l, s.reader.log[k]);
      }
    }
  }

  lemma StepTold(ls: seq<Label>, s: State, l: Label)
    requires Told(ls, s) && CloseInv(s.closer) && Step(s, l).Some?
    ensures Told(ls + [l], Step(s, l).value)
  {
    OtherTold(ls, s, l);
    match l
    case Read(a) => StepReaderTold(ls, s.reader, s.closer.closed, a);
    case Write(a) => StepWriterTold(ls, s.writer, s.closer.closed, a);
    case Close(_, _) => assert (ls + [l])[..|ls|] == ls;
  }

  lemma {:induction false} RunPrefix(s: State, ls: seq<Label>, n: nat)
    requires Run(s, ls).Some? && n <= |ls|
    ensures Run(s, ls[..n]).Some?
    decreases n
  {
    if n > 0 {
      assert ls[..n][1..] == ls[1..][..n - 1];
      RunPrefix(Step(s, ls[0]).value, ls[1..], n - 1);
    }
  }

  /**
   * In every run: the messages, buffers and data of the state are those that were given, in
   * order; a call fails with ErrClosedPipe exactly if it began behind a Close, and every other
   * failure of a Read or Write is that of a ReadMessage or WriteMessage of this run (a normal close reads as
   * io.EOF first); and the first Close returns what its own close frame and underlying Close give.
   */
  lemma {:induction false} RunTold(ls: seq<Label>)
    requires Run(INIT, ls).Some?
    ensures Told(ls, Run(INIT, ls).value)
    decreases |ls|
  {
    if ls != [] {
      var n := |ls| - 1;
      assert ls == ls[..n] + [ls[n]];
      RunPrefix(INIT, ls, n);
      RunSnoc(INIT, ls[..n], ls[n]);
      RunTold(ls[..n]);
      RunInv(INIT, ls[..n]);
      StepTold(ls[..n], Run(INIT, ls[..n]).value, ls[n]);
    }
  }
}
