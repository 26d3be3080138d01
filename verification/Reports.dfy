// The errors of a connection, told by the actions of the run itself: what the read loop fails
// with, what merr is given, and what ConnErr gets.
module Reports {
  import opened Bytes
  import opened Errors
  import opened Codec
  import opened Endpoint
  import opened SendSafety
  import opened ReadSafety
  import opened Shutdown
  import opened Connection
  import opened Ending
  import opened Answers

  // ----- the error of a Read

  /** The read loop's error is what Unmarshal makes of the error `end` of the transport, or ErrDataLength. */
  ghost predicate ReadTold(max: uint32, ls: seq<Label>, r: In) {
    r.failure.Some? && r.failure.value != DataLength ==>
      exists e :: ReadFailsWith(max, ls, r, e)
  }

  ghost predicate ReadFailsWith(max: uint32, ls: seq<Label>, r: In, e: Failure) {
    && Read(ReadErr(e)) in ls && r.taken <= |r.received| && r.failure.Some?
    && DecodeAll(r.received[..r.taken], e, max).err == r.failure.value
  }

  lemma ReadErrTold(max: uint32, s: State, e: Failure)
    requires ReadInv(max, s.inp) && ReadStep(max, s, ReadErr(e)).Some?
    ensures var r := ReadStep(max, s, ReadErr(e)).value.inp;
      && r.taken <= |r.received| && r.failure.Some?
      && DecodeAll(r.received[..r.taken], e, max).err == r.failure.value
  {
    var r := s.inp;
    var rest :| Leftover(max, r, rest);
    if r.pc.InBody? {
      BodyPartial(r.pc.id, r.pc.size, r.pc.got, max);
      PartialSize(r.pc.id, r.pc.size, r.pc.got);
    }
    DecodeAllFrames(r.delivered, rest, e, max);
  }

  lemma PartialSize(id: uint32, size: uint32, got: seq<byte>)
    ensures var p := Partial(InBody(id, size, got)); |p| == HEADER + |got| && GetUint32(p[4..8]) == size
  {
    assert Partial(InBody(id, size, got))[4..8] == PutUint32(size);
    GetPut(size);
  }

  /** Once the reading has failed, its error and the bytes read do not change any more. */
  lemma FailureStays(max: uint32, s: State, l: Label)
    requires ReadInv(max, s.inp) && UnbornRead(s) && Step(max, s, l).Some? && s.inp.failure.Some?
    ensures var r := Step(max, s, l).value.inp;
      && r.failure == s.inp.failure && r.taken == s.inp.taken && s.inp.received <= r.received
  {
    var rest :| Leftover(max, s.inp, rest);
  }

  /** A failure is new only if the header is too large or the transport has failed. */
  lemma NewFailure(max: uint32, s: State, l: Label)
    requires Step(max, s, l).Some? && s.inp.failure.None?
    ensures var r := Step(max, s, l).value.inp;
            r.failure.Some? && r.failure.value != DataLength ==> l.Read? && l.ra.ReadErr?
  {
  }

  lemma StepReadTold(max: uint32, ls: seq<Label>, s: State, l: Label)
    requires ReadInv(max, s.inp) && UnbornRead(s) && ReadTold(max, ls, s.inp) && Step(max, s, l).Some?
    ensures ReadTold(max, ls + [l], Step(max, s, l).value.inp)
  {
    var r := Step(max, s, l).value.inp;
    if r.failure.Some? && r.failure.value != DataLength {
      if s.inp.failure.Some? {
        FailureStays(max, s, l);
        var e :| ReadFailsWith(max, ls, s.inp, e);
        assert r.received[..r.taken] == s.inp.received[..s.inp.taken];
        assert ReadFailsWith(max, ls + [l], r, e);
      } else {
        NewFailure(max, s, l);
        ReadErrTold(max, s, l.ra.e);
        assert ReadFailsWith(max, ls + [l], r, l.ra.e);
      }
    }
  }

  // ----- what merr is given

  /** The report of the send loop, if its last message has failed and it is past merr. */
  function SendReport(s: State): Option<Failure> {
    var w := |s.out.written|;
    if !PastMerr(s.out.pc) || |s.chan.processed| <= w then None
    else
      var c := s.chan.processed[w].c;
      if c < |s.calls| && s.calls[c].body.err.Err? then Some(s.calls[c].body.err.e) else None
  }

  /** The report of the read loop, if its Unmarshal has failed and it is past merr. */
  function ReadReport(s: State): Option<Failure> {
    if s.inp.pc.ReadFailed? then None else s.inp.failure
  }

  function StopReport(s: State): Option<Failure> {
    if Effects(s.life.stop) >= 1 then Some(IsClose) else None
  }

  function One(o: Option<Failure>): multiset<Failure> {
    match o case None => multiset{} case Some(e) => multiset{e}
  }

  /** Each of the three has called merr once, with its own error, or has had none. */
  ghost predicate ReportsExact(s: State) {
    multiset(s.errs.reports) == One(StopReport(s)) + One(ReadReport(s)) + One(SendReport(s))
  }

  lemma SendReportStep(max: uint32, s: State, l: Label)
    requires SendInv(max, s) && ReportInv(s) && Step(max, s, l).Some?
    ensures var t := Step(max, s, l).value;
      if l == Send(Record) then s.out.pc.Recording? && SendReport(s) == None && SendReport(t) == Some(s.out.pc.e)
      else SendReport(t) == SendReport(s)
  {
    if l == Send(Record) {
      var c: nat :| FailedCall(s, s.out.pc.e, c);
    } else if AfterLastAck(s.out.pc) {
      FailedFrame(max, s, l);
      SendReportStays(max, s, l);
    } else {
      NoReportYet(max, s, l);
    }
  }

  /** The program counters of the send loop behind merr. */
  predicate PastMerr(pc: SendPc) {
    pc.SendStopping? || pc.SendEnding? || pc.SendGone?
  }

  /** Behind merr, and on the way to it, the last message and its body are final. */
  lemma SendReportStays(max: uint32, s: State, l: Label)
    requires SendInv(max, s) && AfterLastAck(s.out.pc) && Step(max, s, l).Some? && l != Send(Record)
    ensures SendReport(Step(max, s, l).value) == SendReport(s)
  {
    var t := Step(max, s, l).value;
    FailedFrame(max, s, l);
    PastFrame(max, s, l);
    if |s.chan.processed| > |s.out.written| {
      var k := |s.out.written|;
      assert s.chan.enqueued[k] == s.chan.processed[k];
      assert Queued(s.calls, s.chan.enqueued[k]);
    }
  }

  lemma PastFrame(max: uint32, s: State, l: Label)
    requires UnbornInv(s) && AfterLastAck(s.out.pc) && Step(max, s, l).Some? && l != Send(Record)
    ensures PastMerr(Step(max, s, l).value.out.pc) == PastMerr(s.out.pc)
  {
  }

  /** The loop leaves without a report when it quits at its select or Marshal panics. */
  lemma NoReportYet(max: uint32, s: State, l: Label)
    requires SendInv(max, s) && !AfterLastAck(s.out.pc) && Step(max, s, l).Some?
    ensures SendReport(s) == None && SendReport(Step(max, s, l).value) == None
  {
    var t := Step(max, s, l).value;
    LeavesSilently(max, s, l);
    if PastMerr(t.out.pc) && s.out.pc.Marshalling? {
      var m := s.out.pc.m;
      assert s.chan.processed[|s.out.written|] == m;
    }
  }

  lemma LeavesSilently(max: uint32, s: State, l: Label)
    requires UnbornInv(s) && !AfterLastAck(s.out.pc) && Step(max, s, l).Some?
    ensures var t := Step(max, s, l).value;
      PastMerr(t.out.pc) ==>
        && t.chan.processed == s.chan.processed && t.out.written == s.out.written && t.calls == s.calls
        && (s.out.pc.Selecting? || s.out.pc.Marshalling?)
  {
  }

  lemma ReadReportStep(max: uint32, s: State, l: Label)
    requires ReadInv(max, s.inp) && UnbornRead(s) && Step(max, s, l).Some?
    ensures var t := Step(max, s, l).value;
      if l == Read(RecordErr) then s.inp.pc.ReadFailed? && ReadReport(s) == None && ReadReport(t) == Some(s.inp.pc.e)
      else ReadReport(t) == ReadReport(s)
  {
    var rest :| Leftover(max, s.inp, rest);
    if l != Read(RecordErr) {
      OtherReport(max, s, l);
    }
  }

  lemma OtherReport(max: uint32, s: State, l: Label)
    requires Step(max, s, l).Some? && UnbornRead(s) && l != Read(RecordErr)
    requires s.inp.failure.Some? ==>
      !s.inp.pc.InHeader? && !s.inp.pc.InBody? && !s.inp.pc.Handling? && !s.inp.pc.ReadUnborn?
    requires s.inp.pc.ReadFailed? ==> s.inp.failure.Some?
    ensures ReadReport(Step(max, s, l).value) == ReadReport(s)
  {
  }

  /** Exactly three actions report, each the error it has in hand. */
  lemma ErrsStep(max: uint32, s: State, l: Label)
    requires Step(max, s, l).Some?
    ensures Step(max, s, l).value.errs.reports == s.errs.reports +
      (if l == Send(Record) && s.out.pc.Recording? then [s.out.pc.e]
       else if l == Read(RecordErr) && s.inp.pc.ReadFailed? then [s.inp.pc.e]
       else if l == StopEffect && s.life.stop.effects == 0 then [IsClose] else [])
  {
    assert s.errs.reports + [] == s.errs.reports;
  }

  lemma StopReportStep(max: uint32, s: State, l: Label)
    requires Step(max, s, l).Some? && EffectsBounded(s)
    ensures var t := Step(max, s, l).value;
      if l == StopEffect && s.life.stop.effects == 0
      then StopReport(s) == None && StopReport(t) == Some(IsClose)
      else StopReport(t) == StopReport(s)
  {
  }

  lemma StepReportsExact(max: uint32, s: State, l: Label)
    requires Inv(max, s) && ReportInv(s) && ReportsExact(s) && Step(max, s, l).Some?
    ensures ReportsExact(Step(max, s, l).value)
  {
    SendReportStep(max, s, l);
    ReadReportStep(max, s, l);
    StopReportStep(max, s, l);
    ErrsStep(max, s, l);
    var t := Step(max, s, l).value;
    AddReport(s.errs.reports, StopReport(s), ReadReport(s), SendReport(s), t.errs.reports,
              StopReport(t), ReadReport(t), SendReport(t));
  }

  /** One more report, and the one of the three that it comes from. */
  lemma AddReport(r: seq<Failure>, a: Option<Failure>, b: Option<Failure>, c: Option<Failure>,
                  r': seq<Failure>, a': Option<Failure>, b': Option<Failure>, c': Option<Failure>)
    requires multiset(r) == One(a) + One(b) + One(c)
    requires
      || (r' == r && a' == a && b' == b && c' == c)
      || (a'.Some? && r' == r + [a'.value] && a == None && b' == b && c' == c)
      || (b'.Some? && r' == r + [b'.value] && b == None && a' == a && c' == c)
      || (c'.Some? && r' == r + [c'.value] && c == None && a' == a && b' == b)
    ensures multiset(r') == One(a') + One(b') + One(c')
  {
  }

  // ----- why the loops leave

  /** The send loop has been told to quit, or its last message has failed. */
  ghost predicate SendLeft(s: State) {
    PastMerr(s.out.pc) ==> s.flags.connDone || s.flags.hDone || |s.chan.processed| > |s.out.written|
  }

  lemma StepSendLeft(max: uint32, s: State, l: Label)
    requires SendInv(max, s) && ReportInv(s) && SendLeft(s) && Step(max, s, l).Some?
    ensures SendLeft(Step(max, s, l).value)
  {
    var t := Step(max, s, l).value;
    EndsStay(max, s, l);
    if AfterLastAck(s.out.pc) {
      FailedFrame(max, s, l);
    } else {
      LeavesSilently(max, s, l);
    }
  }

  lemma EndsStay(max: uint32, s: State, l: Label)
    requires Step(max, s, l).Some?
    ensures var t := Step(max, s, l).value;
      && (s.flags.connDone ==> t.flags.connDone) && (s.flags.hDone ==> t.flags.hDone)
      && (l == Send(Quit) ==> s.flags.connDone || s.flags.hDone)
  {
  }

  /** The read loop's Unmarshal has failed, or a handler has panicked. */
  ghost predicate ReadLeft(ls: seq<Label>, r: In) {
    r.pc.ReadStopping? || r.pc.ReadEnding? || r.pc.ReadGone? ==> r.failure.Some? || Read(HandlerPanics) in ls
  }

  lemma StepReadLeft(max: uint32, ls: seq<Label>, s: State, l: Label)
    requires ReadInv(max, s.inp) && UnbornRead(s) && ReadLeft(ls, s.inp) && Step(max, s, l).Some?
    ensures ReadLeft(ls + [l], Step(max, s, l).value.inp)
  {
    var rest :| Leftover(max, s.inp, rest);
    if s.inp.failure.Some? {
      FailureStays(max, s, l);
    } else {
      NewReadLeft(max, s, l);
    }
  }

  lemma NewReadLeft(max: uint32, s: State, l: Label)
    requires Step(max, s, l).Some? && UnbornRead(s) && !s.inp.pc.ReadFailed?
    ensures var r, r' := s.inp, Step(max, s, l).value.inp;
      r'.pc.ReadStopping? || r'.pc.ReadEnding? || r'.pc.ReadGone? ==>
        l == Read(HandlerPanics) || r.pc.ReadStopping? || r.pc.ReadEnding? || r.pc.ReadGone?
  {
  }

  ghost predicate Told(max: uint32, ls: seq<Label>, s: State) {
    ReportInv(s) && ReportsExact(s) && ReadTold(max, ls, s.inp) && SendLeft(s) && ReadLeft(ls, s.inp)
  }

  lemma StepTold(max: uint32, ls: seq<Label>, s: State, l: Label)
    requires Inv(max, s) && Told(max, ls, s) && Step(max, s, l).Some?
    ensures Told(max, ls + [l], Step(max, s, l).value)
  {
    StepReport(max, s, l);
    StepReportsExact(max, s, l);
    StepReadTold(max, ls, s, l);
    StepSendLeft(max, s, l);
    StepReadLeft(max, ls, s, l);
  }

  lemma {:induction false} RunTold(max: uint32, ls: seq<Label>)
    requires Run(max, INIT, ls).Some?
    ensures Inv(max, Run(max, INIT, ls).value) && Told(max, ls, Run(max, INIT, ls).value)
    decreases |ls|
  {
    InitInv(max);
    if ls != [] {
      var n := |ls| - 1;
      RunLast(max, INIT, ls);
      RunTold(max, ls[..n]);
      assert ls == ls[..n] + [ls[n]];
      var s := Run(max, INIT, ls[..n]).value;
      StepInv(max, s, ls[n]);
      StepTold(max, ls[..n], s, ls[n]);
    }
  }

  /**
   * The loops run until they have a reason to leave: the send loop a context that has ended or
   * a message that failed, the read loop an Unmarshal that failed or a handler that panicked.
   */
  lemma LoopsLeaveForCause(max: uint32, ls: seq<Label>)
    requires Run(max, INIT, ls).Some?
    ensures var s := Run(max, INIT, ls).value;
      && (PastMerr(s.out.pc) ==> s.flags.connDone || s.flags.hDone || s.chan.processed != s.out.written)
      && (s.inp.pc.ReadStopping? || s.inp.pc.ReadEnding? || s.inp.pc.ReadGone? ==>
            s.inp.failure.Some? || Read(HandlerPanics) in ls)
  {
    RunTold(max, ls);
  }

  /**
   * The read loop fails with ErrDataLength exactly if the next header is too large (see
   * DeliveredExactly), and otherwise with what repeated Unmarshal calls return on the bytes
   * read if the transport's own error comes behind them.
   */
  lemma ReadErrorIsTransportError(max: uint32, ls: seq<Label>)
    requires Run(max, INIT, ls).Some?
    ensures var r := Run(max, INIT, ls).value.inp;
      r.failure.Some? && r.failure.value != DataLength ==>
        r.taken <= |r.received| &&
        exists e :: Read(ReadErr(e)) in ls && DecodeAll(r.received[..r.taken], e, max).err == r.failure.value
  {
    RunTold(max, ls);
    var r := Run(max, INIT, ls).value.inp;
    if r.failure.Some? && r.failure.value != DataLength {
      var e :| ReadFailsWith(max, ls, r, e);
    }
  }

  /**
   * merr has been given exactly this: ErrIsClose if stop has begun, the error of the read loop
   * if it failed and is past merr, and the error of the last message if that failed and the
   * send loop is past merr. None is lost, none is given twice, and the send loop's is that of
   * a Write that failed or of the length check.
   */
  lemma EveryErrorIsReported(max: uint32, ls: seq<Label>)
    requires Run(max, INIT, ls).Some?
    ensures var s := Run(max, INIT, ls).value;
      && ReportsExact(s)
      && (SendReport(s).Some? ==>
            exists c: nat, m ::
              s.chan.processed == s.out.written + [Item(c, m)] && BlamedOn(max, ls, c, m, SendReport(s).value))
  {
    RunTold(max, ls);
    Answers.RunTold(max, ls);
    var s := Run(max, INIT, ls).value;
    if SendReport(s).Some? {
      LastFailed(max, s);
      var m := s.chan.processed[|s.out.written|];
      assert BodyTold(max, ls, s.calls[m.c], m.c) && Verdict(max, s.calls[m.c]);
      assert BlamedOn(max, ls, m.c, m.msg, SendReport(s).value);
    }
  }

  /** Why message m of call c failed with e. */
  ghost predicate BlamedOn(max: uint32, ls: seq<Label>, c: nat, m: Message, e: Failure) {
    if e == DataLength then Refused(max, m) else WriteFailed(max, ls, c, m, e)
  }

  lemma LastFailed(max: uint32, s: State)
    requires SendInv(max, s) && SendReport(s).Some?
    ensures var w, p := |s.out.written|, s.chan.processed;
      && w < |p| && p == s.out.written + [p[w]]
      && p[w].c < |s.calls| && s.calls[p[w].c].msg == p[w].msg
      && s.calls[p[w].c].body.writes == 1 && s.calls[p[w].c].body.err == Err(SendReport(s).value)
  {
    var w := |s.out.written|;
    assert s.chan.enqueued[w] == s.chan.processed[w];
    assert Queued(s.calls, s.chan.enqueued[w]);
    assert CallOk(s, s.chan.processed[w].c);
  }

  // ----- what ConnErr gets

  /** The k-th action of the run is the call of ConnErr, and `w` is what it was given. */
  ghost predicate ReportsAt(max: uint32, ls: seq<Label>, k: nat, w: WaitPc) {
    && k < |ls| && ls[k] == Task(Report)
    && exists u :: At(max, ls, k, u) && u.life.wait.WaitOver?
                   && w == Reported(u.life.wait.token, u.errs.first, u.flags.closed)
  }

  ghost predicate WaitTold(max: uint32, ls: seq<Label>, s: State) {
    match s.life.wait
    case Reported(token, _, _) =>
      (exists k :: 0 <= k < |ls| && ReportsAt(max, ls, k, s.life.wait)) && (token <==> Task(TakeToken) in ls)
    case WaitOver(token) => token <==> Task(TakeToken) in ls
    case _ => Task(TakeToken) !in ls
  }

  lemma WaitFrame(max: uint32, s: State, l: Label)
    requires Step(max, s, l).Some?
    ensures var w, w' := s.life.wait, Step(max, s, l).value.life.wait;
      && (l == Task(TakeToken) ==> w.Waiting? && w' == WaitOver(true))
      && (l == Task(Report) ==> w.WaitOver? && w' == Reported(w.token, s.errs.first, s.flags.closed))
      && (l != Task(TakeToken) && l != Task(Report) ==>
            w' == w || (w.Watching? && (w'.Waiting? || w' == WaitOver(false))) || (w.Waiting? && w' == WaitOver(false)))
  {
  }

  lemma StepWait(max: uint32, ls: seq<Label>, s: State, l: Label)
    requires Run(max, INIT, ls) == Some(s) && WaitTold(max, ls, s) && Step(max, s, l).Some?
    ensures WaitTold(max, ls + [l], Step(max, s, l).value)
  {
    var all, t := ls + [l], Step(max, s, l).value;
    WaitFrame(max, s, l);
    assert Task(TakeToken) in all <==> Task(TakeToken) in ls || l == Task(TakeToken);
    if l == Task(Report) {
      assert all[..|ls|] == ls;
      assert At(max, all, |ls|, s);
      assert ReportsAt(max, all, |ls|, t.life.wait);
    } else if s.life.wait.Reported? {
      var k :| 0 <= k < |ls| && ReportsAt(max, ls, k, s.life.wait);
      var u :| At(max, ls, k, u) && u.life.wait.WaitOver?
               && s.life.wait == Reported(u.life.wait.token, u.errs.first, u.flags.closed);
      assert all[..k] == ls[..k];
      assert At(max, all, k, u);
      assert ReportsAt(max, all, k, t.life.wait);
    }
  }

  lemma {:induction false} RunWait(max: uint32, ls: seq<Label>)
    requires Run(max, INIT, ls).Some?
    ensures WaitTold(max, ls, Run(max, INIT, ls).value)
    decreases |ls|
  {
    if ls != [] {
      var n := |ls| - 1;
      RunLast(max, INIT, ls);
      RunWait(max, ls[..n]);
      assert ls == ls[..n] + [ls[n]];
      StepWait(max, ls[..n], Run(max, INIT, ls[..n]).value, ls[n]);
    }
  }

  lemma RunSplit(max: uint32, ls: seq<Label>, k: nat)
    requires Run(max, INIT, ls).Some? && k <= |ls|
    ensures Run(max, INIT, ls[..k]).Some? && Run(max, Run(max, INIT, ls[..k]).value, ls[k..]) == Run(max, INIT, ls)
  {
    assert ls == ls[..k] + ls[k..];
    RunAppend(max, INIT, ls[..k], ls[k..]);
  }

  /**
   * ConnErr gets the first error that merr was ever given, or none exactly if merr had not been
   * called before; `closed` is the state of the transport at that moment, and `token` tells
   * whether StopAndWait had returned through doneCh.
   */
  lemma ConnErrGetsFirst(max: uint32, ls: seq<Label>)
    requires Run(max, INIT, ls).Some? && Run(max, INIT, ls).value.life.wait.Reported?
    ensures var s := Run(max, INIT, ls).value;
      && (s.life.wait.token <==> Task(TakeToken) in ls)
      && (s.life.wait.err.Some? ==>
            s.errs.reports != [] && s.life.wait.err == Some(s.errs.reports[0]) && Source(s, s.life.wait.err.value))
      && exists k, u :: 0 <= k < |ls| && ls[k] == Task(Report) && At(max, ls, k, u)
           && (s.life.wait.err.None? <==> u.errs.reports == []) && s.life.wait.closed == u.flags.closed
  {
    var s := Run(max, INIT, ls).value;
    RunWait(max, ls);
    var k :| 0 <= k < |ls| && ReportsAt(max, ls, k, s.life.wait);
    var u :| At(max, ls, k, u) && u.life.wait.WaitOver?
             && s.life.wait == Reported(u.life.wait.token, u.errs.first, u.flags.closed);
    RunSplit(max, ls, k);
    assert Reachable(max, u) && Reachable(max, s);
    ReachableInv(max, u);
    ErrorHasSource(max, s);
    FirstKept(max, u, ls[k..]);
    assert ls[k] == Task(Report) && At(max, ls, k, u);
  }

  /** The first report stays the first. */
  lemma {:induction false} FirstKept(max: uint32, s: State, ls: seq<Label>)
    requires Run(max, s, ls).Some?
    ensures s.errs.reports <= Run(max, s, ls).value.errs.reports
    decreases |ls|
  {
    if ls != [] {
      ErrsStep(max, s, ls[0]);
      FirstKept(max, Step(max, s, ls[0]).value, ls[1..]);
    }
  }
}
