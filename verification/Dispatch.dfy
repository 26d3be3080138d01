// handleMsg of client and server over any interleaving of calls, AddHandler, RemoveHandler and
// readers of the statistics.
module Dispatch {
  import opened Bytes
  import opened Counting
  import opened Errors
  import opened Stats

  /** One call of handleMsg for a message with this id and payload length. */
  datatype Pc =
    | Looking                 // before the handler lookup
    | Unknown                 // no handler; before IncUnknownMsg
    | Handling                // in handler.Handle
    | Creating(ok: bool)      // before getOrCreateStatistic
    | Adding(ok: bool)        // before the locked additions
    | Done

  datatype Call = Call(id: uint32, len: nat, pc: Pc)

  /** What a completed call was counted as. */
  datatype Event = UnknownId | Counted(id: uint32, len: nat, ok: bool)

  datatype ReaderPc =
    | Searching                       // before the lookup under the read lock of the table
    | Found                           // before the lock of the entry
    | Answered(e: Entry, at: nat)     // with the entry that it saw after `at` events

  /** One call of GetStatistic, begun after `start` events. */
  datatype Reader = Reader(id: uint32, start: nat, pc: ReaderPc)

  datatype State = State(calls: seq<Call>, handlers: set<uint32>, unknown: int, table: map<uint32, Entry>,
                         log: seq<Event>, readers: seq<Reader>)

  datatype Label =
    | NewCall(id: uint32, len: nat)
    | AddHandler(id: uint32) | RemoveHandler(id: uint32)
    | Find(c: nat) | CountUnknown(c: nat) | Handle(c: nat, ok: bool) | Create(c: nat) | Add(c: nat)
    | NewReader(id: uint32) | FindEntry(r: nat) | LockedRead(r: nat)

  function Init(handlers: set<uint32>): State {
    State([], handlers, 0, map[], [], [])
  }

  function Move(s: State, c: nat, pc: Pc): State
    requires c < |s.calls|
  {
    s.(calls := s.calls[c := s.calls[c].(pc := pc)])
  }

  function CallStep(s: State, c: nat, l: Label): Option<State> {
    if c >= |s.calls| then None
    else
      var m := s.calls[c];
      match l
      case Find(_) =>
        if m.pc.Looking? then Some(Move(s, c, if m.id in s.handlers then Handling else Unknown)) else None
      case CountUnknown(_) =>
        if m.pc.Unknown?
        then Some(Move(s, c, Done).(unknown := ToInt64(s.unknown + 1), log := s.log + [UnknownId])) else None
      case Handle(_, ok) => if m.pc.Handling? then Some(Move(s, c, Creating(ok))) else None
      case Create(_) =>
        if m.pc.Creating?
        then Some(Move(s, c, Adding(m.pc.ok)).(table := s.table[m.id := Lookup(s.table, m.id)])) else None
      case Add(_) =>
        if m.pc.Adding?
        then Some(Move(s, c, Done).(table := s.table[m.id := AddTo(Lookup(s.table, m.id), m.len, m.pc.ok)],
                                    log := s.log + [Counted(m.id, m.len, m.pc.ok)]))
        else None
      case _ => None
  }

  /** The two critical sections of GetStatistic. */
  function ReaderStep(s: State, r: nat, l: Label): Option<State> {
    if r >= |s.readers| then None
    else
      var x := s.readers[r];
      var answer := Answered(Lookup(s.table, x.id), |s.log|);
      match l
      case FindEntry(_) =>
        if x.pc.Searching?
        then Some(s.(readers := s.readers[r := x.(pc := if x.id in s.table then Found else answer)])) else None
      case LockedRead(_) =>
        if x.pc.Found? then Some(s.(readers := s.readers[r := x.(pc := answer)])) else None
      case _ => None
  }

  function Step(s: State, l: Label): Option<State> {
    match l
    case NewReader(id) => Some(s.(readers := s.readers + [Reader(id, |s.log|, Searching)]))
    case FindEntry(r) => ReaderStep(s, r, l)
    case LockedRead(r) => ReaderStep(s, r, l)
    case NewCall(id, len) => Some(s.(calls := s.calls + [Call(id, len, Looking)]))
    case AddHandler(id) => Some(s.(handlers := s.handlers + {id}))
    case RemoveHandler(id) => Some(s.(handlers := s.handlers - {id}))
    case _ => CallStep(s, l.c, l)
  }

  function Run(s: State, ls: seq<Label>): Option<State>
    decreases |ls|
  {
    if ls == [] then Some(s)
    else match Step(s, ls[0])
      case None => None
      case Some(t) => Run(t, ls[1..])
  }

  // ----- what the counters mean

  function Unknowns(log: seq<Event>): nat {
    if log == [] then 0 else Unknowns(log[..|log| - 1]) + (if log[|log| - 1].UnknownId? then 1 else 0)
  }

  predicate Matches(e: Event, id: uint32, ok: bool) {
    e.Counted? && e.id == id && e.ok == ok
  }

  function Packets(log: seq<Event>, id: uint32, ok: bool): nat {
    if log == [] then 0
    else Packets(log[..|log| - 1], id, ok) + (if Matches(log[|log| - 1], id, ok) then 1 else 0)
  }

  function PayloadBytes(log: seq<Event>, id: uint32, ok: bool): nat {
    if log == [] then 0
    else
      PayloadBytes(log[..|log| - 1], id, ok) + (if Matches(log[|log| - 1], id, ok) then log[|log| - 1].len else 0)
  }

  ghost function Pick(ids: set<uint32>): (id: uint32)
    requires ids != {}
    ensures id in ids
  {
    var id :| id in ids;
    id
  }

  /** The packets of all ids of the set. */
  ghost function AllPackets(ids: set<uint32>, log: seq<Event>): nat
    decreases |ids|
  {
    if ids == {} then 0
    else
      var id := Pick(ids);
      Packets(log, id, true) + Packets(log, id, false) + AllPackets(ids - {id}, log)
  }

  /** The entry that counts the events of the log with this id. */
  function Total(log: seq<Event>, id: uint32): Entry {
    Entry(ToInt64(Packets(log, id, true)), ToUint64(PayloadBytes(log, id, true)),
          ToInt64(Packets(log, id, false)), ToUint64(PayloadBytes(log, id, false)))
  }

  function FinishedOne(c: Call): nat {
    if c.pc.Done? then 1 else 0
  }

  function Finished(calls: seq<Call>): nat {
    Sum(FinishedOne, calls)
  }

  ghost predicate Inv(s: State) {
    && s.unknown == ToInt64(Unknowns(s.log))
    && (forall id: uint32 :: Lookup(s.table, id) == Total(s.log, id))
    && (forall e | e in s.log :: e.Counted? ==> e.id in s.table)
    && (forall c :: 0 <= c < |s.calls| && s.calls[c].pc.Adding? ==> s.calls[c].id in s.table)
    && |s.log| == Finished(s.calls)
  }

  lemma WrapInt64(n: int)
    ensures ToInt64(ToInt64(n) + 1) == ToInt64(n + 1)
  {
  }

  lemma WrapUint64(n: int, d: int)
    ensures ToUint64(ToUint64(n) + d) == ToUint64(n + d)
  {
    var q, r := n / TWO_64, n % TWO_64;
    assert n == q * TWO_64 + r;
    var q', r' := (r + d) / TWO_64, (r + d) % TWO_64;
    assert n + d == (q + q') * TWO_64 + r';
  }

  lemma TotalSnoc(log: seq<Event>, e: Event, id: uint32)
    ensures Total(log + [e], id) ==
            if e.Counted? && e.id == id then AddTo(Total(log, id), e.len, e.ok) else Total(log, id)
  {
    assert (log + [e])[..|log|] == log;
    if e.Counted? && e.id == id {
      WrapInt64(Packets(log, id, e.ok));
      WrapUint64(PayloadBytes(log, id, e.ok), e.len);
    }
  }

  /** A call that ends adds its event to the log and to the one counter of that event. */
  lemma EndInv(s: State, c: nat, l: Label)
    requires Inv(s) && CallStep(s, c, l).Some? && (l.CountUnknown? || l.Add?)
    ensures Inv(CallStep(s, c, l).value)
  {
    var t := CallStep(s, c, l).value;
    var e := t.log[|s.log|];
    SumUpdate(FinishedOne, s.calls, c, t.calls[c]);
    assert t.log == s.log + [e] && t.log[..|s.log|] == s.log;
    forall id: uint32
      ensures Lookup(t.table, id) == Total(t.log, id)
    {
      TotalSnoc(s.log, e, id);
    }
    WrapInt64(Unknowns(s.log));
  }

  lemma CallStepInv(s: State, c: nat, l: Label)
    requires Inv(s) && CallStep(s, c, l).Some?
    ensures Inv(CallStep(s, c, l).value)
  {
    if l.CountUnknown? || l.Add? {
      EndInv(s, c, l);
    } else {
      SumUpdate(FinishedOne, s.calls, c, CallStep(s, c, l).value.calls[c]);
    }
  }

  lemma StepInv(s: State, l: Label)
    requires Inv(s) && Step(s, l).Some?
    ensures Inv(Step(s, l).value)
  {
    match l
    case NewCall(id, len) => SumSnoc(FinishedOne, s.calls, Call(id, len, Looking));
    case Find(c) => CallStepInv(s, c, l);
    case CountUnknown(c) => CallStepInv(s, c, l);
    case Handle(c, _) => CallStepInv(s, c, l);
    case Create(c) => CallStepInv(s, c, l);
    case Add(c) => CallStepInv(s, c, l);
    case _ =>
  }

  lemma {:induction false} RunInv(s: State, ls: seq<Label>)
    requires Inv(s) && Run(s, ls).Some?
    ensures Inv(Run(s, ls).value)
    decreases |ls|
  {
    if ls != [] {
      StepInv(s, ls[0]);
      RunInv(Step(s, ls[0]).value, ls[1..]);
    }
  }

  lemma {:induction false} AllPacketsSnoc(ids: set<uint32>, log: seq<Event>, e: Event)
    ensures AllPackets(ids, log + [e]) == AllPackets(ids, log) + (if e.Counted? && e.id in ids then 1 else 0)
    decreases |ids|
  {
    assert (log + [e])[..|log|] == log;
    if ids != {} {
      AllPacketsSnoc(ids - {Pick(ids)}, log, e);
    }
  }

  lemma {:induction false} AllPacketsEmpty(ids: set<uint32>)
    ensures AllPackets(ids, []) == 0
    decreases |ids|
  {
    if ids != {} {
      AllPacketsEmpty(ids - {Pick(ids)});
    }
  }

  /** Every event is counted once: as unknown, or under its own id. */
  lemma {:induction false} Conserved(ids: set<uint32>, log: seq<Event>)
    requires forall e | e in log :: e.Counted? ==> e.id in ids
    ensures Unknowns(log) + AllPackets(ids, log) == |log|
    decreases |log|
  {
    if log == [] {
      AllPacketsEmpty(ids);
    } else {
      var front, e := log[..|log| - 1], log[|log| - 1];
      assert log == front + [e];
      Conserved(ids, front);
      AllPacketsSnoc(ids, front, e);
    }
  }

  /**
   * Conservation, for every interleaving and every change of the handlers: each completed call
   * is counted exactly once, the unknown counter and the entries of the table hold those counts
   * modulo 2^64, and the byte totals are the sums of the recorded payload lengths.
   */
  lemma CallsConserved(handlers: set<uint32>, ls: seq<Label>)
    requires Run(Init(handlers), ls).Some?
    ensures var s := Run(Init(handlers), ls).value;
            && Unknowns(s.log) + AllPackets(s.table.Keys, s.log) == Finished(s.calls) == |CountedCalls(ls)|
            && s.unknown == ToInt64(Unknowns(s.log))
            && forall id: uint32 :: Lookup(s.table, id) == Total(s.log, id)
  {
    RunInv(Init(handlers), ls);
    RunTold(handlers, ls);
    var s := Run(Init(handlers), ls).value;
    Conserved(s.table.Keys, s.log);
  }

  // ----- what a reader of the statistics sees

  /** An answer is the total of the events up to one moment of the reader's call. */
  ghost predicate ReaderOk(log: seq<Event>, x: Reader) {
    && x.start <= |log|
    && (x.pc.Answered? ==> x.start <= x.pc.at <= |log| && x.pc.e == Total(log[..x.pc.at], x.id))
  }

  ghost predicate ReadersInv(s: State) {
    forall r :: 0 <= r < |s.readers| ==> ReaderOk(s.log, s.readers[r])
  }

  /** A longer log does not change what a reader has seen. */
  lemma LogGrows(log: seq<Event>, log': seq<Event>, x: Reader)
    requires ReaderOk(log, x) && log <= log'
    ensures ReaderOk(log', x)
  {
    if x.pc.Answered? {
      assert log'[..x.pc.at] == log[..x.pc.at];
    }
  }

  lemma OthersStep(s: State, l: Label)
    requires Step(s, l).Some? && !l.NewReader? && !l.FindEntry? && !l.LockedRead?
    ensures var t := Step(s, l).value; t.readers == s.readers && s.log <= t.log
  {
  }

  lemma StepReaders(s: State, l: Label)
    requires Inv(s) && ReadersInv(s) && Step(s, l).Some?
    ensures ReadersInv(Step(s, l).value)
  {
    var t := Step(s, l).value;
    assert s.log[..|s.log|] == s.log;
    if l.NewReader? || l.FindEntry? || l.LockedRead? {
      forall r | 0 <= r < |t.readers|
        ensures ReaderOk(t.log, t.readers[r])
      {
        if r < |s.readers| {
          assert ReaderOk(s.log, s.readers[r]);
        }
      }
    } else {
      OthersStep(s, l);
      forall r | 0 <= r < |t.readers|
        ensures ReaderOk(t.log, t.readers[r])
      {
        LogGrows(s.log, t.log, s.readers[r]);
      }
    }
  }

  lemma {:induction false} RunReaders(s: State, ls: seq<Label>)
    requires Inv(s) && ReadersInv(s) && Run(s, ls).Some?
    ensures ReadersInv(Run(s, ls).value)
    decreases |ls|
  {
    if ls != [] {
      StepInv(s, ls[0]);
      StepReaders(s, ls[0]);
      RunReaders(Step(s, ls[0]).value, ls[1..]);
    }
  }

  // ----- what a message is counted as, told by the labels alone

  /** The handlers that the initial map and the AddHandler and RemoveHandler calls leave registered. */
  function Registered(handlers: set<uint32>, ls: seq<Label>): set<uint32>
    decreases |ls|
  {
    if ls == [] then handlers
    else
      var n := |ls| - 1;
      match ls[n]
      case AddHandler(id) => Registered(handlers, ls[..n]) + {id}
      case RemoveHandler(id) => Registered(handlers, ls[..n]) - {id}
      case _ => Registered(handlers, ls[..n])
  }

  /** The messages that have come in, as (id, length). */
  function Messages(ls: seq<Label>): seq<(uint32, nat)>
    decreases |ls|
  {
    if ls == [] then []
    else
      var n := |ls| - 1;
      Messages(ls[..n]) + (if ls[n].NewCall? then [(ls[n].id, ls[n].len)] else [])
  }

  predicate Of(l: Label, c: nat) {
    (l.Find? || l.CountUnknown? || l.Handle? || l.Create? || l.Add?) && l.c == c
  }

  /** The actions of call `c`, in order. */
  function Trail(ls: seq<Label>, c: nat): seq<Label>
    decreases |ls|
  {
    if ls == [] then []
    else
      var n := |ls| - 1;
      Trail(ls[..n], c) + (if Of(ls[n], c) then [ls[n]] else [])
  }

  /** The handlers registered when call `c` looked its handler up. */
  function AtLookup(handlers: set<uint32>, ls: seq<Label>, c: nat): set<uint32>
    decreases |ls|
  {
    if ls == [] then {}
    else
      var n := |ls| - 1;
      if ls[n] == Find(c) then Registered(handlers, ls[..n]) else AtLookup(handlers, ls[..n], c)
  }

  /** The calls that have been counted, in that order. */
  function CountedCalls(ls: seq<Label>): seq<nat>
    decreases |ls|
  {
    if ls == [] then []
    else
      var n := |ls| - 1;
      CountedCalls(ls[..n]) + (if ls[n].CountUnknown? || ls[n].Add? then [ls[n].c] else [])
  }

  /** Where call `c` is, seen from its own actions and from the handlers at its lookup. */
  ghost predicate Tells(m: Call, known: bool, trail: seq<Label>, c: nat) {
    match m.pc
    case Looking => trail == []
    case Unknown => !known && trail == [Find(c)]
    case Handling => known && trail == [Find(c)]
    case Creating(ok) => known && trail == [Find(c), Handle(c, ok)]
    case Adding(ok) => known && trail == [Find(c), Handle(c, ok), Create(c)]
    case Done =>
      if known then exists ok :: trail == [Find(c), Handle(c, ok), Create(c), Add(c)]
      else trail == [Find(c), CountUnknown(c)]
  }

  /** The event that a completed call must have been counted as. */
  ghost predicate EventOf(e: Event, m: Call, known: bool, trail: seq<Label>, c: nat) {
    && m.pc.Done?
    && if known then exists ok :: trail == [Find(c), Handle(c, ok), Create(c), Add(c)] && e == Counted(m.id, m.len, ok)
       else trail == [Find(c), CountUnknown(c)] && e == UnknownId
  }

  ghost predicate Known(handlers: set<uint32>, ls: seq<Label>, m: Call, c: nat) {
    m.id in AtLookup(handlers, ls, c)
  }

  ghost predicate CallTold(handlers: set<uint32>, ls: seq<Label>, s: State, c: nat)
    requires c < |s.calls|
  {
    && c < |Messages(ls)| && Messages(ls)[c] == (s.calls[c].id, s.calls[c].len)
    && Tells(s.calls[c], Known(handlers, ls, s.calls[c], c), Trail(ls, c), c)
  }

  ghost predicate Told(handlers: set<uint32>, ls: seq<Label>, s: State) {
    && s.handlers == Registered(handlers, ls) && |s.calls| == |Messages(ls)|
    && (forall c: nat :: c < |s.calls| ==> CallTold(handlers, ls, s, c))
    && (forall c: nat :: c >= |s.calls| ==> Trail(ls, c) == [])
  }

  ghost predicate LogTold(handlers: set<uint32>, ls: seq<Label>, s: State) {
    && |s.log| == |CountedCalls(ls)|
    && forall i :: 0 <= i < |s.log| ==>
         var c := CountedCalls(ls)[i];
         c < |s.calls| && EventOf(s.log[i], s.calls[c], Known(handlers, ls, s.calls[c], c), Trail(ls, c), c)
  }

  /** What one action changes in its own call and leaves alone in the others. */
  lemma StepCalls(s: State, l: Label)
    requires Step(s, l).Some?
    ensures var t := Step(s, l).value;
      && (forall c: nat :: c < |s.calls| && !Of(l, c) ==> c < |t.calls| && t.calls[c] == s.calls[c])
      && (forall c: nat :: c < |s.calls| && Of(l, c) ==>
            c < |t.calls| && t.calls[c] == s.calls[c].(pc := t.calls[c].pc))
      && |t.calls| == |s.calls| + (if l.NewCall? then 1 else 0)
      && (l.NewCall? ==> t.calls[|s.calls|] == Call(l.id, l.len, Looking))
      && (forall c: nat :: Of(l, c) ==> c < |s.calls|)
  {
  }

  lemma StepTellsCall(handlers: set<uint32>, ls: seq<Label>, s: State, l: Label, c: nat)
    requires Told(handlers, ls, s) && Step(s, l).Some? && c < |s.calls|
    ensures c < |Step(s, l).value.calls| && CallTold(handlers, ls + [l], Step(s, l).value, c)
  {
    assert (ls + [l])[..|ls|] == ls;
    StepCalls(s, l);
    assert CallTold(handlers, ls, s, c);
  }

  lemma StepTells(handlers: set<uint32>, ls: seq<Label>, s: State, l: Label)
    requires Told(handlers, ls, s) && Step(s, l).Some?
    ensures Told(handlers, ls + [l], Step(s, l).value)
  {
    var t := Step(s, l).value;
    assert (ls + [l])[..|ls|] == ls;
    StepCalls(s, l);
    forall c: nat | c < |t.calls|
      ensures CallTold(handlers, ls + [l], t, c)
    {
      if c < |s.calls| {
        StepTellsCall(handlers, ls, s, l, c);
      }
    }
  }

  /** What an action adds to the log is the event of its own call, now completed. */
  lemma StepEvent(handlers: set<uint32>, ls: seq<Label>, s: State, l: Label)
    requires Told(handlers, ls, s) && Step(s, l).Some? && (l.CountUnknown? || l.Add?)
    ensures var t := Step(s, l).value;
      && l.c < |t.calls| && |t.log| == |s.log| + 1 && t.log[..|s.log|] == s.log
      && EventOf(t.log[|s.log|], t.calls[l.c], Known(handlers, ls + [l], t.calls[l.c], l.c), Trail(ls + [l], l.c), l.c)
  {
    var t := Step(s, l).value;
    StepTellsCall(handlers, ls, s, l, l.c);
    assert CallTold(handlers, ls, s, l.c);
    assert Trail(ls + [l], l.c) == Trail(ls, l.c) + [l] by {
      assert (ls + [l])[..|ls|] == ls;
    }
  }

  lemma EventStays(handlers: set<uint32>, ls: seq<Label>, s: State, l: Label, c: nat)
    requires Step(s, l).Some? && c < |s.calls| && s.calls[c].pc.Done?
    ensures c < |Step(s, l).value.calls| && Step(s, l).value.calls[c] == s.calls[c]
    ensures Trail(ls + [l], c) == Trail(ls, c) && AtLookup(handlers, ls + [l], c) == AtLookup(handlers, ls, c)
  {
    assert (ls + [l])[..|ls|] == ls;
  }

  lemma StepLogTold(handlers: set<uint32>, ls: seq<Label>, s: State, l: Label)
    requires Told(handlers, ls, s) && LogTold(handlers, ls, s) && Step(s, l).Some?
    ensures LogTold(handlers, ls + [l], Step(s, l).value)
  {
    var t := Step(s, l).value;
    assert (ls + [l])[..|ls|] == ls;
    if l.CountUnknown? || l.Add? {
      StepEvent(handlers, ls, s, l);
    }
    forall i | 0 <= i < |s.log|
      ensures t.log[i] == s.log[i]
      ensures var c := CountedCalls(ls)[i];
        && c < |t.calls|
        && EventOf(t.log[i], t.calls[c], Known(handlers, ls + [l], t.calls[c], c), Trail(ls + [l], c), c)
    {
      EventStays(handlers, ls, s, l, CountedCalls(ls)[i]);
    }
  }

  lemma {:induction false} RunLast(s: State, ls: seq<Label>)
    requires ls != [] && Run(s, ls).Some?
    ensures var n := |ls| - 1; Run(s, ls[..n]).Some? && Run(s, ls) == Step(Run(s, ls[..n]).value, ls[n])
    decreases |ls|
  {
    if |ls| > 1 {
      RunLast(Step(s, ls[0]).value, ls[1..]);
      assert ls[1..][..|ls| - 2] == ls[..|ls| - 1][1..];
    }
  }

  lemma {:induction false} RunTold(handlers: set<uint32>, ls: seq<Label>)
    requires Run(Init(handlers), ls).Some?
    ensures Told(handlers, ls, Run(Init(handlers), ls).value) && LogTold(handlers, ls, Run(Init(handlers), ls).value)
    decreases |ls|
  {
    if ls != [] {
      var n := |ls| - 1;
      RunLast(Init(handlers), ls);
      RunTold(handlers, ls[..n]);
      assert ls == ls[..n] + [ls[n]];
      StepTells(handlers, ls[..n], Run(Init(handlers), ls[..n]).value, ls[n]);
      StepLogTold(handlers, ls[..n], Run(Init(handlers), ls[..n]).value, ls[n]);
    }
  }

  /**
   * Every completed call was handled if and only if a handler for its id was registered when it
   * looked the handler up, and then it is counted under its own id and length with the result
   * of its own handler; otherwise it is counted as unknown. Call, id, length, registrations and
   * result are those of the actions that took place.
   */
  lemma HandledIffRegistered(handlers: set<uint32>, ls: seq<Label>, c: nat)
    requires Run(Init(handlers), ls).Some?
    ensures var s := Run(Init(handlers), ls).value;
      && |s.calls| == |Messages(ls)|
      && (c < |s.calls| && s.calls[c].pc.Done? ==>
            if Messages(ls)[c].0 in AtLookup(handlers, ls, c)
            then exists ok :: Trail(ls, c) == [Find(c), Handle(c, ok), Create(c), Add(c)]
            else Trail(ls, c) == [Find(c), CountUnknown(c)])
  {
    RunTold(handlers, ls);
    var s := Run(Init(handlers), ls).value;
    if c < |s.calls| && s.calls[c].pc.Done? {
      assert CallTold(handlers, ls, s, c);
    }
  }

  /** The log holds the events of the counted calls, in the order in which they were counted. */
  lemma CountedAsHandled(handlers: set<uint32>, ls: seq<Label>, i: nat)
    requires Run(Init(handlers), ls).Some?
    ensures var s := Run(Init(handlers), ls).value;
      && |s.log| == |CountedCalls(ls)|
      && (i < |s.log| ==>
            var c := CountedCalls(ls)[i];
            && c < |Messages(ls)|
            && var (id, len) := Messages(ls)[c];
               if id in AtLookup(handlers, ls, c)
               then exists ok :: Handle(c, ok) in Trail(ls, c) && s.log[i] == Counted(id, len, ok)
               else s.log[i] == UnknownId)
  {
    RunTold(handlers, ls);
    var s := Run(Init(handlers), ls).value;
    if i < |s.log| {
      var c := CountedCalls(ls)[i];
      assert CallTold(handlers, ls, s, c);
    }
  }

  /** The calls of GetStatistic: the id asked for, and how many calls had been counted then. */
  function Asked(ls: seq<Label>): seq<(uint32, nat)>
    decreases |ls|
  {
    if ls == [] then []
    else
      var n := |ls| - 1;
      Asked(ls[..n]) + (if ls[n].NewReader? then [(ls[n].id, |CountedCalls(ls[..n])|)] else [])
  }

  ghost predicate AskedTold(ls: seq<Label>, s: State) {
    && |s.readers| == |Asked(ls)|
    && forall r :: 0 <= r < |s.readers| ==> Asked(ls)[r] == (s.readers[r].id, s.readers[r].start)
  }

  lemma StepAsked(ls: seq<Label>, s: State, l: Label)
    requires AskedTold(ls, s) && |s.log| == |CountedCalls(ls)| && Step(s, l).Some?
    ensures AskedTold(ls + [l], Step(s, l).value)
  {
    assert (ls + [l])[..|ls|] == ls;
    if !l.NewReader? && !l.FindEntry? && !l.LockedRead? {
      OthersStep(s, l);
    }
  }

  lemma {:induction false} RunAsked(handlers: set<uint32>, ls: seq<Label>)
    requires Run(Init(handlers), ls).Some?
    ensures AskedTold(ls, Run(Init(handlers), ls).value)
    decreases |ls|
  {
    if ls != [] {
      var n := |ls| - 1;
      RunLast(Init(handlers), ls);
      RunAsked(handlers, ls[..n]);
      RunTold(handlers, ls[..n]);
      assert ls == ls[..n] + [ls[n]];
      StepAsked(ls[..n], Run(Init(handlers), ls[..n]).value, ls[n]);
    }
  }

  /**
   * GetStatistic takes two locks one after the other, and yet, whatever other calls do in
   * between, all four numbers it returns are the totals for the id asked for of the calls
   * counted up to one moment between its start and its end; it never mixes two moments.
   */
  lemma ReaderSeesOneMoment(handlers: set<uint32>, ls: seq<Label>, r: nat)
    requires Run(Init(handlers), ls).Some?
    ensures var s := Run(Init(handlers), ls).value;
      && |s.readers| == |Asked(ls)| && |s.log| == |CountedCalls(ls)|
      && (r < |s.readers| && s.readers[r].pc.Answered? ==>
            var (id, start) := Asked(ls)[r];
            exists k :: start <= k <= |s.log| && s.readers[r].pc.e == Total(s.log[..k], id))
  {
    RunReaders(Init(handlers), ls);
    RunAsked(handlers, ls);
    RunTold(handlers, ls);
    var s := Run(Init(handlers), ls).value;
    if r < |s.readers| && s.readers[r].pc.Answered? {
      assert ReaderOk(s.log, s.readers[r]);
    }
  }
}
