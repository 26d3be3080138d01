// connection/message_body.go under any number of concurrent callers of AckMessage and readers of m.err.
module MessageBody {
  import opened Errors

  datatype AckPc =
    | Before              // before CompareAndSwap
    | Won                 // it succeeded; before t()
    | Ran(r: Result)      // t() returned r; before m.err = r
    | Stored              // before close(m.ackChan)
    | Left(acked: bool)

  datatype ReaderPc = Blocked | Seen | Got(r: Result)

  /** `runs`, `writes` and `closes` count calls of t, stores to m.err and closes of ackChan. */
  datatype State = State(status: bool, err: Result, ackers: seq<AckPc>, readers: seq<ReaderPc>,
                         runs: nat, writes: nat, closes: nat, winner: Option<nat>)

  datatype Label = NewAcker | NewReader | Cas(i: nat) | RunT(i: nat, r: Result) | Store(i: nat) | Close(i: nat)
                 | See(j: nat) | Get(j: nat)

  const INIT: State := State(false, Nil, [], [], 0, 0, 0, None)

  function Step(s: State, l: Label): Option<State> {
    match l
    case NewAcker => Some(s.(ackers := s.ackers + [Before]))
    case NewReader => Some(s.(readers := s.readers + [Blocked]))
    case Cas(i) =>
      if i >= |s.ackers| || !s.ackers[i].Before? then None
      else if s.status then Some(s.(ackers := s.ackers[i := Left(false)]))
      else Some(s.(status := true, ackers := s.ackers[i := Won], winner := Some(i)))
    case RunT(i, r) =>
      if i < |s.ackers| && s.ackers[i].Won?
      then Some(s.(ackers := s.ackers[i := Ran(r)], runs := s.runs + 1)) else None
    case Store(i) =>
      if i < |s.ackers| && s.ackers[i].Ran?
      then Some(s.(ackers := s.ackers[i := Stored], err := s.ackers[i].r, writes := s.writes + 1)) else None
    case Close(i) =>
      if i < |s.ackers| && s.ackers[i].Stored?
      then Some(s.(ackers := s.ackers[i := Left(true)], closes := s.closes + 1)) else None
    case See(j) =>
      if j < |s.readers| && s.readers[j].Blocked? && s.closes > 0
      then Some(s.(readers := s.readers[j := Seen])) else None
    case Get(j) =>
      if j < |s.readers| && s.readers[j].Seen?
      then Some(s.(readers := s.readers[j := Got(s.err)])) else None
  }

  function Run(s: State, ls: seq<Label>): Option<State>
    decreases |ls|
  {
    if ls == [] then Some(s)
    else match Step(s, ls[0])
      case None => None
      case Some(t) => Run(t, ls[1..])
  }

  ghost predicate Inv(s: State) {
    && (s.status <==> s.winner.Some?)
    && (forall i :: 0 <= i < |s.ackers| ==> s.winner == Some(i) || s.ackers[i] == Before || s.ackers[i] == Left(false))
    && (match s.winner
        case None => s.runs == s.writes == s.closes == 0
        case Some(w) =>
          && w < |s.ackers|
          && match s.ackers[w]
             case Won => s.runs == s.writes == s.closes == 0
             case Ran(_) => s.runs == 1 && s.writes == s.closes == 0
             case Stored => s.runs == s.writes == 1 && s.closes == 0
             case Left(acked) => acked && s.runs == s.writes == s.closes == 1
             case Before => false)
    && (forall j :: 0 <= j < |s.readers| ==>
          match s.readers[j]
          case Blocked => true
          case Seen => s.closes == 1
          case Got(r) => s.closes == 1 && r == s.err)
  }

  lemma StepInv(s: State, l: Label)
    requires Inv(s) && Step(s, l).Some?
    ensures Inv(Step(s, l).value)
  {
  }

  lemma {:induction false} RunInv(s: State, ls: seq<Label>)
    requires Inv(s) && Run(s, ls).Some?
    ensures Inv(Run(s, ls).value)
    decreases |ls|
  {
    if ls != [] {
      StepInv(s, ls[0]);
      RunInv(Step(s, ls[0]).value, ls[1..]);
    }
  }

  /**
   * Under any interleaving t runs at most once, m.err is written at most once, ackChan is
   * closed at most once (so close never panics), and everyone who waited for ackChan reads
   * the one final value of m.err.
   */
  lemma AckMessageOnce(ls: seq<Label>)
    requires Run(INIT, ls).Some?
    ensures var s := Run(INIT, ls).value;
            && s.closes <= s.writes <= s.runs <= 1
            && forall j :: 0 <= j < |s.readers| && s.readers[j].Got? ==> s.readers[j].r == s.err && s.closes == 1
  {
    RunInv(INIT, ls);
  }

  // ----- whose result it is

  /** What the actions of the run say about the result: it is that of the one t that ran. */
  ghost predicate ResultTold(ls: seq<Label>, s: State) {
    && (forall i: nat, r :: RunT(i, r) in ls ==> s.winner == Some(i) && s.runs == 1)
    && (match s.winner
        case None => true
        case Some(w) =>
          && w < |s.ackers|
          && (s.ackers[w].Ran? ==> RunT(w, s.ackers[w].r) in ls)
          && (s.writes == 1 ==> RunT(w, s.err) in ls))
    && (forall i: nat, q, r :: RunT(i, q) in ls && RunT(i, r) in ls ==> q == r)
  }

  lemma StepResult(ls: seq<Label>, s: State, l: Label)
    requires Inv(s) && ResultTold(ls, s) && Step(s, l).Some?
    ensures ResultTold(ls + [l], Step(s, l).value)
  {
    assert forall x :: x in ls + [l] <==> x in ls || x == l;
  }

  lemma {:induction false} RunSnoc(s: State, ls: seq<Label>, n: nat)
    requires Run(s, ls).Some? && n == |ls| - 1
    ensures Run(s, ls[..n]).Some? && Run(s, ls) == Step(Run(s, ls[..n]).value, ls[n])
    decreases n
  {
    if n > 0 {
      RunSnoc(Step(s, ls[0]).value, ls[1..], n - 1);
      assert ls[1..][..n - 1] == ls[..n][1..];
    }
  }

  lemma {:induction false} RunResult(ls: seq<Label>)
    requires Run(INIT, ls).Some?
    ensures ResultTold(ls, Run(INIT, ls).value)
    decreases |ls|
  {
    if ls != [] {
      var n := |ls| - 1;
      RunSnoc(INIT, ls, n);
      RunResult(ls[..n]);
      RunInv(INIT, ls[..n]);
      assert ls == ls[..n] + [ls[n]];
      StepResult(ls[..n], Run(INIT, ls[..n]).value, ls[n]);
    }
  }

  /**
   * Whatever function each of the callers brought along: at most one caller's runs, and everyone
   * who waited for ackChan reads the result that this very function returned.
   */
  lemma ReadersGetTheResult(ls: seq<Label>)
    requires Run(INIT, ls).Some?
    ensures var s := Run(INIT, ls).value;
      && (forall i: nat, j: nat, q, r :: RunT(i, q) in ls && RunT(j, r) in ls ==> i == j && q == r)
      && (forall j :: 0 <= j < |s.readers| && s.readers[j].Got? ==> exists i: nat :: RunT(i, s.readers[j].r) in ls)
  {
    RunResult(ls);
    RunInv(INIT, ls);
  }
}
