// Sums over sequences, for counting goroutines by program counter.
module Counting {

  function Sum<A>(f: A -> nat, s: seq<A>): nat {
    if s == [] then 0 else f(s[0]) + Sum(f, s[1..])
  }

  lemma {:induction false} SumUpdate<A>(f: A -> nat, s: seq<A>, i: nat, a: A)
    requires i < |s|
    ensures Sum(f, s[i := a]) + f(s[i]) == Sum(f, s) + f(a)
  {
    if i == 0 {
      assert s[0 := a][1..] == s[1..];
    } else {
      assert s[i := a][1..] == s[1..][i - 1 := a];
      SumUpdate(f, s[1..], i - 1, a);
    }
  }

  lemma {:induction false} SumSnoc<A>(f: A -> nat, s: seq<A>, a: A)
    ensures Sum(f, s + [a]) == Sum(f, s) + f(a)
  {
    if s == [] {
      assert s + [a] == [a];
    } else {
      assert (s + [a])[1..] == s[1..] + [a];
      SumSnoc(f, s[1..], a);
    }
  }

  /** A sum of zeros and ones is at most the length, and less if one of them is zero. */
  lemma {:induction false} SumBound<A>(f: A -> nat, s: seq<A>, i: nat)
    requires forall j :: 0 <= j < |s| ==> f(s[j]) <= 1
    ensures Sum(f, s) <= |s|
    ensures i < |s| && f(s[i]) == 0 ==> Sum(f, s) < |s|
  {
    if s != [] {
      SumBound(f, s[1..], if i == 0 then 0 else i - 1);
    }
  }

  lemma {:induction false} SumZero<A>(f: A -> nat, s: seq<A>)
    ensures Sum(f, s) == 0 <==> forall j :: 0 <= j < |s| ==> f(s[j]) == 0
  {
    if s != [] {
      SumZero(f, s[1..]);
      assert s == [s[0]] + s[1..];
    }
  }

  lemma {:induction false} SumLe<A>(f: A -> nat, g: A -> nat, h: A -> nat, s: seq<A>)
    requires forall j :: 0 <= j < |s| ==> f(s[j]) <= g(s[j]) + h(s[j])
    ensures Sum(f, s) <= Sum(g, s) + Sum(h, s)
  {
    if s != [] {
      SumLe(f, g, h, s[1..]);
    }
  }
}
