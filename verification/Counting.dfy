/** How many threads of a program are at one of a set of program points. */
module Counting {

  function Count<T(==)>(pcs: seq<T>, at: set<T>): nat {
    if pcs == [] then 0
    else Count(pcs[..|pcs| - 1], at) + if pcs[|pcs| - 1] in at then 1 else 0
  }

  /** One thread's move changes the count by what it leaves and what it enters. */
  lemma {:induction false} CountMove<T>(pcs: seq<T>, t: nat, pc: T, at: set<T>)
    requires t < |pcs|
    ensures Count(pcs[t := pc], at) == Count(pcs, at) - (if pcs[t] in at then 1 else 0) + (if pc in at then 1 else 0)
  {
    var n := |pcs| - 1;
    if t < n {
      CountMove(pcs[..n], t, pc, at);
      assert pcs[t := pc][..n] == pcs[..n][t := pc];
    } else {
      assert pcs[t := pc][..n] == pcs[..n];
    }
  }

  lemma {:induction false} CountWitness<T>(pcs: seq<T>, at: set<T>) returns (t: nat)
    requires Count(pcs, at) > 0
    ensures t < |pcs| && pcs[t] in at
  {
    t := |pcs| - 1;
    if pcs[t] !in at {
      t := CountWitness(pcs[..t], at);
    }
  }

  lemma {:induction false} CountPositive<T>(pcs: seq<T>, t: nat, at: set<T>)
    requires t < |pcs| && pcs[t] in at
    ensures Count(pcs, at) > 0
  {
    if t < |pcs| - 1 {
      CountPositive(pcs[..|pcs| - 1], t, at);
    }
  }

  lemma {:induction false} CountTwo<T>(pcs: seq<T>, t: nat, u: nat, at: set<T>)
    requires t < u < |pcs| && pcs[t] in at && pcs[u] in at
    ensures Count(pcs, at) >= 2
  {
    var n := |pcs| - 1;
    if u < n {
      CountTwo(pcs[..n], t, u, at);
    } else {
      CountPositive(pcs[..n], t, at);
    }
  }

  lemma {:induction false} CountDisjoint<T>(pcs: seq<T>, a: set<T>, b: set<T>)
    requires a !! b
    ensures Count(pcs, a + b) == Count(pcs, a) + Count(pcs, b)
  {
    if pcs != [] {
      CountDisjoint(pcs[..|pcs| - 1], a, b);
    }
  }

  lemma {:induction false} CountNone<T>(pcs: seq<T>, at: set<T>)
    requires forall t :: 0 <= t < |pcs| ==> pcs[t] !in at
    ensures Count(pcs, at) == 0
  {
    if pcs != [] {
      CountNone(pcs[..|pcs| - 1], at);
    }
  }
}
