/** Sums of a measure over a sequence. */
module Sums {
  function Sum<T>(s: seq<T>, f: T -> nat): (n: nat) {
    if s == [] then 0 else f(s[0]) + Sum(s[1..], f)
  }

  lemma {:induction false} SumAppend<T>(a: seq<T>, b: seq<T>, f: T -> nat)
    ensures Sum(a + b, f) == Sum(a, f) + Sum(b, f)
  {
    if a == [] {
      assert a + b == b;
    } else {
      SumAppend(a[1..], b, f);
      assert (a + b)[1..] == a[1..] + b;
    }
  }

  /** Taking element i out lowers the sum by its measure. */
  lemma {:induction false} SumRemove<T>(s: seq<T>, i: nat, f: T -> nat)
    requires i < |s|
    ensures Sum(s, f) == Sum(s[..i] + s[i + 1..], f) + f(s[i])
  {
    if i == 0 {
      assert s[..0] + s[1..] == s[1..];
    } else {
      SumRemove(s[1..], i - 1, f);
      var less := s[..i] + s[i + 1..];
      assert less[1..] == s[1..][..i - 1] + s[1..][i..];
    }
  }

  lemma {:induction false} SumBounded<T>(s: seq<T>, f: T -> nat, bound: nat)
    requires forall x <- s :: f(x) <= bound
    ensures Sum(s, f) <= |s| * bound
  {
    if s != [] {
      SumBounded(s[1..], f, bound);
      assert |s| * bound == bound + (|s| - 1) * bound;
    }
  }

  lemma {:induction false} SumZero<T>(s: seq<T>, f: T -> nat)
    requires forall x <- s :: f(x) == 0
    ensures Sum(s, f) == 0
  {
    if s != [] {
      SumZero(s[1..], f);
    }
  }

  /** When only one index contributes, its measure is the sum. */
  lemma SumOnly<T>(s: seq<T>, i: nat, f: T -> nat)
    requires i < |s|
    requires forall j :: 0 <= j < |s| && j != i ==> f(s[j]) == 0
    ensures Sum(s, f) == f(s[i])
  {
    SumRemove(s, i, f);
    var rest := s[..i] + s[i + 1..];
    forall x | x in rest ensures f(x) == 0 {
      var j :| 0 <= j < |rest| && rest[j] == x;
      assert x == s[if j < i then j else j + 1];
    }
    SumZero(rest, f);
  }

  /**
   Double-entry step: element i leaves `live`, `fwd` joins it and `add` is logged. If what the
   element stood for equals what was logged plus what joined, the total is unchanged.
   */
  lemma Balance<T>(live: seq<T>, i: nat, fwd: seq<T>, log: seq<T>, add: seq<T>, h: T -> nat, f: T -> nat)
    requires i < |live| && f(live[i]) == Sum(add, h) + Sum(fwd, f)
    ensures Sum(log + add, h) + Sum(live[..i] + live[i + 1..] + fwd, f) == Sum(log, h) + Sum(live, f)
  {
    SumRemove(live, i, f);
    SumAppend(live[..i] + live[i + 1..], fwd, f);
    SumAppend(log, add, h);
  }

  /** The same when some of what the element stood for is lost. */
  lemma BalanceAtMost<T>(live: seq<T>, i: nat, fwd: seq<T>, log: seq<T>, add: seq<T>, h: T -> nat, f: T -> nat)
    requires i < |live| && f(live[i]) >= Sum(add, h) + Sum(fwd, f)
    ensures Sum(log + add, h) + Sum(live[..i] + live[i + 1..] + fwd, f) <= Sum(log, h) + Sum(live, f)
  {
    SumRemove(live, i, f);
    SumAppend(live[..i] + live[i + 1..], fwd, f);
    SumAppend(log, add, h);
  }
}
