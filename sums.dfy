/** Sums of an integer-valued function over the elements of a sequence.
    Both the score folds and the rank counts are sums of this kind, so the
    facts that make them independent of order are proved once, here. */
module Sums {

  /** The sum of f over the elements of s, taken from the front to the back. */
  function Sum<T>(s: seq<T>, f: T -> int): int
  {
    if s == [] then 0 else Sum(s[..|s| - 1], f) + f(s[|s| - 1])
  }

  lemma {:induction false} SumConcat<T>(a: seq<T>, b: seq<T>, f: T -> int)
    ensures Sum(a + b, f) == Sum(a, f) + Sum(b, f)
    decreases |b|
  {
    if b == [] {
      assert a + b == a;
    } else {
      var b' := b[..|b| - 1];
      assert (a + b)[..|a + b| - 1] == a + b';
      SumConcat(a, b', f);
    }
  }

  /** Taking one element out of a sequence takes its value out of the sum. */
  lemma SumRemove<T>(s: seq<T>, j: nat, f: T -> int)
    requires j < |s|
    ensures Sum(s, f) == Sum(s[..j] + s[j + 1..], f) + f(s[j])
  {
    var front, back := s[..j], s[j + 1..];
    var one := [s[j]];
    assert s == (front + one) + back;
    assert one[..0] == [];
    SumConcat(front + one, back, f);
    SumConcat(front, one, f);
    SumConcat(front, back, f);
  }

  /** The sum does not depend on the order of the elements. */
  lemma {:induction false} SumPermutation<T>(a: seq<T>, b: seq<T>, f: T -> int)
    requires multiset(a) == multiset(b)
    ensures Sum(a, f) == Sum(b, f)
    decreases |a|
  {
    if a == [] {
      assert |multiset(b)| == 0;
    } else {
      var n := |a| - 1;
      var x := a[n];
      assert x in multiset(b);
      var j :| 0 <= j < |b| && b[j] == x;
      var b' := b[..j] + b[j + 1..];
      assert b == b[..j] + [b[j]] + b[j + 1..];
      assert a == a[..n] + [x];
      assert multiset(b) == multiset(b[..j]) + multiset{x} + multiset(b[j + 1..]);
      assert multiset(b') == multiset(b[..j]) + multiset(b[j + 1..]);
      assert multiset(a) == multiset(a[..n]) + multiset{x};
      assert multiset(a[..n]) == multiset(a) - multiset{x};
      assert multiset(b') == multiset(b) - multiset{x};
      SumPermutation(a[..n], b', f);
      SumRemove(b, j, f);
    }
  }

  lemma {:induction false} SumZero<T>(s: seq<T>, f: T -> int)
    requires forall i :: 0 <= i < |s| ==> f(s[i]) == 0
    ensures Sum(s, f) == 0
    decreases |s|
  {
    if s != [] {
      SumZero(s[..|s| - 1], f);
    }
  }

  lemma {:induction false} SumMonotone<T>(s: seq<T>, f: T -> int, g: T -> int)
    requires forall i :: 0 <= i < |s| ==> f(s[i]) <= g(s[i])
    ensures Sum(s, f) <= Sum(s, g)
    decreases |s|
  {
    if s != [] {
      SumMonotone(s[..|s| - 1], f, g);
    }
  }

  /** Pointwise at most, and somewhere strictly less, gives a strictly smaller sum. */
  lemma SumStrictMonotone<T>(s: seq<T>, f: T -> int, g: T -> int, j: nat)
    requires forall i :: 0 <= i < |s| ==> f(s[i]) <= g(s[i])
    requires j < |s| && f(s[j]) < g(s[j])
    ensures Sum(s, f) < Sum(s, g)
  {
    var rest := s[..j] + s[j + 1..];
    forall i | 0 <= i < |rest| ensures f(rest[i]) <= g(rest[i]) {
      if i < j { assert rest[i] == s[i]; } else { assert rest[i] == s[i + 1]; }
    }
    SumMonotone(rest, f, g);
    SumRemove(s, j, f);
    SumRemove(s, j, g);
  }

  /** A sum of zeros and ones lies between 0 and the length. */
  lemma {:induction false} SumOfIndicators<T>(s: seq<T>, f: T -> int)
    requires forall i :: 0 <= i < |s| ==> 0 <= f(s[i]) <= 1
    ensures 0 <= Sum(s, f) <= |s|
    decreases |s|
  {
    if s != [] {
      SumOfIndicators(s[..|s| - 1], f);
    }
  }
}
