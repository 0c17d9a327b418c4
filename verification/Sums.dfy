/** Sums of a weight over the elements of a sequence, and how they follow updates of the sequence. */
module Sums {
  ghost function Sum<T>(s: seq<T>, w: T -> int): int {
    if s == [] then 0 else Sum(s[..|s| - 1], w) + w(s[|s| - 1])
  }

  lemma SumAppend<T>(s: seq<T>, w: T -> int, x: T)
    ensures Sum(s + [x], w) == Sum(s, w) + w(x)
  {
    assert (s + [x])[..|s|] == s;
  }

  lemma {:induction false} SumUpdate<T>(s: seq<T>, w: T -> int, i: nat, x: T)
    requires i < |s|
    ensures Sum(s[i := x], w) == Sum(s, w) - w(s[i]) + w(x)
    decreases |s|
  {
    var n := |s| - 1;
    if i == n {
      assert s[i := x][..n] == s[..n];
    } else {
      SumUpdate(s[..n], w, i, x);
      assert s[i := x][..n] == s[..n][i := x];
    }
  }

  /** A weight bounded by another, element by element, has the smaller sum. */
  lemma {:induction false} SumMonotone<T>(s: seq<T>, v: T -> int, w: T -> int)
    requires forall i :: 0 <= i < |s| ==> v(s[i]) <= w(s[i])
    ensures Sum(s, v) <= Sum(s, w)
    decreases |s|
  {
    if s != [] {
      var t := s[..|s| - 1];
      forall i | 0 <= i < |t|
        ensures v(t[i]) <= w(t[i])
      {
        assert t[i] == s[i];
      }
      SumMonotone(t, v, w);
    }
  }

  /** The sum of u + c * v. */
  lemma {:induction false} SumLinear<T>(s: seq<T>, u: T -> int, v: T -> int, c: int, w: T -> int)
    requires forall x :: w(x) == u(x) + c * v(x)
    ensures Sum(s, w) == Sum(s, u) + c * Sum(s, v)
    decreases |s|
  {
    if s != [] {
      var t := s[..|s| - 1];
      SumLinear(t, u, v, c, w);
      Distributes(c, Sum(t, v), v(s[|s| - 1]));
    }
  }

  lemma Distributes(c: int, a: int, b: int)
    ensures c * (a + b) == c * a + c * b
  {
  }

  lemma {:induction false} SumOfZeros<T>(s: seq<T>, w: T -> int)
    requires forall i :: 0 <= i < |s| ==> w(s[i]) == 0
    ensures Sum(s, w) == 0
    decreases |s|
  {
    if s != [] {
      var t := s[..|s| - 1];
      forall i | 0 <= i < |t|
        ensures w(t[i]) == 0
      {
        assert t[i] == s[i];
      }
      SumOfZeros(t, w);
    }
  }
}
