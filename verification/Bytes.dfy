/** Bytes, byte strings and the two sequence relations used to state delivery guarantees. */
module Bytes {

  type byte = b: int | 0 <= b < 256

  type Payload = seq<byte>

  datatype Option<+T> = None | Some(value: T)

  lemma ConcatAssociates<T>(a: seq<T>, b: seq<T>, c: seq<T>)
    ensures (a + b) + c == a + (b + c)
  {
  }

  /** `a` can be obtained from `t` by deleting elements, keeping the order. */
  ghost predicate Subsequence<T>(a: seq<T>, t: seq<T>)
    decreases |t|
  {
    if a == [] then true
    else if t == [] then false
    else
      || (a[|a| - 1] == t[|t| - 1] && Subsequence(a[..|a| - 1], t[..|t| - 1]))
      || Subsequence(a, t[..|t| - 1])
  }

  lemma {:induction false} SubsequenceSkip<T>(a: seq<T>, t: seq<T>, x: T)
    requires Subsequence(a, t)
    ensures Subsequence(a, t + [x])
  {
    assert (t + [x])[..|t|] == t;
  }

  lemma {:induction false} SubsequencePush<T>(a: seq<T>, t: seq<T>, x: T)
    requires Subsequence(a, t)
    ensures Subsequence(a + [x], t + [x])
  {
    assert (t + [x])[..|t|] == t && (a + [x])[..|a|] == a;
  }

  lemma {:induction false} SubsequenceDropLast<T>(a: seq<T>, x: T, t: seq<T>)
    requires Subsequence(a + [x], t)
    ensures Subsequence(a, t)
    decreases |t|
  {
    var t' := t[..|t| - 1];
    assert (a + [x])[..|a|] == a && t == t' + [t[|t| - 1]];
    if Subsequence(a + [x], t') {
      SubsequenceDropLast(a, x, t');
    }
    SubsequenceSkip(a, t', t[|t| - 1]);
  }

  lemma {:induction false} SubsequencePrefix<T>(a: seq<T>, b: seq<T>, t: seq<T>)
    requires Subsequence(a + b, t)
    ensures Subsequence(a, t)
    decreases |b|
  {
    if b == [] {
      assert a + b == a;
    } else {
      var b' := b[..|b| - 1];
      assert a + b == (a + b') + [b[|b| - 1]];
      SubsequenceDropLast(a + b', b[|b| - 1], t);
      SubsequencePrefix(a, b', t);
    }
  }

  lemma {:induction false} SubsequenceExtend<T>(a: seq<T>, t: seq<T>, u: seq<T>)
    requires Subsequence(a, t)
    ensures Subsequence(a, t + u)
    decreases |u|
  {
    if u == [] {
      assert t + u == t;
    } else {
      SubsequenceExtend(a, t, u[..|u| - 1]);
      assert t + u == (t + u[..|u| - 1]) + [u[|u| - 1]];
      SubsequenceSkip(a, t + u[..|u| - 1], u[|u| - 1]);
    }
  }

  lemma {:induction false} SubsequenceMember<T>(a: seq<T>, t: seq<T>, x: T)
    requires Subsequence(a, t) && x in a
    ensures x in t
    decreases |t|
  {
    var t' := t[..|t| - 1];
    assert t == t' + [t[|t| - 1]];
    if Subsequence(a, t') {
      SubsequenceMember(a, t', x);
    } else {
      var a' := a[..|a| - 1];
      assert a == a' + [a[|a| - 1]];
      if x in a' {
        SubsequenceMember(a', t', x);
      }
    }
  }

  lemma {:induction false} SubsequenceTransitive<T>(a: seq<T>, b: seq<T>, c: seq<T>)
    requires Subsequence(a, b) && Subsequence(b, c)
    ensures Subsequence(a, c)
    decreases |c|
  {
    if a != [] && b != [] {
      var c' := c[..|c| - 1];
      if Subsequence(b, c') {
        SubsequenceTransitive(a, b, c');
      } else {
        var b' := b[..|b| - 1];
        if a[|a| - 1] == b[|b| - 1] && Subsequence(a[..|a| - 1], b') {
          SubsequenceTransitive(a[..|a| - 1], b', c');
        } else {
          SubsequenceTransitive(a, b', c');
        }
      }
    }
  }
}
