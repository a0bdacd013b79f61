/** Subsequences: what is left of a sequence when some of its elements are taken out. */
module Subsequence {
  predicate Sub<T(==)>(a: seq<T>, b: seq<T>) {
    if a == [] then true
    else if b == [] then false
    else
      Sub(a, b[..|b| - 1]) || (a[|a| - 1] == b[|b| - 1] && Sub(a[..|a| - 1], b[..|b| - 1]))
  }

  lemma SubAppend<T>(a: seq<T>, b: seq<T>, x: T)
    requires Sub(a, b)
    ensures Sub(a, b + [x]) && Sub(a + [x], b + [x])
  {
    assert (a + [x])[..|a + [x]| - 1] == a && (b + [x])[..|b + [x]| - 1] == b;
  }

  /** Taking one more element out leaves a subsequence. */
  lemma {:induction false} SubRemove<T>(a: seq<T>, b: seq<T>, i: nat)
    requires Sub(a, b) && i < |a|
    ensures Sub(a[..i] + a[i + 1..], b)
    decreases |b|
  {
    var front := b[..|b| - 1];
    if Sub(a, front) {
      SubRemove(a, front, i);
    } else if i == |a| - 1 {
      assert a[..i] + a[i + 1..] == a[..|a| - 1];
    } else {
      var short := a[..|a| - 1];
      SubRemove(short, front, i);
      var less := a[..i] + a[i + 1..];
      assert less[..|less| - 1] == short[..i] + short[i + 1..];
    }
  }

  lemma {:induction false} SubLength<T>(a: seq<T>, b: seq<T>)
    requires Sub(a, b)
    ensures |a| <= |b|
    ensures |a| == |b| ==> a == b
    decreases |b|
  {
    if a != [] {
      var front := b[..|b| - 1];
      if Sub(a, front) {
        SubLength(a, front);
      } else {
        SubLength(a[..|a| - 1], front);
      }
    }
  }

  lemma {:induction false} SubTrans<T>(a: seq<T>, b: seq<T>, d: seq<T>)
    requires Sub(a, b) && Sub(b, d)
    ensures Sub(a, d)
    decreases |d|
  {
    if a != [] {
      var front := d[..|d| - 1];
      if Sub(b, front) {
        SubTrans(a, b, front);
      } else if Sub(a, b[..|b| - 1]) {
        SubTrans(a, b[..|b| - 1], front);
      } else {
        SubTrans(a[..|a| - 1], b[..|b| - 1], front);
      }
    }
  }
}
