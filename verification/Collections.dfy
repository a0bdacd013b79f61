/** Counting, and a few facts about sets and sequences that several modules need. */
module Collections {
  function Count(b: bool): nat {
    if b then 1 else 0
  }

  /** `n`, but no more than `bound`. */
  function Capped(n: nat, bound: nat): (k: nat)
    ensures k <= bound && k <= n
  {
    if n <= bound then n else bound
  }

  lemma {:induction false} SubsetSize<T>(a: set<T>, b: set<T>)
    requires a <= b
    ensures |a| <= |b|
    ensures |a| == |b| ==> a == b
  {
    if x :| x in a {
      SubsetSize(a - {x}, b - {x});
    }
  }

  lemma AddedOne<T>(s: set<T>, x: T)
    requires x !in s
    ensures |s + {x}| == |s| + 1
  {
  }

  lemma UpdateKeepsKeys<K, V>(m: map<K, V>, k: K, v: V)
    requires k in m
    ensures m[k := v].Keys == m.Keys
  {
  }

  function WithoutHead<T>(s: seq<T>): seq<T> {
    if s == [] then [] else s[1..]
  }

  lemma Regroup<T>(a: seq<T>, b: seq<T>, c: seq<T>)
    ensures a + (b + c) == (a + b) + c
  {
  }

  lemma NothingLeft<T>(s: set<T>, a: set<T>, b: set<T>)
    requires a <= b
    ensures s + (a - b) == s
  {
  }

  lemma OneLeft<T>(a: set<T>, x: T)
    requires x in a
    ensures a - (a - {x}) == {x}
  {
  }

  lemma MoveOne<T>(s: set<T>, a: set<T>, x: T)
    requires x in a
    ensures s + {x} + (a - {x}) == s + a
  {
  }

  lemma RegroupSets<T>(a: set<T>, b: set<T>, c: set<T>)
    ensures a + (b + c) == (a + b) + c
  {
  }

  // --- slices -----------------------------------------------------------------

  lemma SliceOfSlice<T>(s: seq<T>, i: nat, j: nat, a: nat, b: nat)
    requires i <= j <= |s| && a <= b <= j - i
    ensures s[i..j][a..b] == s[i + a..i + b]
  {
    forall x | 0 <= x < b - a ensures s[i..j][a..b][x] == s[i + a..i + b][x] {
    }
  }

  lemma SliceOfSuffix<T>(s: seq<T>, k: nat, a: nat, b: nat)
    requires a <= b && k + b <= |s|
    ensures s[k..][a..b] == s[k + a..k + b]
  {
    forall x | 0 <= x < b - a ensures s[k..][a..b][x] == s[k + a..k + b][x] {
    }
  }

  lemma FullPrefix<T>(s: seq<T>)
    ensures s[..|s|] == s
  {
  }

  lemma SnocPrefix<T>(s: seq<T>, k: nat)
    requires k < |s|
    ensures s[..k + 1] == s[..k] + [s[k]]
    ensures forall x :: x in s[..k + 1] <==> x in s[..k] || x == s[k]
  {
  }

  lemma EmptyPrefix<T>(s: seq<T>)
    ensures s[0..] == s && s[..0] == []
  {
  }

  lemma HeadAndTail<T>(s: seq<T>)
    requires s != []
    ensures s == [s[0]] + s[1..]
  {
  }

  lemma SplitAt<T>(s: seq<T>, i: nat)
    requires i < |s|
    ensures s == (s[..i] + [s[i]]) + s[i + 1..]
  {
  }

  lemma FrontAndLast<T>(s: seq<T>)
    requires s != []
    ensures s == s[..|s| - 1] + [s[|s| - 1]]
  {
  }

  lemma FrontOfSnoc<T>(s: seq<T>, x: T)
    ensures (s + [x])[..|s + [x]| - 1] == s
  {
  }

  lemma SuffixOfSuffix<T>(s: seq<T>, i: nat, k: nat)
    requires i + k <= |s|
    ensures s[i..][k..] == s[i + k..]
  {
  }

  lemma PrefixOfConcat<T>(a: seq<T>, b: seq<T>, n: nat)
    requires |a| <= n <= |a| + |b|
    ensures (a + b)[..n] == a + b[..n - |a|]
  {
  }

  lemma ConsAt<T>(x: T, rest: seq<T>, i: nat)
    requires 1 <= i <= |rest|
    ensures ([x] + rest)[i] == rest[i - 1]
  {
  }

  lemma SliceOfCons<T>(x: T, rest: seq<T>, a: nat, b: nat)
    requires 1 <= a <= b <= |rest| + 1
    ensures ([x] + rest)[a..b] == rest[a - 1..b - 1]
  {
  }

  lemma PrefixOfCons<T>(x: T, rest: seq<T>, k: nat)
    requires 1 <= k <= |rest| + 1
    ensures ([x] + rest)[..k] == [x] + rest[..k - 1]
  {
  }
}
