/**
 Chunk and task ids are strings, compared the way Python compares `str`:
 lexicographically by code point. This module gives that order, its laws, and
 the two uses the program makes of it: sorting a list and sorting a key set.
 */
module IdOrder {
  datatype Id = Id(name: string)

  predicate StringLeq(a: string, b: string) {
    a == [] || (b != [] && (a[0] < b[0] || (a[0] == b[0] && StringLeq(a[1..], b[1..]))))
  }

  predicate Leq(a: Id, b: Id) {
    StringLeq(a.name, b.name)
  }

  lemma {:induction false} StringLeqTotal(a: string, b: string)
    ensures StringLeq(a, b) || StringLeq(b, a)
  {
    if a != [] && b != [] && a[0] == b[0] {
      StringLeqTotal(a[1..], b[1..]);
    }
  }

  lemma {:induction false} StringLeqAntisymmetric(a: string, b: string)
    requires StringLeq(a, b) && StringLeq(b, a)
    ensures a == b
  {
    if a != [] && b != [] {
      StringLeqAntisymmetric(a[1..], b[1..]);
      assert a == [a[0]] + a[1..] && b == [b[0]] + b[1..];
    }
  }

  lemma {:induction false} StringLeqTransitive(a: string, b: string, c: string)
    requires StringLeq(a, b) && StringLeq(b, c)
    ensures StringLeq(a, c)
  {
    if a != [] && a[0] == b[0] == c[0] {
      StringLeqTransitive(a[1..], b[1..], c[1..]);
    }
  }

  /** The strings agree up to position `k`, and there `a` has the smaller character. */
  ghost predicate SmallerAt(a: string, b: string, k: nat) {
    k < |a| && k < |b| && a[k] < b[k] && forall i :: 0 <= i < k ==> a[i] == b[i]
  }

  ghost predicate IsPrefixOf(a: string, b: string) {
    |a| <= |b| && forall i :: 0 <= i < |a| ==> a[i] == b[i]
  }

  /** Ids are ordered by their first different character; a prefix comes before what it is a prefix of. */
  lemma {:induction false} LeqIsLexicographic(a: string, b: string)
    ensures StringLeq(a, b) <==> IsPrefixOf(a, b) || exists k: nat :: SmallerAt(a, b, k)
  {
    if a != [] && b != [] {
      if a[0] == b[0] {
        var x, y := a[1..], b[1..];
        LeqIsLexicographic(x, y);
        if IsPrefixOf(x, y) {
          forall i | 0 <= i < |a| ensures a[i] == b[i] {
            assert i > 0 ==> x[i - 1] == y[i - 1];
          }
        }
        if k: nat :| SmallerAt(x, y, k) {
          forall i | 0 <= i < k + 1 ensures a[i] == b[i] {
            assert i > 0 ==> x[i - 1] == y[i - 1];
          }
          assert SmallerAt(a, b, k + 1);
        }
        if k: nat :| SmallerAt(a, b, k) {
          assert k > 0;
          forall i | 0 <= i < k - 1 ensures x[i] == y[i] {
            assert a[i + 1] == b[i + 1];
          }
          assert SmallerAt(x, y, k - 1);
        }
      } else if a[0] < b[0] {
        assert SmallerAt(a, b, 0);
      }
    }
  }

  lemma LeqTotal(a: Id, b: Id)
    ensures Leq(a, b) || Leq(b, a)
  {
    StringLeqTotal(a.name, b.name);
  }

  lemma LeqReflexive(a: Id)
    ensures Leq(a, a)
  {
    LeqTotal(a, a);
  }

  lemma LeqAntisymmetric(a: Id, b: Id)
    requires Leq(a, b) && Leq(b, a)
    ensures a == b
  {
    StringLeqAntisymmetric(a.name, b.name);
  }

  lemma LeqTransitive(a: Id, b: Id, c: Id)
    requires Leq(a, b) && Leq(b, c)
    ensures Leq(a, c)
  {
    StringLeqTransitive(a.name, b.name, c.name);
  }

  ghost predicate IsSorted(s: seq<Id>) {
    forall i, j :: 0 <= i < j < |s| ==> Leq(s[i], s[j])
  }

  ghost predicate Distinct<T>(s: seq<T>) {
    forall i, j :: 0 <= i < j < |s| ==> s[i] != s[j]
  }

  /** Inserts `x` in front of the first element that is not below it. */
  function Insert(x: Id, s: seq<Id>): (r: seq<Id>)
    requires IsSorted(s)
    ensures IsSorted(r)
    ensures multiset(r) == multiset{x} + multiset(s)
  {
    if s == [] then [x]
    else if Leq(x, s[0]) then
      assert IsSorted([x] + s) by {
        forall j | 0 < j < |s| ensures Leq(x, s[j]) { LeqTransitive(x, s[0], s[j]); }
      }
      [x] + s
    else
      var rest := Insert(x, s[1..]);
      assert s == [s[0]] + s[1..];
      assert IsSorted([s[0]] + rest) by {
        LeqTotal(x, s[0]);
        forall j | 0 <= j < |rest| ensures Leq(s[0], rest[j]) {
          assert rest[j] in multiset(rest);
          assert rest[j] == x || rest[j] in s[1..];
        }
      }
      [s[0]] + rest
  }

  /** Python's `sorted` on a list of ids. */
  function Sorted(s: seq<Id>): (r: seq<Id>)
    ensures IsSorted(r)
    ensures multiset(r) == multiset(s)
  {
    if s == [] then [] else
      assert s == [s[0]] + s[1..];
      Insert(s[0], Sorted(s[1..]))
  }

  /** A sequence has no repeats exactly when no element occurs more than once. */
  lemma {:induction false} DistinctIffSingle<T>(s: seq<T>)
    ensures Distinct(s) <==> forall x :: multiset(s)[x] <= 1
  {
    if s != [] {
      var front, last := s[..|s| - 1], s[|s| - 1];
      assert s == front + [last];
      DistinctIffSingle(front);
      assert multiset(s) == multiset(front) + multiset{last};
      if Distinct(s) {
        assert last !in front;
        assert Distinct(front);
        assert multiset(front)[last] == 0;
      }
      if forall x :: multiset(s)[x] <= 1 {
        assert forall x :: multiset(front)[x] <= multiset(s)[x];
        assert multiset(s)[last] == multiset(front)[last] + 1;
        assert last !in multiset(front);
      }
    }
  }

  lemma {:induction false} SortedKeepsMembers(s: seq<Id>)
    ensures |Sorted(s)| == |s|
    ensures forall x :: x in Sorted(s) <==> x in s
    ensures Distinct(s) ==> Distinct(Sorted(s))
  {
    var r := Sorted(s);
    assert |multiset(r)| == |multiset(s)|;
    forall x ensures x in r <==> x in s {
      assert x in multiset(r) <==> x in multiset(s);
    }
    if Distinct(s) {
      DistinctIffSingle(s);
      DistinctIffSingle(r);
    }
  }

  predicate IsLeast(m: Id, s: set<Id>) {
    m in s && forall y :: y in s ==> Leq(m, y)
  }

  /** The least of a set and one more id. */
  lemma LeastWith(m: Id, s: set<Id>, x: Id)
    requires IsLeast(m, s)
    ensures IsLeast(if Leq(m, x) then m else x, s + {x})
  {
    LeqReflexive(x);
    if !Leq(m, x) {
      LeqTotal(m, x);
      forall y | y in s ensures Leq(x, y) {
        LeqTransitive(x, m, y);
      }
    }
  }

  lemma {:induction false} MinExists(s: set<Id>)
    requires s != {}
    ensures exists m :: IsLeast(m, s)
  {
    var x :| x in s;
    if s == {x} {
      LeqReflexive(x);
      assert IsLeast(x, s);
    } else {
      MinExists(s - {x});
      var m :| IsLeast(m, s - {x});
      LeastWith(m, s - {x}, x);
      assert s - {x} + {x} == s;
    }
  }

  lemma LeastIsUnique(m: Id, n: Id, s: set<Id>)
    requires IsLeast(m, s) && IsLeast(n, s)
    ensures m == n
  {
    LeqAntisymmetric(m, n);
  }

  /** The least id of a non-empty set. */
  function Least(s: set<Id>): (m: Id)
    requires s != {}
    ensures m in s && forall y :: y in s ==> Leq(m, y)
  {
    MinExists(s);
    assert forall m, n :: IsLeast(m, s) && IsLeast(n, s) ==> m == n by {
      forall m, n | IsLeast(m, s) && IsLeast(n, s) ensures m == n {
        LeastIsUnique(m, n, s);
      }
    }
    var m :| IsLeast(m, s);
    m
  }

  /** Python's `sorted` on a set (or on the keys of a dictionary). */
  function SortedSet(s: set<Id>): (r: seq<Id>)
    ensures IsSorted(r) && Distinct(r)
    ensures forall x :: x in r <==> x in s
    ensures |r| == |s|
  {
    if s == {} then [] else
      var m := Least(s);
      [m] + SortedSet(s - {m})
  }
}
