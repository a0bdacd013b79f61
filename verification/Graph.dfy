/**
 Dependency graphs as the chunk DAG and the dispatch planner see them: every
 node maps to the list of nodes it depends on. A list may repeat a dependency.
 A cycle is a closed walk, so a self-loop is a cycle of one node.
 */
module Graph {
  import opened IdOrder

  type Graph = map<Id, seq<Id>>

  /** Every dependency is itself a node. */
  ghost predicate OrphanFree(g: Graph) {
    forall n, d {:trigger d in g[n]} :: n in g && d in g[n] ==> d in g
  }

  /** Each node depends on the next. */
  ghost predicate IsWalk(g: Graph, w: seq<Id>) {
    && (forall i :: 0 <= i < |w| ==> w[i] in g)
    && (forall i, j :: 0 <= i < j < |w| && j == i + 1 ==> w[j] in g[w[i]])
  }

  /** A walk whose last node depends on its first. */
  ghost predicate IsCycle(g: Graph, c: seq<Id>) {
    c != [] && IsWalk(g, c) && c[0] in g[c[|c| - 1]]
  }

  ghost predicate Acyclic(g: Graph) {
    forall c :: !IsCycle(g, c)
  }

  /** Python's `list.index`: the first position of `x`. */
  function IndexOf(s: seq<Id>, x: Id): (k: nat)
    requires x in s
    ensures k < |s| && s[k] == x
    ensures forall j :: 0 <= j < k ==> s[j] != x
  {
    if s[0] == x then 0 else IndexOf(s[1..], x) + 1
  }

  /** `a` stands before `b` in `order`. */
  ghost predicate Before(order: seq<Id>, a: Id, b: Id) {
    a in order && b in order && IndexOf(order, a) < IndexOf(order, b)
  }

  lemma PositionInFront(order: seq<Id>, a: Id)
    requires order != [] && Distinct(order) && a in order[..|order| - 1]
    ensures a in order && IndexOf(order, a) == IndexOf(order[..|order| - 1], a)
  {
    var k := IndexOf(order[..|order| - 1], a);
    assert order[k] == a;
  }

  lemma FrontIsBefore(order: seq<Id>, a: Id)
    requires order != [] && Distinct(order) && a in order[..|order| - 1]
    ensures Before(order, a, order[|order| - 1])
  {
    PositionInFront(order, a);
    var k := IndexOf(order, order[|order| - 1]);
    assert k == |order| - 1;
  }

  /** Every dependency of an element is listed strictly before it. */
  ghost predicate Ranked(g: Graph, s: seq<Id>) {
    forall i {:trigger s[..i]} :: 0 <= i < |s| ==> s[i] in g && forall d :: d in g[s[i]] ==> d in s[..i]
  }

  lemma RankedEdgeDescends(g: Graph, s: seq<Id>, n: Id, d: Id)
    requires Ranked(g, s) && n in s && n in g && d in g[n]
    ensures d in s && IndexOf(s, d) < IndexOf(s, n)
  {
    var k := IndexOf(s, n);
    assert d in s[..k];
    var j :| 0 <= j < k && s[j] == d;
  }

  lemma {:induction false} CycleDescends(g: Graph, s: seq<Id>, c: seq<Id>, i: nat)
    requires Ranked(g, s) && IsCycle(g, c) && i < |c| && c[0] in s
    ensures c[i] in s && IndexOf(s, c[i]) + i <= IndexOf(s, c[0])
  {
    if i > 0 {
      CycleDescends(g, s, c, i - 1);
      RankedEdgeDescends(g, s, c[i - 1], c[i]);
    }
  }

  /** A graph whose nodes can all be listed dependencies-first has no cycle. */
  lemma RankedImpliesAcyclic(g: Graph, s: seq<Id>)
    requires Ranked(g, s) && forall n :: n in g ==> n in s
    ensures Acyclic(g)
  {
    forall c ensures !IsCycle(g, c) {
      if IsCycle(g, c) {
        CycleDescends(g, s, c, |c| - 1);
        RankedEdgeDescends(g, s, c[|c| - 1], c[0]);
        assert false;
      }
    }
  }

  /** Some dependency of `n` lies in `stuck`. */
  ghost predicate Blocked(g: Graph, stuck: set<Id>, n: Id) {
    n in g && exists d :: d in g[n] && d in stuck
  }

  lemma {:induction false} DistinctFits(s: seq<Id>, all: set<Id>)
    requires Distinct(s) && forall i :: 0 <= i < |s| ==> s[i] in all
    ensures |s| <= |all|
  {
    if s != [] {
      var last := s[|s| - 1];
      DistinctFits(s[..|s| - 1], all - {last});
    }
  }

  lemma {:induction false} WalkUntilRepeat(g: Graph, stuck: set<Id>, walk: seq<Id>)
    requires forall n {:trigger Blocked(g, stuck, n)} :: n in stuck ==> Blocked(g, stuck, n)
    requires walk != [] && Distinct(walk) && forall i :: 0 <= i < |walk| ==> walk[i] in stuck
    requires IsWalk(g, walk)
    ensures !Acyclic(g)
    decreases |stuck| - |walk|
  {
    var last := walk[|walk| - 1];
    assert Blocked(g, stuck, last);
    var d :| d in g[last] && d in stuck;
    if d in walk {
      assert IsCycle(g, walk[IndexOf(walk, d)..]);
    } else {
      DistinctFits(walk + [d], stuck);
      assert Blocked(g, stuck, d);
      WalkUntilRepeat(g, stuck, walk + [d]);
    }
  }

  /** A non-empty set whose members each depend on a member contains a cycle. */
  lemma StuckSetHasCycle(g: Graph, stuck: set<Id>)
    requires stuck != {}
    requires forall n {:trigger Blocked(g, stuck, n)} :: n in stuck ==> Blocked(g, stuck, n)
    ensures !Acyclic(g)
  {
    var n :| n in stuck;
    assert Blocked(g, stuck, n);
    WalkUntilRepeat(g, stuck, [n]);
  }

  lemma {:induction false} DistinctMembers(s: seq<Id>)
    requires Distinct(s)
    ensures |set x | x in s| == |s|
  {
    if s != [] {
      var front, last := s[..|s| - 1], s[|s| - 1];
      DistinctMembers(front);
      assert (set x | x in s) == (set x | x in front) + {last};
    }
  }

  /** A distinct listing as long as a set that contains it lists all of the set. */
  lemma DistinctCovers(s: seq<Id>, all: set<Id>)
    requires Distinct(s) && forall i :: 0 <= i < |s| ==> s[i] in all
    ensures |s| == |all| <==> forall x :: x in all ==> x in s
  {
    if x :| x in all && x !in s {
      DistinctFits(s, all - {x});
    } else {
      DistinctMembers(s);
      assert all == set x | x in s;
    }
  }
}
