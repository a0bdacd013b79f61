/**
 Which cycle the depth-first search of engine/dag.py reports: follow, from the least node
 that leads to a cycle, always the first dependency that leads to one, until a node repeats.
 */
module FirstCycle {
  import opened Collections
  import opened Graph
  import opened IdOrder

  /** Some walk from `n` visits a node twice. */
  ghost predicate LeadsToCycle(g: Graph, n: Id) {
    exists w :: IsWalk(g, w) && w != [] && w[0] == n && !Distinct(w)
  }

  /** A walk of distinct nodes whose last node depends on one of them. */
  ghost predicate IsLasso(g: Graph, w: seq<Id>, back: Id) {
    w != [] && IsWalk(g, w) && Distinct(w) && back in w && back in g[w[|w| - 1]]
  }

  /** `n` is the first of the list that leads to a cycle. */
  ghost predicate FirstOf(g: Graph, list: seq<Id>, n: Id) {
    && n in list && LeadsToCycle(g, n)
    && forall k :: 0 <= k < IndexOf(list, n) ==> !LeadsToCycle(g, list[k])
  }

  /** A lasso from the first of `roots` that leads to a cycle, on by the first dependency that does. */
  ghost predicate IsGreedyLasso(g: Graph, roots: seq<Id>, w: seq<Id>, back: Id) {
    && IsLasso(g, w, back)
    && FirstOf(g, roots, w[0])
    && (forall i, j :: 0 <= i < j < |w| && j == i + 1 ==> FirstOf(g, g[w[i]], w[j]))
    && FirstOf(g, g[w[|w| - 1]], back)
  }

  function Tail(w: seq<Id>, back: Id): seq<Id>
    requires back in w
  {
    w[IndexOf(w, back)..]
  }

  /** The cycle of the graph that the search reports. */
  ghost predicate IsFirstCycle(g: Graph, c: seq<Id>) {
    exists w, back :: IsGreedyLasso(g, SortedSet(g.Keys), w, back) && c == Tail(w, back)
  }

  // --- there is only one ------------------------------------------------------------------

  lemma FirstOfIsUnique(g: Graph, list: seq<Id>, a: Id, b: Id)
    requires FirstOf(g, list, a) && FirstOf(g, list, b)
    ensures a == b
  {
    assert list[IndexOf(list, a)] == a && list[IndexOf(list, b)] == b;
  }

  lemma {:induction false} LassosAgree(g: Graph, roots: seq<Id>, w1: seq<Id>, back1: Id, w2: seq<Id>, back2: Id, i: nat)
    requires IsGreedyLasso(g, roots, w1, back1) && IsGreedyLasso(g, roots, w2, back2)
    requires i < |w1| && i < |w2|
    ensures w1[i] == w2[i]
  {
    if i == 0 {
      FirstOfIsUnique(g, roots, w1[0], w2[0]);
    } else {
      LassosAgree(g, roots, w1, back1, w2, back2, i - 1);
      var j := i - 1;
      assert FirstOf(g, g[w1[j]], w1[i]) && FirstOf(g, g[w2[j]], w2[i]);
      FirstOfIsUnique(g, g[w1[j]], w1[i], w2[i]);
    }
  }

  lemma NotShorter(g: Graph, roots: seq<Id>, w1: seq<Id>, back1: Id, w2: seq<Id>, back2: Id)
    requires IsGreedyLasso(g, roots, w1, back1) && IsGreedyLasso(g, roots, w2, back2)
    ensures |w1| >= |w2|
  {
    if |w1| < |w2| {
      var i, j := |w1| - 1, |w1|;
      LassosAgree(g, roots, w1, back1, w2, back2, i);
      assert FirstOf(g, g[w2[i]], w2[j]);
      FirstOfIsUnique(g, g[w1[i]], back1, w2[j]);
      var k := IndexOf(w1, back1);
      LassosAgree(g, roots, w1, back1, w2, back2, k);
      assert false;
    }
  }

  /** The graph has at most one first cycle. */
  lemma FirstCycleIsUnique(g: Graph, c1: seq<Id>, c2: seq<Id>)
    requires IsFirstCycle(g, c1) && IsFirstCycle(g, c2)
    ensures c1 == c2
  {
    var roots := SortedSet(g.Keys);
    var w1, back1 :| IsGreedyLasso(g, roots, w1, back1) && c1 == Tail(w1, back1);
    var w2, back2 :| IsGreedyLasso(g, roots, w2, back2) && c2 == Tail(w2, back2);
    NotShorter(g, roots, w1, back1, w2, back2);
    NotShorter(g, roots, w2, back2, w1, back1);
    forall i | 0 <= i < |w1| ensures w1[i] == w2[i] {
      LassosAgree(g, roots, w1, back1, w2, back2, i);
    }
    assert w1 == w2;
    FirstOfIsUnique(g, g[w1[|w1| - 1]], back1, back2);
  }

  // --- which nodes lead to a cycle --------------------------------------------------------

  lemma SuffixWalks(g: Graph, w: seq<Id>, i: nat)
    requires IsWalk(g, w) && i < |w|
    ensures IsWalk(g, w[i..]) && w[i..][0] == w[i]
  {
    forall a, b | 0 <= a < b < |w[i..]| && b == a + 1 ensures w[i..][b] in g[w[i..][a]] {
      assert w[i + b] in g[w[i + a]];
    }
  }

  /** A walk round the lasso and on to its end. */
  lemma GoesRound(g: Graph, w: seq<Id>, back: Id)
    requires IsLasso(g, w, back)
    ensures IsWalk(g, w + w[IndexOf(w, back)..])
  {
    var k := IndexOf(w, back);
    var round := w + w[k..];
    forall a, b | 0 <= a < b < |round| && b == a + 1 ensures round[b] in g[round[a]] {
      if b < |w| {
        assert w[b] in g[w[a]];
      } else if b > |w| {
        assert w[k + b - |w|] in g[w[k + a - |w|]];
      }
    }
  }

  /** From every node of a lasso a walk can go round. */
  lemma LassoLeads(g: Graph, w: seq<Id>, back: Id, i: nat)
    requires IsLasso(g, w, back) && i < |w|
    ensures LeadsToCycle(g, w[i])
  {
    var k := IndexOf(w, back);
    var round := w + w[k..];
    GoesRound(g, w, back);
    SuffixWalks(g, round, i);
    var from := round[i..];
    var x, y := if i <= k then k - i else 0, if i <= k then |w| - i else |w| - k;
    assert from[x] == round[i + x] && from[y] == round[i + y];
    assert from[x] == from[y] && x < y;
  }

  lemma {:induction false} WalkStaysRanked(g: Graph, s: seq<Id>, w: seq<Id>, i: nat)
    requires Ranked(g, s) && IsWalk(g, w) && i < |w| && w[0] in s
    ensures w[i] in s
  {
    if i > 0 {
      WalkStaysRanked(g, s, w, i - 1);
      var j := i - 1;
      assert w[i] in g[w[j]];
      RankedEdgeDescends(g, s, w[j], w[i]);
    }
  }

  lemma {:induction false} WalkDescends(g: Graph, s: seq<Id>, w: seq<Id>, a: nat, b: nat)
    requires Ranked(g, s) && IsWalk(g, w) && w != [] && w[0] in s && a < b < |w|
    ensures w[a] in s && w[b] in s && IndexOf(s, w[b]) < IndexOf(s, w[a])
  {
    WalkStaysRanked(g, s, w, a);
    WalkStaysRanked(g, s, w, b - 1);
    var j := b - 1;
    assert w[b] in g[w[j]];
    RankedEdgeDescends(g, s, w[j], w[b]);
    if a < j {
      WalkDescends(g, s, w, a, j);
    }
  }

  /** No listed node of a dependencies-first list leads to a cycle. */
  lemma RankedLeadsNowhere(g: Graph, s: seq<Id>, n: Id)
    requires Ranked(g, s) && n in s
    ensures !LeadsToCycle(g, n)
  {
    forall w | IsWalk(g, w) && w != [] && w[0] == n ensures Distinct(w) {
      forall a, b | 0 <= a < b < |w| ensures w[a] != w[b] {
        WalkDescends(g, s, w, a, b);
      }
    }
  }

  // --- what the search leaves behind ------------------------------------------------------

  /** Everything before `n` in the list is finished. */
  ghost predicate AllFinishedBefore(list: seq<Id>, n: Id, finished: seq<Id>) {
    n in list && forall k :: 0 <= k < IndexOf(list, n) ==> list[k] in finished
  }

  /** From position `from` on, the lasso took the first dependency that was not finished. */
  ghost predicate LedFrom(g: Graph, w: seq<Id>, back: Id, from: nat, finished: seq<Id>)
    requires IsLasso(g, w, back)
  {
    && (forall i, j :: from <= i < j < |w| && j == i + 1 ==> AllFinishedBefore(g[w[i]], w[j], finished))
    && AllFinishedBefore(g[w[|w| - 1]], back, finished)
  }

  lemma FinishedBefore(list: seq<Id>, j: nat, finished: seq<Id>)
    requires j < |list| && forall k :: 0 <= k < j ==> list[k] in finished
    ensures AllFinishedBefore(list, list[j], finished)
  {
  }

  lemma LedFromBefore(g: Graph, w: seq<Id>, back: Id, from: nat, finished: seq<Id>)
    requires IsLasso(g, w, back) && LedFrom(g, w, back, from + 1, finished) && from + 1 < |w|
    requires AllFinishedBefore(g[w[from]], w[from + 1], finished)
    ensures LedFrom(g, w, back, from, finished)
  {
  }

  lemma FinishedIsFirst(g: Graph, list: seq<Id>, n: Id, finished: seq<Id>)
    requires Ranked(g, finished) && AllFinishedBefore(list, n, finished) && LeadsToCycle(g, n)
    ensures FirstOf(g, list, n)
  {
    forall k | 0 <= k < IndexOf(list, n) ensures !LeadsToCycle(g, list[k]) {
      RankedLeadsNowhere(g, finished, list[k]);
    }
  }

  lemma LedIsGreedy(g: Graph, roots: seq<Id>, w: seq<Id>, back: Id, finished: seq<Id>)
    requires Ranked(g, finished) && IsLasso(g, w, back) && LedFrom(g, w, back, 0, finished)
    requires AllFinishedBefore(roots, w[0], finished)
    ensures IsGreedyLasso(g, roots, w, back)
  {
    LassoLeads(g, w, back, 0);
    FinishedIsFirst(g, roots, w[0], finished);
    forall i, j | 0 <= i < j < |w| && j == i + 1 ensures FirstOf(g, g[w[i]], w[j]) {
      LassoLeads(g, w, back, j);
      FinishedIsFirst(g, g[w[i]], w[j], finished);
    }
    LassoLeads(g, w, back, IndexOf(w, back));
    FinishedIsFirst(g, g[w[|w| - 1]], back, finished);
  }
}
