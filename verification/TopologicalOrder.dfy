/**
 Kahn's algorithm with ready nodes taken in id order (engine/dag.py). The loop
 never checks that it emitted every node; that it did is a theorem here, and it
 is exactly acyclicity.
 */
module TopologicalOrder {
  import opened Collections
  import opened Graph
  import opened IdOrder

  /** Not yet listed, with every dependency listed. */
  ghost predicate Ready(g: Graph, done: seq<Id>, n: Id) {
    n in g && n !in done && forall d :: d in g[n] ==> d in done
  }

  /** Each element was ready when it was listed. */
  ghost predicate Respects(g: Graph, order: seq<Id>) {
    forall i {:trigger order[..i]} :: 0 <= i < |order| ==> Ready(g, order[..i], order[i])
  }

  /** Every node exactly once, every dependency before its dependents. */
  ghost predicate IsTopological(g: Graph, order: seq<Id>) {
    Respects(g, order) && forall n :: n in g ==> n in order
  }

  /** Each element was the least ready node when it was listed. */
  ghost predicate Greedy(g: Graph, order: seq<Id>) {
    && Respects(g, order)
    && forall i, n {:trigger Ready(g, order[..i], n)} ::
         0 <= i < |order| && Ready(g, order[..i], n) ==> Leq(order[i], n)
  }

  /** Lexicographic comparison of two orders. */
  predicate OrderLeq(a: seq<Id>, b: seq<Id>) {
    a == [] || (b != [] && (if a[0] == b[0] then OrderLeq(a[1..], b[1..]) else Leq(a[0], b[0])))
  }

  /** The order that is lexicographically below every other one. */
  ghost predicate IsLeastOrder(g: Graph, order: seq<Id>) {
    IsTopological(g, order) && forall other :: IsTopological(g, other) ==> OrderLeq(order, other)
  }

  lemma {:induction false} OrderLeqAntisymmetric(a: seq<Id>, b: seq<Id>)
    requires OrderLeq(a, b) && OrderLeq(b, a)
    ensures a == b
  {
    if a != [] && b != [] {
      if a[0] == b[0] {
        OrderLeqAntisymmetric(a[1..], b[1..]);
        assert a == [a[0]] + a[1..] && b == [b[0]] + b[1..];
      } else {
        LeqAntisymmetric(a[0], b[0]);
      }
    }
  }

  lemma RespectsIsDistinct(g: Graph, order: seq<Id>)
    requires Respects(g, order)
    ensures Distinct(order) && forall n :: n in order ==> n in g
  {
    forall i, j | 0 <= i < j < |order| ensures order[i] != order[j] {
      assert Ready(g, order[..j], order[j]);
      assert order[i] == order[..j][i];
    }
    forall k | 0 <= k < |order| ensures order[k] in g {
      assert Ready(g, order[..k], order[k]);
    }
  }

  lemma RespectsIsRanked(g: Graph, order: seq<Id>)
    requires Respects(g, order)
    ensures Ranked(g, order)
  {
    forall i | 0 <= i < |order| ensures order[i] in g && forall d :: d in g[order[i]] ==> d in order[..i] {
      assert Ready(g, order[..i], order[i]);
    }
  }

  lemma {:induction false} OrderLeqFrom(a: seq<Id>, b: seq<Id>, k: nat)
    requires k <= |a| && k <= |b| && a[..k] == b[..k]
    ensures OrderLeq(a[k..], b[k..]) ==> OrderLeq(a, b)
  {
    if k > 0 {
      assert a[0] == a[..k][0] == b[..k][0] == b[0];
      assert a[1..][..k - 1] == a[..k][1..] == b[..k][1..] == b[1..][..k - 1];
      OrderLeqFrom(a[1..], b[1..], k - 1);
      assert a[1..][k - 1..] == a[k..] && b[1..][k - 1..] == b[k..];
    } else {
      assert a[0..] == a && b[0..] == b;
    }
  }

  /** A greedy order is below every topological order: they agree up to some point, where it is smaller. */
  lemma {:induction false} GreedyIsLeast(g: Graph, order: seq<Id>, other: seq<Id>, k: nat)
    requires Greedy(g, order) && Respects(g, other) && |order| == |other|
    requires k <= |order| && order[..k] == other[..k]
    ensures OrderLeq(order, other)
    decreases |order| - k
  {
    if k == |order| {
      OrderLeqFrom(order, other, k);
    } else if order[k] == other[k] {
      assert order[..k + 1] == order[..k] + [order[k]] && other[..k + 1] == other[..k] + [other[k]];
      GreedyIsLeast(g, order, other, k + 1);
    } else {
      assert Ready(g, other[..k], other[k]);
      assert Leq(order[k], other[k]);
      OrderLeqFrom(order, other, k);
    }
  }

  /** When nothing more is ready, what is missing contains a cycle. */
  lemma ExhaustedIsCompleteOrCyclic(g: Graph, order: seq<Id>)
    requires OrphanFree(g) && Respects(g, order)
    requires forall n :: !Ready(g, order, n)
    ensures (forall n :: n in g ==> n in order) <==> Acyclic(g)
  {
    if forall n :: n in g ==> n in order {
      RespectsIsRanked(g, order);
      RankedImpliesAcyclic(g, order);
    } else {
      var stuck := set n | n in g && n !in order;
      forall n | n in stuck ensures Blocked(g, stuck, n) {
        assert !Ready(g, order, n);
      }
      var n :| n in g && n !in order;
      assert n in stuck;
      StuckSetHasCycle(g, stuck);
    }
  }

  ghost function Members(s: seq<Id>): set<Id> {
    set n | n in s
  }

  /** How many entries of `deps` are not yet emitted. */
  function Unmet(deps: seq<Id>, emitted: set<Id>): nat {
    if deps == [] then 0
    else Unmet(deps[..|deps| - 1], emitted) + if deps[|deps| - 1] in emitted then 0 else 1
  }

  lemma {:induction false} UnmetZero(deps: seq<Id>, emitted: set<Id>)
    ensures Unmet(deps, emitted) == 0 <==> forall d :: d in deps ==> d in emitted
  {
    if deps != [] {
      var front, last := deps[..|deps| - 1], deps[|deps| - 1];
      UnmetZero(front, emitted);
      assert forall d :: d in deps <==> d in front || d == last;
    }
  }

  lemma {:induction false} UnmetNone(deps: seq<Id>)
    ensures Unmet(deps, {}) == |deps|
  {
    if deps != [] {
      UnmetNone(deps[..|deps| - 1]);
    }
  }

  /** Emitting `n` settles as many entries as `n` occurs in the list. */
  lemma {:induction false} UnmetDrops(deps: seq<Id>, emitted: set<Id>, n: Id)
    requires n !in emitted
    ensures Unmet(deps, emitted + {n}) == Unmet(deps, emitted) - multiset(deps)[n]
  {
    if deps != [] {
      var front, last := deps[..|deps| - 1], deps[|deps| - 1];
      UnmetDrops(front, emitted, n);
      assert deps == front + [last];
      assert multiset(deps) == multiset(front) + multiset{last};
    }
  }

  ghost function Occurs(s: seq<Id>, x: Id): nat {
    multiset(s)[x]
  }

  lemma CountAppend(s: seq<Id>, y: Id, x: Id)
    ensures Occurs(s + [y], x) == Occurs(s, x) + if x == y then 1 else 0
  {
    assert multiset(s + [y]) == multiset(s) + multiset{y};
  }

  /** `dependents[d]` lists `c` as often as `c` lists `d`, for the nodes `c` in `seen`, and no other. */
  ghost predicate Inverts(g: Graph, seen: set<Id>, dependents: Graph) {
    && dependents.Keys == g.Keys
    && (forall d, c {:trigger Occurs(dependents[d], c)} ::
          d in g && c in g && c in seen ==> Occurs(dependents[d], c) == Occurs(g[c], d))
    && (forall d, c {:trigger Occurs(dependents[d], c)} :: d in g && c !in seen ==> Occurs(dependents[d], c) == 0)
  }

  /** One row of the reverse adjacency. */
  ghost predicate Dependents(g: Graph, node: Id, row: seq<Id>) {
    && (forall c :: c in g ==> Occurs(row, c) == Occurs(g[c], node))
    && (forall c :: c !in g ==> Occurs(row, c) == 0)
  }

  /** The whole reverse adjacency. */
  ghost predicate Transposes(g: Graph, dependents: Graph) {
    dependents.Keys == g.Keys
    && forall d {:trigger dependents[d]} :: d in g ==> Dependents(g, d, dependents[d])
  }

  /** Appends `cid` to the dependents of each of its dependencies. */
  method LinkDependencies(g: Graph, ghost seen: set<Id>, cid: Id, before: Graph) returns (dependents: Graph)
    requires OrphanFree(g) && seen <= g.Keys && cid in g && cid !in seen && Inverts(g, seen, before)
    ensures Inverts(g, seen + {cid}, dependents)
  {
    dependents := before;
    var deps := g[cid];
    for j := 0 to |deps|
      invariant dependents.Keys == g.Keys
      invariant forall d, c :: d in g && c != cid ==> Occurs(dependents[d], c) == Occurs(before[d], c)
      invariant forall d {:trigger Occurs(dependents[d], cid)} ::
                  d in g ==> Occurs(dependents[d], cid) == Occurs(deps[..j], d)
    {
      var dep := deps[j];
      assert dep in g[cid];
      assert deps[..j + 1] == deps[..j] + [dep];
      forall c ensures Occurs(dependents[dep] + [cid], c) == Occurs(dependents[dep], c) + if c == cid then 1 else 0 {
        CountAppend(dependents[dep], cid, c);
      }
      forall d ensures Occurs(deps[..j + 1], d) == Occurs(deps[..j], d) + if d == dep then 1 else 0 {
        CountAppend(deps[..j], dep, d);
      }
      dependents := dependents[dep := dependents[dep] + [cid]];
    }
    assert deps[..|deps|] == deps;
  }

  lemma InvertsNone(g: Graph, dependents: Graph)
    requires dependents.Keys == g.Keys && forall d :: d in g ==> dependents[d] == []
    ensures Inverts(g, {}, dependents)
  {
  }

  lemma InvertsAll(g: Graph, dependents: Graph)
    requires Inverts(g, g.Keys, dependents)
    ensures Transposes(g, dependents)
  {
  }

  /** The reverse adjacency and the number of unmet dependencies of each node. */
  method BuildTables(g: Graph) returns (dependents: Graph, indegree: map<Id, int>)
    requires OrphanFree(g)
    ensures Transposes(g, dependents)
    ensures indegree.Keys == g.Keys && forall c :: c in g ==> indegree[c] == |g[c]|
  {
    dependents := map cid | cid in g :: [];
    indegree := map[];
    var todo := g.Keys;
    ghost var seen := {};
    InvertsNone(g, dependents);
    while todo != {}
      invariant seen + todo == g.Keys && seen !! todo
      invariant Inverts(g, seen, dependents)
      invariant indegree.Keys == seen
      invariant forall c :: c in seen ==> indegree[c] == |g[c]|
    {
      var cid :| cid in todo;
      indegree := indegree[cid := |g[cid]|];
      dependents := LinkDependencies(g, seen, cid, dependents);
      todo, seen := todo - {cid}, seen + {cid};
    }
    assert seen == g.Keys;
    InvertsAll(g, dependents);
  }

  /** `indegree` counts unmet dependencies and `ready` holds the unlisted nodes that have none. */
  ghost predicate Balanced(g: Graph, order: seq<Id>, indegree: map<Id, int>, ready: seq<Id>) {
    && indegree.Keys == g.Keys
    && (forall c :: c in g ==> indegree[c] == Unmet(g[c], Members(order)))
    && (forall c :: c in g && c in order ==> indegree[c] == 0)
    && Distinct(ready)
    && (forall c :: c in ready <==> c in g && c !in order && indegree[c] == 0)
  }

  lemma BalancedReady(g: Graph, order: seq<Id>, indegree: map<Id, int>, ready: seq<Id>)
    requires Balanced(g, order, indegree, ready)
    ensures forall n :: n in ready <==> Ready(g, order, n)
  {
    forall n | n in g {
      UnmetZero(g[n], Members(order));
    }
  }

  lemma CountPrefix(s: seq<Id>, j: nat, x: Id)
    requires j <= |s|
    ensures Occurs(s[..j], x) <= Occurs(s, x)
  {
    assert s == s[..j] + s[j..];
    assert multiset(s) == multiset(s[..j]) + multiset(s[j..]);
  }

  lemma BalancedBefore(g: Graph, order: seq<Id>, indegree: map<Id, int>, node: Id, ready: seq<Id>)
    requires Balanced(g, order, indegree, [node] + ready)
    ensures Distinct(ready) && node !in ready && node in g && node !in order && indegree[node] == 0
    ensures forall c :: c in ready <==> c in g && c !in order && c != node && indegree[c] == 0
  {
    var all := [node] + ready;
    assert all[0] == node;
    forall i | 0 <= i < |ready| ensures ready[i] == all[i + 1] && ready[i] != node {
    }
    assert forall c :: c in all <==> c == node || c in ready;
    forall i, j | 0 <= i < j < |ready| ensures ready[i] != ready[j] {
      assert all[i + 1] != all[j + 1];
    }
  }

  /** Subtracting the occurrences of `node` leaves the counts of the longer order. */
  lemma BalancedAfter(g: Graph, order: seq<Id>, before: map<Id, int>, node: Id, ready: seq<Id>,
                      deps: seq<Id>, indegree: map<Id, int>)
    requires Balanced(g, order, before, [node] + ready)
    requires forall c :: c in g ==> Occurs(deps, c) == Occurs(g[c], node)
    requires indegree.Keys == g.Keys && forall c :: c in g ==> indegree[c] == before[c] - Occurs(deps, c)
    ensures forall c :: c in g ==> indegree[c] == Unmet(g[c], Members(order + [node]))
    ensures forall c :: c in g && c in order + [node] ==> indegree[c] == 0
  {
    BalancedBefore(g, order, before, node, ready);
    assert Members(order + [node]) == Members(order) + {node};
    forall c | c in g ensures indegree[c] == Unmet(g[c], Members(order + [node])) {
      UnmetDrops(g[c], Members(order), node);
    }
  }

  /** Takes one from each counter per occurrence; a counter that reaches zero joins the ready list. */
  method CountDown(deps: seq<Id>, before: map<Id, int>, waiting: seq<Id>)
    returns (indegree: map<Id, int>, ready: seq<Id>)
    requires forall c :: c in deps ==> c in before && Occurs(deps, c) <= before[c] && c !in waiting
    requires Distinct(waiting)
    ensures indegree.Keys == before.Keys
    ensures forall c :: c in before ==> indegree[c] == before[c] - Occurs(deps, c)
    ensures Distinct(ready)
    ensures forall c :: c in ready <==> c in waiting || (c in deps && indegree[c] == 0)
  {
    indegree, ready := before, waiting;
    for j := 0 to |deps|
      invariant indegree.Keys == before.Keys
      invariant forall c :: c in before ==> indegree[c] == before[c] - Occurs(deps[..j], c)
      invariant Distinct(ready)
      invariant forall c :: c in ready <==> c in waiting || (c in deps[..j] && indegree[c] == 0)
    {
      var dependent := deps[j];
      assert deps[..j + 1] == deps[..j] + [dependent];
      forall c ensures Occurs(deps[..j + 1], c) == Occurs(deps[..j], c) + if c == dependent then 1 else 0 {
        CountAppend(deps[..j], dependent, c);
      }
      CountPrefix(deps, j + 1, dependent);
      assert dependent in deps && dependent !in ready;
      indegree := indegree[dependent := indegree[dependent] - 1];
      if indegree[dependent] == 0 {
        ready := ready + [dependent];
      }
    }
    assert deps[..|deps|] == deps;
  }

  /** The counters can be counted down: each occurrence of a dependent is one of its unmet dependencies. */
  lemma CanCountDown(g: Graph, order: seq<Id>, node: Id, deps: seq<Id>, before: map<Id, int>, waiting: seq<Id>)
    requires Balanced(g, order, before, [node] + waiting) && Dependents(g, node, deps)
    ensures Distinct(waiting)
    ensures forall c :: c in deps ==> c in before && Occurs(deps, c) <= before[c] && c !in waiting
  {
    BalancedBefore(g, order, before, node, waiting);
    var finally := map c | c in g :: before[c] - Occurs(deps, c);
    BalancedAfter(g, order, before, node, waiting, deps, finally);
    forall c | c in deps ensures c in before && Occurs(deps, c) <= before[c] && c !in waiting {
      assert Occurs(deps, c) > 0;
      assert finally[c] >= 0;
    }
  }

  lemma CountedDown(g: Graph, order: seq<Id>, node: Id, deps: seq<Id>, before: map<Id, int>, waiting: seq<Id>,
                    indegree: map<Id, int>, ready: seq<Id>)
    requires Balanced(g, order, before, [node] + waiting) && Dependents(g, node, deps)
    requires indegree.Keys == before.Keys && forall c :: c in before ==> indegree[c] == before[c] - Occurs(deps, c)
    requires Distinct(ready) && forall c :: c in ready <==> c in waiting || (c in deps && indegree[c] == 0)
    ensures Balanced(g, order + [node], indegree, ready)
  {
    BalancedBefore(g, order, before, node, waiting);
    BalancedAfter(g, order, before, node, waiting, deps, indegree);
    forall c ensures c in ready <==> c in g && c !in order + [node] && indegree[c] == 0 {
      assert c !in deps ==> Occurs(deps, c) == 0;
    }
  }

  /** Emits `node`: counts down its dependents and appends those that become ready. */
  method Release(g: Graph, ghost order: seq<Id>, node: Id, deps: seq<Id>, before: map<Id, int>, waiting: seq<Id>)
    returns (indegree: map<Id, int>, ready: seq<Id>)
    requires Balanced(g, order, before, [node] + waiting)
    requires Dependents(g, node, deps)
    ensures Balanced(g, order + [node], indegree, ready)
  {
    CanCountDown(g, order, node, deps, before, waiting);
    indegree, ready := CountDown(deps, before, waiting);
    CountedDown(g, order, node, deps, before, waiting, indegree, ready);
  }

  lemma BalancedStart(g: Graph, indegree: map<Id, int>, ready: seq<Id>)
    requires indegree.Keys == g.Keys && forall c :: c in g ==> indegree[c] == |g[c]|
    requires Distinct(ready) && forall c :: c in ready <==> c in g && indegree[c] == 0
    ensures Balanced(g, [], indegree, ready)
  {
    assert Members([]) == {};
    forall c | c in g ensures indegree[c] == Unmet(g[c], Members([])) {
      UnmetNone(g[c]);
    }
  }

  /** What the loop of `_compute_order` keeps. */
  ghost predicate LoopInvariant(g: Graph, order: seq<Id>, indegree: map<Id, int>, ready: seq<Id>) {
    Greedy(g, order) && Balanced(g, order, indegree, ready) && IsSorted(ready)
  }

  lemma SortKeepsBalanced(g: Graph, order: seq<Id>, indegree: map<Id, int>, ready: seq<Id>)
    requires Balanced(g, order, indegree, ready)
    ensures Balanced(g, order, indegree, Sorted(ready))
  {
    SortedKeepsMembers(ready);
  }

  /** The head of the sorted ready list is the least ready node. */
  lemma LeastReady(g: Graph, order: seq<Id>, indegree: map<Id, int>, ready: seq<Id>)
    requires Balanced(g, order, indegree, ready) && IsSorted(ready) && ready != []
    ensures Ready(g, order, ready[0]) && forall n :: Ready(g, order, n) ==> Leq(ready[0], n)
  {
    BalancedReady(g, order, indegree, ready);
    forall n | Ready(g, order, n) ensures Leq(ready[0], n) {
      LeqReflexive(n);
      assert n in ready;
    }
    assert ready[0] in ready;
  }

  lemma GreedyExtends(g: Graph, order: seq<Id>, node: Id)
    requires Greedy(g, order) && Ready(g, order, node)
    requires forall n :: Ready(g, order, n) ==> Leq(node, n)
    ensures Greedy(g, order + [node])
    ensures |order| < |g|
  {
    var longer := order + [node];
    forall i | 0 <= i < |longer|
      ensures Ready(g, longer[..i], longer[i])
      ensures forall n :: Ready(g, longer[..i], n) ==> Leq(longer[i], n)
    {
      assert longer[..i] == order[..i];
      if i == |order| {
        assert order[..i] == order;
      }
    }
    RespectsIsDistinct(g, longer);
    DistinctFits(longer, g.Keys);
  }

  lemma HeadExtends(g: Graph, order: seq<Id>, indegree: map<Id, int>, ready: seq<Id>)
    requires ready != [] && LoopInvariant(g, order, indegree, ready)
    ensures ready[0] in g && Greedy(g, order + [ready[0]]) && |order| < |g|
  {
    LeastReady(g, order, indegree, ready);
    GreedyExtends(g, order, ready[0]);
  }

  lemma RowOf(g: Graph, dependents: Graph, node: Id)
    requires Transposes(g, dependents) && node in g
    ensures node in dependents && Dependents(g, node, dependents[node])
  {
  }

  lemma HeadCanBeEmitted(g: Graph, dependents: Graph, order: seq<Id>, indegree: map<Id, int>, ready: seq<Id>)
    requires ready != [] && LoopInvariant(g, order, indegree, ready) && Transposes(g, dependents)
    ensures var node := ready[0];
            && node in dependents && Dependents(g, node, dependents[node])
            && Balanced(g, order, indegree, [node] + ready[1..])
            && Greedy(g, order + [node]) && |order| < |g|
  {
    HeadExtends(g, order, indegree, ready);
    RowOf(g, dependents, ready[0]);
    HeadAndTail(ready);
  }

  /** One iteration: pops the head of the ready list and releases its dependents. */
  method EmitNext(g: Graph, dependents: Graph, before: seq<Id>, indegree0: map<Id, int>, ready0: seq<Id>)
    returns (order: seq<Id>, indegree: map<Id, int>, ready: seq<Id>)
    requires ready0 != [] && LoopInvariant(g, before, indegree0, ready0)
    requires Transposes(g, dependents)
    ensures LoopInvariant(g, order, indegree, ready)
    ensures order == before + [ready0[0]] && |order| <= |g|
  {
    var node := ready0[0];
    HeadCanBeEmitted(g, dependents, before, indegree0, ready0);
    order := before + [node];
    indegree, ready := Release(g, before, node, dependents[node], indegree0, ready0[1..]);
    SortKeepsBalanced(g, order, indegree, ready);
    ready := Sorted(ready);
  }

  /** A topological order exists only for acyclic graphs, and lists each node once. */
  lemma TopologicalHasAcyclicLength(g: Graph, other: seq<Id>)
    requires IsTopological(g, other)
    ensures Acyclic(g) && |other| == |g|
  {
    RespectsIsRanked(g, other);
    RankedImpliesAcyclic(g, other);
    RespectsIsDistinct(g, other);
    DistinctCovers(other, g.Keys);
  }

  /** What a greedy order is worth once no node is ready. */
  lemma ExhaustedOrder(g: Graph, order: seq<Id>)
    requires OrphanFree(g) && Greedy(g, order) && forall n :: !Ready(g, order, n)
    ensures |order| == |g| <==> Acyclic(g)
    ensures Acyclic(g) ==> IsTopological(g, order)
    ensures forall other :: IsTopological(g, other) ==> OrderLeq(order, other)
  {
    ExhaustedIsCompleteOrCyclic(g, order);
    RespectsIsDistinct(g, order);
    DistinctCovers(order, g.Keys);
    forall other | IsTopological(g, other) ensures OrderLeq(order, other) {
      TopologicalHasAcyclicLength(g, other);
      GreedyIsLeast(g, order, other, 0);
    }
  }

  method ComputeOrder(g: Graph) returns (order: seq<Id>)
    requires OrphanFree(g)
    ensures Greedy(g, order)
    ensures |order| == |g| <==> Acyclic(g)
    ensures Acyclic(g) ==> IsTopological(g, order)
    ensures forall other :: IsTopological(g, other) ==> OrderLeq(order, other)
  {
    var dependents, indegree := BuildTables(g);
    var zero := set c | c in indegree && indegree[c] == 0;
    var ready := SortedSet(zero);
    order := [];
    BalancedStart(g, indegree, ready);
    while ready != []
      invariant LoopInvariant(g, order, indegree, ready)
      decreases |g| - |order|
    {
      order, indegree, ready := EmitNext(g, dependents, order, indegree, ready);
    }
    BalancedReady(g, order, indegree, ready);
    ExhaustedOrder(g, order);
  }

  /** Two least topological orders are the same, so the result depends on the graph alone. */
  lemma LeastOrderIsUnique(g: Graph, a: seq<Id>, b: seq<Id>)
    requires IsLeastOrder(g, a) && IsLeastOrder(g, b)
    ensures a == b
  {
    OrderLeqAntisymmetric(a, b);
  }
}
