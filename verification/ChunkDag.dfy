/**
 Construction of a validated chunk DAG from a flat chunk list (engine/dag.py).
 Chunk ids become dictionary keys, so a later chunk replaces an earlier one with
 the same id; each dependency list is sorted.
 */
module ChunkDag {
  import opened Wrappers
  import opened IdOrder
  import opened Graph
  import opened TopologicalOrder
  import CycleFinder
  import FirstCycle

  datatype ChunkSpec = ChunkSpec(id: Id, dependencies: seq<Id>)

  datatype ChunkDag = ChunkDag(adjacency: Graph, order: seq<Id>)

  datatype DagError =
    | OrphanDependency(chunk: Id, dependency: Id)
    | CyclicDependency(first: Id, second: Id, cycle: seq<Id>)

  /** The adjacency dictionary of a chunk list. */
  function AdjacencyOf(chunks: seq<ChunkSpec>): Graph {
    if chunks == [] then map[] else
      var last := chunks[|chunks| - 1];
      AdjacencyOf(chunks[..|chunks| - 1])[last.id := Sorted(last.dependencies)]
  }

  /** No later chunk has this one's id. */
  ghost predicate IsLastOfId(chunks: seq<ChunkSpec>, i: nat)
    requires i < |chunks|
  {
    forall j :: i < j < |chunks| ==> chunks[j].id != chunks[i].id
  }

  /** The last chunk with an id gives its dependencies, sorted. */
  lemma {:induction false} LastChunkWins(chunks: seq<ChunkSpec>, i: nat)
    requires i < |chunks| && IsLastOfId(chunks, i)
    ensures chunks[i].id in AdjacencyOf(chunks)
    ensures AdjacencyOf(chunks)[chunks[i].id] == Sorted(chunks[i].dependencies)
  {
    var front, last := chunks[..|chunks| - 1], |chunks| - 1;
    if i < last {
      assert chunks[last].id != chunks[i].id;
      assert front[i] == chunks[i];
      LastChunkWins(front, i);
    }
  }

  /** There is a node for every id and for nothing else. */
  lemma {:induction false} NodesAreIds(chunks: seq<ChunkSpec>, id: Id)
    ensures id in AdjacencyOf(chunks) <==> exists c :: c in chunks && c.id == id
  {
    if chunks != [] {
      var front, last := chunks[..|chunks| - 1], chunks[|chunks| - 1];
      NodesAreIds(front, id);
      assert forall c :: c in chunks <==> c in front || c == last;
    }
  }

  lemma AdjacencyOfDistinct(chunks: seq<ChunkSpec>)
    requires forall i, j :: 0 <= i < j < |chunks| ==> chunks[i].id != chunks[j].id
    ensures forall id :: id in AdjacencyOf(chunks) <==> exists c :: c in chunks && c.id == id
    ensures forall c :: c in chunks ==> AdjacencyOf(chunks)[c.id] == Sorted(c.dependencies)
  {
    forall id ensures id in AdjacencyOf(chunks) <==> exists c :: c in chunks && c.id == id {
      NodesAreIds(chunks, id);
    }
    forall c | c in chunks ensures c.id in AdjacencyOf(chunks) && AdjacencyOf(chunks)[c.id] == Sorted(c.dependencies) {
      var i :| 0 <= i < |chunks| && chunks[i] == c;
      LastChunkWins(chunks, i);
    }
  }

  /** With distinct ids the graph, and hence the order, does not depend on the order of the list. */
  lemma InputOrderIsIrrelevant(chunks: seq<ChunkSpec>, shuffled: seq<ChunkSpec>)
    requires forall i, j :: 0 <= i < j < |chunks| ==> chunks[i].id != chunks[j].id
    requires forall i, j :: 0 <= i < j < |shuffled| ==> shuffled[i].id != shuffled[j].id
    requires forall c :: c in chunks <==> c in shuffled
    ensures AdjacencyOf(chunks) == AdjacencyOf(shuffled)
  {
    AdjacencyOfDistinct(chunks);
    AdjacencyOfDistinct(shuffled);
    forall id | id in AdjacencyOf(chunks)
      ensures id in AdjacencyOf(shuffled) && AdjacencyOf(chunks)[id] == AdjacencyOf(shuffled)[id]
    {
      var c :| c in chunks && c.id == id;
    }
    assert AdjacencyOf(chunks).Keys == AdjacencyOf(shuffled).Keys;
  }

  ghost predicate NoOrphanIn(g: Graph, n: Id) {
    n in g && forall d :: d in g[n] ==> d in g
  }

  /** The first of a list that is not a node. */
  ghost predicate IsFirstMissing(g: Graph, deps: seq<Id>, d: Id) {
    d in deps && d !in g && forall k :: 0 <= k < IndexOf(deps, d) ==> deps[k] in g
  }

  /** The first dependency of `node` that is not a node. */
  method FirstOrphan(g: Graph, node: Id) returns (missing: Option<Id>)
    requires node in g
    ensures missing.None? <==> NoOrphanIn(g, node)
    ensures missing.Some? ==> IsFirstMissing(g, g[node], missing.value)
  {
    var deps := g[node];
    for j := 0 to |deps|
      invariant forall k :: 0 <= k < j ==> deps[k] in g
    {
      if deps[j] !in g {
        return Some(deps[j]);
      }
    }
    missing := None;
  }

  lemma FirstBadNode(g: Graph, nodes: seq<Id>, i: nat)
    requires IsSorted(nodes) && (forall n :: n in g ==> n in nodes) && i < |nodes|
    requires forall k :: 0 <= k < i ==> NoOrphanIn(g, nodes[k])
    ensures forall n :: n in g && !NoOrphanIn(g, n) ==> Leq(nodes[i], n)
  {
    forall n | n in g && !NoOrphanIn(g, n) ensures Leq(nodes[i], n) {
      var k :| 0 <= k < |nodes| && nodes[k] == n;
      LeqReflexive(n);
    }
  }

  /** Reports the first unknown dependency of the least chunk that has one. */
  method ValidateOrphans(g: Graph) returns (orphan: Option<(Id, Id)>)
    ensures orphan.None? <==> OrphanFree(g)
    ensures orphan.Some? ==> orphan.value.0 in g && IsFirstMissing(g, g[orphan.value.0], orphan.value.1)
    ensures orphan.Some? ==> forall n :: n in g && !NoOrphanIn(g, n) ==> Leq(orphan.value.0, n)
  {
    var nodes := SortedSet(g.Keys);
    for i := 0 to |nodes|
      invariant forall k :: 0 <= k < i ==> NoOrphanIn(g, nodes[k])
    {
      var missing := FirstOrphan(g, nodes[i]);
      if missing.Some? {
        FirstBadNode(g, nodes, i);
        return Some((nodes[i], missing.value));
      }
    }
    forall n, d {:trigger d in g[n]} | n in g && d in g[n] ensures d in g {
      var k :| 0 <= k < |nodes| && nodes[k] == n;
      assert NoOrphanIn(g, nodes[k]);
    }
    orphan := None;
  }

  /** The constructor: exactly the orphan-free acyclic lists are accepted. */
  method Build(chunks: seq<ChunkSpec>) returns (dag: Result<ChunkDag, DagError>)
    ensures dag.Ok? <==> OrphanFree(AdjacencyOf(chunks)) && Acyclic(AdjacencyOf(chunks))
    ensures dag.Ok? ==> dag.value.adjacency == AdjacencyOf(chunks)
    ensures dag.Ok? ==> IsLeastOrder(dag.value.adjacency, dag.value.order)
    ensures dag.Err? ==> (dag.error.OrphanDependency? <==> !OrphanFree(AdjacencyOf(chunks)))
    ensures dag.Err? && dag.error.OrphanDependency? ==>
      && dag.error.chunk in AdjacencyOf(chunks)
      && IsFirstMissing(AdjacencyOf(chunks), AdjacencyOf(chunks)[dag.error.chunk], dag.error.dependency)
      && forall n :: n in AdjacencyOf(chunks) && !NoOrphanIn(AdjacencyOf(chunks), n) ==> Leq(dag.error.chunk, n)
    ensures dag.Err? && dag.error.CyclicDependency? ==>
      && IsCycle(AdjacencyOf(chunks), dag.error.cycle) && Distinct(dag.error.cycle)
      && FirstCycle.IsFirstCycle(AdjacencyOf(chunks), dag.error.cycle)
      && dag.error.first == dag.error.cycle[0]
      && dag.error.second == dag.error.cycle[if |dag.error.cycle| == 1 then 0 else 1]
  {
    var g := AdjacencyOf(chunks);
    var orphan := ValidateOrphans(g);
    if orphan.Some? {
      return Err(OrphanDependency(orphan.value.0, orphan.value.1));
    }
    var cycle := CycleFinder.FindCycle(g);
    if cycle != [] {
      var second := if |cycle| == 1 then cycle[0] else cycle[1];
      return Err(CyclicDependency(cycle[0], second, cycle));
    }
    var order := ComputeOrder(g);
    dag := Ok(ChunkDag(g, order));
  }
}
