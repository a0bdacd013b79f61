/**
 The three-colour depth-first search that rejects cyclic chunk graphs
 (engine/dag.py). The source keeps `color` and `path` in the closure of a
 recursive `visit`; here they are the fields of a class.
 */
module CycleFinder {
  import opened Collections
  import opened FirstCycle
  import opened Graph
  import opened IdOrder

  datatype Color = White | Grey | Black

  /** Grey nodes are the path, which is a walk; black nodes are ranked. */
  ghost predicate Consistent(g: Graph, color: map<Id, Color>, path: seq<Id>, finished: seq<Id>) {
    && color.Keys == g.Keys
    && Distinct(path)
    && IsWalk(g, path)
    && (forall n :: n in g ==> (color[n].Grey? <==> n in path))
    && (forall n :: n in g ==> (color[n].Black? <==> n in finished))
    && Ranked(g, finished)
  }

  lemma EnterKeepsConsistent(g: Graph, color: map<Id, Color>, path: seq<Id>, finished: seq<Id>, node: Id)
    requires Consistent(g, color, path, finished)
    requires node in g && color[node].White?
    requires path != [] ==> node in g[path[|path| - 1]]
    ensures Consistent(g, color[node := Grey], path + [node], finished)
  {
    assert forall n :: n in path + [node] <==> n in path || n == node;
  }

  lemma LeaveKeepsConsistent(g: Graph, color: map<Id, Color>, path: seq<Id>, finished: seq<Id>, node: Id)
    requires Consistent(g, color, path + [node], finished)
    requires node in g && forall d :: d in g[node] ==> d in finished
    ensures Consistent(g, color[node := Black], path, finished + [node])
  {
    var whole := path + [node];
    assert whole[|path|] == node && forall i :: 0 <= i < |path| ==> whole[i] == path[i];
    assert forall n :: n in whole <==> n in path || n == node;
    assert forall n :: n in finished + [node] <==> n in finished || n == node;
    assert Ranked(g, finished + [node]) by {
      var longer := finished + [node];
      forall i | 0 <= i < |longer| ensures longer[i] in g && forall d :: d in g[longer[i]] ==> d in longer[..i] {
        if i < |finished| {
          assert longer[..i] == finished[..i];
        } else {
          assert longer[..i] == finished;
        }
      }
    }
  }

  lemma TailIsWalk(g: Graph, path: seq<Id>, k: nat)
    requires IsWalk(g, path) && Distinct(path) && k < |path|
    ensures IsWalk(g, path[k..]) && Distinct(path[k..])
    ensures path[k..][0] == path[k] && path[k..][|path| - 1 - k] == path[|path| - 1]
  {
    forall i, j | 0 <= i < j < |path[k..]| && j == i + 1 ensures path[k..][j] in g[path[k..][i]] {
      assert path[k + j] in g[path[k + i]];
    }
  }

  ghost function WhiteSet(color: map<Id, Color>): set<Id> {
    set n | n in color && color[n].White?
  }

  ghost function BlackSet(color: map<Id, Color>): set<Id> {
    set n | n in color && color[n].Black?
  }

  lemma EnterColors(color: map<Id, Color>, node: Id)
    requires node in color && color[node].White?
    ensures WhiteSet(color[node := Grey]) == WhiteSet(color) - {node}
    ensures BlackSet(color[node := Grey]) == BlackSet(color)
  {
  }

  lemma LeaveColors(color: map<Id, Color>, node: Id)
    requires node in color && color[node].Grey?
    ensures WhiteSet(color[node := Black]) == WhiteSet(color)
    ensures BlackSet(color[node := Black]) == BlackSet(color) + {node}
  {
  }

  class CycleFinder {
    const g: Graph
    var color: map<Id, Color>
    var path: seq<Id>
    // The black nodes in the order they were finished.
    ghost var finished: seq<Id>

    ghost predicate Valid()
      reads this
    {
      OrphanFree(g) && Consistent(g, color, path, finished)
    }

    ghost function Whites(): set<Id>
      reads this
    {
      WhiteSet(color)
    }

    ghost function Blacks(): set<Id>
      reads this
    {
      BlackSet(color)
    }

    constructor (g: Graph)
      requires OrphanFree(g)
      ensures Valid() && this.g == g && path == []
      ensures forall n :: n in g ==> color[n].White?
    {
      this.g := g;
      this.color := map n | n in g :: White;
      this.path := [];
      this.finished := [];
    }

    /** Puts a white node on the path. */
    method Enter(node: Id)
      requires Valid() && node in g && color[node].White?
      requires path != [] ==> node in g[path[|path| - 1]]
      modifies this
      ensures Valid() && path == old(path) + [node] && finished == old(finished)
      ensures Whites() == old(Whites()) - {node} && Blacks() == old(Blacks()) && node in old(Whites())
    {
      EnterKeepsConsistent(g, color, path, finished, node);
      EnterColors(color, node);
      color := color[node := Grey];
      path := path + [node];
    }

    /** Takes a node off the path when all its dependencies are finished. */
    method Leave(ghost front: seq<Id>, node: Id)
      requires Valid() && path == front + [node] && node in g && forall d :: d in g[node] ==> d in Blacks()
      modifies this
      ensures Valid() && path == front && Whites() == old(Whites()) && Blacks() == old(Blacks()) + {node}
    {
      LeaveKeepsConsistent(g, color, front, finished, node);
      assert node in path;
      LeaveColors(color, node);
      FrontOfSnoc(front, node);
      path := path[..|path| - 1];
      color := color[node := Black];
      finished := finished + [node];
    }

    /** The search has found the cycle that its path closes: it ends in a lasso that was led from position `from`. */
    ghost predicate Found(found: seq<Id>, back: Id, from: nat)
      reads this
    {
      IsLasso(g, path, back) && found == Tail(path, back) && LedFrom(g, path, back, from, finished)
    }

    /** Looks at a dependency of the last path node, all the dependencies before it being finished. */
    method Look(ghost node: Id, ghost deps: seq<Id>, ghost j: nat, dep: Id) returns (found: seq<Id>, ghost back: Id)
      requires Valid() && path != [] && node == path[|path| - 1] && deps == g[node] && j < |deps| && dep == deps[j]
      requires forall k :: 0 <= k < j ==> deps[k] in Blacks()
      modifies this
      ensures Valid() && old(Blacks()) <= Blacks() && Whites() <= old(Whites())
      ensures found == [] ==> path == old(path) && dep in Blacks()
      ensures found != [] ==> old(path) <= path && Found(found, back, |old(path)| - 1)
      decreases Whites(), 1
    {
      found, back := [], dep;
      FinishedBefore(deps, j, finished);
      if color[dep].Grey? {
        // Back edge: the cycle is the tail of the path from dep.
        return path[IndexOf(path, dep)..], dep;
      }
      if color[dep].White? {
        found, back := Visit(dep);
        if found != [] {
          FinishedBefore(deps, j, finished);
          LedFromBefore(g, path, back, |old(path)| - 1, finished);
        }
      }
    }

    /** Searches from a white node; either finishes it or returns the cycle it is first led to. */
    method Visit(node: Id) returns (found: seq<Id>, ghost back: Id)
      requires Valid() && node in g && color[node].White?
      requires path != [] ==> node in g[path[|path| - 1]]
      modifies this
      ensures Valid() && old(Blacks()) <= Blacks() && Whites() <= old(Whites())
      ensures found == [] ==> path == old(path) && node in Blacks()
      ensures found != [] ==> old(path) + [node] <= path && Found(found, back, |old(path)|)
      decreases Whites(), 0
    {
      Enter(node);
      back := node;
      var deps := g[node];
      var j := 0;
      while j < |deps|
        invariant 0 <= j <= |deps|
        invariant Valid() && path == old(path) + [node]
        invariant Whites() <= old(Whites()) - {node}
        invariant old(Blacks()) <= Blacks()
        invariant forall k :: 0 <= k < j ==> deps[k] in Blacks()
      {
        found, back := Look(node, deps, j, deps[j]);
        if found != [] {
          return;
        }
        j := j + 1;
      }
      Leave(old(path), node);
      found := [];
    }

    /** Visits a node of the outer loop unless it is finished already. */
    method Search(node: Id) returns (found: seq<Id>, ghost back: Id)
      requires Valid() && node in g && path == []
      modifies this
      ensures Valid() && old(Blacks()) <= Blacks()
      ensures found == [] ==> path == [] && node in Blacks()
      ensures found != [] ==> [node] <= path && Found(found, back, 0)
    {
      found, back := [], node;
      if color[node].White? {
        found, back := Visit(node);
      }
    }

    /** The outer loop. */
    method SearchAll(nodes: seq<Id>) returns (found: seq<Id>, ghost back: Id)
      requires Valid() && path == [] && forall n :: n in nodes ==> n in g
      modifies this
      ensures Valid()
      ensures found == [] ==> forall n :: n in nodes ==> n in Blacks()
      ensures found != [] ==> IsGreedyLasso(g, nodes, path, back) && found == Tail(path, back)
    {
      for i := 0 to |nodes|
        invariant Valid() && path == []
        invariant forall k :: 0 <= k < i ==> nodes[k] in Blacks()
      {
        found, back := Search(nodes[i]);
        if found != [] {
          FinishedBefore(nodes, i, finished);
          LedIsGreedy(g, nodes, path, back, finished);
          return;
        }
      }
      found, back := [], Id("");
    }
  }

  /** The first cycle of a graph is a cycle of distinct nodes. */
  lemma FirstCycleIsCycle(g: Graph, roots: seq<Id>, w: seq<Id>, back: Id)
    requires IsGreedyLasso(g, roots, w, back)
    ensures Tail(w, back) != [] && IsCycle(g, Tail(w, back)) && Distinct(Tail(w, back))
  {
    TailIsWalk(g, w, IndexOf(w, back));
  }

  /**
   Returns a cycle as a node path, or the empty list when there is none. Which cycle it is, is a function of
   the graph.
   */
  method FindCycle(g: Graph) returns (cycle: seq<Id>)
    requires OrphanFree(g)
    ensures cycle == [] <==> Acyclic(g)
    ensures cycle != [] ==> IsCycle(g, cycle) && Distinct(cycle)
    ensures cycle != [] ==> IsFirstCycle(g, cycle)
  {
    var finder := new CycleFinder(g);
    var nodes := SortedSet(g.Keys);
    ghost var back: Id;
    cycle, back := finder.SearchAll(nodes);
    if cycle == [] {
      RankedImpliesAcyclic(g, finder.finished);
    } else {
      FirstCycleIsCycle(g, nodes, finder.path, back);
    }
  }
}
