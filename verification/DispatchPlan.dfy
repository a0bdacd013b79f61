/**
 The dispatch planner (scripts/dispatch_plan.py): waves of ready tasks, each
 split into tasks with disjoint files and tasks that must be serialized. The
 parsed phase is the input.
 */
module DispatchPlan {
  import opened Collections
  import opened Graph
  import opened IdOrder

  type File = string

  /** The tasks of a phase with their deliverable files, and the prerequisite cells that could be read. */
  datatype Phase = Phase(files: map<Id, set<File>>, prereqs: map<Id, seq<Id>>)

  datatype Wave = Wave(index: nat, ready: seq<Id>, parallel: seq<Id>, serialized: seq<Id>, reason: string)

  function Prereqs(p: Phase, t: Id): seq<Id> {
    if t in p.prereqs then p.prereqs[t] else []
  }

  /** In-phase prerequisites must be done; others are taken as done. */
  predicate IsReady(p: Phase, done: set<Id>, t: Id) {
    forall d :: d in Prereqs(p, t) ==> d !in p.files || d in done
  }

  function Unsatisfied(p: Phase, done: set<Id>): set<Id> {
    p.files.Keys - done
  }

  function ReadySet(p: Phase, done: set<Id>): set<Id> {
    set t | t in Unsatisfied(p, done) && IsReady(p, done, t)
  }

  /** The ready sets of the waves, in order; an empty one is the last. */
  function Layers(p: Phase, done: set<Id>): seq<set<Id>>
    decreases Unsatisfied(p, done)
  {
    if Unsatisfied(p, done) == {} then []
    else
      var ready := ReadySet(p, done);
      if ready == {} then [{}]
      else
        assert Unsatisfied(p, done + ready) < Unsatisfied(p, done) by {
          var t :| t in ready;
          assert t !in Unsatisfied(p, done + ready);
        }
        [ready] + Layers(p, done + ready)
  }

  // --- the trailing empty wave ----------------------------------------------------

  function Among(s: seq<Id>, keep: set<Id>): (r: seq<Id>)
    ensures forall d :: d in r <==> d in s && d in keep
  {
    if s == [] then [] else (if s[0] in keep then [s[0]] else []) + Among(s[1..], keep)
  }

  /** What the tasks not done still need of each other. */
  function OpenGraph(p: Phase, done: set<Id>): Graph {
    map t | t in Unsatisfied(p, done) :: Among(Prereqs(p, t), Unsatisfied(p, done))
  }

  lemma ReadyIsUnblocked(p: Phase, done: set<Id>, t: Id)
    requires t in Unsatisfied(p, done)
    ensures IsReady(p, done, t) <==> !Blocked(OpenGraph(p, done), Unsatisfied(p, done), t)
  {
  }

  lemma CycleTransfers(g: Graph, h: Graph, c: seq<Id>)
    requires IsCycle(g, c)
    requires forall n :: n in c ==> n in h
    requires forall n, d {:trigger d in g[n]} :: n in c && d in c && d in g[n] ==> d in h[n]
    ensures IsCycle(h, c)
  {
    forall i, j | 0 <= i < j < |c| && j == i + 1 ensures c[j] in h[c[i]] {
      assert c[j] in g[c[i]];
    }
    assert c[0] in g[c[|c| - 1]];
  }

  /** A node of a cycle depends on a node of it. */
  lemma NextOnCycle(g: Graph, c: seq<Id>, n: Id) returns (next: Id)
    requires IsCycle(g, c) && n in c
    ensures next in c && n in g && next in g[n]
  {
    var i := IndexOf(c, n);
    var j := if i == |c| - 1 then 0 else i + 1;
    next := c[j];
    assert c[j] in g[c[i]];
  }

  lemma OpenEdge(p: Phase, done: set<Id>, n: Id, d: Id)
    requires n in Unsatisfied(p, done)
    ensures d in OpenGraph(p, done)[n] <==> d in Prereqs(p, n) && d in Unsatisfied(p, done)
  {
  }

  /** Doing what is ready breaks no cycle. */
  lemma ReadyIsOnNoCycle(p: Phase, done: set<Id>, c: seq<Id>)
    requires IsCycle(OpenGraph(p, done), c)
    ensures IsCycle(OpenGraph(p, done + ReadySet(p, done)), c)
  {
    var g, after := OpenGraph(p, done), done + ReadySet(p, done);
    forall n | n in c ensures n in Unsatisfied(p, after) {
      var d := NextOnCycle(g, c, n);
      OpenEdge(p, done, n, d);
      assert d in Prereqs(p, n) && d in p.files && d !in done;
    }
    forall n, d {:trigger d in g[n]} | n in c && d in c && d in g[n] ensures d in OpenGraph(p, after)[n] {
      OpenEdge(p, done, n, d);
      OpenEdge(p, after, n, d);
    }
    CycleTransfers(g, OpenGraph(p, after), c);
  }

  /** Nor does it make one. */
  lemma CycleWasThere(p: Phase, done: set<Id>, more: set<Id>, c: seq<Id>)
    requires IsCycle(OpenGraph(p, done + more), c)
    ensures IsCycle(OpenGraph(p, done), c)
  {
    var g := OpenGraph(p, done + more);
    forall n, d {:trigger d in g[n]} | n in c && d in c && d in g[n] ensures d in OpenGraph(p, done)[n] {
      OpenEdge(p, done + more, n, d);
      OpenEdge(p, done, n, d);
    }
    CycleTransfers(g, OpenGraph(p, done), c);
  }

  lemma NothingReadyIsCyclic(p: Phase, done: set<Id>)
    requires Unsatisfied(p, done) != {} && ReadySet(p, done) == {}
    ensures !Acyclic(OpenGraph(p, done))
  {
    var g, open := OpenGraph(p, done), Unsatisfied(p, done);
    forall t {:trigger Blocked(g, open, t)} | t in open ensures Blocked(g, open, t) {
      ReadyIsUnblocked(p, done, t);
      assert t !in ReadySet(p, done);
    }
    StuckSetHasCycle(g, open);
  }

  lemma ReadyKeepsAcyclic(p: Phase, done: set<Id>)
    ensures Acyclic(OpenGraph(p, done)) <==> Acyclic(OpenGraph(p, done + ReadySet(p, done)))
  {
    if c :| IsCycle(OpenGraph(p, done), c) {
      ReadyIsOnNoCycle(p, done, c);
    }
    if c :| IsCycle(OpenGraph(p, done + ReadySet(p, done)), c) {
      CycleWasThere(p, done, ReadySet(p, done), c);
    }
  }

  /** Each wave leaves fewer tasks. */
  lemma LayersUnfold(p: Phase, done: set<Id>)
    requires ReadySet(p, done) != {}
    ensures Unsatisfied(p, done + ReadySet(p, done)) < Unsatisfied(p, done)
    ensures Layers(p, done) == [ReadySet(p, done)] + Layers(p, done + ReadySet(p, done))
  {
    var t :| t in ReadySet(p, done);
    assert t in Unsatisfied(p, done) && t !in Unsatisfied(p, done + ReadySet(p, done));
  }

  ghost predicate EndsEmpty(layers: seq<set<Id>>) {
    layers != [] && layers[|layers| - 1] == {}
  }

  lemma EndsEmptyLater(first: set<Id>, rest: seq<set<Id>>)
    requires first != {}
    ensures EndsEmpty([first] + rest) <==> EndsEmpty(rest)
  {
  }

  /** The plan ends in an empty wave exactly when the tasks left over need each other in a circle. */
  lemma {:induction false} EmptyWaveIffCyclic(p: Phase, done: set<Id>)
    ensures EndsEmpty(Layers(p, done)) <==> !Acyclic(OpenGraph(p, done))
    decreases Unsatisfied(p, done)
  {
    if Unsatisfied(p, done) == {} {
      RankedImpliesAcyclic(OpenGraph(p, done), []);
    } else if ReadySet(p, done) == {} {
      NothingReadyIsCyclic(p, done);
    } else {
      LayersUnfold(p, done);
      EmptyWaveIffCyclic(p, done + ReadySet(p, done));
      ReadyKeepsAcyclic(p, done);
      EndsEmptyLater(ReadySet(p, done), Layers(p, done + ReadySet(p, done)));
    }
  }

  // --- every task as early as possible ----------------------------------------------

  /** `slot` gives tasks not done a time, each after the times of the in-phase prerequisites it still needs. */
  ghost predicate IsSchedule(p: Phase, done: set<Id>, slot: map<Id, nat>) {
    && slot.Keys <= Unsatisfied(p, done)
    && forall t, d {:trigger d in Prereqs(p, t)} ::
         t in slot && d in Prereqs(p, t) && d in Unsatisfied(p, done) ==> d in slot && slot[d] < slot[t]
  }

  predicate InSome(layers: seq<set<Id>>, t: Id) {
    exists i :: 0 <= i < |layers| && t in layers[i]
  }

  /** The wave a task is in. */
  function WaveOf(layers: seq<set<Id>>, t: Id): (i: nat)
    requires InSome(layers, t)
    ensures i < |layers| && t in layers[i]
    ensures forall j :: 0 <= j < i ==> t !in layers[j]
  {
    if t in layers[0] then 0
    else
      assert InSome(layers[1..], t) by {
        var i :| 0 <= i < |layers| && t in layers[i];
        assert layers[1..][i - 1] == layers[i];
      }
      1 + WaveOf(layers[1..], t)
  }

  /** Task `t` is in the wave `i` and in no other. */
  ghost predicate OnlyIn(layers: seq<set<Id>>, t: Id, i: nat) {
    forall j :: 0 <= j < |layers| && t in layers[j] ==> j == i
  }

  lemma OnlyInFirst(first: set<Id>, rest: seq<set<Id>>, t: Id)
    requires forall j :: 0 <= j < |rest| ==> t !in rest[j]
    ensures OnlyIn([first] + rest, t, 0)
  {
  }

  lemma OnlyInLater(first: set<Id>, rest: seq<set<Id>>, t: Id, i: nat)
    requires t !in first && OnlyIn(rest, t, i)
    ensures OnlyIn([first] + rest, t, i + 1)
  {
    forall j | 0 <= j < |[first] + rest| && t in ([first] + rest)[j] ensures j == i + 1 {
      assert j > 0 ==> t in rest[j - 1];
    }
  }

  /** No task is in two waves. */
  lemma {:induction false} LayersAreDisjoint(p: Phase, done: set<Id>, i: nat, t: Id)
    requires i < |Layers(p, done)| && t in Layers(p, done)[i]
    ensures t in Unsatisfied(p, done) && OnlyIn(Layers(p, done), t, i)
    decreases Unsatisfied(p, done)
  {
    var ready := ReadySet(p, done);
    if ready != {} {
      LayersUnfold(p, done);
      var rest := Layers(p, done + ready);
      forall j | 0 <= j < |rest| ensures t in rest[j] ==> t !in ready {
        if t in rest[j] {
          LayersAreDisjoint(p, done + ready, j, t);
        }
      }
      if i == 0 {
        OnlyInFirst(ready, rest, t);
      } else {
        ConsAt(ready, rest, i);
        LayersAreDisjoint(p, done + ready, i - 1, t);
        OnlyInLater(ready, rest, t, i - 1);
      }
    }
  }

  /** A task in a wave needs nothing outside the waves before it. */
  lemma {:induction false} NeedsComeFirst(p: Phase, done: set<Id>, i: nat, t: Id, d: Id)
    requires i < |Layers(p, done)| && t in Layers(p, done)[i]
    requires d in Prereqs(p, t) && d in Unsatisfied(p, done)
    ensures exists j :: 0 <= j < i && d in Layers(p, done)[j]
    decreases Unsatisfied(p, done)
  {
    var ready := ReadySet(p, done);
    LayersUnfold(p, done);
    var rest := Layers(p, done + ready);
    if d in ready {
      assert d in Layers(p, done)[0];
    } else {
      NeedsComeFirst(p, done + ready, i - 1, t, d);
      var j :| 0 <= j < i - 1 && d in rest[j];
      assert d in Layers(p, done)[j + 1];
    }
  }

  /** A task scheduled first is ready, and a task that is not ready is not scheduled at 0. */
  lemma {:induction false} EarliestIsReady(p: Phase, done: set<Id>, slot: map<Id, nat>, t: Id)
    requires IsSchedule(p, done, slot) && t in slot
    ensures ReadySet(p, done) != {}
    decreases slot[t]
  {
    if IsReady(p, done, t) {
      assert t in ReadySet(p, done);
    } else {
      var d :| d in Prereqs(p, t) && d in p.files && d !in done;
      EarliestIsReady(p, done, slot, d);
    }
  }

  lemma NotReadyIsLater(p: Phase, done: set<Id>, slot: map<Id, nat>)
    requires IsSchedule(p, done, slot)
    ensures forall t :: t in slot && t !in ReadySet(p, done) ==> 1 <= slot[t]
  {
    forall t | t in slot && t !in ReadySet(p, done) ensures 1 <= slot[t] {
      assert t in Unsatisfied(p, done);
      assert !IsReady(p, done, t);
      var d :| d in Prereqs(p, t) && d in p.files && d !in done;
      assert d in slot && slot[d] < slot[t];
    }
  }

  /** What is left of a schedule, one step earlier, once everything ready is done. */
  ghost function Later(p: Phase, done: set<Id>, slot: map<Id, nat>): (later: map<Id, nat>)
    requires IsSchedule(p, done, slot)
    ensures IsSchedule(p, done + ReadySet(p, done), later)
    ensures forall t :: t in slot && t !in ReadySet(p, done) ==> t in later && slot[t] == later[t] + 1
  {
    NotReadyIsLater(p, done, slot);
    map t | t in slot && t !in ReadySet(p, done) :: slot[t] - 1
  }

  /** Whatever can be scheduled at all is in a wave, and no later than in any schedule. */
  lemma {:induction false} WavesAreEarliest(p: Phase, done: set<Id>, slot: map<Id, nat>, t: Id)
    requires IsSchedule(p, done, slot) && t in slot
    ensures exists i :: 0 <= i < |Layers(p, done)| && i <= slot[t] && t in Layers(p, done)[i]
    decreases Unsatisfied(p, done)
  {
    var ready := ReadySet(p, done);
    EarliestIsReady(p, done, slot, t);
    LayersUnfold(p, done);
    var rest := Layers(p, done + ready);
    if t in ready {
      assert t in Layers(p, done)[0];
    } else {
      var later := Later(p, done, slot);
      WavesAreEarliest(p, done + ready, later, t);
      var i :| 0 <= i < |rest| && i <= later[t] && t in rest[i];
      assert t in Layers(p, done)[i + 1];
    }
  }

  function WaveNumbers(p: Phase, done: set<Id>): map<Id, nat> {
    var layers := Layers(p, done);
    map t | t in Unsatisfied(p, done) && InSome(layers, t) :: WaveOf(layers, t)
  }

  /** The waves are themselves a schedule, so by WavesAreEarliest they hold exactly the tasks that can be scheduled. */
  lemma WavesAreSchedule(p: Phase, done: set<Id>)
    ensures IsSchedule(p, done, WaveNumbers(p, done))
  {
    var layers, slot := Layers(p, done), WaveNumbers(p, done);
    forall t, d {:trigger d in Prereqs(p, t)} | t in slot && d in Prereqs(p, t) && d in Unsatisfied(p, done)
      ensures d in slot && slot[d] < slot[t]
    {
      NeedsComeFirst(p, done, WaveOf(layers, t), t, d);
      var j :| 0 <= j < WaveOf(layers, t) && d in layers[j];
      assert InSome(layers, d);
      LayersAreDisjoint(p, done, j, d);
    }
  }

  // --- the split of one wave ---------------------------------------------------------

  function FilesOf(files: map<Id, set<File>>, t: Id): set<File> {
    if t in files then files[t] else {}
  }

  /** The files of the given tasks together. */
  function Owned(files: map<Id, set<File>>, tasks: seq<Id>): set<File> {
    set t, f | t in tasks && f in FilesOf(files, t) :: f
  }

  /** The tasks run side by side are those that share no file with an earlier one that does. */
  function Parallel(files: map<Id, set<File>>, ready: seq<Id>): seq<Id> {
    if ready == [] then []
    else
      var before, t := Parallel(files, ready[..|ready| - 1]), ready[|ready| - 1];
      if FilesOf(files, t) * Owned(files, before) == {} then before + [t] else before
  }

  function Serialized(files: map<Id, set<File>>, ready: seq<Id>): seq<Id> {
    if ready == [] then []
    else
      var front, t := ready[..|ready| - 1], ready[|ready| - 1];
      Serialized(files, front) + if FilesOf(files, t) * Owned(files, Parallel(files, front)) == {} then [] else [t]
  }

  ghost predicate DisjointFiles(files: map<Id, set<File>>, tasks: seq<Id>) {
    forall i, j :: 0 <= i < j < |tasks| ==> FilesOf(files, tasks[i]) * FilesOf(files, tasks[j]) == {}
  }

  ghost predicate Overlaps(files: map<Id, set<File>>, t: Id, tasks: seq<Id>) {
    exists u :: u in tasks && FilesOf(files, t) * FilesOf(files, u) != {}
  }

  lemma SnocCounts(s: seq<Id>)
    requires s != []
    ensures multiset(s) == multiset(s[..|s| - 1]) + multiset{s[|s| - 1]}
  {
    assert s == s[..|s| - 1] + [s[|s| - 1]];
  }

  lemma {:induction false} SplitIsPartition(files: map<Id, set<File>>, ready: seq<Id>)
    ensures multiset(Parallel(files, ready)) + multiset(Serialized(files, ready)) == multiset(ready)
  {
    if ready != [] {
      var front, t := ready[..|ready| - 1], ready[|ready| - 1];
      var before, rest := Parallel(files, front), Serialized(files, front);
      SplitIsPartition(files, front);
      SnocCounts(ready);
      if FilesOf(files, t) * Owned(files, before) == {} {
        assert multiset(Parallel(files, ready)) == multiset(before) + multiset{t};
        assert Serialized(files, ready) == rest;
      } else {
        assert Parallel(files, ready) == before;
        assert multiset(Serialized(files, ready)) == multiset(rest) + multiset{t};
      }
    }
  }

  lemma AppendKeepsOrder(part: seq<Id>, whole: seq<Id>, t: Id)
    requires IsSorted(part) && multiset(part) <= multiset(whole)
    requires forall x :: x in multiset(whole) ==> Leq(x, t)
    ensures IsSorted(part + [t])
  {
    forall i | 0 <= i < |part| ensures Leq(part[i], t) {
      assert part[i] in multiset(part);
    }
  }

  lemma {:induction false} SplitKeepsOrder(files: map<Id, set<File>>, ready: seq<Id>)
    requires IsSorted(ready)
    ensures IsSorted(Parallel(files, ready)) && IsSorted(Serialized(files, ready))
  {
    if ready != [] {
      var front, t := ready[..|ready| - 1], ready[|ready| - 1];
      SplitKeepsOrder(files, front);
      SplitIsPartition(files, front);
      forall x | x in multiset(front) ensures Leq(x, t) {
        assert x in front;
      }
      AppendKeepsOrder(Parallel(files, front), front, t);
      AppendKeepsOrder(Serialized(files, front), front, t);
    }
  }

  lemma {:induction false} ParallelIsDisjoint(files: map<Id, set<File>>, ready: seq<Id>)
    ensures DisjointFiles(files, Parallel(files, ready))
  {
    if ready != [] {
      var before := Parallel(files, ready[..|ready| - 1]);
      ParallelIsDisjoint(files, ready[..|ready| - 1]);
      var t := ready[|ready| - 1];
      forall i | 0 <= i < |before| && FilesOf(files, t) * Owned(files, before) == {}
        ensures FilesOf(files, before[i]) * FilesOf(files, t) == {}
      {
        assert FilesOf(files, before[i]) <= Owned(files, before);
      }
    }
  }

  /** Once tasks overlap the parallel ones, they still do when more are added. */
  lemma OverlapStays(files: map<Id, set<File>>, u: Id, tasks: seq<Id>, more: seq<Id>)
    requires Overlaps(files, u, tasks)
    ensures Overlaps(files, u, tasks + more)
  {
    var v :| v in tasks && FilesOf(files, u) * FilesOf(files, v) != {};
    assert v in tasks + more;
  }

  lemma OwnedIsOverlap(files: map<Id, set<File>>, t: Id, tasks: seq<Id>)
    ensures FilesOf(files, t) * Owned(files, tasks) == {} <==> !Overlaps(files, t, tasks)
  {
    if f :| f in FilesOf(files, t) * Owned(files, tasks) {
      var u :| u in tasks && f in FilesOf(files, u);
      assert f in FilesOf(files, t) * FilesOf(files, u);
    }
    if u :| u in tasks && FilesOf(files, t) * FilesOf(files, u) != {} {
      var f :| f in FilesOf(files, t) * FilesOf(files, u);
      assert f in FilesOf(files, t) * Owned(files, tasks);
    }
  }

  lemma {:induction false} SerializedOverlap(files: map<Id, set<File>>, ready: seq<Id>, u: Id)
    requires u in Serialized(files, ready)
    ensures Overlaps(files, u, Parallel(files, ready))
  {
    var front, t := ready[..|ready| - 1], ready[|ready| - 1];
    var before := Parallel(files, front);
    OwnedIsOverlap(files, t, before);
    if u in Serialized(files, front) {
      SerializedOverlap(files, front, u);
      OverlapStays(files, u, before, [t]);
    }
  }

  /** `t` shares a file with one of the tasks that stands before it in the list. */
  ghost predicate OverlapsEarlier(files: map<Id, set<File>>, ready: seq<Id>, t: Id, tasks: seq<Id>) {
    exists u :: u in tasks && Before(ready, u, t) && FilesOf(files, t) * FilesOf(files, u) != {}
  }

  lemma ParallelFromReady(files: map<Id, set<File>>, ready: seq<Id>, u: Id)
    requires u in Parallel(files, ready)
    ensures u in ready
  {
    SplitIsPartition(files, ready);
    assert u in multiset(Parallel(files, ready));
    assert u in multiset(ready);
  }

  lemma EarlierStays(files: map<Id, set<File>>, ready: seq<Id>, t: Id, tasks: seq<Id>, more: seq<Id>)
    requires ready != [] && Distinct(ready) && OverlapsEarlier(files, ready[..|ready| - 1], t, tasks)
    ensures OverlapsEarlier(files, ready, t, tasks + more)
  {
    var u :| u in tasks && Before(ready[..|ready| - 1], u, t) && FilesOf(files, t) * FilesOf(files, u) != {};
    PositionInFront(ready, u);
    PositionInFront(ready, t);
    assert u in tasks + more && Before(ready, u, t);
  }

  /** The task that comes first wins: what is serialized shares a file with an earlier task that runs side by side. */
  lemma {:induction false} EarlierTaskWins(files: map<Id, set<File>>, ready: seq<Id>, t: Id)
    requires Distinct(ready) && t in Serialized(files, ready)
    ensures OverlapsEarlier(files, ready, t, Parallel(files, ready))
  {
    var front, last := ready[..|ready| - 1], ready[|ready| - 1];
    var before := Parallel(files, front);
    if t in Serialized(files, front) {
      EarlierTaskWins(files, front, t);
      EarlierStays(files, ready, t, before, []);
      EarlierStays(files, ready, t, before, [last]);
      assert before + [] == before;
    } else {
      OwnedIsOverlap(files, t, before);
      var u :| u in before && FilesOf(files, t) * FilesOf(files, u) != {};
      ParallelFromReady(files, front, u);
      FrontIsBefore(ready, u);
    }
  }

  /** The split is a partition: side by side files are disjoint, and what is serialized overlaps an earlier of those. */
  lemma SplitIsSound(files: map<Id, set<File>>, ready: seq<Id>)
    ensures var parallel, serial := Parallel(files, ready), Serialized(files, ready);
            && multiset(parallel) + multiset(serial) == multiset(ready)
            && DisjointFiles(files, parallel)
            && (forall t :: t in serial ==> Overlaps(files, t, parallel))
            && (Distinct(ready) ==> forall t :: t in serial ==> OverlapsEarlier(files, ready, t, parallel))
            && (IsSorted(ready) ==> IsSorted(parallel) && IsSorted(serial))
  {
    SplitIsPartition(files, ready);
    ParallelIsDisjoint(files, ready);
    forall t | t in Serialized(files, ready) ensures Overlaps(files, t, Parallel(files, ready)) {
      SerializedOverlap(files, ready, t);
    }
    if IsSorted(ready) {
      SplitKeepsOrder(files, ready);
    }
    if Distinct(ready) {
      forall t | t in Serialized(files, ready) ensures OverlapsEarlier(files, ready, t, Parallel(files, ready)) {
        EarlierTaskWins(files, ready, t);
      }
    }
  }

  lemma {:induction false} SortedIsItself(s: seq<Id>)
    requires IsSorted(s)
    ensures Sorted(s) == s
  {
    if s != [] {
      SortedIsItself(s[1..]);
      assert s == [s[0]] + s[1..];
    }
  }

  lemma SplitStep(files: map<Id, set<File>>, ready: seq<Id>, i: nat)
    requires i < |ready|
    ensures var before, t := Parallel(files, ready[..i]), ready[i];
            var apart := FilesOf(files, t) * Owned(files, before) == {};
            && Parallel(files, ready[..i + 1]) == (if apart then before + [t] else before)
            && Serialized(files, ready[..i + 1]) == Serialized(files, ready[..i]) + if apart then [] else [t]
  {
    assert ready[..i + 1][..i] == ready[..i];
  }

  lemma OwnedGrows(files: map<Id, set<File>>, tasks: seq<Id>, t: Id)
    ensures Owned(files, tasks + [t]) == Owned(files, tasks) + FilesOf(files, t)
  {
    forall f | f in FilesOf(files, t) ensures f in Owned(files, tasks + [t]) {
      assert t in tasks + [t];
    }
    forall f | f in Owned(files, tasks) ensures f in Owned(files, tasks + [t]) {
      var u :| u in tasks && f in FilesOf(files, u);
      assert u in tasks + [t];
    }
  }

  method Split(files: map<Id, set<File>>, ready: seq<Id>) returns (parallel: seq<Id>, serial: seq<Id>)
    ensures parallel == Parallel(files, ready) && serial == Serialized(files, ready)
  {
    var owners: map<File, Id> := map[];
    parallel, serial := [], [];
    var i := 0;
    while i < |ready|
      invariant 0 <= i <= |ready|
      invariant parallel == Parallel(files, ready[..i]) && serial == Serialized(files, ready[..i])
      invariant owners.Keys == Owned(files, parallel)
    {
      var t := ready[i];
      var mine := FilesOf(files, t);
      SplitStep(files, ready, i);
      if mine * owners.Keys != {} {
        serial := serial + [t];
      } else {
        OwnedGrows(files, parallel, t);
        parallel := parallel + [t];
        owners := owners + map f | f in mine :: t;
      }
      i := i + 1;
    }
    assert ready[..i] == ready;
  }

  // --- the plan ------------------------------------------------------------------------

  const NO_READY := "no ready tasks (cycle or unmet dep)"
  const DISJOINT := "disjoint files"
  const OVERLAPPING := "overlapping files"

  /** The wave that a ready set makes. */
  ghost predicate IsWave(files: map<Id, set<File>>, layer: set<Id>, index: nat, w: Wave) {
    && w.index == index && w.ready == SortedSet(layer)
    && w.parallel == Parallel(files, w.ready) && w.serialized == Serialized(files, w.ready)
    && w.reason == if layer == {} then NO_READY else if w.serialized == [] then DISJOINT else OVERLAPPING
  }

  lemma {:induction false} AllParallel(files: map<Id, set<File>>, ready: seq<Id>)
    ensures Serialized(files, ready) == [] ==> Parallel(files, ready) == ready
  {
    if ready != [] && Serialized(files, ready) == [] {
      AllParallel(files, ready[..|ready| - 1]);
      FrontAndLast(ready);
    }
  }

  lemma NotDisjoint(files: map<Id, set<File>>, ready: seq<Id>, t: Id, tasks: seq<Id>)
    requires OverlapsEarlier(files, ready, t, tasks)
    ensures !DisjointFiles(files, ready)
  {
    var u :| u in tasks && Before(ready, u, t) && FilesOf(files, t) * FilesOf(files, u) != {};
    var i, j := IndexOf(ready, u), IndexOf(ready, t);
    assert FilesOf(files, ready[i]) * FilesOf(files, ready[j]) == FilesOf(files, t) * FilesOf(files, u);
  }

  /** The reason given for a wave tells whether any two of its tasks share a file. */
  lemma ReasonTells(files: map<Id, set<File>>, layer: set<Id>, index: nat, w: Wave)
    requires IsWave(files, layer, index, w)
    ensures w.reason == "no ready tasks (cycle or unmet dep)" <==> layer == {}
    ensures w.reason == "disjoint files" <==> layer != {} && DisjointFiles(files, w.ready)
    ensures w.reason == "overlapping files" <==> layer != {} && !DisjointFiles(files, w.ready)
  {
    SplitIsSound(files, w.ready);
    AllParallel(files, w.ready);
    if w.serialized != [] {
      NotDisjoint(files, w.ready, w.serialized[0], w.parallel);
    }
    assert NO_READY[0] == 'n' && DISJOINT[0] == 'd' && OVERLAPPING[0] == 'o';
  }

  function TasksOf(layers: seq<set<Id>>): set<Id> {
    if layers == [] then {} else TasksOf(layers[..|layers| - 1]) + layers[|layers| - 1]
  }

  method NextWave(p: Phase, unsatisfied: set<Id>, done: set<Id>, index: nat) returns (wave: Wave)
    requires unsatisfied == Unsatisfied(p, done)
    ensures IsWave(p.files, ReadySet(p, done), index, wave)
  {
    var ready := SortedSet(set t | t in unsatisfied && IsReady(p, done, t));
    assert (set t | t in unsatisfied && IsReady(p, done, t)) == ReadySet(p, done);
    if ready == [] {
      return Wave(index, [], [], [], NO_READY);
    }
    var parallel, serial := Split(p.files, ready);
    SplitIsSound(p.files, ready);
    SortedIsItself(parallel);
    SortedIsItself(serial);
    wave := Wave(index, ready, Sorted(parallel), Sorted(serial), if serial == [] then DISJOINT else OVERLAPPING);
  }

  lemma UnsatisfiedShrinks(p: Phase, done: set<Id>, more: set<Id>)
    ensures Unsatisfied(p, done + more) == Unsatisfied(p, done) - more
  {
  }

  lemma SortedSetIsAll(s: set<Id>)
    ensures (set t | t in SortedSet(s)) == s
    ensures SortedSet(s) == [] <==> s == {}
  {
  }

  ghost predicate AreWaves(files: map<Id, set<File>>, layers: seq<set<Id>>, waves: seq<Wave>) {
    |waves| <= |layers| && forall k :: 0 <= k < |waves| ==> IsWave(files, layers[k], k + 1, waves[k])
  }

  lemma AddWave(files: map<Id, set<File>>, layers: seq<set<Id>>, waves: seq<Wave>, wave: Wave)
    requires AreWaves(files, layers, waves) && |waves| < |layers| && IsWave(files, layers[|waves|], |waves| + 1, wave)
    ensures AreWaves(files, layers, waves + [wave])
  {
    forall k | 0 <= k < |waves + [wave]| ensures IsWave(files, layers[k], k + 1, (waves + [wave])[k]) {
      if k < |waves| {
        assert (waves + [wave])[k] == waves[k];
      }
    }
  }

  lemma LayersAt(p: Phase, done: set<Id>, all: seq<set<Id>>, n: nat)
    requires n <= |all| && all[n..] == Layers(p, done) && Unsatisfied(p, done) != {}
    ensures n < |all| && all[n] == ReadySet(p, done)
    ensures TasksOf(all[..n + 1]) == TasksOf(all[..n]) + ReadySet(p, done)
    ensures if all[n] == {} then n + 1 == |all|
            else && all[n + 1..] == Layers(p, done + ReadySet(p, done))
                 && Unsatisfied(p, done + ReadySet(p, done)) < Unsatisfied(p, done)
  {
    assert all[n] == all[n..][0] && all[n + 1..] == all[n..][1..];
    assert all[..n + 1][..n] == all[..n];
    if ReadySet(p, done) != {} {
      LayersUnfold(p, done);
    }
  }

  /** What the loop of `build_plan` keeps. */
  ghost predicate Planning(p: Phase, before: set<Id>, unsatisfied: set<Id>, done: set<Id>, waves: seq<Wave>) {
    var all := Layers(p, before);
    && unsatisfied == Unsatisfied(p, done)
    && AreWaves(p.files, all, waves)
    && all[|waves|..] == Layers(p, done)
    && done == before + TasksOf(all[..|waves|])
  }

  ghost predicate Planned(p: Phase, before: set<Id>, done: set<Id>, waves: seq<Wave>) {
    var all := Layers(p, before);
    |waves| == |all| && AreWaves(p.files, all, waves) && done == before + TasksOf(all)
  }

  lemma PlanContinues(p: Phase, before: set<Id>, done: set<Id>, waves: seq<Wave>, wave: Wave, layer: set<Id>)
    requires Planning(p, before, Unsatisfied(p, done), done, waves) && IsWave(p.files, layer, |waves| + 1, wave)
    requires var all, n := Layers(p, before), |waves|;
             n < |all| && all[n] == layer && all[n + 1..] == Layers(p, done + layer)
             && TasksOf(all[..n + 1]) == TasksOf(all[..n]) + layer
    ensures Planning(p, before, Unsatisfied(p, done) - layer, done + layer, waves + [wave])
  {
    var all := Layers(p, before);
    RegroupSets(before, TasksOf(all[..|waves|]), layer);
    UnsatisfiedShrinks(p, done, layer);
    AddWave(p.files, all, waves, wave);
    assert |waves + [wave]| == |waves| + 1;
  }

  lemma PlanStops(p: Phase, before: set<Id>, done: set<Id>, waves: seq<Wave>, wave: Wave)
    requires Planning(p, before, Unsatisfied(p, done), done, waves) && IsWave(p.files, {}, |waves| + 1, wave)
    requires var all, n := Layers(p, before), |waves|;
             n + 1 == |all| && all[n] == {} && TasksOf(all[..n + 1]) == TasksOf(all[..n])
    ensures Planned(p, before, done, waves + [wave])
  {
    var all := Layers(p, before);
    FullPrefix(all);
    AddWave(p.files, all, waves, wave);
    assert |waves + [wave]| == |all|;
  }

  lemma PlanStep(p: Phase, before: set<Id>, done: set<Id>, waves: seq<Wave>, wave: Wave, ready: set<Id>)
    requires Planning(p, before, Unsatisfied(p, done), done, waves) && Unsatisfied(p, done) != {}
    requires ready == ReadySet(p, done) && IsWave(p.files, ready, |waves| + 1, wave)
    ensures (set t | t in wave.ready) == ready
    ensures if wave.ready == [] then Planned(p, before, done, waves + [wave])
            else Unsatisfied(p, done) - ready < Unsatisfied(p, done)
                 && Planning(p, before, Unsatisfied(p, done) - ready, done + ready, waves + [wave])
  {
    var all := Layers(p, before);
    LayersAt(p, done, all, |waves|);
    SortedSetIsAll(ready);
    if ready == {} {
      PlanStops(p, before, done, waves, wave);
    } else {
      UnsatisfiedShrinks(p, done, ready);
      PlanContinues(p, before, done, waves, wave, ready);
    }
  }

  lemma PlanDone(p: Phase, before: set<Id>, done: set<Id>, waves: seq<Wave>)
    requires Planning(p, before, {}, done, waves)
    ensures Planned(p, before, done, waves)
  {
    var all := Layers(p, before);
    assert all[|waves|..] == [];
    assert all[..|waves|] == all;
  }

  /** `build_plan`; `done` is the caller's set, which the source grows in place, as it is afterwards. */
  method BuildPlan(p: Phase, doneBefore: set<Id>) returns (waves: seq<Wave>, done: set<Id>)
    ensures |waves| == |Layers(p, doneBefore)| && AreWaves(p.files, Layers(p, doneBefore), waves)
    ensures done == doneBefore + TasksOf(Layers(p, doneBefore))
  {
    done := doneBefore;
    waves := [];
    var unsatisfied := p.files.Keys - done;
    assert Layers(p, doneBefore)[0..] == Layers(p, doneBefore);
    while unsatisfied != {}
      invariant Planning(p, doneBefore, unsatisfied, done, waves)
      decreases unsatisfied
    {
      var wave := NextWave(p, unsatisfied, done, |waves| + 1);
      PlanStep(p, doneBefore, done, waves, wave, ReadySet(p, done));
      waves := waves + [wave];
      if wave.ready == [] {
        return;
      }
      unsatisfied := unsatisfied - (set t | t in wave.ready);
      done := done + set t | t in wave.ready;
    }
    PlanDone(p, doneBefore, done, waves);
  }
}
