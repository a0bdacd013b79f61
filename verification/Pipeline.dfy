/**
 The retry loop of the SDLC graph: `develop` runs the chunk DAG through the
 worker pool and its conditional edge integrates, retries, or escalates
 (engine/pipeline.py, engine/routing.py, engine/state.py). Its executors write the
 status of their chunk before they are done with it. The persona, integrate and
 critic nodes are taken to complete.
 */
module Pipeline {
  import opened ChunkDag
  import opened Graph
  import opened IdOrder
  import opened PoolModel
  import opened PoolOutcome
  import opened PoolResult
  import opened TopologicalOrder
  import opened WorkerPool
  import opened Wrappers

  const INNER_LOOP_CEILING := 3
  const E2E_CEILING := 2

  datatype ExecutionState = READY | RUNNING | PAUSED | STOPPED
  datatype Node = Architect | Develop | Integrate | Hitl
  datatype FailureKind = InnerLoop | EndToEnd

  datatype RouteDecision = RouteDecision(nextNode: Node, terminal: Option<ExecutionState>, escalateToHitl: bool)

  function RouteInnerLoop(innerLoopRetryCount: int): RouteDecision {
    if innerLoopRetryCount < INNER_LOOP_CEILING then RouteDecision(Develop, None, false)
    else RouteDecision(Architect, None, false)
  }

  function RouteE2e(e2eRetryCount: int): RouteDecision {
    if e2eRetryCount < E2E_CEILING then RouteDecision(Develop, None, false)
    else RouteDecision(Hitl, Some(STOPPED), true)
  }

  function Route(innerLoopRetryCount: int, e2eRetryCount: int, kind: FailureKind): RouteDecision {
    if kind.InnerLoop? then RouteInnerLoop(innerLoopRetryCount) else RouteE2e(e2eRetryCount)
  }

  /** The conditional edge after `develop`. */
  function RouteAfterDevelop(innerLoopRetryCount: int, e2eRetryCount: int, anyFailed: bool): Node {
    if !anyFailed then Integrate else
      var decision := Route(innerLoopRetryCount, e2eRetryCount, EndToEnd);
      if decision.escalateToHitl then Hitl else decision.nextNode
  }

  /** A failed chunk is put back to PENDING before a retry. */
  function ResetFailed(status: Statuses): Statuses {
    map c | c in status :: if status[c].Failed? then Pending else status[c]
  }

  ghost predicate ValidDag(g: Graph) {
    OrphanFree(g) && Acyclic(g)
  }

  ghost predicate AllCompleted(status: Statuses) {
    forall c :: c in status ==> status[c].Completed?
  }

  ghost predicate NoneInProgress(status: Statuses) {
    forall c :: c in status ==> !status[c].InProgress?
  }

  ghost predicate AnyFailed(status: Statuses) {
    exists c :: c in status && status[c].Failed?
  }

  /** What one visit of `develop` does to the chunk statuses, and whether it caught an error. */
  ghost predicate DevelopPost(g: Graph, max: int, before: Statuses, fails: set<Id>, caught: bool, after: Statuses) {
    if ValidDag(g) && 1 <= max then
      exists order, result {:trigger RunPost(g, order, max, true, ResetFailed(before), fails, result, after)} ::
        && IsLeastOrder(g, order)
        && RunPost(g, order, max, true, ResetFailed(before), fails, result, after)
        && !result.NoFreeSlot? && caught == !result.Finished?
    else caught && after == ResetFailed(before)
  }

  /** The run of the pool inside a visit. */
  lemma RunOfVisit(g: Graph, max: int, before: Statuses, fails: set<Id>, caught: bool, after: Statuses)
    returns (order: seq<Id>, result: RunResult)
    requires ValidDag(g) && 1 <= max && DevelopPost(g, max, before, fails, caught, after)
    ensures IsTopological(g, order) && RunPost(g, order, max, true, ResetFailed(before), fails, result, after)
    ensures !result.NoFreeSlot? && caught == !result.Finished?
  {
    order, result :| IsLeastOrder(g, order) && RunPost(g, order, max, true, ResetFailed(before), fails, result, after)
      && !result.NoFreeSlot? && caught == !result.Finished?;
  }

  /** A visit that leaves a FAILED chunk is one that counted a retry. */
  lemma FailedChunkWasCounted(g: Graph, max: int, before: Statuses, fails: set<Id>, caught: bool, after: Statuses)
    requires DevelopPost(g, max, before, fails, caught, after)
    ensures AnyFailed(after) ==> caught
  {
    if ValidDag(g) && 1 <= max && !caught {
      var order, result := RunOfVisit(g, max, before, fails, caught, after);
      FinishesExactly(g, order, max, true, ResetFailed(before), fails, result, after);
    }
  }

  /** A visit changes no chunk that was COMPLETED or IN_PROGRESS before it. */
  lemma VisitKeepsSettled(g: Graph, max: int, before: Statuses, fails: set<Id>, caught: bool, after: Statuses)
    requires before.Keys == g.Keys && DevelopPost(g, max, before, fails, caught, after)
    ensures after.Keys == g.Keys
    ensures forall c :: c in g && (before[c].Completed? || before[c].InProgress?) ==> after[c] == before[c]
  {
    if ValidDag(g) && 1 <= max {
      var start := ResetFailed(before);
      var order, result := RunOfVisit(g, max, before, fails, caught, after);
      RunnableWerePending(g, order, start, fails);
      RunnableWerePending(g, order, start, Blocking(Early(max, true), fails));
    }
  }

  /** A visit catches no error exactly when the DAG is valid, every chunk was PENDING or FAILED, and none raises. */
  lemma VisitSucceedsIff(g: Graph, max: int, before: Statuses, fails: set<Id>, caught: bool, after: Statuses)
    requires before.Keys == g.Keys && DevelopPost(g, max, before, fails, caught, after)
    ensures !caught <==> ValidDag(g) && 1 <= max && fails !! g.Keys
                         && forall c :: c in g ==> before[c].Pending? || before[c].Failed?
    ensures !caught ==> AllCompleted(after)
  {
    if ValidDag(g) && 1 <= max {
      var start := ResetFailed(before);
      var order, result := RunOfVisit(g, max, before, fails, caught, after);
      FinishesExactly(g, order, max, true, start, fails, result, after);
      assert forall c :: c in g ==> (start[c].Pending? <==> before[c].Pending? || before[c].Failed?);
    }
  }

  /** When nothing runnable raises, every PENDING chunk above PENDING and COMPLETED ones is runnable. */
  lemma {:induction false} PendingAreRunnable(g: Graph, order: seq<Id>, start: Statuses, fails: set<Id>, k: nat)
    requires IsTopological(g, order) && start.Keys == g.Keys && k <= |order|
    requires forall c :: c in g ==> start[c].Pending? || start[c].Completed?
    requires Runnable(g, order, start, fails) !! fails
    ensures forall c :: c in order[..k] && c in g && start[c].Pending? ==> c in Runnable(g, order, start, fails)
  {
    if k > 0 {
      PendingAreRunnable(g, order, start, fails, k - 1);
      var c := order[k - 1];
      assert order[..k] == order[..k - 1] + [c];
      assert Ready(g, order[..k - 1], c);
      RespectsIsDistinct(g, order);
      RunnableIsFixpoint(g, order, start, fails, c);
    }
  }

  /** A run without a raise completes all chunks exactly when it started from PENDING and COMPLETED ones. */
  lemma QuietRunCompletesIff(g: Graph, order: seq<Id>, start: Statuses, fails: set<Id>, end: Statuses)
    requires IsTopological(g, order) && start.Keys == g.Keys == end.Keys && Runnable(g, order, start, fails) !! fails
    requires forall c :: c in g ==> end[c] == if c in Runnable(g, order, start, fails) then Completed else start[c]
    ensures AllCompleted(end) <==> forall c :: c in g ==> start[c].Pending? || start[c].Completed?
  {
    RunnableWerePending(g, order, start, fails);
    if forall c :: c in g ==> start[c].Pending? || start[c].Completed? {
      PendingAreRunnable(g, order, start, fails, |order|);
      assert order[..|order|] == order;
    }
  }

  /** A run with any number of workers that leaves no FAILED chunk had no raise. */
  lemma VisitRunCompletesIff(g: Graph, order: seq<Id>, max: nat, start: Statuses, fails: set<Id>, result: RunResult,
                             end: Statuses)
    requires IsTopological(g, order) && RunPost(g, order, max, true, start, fails, result, end) && !result.NoFreeSlot?
    requires !AnyFailed(start) && !AnyFailed(end)
    ensures AllCompleted(end) <==> NoneInProgress(start)
  {
    assert !result.ChunkFailed?;
    QuietRunCompletesIff(g, order, start, fails, end);
  }

  lemma ResetFacts(status: Statuses)
    ensures !AnyFailed(ResetFailed(status))
    ensures NoneInProgress(ResetFailed(status)) <==> NoneInProgress(status)
    ensures AllCompleted(ResetFailed(status)) <==> AllCompleted(status)
    ensures AllCompleted(status) ==> NoneInProgress(status)
  {
    if AllCompleted(ResetFailed(status)) {
      forall c | c in status ensures status[c].Completed? {
        assert ResetFailed(status)[c].Completed?;
      }
    }
    if NoneInProgress(ResetFailed(status)) {
      forall c | c in status ensures !status[c].InProgress? {
        assert !ResetFailed(status)[c].InProgress?;
      }
    }
  }

  /** A visit from these statuses completes every chunk, unless one is FAILED by it. */
  ghost predicate CompletesFrom(g: Graph, max: int, before: Statuses) {
    (ValidDag(g) && 1 <= max && NoneInProgress(before)) || AllCompleted(before)
  }

  /**
   With any number of workers, a visit that leads to `integrate` has completed every chunk exactly
   when they all were COMPLETED before, or the DAG is valid and no chunk was IN_PROGRESS.
   */
  lemma VisitEntryIff(g: Graph, max: int, before: Statuses, fails: set<Id>, caught: bool, after: Statuses)
    requires before.Keys == g.Keys && DevelopPost(g, max, before, fails, caught, after) && !AnyFailed(after)
    ensures AllCompleted(after) <==> CompletesFrom(g, max, before)
  {
    ResetFacts(before);
    if ValidDag(g) && 1 <= max {
      var start := ResetFailed(before);
      var order, result := RunOfVisit(g, max, before, fails, caught, after);
      VisitRunCompletesIff(g, order, max, start, fails, result, after);
    }
  }

  /** With one worker nothing is in flight beside the chunk that raises. */
  lemma OneWorkerRaise(g: Graph, ran: set<Id>, start: Statuses, fails: set<Id>, chunk: Id, end: Statuses)
    requires FailedPost(g, 1, true, ran, start, fails, chunk, end)
    requires forall c :: c in ran ==> c in g && c in start && start[c].Pending?
    ensures forall c :: c in g ==> (end[c].InProgress? <==> start[c].InProgress?)
  {
    var left :| |left| < 1 && FailedWith(g, true, ran, start, fails, left, chunk, end);
    assert left == {};
  }

  /** With one worker a visit neither starts nor ends an IN_PROGRESS chunk, whatever the executor writes meanwhile. */
  lemma OneWorkerVisit(g: Graph, before: Statuses, fails: set<Id>, caught: bool, after: Statuses)
    requires ValidDag(g) && before.Keys == g.Keys && DevelopPost(g, 1, before, fails, caught, after)
    ensures after.Keys == g.Keys
    ensures forall c :: c in g ==> (after[c].InProgress? <==> before[c].InProgress?)
  {
    var start := ResetFailed(before);
    var order, result := RunOfVisit(g, 1, before, fails, caught, after);
    RunnableWerePending(g, order, start, fails);
    if result.ChunkFailed? {
      OneWorkerRaise(g, Runnable(g, order, start, fails), start, fails, result.chunk, after);
    }
  }

  /** With one worker a visit is a function of the graph, the statuses, and the chunks whose executor raises. */
  lemma OneWorkerIsDeterministic(g: Graph, before: Statuses, fails: set<Id>, caught1: bool, after1: Statuses,
                                 caught2: bool, after2: Statuses)
    requires DevelopPost(g, 1, before, fails, caught1, after1) && DevelopPost(g, 1, before, fails, caught2, after2)
    ensures caught1 == caught2 && after1 == after2
  {
    if ValidDag(g) {
      var start := ResetFailed(before);
      var order1, result1 :| IsLeastOrder(g, order1) && RunPost(g, order1, 1, true, start, fails, result1, after1)
        && !result1.NoFreeSlot? && caught1 == !result1.Finished?;
      var order2, result2 :| IsLeastOrder(g, order2) && RunPost(g, order2, 1, true, start, fails, result2, after2)
        && !result2.NoFreeSlot? && caught2 == !result2.Finished?;
      LeastOrderIsUnique(g, order1, order2);
      CompletionOrderIsIrrelevant(g, order1, 1, 1, true, true, start, fails, result1, after1, result2, after2);
    }
  }

  /** When exactly `integrate` finds every chunk COMPLETED, in terms of how a one-worker run started. */
  ghost predicate EntryPost(g: Graph, start: Statuses, entry: Statuses) {
    AllCompleted(entry) <==> (ValidDag(g) && NoneInProgress(start)) || AllCompleted(start)
  }

  /** What is known of the statuses before each visit of a one-worker run. */
  ghost predicate Carried(g: Graph, max: int, start: Statuses, visits: nat, status: Statuses) {
    && status.Keys == g.Keys == start.Keys
    && (visits == 0 ==> status == start)
    && (visits > 0 && max == 1 ==>
          ValidDag(g) && forall c :: c in g ==> (status[c].InProgress? <==> start[c].InProgress?))
  }

  /** A visit that fails a chunk carries the invariant on; one that fails none enters `integrate` as described. */
  lemma VisitCarries(g: Graph, max: int, start: Statuses, visits: nat, before: Statuses, fails: set<Id>,
                     caught: bool, after: Statuses)
    requires Carried(g, max, start, visits, before) && DevelopPost(g, max, before, fails, caught, after)
    ensures AnyFailed(after) ==> Carried(g, max, start, visits + 1, after)
    ensures !AnyFailed(after) && max == 1 ==> EntryPost(g, start, after)
  {
    assert after.Keys == g.Keys;
    if AnyFailed(after) {
      assert ValidDag(g);
      if max == 1 {
        OneWorkerVisit(g, before, fails, caught, after);
      }
    } else if max == 1 {
      VisitEntryIff(g, max, before, fails, caught, after);
      ResetFacts(before);
      ResetFacts(start);
    }
  }

  ghost predicate KeepsCompleted(before: Statuses, after: Statuses) {
    forall c :: c in before && before[c].Completed? ==> c in after && after[c].Completed?
  }

  /** All that a visit does for the run it is part of. */
  lemma VisitEffects(g: Graph, max: int, start: Statuses, visits: nat, before: Statuses, fails: set<Id>,
                     caught: bool, after: Statuses)
    requires Carried(g, max, start, visits, before) && KeepsCompleted(start, before)
    requires DevelopPost(g, max, before, fails, caught, after)
    ensures KeepsCompleted(start, after)
    ensures AnyFailed(after) ==> caught && Carried(g, max, start, visits + 1, after)
    ensures !AnyFailed(after) ==> (AllCompleted(after) <==> CompletesFrom(g, max, before))
    ensures !AnyFailed(after) && max == 1 ==> EntryPost(g, start, after)
  {
    VisitKeepsSettled(g, max, before, fails, caught, after);
    FailedChunkWasCounted(g, max, before, fails, caught, after);
    VisitCarries(g, max, start, visits, before, fails, caught, after);
    if !AnyFailed(after) {
      VisitEntryIff(g, max, before, fails, caught, after);
    }
  }

  /**
   "Integrate only when every chunk is COMPLETED" fails for a chunk that starts
   IN_PROGRESS: its run stalls, no chunk is FAILED, and the edge integrates.
   */
  lemma InProgressChunkReachesIntegrate(g: Graph, a: Id, caught: bool, after: Statuses)
    requires g == map[a := []]
    requires DevelopPost(g, 1, map[a := InProgress], {}, caught, after)
    ensures caught && !AnyFailed(after) && !AllCompleted(after)
    ensures RouteAfterDevelop(0, 1, false) == Integrate
  {
    var before: Statuses := map[a := InProgress];
    assert Ranked(g, [a]);
    RankedImpliesAcyclic(g, [a]);
    assert ResetFailed(before) == before;
    var order, result := RunOfVisit(g, 1, before, {}, caught, after);
    FinishesExactly(g, order, 1, true, before, {}, result, after);
    OneWorkerVisit(g, before, {}, caught, after);
    assert after.Keys == {a} && before[a].InProgress? && a in g;
    assert after[a].InProgress?;
  }

  // --- a run of two workers that enters `integrate` unfinished -------------------------------

  function TwoChunks(a: Id, b: Id): Graph {
    map[a := [], b := []]
  }

  lemma TwoChunksAreValid(a: Id, b: Id)
    ensures ValidDag(TwoChunks(a, b))
  {
    assert Ranked(TwoChunks(a, b), [a, b]);
    RankedImpliesAcyclic(TwoChunks(a, b), [a, b]);
  }

  /** Without dependencies exactly the PENDING chunks are runnable. */
  lemma TwoChunksRunnable(g: Graph, a: Id, b: Id, order: seq<Id>, start: Statuses, fails: set<Id>)
    requires g.Keys == {a, b} && g[a] == [] && g[b] == []
    requires IsTopological(g, order) && start.Keys == {a, b}
    ensures Runnable(g, order, start, fails) == set c | c in {a, b} && start[c].Pending?
  {
    RunnableWerePending(g, order, start, fails);
    assert a in g && b in g;
    RunnableIsFixpoint(g, order, start, fails, a);
    RunnableIsFixpoint(g, order, start, fails, b);
  }

  /** The order in which the pool takes them. */
  function OrderOfTwo(a: Id, b: Id): seq<Id> {
    if Leq(a, b) then [a, b] else [b, a]
  }

  lemma LeastOfTwo(g: Graph, x: Id, y: Id)
    requires x != y && Leq(x, y) && g.Keys == {x, y} && g[x] == [] && g[y] == []
    ensures IsLeastOrder(g, [x, y]) && Before([x, y], x, y)
  {
    var order := [x, y];
    assert order[..0] == [] && order[..1] == [x];
    LeqReflexive(x);
    LeqReflexive(y);
    ExhaustedOrder(g, order);
  }

  lemma OrderedTwo(a: Id, b: Id)
    requires a != b
    ensures IsLeastOrder(TwoChunks(a, b), OrderOfTwo(a, b))
    ensures if Leq(a, b) then Before(OrderOfTwo(a, b), a, b) else Before(OrderOfTwo(a, b), b, a)
  {
    LeqTotal(a, b);
    if Leq(a, b) {
      LeastOfTwo(TwoChunks(a, b), a, b);
    } else {
      LeastOfTwo(TwoChunks(a, b), b, a);
    }
  }

  /** After the first visit. */
  function OneLeft(a: Id, b: Id): Statuses {
    map[a := Failed, b := InProgress]
  }

  lemma BothClaimedFacts(a: Id, b: Id, x: Id, y: Id)
    requires a != b && x != y && {x, y} == {a, b}
    ensures var p := BothClaimed(TwoChunks(a, b), x, y);
            && p.phase.Waiting? && p.inFlight == {a, b} && a in p.status && p.status[a := Failed] == OneLeft(a, b)
  {
  }

  /** Both chunks are in flight when the executor of `a` raises; the executor of `b` raises too, and is not asked. */
  lemma BothRaise(a: Id, b: Id) returns (run: seq<Pool>)
    requires a != b
    ensures IsRun(TwoChunks(a, b), OrderOfTwo(a, b), 2, true, {}, run) && run[0] == AllPending(TwoChunks(a, b))
    ensures RaiseStep(true, {a, b}, Last(run), a, OneLeft(a, b))
  {
    OrderedTwo(a, b);
    var x, y := if Leq(a, b) then a else b, if Leq(a, b) then b else a;
    run := ClaimTwo(TwoChunks(a, b), OrderOfTwo(a, b), x, y);
    BothClaimedFacts(a, b, x, y);
  }

  lemma BothRaisePost(g: Graph, order: seq<Id>, a: Id, b: Id, start: Statuses, after: Statuses)
    requires a != b && g.Keys == start.Keys == after.Keys == {a, b} && start[a].Pending? && start[b].Pending?
    requires forall fails :: Runnable(g, order, start, fails) == {a, b}
    requires after[a].Failed? && after[b].InProgress?
    ensures RunPost(g, order, 2, true, start, {a, b}, ChunkFailed(a), after)
  {
    assert Runnable(g, order, start, {}) == {a, b} == Runnable(g, order, start, {a, b});
    assert FailedWith(g, true, {a, b}, start, {a, b}, {b}, a, after);
    assert FailedPost(g, 2, true, {a, b}, start, {a, b}, a, after);
  }

  lemma BothRunnable(a: Id, b: Id, order: seq<Id>, start: Statuses)
    requires IsTopological(TwoChunks(a, b), order) && start.Keys == {a, b} && start[a].Pending? && start[b].Pending?
    ensures forall fails :: Runnable(TwoChunks(a, b), order, start, fails) == {a, b}
  {
    forall fails ensures Runnable(TwoChunks(a, b), order, start, fails) == {a, b} {
      TwoChunksRunnable(TwoChunks(a, b), a, b, order, start, fails);
    }
  }

  /** A visit, by the run of the pool in it. */
  lemma VisitByRun(g: Graph, order: seq<Id>, max: nat, before: Statuses, start: Statuses, fails: set<Id>,
                   result: RunResult, after: Statuses)
    requires ValidDag(g) && 1 <= max && IsLeastOrder(g, order) && start == ResetFailed(before)
    requires RunPost(g, order, max, true, start, fails, result, after) && !result.NoFreeSlot?
    ensures DevelopPost(g, max, before, fails, !result.Finished?, after)
  {
  }

  /** The visit in which that happens. */
  lemma BothRaiseVisit(a: Id, b: Id)
    requires a != b
    ensures DevelopPost(TwoChunks(a, b), 2, AllPending(TwoChunks(a, b)).status, {a, b}, true, OneLeft(a, b))
  {
    var g, start := TwoChunks(a, b), AllPending(TwoChunks(a, b)).status;
    TwoChunksAreValid(a, b);
    OrderedTwo(a, b);
    BothRunnable(a, b, OrderOfTwo(a, b), start);
    BothRaisePost(g, OrderOfTwo(a, b), a, b, start, OneLeft(a, b));
    assert ResetFailed(start) == start;
    VisitByRun(g, OrderOfTwo(a, b), 2, start, start, {a, b}, ChunkFailed(a), OneLeft(a, b));
  }

  lemma StalledRun(g: Graph, order: seq<Id>, a: Id, b: Id, start: Statuses, result: RunResult, after: Statuses)
    requires a != b && g.Keys == start.Keys == {a, b} && g[a] == [] && g[b] == [] && IsTopological(g, order)
    requires start[a].Pending? && start[b].InProgress?
    requires RunPost(g, order, 2, true, start, {}, result, after) && !result.NoFreeSlot?
    ensures result.Stalled? && after == start[a := Completed]
  {
    TwoChunksRunnable(g, a, b, order, start, {});
    assert Runnable(g, order, start, {}) == {a};
  }

  lemma ResetOne(a: Id, b: Id, before: Statuses)
    requires a != b && before.Keys == {a, b} && before[a].Failed? && before[b].InProgress?
    ensures var start := ResetFailed(before);
            && start.Keys == {a, b} && start[a].Pending? && start[b].InProgress?
            && start[a := Completed] == before[a := Completed]
  {
  }

  /** The retry completes `a`, stalls over `b`, and leaves no chunk FAILED. */
  lemma RetryStalls(g: Graph, a: Id, b: Id, before: Statuses, caught: bool, after: Statuses)
    requires a != b && g.Keys == before.Keys == {a, b} && g[a] == [] && g[b] == [] && ValidDag(g)
    requires before[a].Failed? && before[b].InProgress? && DevelopPost(g, 2, before, {}, caught, after)
    ensures caught && after == before[a := Completed]
  {
    var start := ResetFailed(before);
    var order, result := RunOfVisit(g, 2, before, {}, caught, after);
    ResetOne(a, b, before);
    StalledRun(g, order, a, b, start, result, after);
  }

  lemma LeavesUnfinished(a: Id, b: Id)
    requires a != b
    ensures AnyFailed(OneLeft(a, b)) && !AnyFailed(OneLeft(a, b)[a := Completed])
    ensures !AllCompleted(OneLeft(a, b)[a := Completed])
  {
    assert OneLeft(a, b)[a].Failed? && OneLeft(a, b)[a := Completed][b].InProgress?;
  }

  lemma RoutesOn()
    ensures RouteAfterDevelop(0, 1, true) == Develop && RouteAfterDevelop(0, 2, false) == Integrate
  {
  }

  /**
   "Integrate only when every chunk is COMPLETED" fails from an all-PENDING start too, with two
   workers. Both executors raise, the run ends with `a` FAILED and `b` still IN_PROGRESS, and the
   edge retries; the retry completes `a` and stalls over `b`, no chunk is FAILED, and the edge integrates.
   */
  lemma TwoRaisesReachIntegrate(a: Id, b: Id, caught: bool, after: Statuses) returns (run: seq<Pool>)
    requires a != b && DevelopPost(TwoChunks(a, b), 2, OneLeft(a, b), {}, caught, after)
    ensures IsRun(TwoChunks(a, b), OrderOfTwo(a, b), 2, true, {}, run) && run[0] == AllPending(TwoChunks(a, b))
    ensures RaiseStep(true, {a, b}, Last(run), a, OneLeft(a, b))
    ensures DevelopPost(TwoChunks(a, b), 2, run[0].status, {a, b}, true, OneLeft(a, b))
    ensures AnyFailed(OneLeft(a, b)) && RouteAfterDevelop(0, 1, true) == Develop
    ensures !AnyFailed(after) && !AllCompleted(after) && RouteAfterDevelop(0, 2, false) == Integrate
  {
    run := BothRaise(a, b);
    BothRaiseVisit(a, b);
    TwoChunksAreValid(a, b);
    RetryStalls(TwoChunks(a, b), a, b, OneLeft(a, b), caught, after);
    LeavesUnfinished(a, b);
    RoutesOn();
  }

  /** Runs the pool over a valid DAG. */
  method RunDag(g: Graph, order: seq<Id>, max: nat, ghost before: Statuses, status: Statuses, fails: set<Id>)
    returns (caught: bool, after: Statuses)
    requires IsLeastOrder(g, order) && ValidDag(g) && 1 <= max
    requires before.Keys == g.Keys && status == ResetFailed(before)
    ensures DevelopPost(g, max, before, fails, caught, after) && after.Keys == before.Keys
  {
    var pool := NewPool(g, order, max, true, status, map c | c in g :: None);
    var result, _ := pool.value.Run(fails);
    caught, after := !result.Finished?, pool.value.status;
    VisitByRun(g, order, max, before, status, fails, result, after);
  }

  /** The graph of the chunks and the order in which they are taken, unless the graph is rejected. */
  method BuildDag(chunks: seq<ChunkSpec>) returns (built: Option<(Graph, seq<Id>)>)
    ensures built.Some? <==> ValidDag(AdjacencyOf(chunks))
    ensures built.Some? ==> built.value.0 == AdjacencyOf(chunks) && IsLeastOrder(built.value.0, built.value.1)
  {
    var dag := Build(chunks);
    built := if dag.Ok? then Some((dag.value.adjacency, dag.value.order)) else None;
  }

  /** Builds the DAG and runs the pool over it; `caught` says an engine error was raised on the way. */
  method RunPool(chunks: seq<ChunkSpec>, max: int, ghost before: Statuses, status: Statuses, fails: set<Id>)
    returns (caught: bool, after: Statuses)
    requires before.Keys == AdjacencyOf(chunks).Keys && status == ResetFailed(before)
    ensures DevelopPost(AdjacencyOf(chunks), max, before, fails, caught, after)
    ensures after.Keys == before.Keys
  {
    var built := BuildDag(chunks);
    if built.None? || max < 1 {
      return true, status;
    }
    caught, after := RunDag(built.value.0, built.value.1, max, before, status, fails);
  }

  /** The ids of `list(chunks)`; they are the nodes of the graph. */
  function ChunkIds(chunks: seq<ChunkSpec>): (ids: seq<Id>)
    ensures forall c :: c in ids <==> c in AdjacencyOf(chunks)
    ensures |ids| == |chunks| && forall i :: 0 <= i < |chunks| ==> ids[i] == chunks[i].id
  {
    if chunks == [] then [] else
      var front := ChunkIds(chunks[..|chunks| - 1]);
      front + [chunks[|chunks| - 1].id]
  }

  datatype PipelineEnd = CriticPublished | Escalated

  class Pipeline {
    const chunks: seq<ChunkSpec>
    const maxParallelWorkers: int
    const innerLoopRetryCount: int
    var status: Statuses
    // The `chunk_dag` channel: its entries are the chunk objects, appended on every visit.
    var chunkDag: seq<Id>
    var e2eRetryCount: int
    var gate: ExecutionState
    // How often `develop` was entered.
    var visits: nat

    constructor (chunks: seq<ChunkSpec>, maxParallelWorkers: int, status: Statuses, gate: ExecutionState)
      requires status.Keys == AdjacencyOf(chunks).Keys
      ensures this.chunks == chunks && this.maxParallelWorkers == maxParallelWorkers && this.status == status
      ensures this.gate == gate && e2eRetryCount == 0 && visits == 0 && chunkDag == []
    {
      this.chunks := chunks;
      this.maxParallelWorkers := maxParallelWorkers;
      this.innerLoopRetryCount := 0;
      this.status := status;
      this.chunkDag := [];
      this.e2eRetryCount := 0;
      this.gate := gate;
      this.visits := 0;
    }

    ghost function Dag(): Graph {
      AdjacencyOf(chunks)
    }

    /** Runs the chunk DAG once; an engine error counts one end-to-end retry. */
    method Develop(fails: set<Id>) returns (caught: bool)
      requires status.Keys == Dag().Keys
      modifies this
      ensures DevelopPost(Dag(), maxParallelWorkers, old(status), fails, caught, status)
      ensures status.Keys == Dag().Keys
      ensures forall c :: c in old(status) && (old(status)[c].Completed? || old(status)[c].InProgress?) ==>
                status[c] == old(status)[c]
      ensures !caught <==> ValidDag(Dag()) && 1 <= maxParallelWorkers && fails !! Dag().Keys
                           && forall c :: c in Dag() ==> old(status)[c].Pending? || old(status)[c].Failed?
      ensures e2eRetryCount == old(e2eRetryCount) + if caught then 1 else 0
      ensures chunkDag == old(chunkDag) + ChunkIds(chunks)
      ensures visits == old(visits) + 1 && gate == old(gate)
    {
      visits := visits + 1;
      status := ResetFailed(status);
      chunkDag := chunkDag + ChunkIds(chunks);
      caught, status := RunPool(chunks, maxParallelWorkers, old(status), status, fails);
      VisitKeepsSettled(Dag(), maxParallelWorkers, old(status), fails, caught, status);
      VisitSucceedsIff(Dag(), maxParallelWorkers, old(status), fails, caught, status);
      if caught {
        e2eRetryCount := e2eRetryCount + 1;
      }
    }

    /** `any(chunk.status is FAILED for chunk in chunk_dag)`. */
    method SeesFailed() returns (any: bool)
      requires forall c :: c in chunkDag ==> c in status
      requires forall c :: c in status ==> c in chunkDag
      ensures any <==> AnyFailed(status)
    {
      any := false;
      for i := 0 to |chunkDag|
        invariant any <==> exists k :: 0 <= k < i && status[chunkDag[k]].Failed?
      {
        if status[chunkDag[i]].Failed? {
          any := true;
        }
      }
      if any {
        var k :| 0 <= k < |chunkDag| && status[chunkDag[k]].Failed?;
      } else {
        forall c | c in status ensures !status[c].Failed? {
          var k :| 0 <= k < |chunkDag| && chunkDag[k] == c;
        }
      }
    }

    /** One visit of `develop` and the edge after it. */
    method VisitOnce(fails: set<Id>, ghost start: Statuses) returns (next: Node, ghost last: Statuses)
      requires status.Keys == Dag().Keys && forall c :: c in chunkDag ==> c in status
      requires Carried(Dag(), maxParallelWorkers, start, visits, status) && KeepsCompleted(start, status)
      modifies this
      ensures status.Keys == Dag().Keys && forall c :: c in chunkDag ==> c in status
      ensures last == old(status) && visits == old(visits) + 1 && gate == old(gate) && KeepsCompleted(start, status)
      ensures old(e2eRetryCount) <= e2eRetryCount <= old(e2eRetryCount) + 1
      ensures if next.Integrate? then
                && !AnyFailed(status)
                && (AllCompleted(status) <==> CompletesFrom(Dag(), maxParallelWorkers, last))
                && (maxParallelWorkers == 1 ==> EntryPost(Dag(), start, status))
              else
                && AnyFailed(status) && e2eRetryCount == old(e2eRetryCount) + 1
                && Carried(Dag(), maxParallelWorkers, start, visits, status)
                && next == if e2eRetryCount < E2E_CEILING then Node.Develop else Hitl
    {
      last := status;
      var caught := Develop(fails);
      VisitEffects(Dag(), maxParallelWorkers, start, visits - 1, last, fails, caught, status);
      var failed := SeesFailed();
      next := RouteAfterDevelop(innerLoopRetryCount, e2eRetryCount, failed);
    }

    /**
     From `develop` to the end of the graph. `failsAt(k)` is the set of chunks
     whose executor raises on visit `k`; `last` and `entry` are the statuses before
     the last visit and after it, on entering `integrate`.
     */
    method Run(failsAt: nat -> set<Id>)
      returns (end: PipelineEnd, ghost last: Statuses, ghost entry: Statuses)
      requires status.Keys == Dag().Keys && chunkDag == [] && visits == 0
      modifies this
      ensures 1 <= visits && (old(e2eRetryCount) < E2E_CEILING ==> old(e2eRetryCount) + visits <= E2E_CEILING)
      ensures old(e2eRetryCount) >= E2E_CEILING ==> visits == 1
      ensures old(e2eRetryCount) == 0 ==> visits <= 2
      ensures old(e2eRetryCount) + visits - 1 <= e2eRetryCount <= old(e2eRetryCount) + visits
      ensures KeepsCompleted(old(status), status)
      ensures end.Escalated? ==> gate == STOPPED && AnyFailed(status) && e2eRetryCount >= E2E_CEILING
      ensures end.CriticPublished? ==> entry == status && !AnyFailed(entry) && gate == old(gate)
      ensures end.CriticPublished? ==> (AllCompleted(entry) <==> CompletesFrom(Dag(), maxParallelWorkers, last))
      ensures visits == 1 ==> last == old(status)
      ensures end.CriticPublished? && maxParallelWorkers == 1 ==> EntryPost(Dag(), old(status), entry)
    {
      ghost var start := status;
      while true
        invariant status.Keys == Dag().Keys && forall c :: c in chunkDag ==> c in status
        invariant e2eRetryCount == old(e2eRetryCount) + visits && gate == old(gate)
        invariant visits > 0 ==> e2eRetryCount < E2E_CEILING
        invariant Carried(Dag(), maxParallelWorkers, start, visits, status) && KeepsCompleted(start, status)
        decreases E2E_CEILING - e2eRetryCount
      {
        var next: Node;
        next, last := VisitOnce(failsAt(visits), start);
        if next.Integrate? {
          return CriticPublished, last, status;
        }
        if next.Hitl? {
          gate := STOPPED;
          return Escalated, last, status;
        }
      }
    }
  }
}
