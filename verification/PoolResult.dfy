/**
 How a run of the worker pool ends (engine/worker_pool.py): what it returns and the statuses
 it leaves, in terms of the graph, the starting statuses, and the chunks whose executor raises.
 */
module PoolResult {
  import opened Collections
  import opened Graph
  import opened IdOrder
  import opened OneWorker
  import opened PoolModel
  import opened PoolOutcome
  import opened TopologicalOrder

  datatype RunResult =
    | Finished(order: seq<Id>)
    | ChunkFailed(chunk: Id)
    | Stalled
    | NoFreeSlot

  /**
   After a raise: the raising chunk is FAILED; the `left` chunks were still in flight and are
   IN_PROGRESS, or as their executor wrote; every other chunk is untouched or COMPLETED.
   */
  ghost predicate FailedWith(g: Graph, writes: bool, ran: set<Id>, start: Statuses, fails: set<Id>,
                             left: set<Id>, chunk: Id, end: Statuses) {
    && end.Keys == g.Keys == start.Keys
    && chunk in ran && chunk in fails && chunk in g && end[chunk].Failed?
    && left <= ran && chunk !in left
    && (forall c :: c in g && c !in ran ==> end[c] == start[c])
    && (forall c :: c in left && c in g ==> !end[c].Pending? && (!writes ==> end[c].InProgress?))
    && (forall c :: c in ran && c in g && c != chunk && c !in left ==>
          end[c].Pending? || (end[c].Completed? && c !in fails))
  }

  /** At most `max - 1` other chunks were in flight. */
  ghost predicate FailedPost(g: Graph, max: nat, writes: bool, ran: set<Id>, start: Statuses, fails: set<Id>,
                             chunk: Id, end: Statuses) {
    exists left :: |left| < max && FailedWith(g, writes, ran, start, fails, left, chunk, end)
  }

  /**
   What a run returns and leaves behind, for a pool that started with statuses `start`, is
   decided by the runnable set; after a raise, with early claims, by what would run without it,
   and with one worker entirely.
   */
  ghost predicate RunPost(g: Graph, order: seq<Id>, max: nat, writes: bool, start: Statuses, fails: set<Id>,
                          result: RunResult, end: Statuses) {
    var ran := Runnable(g, order, start, fails);
    && end.Keys == g.Keys == start.Keys
    && (result.Finished? <==> ran == g.Keys && ran !! fails)
    && (result.Stalled? <==> ran != g.Keys && ran !! fails)
    && (result.ChunkFailed? <==> !(ran !! fails))
    && (result.Finished? ==> result.order == order)
    && (!result.ChunkFailed? ==> forall c :: c in g ==> end[c] == if c in ran then Completed else start[c])
    && (result.ChunkFailed? ==>
          FailedPost(g, max, writes, Runnable(g, order, start, Blocking(Early(max, writes), fails)), start, fails,
                     result.chunk, end))
    && (result.ChunkFailed? && max == 1 ==> SequentialFailure(g, order, start, fails, result.chunk, end))
  }

  /** The last step of a run that ends with a raise: the chunk is FAILED, and the others in flight run to their end. */
  ghost predicate RaiseStep(writes: bool, fails: set<Id>, p: Pool, chunk: Id, end: Statuses) {
    && (p.phase.Waiting? || p.phase.Settling?) && chunk in p.inFlight && chunk in fails && chunk in p.status
    && Writes(p.inFlight - {chunk}, p.status[chunk := Failed], end)
    && (!writes ==> end == p.status[chunk := Failed])
  }

  /** No chunk that left the ones in flight raised. */
  ghost predicate IsQuiet(g: Graph, order: seq<Id>, max: nat, writes: bool, leaked: set<nat>, fails: set<Id>,
                          run: seq<Pool>) {
    IsRun(g, order, max, writes, leaked, run) && DoneIn(run) !! fails
  }

  // --- a raise ----------------------------------------------------------------------------

  /** What is left when the executor of an in-flight chunk raises. */
  lemma RaiseLeaves(g: Graph, order: seq<Id>, early: bool, writes: bool, start: Statuses, fails: set<Id>,
                    claimed: set<Id>, inFlight: set<Id>, status: Statuses, c: Id)
    requires IsTopological(g, order) && Progress(g, start, fails, early, writes, claimed, inFlight, status)
    requires c in inFlight && c in fails
    ensures FailedWith(g, writes, Runnable(g, order, start, Blocking(early, fails)), start, fails,
                       inFlight - {c}, c, status[c := Failed])
  {
    ClaimedWithinRunnable(g, order, start, fails, early, writes, claimed, inFlight, status);
    RunnableWerePending(g, order, start, Blocking(early, fails));
  }

  /** The executors still running after a raise change only what is left. */
  lemma WritesAfterRaise(g: Graph, ran: set<Id>, start: Statuses, fails: set<Id>, left: set<Id>, chunk: Id,
                         end: Statuses, end': Statuses)
    requires FailedWith(g, true, ran, start, fails, left, chunk, end) && Writes(left, end, end')
    ensures FailedWith(g, true, ran, start, fails, left, chunk, end')
  {
  }

  lemma RaiseAmongOthers(g: Graph, ran: set<Id>, writes: bool, start: Statuses, fails: set<Id>, p: Pool, c: Id,
                         end: Statuses)
    requires RaiseStep(writes, fails, p, c, end)
    requires FailedWith(g, writes, ran, start, fails, p.inFlight - {c}, c, p.status[c := Failed])
    ensures FailedWith(g, writes, ran, start, fails, p.inFlight - {c}, c, end)
  {
    if writes {
      WritesAfterRaise(g, ran, start, fails, p.inFlight - {c}, c, p.status[c := Failed], end);
    }
  }

  lemma OthersInFlight(g: Graph, order: seq<Id>, max: nat, writes: bool, leaked: set<nat>, run: seq<Pool>, c: Id)
    requires IsRun(g, order, max, writes, leaked, run) && c in Last(run).inFlight
    ensures |Last(run).inFlight - {c}| < max
  {
    SlotsAreSafe(g, order, max, writes, leaked, run, |run| - 1);
  }

  lemma RaiseFails(g: Graph, order: seq<Id>, max: nat, writes: bool, leaked: set<nat>, fails: set<Id>,
                   run: seq<Pool>, c: Id, end: Statuses)
    requires IsTopological(g, order) && IsQuiet(g, order, max, writes, leaked, fails, run)
    requires RaiseStep(writes, fails, Last(run), c, end)
    ensures var start := run[0].status;
            FailedPost(g, max, writes, Runnable(g, order, start, Blocking(Early(max, writes), fails)), start, fails,
                       c, end)
  {
    var start, p, early := run[0].status, Last(run), Early(max, writes);
    var reached := Runnable(g, order, start, Blocking(early, fails));
    RunIsBooked(g, order, max, writes, leaked, fails, run, |run| - 1);
    OthersInFlight(g, order, max, writes, leaked, run, c);
    RaiseLeaves(g, order, early, writes, start, fails, DoneIn(run) + p.inFlight, p.inFlight, p.status, c);
    RaiseAmongOthers(g, reached, writes, start, fails, p, c, end);
  }

  /** With one worker there is nobody else to write. */
  lemma AloneInFlight(writes: bool, fails: set<Id>, p: Pool, c: Id, end: Statuses)
    requires RaiseStep(writes, fails, p, c, end) && p.inFlight == {c}
    ensures end == p.status[c := Failed]
  {
  }

  lemma RaiseAlone(g: Graph, order: seq<Id>, writes: bool, leaked: set<nat>, fails: set<Id>, run: seq<Pool>,
                   c: Id, end: Statuses)
    requires IsTopological(g, order) && IsQuiet(g, order, 1, writes, leaked, fails, run)
    requires RaiseStep(writes, fails, Last(run), c, end)
    ensures SequentialFailure(g, order, run[0].status, fails, c, end)
  {
    var p := Last(run);
    RunIsBooked(g, order, 1, writes, leaked, fails, run, |run| - 1);
    RunTakesTurns(g, order, writes, leaked, fails, run, |run| - 1);
    OnlyOneInFlight(p.inFlight, c);
    RaiseInTurn(g, order, run[0].status, fails, writes, DoneIn(run), p.status, c);
    AloneInFlight(writes, fails, p, c, end);
  }

  // --- how a run ends ---------------------------------------------------------------------

  lemma EmptyRun(g: Graph, order: seq<Id>, max: nat, writes: bool, start: Statuses, fails: set<Id>)
    requires IsTopological(g, order) && start.Keys == g.Keys && |g| == 0
    ensures RunPost(g, order, max, writes, start, fails, Finished(order), start)
  {
    RespectsIsDistinct(g, order);
    assert Runnable(g, order, start, fails) == {} == g.Keys;
  }

  lemma QuietRun(g: Graph, order: seq<Id>, max: nat, writes: bool, start: Statuses, fails: set<Id>,
                 done: set<Id>, status: Statuses, result: RunResult)
    requires IsTopological(g, order)
    requires Progress(g, start, fails, Early(max, writes), writes, done, {}, status)
    requires (result == Finished(order) && done == g.Keys) || (result.Stalled? && done != g.Keys)
    requires result.Stalled? ==> forall c :: !IsReady(g, status, c)
    ensures RunPost(g, order, max, writes, start, fails, result, status)
  {
    QuietRunIsExact(g, order, start, fails, Early(max, writes), writes, done, status);
  }

  lemma FailedRun(g: Graph, order: seq<Id>, max: nat, writes: bool, start: Statuses, fails: set<Id>,
                  chunk: Id, end: Statuses)
    requires FailedPost(g, max, writes, Runnable(g, order, start, Blocking(Early(max, writes), fails)), start, fails,
                        chunk, end)
    requires max == 1 ==> SequentialFailure(g, order, start, fails, chunk, end)
    ensures RunPost(g, order, max, writes, start, fails, ChunkFailed(chunk), end)
  {
    RaisesDecideAlike(g, order, start, fails);
  }

  /** What the loop knows when it ends: all are settled, or nothing is left to claim, or a chunk raised. */
  ghost predicate LoopPost(g: Graph, order: seq<Id>, writes: bool, fails: set<Id>, run: seq<Pool>, result: RunResult,
                           status: Statuses)
    requires run != []
  {
    match result
    case Finished(listed) =>
      listed == order && Last(run).inFlight == {} && status == Last(run).status && DoneIn(run) == g.Keys
    case Stalled =>
      && Last(run).inFlight == {} && status == Last(run).status && DoneIn(run) != g.Keys
      && forall c :: !IsReady(g, status, c)
    case ChunkFailed(chunk) => RaiseStep(writes, fails, Last(run), chunk, status)
    case NoFreeSlot => true
  }

  lemma RunEnds(g: Graph, order: seq<Id>, max: nat, writes: bool, leaked: set<nat>, fails: set<Id>, run: seq<Pool>,
                result: RunResult, status: Statuses)
    requires IsTopological(g, order) && IsQuiet(g, order, max, writes, leaked, fails, run) && !result.NoFreeSlot?
    requires LoopPost(g, order, writes, fails, run, result, status)
    ensures RunPost(g, order, max, writes, run[0].status, fails, result, status)
  {
    if result.ChunkFailed? {
      RaiseFails(g, order, max, writes, leaked, fails, run, result.chunk, status);
      if max == 1 {
        RaiseAlone(g, order, writes, leaked, fails, run, result.chunk, status);
      }
      FailedRun(g, order, max, writes, run[0].status, fails, result.chunk, status);
    } else {
      RunIsBooked(g, order, max, writes, leaked, fails, run, |run| - 1);
      assert DoneIn(run) + {} == DoneIn(run);
      QuietRun(g, order, max, writes, run[0].status, fails, DoneIn(run), status, result);
    }
  }

  /** A run finishes exactly when every chunk starts PENDING and no executor raises; then all are COMPLETED. */
  lemma FinishesExactly(g: Graph, order: seq<Id>, max: nat, writes: bool, start: Statuses, fails: set<Id>,
                        result: RunResult, end: Statuses)
    requires IsTopological(g, order) && RunPost(g, order, max, writes, start, fails, result, end)
    ensures result.Finished? <==> (forall c :: c in g ==> start[c].Pending?) && fails !! g.Keys
    ensures result.Finished? ==> forall c :: c in g ==> end[c].Completed?
  {
    var ran := Runnable(g, order, start, fails);
    RespectsIsDistinct(g, order);
    assert order[..|order|] == order;
    if (forall c :: c in g ==> start[c].Pending?) && fails !! g.Keys {
      AllPendingAllRunnable(g, order, start, fails, |order|);
      assert ran == g.Keys;
    }
    if ran == g.Keys {
      forall c | c in g ensures start[c].Pending? {
        RunnableIsFixpoint(g, order, start, fails, c);
      }
    }
  }

  /**
   Two runs of the same input, under any completion orders, bounds and writes, end alike; with one worker
   each, also when a chunk fails.
   */
  lemma CompletionOrderIsIrrelevant(g: Graph, order: seq<Id>, max1: nat, max2: nat, writes1: bool, writes2: bool,
                                    start: Statuses, fails: set<Id>, result1: RunResult, end1: Statuses,
                                    result2: RunResult, end2: Statuses)
    requires IsTopological(g, order)
    requires RunPost(g, order, max1, writes1, start, fails, result1, end1)
    requires RunPost(g, order, max2, writes2, start, fails, result2, end2)
    requires !result1.NoFreeSlot? && !result2.NoFreeSlot?
    ensures result1.ChunkFailed? <==> result2.ChunkFailed?
    ensures !result1.ChunkFailed? || (max1 == 1 && max2 == 1) ==> result1 == result2 && end1 == end2
  {
    assert end1.Keys == end2.Keys;
    if result1.ChunkFailed? && max1 == 1 && max2 == 1 {
      SequentialFailureIsUnique(g, order, start, fails, result1.chunk, end1, result2.chunk, end2);
    }
  }
}
