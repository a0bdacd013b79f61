/**
 One worker executes the runnable chunks one after the other, in the order of the graph
 (engine/worker_pool.py): which chunk a run fails at, and what it has done by then, follow
 from the graph, the starting statuses, and the set of chunks whose executor raises.
 */
module OneWorker {
  import opened Collections
  import opened Graph
  import opened IdOrder
  import opened PoolModel
  import opened PoolOutcome
  import opened TopologicalOrder

  /** No chunk is in `claimed` before one that stands earlier and can run. */
  ghost predicate InTurn(g: Graph, order: seq<Id>, start: Statuses, claimed: set<Id>) {
    forall c, d :: c in claimed && d in Runnable(g, order, start, {}) && Before(order, d, c) ==> d in claimed
  }

  /** The settled chunks are in turn, and so are they with what is in flight. */
  ghost predicate TakesTurns(g: Graph, order: seq<Id>, start: Statuses, done: set<Id>, inFlight: set<Id>) {
    InTurn(g, order, start, done) && InTurn(g, order, start, done + inFlight) && |inFlight| <= 1
  }

  /** What a failure at `chunk` leaves of `c`, with one worker. */
  ghost predicate EndsInTurn(g: Graph, order: seq<Id>, start: Statuses, fails: set<Id>, chunk: Id, c: Id, end: Status) {
    if c == chunk then end == Failed
    else if c in Runnable(g, order, start, {}) && Before(order, c, chunk) then end == Completed && c !in fails
    else c in start && end == start[c]
  }

  /**
   A run of one worker that ends with a raise has failed at the first chunk in the order that can run and
   raises; it has completed exactly the chunks that can run and stand before it, and touched no other.
   */
  ghost predicate SequentialFailure(g: Graph, order: seq<Id>, start: Statuses, fails: set<Id>, chunk: Id,
                                    end: Statuses) {
    && end.Keys == g.Keys == start.Keys && chunk in Runnable(g, order, start, {}) && chunk in fails
    && forall c :: c in end ==> EndsInTurn(g, order, start, fails, chunk, c, end[c])
  }

  /** That leaves nothing open. */
  lemma SequentialFailureIsUnique(g: Graph, order: seq<Id>, start: Statuses, fails: set<Id>,
                                  chunk1: Id, end1: Statuses, chunk2: Id, end2: Statuses)
    requires IsTopological(g, order)
    requires SequentialFailure(g, order, start, fails, chunk1, end1)
    requires SequentialFailure(g, order, start, fails, chunk2, end2)
    ensures chunk1 == chunk2 && end1 == end2
  {
    RespectsIsDistinct(g, order);
    assert EndsInTurn(g, order, start, fails, chunk1, chunk2, end1[chunk2]);
    assert EndsInTurn(g, order, start, fails, chunk2, chunk1, end2[chunk1]);
    assert chunk1 in order && chunk2 in order;
    assert chunk1 != chunk2 ==> Before(order, chunk1, chunk2) || Before(order, chunk2, chunk1);
    forall c | c in end1 ensures end1[c] == end2[c] {
      assert EndsInTurn(g, order, start, fails, chunk1, c, end1[c]);
      assert EndsInTurn(g, order, start, fails, chunk2, c, end2[c]);
    }
  }

  lemma DependencyIsBefore(g: Graph, order: seq<Id>, d: Id, e: Id)
    requires IsTopological(g, order) && d in order && d in g && e in g[d]
    ensures Before(order, e, d)
  {
    var k := IndexOf(order, d);
    assert Ready(g, order[..k], order[k]);
    var j :| 0 <= j < k && order[j] == e;
  }

  /** When the chunk about to be claimed has no ready chunk before it, all that can run before it were claimed. */
  lemma {:induction false} EarlierIsClaimed(g: Graph, order: seq<Id>, start: Statuses, fails: set<Id>, early: bool,
                                            writes: bool, claimed: set<Id>, status: Statuses, c: Id, d: Id)
    requires IsTopological(g, order) && Progress(g, start, fails, early, writes, claimed, {}, status)
    requires forall n :: IsReady(g, status, n) ==> !Before(order, n, c)
    requires d in Runnable(g, order, start, {}) && Before(order, d, c)
    ensures d in claimed
    decreases IndexOf(order, d)
  {
    RespectsIsDistinct(g, order);
    RunnableIsFixpoint(g, order, start, {}, d);
    if d !in claimed {
      forall e | e in g[d] ensures e in status && status[e].Completed? {
        DependencyIsBefore(g, order, d, e);
        if !start[e].Completed? {
          EarlierIsClaimed(g, order, start, fails, early, writes, claimed, status, c, e);
        } else {
          assert e in claimed ==> start[e].Pending?;
        }
      }
      assert IsReady(g, status, d);
    }
  }

  /** Claiming the first ready chunk, with nothing in flight, keeps the turns. */
  lemma ClaimTakesTurn(g: Graph, order: seq<Id>, start: Statuses, fails: set<Id>, early: bool, writes: bool,
                       done: set<Id>, status: Statuses, c: Id)
    requires IsTopological(g, order) && Progress(g, start, fails, early, writes, done, {}, status)
    requires forall n :: IsReady(g, status, n) ==> !Before(order, n, c)
    requires TakesTurns(g, order, start, done, {})
    ensures TakesTurns(g, order, start, done, {c})
  {
    forall d | d in Runnable(g, order, start, {}) && Before(order, d, c) ensures d in done {
      EarlierIsClaimed(g, order, start, fails, early, writes, done, status, c, d);
    }
  }

  lemma OnlyOneInFlight(inFlight: set<Id>, c: Id)
    requires c in inFlight && |inFlight| <= 1
    ensures inFlight == {c}
  {
    SubsetSize({c}, inFlight);
  }

  lemma SettleTakesTurn(g: Graph, order: seq<Id>, start: Statuses, done: set<Id>, inFlight: set<Id>, c: Id)
    requires TakesTurns(g, order, start, done, inFlight) && c in inFlight
    ensures TakesTurns(g, order, start, done + {c}, inFlight - {c})
  {
    OnlyOneInFlight(inFlight, c);
    MoveOne(done, inFlight, c);
  }

  /** The next of the ready list has no ready chunk before it when nothing is in flight. */
  lemma NextIsFirst(g: Graph, order: seq<Id>, p: Pool, n: Id)
    requires ListSafe(g, order, p) && p.phase.Claiming? && p.todo != [] && p.inFlight == {}
    requires IsReady(g, p.status, n)
    ensures !Before(order, n, p.todo[0])
  {
    assert SurelyReady(g, p, n);
    var j :| 0 <= j < |p.todo| && p.todo[j] == n;
    assert 0 < j ==> Before(order, p.todo[0], p.todo[j]);
  }

  lemma ClaimKeepsTurns(g: Graph, order: seq<Id>, writes: bool, start: Statuses, fails: set<Id>, done: set<Id>,
                        p: Pool, c: Id, slot: nat, p': Pool)
    requires IsTopological(g, order) && ListSafe(g, order, p) && ClaimStep(g, 1, p, c, slot, p')
    requires Booked(g, start, fails, Early(1, writes), writes, done, p)
    requires TakesTurns(g, order, start, done, p.inFlight)
    ensures TakesTurns(g, order, start, done, p'.inFlight)
  {
    assert p.inFlight == {} && p'.inFlight == {c} && done + {} == done;
    forall n | IsReady(g, p.status, n) ensures !Before(order, n, c) {
      NextIsFirst(g, order, p, n);
    }
    ClaimTakesTurn(g, order, start, fails, Early(1, writes), writes, done, p.status, c);
  }

  lemma StepKeepsTurns(g: Graph, order: seq<Id>, writes: bool, start: Statuses, fails: set<Id>, done: set<Id>,
                       p: Pool, p': Pool)
    requires IsTopological(g, order) && ListSafe(g, order, p) && Step(g, order, 1, writes, p, p')
    requires Booked(g, start, fails, Early(1, writes), writes, done, p)
    requires TakesTurns(g, order, start, done, p.inFlight)
    ensures TakesTurns(g, order, start, done + (p.inFlight - p'.inFlight), p'.inFlight)
  {
    if c, slot :| ClaimStep(g, 1, p, c, slot, p') {
      NothingLeft(done, p.inFlight, p'.inFlight);
      ClaimKeepsTurns(g, order, writes, start, fails, done, p, c, slot, p');
    } else if c :| SettleStep(p, c, p') {
      OneLeft(p.inFlight, c);
      SettleTakesTurn(g, order, start, done, p.inFlight, c);
    } else {
      NothingLeft(done, p.inFlight, p'.inFlight);
    }
  }

  /** With one worker chunks are settled in the order of the graph, in every run. */
  lemma {:induction false} RunTakesTurns(g: Graph, order: seq<Id>, writes: bool, leaked: set<nat>, fails: set<Id>,
                                         run: seq<Pool>, n: nat)
    requires IsTopological(g, order) && IsRun(g, order, 1, writes, leaked, run) && n < |run| && DoneBy(run, n) !! fails
    ensures TakesTurns(g, order, run[0].status, DoneBy(run, n), run[n].inFlight)
  {
    if n > 0 {
      RunTakesTurns(g, order, writes, leaked, fails, run, n - 1);
      RunIsBooked(g, order, 1, writes, leaked, fails, run, n - 1);
      ListsAreSafe(g, order, 1, writes, leaked, run, n - 1);
      StepAt(g, order, 1, writes, leaked, run, n - 1);
      StepKeepsTurns(g, order, writes, run[0].status, fails, DoneBy(run, n - 1), run[n - 1], run[n]);
    }
  }

  // --- a raise ----------------------------------------------------------------------------

  /** The settled chunks are those that can run and stand before the one in flight. */
  lemma DoneUpTo(g: Graph, order: seq<Id>, start: Statuses, done: set<Id>, chunk: Id, d: Id)
    requires TakesTurns(g, order, start, done, {chunk}) && chunk !in done
    requires done + {chunk} <= Runnable(g, order, start, {})
    ensures d in done <==> d in Runnable(g, order, start, {}) && Before(order, d, chunk)
  {
    if d in done {
      assert d in order && chunk in order;
      assert !Before(order, chunk, d);
      assert IndexOf(order, d) != IndexOf(order, chunk);
    }
  }

  /** What the bookkeeping says of one chunk when the only one in flight raises. */
  lemma RaiseLeavesStatus(g: Graph, start: Statuses, fails: set<Id>, writes: bool, done: set<Id>, status: Statuses,
                          chunk: Id, c: Id)
    requires Progress(g, start, fails, false, writes, done + {chunk}, {chunk}, status) && c in g
    ensures chunk in g
    ensures status[chunk := Failed][c] ==
            if c == chunk then Failed else if c in done then Completed else start[c]
    ensures c in done && c != chunk ==> c !in fails
  {
  }

  lemma StatusInTurn(g: Graph, order: seq<Id>, start: Statuses, fails: set<Id>, writes: bool, done: set<Id>,
                     status: Statuses, chunk: Id, c: Id)
    requires Progress(g, start, fails, false, writes, done + {chunk}, {chunk}, status) && c in g
    requires TakesTurns(g, order, start, done, {chunk}) && chunk !in done
    requires done + {chunk} <= Runnable(g, order, start, {})
    ensures chunk in g && EndsInTurn(g, order, start, fails, chunk, c, status[chunk := Failed][c])
  {
    DoneUpTo(g, order, start, done, chunk, c);
    RaiseLeavesStatus(g, start, fails, writes, done, status, chunk, c);
  }

  lemma ClaimsCanRun(g: Graph, order: seq<Id>, start: Statuses, fails: set<Id>, writes: bool, done: set<Id>,
                     status: Statuses, chunk: Id)
    requires IsTopological(g, order) && Progress(g, start, fails, false, writes, done + {chunk}, {chunk}, status)
    ensures done + {chunk} <= Runnable(g, order, start, {})
  {
    ClaimedWithinRunnable(g, order, start, fails, false, writes, done + {chunk}, {chunk}, status);
    RaisesDecideAlike(g, order, start, fails);
  }

  lemma RaiseInTurn(g: Graph, order: seq<Id>, start: Statuses, fails: set<Id>, writes: bool, done: set<Id>,
                    status: Statuses, chunk: Id)
    requires IsTopological(g, order) && Progress(g, start, fails, false, writes, done + {chunk}, {chunk}, status)
    requires TakesTurns(g, order, start, done, {chunk}) && chunk in fails && done !! fails
    ensures SequentialFailure(g, order, start, fails, chunk, status[chunk := Failed])
  {
    ClaimsCanRun(g, order, start, fails, writes, done, status, chunk);
    assert chunk in done + {chunk};
    UpdateKeepsKeys(status, chunk, Failed);
    var end := status[chunk := Failed];
    forall c | c in end ensures EndsInTurn(g, order, start, fails, chunk, c, end[c]) {
      StatusInTurn(g, order, start, fails, writes, done, status, chunk, c);
    }
  }
}
