/**
 What a pool run must end with, whatever the completion order and whatever the
 executors write meanwhile: how it ends is a function of the graph, the starting
 statuses, and the set of chunks whose executor raises.
 */
module PoolOutcome {
  import opened Collections
  import opened IdOrder
  import opened Graph
  import opened TopologicalOrder
  import opened PoolModel

  /** `c` starts PENDING and each dependency starts COMPLETED or is among `ran` and does not raise. */
  ghost predicate Enabled(g: Graph, start: Statuses, fails: set<Id>, ran: set<Id>, c: Id) {
    && c in g && c in start && start[c].Pending?
    && forall d :: d in g[c] ==> d in start && (start[d].Completed? || (d in ran && d !in fails))
  }

  /** The chunks a run can execute, computed along a dependencies-first order. */
  ghost function Runnable(g: Graph, order: seq<Id>, start: Statuses, fails: set<Id>): (ran: set<Id>)
    ensures forall c :: c in ran ==> c in order
  {
    if order == [] then {} else
      var front, last := order[..|order| - 1], order[|order| - 1];
      var ran := Runnable(g, front, start, fails);
      assert forall c :: c in front ==> c in order;
      if Enabled(g, start, fails, ran, last) then ran + {last} else ran
  }

  lemma RespectsPrefix(g: Graph, order: seq<Id>, k: nat)
    requires Respects(g, order) && k <= |order|
    ensures Respects(g, order[..k])
  {
    forall i | 0 <= i < k ensures Ready(g, order[..k][..i], order[..k][i]) {
      assert order[..k][..i] == order[..i];
      assert Ready(g, order[..i], order[i]);
    }
  }

  /** `Runnable` is the set it should be: a chunk is in it exactly when it is enabled by it. */
  lemma {:induction false} RunnableIsFixpoint(g: Graph, order: seq<Id>, start: Statuses, fails: set<Id>, c: Id)
    requires Respects(g, order) && c in order
    ensures c in Runnable(g, order, start, fails) <==> Enabled(g, start, fails, Runnable(g, order, start, fails), c)
  {
    var front, last := order[..|order| - 1], order[|order| - 1];
    assert order == front + [last];
    var ran := Runnable(g, front, start, fails);
    RespectsPrefix(g, order, |order| - 1);
    assert Ready(g, order[..|order| - 1], last);
    if c in front {
      RunnableIsFixpoint(g, front, start, fails, c);
      var k :| 0 <= k < |front| && front[k] == c;
      assert Ready(g, front[..k], front[k]);
      assert forall d :: d in g[c] ==> d in front;
    }
  }

  lemma RunnableWerePending(g: Graph, order: seq<Id>, start: Statuses, fails: set<Id>)
    requires Respects(g, order)
    ensures forall c :: c in Runnable(g, order, start, fails) ==> c in g && c in start && start[c].Pending?
  {
    forall c | c in Runnable(g, order, start, fails) ensures c in g && c in start && start[c].Pending? {
      RunnableIsFixpoint(g, order, start, fails, c);
    }
  }

  /** Before the first raise it makes no difference which chunks raise: either way the same chunks can run. */
  lemma {:induction false} RaisesDecideAlike(g: Graph, order: seq<Id>, start: Statuses, fails: set<Id>)
    ensures Runnable(g, order, start, fails) <= Runnable(g, order, start, {})
    ensures Runnable(g, order, start, fails) !! fails <==> Runnable(g, order, start, {}) !! fails
    ensures Runnable(g, order, start, fails) !! fails ==>
              Runnable(g, order, start, fails) == Runnable(g, order, start, {})
  {
    if order != [] {
      RaisesDecideAlike(g, order[..|order| - 1], start, fails);
    }
  }

  /** The chunks whose raise keeps a dependent from starting: none, where claims may rest on chunks in flight. */
  function Blocking(early: bool, fails: set<Id>): set<Id> {
    if early then {} else fails
  }

  /**
   The bookkeeping of a run: `claimed` chunks were PENDING with dependencies that looked done;
   those no longer in flight completed without raising; those in flight are IN_PROGRESS, or
   show what their executor wrote; the rest are as they started.
   */
  ghost predicate Progress(g: Graph, start: Statuses, fails: set<Id>, early: bool, writes: bool,
                           claimed: set<Id>, inFlight: set<Id>, status: Statuses) {
    && status.Keys == g.Keys && start.Keys == g.Keys
    && inFlight <= claimed <= g.Keys
    && (forall c :: c in claimed ==>
          start[c].Pending? && forall d :: d in g[c] ==> LooksDone(status, inFlight, early, d))
    && (forall c :: c in inFlight ==> !status[c].Pending? && (!writes ==> status[c].InProgress?))
    && (forall c :: c in claimed && c !in inFlight ==> status[c].Completed? && c !in fails)
    && (forall c :: c in g && c !in claimed ==> status[c] == start[c])
  }

  lemma ClaimProgress(g: Graph, start: Statuses, fails: set<Id>, early: bool, writes: bool,
                      claimed: set<Id>, inFlight: set<Id>, status: Statuses, c: Id)
    requires Progress(g, start, fails, early, writes, claimed, inFlight, status)
    requires MayClaim(g, early, status, inFlight, c)
    ensures c !in claimed
    ensures Progress(g, start, fails, early, writes, claimed + {c}, inFlight + {c}, status[c := InProgress])
  {
    forall d | LooksDone(status, inFlight, early, d)
      ensures LooksDone(status[c := InProgress], inFlight + {c}, early, d)
    {
      assert d != c;
    }
  }

  lemma SettleProgress(g: Graph, start: Statuses, fails: set<Id>, early: bool, writes: bool,
                       claimed: set<Id>, inFlight: set<Id>, status: Statuses, c: Id)
    requires Progress(g, start, fails, early, writes, claimed, inFlight, status) && c in inFlight && c !in fails
    ensures Progress(g, start, fails, early, writes, claimed, inFlight - {c}, status[c := Completed])
  {
    forall d | LooksDone(status, inFlight, early, d)
      ensures LooksDone(status[c := Completed], inFlight - {c}, early, d)
    {
    }
  }

  lemma WriteProgress(g: Graph, start: Statuses, fails: set<Id>, early: bool,
                      claimed: set<Id>, inFlight: set<Id>, status: Statuses, status': Statuses)
    requires Progress(g, start, fails, early, true, claimed, inFlight, status) && Writes(inFlight, status, status')
    ensures Progress(g, start, fails, early, true, claimed, inFlight, status')
  {
    forall d | LooksDone(status, inFlight, early, d) ensures LooksDone(status', inFlight, early, d) {
    }
  }

  /** The chunks that left the ones in flight up to state `n` of a run. */
  ghost function DoneBy(run: seq<Pool>, n: nat): set<Id>
    requires n < |run|
  {
    if n == 0 then {} else DoneBy(run, n - 1) + (run[n - 1].inFlight - run[n].inFlight)
  }

  /** Those of the whole run: as long as it has not ended with a raise, the chunks it has settled. */
  ghost function DoneIn(run: seq<Pool>): set<Id> {
    if run == [] then {} else DoneBy(run, |run| - 1)
  }

  lemma {:induction false} DoneByLonger(run: seq<Pool>, p: Pool, n: nat)
    requires n < |run|
    ensures DoneBy(run + [p], n) == DoneBy(run, n)
  {
    if n > 0 {
      DoneByLonger(run, p, n - 1);
    }
  }

  lemma DoneSnoc(run: seq<Pool>, p: Pool)
    requires run != []
    ensures DoneIn(run + [p]) == DoneIn(run) + (Last(run).inFlight - p.inFlight)
  {
    DoneByLonger(run, p, |run| - 1);
  }

  /** The bookkeeping of a state with the chunks settled before it. */
  ghost predicate Booked(g: Graph, start: Statuses, fails: set<Id>, early: bool, writes: bool, done: set<Id>, p: Pool) {
    Progress(g, start, fails, early, writes, done + p.inFlight, p.inFlight, p.status)
  }

  lemma ClaimBooked(g: Graph, max: nat, writes: bool, leaked: set<nat>, start: Statuses, fails: set<Id>, done: set<Id>,
                    p: Pool, c: Id, slot: nat, p': Pool)
    requires SlotsSafe(max, leaked, p) && RoundSafe(max, writes, p) && ClaimStep(g, max, p, c, slot, p')
    requires Booked(g, start, fails, Early(max, writes), writes, done, p)
    ensures Booked(g, start, fails, Early(max, writes), writes, done, p') && c !in done + p.inFlight
  {
    ClaimRestsOn(g, max, writes, leaked, p, c, slot, p');
    ClaimProgress(g, start, fails, Early(max, writes), writes, done + p.inFlight, p.inFlight, p.status, c);
    RegroupSets(done, p.inFlight, {c});
  }

  lemma SettleBooked(g: Graph, start: Statuses, fails: set<Id>, early: bool, writes: bool, done: set<Id>,
                     p: Pool, c: Id, p': Pool)
    requires Booked(g, start, fails, early, writes, done, p) && SettleStep(p, c, p') && c !in fails
    ensures Booked(g, start, fails, early, writes, done + {c}, p')
  {
    SettleProgress(g, start, fails, early, writes, done + p.inFlight, p.inFlight, p.status, c);
    MoveOne(done, p.inFlight, c);
  }

  /** Any other step leaves the same chunks in flight. */
  lemma TurnBooked(g: Graph, order: seq<Id>, max: nat, writes: bool, start: Statuses, fails: set<Id>, done: set<Id>,
                   p: Pool, p': Pool)
    requires (writes && WriteStep(p, p')) || ListStep(g, order, p, p') || WaitStep(max, p, p') || RoundStep(p, p')
    requires Booked(g, start, fails, Early(max, writes), writes, done, p)
    ensures Booked(g, start, fails, Early(max, writes), writes, done, p') && p'.inFlight == p.inFlight
  {
    if writes && WriteStep(p, p') {
      WriteProgress(g, start, fails, Early(max, writes), done + p.inFlight, p.inFlight, p.status, p'.status);
    }
  }

  lemma StepBooked(g: Graph, order: seq<Id>, max: nat, writes: bool, leaked: set<nat>, start: Statuses, fails: set<Id>,
                   done: set<Id>, p: Pool, p': Pool)
    requires SlotsSafe(max, leaked, p) && RoundSafe(max, writes, p) && Step(g, order, max, writes, p, p')
    requires Booked(g, start, fails, Early(max, writes), writes, done, p) && (p.inFlight - p'.inFlight) !! fails
    ensures Booked(g, start, fails, Early(max, writes), writes, done + (p.inFlight - p'.inFlight), p')
  {
    if c, slot :| ClaimStep(g, max, p, c, slot, p') {
      NothingLeft(done, p.inFlight, p'.inFlight);
      ClaimBooked(g, max, writes, leaked, start, fails, done, p, c, slot, p');
    } else if c :| SettleStep(p, c, p') {
      OneLeft(p.inFlight, c);
      SettleBooked(g, start, fails, Early(max, writes), writes, done, p, c, p');
    } else {
      TurnBooked(g, order, max, writes, start, fails, done, p, p');
      NothingLeft(done, p.inFlight, p'.inFlight);
    }
  }

  lemma FreshBooked(g: Graph, max: nat, writes: bool, leaked: set<nat>, fails: set<Id>, p: Pool)
    requires IsStart(g, max, leaked, p)
    ensures Booked(g, p.status, fails, Early(max, writes), writes, {}, p)
  {
  }

  lemma SettledNow(g: Graph, order: seq<Id>, max: nat, writes: bool, leaked: set<nat>, p: Pool, p': Pool, d: Id)
    requires SlotsSafe(max, leaked, p) && Step(g, order, max, writes, p, p') && d in p.inFlight && d !in p'.inFlight
    ensures IsSettled(p', d) && d in p.status
  {
    var c :| SettleStep(p, c, p');
    SettlesOne(p, c, p');
  }

  /** What is settled stays so. */
  lemma {:induction false} DoneAreSettled(g: Graph, order: seq<Id>, max: nat, writes: bool, leaked: set<nat>,
                                          run: seq<Pool>, n: nat, d: Id)
    requires IsRun(g, order, max, writes, leaked, run) && n < |run| && d in DoneBy(run, n)
    ensures IsSettled(run[n], d) && d in g
  {
    SlotsAreSafe(g, order, max, writes, leaked, run, n - 1);
    RunsAreSettledBefore(g, order, max, writes, leaked, run, n - 1);
    StepAt(g, order, max, writes, leaked, run, n - 1);
    if d in DoneBy(run, n - 1) {
      DoneAreSettled(g, order, max, writes, leaked, run, n - 1, d);
      StaysSettled(g, order, max, writes, run[n - 1], run[n], d);
    } else {
      SettledNow(g, order, max, writes, leaked, run[n - 1], run[n], d);
    }
  }

  /** The bookkeeping holds of every state of a run before which no settled chunk raised. */
  lemma {:induction false} RunIsBooked(g: Graph, order: seq<Id>, max: nat, writes: bool, leaked: set<nat>,
                                       fails: set<Id>, run: seq<Pool>, n: nat)
    requires IsRun(g, order, max, writes, leaked, run) && n < |run| && DoneBy(run, n) !! fails
    ensures Booked(g, run[0].status, fails, Early(max, writes), writes, DoneBy(run, n), run[n])
  {
    if n > 0 {
      RunIsBooked(g, order, max, writes, leaked, fails, run, n - 1);
      SlotsAreSafe(g, order, max, writes, leaked, run, n - 1);
      RoundsAreSafe(g, order, max, writes, leaked, run, n - 1);
      StepAt(g, order, max, writes, leaked, run, n - 1);
      StepBooked(g, order, max, writes, leaked, run[0].status, fails, DoneBy(run, n - 1), run[n - 1], run[n]);
    } else {
      FreshBooked(g, max, writes, leaked, fails, run[0]);
    }
  }

  /** Only runnable chunks are ever claimed; where claims may be early, those runnable if nothing raised. */
  lemma {:induction false} ClaimedAreRunnable(g: Graph, order: seq<Id>, start: Statuses, fails: set<Id>, early: bool,
                            writes: bool, claimed: set<Id>, inFlight: set<Id>, status: Statuses, k: nat)
    requires IsTopological(g, order) && k <= |order|
    requires Progress(g, start, fails, early, writes, claimed, inFlight, status)
    ensures forall c :: c in claimed && c in order[..k] ==> c in Runnable(g, order, start, Blocking(early, fails))
  {
    if k > 0 {
      ClaimedAreRunnable(g, order, start, fails, early, writes, claimed, inFlight, status, k - 1);
      var c := order[k - 1];
      assert order[..k] == order[..k - 1] + [c];
      if c in claimed {
        assert Ready(g, order[..k - 1], c);
        forall d | d in g[c] ensures LooksDone(status, inFlight, early, d) && d in order[..k - 1] {
        }
        RunnableIsFixpoint(g, order, start, Blocking(early, fails), c);
      }
    }
  }

  lemma ClaimedWithinRunnable(g: Graph, order: seq<Id>, start: Statuses, fails: set<Id>, early: bool, writes: bool,
                              claimed: set<Id>, inFlight: set<Id>, status: Statuses)
    requires IsTopological(g, order) && Progress(g, start, fails, early, writes, claimed, inFlight, status)
    ensures claimed <= Runnable(g, order, start, Blocking(early, fails))
  {
    ClaimedAreRunnable(g, order, start, fails, early, writes, claimed, inFlight, status, |order|);
    assert order[..|order|] == order;
  }

  /** When nothing is in flight and nothing is ready, every runnable chunk was claimed. */
  lemma {:induction false} RunnableAreClaimed(g: Graph, order: seq<Id>, start: Statuses, fails: set<Id>, writes: bool,
                            claimed: set<Id>, status: Statuses, k: nat)
    requires IsTopological(g, order) && k <= |order|
    requires Progress(g, start, fails, false, writes, claimed, {}, status)
    requires forall c :: !IsReady(g, status, c)
    ensures forall c :: c in order[..k] && c in Runnable(g, order, start, fails) ==> c in claimed
  {
    if k > 0 {
      RunnableAreClaimed(g, order, start, fails, writes, claimed, status, k - 1);
      var c := order[k - 1];
      assert order[..k] == order[..k - 1] + [c];
      if c in Runnable(g, order, start, fails) {
        assert Ready(g, order[..k - 1], c);
        RunnableIsFixpoint(g, order, start, fails, c);
        assert DependenciesCompleted(g, status, c);
        assert !IsReady(g, status, c);
      }
    }
  }

  /** A run from all-PENDING in which nothing raises executes every chunk. */
  lemma {:induction false} AllPendingAllRunnable(g: Graph, order: seq<Id>, start: Statuses, fails: set<Id>, k: nat)
    requires IsTopological(g, order) && start.Keys == g.Keys && k <= |order|
    requires (forall c :: c in g ==> start[c].Pending?) && fails !! g.Keys
    ensures forall c :: c in order[..k] ==> c in Runnable(g, order, start, fails)
  {
    if k > 0 {
      AllPendingAllRunnable(g, order, start, fails, k - 1);
      var c := order[k - 1];
      assert order[..k] == order[..k - 1] + [c];
      assert Ready(g, order[..k - 1], c);
      RespectsIsDistinct(g, order);
      RunnableIsFixpoint(g, order, start, fails, c);
    }
  }

  /**
   Claimed and settled are the same set of chunks at the end of a run that stalls or finishes,
   also where claims were early: an early claim that ended well is no different.
   */
  lemma QuietRunIsExact(g: Graph, order: seq<Id>, start: Statuses, fails: set<Id>, early: bool, writes: bool,
                        claimed: set<Id>, status: Statuses)
    requires IsTopological(g, order)
    requires Progress(g, start, fails, early, writes, claimed, {}, status)
    requires forall c :: !IsReady(g, status, c)
    ensures claimed == Runnable(g, order, start, fails)
    ensures Runnable(g, order, start, fails) !! fails
  {
    assert Progress(g, start, fails, false, writes, claimed, {}, status);
    ClaimedAreRunnable(g, order, start, fails, false, writes, claimed, {}, status, |order|);
    RunnableAreClaimed(g, order, start, fails, writes, claimed, status, |order|);
    assert order[..|order|] == order;
    forall c ensures c in claimed <==> c in Runnable(g, order, start, fails) {
    }
  }
}
