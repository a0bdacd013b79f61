/**
 The worker pool (engine/worker_pool.py) stepped by an arbitrary completion
 order. An executor is represented by whether it raises, and, if it `writes`, by
 the statuses it gives its own chunk while it runs: the executor of the pipeline
 shows COMPLETED before the tests of the chunk have run (engine/pipeline.py,
 engine/nodes/developer.py). `wait` returns any non-empty set of finished futures.
 Every state the pool goes through is recorded, and what holds at the end of a run
 is proved of the record.
 */
module WorkerPool {
  import opened Collections
  import opened Graph
  import opened IdOrder
  import opened PoolModel
  import opened PoolOutcome
  import opened PoolResult
  import opened TopologicalOrder
  import opened Wrappers

  // --- the last state of a run --------------------------------------------------------------

  lemma LastIsSafe(g: Graph, order: seq<Id>, max: nat, writes: bool, leaked: set<nat>, run: seq<Pool>)
    requires IsRun(g, order, max, writes, leaked, run)
    ensures SlotsSafe(max, leaked, Last(run)) && RoundSafe(max, writes, Last(run)) && ListSafe(g, order, Last(run))
  {
    SlotsAreSafe(g, order, max, writes, leaked, run, |run| - 1);
    RoundsAreSafe(g, order, max, writes, leaked, run, |run| - 1);
    ListsAreSafe(g, order, max, writes, leaked, run, |run| - 1);
  }

  lemma ChunksInFlight(g: Graph, order: seq<Id>, max: nat, writes: bool, leaked: set<nat>, run: seq<Pool>)
    requires IsRun(g, order, max, writes, leaked, run)
    ensures Last(run).inFlight <= g.Keys
    ensures forall c :: c in Last(run).inFlight ==> c in Last(run).worker && Last(run).worker[c].Some?
    ensures forall c :: c in Last(run).inFlight && c in Last(run).status ==> !Last(run).status[c].Pending?
  {
    SlotsAreSafe(g, order, max, writes, leaked, run, |run| - 1);
    RunsAreSettledBefore(g, order, max, writes, leaked, run, |run| - 1);
  }

  /** The next of the ready list can be claimed. */
  lemma NextCanBeClaimed(g: Graph, order: seq<Id>, max: nat, writes: bool, leaked: set<nat>, run: seq<Pool>)
    requires IsRun(g, order, max, writes, leaked, run) && Last(run).phase.Claiming? && Last(run).todo != []
    ensures var c := Last(run).todo[0]; c in g && Listed(g, Last(run), c) && c !in Last(run).inFlight
  {
    LastIsSafe(g, order, max, writes, leaked, run);
    assert Last(run).todo[0] in Last(run).todo;
  }

  lemma SlotIsFree(g: Graph, order: seq<Id>, max: nat, writes: bool, run: seq<Pool>)
    requires IsRun(g, order, max, writes, {}, run) && |Last(run).inFlight| < max
    ensures !(Slots(max) <= Last(run).inUse)
  {
    SlotsAreSafe(g, order, max, writes, {}, run, |run| - 1);
    FreeSlotExists(max, Last(run));
  }

  /** With nothing in flight every worker id of the run is free again. */
  lemma SlotsReturned(g: Graph, order: seq<Id>, max: nat, writes: bool, leaked: set<nat>, run: seq<Pool>)
    requires IsRun(g, order, max, writes, leaked, run)
    ensures Last(run).inFlight == {} ==> Last(run).inUse == leaked
  {
    SlotsAreSafe(g, order, max, writes, leaked, run, |run| - 1);
    if Last(run).inFlight == {} {
      assert Assigned(Last(run)) == {};
    }
  }

  /** As many chunks settled as there are means that all are, and none is in flight. */
  lemma DoneSize(g: Graph, order: seq<Id>, max: nat, writes: bool, leaked: set<nat>, run: seq<Pool>)
    requires IsRun(g, order, max, writes, leaked, run)
    ensures DoneIn(run) !! Last(run).inFlight && |DoneIn(run)| <= |g|
    ensures |DoneIn(run)| == |g| ==> DoneIn(run) == g.Keys && Last(run).inFlight == {}
  {
    forall d | d in DoneIn(run) ensures d in g && d !in Last(run).inFlight {
      DoneAreSettled(g, order, max, writes, leaked, run, |run| - 1, d);
    }
    SubsetSize(DoneIn(run), g.Keys);
    ChunksInFlight(g, order, max, writes, leaked, run);
  }

  lemma PrefixGrows(order: seq<Id>, i: nat)
    requires i < |order| && Distinct(order)
    ensures forall c :: c in order[..i + 1] <==> c in order[..i] || c == order[i]
    ensures order[i] !in order[..i]
  {
    assert order[..i + 1] == order[..i] + [order[i]];
  }

  lemma DependenciesAreNodes(g: Graph, order: seq<Id>, c: Id)
    requires IsTopological(g, order) && c in order
    ensures c in g && forall d :: d in g[c] ==> d in g
  {
    RespectsIsDistinct(g, order);
    var k := IndexOf(order, c);
    assert Ready(g, order[..k], order[k]);
  }

  // --- the ready list -----------------------------------------------------------------------

  lemma LaterStill(g: Graph, order: seq<Id>, max: nat, writes: bool, leaked: set<nat>, run: seq<Pool>)
    requires IsRun(g, order, max, writes, leaked, run)
    ensures Later(Last(run), Last(run))
  {
    ChunksInFlight(g, order, max, writes, leaked, run);
  }

  lemma LaterYet(p: Pool, p': Pool, p'': Pool)
    requires Later(p, p') && Later(p', p'')
    ensures Later(p, p'')
  {
  }

  /** A PENDING chunk is not in flight, so nobody writes its status. */
  lemma StaysPending(g: Graph, order: seq<Id>, max: nat, writes: bool, leaked: set<nat>, run: seq<Pool>, c: Id)
    requires IsRun(g, order, max, writes, leaked, run) && c in Last(run).status && Last(run).status[c].Pending?
    ensures c !in Last(run).inFlight
  {
    ChunksInFlight(g, order, max, writes, leaked, run);
  }

  /** `ready` is the list of the first `count` chunks: what may be claimed, and all that is surely ready, in order. */
  ghost predicate ReadyAmong(g: Graph, order: seq<Id>, p: Pool, count: nat, ready: seq<Id>) {
    && count <= |order| && InOrder(order, ready)
    && (forall c :: c in ready ==> c in order[..count] && Listed(g, p, c))
    && (forall c :: c in order[..count] && SurelyReady(g, p, c) ==> c in ready)
  }

  lemma ReadyAmongLater(g: Graph, order: seq<Id>, p: Pool, p': Pool, count: nat, ready: seq<Id>)
    requires ReadyAmong(g, order, p, count, ready) && Later(p, p')
    ensures ReadyAmong(g, order, p', count, ready)
  {
    forall c ensures (Listed(g, p, c) ==> Listed(g, p', c)) && (SurelyReady(g, p', c) ==> SurelyReady(g, p, c)) {
      LaterKeeps(g, p, p', c);
    }
  }

  lemma PositionOf(order: seq<Id>, i: nat)
    requires i < |order| && Distinct(order)
    ensures IndexOf(order, order[i]) == i
  {
  }

  lemma EarlierIsBefore(order: seq<Id>, i: nat, c: Id)
    requires i < |order| && Distinct(order) && c in order[..i]
    ensures Before(order, c, order[i])
  {
    PositionOf(order, i);
    var k :| 0 <= k < i && order[k] == c;
    PositionOf(order, k);
  }

  lemma ReadyAmongNext(g: Graph, order: seq<Id>, p: Pool, i: nat, ready: seq<Id>, listed: bool)
    requires ReadyAmong(g, order, p, i, ready) && i < |order| && Distinct(order)
    requires listed ==> Listed(g, p, order[i])
    requires SurelyReady(g, p, order[i]) ==> listed
    ensures ReadyAmong(g, order, p, i + 1, if listed then ready + [order[i]] else ready)
  {
    PrefixGrows(order, i);
    forall c | c in ready ensures Before(order, c, order[i]) {
      EarlierIsBefore(order, i, c);
    }
    InOrderSnoc(order, ready, order[i]);
  }

  lemma ReadyChunksNext(g: Graph, order: seq<Id>, status: Statuses, i: nat)
    requires i < |order| && forall n :: n in order ==> n in g && n in status
    ensures ReadyChunks(g, order[..i + 1], status) ==
            ReadyChunks(g, order[..i], status) + if IsReady(g, status, order[i]) then [order[i]] else []
  {
    assert order[..i + 1][..i] == order[..i];
  }

  lemma WholeReadyList(g: Graph, order: seq<Id>, p: Pool, ready: seq<Id>)
    requires IsTopological(g, order) && ReadyAmong(g, order, p, |order|, ready)
    ensures IsReadyList(g, order, p, ready)
  {
    FullPrefix(order);
  }

  /** With the list used up and nothing in flight, nothing is ready. */
  lemma NothingReady(g: Graph, order: seq<Id>, p: Pool)
    requires ListSafe(g, order, p) && p.phase.Claiming? && p.todo == [] && p.inFlight == {}
    ensures forall c :: !IsReady(g, p.status, c)
  {
    forall c ensures IsReady(g, p.status, c) ==> SurelyReady(g, p, c) {
    }
  }

  // --- the object -------------------------------------------------------------------------

  class WorkerPool {
    const g: Graph
    const order: seq<Id>
    const maxParallel: nat
    // Whether the executors write the status of their chunk.
    const writes: bool
    var status: Statuses
    var worker: map<Id, Option<nat>>
    var inUse: set<nat>
    // The current round: its phase, what was in flight at its start, what was seen COMPLETED, what is left of its list.
    ghost var phase: Phase
    ghost var base: set<Id>
    ghost var shown: set<Id>
    ghost var todo: seq<Id>
    // Every state the current run went through.
    ghost var trace: seq<Pool>

    constructor (g: Graph, order: seq<Id>, maxParallel: nat, writes: bool, status: Statuses,
                 worker: map<Id, Option<nat>>)
      requires IsTopological(g, order) && status.Keys == g.Keys && worker.Keys == g.Keys && 1 <= maxParallel
      ensures Valid() && this.g == g && this.order == order
      ensures this.maxParallel == maxParallel && this.writes == writes
      ensures this.status == status && inUse == {}
    {
      this.g := g;
      this.order := order;
      this.maxParallel := maxParallel;
      this.writes := writes;
      this.status := status;
      this.worker := worker;
      this.inUse := {};
      this.phase, this.base, this.shown, this.todo := Scanning, {}, {}, [];
      this.trace := [];
    }

    ghost predicate Valid()
      reads this
    {
      && IsTopological(g, order)
      && status.Keys == g.Keys && worker.Keys == g.Keys
      && 1 <= maxParallel && inUse <= Slots(maxParallel)
    }

    ghost function Snapshot(inFlight: set<Id>): Pool
      reads this
    {
      Pool(status, worker, inUse, inFlight, phase, base, shown, todo)
    }

    /** Nobody changes a status between two steps of the pool. */
    predicate Still(inFlight: set<Id>) {
      !writes || inFlight == {}
    }

    /** Marks the lowest free slot in use; `None` is the unreachable-by-design error. */
    method AcquireWorkerId() returns (slot: Option<nat>)
      modifies this`inUse
      ensures slot.Some? ==> LowestFree(maxParallel, old(inUse), slot.value) && inUse == old(inUse) + {slot.value}
      ensures slot.None? ==> Slots(maxParallel) <= old(inUse) && inUse == old(inUse)
    {
      for s := 1 to maxParallel + 1
        invariant inUse == old(inUse)
        invariant forall t :: 1 <= t < s ==> t in inUse
      {
        if s !in inUse {
          inUse := inUse + {s};
          return Some(s);
        }
      }
      slot := None;
    }

    /** Stamps a chunk with a slot and submits it. */
    method Claim(c: Id, ghost inFlight: set<Id>) returns (slot: Option<nat>)
      requires Valid() && c in g
      modifies this`status, this`worker, this`inUse, this`todo
      ensures Valid()
      ensures slot.Some? ==> LowestFree(maxParallel, old(inUse), slot.value)
      ensures slot.Some? ==> Snapshot(inFlight + {c}) == Claimed(old(Snapshot(inFlight)), c, slot.value)
      ensures slot.None? ==> Slots(maxParallel) <= old(inUse) && Snapshot(inFlight) == old(Snapshot(inFlight))
    {
      slot := AcquireWorkerId();
      if slot.None? {
        return;
      }
      UpdateKeepsKeys(worker, c, slot);
      UpdateKeepsKeys(status, c, InProgress);
      worker := worker[c := slot];
      status := status[c := InProgress];
      todo := WithoutHead(todo);
    }

    /** Marks a finished chunk COMPLETED and frees its slot. */
    method Settle(c: Id, ghost inFlight: set<Id>)
      requires Valid() && c in inFlight && c in g && worker[c].Some? && (phase.Waiting? || phase.Settling?)
      modifies this`status, this`inUse, this`phase
      ensures Valid() && SettleStep(old(Snapshot(inFlight)), c, Snapshot(inFlight - {c}))
    {
      status := status[c := Completed];
      inUse := inUse - {worker[c].value};
      phase := Settling;
    }

    /** The executors of the given chunks run on: each may change the status of its chunk, if they write at all. */
    method ExecutorsWrite(inFlight: set<Id>)
      requires Valid() && inFlight <= g.Keys
      modifies this`status
      ensures Valid() && Writes(inFlight, old(status), status)
      ensures Still(inFlight) ==> status == old(status)
    {
      if !writes {
        return;
      }
      var todo := inFlight;
      while todo != {}
        invariant todo <= inFlight && Valid() && Writes(inFlight, old(status), status)
        invariant inFlight == {} ==> status == old(status)
        decreases todo
      {
        var c :| c in todo;
        var shown :| shown == status[c] || !shown.Pending?;
        status := status[c := shown];
        todo := todo - {c};
      }
    }

    // --- the record ----------------------------------------------------------------------

    /** The states so far are those of a run. */
    ghost predicate Recorded()
      reads this
    {
      trace != [] && IsRun(g, order, maxParallel, writes, trace[0].inUse, trace)
    }

    /** The last state recorded is the present one. */
    ghost predicate Running(inFlight: set<Id>)
      reads this
    {
      Valid() && Recorded() && Last(trace) == Snapshot(inFlight)
    }

    /** Where the run began. */
    ghost function Origin(): Option<Pool>
      reads this
    {
      if trace == [] then None else Some(trace[0])
    }

    /** What it has settled. */
    ghost function Done(): set<Id>
      reads this
    {
      DoneIn(trace)
    }

    ghost method Record(inFlight: set<Id>)
      requires Valid() && Recorded() && Step(g, order, maxParallel, writes, Last(trace), Snapshot(inFlight))
      modifies this`trace
      ensures Running(inFlight) && Origin() == old(Origin())
      ensures Done() == old(Done()) + (old(Last(trace)).inFlight - inFlight)
    {
      RunExtends(g, order, maxParallel, writes, trace[0].inUse, trace, Snapshot(inFlight));
      DoneSnoc(trace, Snapshot(inFlight));
      trace := trace + [Snapshot(inFlight)];
    }

    /** Records a step that leaves the same chunks in flight, or more. */
    ghost method RecordMore(inFlight: set<Id>)
      requires Valid() && Recorded() && Step(g, order, maxParallel, writes, Last(trace), Snapshot(inFlight))
      requires Last(trace).inFlight <= inFlight
      modifies this`trace
      ensures Running(inFlight) && Origin() == old(Origin()) && Done() == old(Done())
    {
      NothingLeft(Done(), Last(trace).inFlight, inFlight);
      Record(inFlight);
    }

    // --- listing -------------------------------------------------------------------------

    /** Any time passes between two steps of the pool. */
    method LetExecutorsRun(inFlight: set<Id>)
      requires Running(inFlight)
      modifies this`status, this`shown, this`trace
      ensures Running(inFlight) && Origin() == old(Origin()) && Done() == old(Done())
      ensures Later(old(Snapshot(inFlight)), Snapshot(inFlight))
      ensures Still(inFlight) ==> status == old(status)
    {
      ghost var before := Snapshot(inFlight);
      ChunksInFlight(g, order, maxParallel, writes, trace[0].inUse, trace);
      ExecutorsWrite(inFlight);
      if writes {
        if phase.Scanning? {
          shown := shown + CompletedIn(status);
        }
        assert WriteStep(before, Snapshot(inFlight));
        RecordMore(inFlight);
      }
    }

    /** Reads the status of one dependency of `c`, some time later. */
    method LookAt(inFlight: set<Id>, ghost c: Id, d: Id) returns (done: bool)
      requires Running(inFlight) && phase.Scanning?
      requires c in g && d in g[c] && d in g
      modifies this`status, this`shown, this`trace
      ensures Running(inFlight) && Origin() == old(Origin()) && Done() == old(Done())
      ensures Later(old(Snapshot(inFlight)), Snapshot(inFlight)) && (Still(inFlight) ==> status == old(status))
      ensures done == status[d].Completed? && (done ==> d in shown)
      ensures SurelyReady(g, Snapshot(inFlight), c) ==> done
    {
      LetExecutorsRun(inFlight);
      done := status[d].Completed?;
      LastIsSafe(g, order, maxParallel, writes, trace[0].inUse, trace);
      assert SurelyReady(g, Snapshot(inFlight), c) ==> SettledDone(Snapshot(inFlight), d);
    }

    /** Looks at one dependency after the other, while the executors run on. */
    method LooksReady(inFlight: set<Id>, c: Id) returns (done: bool)
      requires Running(inFlight) && phase.Scanning?
      requires c in g && forall d :: d in g[c] ==> d in g
      modifies this`status, this`shown, this`trace
      ensures Running(inFlight) && Origin() == old(Origin()) && Done() == old(Done())
      ensures Later(old(Snapshot(inFlight)), Snapshot(inFlight)) && (Still(inFlight) ==> status == old(status))
      ensures done ==> forall d :: d in g[c] ==> d in shown
      ensures SurelyReady(g, Snapshot(inFlight), c) ==> done
      ensures Still(inFlight) ==> (done <==> DependenciesCompleted(g, status, c))
    {
      var deps := g[c];
      done := true;
      var j := 0;
      LaterStill(g, order, maxParallel, writes, trace[0].inUse, trace);
      while done && j < |deps|
        invariant j <= |deps| && Running(inFlight) && Origin() == old(Origin()) && Done() == old(Done())
        invariant Later(old(Snapshot(inFlight)), Snapshot(inFlight)) && (Still(inFlight) ==> status == old(status))
        invariant done ==> SeenDone(deps[..j], inFlight)
        invariant !done ==> !SurelyReady(g, Snapshot(inFlight), c)
        invariant !done ==> !DependenciesCompleted(g, status, c)
      {
        ghost var before := Snapshot(inFlight);
        done := LookAt(inFlight, c, deps[j]);
        LaterYet(old(Snapshot(inFlight)), before, Snapshot(inFlight));
        SnocPrefix(deps, j);
        j := j + 1;
      }
      FullPrefix(deps);
    }

    /** The dependencies were seen COMPLETED, and still are if nobody changes a status. */
    ghost predicate SeenDone(deps: seq<Id>, inFlight: set<Id>)
      reads this
    {
      && (forall d :: d in deps ==> d in shown)
      && (Still(inFlight) ==> forall d :: d in deps ==> d in status && status[d].Completed?)
    }

    /** The ready chunks among the first `count` of the order. */
    function ReadyNow(count: nat): seq<Id>
      reads this
      requires Valid() && count <= |order|
    {
      RespectsIsDistinct(g, order);
      ReadyChunks(g, order[..count], status)
    }

    /** Decides on the next chunk of the order. */
    method Consider(inFlight: set<Id>, i: nat, ready0: seq<Id>) returns (ready: seq<Id>)
      requires Running(inFlight) && phase.Scanning?
      requires i < |order| && ReadyAmong(g, order, Snapshot(inFlight), i, ready0)
      requires Still(inFlight) ==> ready0 == ReadyNow(i)
      modifies this`status, this`shown, this`trace
      ensures Running(inFlight) && Origin() == old(Origin()) && Done() == old(Done())
      ensures Still(inFlight) ==> status == old(status)
      ensures ReadyAmong(g, order, Snapshot(inFlight), i + 1, ready)
      ensures Still(inFlight) ==> ready == ReadyNow(i + 1)
    {
      RespectsIsDistinct(g, order);
      var c := order[i];
      ReadyChunksNext(g, order, status, i);
      if !status[c].Pending? {
        ReadyAmongNext(g, order, Snapshot(inFlight), i, ready0, false);
        return ready0;
      }
      DependenciesAreNodes(g, order, c);
      ghost var before := Snapshot(inFlight);
      StaysPending(g, order, maxParallel, writes, trace[0].inUse, trace, c);
      var done := LooksReady(inFlight, c);
      ReadyAmongLater(g, order, before, Snapshot(inFlight), i, ready0);
      ReadyAmongNext(g, order, Snapshot(inFlight), i, ready0, done);
      ready := if done then ready0 + [c] else ready0;
    }

    /**
     The ready list, chunk by chunk in DAG order. Unless executors write meanwhile it is exactly
     the ready chunks, in that order.
     */
    method ReadyList(inFlight: set<Id>) returns (ready: seq<Id>)
      requires Running(inFlight) && phase.Scanning?
      modifies this`status, this`shown, this`trace
      ensures Running(inFlight) && Origin() == old(Origin()) && Done() == old(Done())
      ensures Still(inFlight) ==> status == old(status)
      ensures ReadyAmong(g, order, Snapshot(inFlight), |order|, ready)
      ensures Still(inFlight) ==> ready == ReadyNow(|order|)
    {
      ready := [];
      for i := 0 to |order|
        invariant Running(inFlight) && Origin() == old(Origin()) && Done() == old(Done())
        invariant Still(inFlight) ==> status == old(status)
        invariant ReadyAmong(g, order, Snapshot(inFlight), i, ready)
        invariant Still(inFlight) ==> ready == ReadyNow(i)
      {
        ready := Consider(inFlight, i, ready);
      }
    }

    /** The list is complete: the round turns to claiming. */
    method ListReady(inFlight: set<Id>) returns (ready: seq<Id>)
      requires Running(inFlight) && phase.Scanning?
      modifies this`status, this`shown, this`phase, this`todo, this`trace
      ensures Running(inFlight) && Origin() == old(Origin()) && Done() == old(Done())
      ensures phase.Claiming? && IsReadyList(g, order, Snapshot(inFlight), ready) && todo == ready
    {
      ready := ReadyList(inFlight);
      ghost var before := Snapshot(inFlight);
      WholeReadyList(g, order, before, ready);
      phase, todo := Claiming, ready;
      assert ListStep(g, order, before, Snapshot(inFlight));
      ListKeepsList(g, order, before, Snapshot(inFlight));
      RecordMore(inFlight);
    }

    // --- claiming ------------------------------------------------------------------------

    /** Claims the next chunk of the ready list. */
    method SubmitOne(ghost inFlight: set<Id>, c: Id) returns (ok: bool)
      requires Running(inFlight) && phase.Claiming? && |inFlight| < maxParallel && todo != [] && c == todo[0]
      modifies this`status, this`worker, this`inUse, this`todo, this`trace
      ensures Origin() == old(Origin()) && Done() == old(Done()) && Recorded()
      ensures ok ==> Running(inFlight + {c}) && todo == old(todo)[1..] && |inFlight + {c}| == |inFlight| + 1
      ensures trace[0].inUse == {} ==> ok
    {
      ghost var before := Snapshot(inFlight);
      NextCanBeClaimed(g, order, maxParallel, writes, trace[0].inUse, trace);
      var slot := Claim(c, inFlight);
      ok := slot.Some?;
      if ok {
        AddedOne(inFlight, c);
        assert ClaimStep(g, maxParallel, before, c, slot.value, Snapshot(inFlight + {c}));
        RecordMore(inFlight + {c});
      } else if trace[0].inUse == {} {
        SlotIsFree(g, order, maxParallel, writes, trace);
        assert false;
      }
    }

    /** One iteration of the claiming loop; the executors run on before the claim. */
    method SubmitNext(inFlight0: set<Id>, ready: seq<Id>, k: nat) returns (ok: bool, inFlight: set<Id>)
      requires Running(inFlight0) && phase.Claiming? && |inFlight0| < maxParallel && k < |ready| && todo == ready[k..]
      modifies this`status, this`worker, this`inUse, this`shown, this`todo, this`trace
      ensures Origin() == old(Origin()) && Done() == old(Done()) && Recorded()
      ensures ok ==> Running(inFlight) && todo == ready[k + 1..] && |inFlight| == |inFlight0| + 1
      ensures trace[0].inUse == {} ==> ok
    {
      LetExecutorsRun(inFlight0);
      SuffixOfSuffix(ready, k, 1);
      ok := SubmitOne(inFlight0, ready[k]);
      inFlight := inFlight0 + {ready[k]};
    }

    /** Claims from the ready list in its order, until the bound is reached. */
    method SubmitAll(inFlight0: set<Id>, ready: seq<Id>) returns (ok: bool, inFlight: set<Id>)
      requires Running(inFlight0) && phase.Claiming? && todo == ready
      modifies this`status, this`worker, this`inUse, this`shown, this`todo, this`trace
      ensures Origin() == old(Origin()) && Done() == old(Done()) && Recorded()
      ensures ok ==> Running(inFlight) && (todo == [] || maxParallel <= |inFlight|)
      ensures trace[0].inUse == {} ==> ok
    {
      ok, inFlight := true, inFlight0;
      var k := 0;
      EmptyPrefix(ready);
      while k < |ready| && |inFlight| < maxParallel
        invariant 0 <= k <= |ready| && ok && todo == ready[k..]
        invariant Running(inFlight) && Origin() == old(Origin()) && Done() == old(Done())
      {
        ok, inFlight := SubmitNext(inFlight, ready, k);
        if !ok {
          return;
        }
        k := k + 1;
      }
    }

    /** The claims are made: with something in flight the round turns to waiting, else nothing is ready. */
    ghost method EndClaims(inFlight: set<Id>)
      requires Running(inFlight) && phase.Claiming? && (todo == [] || maxParallel <= |inFlight|)
      modifies this`phase, this`trace
      ensures Running(inFlight) && Origin() == old(Origin()) && Done() == old(Done())
      ensures if inFlight != {} then phase.Waiting? else forall c :: !IsReady(g, status, c)
    {
      var before := Snapshot(inFlight);
      if inFlight != {} {
        phase := Waiting;
        assert WaitStep(maxParallel, before, Snapshot(inFlight));
        RecordMore(inFlight);
      } else {
        LastIsSafe(g, order, maxParallel, writes, trace[0].inUse, trace);
        NothingReady(g, order, before);
      }
    }

    /**
     Lists the ready chunks, claims from the list in its order until the bound is reached, and
     waits; with nothing in flight it does not wait, and nothing is ready.
     */
    method SubmitReady(inFlight0: set<Id>) returns (ok: bool, inFlight: set<Id>)
      requires Running(inFlight0) && phase.Scanning?
      modifies this`status, this`worker, this`inUse, this`shown, this`phase, this`todo, this`trace
      ensures Origin() == old(Origin()) && Done() == old(Done()) && Recorded()
      ensures ok ==> Running(inFlight)
      ensures ok ==> if inFlight != {} then phase.Waiting? else forall c :: !IsReady(g, status, c)
      ensures trace[0].inUse == {} ==> ok
    {
      var ready := ListReady(inFlight0);
      ok, inFlight := SubmitAll(inFlight0, ready);
      if ok {
        EndClaims(inFlight);
      }
    }

    // --- settling ------------------------------------------------------------------------

    /** A chunk that did not raise is settled. */
    method SettleDoneChunk(ghost inFlight: set<Id>, c: Id)
      requires Running(inFlight) && (phase.Waiting? || phase.Settling?) && c in inFlight
      modifies this`status, this`inUse, this`phase, this`trace
      ensures Running(inFlight - {c}) && phase.Settling? && Origin() == old(Origin())
      ensures Done() == old(Done()) + {c}
    {
      ghost var before := Snapshot(inFlight);
      ChunksInFlight(g, order, maxParallel, writes, trace[0].inUse, trace);
      Settle(c, inFlight);
      assert SettleStep(before, c, Snapshot(inFlight - {c}));
      OneLeft(inFlight, c);
      Record(inFlight - {c});
    }

    /**
     Marks a chunk FAILED whose executor raised. Leaving the thread pool waits for the executors
     that are still running.
     */
    method SettleRaisedChunk(ghost fails: set<Id>, inFlight: set<Id>, c: Id)
      requires Running(inFlight) && (phase.Waiting? || phase.Settling?) && c in inFlight && c in fails
      modifies this`status
      ensures RaiseStep(writes, fails, Last(trace), c, status) && inUse == Last(trace).inUse
    {
      ChunksInFlight(g, order, maxParallel, writes, trace[0].inUse, trace);
      status := status[c := Failed];
      ExecutorsWrite(inFlight - {c});
    }

    /** Settles one finished chunk, some time after it finished; a raise leaves the run. */
    method SettleOne(fails: set<Id>, inFlight: set<Id>, c: Id) returns (raised: bool)
      requires Running(inFlight) && (phase.Waiting? || phase.Settling?) && c in inFlight
      modifies this`status, this`inUse, this`shown, this`phase, this`trace
      ensures Origin() == old(Origin()) && Recorded() && (raised <==> c in fails)
      ensures !raised ==> Running(inFlight - {c}) && phase.Settling?
      ensures !raised ==> Done() == old(Done()) + {c} && |Done()| == |old(Done())| + 1
      ensures raised ==> RaiseStep(writes, fails, Last(trace), c, status) && Done() == old(Done())
      ensures raised ==> inUse == Last(trace).inUse
    {
      LetExecutorsRun(inFlight);
      raised := c in fails;
      if raised {
        SettleRaisedChunk(fails, inFlight, c);
      } else {
        DoneSize(g, order, maxParallel, writes, trace[0].inUse, trace);
        AddedOne(Done(), c);
        SettleDoneChunk(inFlight, c);
      }
    }

    /** Settles the finished chunks in some order, stopping at the first that raised. */
    method SettleDone(fails: set<Id>, inFlight0: set<Id>, done0: set<Id>)
      returns (failed: Option<Id>, inFlight: set<Id>, settled: nat)
      requires Running(inFlight0) && phase.Waiting? && done0 != {} && done0 <= inFlight0 && Done() !! fails
      modifies this`status, this`inUse, this`shown, this`phase, this`trace
      ensures Origin() == old(Origin()) && Recorded() && Done() !! fails
      ensures failed.None? ==> Running(inFlight) && phase.Settling?
      ensures failed.None? ==> |Done()| == |old(Done())| + settled && 0 < settled
      ensures failed.Some? ==> RaiseStep(writes, fails, Last(trace), failed.value, status) && inUse == Last(trace).inUse
    {
      var done := done0;
      inFlight, settled := inFlight0, 0;
      while done != {}
        invariant Running(inFlight) && Origin() == old(Origin()) && Done() !! fails
        invariant done <= inFlight && |Done()| == |old(Done())| + settled
        invariant if settled == 0 then phase.Waiting? && done == done0 else phase.Settling?
      {
        var c :| c in done;
        var raised := SettleOne(fails, inFlight, c);
        if raised {
          return Some(c), inFlight, settled;
        }
        inFlight, done, settled := inFlight - {c}, done - {c}, settled + 1;
      }
      failed := None;
    }

    /** The next round begins. */
    ghost method StartRound(inFlight: set<Id>)
      requires Running(inFlight) && phase.Settling?
      modifies this`phase, this`base, this`shown, this`todo, this`trace
      ensures Running(inFlight) && phase.Scanning? && base == inFlight
      ensures Origin() == old(Origin()) && Done() == old(Done())
    {
      var before := Snapshot(inFlight);
      phase, base, shown, todo := Scanning, inFlight, CompletedIn(status), [];
      assert RoundStep(before, Snapshot(inFlight));
      RecordMore(inFlight);
    }

    // --- the scheduling loop -------------------------------------------------------------

    /**
     One iteration of the scheduling loop: lists the ready chunks, claims, waits for at least one
     chunk, and settles. The states it goes through are recorded as the steps of one round.
     */
    method Round(fails: set<Id>, inFlight0: set<Id>)
      returns (outcome: Option<RunResult>, inFlight: set<Id>, settled: nat)
      requires Running(inFlight0) && phase.Scanning? && Done() !! fails
      modifies this
      ensures Origin() == old(Origin()) && Recorded() && Done() !! fails
      ensures outcome.None? ==> Running(inFlight) && phase.Scanning? && base == inFlight
      ensures outcome.None? ==> |Done()| == |old(Done())| + settled && 0 < settled
      ensures outcome == Some(Stalled) ==> Running({}) && Done() == old(Done()) && forall c :: !IsReady(g, status, c)
      ensures outcome.Some? && outcome.value.ChunkFailed? ==>
                RaiseStep(writes, fails, Last(trace), outcome.value.chunk, status) && inUse == Last(trace).inUse
      ensures trace[0].inUse == {} ==> outcome != Some(NoFreeSlot)
      ensures outcome.Some? ==> !outcome.value.Finished?
    {
      var ok: bool;
      settled := 0;
      ok, inFlight := SubmitReady(inFlight0);
      if !ok {
        return Some(NoFreeSlot), inFlight, settled;
      }
      if inFlight == {} {
        return Some(Stalled), inFlight, settled;
      }
      var done :| done <= inFlight && done != {};
      var failed: Option<Id>;
      failed, inFlight, settled := SettleDone(fails, inFlight, done);
      if failed.Some? {
        return Some(ChunkFailed(failed.value)), inFlight, settled;
      }
      StartRound(inFlight);
      outcome := None;
    }

    /** A run begins with nothing submitted. */
    ghost method Begin()
      requires Valid()
      modifies this`phase, this`base, this`shown, this`todo, this`trace
      ensures Running({}) && phase.Scanning? && Done() == {}
      ensures trace[0].status == status && trace[0].inUse == inUse
    {
      phase, base, shown, todo := Scanning, {}, CompletedIn(status), [];
      trace := [Snapshot({})];
    }

    /** The scheduling loop; `rounds` counts the iterations that settled a chunk. */
    method RunLoop(fails: set<Id>) returns (result: RunResult, ghost rounds: nat)
      requires Valid()
      modifies this
      ensures Recorded() && trace[0].status == old(status) && trace[0].inUse == old(inUse) && Done() !! fails
      ensures LoopPost(g, order, writes, fails, trace, result, status)
      ensures !result.NoFreeSlot? ==> inUse == Last(trace).inUse
      ensures old(inUse) == {} ==> !result.NoFreeSlot?
      ensures rounds <= |g|
    {
      var total := |g|;
      var completed := 0;
      var inFlight: set<Id> := {};
      rounds := 0;
      Begin();
      ghost var origin := Origin();
      while completed < total
        invariant Running(inFlight) && phase.Scanning? && Origin() == origin && Done() !! fails
        invariant completed == |Done()| && completed <= total
        invariant rounds <= completed
        decreases total - completed
      {
        var outcome: Option<RunResult>, settled: nat;
        outcome, inFlight, settled := Round(fails, inFlight);
        if outcome.Some? {
          return outcome.value, rounds;
        }
        DoneSize(g, order, maxParallel, writes, trace[0].inUse, trace);
        completed := completed + settled;
        rounds := rounds + 1;
      }
      DoneSize(g, order, maxParallel, writes, trace[0].inUse, trace);
      result := Finished(order);
    }

    /**
     Runs every chunk. How the run ends is decided by the graph, the starting statuses and
     `fails`; the completion order and what the executors write meanwhile play no part.
     */
    method Run(fails: set<Id>) returns (result: RunResult, ghost rounds: nat)
      requires Valid()
      modifies this
      ensures old(inUse) == {} ==> !result.NoFreeSlot?
      ensures !result.NoFreeSlot? ==> RunPost(g, order, maxParallel, writes, old(status), fails, result, status)
      ensures g != map[] ==> Recorded() && trace[0].status == old(status) && trace[0].inUse == old(inUse)
      ensures result.ChunkFailed? ==> trace != [] && RaiseStep(writes, fails, Last(trace), result.chunk, status)
      ensures result.Finished? || result.Stalled? ==> inUse == old(inUse)
      ensures result.ChunkFailed? ==> inUse == Last(trace).inUse
      ensures rounds <= |g|
    {
      ghost var start := status;
      var total := |g|;
      if total == 0 {
        EmptyRun(g, order, maxParallel, writes, start, fails);
        return Finished(order), 0;
      }
      result, rounds := RunLoop(fails);
      if !result.NoFreeSlot? {
        RunEnds(g, order, maxParallel, writes, trace[0].inUse, fails, trace, result, status);
        SlotsReturned(g, order, maxParallel, writes, trace[0].inUse, trace);
      }
    }
  }

  /** The pool constructor refuses a bound below one. */
  method NewPool(g: Graph, order: seq<Id>, maxParallel: int, writes: bool, status: Statuses,
                 worker: map<Id, Option<nat>>)
    returns (pool: Option<WorkerPool>)
    requires IsTopological(g, order) && status.Keys == g.Keys && worker.Keys == g.Keys
    ensures pool.None? <==> maxParallel < 1
    ensures pool.Some? ==> fresh(pool.value) && pool.value.Valid() && pool.value.inUse == {}
    ensures pool.Some? ==> pool.value.g == g && pool.value.order == order
    ensures pool.Some? ==> pool.value.maxParallel == maxParallel && pool.value.writes == writes
    ensures pool.Some? ==> pool.value.status == status
  {
    if maxParallel < 1 {
      return None;
    }
    var created := new WorkerPool(g, order, maxParallel, writes, status, worker);
    pool := Some(created);
  }
}
