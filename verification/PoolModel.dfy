/**
 What the worker pool does, as steps on a snapshot of its state
 (engine/worker_pool.py). The loop goes in rounds: it looks through the chunks for
 the ready ones, claims some of them on the lowest free worker slots, waits, and
 settles at least one finished chunk. In between, the executors that are running
 may write the status of their chunk (engine/nodes/developer.py,
 engine/nodes/tester.py).
 */
module PoolModel {
  import opened Collections
  import opened Graph
  import opened IdOrder
  import opened Wrappers

  datatype Status = Pending | InProgress | Completed | Failed

  type Statuses = map<Id, Status>

  /** The parts of a round; it is `Settling` once a chunk was settled. */
  datatype Phase = Scanning | Claiming | Waiting | Settling

  /**
   Chunk statuses, stamped worker slots, the slots in use, and the submitted chunks; and of the
   current round its phase, the chunks in flight when it began, and the chunks that were
   COMPLETED at some moment while it looked for ready ones, and what is left of the ready list.
   */
  datatype Pool = Pool(status: Statuses, worker: map<Id, Option<nat>>, inUse: set<nat>, inFlight: set<Id>,
                       phase: Phase, base: set<Id>, shown: set<Id>, todo: seq<Id>)

  /** Every dependency of `c` is COMPLETED. */
  predicate DependenciesCompleted(g: Graph, status: Statuses, c: Id)
    requires c in g
  {
    forall d :: d in g[c] ==> d in status && status[d].Completed?
  }

  ghost predicate IsReady(g: Graph, status: Statuses, c: Id) {
    c in g && c in status && status[c].Pending? && DependenciesCompleted(g, status, c)
  }

  /** The PENDING chunks of `order` whose dependencies are all done, in that order. */
  function ReadyChunks(g: Graph, order: seq<Id>, status: Statuses): (ready: seq<Id>)
    requires forall n :: n in order ==> n in g && n in status
    ensures forall n :: n in ready <==> n in order && IsReady(g, status, n)
    ensures Distinct(order) ==> Distinct(ready)
  {
    if order == [] then [] else
      var front, last := order[..|order| - 1], order[|order| - 1];
      assert order == front + [last];
      var ready := ReadyChunks(g, front, status);
      assert Distinct(order) ==> last !in front && last !in ready;
      if status[last].Pending? && DependenciesCompleted(g, status, last) then ready + [last] else ready
  }

  /** The worker ids `worker-1` to `worker-max`. */
  ghost function Slots(max: nat): (slots: set<nat>)
    ensures forall s :: s in slots <==> 1 <= s <= max
    ensures |slots| == max
  {
    if max == 0 then {} else Slots(max - 1) + {max}
  }

  ghost predicate LowestFree(max: nat, inUse: set<nat>, slot: nat) {
    slot in Slots(max) && slot !in inUse && forall s :: 1 <= s < slot ==> s in inUse
  }

  function CompletedIn(status: Statuses): set<Id> {
    set c | c in status && status[c].Completed?
  }

  /** `d` is COMPLETED and nobody is working on it any more. */
  ghost predicate SettledDone(p: Pool, d: Id) {
    d in p.status && d !in p.inFlight && p.status[d].Completed?
  }

  /** A PENDING chunk that is ready whatever the running executors show. */
  ghost predicate SurelyReady(g: Graph, p: Pool, c: Id) {
    c in g && c in p.status && p.status[c].Pending? && forall d :: d in g[c] ==> SettledDone(p, d)
  }

  /** What puts a chunk on the list: it is PENDING, and each dependency was seen COMPLETED in this round. */
  ghost predicate Listed(g: Graph, p: Pool, c: Id) {
    c in g && c in p.status && p.status[c].Pending? && forall d :: d in g[c] ==> d in p.shown
  }

  /** A list of chunks in the order of the graph. */
  ghost predicate InOrder(order: seq<Id>, list: seq<Id>) {
    && (forall c :: c in list ==> c in order)
    && forall i, j :: 0 <= i < j < |list| ==> Before(order, list[i], list[j])
  }

  /** A ready list: chunks that may be listed, in order, and among them all that are ready whatever is written. */
  ghost predicate IsReadyList(g: Graph, order: seq<Id>, p: Pool, list: seq<Id>) {
    && InOrder(order, list)
    && (forall c :: c in list ==> Listed(g, p, c))
    && (forall c :: SurelyReady(g, p, c) ==> c in list)
  }

  // --- the steps ------------------------------------------------------------------

  ghost function Listing(p: Pool, list: seq<Id>): Pool {
    p.(phase := Claiming, todo := list)
  }

  ghost function Waits(p: Pool): Pool {
    p.(phase := Waiting)
  }

  ghost function Claimed(p: Pool, c: Id, slot: nat): Pool {
    p.(status := p.status[c := InProgress], worker := p.worker[c := Some(slot)],
       inUse := p.inUse + {slot}, inFlight := p.inFlight + {c},
       todo := WithoutHead(p.todo))
  }

  ghost function Shown(p: Pool, c: Id, shown: Status): Pool {
    p.(status := p.status[c := shown])
  }

  ghost function Settled(p: Pool, c: Id, slot: nat): Pool {
    p.(status := p.status[c := Completed], inUse := p.inUse - {slot}, inFlight := p.inFlight - {c}, phase := Settling)
  }

  ghost function NextRound(p: Pool): Pool {
    p.(phase := Scanning, base := p.inFlight, shown := CompletedIn(p.status), todo := [])
  }

  /** The chunk is the next of the ready list. */
  ghost predicate ClaimStep(g: Graph, max: nat, p: Pool, c: Id, slot: nat, p': Pool) {
    && p.phase.Claiming? && |p.inFlight| < max
    && p.todo != [] && c == p.todo[0] && Listed(g, p, c)
    && LowestFree(max, p.inUse, slot)
    && p' == Claimed(p, c, slot)
  }

  ghost predicate SettleStep(p: Pool, c: Id, p': Pool) {
    && (p.phase.Waiting? || p.phase.Settling?)
    && c in p.inFlight && c in p.worker && p.worker[c].Some?
    && p' == Settled(p, c, p.worker[c].value)
  }

  /** Executors write the status of their own chunk, never to PENDING. */
  ghost predicate Writes(inFlight: set<Id>, status: Statuses, status': Statuses) {
    && status'.Keys == status.Keys
    && forall c :: c in status ==> status'[c] == status[c] || (c in inFlight && !status'[c].Pending?)
  }

  ghost predicate WriteStep(p: Pool, p': Pool) {
    && Writes(p.inFlight, p.status, p'.status)
    && p' == p.(status := p'.status,
                shown := if p.phase.Scanning? then p.shown + CompletedIn(p'.status) else p.shown)
  }

  /** The ready list is complete. */
  ghost predicate ListStep(g: Graph, order: seq<Id>, p: Pool, p': Pool) {
    p.phase.Scanning? && IsReadyList(g, order, p, p'.todo) && p' == Listing(p, p'.todo)
  }

  /** Something is in flight, and the bound is reached or the ready list is used up. */
  ghost predicate WaitStep(max: nat, p: Pool, p': Pool) {
    p.phase.Claiming? && p.inFlight != {} && (|p.inFlight| < max ==> p.todo == []) && p' == Waits(p)
  }

  /** After at least one chunk was settled, the loop looks for ready chunks again. */
  ghost predicate RoundStep(p: Pool, p': Pool) {
    p.phase.Settling? && p' == NextRound(p)
  }

  ghost predicate Step(g: Graph, order: seq<Id>, max: nat, writes: bool, p: Pool, p': Pool) {
    || (exists c, slot :: ClaimStep(g, max, p, c, slot, p'))
    || (exists c :: SettleStep(p, c, p'))
    || (writes && WriteStep(p, p'))
    || ListStep(g, order, p, p') || WaitStep(max, p, p') || RoundStep(p, p')
  }

  /** The pool before its first round, with the `leaked` slots unavailable. */
  ghost predicate IsStart(g: Graph, max: nat, leaked: set<nat>, p: Pool) {
    && p.inFlight == {} && p.inUse == leaked && leaked <= Slots(max)
    && p.status.Keys == p.worker.Keys == g.Keys
    && p.phase.Scanning? && p.base == {} && p.shown == CompletedIn(p.status) && p.todo == []
  }

  ghost predicate IsRun(g: Graph, order: seq<Id>, max: nat, writes: bool, leaked: set<nat>, run: seq<Pool>) {
    && run != [] && IsStart(g, max, leaked, run[0])
    && forall i, j {:trigger Step(g, order, max, writes, run[i], run[j])} ::
         0 <= i < j < |run| && j == i + 1 ==> Step(g, order, max, writes, run[i], run[j])
  }

  ghost function Last(run: seq<Pool>): Pool
    requires run != []
  {
    run[|run| - 1]
  }

  lemma StepAt(g: Graph, order: seq<Id>, max: nat, writes: bool, leaked: set<nat>, run: seq<Pool>, n: nat)
    requires IsRun(g, order, max, writes, leaked, run) && n + 1 < |run|
    ensures Step(g, order, max, writes, run[n], run[n + 1])
  {
    var i, j := n, n + 1;
    assert Step(g, order, max, writes, run[i], run[j]);
  }

  lemma RunExtends(g: Graph, order: seq<Id>, max: nat, writes: bool, leaked: set<nat>, run: seq<Pool>, p: Pool)
    requires IsRun(g, order, max, writes, leaked, run) && Step(g, order, max, writes, Last(run), p)
    ensures IsRun(g, order, max, writes, leaked, run + [p])
  {
    var longer := run + [p];
    forall i, j | 0 <= i < j < |longer| && j == i + 1 ensures Step(g, order, max, writes, longer[i], longer[j]) {
      assert j < |run| ==> Step(g, order, max, writes, run[i], run[j]);
    }
  }

  // --- slots ----------------------------------------------------------------------

  /** The slots stamped on the chunks in flight. */
  ghost function Assigned(p: Pool): set<nat> {
    set c | c in p.inFlight && c in p.worker && p.worker[c].Some? :: p.worker[c].value
  }

  ghost predicate DistinctSlots(p: Pool) {
    && (forall c :: c in p.inFlight ==> c in p.worker && p.worker[c].Some? && p.worker[c].value in p.inUse)
    && (forall c, d :: c in p.inFlight && d in p.inFlight && p.worker[c] == p.worker[d] ==> c == d)
  }

  /** At most `max` chunks in flight, none PENDING, on distinct slots that are exactly the slots in use. */
  ghost predicate SlotsSafe(max: nat, leaked: set<nat>, p: Pool) {
    && |p.inFlight| <= max
    && (forall c :: c in p.inFlight ==> c in p.status && !p.status[c].Pending?)
    && DistinctSlots(p)
    && p.inUse <= Slots(max)
    && leaked !! Assigned(p) && p.inUse == leaked + Assigned(p)
  }

  lemma ClaimKeepsDistinct(p: Pool, c: Id, slot: nat, p': Pool)
    requires DistinctSlots(p) && c !in p.inFlight && slot !in p.inUse
    requires p'.worker == p.worker[c := Some(slot)]
    requires p'.inUse == p.inUse + {slot} && p'.inFlight == p.inFlight + {c}
    ensures DistinctSlots(p')
  {
    forall d, e | d in p'.inFlight && e in p'.inFlight && p'.worker[d] == p'.worker[e] ensures d == e {
    }
  }

  lemma ClaimAssigns(p: Pool, c: Id, slot: nat, p': Pool)
    requires DistinctSlots(p) && c !in p.inFlight
    requires p'.worker == p.worker[c := Some(slot)] && p'.inFlight == p.inFlight + {c}
    ensures Assigned(p') == Assigned(p) + {slot}
  {
    forall s ensures s in Assigned(p') <==> s in Assigned(p) || s == slot {
      if s in Assigned(p) {
        var d :| d in p.inFlight && p.worker[d] == Some(s);
        assert p'.worker[d] == Some(s);
      }
      assert p'.worker[c] == Some(slot);
    }
  }

  lemma ClaimKeepsSlots(g: Graph, max: nat, leaked: set<nat>, p: Pool, c: Id, slot: nat, p': Pool)
    requires SlotsSafe(max, leaked, p) && ClaimStep(g, max, p, c, slot, p')
    ensures c !in p.inFlight && SlotsSafe(max, leaked, p')
  {
    ClaimKeepsDistinct(p, c, slot, p');
    ClaimAssigns(p, c, slot, p');
  }

  lemma SettleKeepsSlots(max: nat, leaked: set<nat>, p: Pool, c: Id, p': Pool)
    requires SlotsSafe(max, leaked, p) && SettleStep(p, c, p')
    ensures SlotsSafe(max, leaked, p')
  {
    assert p.worker[c].value in Assigned(p);
    assert Assigned(p') == Assigned(p) - {p.worker[c].value};
  }

  /** Writes and changes of phase leave the slots as they are. */
  lemma SlotsUntouched(max: nat, leaked: set<nat>, p: Pool, p': Pool)
    requires SlotsSafe(max, leaked, p)
    requires p'.worker == p.worker && p'.inUse == p.inUse && p'.inFlight == p.inFlight
    requires forall c :: c in p.inFlight ==> c in p'.status && !p'.status[c].Pending?
    ensures SlotsSafe(max, leaked, p')
  {
    assert Assigned(p') == Assigned(p);
  }

  lemma StepKeepsSlots(g: Graph, order: seq<Id>, max: nat, writes: bool, leaked: set<nat>, p: Pool, p': Pool)
    requires SlotsSafe(max, leaked, p) && Step(g, order, max, writes, p, p')
    ensures SlotsSafe(max, leaked, p')
  {
    if c, slot :| ClaimStep(g, max, p, c, slot, p') {
      ClaimKeepsSlots(g, max, leaked, p, c, slot, p');
    } else if c :| SettleStep(p, c, p') {
      SettleKeepsSlots(max, leaked, p, c, p');
    } else {
      SlotsUntouched(max, leaked, p, p');
    }
  }

  /** The slots are safe in every state of every run, whatever the executors write. */
  lemma {:induction false} SlotsAreSafe(g: Graph, order: seq<Id>, max: nat, writes: bool, leaked: set<nat>,
                                        run: seq<Pool>, i: nat)
    requires IsRun(g, order, max, writes, leaked, run) && i < |run|
    ensures SlotsSafe(max, leaked, run[i])
  {
    if i > 0 {
      SlotsAreSafe(g, order, max, writes, leaked, run, i - 1);
      StepAt(g, order, max, writes, leaked, run, i - 1);
      StepKeepsSlots(g, order, max, writes, leaked, run[i - 1], run[i]);
    }
  }

  lemma {:induction false} AssignedSize(p: Pool)
    requires DistinctSlots(p)
    ensures |Assigned(p)| == |p.inFlight|
    decreases |p.inFlight|
  {
    if c :| c in p.inFlight {
      var q := p.(inFlight := p.inFlight - {c});
      AssignedSize(q);
      assert Assigned(p) == Assigned(q) + {p.worker[c].value};
    } else {
      assert Assigned(p) == {};
    }
  }

  /** A fresh pool (no leaked slot) below its bound always has a free slot, so acquiring one cannot fail. */
  lemma FreeSlotExists(max: nat, p: Pool)
    requires SlotsSafe(max, {}, p) && |p.inFlight| < max
    ensures !(Slots(max) <= p.inUse)
  {
    AssignedSize(p);
    assert p.inUse == Assigned(p);
    assert p.inUse != Slots(max);
  }

  // --- rounds ---------------------------------------------------------------------

  /**
   What a round may rest on. A chunk that was seen COMPLETED is settled, or was in flight when the
   round began; with one worker none was, and where executors do not write none was seen COMPLETED.
   */
  ghost predicate RoundSafe(max: nat, writes: bool, p: Pool) {
    && (p.phase.Scanning? ==> p.inFlight == p.base && CompletedIn(p.status) <= p.shown)
    && (!p.phase.Settling? ==> p.base <= p.inFlight)
    && (p.phase.Settling? ==> |p.inFlight| < max)
    && (forall d :: d in p.shown ==> d in p.status && !p.status[d].Pending?)
    && (forall d :: d in p.shown ==> if d in p.inFlight then d in p.base else p.status[d].Completed?)
    && (max == 1 ==> p.base == {})
    && (!writes ==> p.shown !! p.inFlight && forall c :: c in p.inFlight ==> c in p.status && p.status[c].InProgress?)
  }

  lemma ClaimKeepsRound(g: Graph, max: nat, writes: bool, p: Pool, c: Id, slot: nat, p': Pool)
    requires RoundSafe(max, writes, p) && ClaimStep(g, max, p, c, slot, p')
    ensures RoundSafe(max, writes, p')
  {
    assert c !in p.shown;
  }

  lemma SettleKeepsRound(max: nat, writes: bool, p: Pool, c: Id, p': Pool)
    requires RoundSafe(max, writes, p) && |p.inFlight| <= max && SettleStep(p, c, p')
    ensures RoundSafe(max, writes, p')
  {
  }

  lemma WriteKeepsRound(max: nat, p: Pool, p': Pool)
    requires RoundSafe(max, true, p) && WriteStep(p, p')
    ensures RoundSafe(max, true, p')
  {
  }

  lemma TurnKeepsRound(g: Graph, order: seq<Id>, max: nat, writes: bool, p: Pool, p': Pool)
    requires RoundSafe(max, writes, p) && (ListStep(g, order, p, p') || WaitStep(max, p, p') || RoundStep(p, p'))
    requires forall c :: c in p.inFlight ==> c in p.status && !p.status[c].Pending?
    ensures RoundSafe(max, writes, p')
  {
    if RoundStep(p, p') && max == 1 {
      assert p.inFlight == {};
    }
  }

  lemma StepKeepsRound(g: Graph, order: seq<Id>, max: nat, writes: bool, leaked: set<nat>, p: Pool, p': Pool)
    requires SlotsSafe(max, leaked, p) && RoundSafe(max, writes, p) && Step(g, order, max, writes, p, p')
    ensures RoundSafe(max, writes, p')
  {
    if c, slot :| ClaimStep(g, max, p, c, slot, p') {
      ClaimKeepsRound(g, max, writes, p, c, slot, p');
    } else if c :| SettleStep(p, c, p') {
      SettleKeepsRound(max, writes, p, c, p');
    } else if writes && WriteStep(p, p') {
      WriteKeepsRound(max, p, p');
    } else {
      TurnKeepsRound(g, order, max, writes, p, p');
    }
  }

  lemma {:induction false} RoundsAreSafe(g: Graph, order: seq<Id>, max: nat, writes: bool, leaked: set<nat>,
                                         run: seq<Pool>, i: nat)
    requires IsRun(g, order, max, writes, leaked, run) && i < |run|
    ensures RoundSafe(max, writes, run[i])
  {
    if i > 0 {
      RoundsAreSafe(g, order, max, writes, leaked, run, i - 1);
      SlotsAreSafe(g, order, max, writes, leaked, run, i - 1);
      StepAt(g, order, max, writes, leaked, run, i - 1);
      StepKeepsRound(g, order, max, writes, leaked, run[i - 1], run[i]);
    }
  }

  // --- the ready list -------------------------------------------------------------

  lemma InOrderSnoc(order: seq<Id>, list: seq<Id>, c: Id)
    requires InOrder(order, list) && c in order && forall a :: a in list ==> Before(order, a, c)
    ensures InOrder(order, list + [c])
  {
  }

  lemma InOrderOfFront(order: seq<Id>, list: seq<Id>)
    requires order != [] && Distinct(order) && InOrder(order[..|order| - 1], list)
    ensures InOrder(order, list) && forall a :: a in list ==> Before(order, a, order[|order| - 1])
  {
    forall a | a in list ensures a in order && Before(order, a, order[|order| - 1]) {
      FrontIsBefore(order, a);
    }
    forall i, j | 0 <= i < j < |list| ensures Before(order, list[i], list[j]) {
      PositionInFront(order, list[i]);
      PositionInFront(order, list[j]);
    }
  }

  /** The ready list of a status map keeps the order. */
  lemma {:induction false} ReadyChunksInOrder(g: Graph, order: seq<Id>, status: Statuses)
    requires Distinct(order) && forall n :: n in order ==> n in g && n in status
    ensures InOrder(order, ReadyChunks(g, order, status))
  {
    if order != [] {
      var front, last := order[..|order| - 1], order[|order| - 1];
      var ready := ReadyChunks(g, front, status);
      ReadyChunksInOrder(g, front, status);
      InOrderOfFront(order, ready);
      InOrderSnoc(order, ready, last);
    }
  }

  /** While chunks are claimed, the rest of the list is a ready list of what is left. */
  ghost predicate ListSafe(g: Graph, order: seq<Id>, p: Pool) {
    p.phase.Claiming? ==> IsReadyList(g, order, p, p.todo)
  }

  lemma TailInOrder(order: seq<Id>, list: seq<Id>)
    requires InOrder(order, list) && list != []
    ensures InOrder(order, list[1..]) && list[0] !in list[1..]
    ensures forall c :: c in list <==> c == list[0] || c in list[1..]
  {
    HeadAndTail(list);
    forall j | 0 <= j < |list[1..]| ensures list[1..][j] != list[0] {
      assert Before(order, list[0], list[1 + j]);
    }
  }

  lemma ClaimLeaves(g: Graph, max: nat, p: Pool, c: Id, slot: nat, p': Pool, n: Id)
    requires ClaimStep(g, max, p, c, slot, p')
    ensures Listed(g, p, n) && n != c ==> Listed(g, p', n)
    ensures SurelyReady(g, p', n) ==> SurelyReady(g, p, n) && n != c
  {
    if SurelyReady(g, p', n) {
      forall d | d in g[n] ensures SettledDone(p, d) {
        assert SettledDone(p', d);
      }
    }
  }

  lemma ClaimKeepsList(g: Graph, order: seq<Id>, max: nat, p: Pool, c: Id, slot: nat, p': Pool)
    requires ListSafe(g, order, p) && ClaimStep(g, max, p, c, slot, p')
    ensures ListSafe(g, order, p')
  {
    TailInOrder(order, p.todo);
    forall n | SurelyReady(g, p', n) ensures n in p'.todo {
      ClaimLeaves(g, max, p, c, slot, p', n);
    }
    forall n | n in p'.todo ensures Listed(g, p', n) {
      ClaimLeaves(g, max, p, c, slot, p', n);
    }
  }

  /** `p'` is `p` some time later: only running executors wrote. */
  ghost predicate Later(p: Pool, p': Pool) {
    && p'.inFlight == p.inFlight && Writes(p.inFlight, p.status, p'.status) && p.shown <= p'.shown
    && forall c :: c in p.inFlight && c in p.status ==> !p.status[c].Pending?
  }

  lemma LaterKeeps(g: Graph, p: Pool, p': Pool, c: Id)
    requires Later(p, p')
    ensures Listed(g, p, c) ==> Listed(g, p', c)
    ensures SurelyReady(g, p', c) ==> SurelyReady(g, p, c)
  {
    if SurelyReady(g, p', c) {
      forall d | d in g[c] ensures SettledDone(p, d) {
        assert SettledDone(p', d);
      }
    }
  }

  lemma LaterKeepsList(g: Graph, order: seq<Id>, p: Pool, p': Pool)
    requires ListSafe(g, order, p) && Later(p, p') && p'.phase == p.phase && p'.todo == p.todo
    ensures ListSafe(g, order, p')
  {
    forall c ensures (Listed(g, p, c) ==> Listed(g, p', c)) && (SurelyReady(g, p', c) ==> SurelyReady(g, p, c)) {
      LaterKeeps(g, p, p', c);
    }
  }

  lemma ListKeepsList(g: Graph, order: seq<Id>, p: Pool, p': Pool)
    requires ListStep(g, order, p, p')
    ensures ListSafe(g, order, p')
  {
    forall c | SurelyReady(g, p', c) ensures SurelyReady(g, p, c) {
      forall d | d in g[c] ensures SettledDone(p, d) {
        assert SettledDone(p', d);
      }
    }
  }

  lemma StepKeepsList(g: Graph, order: seq<Id>, max: nat, writes: bool, leaked: set<nat>, p: Pool, p': Pool)
    requires SlotsSafe(max, leaked, p) && ListSafe(g, order, p) && Step(g, order, max, writes, p, p')
    ensures ListSafe(g, order, p')
  {
    if c, slot :| ClaimStep(g, max, p, c, slot, p') {
      ClaimKeepsList(g, order, max, p, c, slot, p');
    } else if writes && WriteStep(p, p') {
      LaterKeepsList(g, order, p, p');
    } else if ListStep(g, order, p, p') {
      ListKeepsList(g, order, p, p');
    }
  }

  lemma {:induction false} ListsAreSafe(g: Graph, order: seq<Id>, max: nat, writes: bool, leaked: set<nat>,
                                        run: seq<Pool>, i: nat)
    requires IsRun(g, order, max, writes, leaked, run) && i < |run|
    ensures ListSafe(g, order, run[i])
  {
    if i > 0 {
      ListsAreSafe(g, order, max, writes, leaked, run, i - 1);
      SlotsAreSafe(g, order, max, writes, leaked, run, i - 1);
      StepAt(g, order, max, writes, leaked, run, i - 1);
      StepKeepsList(g, order, max, writes, leaked, run[i - 1], run[i]);
    }
  }

  /** The list has been used from its front: what is gone from it is in flight. */
  ghost predicate UsedUpTo(list: seq<Id>, p: Pool, k: nat) {
    k <= |list| && p.todo == list[k..] && forall j :: 0 <= j < k ==> list[j] in p.inFlight
  }

  lemma ClaimUses(g: Graph, max: nat, p: Pool, c: Id, slot: nat, p': Pool, list: seq<Id>, k: nat)
    requires ClaimStep(g, max, p, c, slot, p') && UsedUpTo(list, p, k)
    ensures k < |list| && c == list[k] && UsedUpTo(list, p', k + 1)
  {
    SuffixOfSuffix(list, k, 1);
  }

  lemma StepUses(g: Graph, order: seq<Id>, max: nat, writes: bool, p: Pool, p': Pool, list: seq<Id>, k: nat)
    returns (used: nat)
    requires Step(g, order, max, writes, p, p') && p.phase.Claiming? && p'.phase.Claiming? && UsedUpTo(list, p, k)
    ensures UsedUpTo(list, p', used)
  {
    used := k;
    if c, slot :| ClaimStep(g, max, p, c, slot, p') {
      ClaimUses(g, max, p, c, slot, p', list, k);
      used := k + 1;
    }
  }

  /** The pool claims chunks in the states from `i` to `n`. */
  ghost predicate ClaimsFrom(run: seq<Pool>, i: nat, n: nat)
    requires i <= n < |run|
  {
    run[n].phase.Claiming? && (n > i ==> ClaimsFrom(run, i, n - 1))
  }

  lemma {:induction false} FirstClaims(run: seq<Pool>, i: nat, n: nat)
    requires i <= n < |run| && ClaimsFrom(run, i, n)
    ensures run[i].phase.Claiming?
  {
    if n > i {
      FirstClaims(run, i, n - 1);
    }
  }

  lemma UsedAtFirst(p: Pool)
    ensures UsedUpTo(p.todo, p, 0)
  {
    EmptyPrefix(p.todo);
  }

  /** From the state in which the list was made, `run[i]`, and as long as chunks are claimed. */
  lemma {:induction false} ListIsUsed(g: Graph, order: seq<Id>, max: nat, writes: bool, leaked: set<nat>,
                                      run: seq<Pool>, i: nat, n: nat) returns (k: nat)
    requires IsRun(g, order, max, writes, leaked, run) && i <= n < |run| && ClaimsFrom(run, i, n)
    ensures UsedUpTo(run[i].todo, run[n], k)
  {
    if n == i {
      UsedAtFirst(run[i]);
      k := 0;
    } else {
      k := ListIsUsed(g, order, max, writes, leaked, run, i, n - 1);
      StepAt(g, order, max, writes, leaked, run, n - 1);
      k := StepUses(g, order, max, writes, run[n - 1], run[n], run[i].todo, k);
    }
  }

  /** In an ordered list only elements before position `k` come before the one there. */
  lemma BeforeInList(order: seq<Id>, list: seq<Id>, k: nat, d: Id) returns (j: nat)
    requires InOrder(order, list) && k < |list| && d in list && Before(order, d, list[k])
    ensures j < k && list[j] == d
  {
    j :| 0 <= j < |list| && list[j] == d;
    assert k < j ==> Before(order, list[k], list[j]);
  }

  /**
   Chunks are claimed in the order of the graph: when `c` is claimed, every chunk before it that was ready
   when the list was made, whatever the executors were about to write, has been claimed.
   */
  lemma ClaimsFollowOrder(g: Graph, order: seq<Id>, max: nat, writes: bool, leaked: set<nat>, run: seq<Pool>,
                          i: nat, n: nat, c: Id, d: Id)
    requires IsRun(g, order, max, writes, leaked, run) && i <= n && n + 1 < |run| && ClaimsFrom(run, i, n)
    requires c in run[n + 1].inFlight && c !in run[n].inFlight
    requires SurelyReady(g, run[i], d) && Before(order, d, c)
    ensures d in run[n].inFlight
  {
    var k := ListIsUsed(g, order, max, writes, leaked, run, i, n);
    FirstClaims(run, i, n);
    ListsAreSafe(g, order, max, writes, leaked, run, i);
    StepAt(g, order, max, writes, leaked, run, n);
    var e, slot :| ClaimStep(g, max, run[n], e, slot, run[n + 1]);
    ClaimUses(g, max, run[n], e, slot, run[n + 1], run[i].todo, k);
    var j := BeforeInList(order, run[i].todo, k, d);
  }

  /** Claims may rest on a chunk in flight where executors write and there is a second worker to claim. */
  predicate Early(max: nat, writes: bool) {
    writes && max > 1
  }

  /** A dependency that a claim rests on: one that is settled and COMPLETED, or, with `early`, one still in flight. */
  predicate LooksDone(status: Statuses, inFlight: set<Id>, early: bool, d: Id) {
    d in status && if d in inFlight then early else status[d].Completed?
  }

  ghost predicate MayClaim(g: Graph, early: bool, status: Statuses, inFlight: set<Id>, c: Id) {
    && c in g && c in status && status[c].Pending?
    && forall d :: d in g[c] ==> LooksDone(status, inFlight, early, d)
  }

  /** What every claim rests on; a dependency in flight was already in flight when the round began. */
  lemma ClaimRestsOn(g: Graph, max: nat, writes: bool, leaked: set<nat>, p: Pool, c: Id, slot: nat, p': Pool)
    requires SlotsSafe(max, leaked, p) && RoundSafe(max, writes, p) && ClaimStep(g, max, p, c, slot, p')
    ensures MayClaim(g, Early(max, writes), p.status, p.inFlight, c)
    ensures forall d :: d in g[c] && d in p.inFlight ==> d in p.base
  {
  }

  // --- dependency order --------------------------------------------------------------

  /** Every chunk in flight, and every chunk completed by this run, rests on settled COMPLETED dependencies. */
  ghost predicate OrderSafe(g: Graph, start: Statuses, p: Pool) {
    && p.status.Keys == g.Keys == start.Keys && p.inFlight <= g.Keys
    && (forall c :: c in g && (c in p.inFlight || (p.status[c].Completed? && !start[c].Completed?)) ==>
          forall d :: d in g[c] ==> SettledDone(p, d))
  }

  /** This step claims a chunk while one of its dependencies is in flight. */
  ghost predicate EarlyClaim(g: Graph, p: Pool, p': Pool) {
    exists c, d :: c in g && c in p'.inFlight && c !in p.inFlight && d in g[c] && d in p.inFlight
  }

  lemma ClaimKeepsOrder(g: Graph, max: nat, writes: bool, leaked: set<nat>, start: Statuses, p: Pool, c: Id, slot: nat,
                        p': Pool)
    requires OrderSafe(g, start, p) && SlotsSafe(max, leaked, p) && RoundSafe(max, writes, p)
    requires ClaimStep(g, max, p, c, slot, p') && !EarlyClaim(g, p, p')
    ensures OrderSafe(g, start, p')
  {
    ClaimRestsOn(g, max, writes, leaked, p, c, slot, p');
    assert c !in p.inFlight;
    forall d | d in g[c] ensures SettledDone(p', d) {
      assert c in p'.inFlight && LooksDone(p.status, p.inFlight, Early(max, writes), d);
      assert SettledDone(p, d);
    }
    forall n, d | n in g && SettledDone(p, d) ensures SettledDone(p', d) {
    }
  }

  lemma SettleKeepsOrder(g: Graph, start: Statuses, p: Pool, c: Id, p': Pool)
    requires OrderSafe(g, start, p) && SettleStep(p, c, p')
    ensures OrderSafe(g, start, p')
  {
    forall d | SettledDone(p, d) ensures SettledDone(p', d) {
    }
  }

  /** Writes and changes of phase claim nothing and settle nothing. */
  lemma OrderUntouched(g: Graph, start: Statuses, p: Pool, p': Pool)
    requires OrderSafe(g, start, p) && p'.inFlight == p.inFlight && Writes(p.inFlight, p.status, p'.status)
    ensures OrderSafe(g, start, p')
  {
    forall d | SettledDone(p, d) ensures SettledDone(p', d) {
    }
  }

  lemma OrderStep(g: Graph, order: seq<Id>, max: nat, writes: bool, leaked: set<nat>, start: Statuses,
                  p: Pool, p': Pool)
    requires SlotsSafe(max, leaked, p) && RoundSafe(max, writes, p) && OrderSafe(g, start, p)
    requires Step(g, order, max, writes, p, p')
    ensures OrderSafe(g, start, p') <==> !EarlyClaim(g, p, p')
  {
    if EarlyClaim(g, p, p') {
      var c, d :| c in g && c in p'.inFlight && c !in p.inFlight && d in g[c] && d in p.inFlight;
      assert !SettledDone(p', d);
    } else if c, slot :| ClaimStep(g, max, p, c, slot, p') {
      ClaimKeepsOrder(g, max, writes, leaked, start, p, c, slot, p');
    } else if c :| SettleStep(p, c, p') {
      SettleKeepsOrder(g, start, p, c, p');
    } else {
      OrderUntouched(g, start, p, p');
    }
  }

  /** Dependency order holds in the states up to `n`. */
  ghost predicate OrderSafeUpTo(g: Graph, run: seq<Pool>, n: nat)
    requires n < |run|
  {
    OrderSafe(g, run[0].status, run[n]) && (n > 0 ==> OrderSafeUpTo(g, run, n - 1))
  }

  /** No step up to state `n` is an early claim. */
  ghost predicate NeverEarlyUpTo(g: Graph, run: seq<Pool>, n: nat)
    requires n < |run|
  {
    n > 0 ==> !EarlyClaim(g, run[n - 1], run[n]) && NeverEarlyUpTo(g, run, n - 1)
  }

  /** Dependency order holds up to state `n` exactly when no step before it was an early claim. */
  lemma {:induction false} OrderSafeIff(g: Graph, order: seq<Id>, max: nat, writes: bool, leaked: set<nat>,
                                        run: seq<Pool>, n: nat)
    requires IsRun(g, order, max, writes, leaked, run) && n < |run|
    ensures OrderSafeUpTo(g, run, n) <==> NeverEarlyUpTo(g, run, n)
  {
    if n > 0 {
      OrderSafeIff(g, order, max, writes, leaked, run, n - 1);
      SlotsAreSafe(g, order, max, writes, leaked, run, n - 1);
      RoundsAreSafe(g, order, max, writes, leaked, run, n - 1);
      StepAt(g, order, max, writes, leaked, run, n - 1);
      if OrderSafeUpTo(g, run, n - 1) {
        OrderStep(g, order, max, writes, leaked, run[0].status, run[n - 1], run[n]);
      }
    }
  }

  /** An early claim rests on a chunk that was in flight when the round began, with a second worker and writes. */
  lemma EarlyClaimRestsOnBase(g: Graph, order: seq<Id>, max: nat, writes: bool, leaked: set<nat>, p: Pool, p': Pool)
    requires SlotsSafe(max, leaked, p) && RoundSafe(max, writes, p) && Step(g, order, max, writes, p, p')
    ensures EarlyClaim(g, p, p') ==> p.base != {} && Early(max, writes)
  {
    if EarlyClaim(g, p, p') {
      var c, slot :| ClaimStep(g, max, p, c, slot, p');
      ClaimRestsOn(g, max, writes, leaked, p, c, slot, p');
    }
  }

  /** A round that begins with nothing in flight makes no early claim; nor is there one with one worker or no writes. */
  lemma NoEarlyClaim(g: Graph, order: seq<Id>, max: nat, writes: bool, leaked: set<nat>, run: seq<Pool>, n: nat)
    requires IsRun(g, order, max, writes, leaked, run) && n + 1 < |run|
    requires run[n].base == {} || !Early(max, writes)
    ensures !EarlyClaim(g, run[n], run[n + 1])
  {
    SlotsAreSafe(g, order, max, writes, leaked, run, n);
    RoundsAreSafe(g, order, max, writes, leaked, run, n);
    StepAt(g, order, max, writes, leaked, run, n);
    EarlyClaimRestsOnBase(g, order, max, writes, leaked, run[n], run[n + 1]);
  }

  ghost predicate IsSettled(p: Pool, s: Id) {
    s in p.status && s !in p.inFlight && !p.status[s].Pending?
  }

  /** A round begins with chunks in flight only after one was settled. */
  ghost predicate SettledBefore(g: Graph, p: Pool) {
    p.status.Keys == g.Keys && (p.phase.Settling? || p.base != {} ==> exists s :: IsSettled(p, s))
  }

  lemma StaysSettled(g: Graph, order: seq<Id>, max: nat, writes: bool, p: Pool, p': Pool, s: Id)
    requires Step(g, order, max, writes, p, p') && IsSettled(p, s)
    ensures IsSettled(p', s)
  {
    if c, slot :| ClaimStep(g, max, p, c, slot, p') {
      assert s != c;
    } else if c :| SettleStep(p, c, p') {
      assert s != c;
    }
  }

  lemma StepKeepsChunks(g: Graph, order: seq<Id>, max: nat, writes: bool, leaked: set<nat>, p: Pool, p': Pool)
    requires SlotsSafe(max, leaked, p) && Step(g, order, max, writes, p, p')
    ensures p'.status.Keys == p.status.Keys
  {
    if c, slot :| ClaimStep(g, max, p, c, slot, p') {
    } else if c :| SettleStep(p, c, p') {
      assert c in p.status;
    }
  }

  lemma SettlesOne(p: Pool, c: Id, p': Pool)
    requires SettleStep(p, c, p') && c in p.status
    ensures IsSettled(p', c)
  {
  }

  lemma StepKeepsSettled(g: Graph, order: seq<Id>, max: nat, writes: bool, leaked: set<nat>, p: Pool, p': Pool)
    requires SlotsSafe(max, leaked, p) && SettledBefore(g, p) && Step(g, order, max, writes, p, p')
    ensures SettledBefore(g, p')
  {
    StepKeepsChunks(g, order, max, writes, leaked, p, p');
    if s :| IsSettled(p, s) {
      StaysSettled(g, order, max, writes, p, p', s);
    } else if c :| SettleStep(p, c, p') {
      SettlesOne(p, c, p');
    }
  }

  lemma {:induction false} RunsAreSettledBefore(g: Graph, order: seq<Id>, max: nat, writes: bool, leaked: set<nat>,
                                                run: seq<Pool>, n: nat)
    requires IsRun(g, order, max, writes, leaked, run) && n < |run|
    ensures SettledBefore(g, run[n])
  {
    if n > 0 {
      RunsAreSettledBefore(g, order, max, writes, leaked, run, n - 1);
      SlotsAreSafe(g, order, max, writes, leaked, run, n - 1);
      StepAt(g, order, max, writes, leaked, run, n - 1);
      StepKeepsSettled(g, order, max, writes, leaked, run[n - 1], run[n]);
    }
  }

  lemma ThreeApart(g: Graph, c: Id, d: Id, s: Id)
    requires c in g && d in g && s in g && c != d && c != s && d != s
    ensures |g| >= 3
  {
    assert |{c, d, s}| == 3;
    SubsetSize({c, d, s}, g.Keys);
  }

  lemma ClaimedWasPending(g: Graph, order: seq<Id>, max: nat, writes: bool, p: Pool, p': Pool, c: Id)
    requires Step(g, order, max, writes, p, p') && c in p'.inFlight && c !in p.inFlight
    ensures c in p.status && p.status[c].Pending?
  {
  }

  lemma ClaimBesideSettled(g: Graph, order: seq<Id>, max: nat, writes: bool, leaked: set<nat>, p: Pool, p': Pool)
    requires SlotsSafe(max, leaked, p) && SettledBefore(g, p) && p.base != {}
    requires Step(g, order, max, writes, p, p') && EarlyClaim(g, p, p')
    ensures |g| >= 3
  {
    var c, d :| c in g && c in p'.inFlight && c !in p.inFlight && d in g[c] && d in p.inFlight;
    var s :| IsSettled(p, s);
    ClaimedWasPending(g, order, max, writes, p, p', c);
    ThreeApart(g, c, d, s);
  }

  /** An early claim takes three chunks: the one claimed, the one in flight, and one settled before. */
  lemma EarlyClaimTakesThree(g: Graph, order: seq<Id>, max: nat, writes: bool, leaked: set<nat>, run: seq<Pool>, n: nat)
    requires IsRun(g, order, max, writes, leaked, run) && n + 1 < |run| && EarlyClaim(g, run[n], run[n + 1])
    ensures |g| >= 3
  {
    SlotsAreSafe(g, order, max, writes, leaked, run, n);
    RunsAreSettledBefore(g, order, max, writes, leaked, run, n);
    StepAt(g, order, max, writes, leaked, run, n);
    if run[n].base == {} {
      NoEarlyClaim(g, order, max, writes, leaked, run, n);
    } else {
      ClaimBesideSettled(g, order, max, writes, leaked, run[n], run[n + 1]);
    }
  }

  lemma {:induction false} NeverEarly(g: Graph, order: seq<Id>, max: nat, writes: bool, leaked: set<nat>,
                                      run: seq<Pool>, n: nat)
    requires IsRun(g, order, max, writes, leaked, run) && n < |run| && !Early(max, writes)
    ensures NeverEarlyUpTo(g, run, n)
  {
    if n > 0 {
      NeverEarly(g, order, max, writes, leaked, run, n - 1);
      NoEarlyClaim(g, order, max, writes, leaked, run, n - 1);
    }
  }

  /** Every state of every run is safe: its slots always, its order with one worker or when executors do not write. */
  lemma RunsAreSafe(g: Graph, order: seq<Id>, max: nat, writes: bool, leaked: set<nat>, run: seq<Pool>, i: nat)
    requires IsRun(g, order, max, writes, leaked, run) && i < |run|
    ensures SlotsSafe(max, leaked, run[i])
    ensures !Early(max, writes) ==> OrderSafe(g, run[0].status, run[i])
  {
    SlotsAreSafe(g, order, max, writes, leaked, run, i);
    if !Early(max, writes) {
      NeverEarly(g, order, max, writes, leaked, run, i);
      OrderSafeIff(g, order, max, writes, leaked, run, i);
    }
  }

  // --- runs of two workers, step by step ---------------------------------------------------

  /** `longer` is the run `run` and one more state `p`. */
  ghost predicate Extends(g: Graph, order: seq<Id>, run: seq<Pool>, longer: seq<Pool>, p: Pool) {
    && IsRun(g, order, 2, true, {}, run) && IsRun(g, order, 2, true, {}, longer)
    && |longer| == |run| + 1 && longer[|run|] == p
    && longer[0] == run[0] && longer[|run| - 1] == Last(run) && (|run| > 1 ==> longer[|run| - 2] == run[|run| - 2])
  }

  lemma ThenStep(g: Graph, order: seq<Id>, run: seq<Pool>, p: Pool) returns (longer: seq<Pool>)
    requires IsRun(g, order, 2, true, {}, run) && Step(g, order, 2, true, Last(run), p)
    ensures Extends(g, order, run, longer, p)
  {
    longer := run + [p];
    RunExtends(g, order, 2, true, {}, run, p);
  }

  lemma ThenList(g: Graph, order: seq<Id>, run: seq<Pool>, list: seq<Id>) returns (longer: seq<Pool>)
    requires IsRun(g, order, 2, true, {}, run) && Last(run).phase.Scanning? && IsReadyList(g, order, Last(run), list)
    ensures Extends(g, order, run, longer, Listing(Last(run), list))
  {
    assert ListStep(g, order, Last(run), Listing(Last(run), list));
    longer := ThenStep(g, order, run, Listing(Last(run), list));
  }

  lemma ThenClaim(g: Graph, order: seq<Id>, run: seq<Pool>, c: Id, slot: nat) returns (longer: seq<Pool>)
    requires IsRun(g, order, 2, true, {}, run) && Last(run).phase.Claiming? && |Last(run).inFlight| < 2
    requires Last(run).todo != [] && c == Last(run).todo[0] && Listed(g, Last(run), c)
    requires LowestFree(2, Last(run).inUse, slot)
    ensures Extends(g, order, run, longer, Claimed(Last(run), c, slot))
  {
    assert ClaimStep(g, 2, Last(run), c, slot, Claimed(Last(run), c, slot));
    longer := ThenStep(g, order, run, Claimed(Last(run), c, slot));
  }

  lemma ThenWait(g: Graph, order: seq<Id>, run: seq<Pool>) returns (longer: seq<Pool>)
    requires IsRun(g, order, 2, true, {}, run) && Last(run).phase.Claiming? && |Last(run).inFlight| == 2
    ensures Extends(g, order, run, longer, Waits(Last(run)))
  {
    assert WaitStep(2, Last(run), Waits(Last(run)));
    longer := ThenStep(g, order, run, Waits(Last(run)));
  }

  lemma ThenShow(g: Graph, order: seq<Id>, run: seq<Pool>, c: Id, shown: Status) returns (longer: seq<Pool>)
    requires IsRun(g, order, 2, true, {}, run) && !Last(run).phase.Scanning?
    requires c in Last(run).inFlight && c in Last(run).status && !shown.Pending?
    ensures Extends(g, order, run, longer, Shown(Last(run), c, shown))
  {
    assert WriteStep(Last(run), Shown(Last(run), c, shown));
    longer := ThenStep(g, order, run, Shown(Last(run), c, shown));
  }

  lemma ThenSettle(g: Graph, order: seq<Id>, run: seq<Pool>, c: Id, slot: nat) returns (longer: seq<Pool>)
    requires IsRun(g, order, 2, true, {}, run) && Last(run).phase.Waiting?
    requires c in Last(run).inFlight && c in Last(run).worker && Last(run).worker[c] == Some(slot)
    ensures Extends(g, order, run, longer, Settled(Last(run), c, slot))
  {
    assert SettleStep(Last(run), c, Settled(Last(run), c, slot));
    longer := ThenStep(g, order, run, Settled(Last(run), c, slot));
  }

  lemma ThenRound(g: Graph, order: seq<Id>, run: seq<Pool>) returns (longer: seq<Pool>)
    requires IsRun(g, order, 2, true, {}, run) && Last(run).phase.Settling?
    ensures Extends(g, order, run, longer, NextRound(Last(run)))
  {
    assert RoundStep(Last(run), NextRound(Last(run)));
    longer := ThenStep(g, order, run, NextRound(Last(run)));
  }

  /** A pool of PENDING chunks before its first round. */
  ghost function AllPending(g: Graph): Pool {
    Pool(map n | n in g :: Pending, map n | n in g :: None, {}, {}, Scanning, {}, {}, [])
  }

  lemma AllPendingIsRun(g: Graph, order: seq<Id>)
    ensures IsRun(g, order, 2, true, {}, [AllPending(g)])
  {
    assert CompletedIn(AllPending(g).status) == {};
  }

  /** The two chunks are in flight. */
  ghost function BothClaimed(g: Graph, x: Id, y: Id): Pool {
    Waits(Claimed(Claimed(Listing(AllPending(g), [x, y]), x, 1), y, 2))
  }

  lemma FirstList(g: Graph, order: seq<Id>, x: Id, y: Id)
    requires Before(order, x, y) && x in g && y in g && g[x] == [] && g[y] == []
    requires forall n :: n in g && g[n] == [] ==> n == x || n == y
    ensures IsReadyList(g, order, AllPending(g), [x, y])
  {
    var p := AllPending(g);
    forall c ensures SurelyReady(g, p, c) ==> c in [x, y] {
      if c in g && g[c] != [] {
        var d := g[c][0];
        assert !SettledDone(p, d);
      }
    }
  }

  /** A run whose first round lists and claims the two chunks without dependencies, and waits. */
  lemma ClaimTwo(g: Graph, order: seq<Id>, x: Id, y: Id) returns (run: seq<Pool>)
    requires Before(order, x, y) && x in g && y in g && g[x] == [] && g[y] == []
    requires forall n :: n in g && g[n] == [] ==> n == x || n == y
    ensures IsRun(g, order, 2, true, {}, run) && run[0] == AllPending(g) && Last(run) == BothClaimed(g, x, y)
  {
    AllPendingIsRun(g, order);
    FirstList(g, order, x, y);
    run := ThenList(g, order, [AllPending(g)], [x, y]);
    run := ThenClaim(g, order, run, x, 1);
    assert [x, y][1..] == [y];
    run := ThenClaim(g, order, run, y, 2);
    run := ThenWait(g, order, run);
  }

  // --- an executor that shows COMPLETED before its tests ran ------------------------------

  /** `b` depends on `a`; `c` stands alone. */
  function ThreeChunks(a: Id, b: Id, c: Id): Graph {
    map[a := [], b := [a], c := []]
  }

  /** The state in which the second round begins: `c` is settled, and `a` is in flight and shown as COMPLETED. */
  ghost function SecondRound(a: Id, b: Id, c: Id): Pool {
    NextRound(Settled(Shown(BothClaimed(ThreeChunks(a, b, c), a, c), a, Completed), c, 2))
  }

  lemma SecondRoundFacts(a: Id, b: Id, c: Id)
    requires a != b && a != c && b != c
    ensures var p := SecondRound(a, b, c);
            && p.phase.Scanning? && p.inFlight == {a} && p.inUse == {1} && p.base == {a}
            && p.status.Keys == {a, b, c} && p.status[b].Pending? && p.status[a].Completed? && a in p.shown
            && p.status[c].Completed?
  {
  }

  lemma ReachSecondRound(a: Id, b: Id, c: Id) returns (run: seq<Pool>)
    requires a != b && a != c && b != c
    ensures IsRun(ThreeChunks(a, b, c), [a, b, c], 2, true, {}, run)
    ensures run[0] == AllPending(ThreeChunks(a, b, c)) && Last(run) == SecondRound(a, b, c)
  {
    var g, order := ThreeChunks(a, b, c), [a, b, c];
    run := ClaimTwo(g, order, a, c);
    run := ThenShow(g, order, run, a, Completed);
    run := ThenSettle(g, order, run, c, 2);
    run := ThenRound(g, order, run);
  }

  /** From all PENDING to an early claim of `b`, and on to a state that works on `b` although `a` has FAILED. */
  ghost predicate BreaksOrder(g: Graph, order: seq<Id>, a: Id, b: Id, run: seq<Pool>) {
    && IsRun(g, order, 2, true, {}, run) && |run| > 2 && run[0] == AllPending(g)
    && EarlyClaim(g, run[|run| - 3], run[|run| - 2])
    && b in Last(run).inFlight && a in Last(run).status && Last(run).status[a].Failed?
    && !OrderSafe(g, run[0].status, Last(run))
  }

  lemma BrokenState(g: Graph, start: Statuses, p: Pool, a: Id, b: Id)
    requires b in g && a in g[b] && b in p.inFlight && a in p.status && p.status[a].Failed?
    ensures !OrderSafe(g, start, p)
  {
    assert !SettledDone(p, a);
  }

  lemma ClaimsEarly(g: Graph, p: Pool, a: Id, b: Id, slot: nat)
    requires b in g && a in g[b] && a in p.inFlight && b !in p.inFlight
    ensures EarlyClaim(g, p, Claimed(p, b, slot))
  {
    assert b in Claimed(p, b, slot).inFlight;
  }

  /** `b` is claimed while `a` is in flight and shown as COMPLETED, and then the tests of `a` fail. */
  lemma ClaimThenFail(g: Graph, order: seq<Id>, a: Id, b: Id, second: seq<Pool>) returns (run: seq<Pool>)
    requires b in g && g[b] == [a] && a != b && b in order
    requires IsRun(g, order, 2, true, {}, second) && second[0] == AllPending(g)
    requires var p := Last(second);
             && p.phase.Scanning? && p.inFlight == {a} && p.inUse == {1} && a in p.shown
             && a in p.status && b in p.status && p.status[b].Pending?
             && forall n :: n in p.status && n != b ==> !p.status[n].Pending?
    ensures BreaksOrder(g, order, a, b, run)
  {
    run := ThenList(g, order, second, [b]);
    ClaimsEarly(g, Last(run), a, b, 2);
    run := ThenClaim(g, order, run, b, 2);
    run := ThenShow(g, order, run, a, Failed);
    BrokenState(g, run[0].status, Last(run), a, b);
  }

  /**
   Two workers take `a` and `c`; `a` is shown as COMPLETED and `c` settles; the next round claims `b`
   on the strength of that; and then the tests of `a` fail.
   */
  lemma TwoWorkersBreakOrder(a: Id, b: Id, c: Id) returns (run: seq<Pool>)
    requires a != b && a != c && b != c
    ensures BreaksOrder(ThreeChunks(a, b, c), [a, b, c], a, b, run)
  {
    SecondRoundFacts(a, b, c);
    var second := ReachSecondRound(a, b, c);
    run := ClaimThenFail(ThreeChunks(a, b, c), [a, b, c], a, b, second);
  }
}
