/** The backpressure queue (ipc/queue.py). */
module Queue {
  import opened Collections
  import opened Events
  import opened Subsequence
  import opened Wrappers

  datatype State = State(capacity: int, dropped: nat, items: seq<Envelope>)

  datatype QueueError = IndexError

  const CAPACITY := 2048

  predicate IsFull(q: State) {
    |q.items| >= q.capacity
  }

  predicate AllControl(items: seq<Envelope>) {
    forall i :: 0 <= i < |items| ==> !IsToken(items[i])
  }

  /** The position of the oldest token; the length if there is none. */
  function FirstToken(items: seq<Envelope>): nat {
    if items == [] || IsToken(items[0]) then 0 else 1 + FirstToken(items[1..])
  }

  lemma {:induction false} FirstTokenIsFirst(items: seq<Envelope>)
    ensures FirstToken(items) <= |items|
    ensures AllControl(items[..FirstToken(items)])
    ensures FirstToken(items) < |items| ==> IsToken(items[FirstToken(items)])
    ensures FirstToken(items) == |items| <==> AllControl(items)
  {
    if items != [] && !IsToken(items[0]) {
      FirstTokenIsFirst(items[1..]);
      assert forall i :: 0 < i < |items| ==> items[i] == items[1..][i - 1];
      var n := FirstToken(items);
      assert forall i :: 0 <= i < n ==> i == 0 || items[i] == items[1..][..n - 1][i - 1];
      assert FirstToken(items) == |items| ==> items[..|items|] == items;
    }
  }

  function Without(items: seq<Envelope>, i: nat): (rest: seq<Envelope>)
    requires i < |items|
    ensures |rest| == |items| - 1
  {
    items[..i] + items[i + 1..]
  }

  /** A `put` on a full queue of capacity 0 pops from an empty deque and raises. */
  predicate PutRaises(q: State, e: Envelope) {
    IsToken(e) && IsFull(q) && q.items == []
  }

  /** The position of the item a full queue gives up for `e`; none if it refuses `e`. */
  function Victim(q: State, e: Envelope): (v: Option<nat>)
    requires IsFull(q)
    ensures v.Some? ==> PutRaises(q, e) || v.value < |q.items|
  {
    if IsToken(e) then Some(0)
    else
      FirstTokenIsFirst(q.items);
      if FirstToken(q.items) < |q.items| then Some(FirstToken(q.items)) else None
  }

  /** `put`: the queue after it, and whether the envelope was accepted. */
  function Put(q: State, e: Envelope): Result<(State, bool), QueueError> {
    if !IsFull(q) then Ok((q.(items := q.items + [e]), true))
    else if PutRaises(q, e) then Err(IndexError)
    else
      match Victim(q, e)
      case None => Ok((q, false))
      case Some(i) => Ok((q.(items := Without(q.items, i) + [e], dropped := q.dropped + 1), true))
  }

  function Get(q: State): (State, Option<Envelope>) {
    if q.items == [] then (q, None) else (q.(items := q.items[1..]), Some(q.items[0]))
  }

  /** The oldest token makes room for a control event, and it is refused only by a queue of control events. */
  lemma ControlPut(q: State, e: Envelope)
    requires !IsToken(e)
    ensures Put(q, e).Ok?
    ensures !Put(q, e).value.1 <==> IsFull(q) && AllControl(q.items)
    ensures IsFull(q) && Put(q, e).value.1 ==>
              exists i :: 0 <= i < |q.items| && IsToken(q.items[i]) && AllControl(q.items[..i])
                          && Put(q, e).value.0.items == Without(q.items, i) + [e]
  {
    FirstTokenIsFirst(q.items);
  }

  /** A token is always taken: a full queue gives up its oldest item for it, token or not. */
  lemma TokenPut(q: State, e: Envelope)
    requires IsToken(e) && 1 <= q.capacity
    ensures Put(q, e) == Ok((State(q.capacity, if q.capacity <= |q.items| then q.dropped + 1 else q.dropped,
                                   (if q.capacity <= |q.items| then q.items[1..] else q.items) + [e]), true))
  {
    if IsFull(q) {
      assert Without(q.items, 0) == q.items[1..];
    }
  }

  /** The one case in which an event is turned away: a control event, by a full queue of control events. */
  predicate Refuses(q: State, e: Envelope) {
    q.capacity <= |q.items| && !IsToken(e) && AllControl(q.items)
  }

  lemma PutAcceptsIff(q: State, e: Envelope)
    requires 1 <= q.capacity
    ensures Put(q, e).Ok? && (Put(q, e).value.1 <==> !Refuses(q, e))
  {
    if !IsToken(e) {
      ControlPut(q, e);
    }
  }

  // --- control events do drop ------------------------------------------------------

  /** This `put` costs a control event: the head makes room for a token, or the event itself is refused. */
  predicate CostsControl(q: State, e: Envelope) {
    IsFull(q) && q.items != [] && if IsToken(e) then !IsToken(q.items[0]) else AllControl(q.items)
  }

  lemma AppendedControls(items: seq<Envelope>, e: Envelope)
    ensures Controls(items + [e]) == Controls(items) + if IsToken(e) then [] else [e]
  {
    FrontOfSnoc(items, e);
  }

  lemma WithoutControls(items: seq<Envelope>, i: nat)
    requires i < |items|
    ensures IsToken(items[i]) ==> Controls(Without(items, i)) == Controls(items)
    ensures !IsToken(items[i]) ==> |Controls(Without(items, i))| == |Controls(items)| - 1
  {
    SplitAt(items, i);
    AppendedControls(items[..i], items[i]);
    ControlsConcat(items[..i] + [items[i]], items[i + 1..]);
    ControlsConcat(items[..i], items[i + 1..]);
  }

  /** A `put` keeps every control event, the new one included, exactly when it is not of that kind. */
  lemma PutKeepsControlsIff(q: State, e: Envelope)
    requires 1 <= q.capacity
    ensures Put(q, e).Ok?
    ensures var after := Put(q, e).value.0;
            && |Controls(after.items)| + (if CostsControl(q, e) then 1 else 0) == |Controls(q.items + [e])|
            && (Controls(after.items) == Controls(q.items + [e]) <==> !CostsControl(q, e))
  {
    FirstTokenIsFirst(q.items);
    AppendedControls(q.items, e);
    if IsFull(q) && Victim(q, e).Some? {
      var i := Victim(q, e).value;
      WithoutControls(q.items, i);
      AppendedControls(Without(q.items, i), e);
    }
  }

  /** A control event at the head of a full queue is dropped for a token. */
  lemma TokenEvictsControl()
    ensures var snapshot, token := Envelope(Snapshot, 0), Envelope(AgentTokenStream, 1);
            Put(State(1, 0, [snapshot]), token) == Ok((State(1, 1, [token]), true))
  {
    var snapshot, token := Envelope(Snapshot, 0), Envelope(AgentTokenStream, 1);
    assert Without([snapshot], 0) + [token] == [token];
  }

  // --- whole runs -----------------------------------------------------------------

  datatype Op = OpPut(e: Envelope) | OpGet

  /** A queue with what was offered to it, what it accepted, and what was taken from it. */
  datatype Log = Log(queue: State, offered: seq<Envelope>, accepted: seq<Envelope>, delivered: seq<Envelope>)

  function Apply(l: Log, op: Op): Log {
    match op
    case OpPut(e) =>
      (match Put(l.queue, e)
       case Err(_) => l.(offered := l.offered + [e])
       case Ok((next, taken)) =>
         Log(next, l.offered + [e], if taken then l.accepted + [e] else l.accepted, l.delivered))
    case OpGet =>
      var (next, out) := Get(l.queue);
      l.(queue := next, delivered := if out.Some? then l.delivered + [out.value] else l.delivered)
  }

  function Run(l: Log, ops: seq<Op>): Log {
    if ops == [] then l else Apply(Run(l, ops[..|ops| - 1]), ops[|ops| - 1])
  }

  function Empty(capacity: int): Log {
    Log(State(capacity, 0, []), [], [], [])
  }

  /** What has been delivered and what is queued, oldest first. */
  function Kept(l: Log): seq<Envelope> {
    l.delivered + l.queue.items
  }

  ghost predicate Faithful(l: Log) {
    && 1 <= l.queue.capacity && |l.queue.items| <= l.queue.capacity
    && Sub(Kept(l), l.accepted) && Sub(l.accepted, l.offered)
    && |l.accepted| == |l.delivered| + |l.queue.items| + l.queue.dropped
  }

  lemma EvictedFromKept(delivered: seq<Envelope>, items: seq<Envelope>, i: nat, e: Envelope)
    requires i < |items|
    ensures delivered + (Without(items, i) + [e]) == Without(delivered + items, |delivered| + i) + [e]
  {
  }

  /** `kept` stays a subsequence when one element makes room for a new one. */
  lemma SubReplace(kept: seq<Envelope>, accepted: seq<Envelope>, i: nat, e: Envelope)
    requires Sub(kept, accepted) && i < |kept|
    ensures Sub(Without(kept, i) + [e], accepted + [e])
  {
    SubRemove(kept, accepted, i);
    SubAppend(Without(kept, i), accepted, e);
  }

  /** The log after `e` was appended, with or without a victim. */
  function Taken(l: Log, victim: Option<nat>, e: Envelope): Log
    requires victim.Some? ==> victim.value < |l.queue.items|
  {
    var q := l.queue;
    Log(if victim.None? then q.(items := q.items + [e])
        else State(q.capacity, q.dropped + 1, Without(q.items, victim.value) + [e]),
        l.offered + [e], l.accepted + [e], l.delivered)
  }

  lemma TakenWithRoom(l: Log, e: Envelope)
    requires Faithful(l) && |l.queue.items| < l.queue.capacity
    ensures Faithful(Taken(l, None, e))
  {
    SubAppend(l.accepted, l.offered, e);
    SubAppend(Kept(l), l.accepted, e);
    Regroup(l.delivered, l.queue.items, [e]);
  }

  lemma EvictSub(delivered: seq<Envelope>, items: seq<Envelope>, i: nat, e: Envelope, accepted: seq<Envelope>)
    requires Sub(delivered + items, accepted) && i < |items|
    ensures Sub(delivered + (Without(items, i) + [e]), accepted + [e])
  {
    EvictedFromKept(delivered, items, i, e);
    SubReplace(delivered + items, accepted, |delivered| + i, e);
  }

  lemma TakenForVictim(l: Log, i: nat, e: Envelope)
    requires Faithful(l) && i < |l.queue.items|
    ensures Faithful(Taken(l, Some(i), e))
  {
    SubAppend(l.accepted, l.offered, e);
    EvictSub(l.delivered, l.queue.items, i, e, l.accepted);
  }

  lemma PutIsFaithful(l: Log, e: Envelope)
    requires Faithful(l)
    ensures Faithful(Apply(l, OpPut(e)))
  {
    if !IsFull(l.queue) {
      TakenWithRoom(l, e);
      assert Apply(l, OpPut(e)) == Taken(l, None, e);
    } else if Victim(l.queue, e).Some? {
      TakenForVictim(l, Victim(l.queue, e).value, e);
      assert Apply(l, OpPut(e)) == Taken(l, Victim(l.queue, e), e);
    } else {
      SubAppend(l.accepted, l.offered, e);
    }
  }

  lemma GetKeeps(l: Log)
    ensures Kept(Apply(l, OpGet)) == Kept(l)
  {
  }

  /** Capacity, order and the count of dropped frames hold in every run. */
  lemma {:induction false} RunsAreFaithful(l: Log, ops: seq<Op>)
    requires Faithful(l)
    ensures Faithful(Run(l, ops)) && Run(l, ops).queue.capacity == l.queue.capacity
  {
    if ops != [] {
      RunsAreFaithful(l, ops[..|ops| - 1]);
      var before := Run(l, ops[..|ops| - 1]);
      match ops[|ops| - 1] {
        case OpPut(e) => PutIsFaithful(before, e);
        case OpGet => GetKeeps(before);
      }
    }
  }

  /** The events offered in a run that were not refused. */
  function Unrefused(l: Log, ops: seq<Op>): seq<Envelope> {
    if ops == [] then []
    else
      var front, op := ops[..|ops| - 1], ops[|ops| - 1];
      Unrefused(l, front) + if op.OpPut? && !Refuses(Run(l, front).queue, op.e) then [op.e] else []
  }

  /** What a run accepts is all that was offered less the control events refused. */
  lemma {:induction false} AcceptedIsUnrefused(l: Log, ops: seq<Op>)
    requires Faithful(l)
    ensures Run(l, ops).accepted == l.accepted + Unrefused(l, ops)
  {
    if ops != [] {
      var front, op := ops[..|ops| - 1], ops[|ops| - 1];
      AcceptedIsUnrefused(l, front);
      RunsAreFaithful(l, front);
      if op.OpPut? {
        PutAcceptsIff(Run(l, front).queue, op.e);
      }
    }
  }

  function Puts(es: seq<Envelope>): seq<Op> {
    seq(|es|, i requires 0 <= i < |es| => OpPut(es[i]))
  }

  /** The newest `n` of a sequence. */
  function Newest(es: seq<Envelope>, n: nat): seq<Envelope> {
    es[|es| - Capped(|es|, n)..]
  }

  lemma NewestSnoc(es: seq<Envelope>, e: Envelope, n: nat)
    requires 1 <= n
    ensures Newest(es + [e], n) == (if n <= |es| then Newest(es, n)[1..] else Newest(es, n)) + [e]
  {
  }

  lemma PutsSnoc(es: seq<Envelope>)
    requires es != []
    ensures Puts(es) != [] && Puts(es)[..|es| - 1] == Puts(es[..|es| - 1]) && Puts(es)[|es| - 1] == OpPut(es[|es| - 1])
  {
  }

  /** A queue that was offered these and kept the newest. */
  function NewestLog(capacity: nat, es: seq<Envelope>): Log {
    var items := Newest(es, capacity);
    Log(State(capacity, |es| - |items|, items), es, es, [])
  }

  lemma TokenApplied(capacity: nat, es: seq<Envelope>, e: Envelope)
    requires IsToken(e) && 1 <= capacity
    ensures Apply(NewestLog(capacity, es), OpPut(e)) == NewestLog(capacity, es + [e])
  {
    TokenPut(NewestLog(capacity, es).queue, e);
    NewestSnoc(es, e, capacity);
  }

  /** Of a run of tokens the queue holds exactly the newest, oldest first, and has counted the others as dropped. */
  lemma {:induction false} TokensKeepNewest(capacity: nat, es: seq<Envelope>)
    requires 1 <= capacity && forall e :: e in es ==> IsToken(e)
    ensures var end := Run(Empty(capacity), Puts(es));
            && end.queue.items == Newest(es, capacity) && end.accepted == es && end.delivered == []
            && end.queue.dropped + |end.queue.items| == |es|
            && end == NewestLog(capacity, es)
  {
    if es != [] {
      var front, e := es[..|es| - 1], es[|es| - 1];
      TokensKeepNewest(capacity, front);
      PutsSnoc(es);
      TokenApplied(capacity, front, e);
      FrontAndLast(es);
    }
  }

  /** How many control events a run cost. */
  function Cost(l: Log, ops: seq<Op>): nat {
    if ops == [] then 0
    else
      var front, op := ops[..|ops| - 1], ops[|ops| - 1];
      Cost(l, front) + if op.OpPut? && CostsControl(Run(l, front).queue, op.e) then 1 else 0
  }

  lemma PutCosts(l: Log, e: Envelope)
    requires Faithful(l)
    ensures var after, cost := Apply(l, OpPut(e)), CostsControl(l.queue, e);
            && |Controls(Kept(after))| + (if cost then 1 else 0) == |Controls(Kept(l))| + |Controls([e])|
            && (!cost ==> Controls(Kept(after)) == Controls(Kept(l)) + Controls([e]))
  {
    var after := Apply(l, OpPut(e));
    PutKeepsControlsIff(l.queue, e);
    ControlsConcat(l.delivered, l.queue.items);
    ControlsConcat(l.delivered, after.queue.items);
    ControlsConcat(l.queue.items, [e]);
  }

  lemma {:induction false} CostIsCounted(l: Log, ops: seq<Op>)
    requires Faithful(l) && Controls(Kept(l)) == Controls(l.offered)
    ensures var end := Run(l, ops);
            && |Controls(Kept(end))| + Cost(l, ops) == |Controls(end.offered)|
            && (Cost(l, ops) == 0 ==> Controls(Kept(end)) == Controls(end.offered))
  {
    if ops != [] {
      var front, op := ops[..|ops| - 1], ops[|ops| - 1];
      CostIsCounted(l, front);
      RunsAreFaithful(l, front);
      var before := Run(l, front);
      match op {
        case OpPut(e) =>
          PutCosts(before, e);
          ControlsConcat(before.offered, [e]);
        case OpGet => GetKeeps(before);
      }
    }
  }

  /** All control events offered are delivered or queued, in order, exactly when no `put` of the run cost one. */
  lemma ControlsSurviveIff(capacity: int, ops: seq<Op>)
    requires 1 <= capacity
    ensures var end := Run(Empty(capacity), ops);
            Controls(Kept(end)) == Controls(end.offered) <==> Cost(Empty(capacity), ops) == 0
  {
    CostIsCounted(Empty(capacity), ops);
  }

  /** How many puts of a run met a full queue. */
  function Overflows(l: Log, ops: seq<Op>): nat {
    if ops == [] then 0
    else
      var front, op := ops[..|ops| - 1], ops[|ops| - 1];
      Overflows(l, front) + if op.OpPut? && IsFull(Run(l, front).queue) then 1 else 0
  }

  lemma {:induction false} OverflowsAreCounted(l: Log, ops: seq<Op>)
    requires Faithful(l) && |Kept(l)| == |l.offered|
    ensures |Kept(Run(l, ops))| + Overflows(l, ops) == |Run(l, ops).offered|
  {
    if ops != [] {
      OverflowsAreCounted(l, ops[..|ops| - 1]);
      RunsAreFaithful(l, ops[..|ops| - 1]);
    }
  }

  /** Nothing offered is missing, and all of it is in order, exactly when no `put` met a full queue. */
  lemma GaplessIff(capacity: int, ops: seq<Op>)
    requires 1 <= capacity
    ensures var end := Run(Empty(capacity), ops);
            Kept(end) == end.offered <==> Overflows(Empty(capacity), ops) == 0
  {
    var end := Run(Empty(capacity), ops);
    OverflowsAreCounted(Empty(capacity), ops);
    RunsAreFaithful(Empty(capacity), ops);
    SubLength(Kept(end), end.accepted);
    SubLength(end.accepted, end.offered);
  }

  function Gets(n: nat): seq<Op> {
    seq(n, _ => OpGet)
  }

  /** The log after the `k` oldest items were delivered. */
  function Delivered(l: Log, k: nat): Log
    requires k <= |l.queue.items|
  {
    l.(queue := l.queue.(items := l.queue.items[k..]), delivered := l.delivered + l.queue.items[..k])
  }

  lemma GetDelivers(l: Log, n: nat)
    ensures var size := |l.queue.items|;
            Apply(Delivered(l, Capped(n, size)), OpGet) == Delivered(l, Capped(n + 1, size))
  {
    if n < |l.queue.items| {
      assert l.queue.items[n..][1..] == l.queue.items[n + 1..];
      assert l.queue.items[..n] + [l.queue.items[n]] == l.queue.items[..n + 1];
    }
  }

  lemma {:induction false} GetsDeliver(l: Log, ops: seq<Op>, n: nat)
    ensures var before := Run(l, ops);
            Run(l, ops + Gets(n)) == Delivered(before, Capped(n, |before.queue.items|))
  {
    if n == 0 {
      assert ops + Gets(0) == ops;
    } else {
      GetsDeliver(l, ops, n - 1);
      GetDelivers(Run(l, ops), n - 1);
      assert (ops + Gets(n))[..|ops + Gets(n)| - 1] == ops + Gets(n - 1);
    }
  }

  /** Getting until the queue is empty delivers everything queued. */
  lemma DrainDelivers(l: Log, ops: seq<Op>)
    ensures var before := Run(l, ops);
            var after := Run(l, ops + Gets(|before.queue.items| + 1));
            after == before.(queue := before.queue.(items := []), delivered := Kept(before))
  {
    GetsDeliver(l, ops, |Run(l, ops).queue.items| + 1);
  }
}
