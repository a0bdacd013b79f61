/**
 The fan-out to attached clients (engine/fanout.py) and the snapshot that the
 state broadcast puts first (engine/state_broadcast.py).
 */
module Fanout {
  import opened Wrappers
  import opened Events
  import opened Subsequence
  import opened BackpressureQueue
  import Q = Queue

  datatype ClientId = ClientId(name: string)

  type Queues = map<ClientId, Q.State>

  /** `PublishTo` is also what the state broadcast's `on_attach` does, with the snapshot. */
  datatype Event =
    | Attach(c: ClientId)
    | Detach(c: ClientId)
    | Publish(e: Envelope)
    | PublishTo(c: ClientId, e: Envelope)
    | Drain(c: ClientId)

  function Fresh(): Q.State {
    Q.State(Q.CAPACITY, 0, [])
  }

  /** The queue after a `put`; a queue of capacity 2048 never raises. */
  function After(q: Q.State, e: Envelope): Q.State {
    var put := Q.Put(q, e);
    if put.Ok? then put.value.0 else q
  }

  function Step(f: Queues, ev: Event): Queues {
    match ev
    case Attach(c) => if c in f then f else f[c := Fresh()]
    case Detach(c) => f - {c}
    case Publish(e) => map c | c in f :: After(f[c], e)
    case PublishTo(c, e) => if c in f then f[c := After(f[c], e)] else f
    case Drain(c) => if c in f then f[c := f[c].(items := [])] else f
  }

  function Run(events: seq<Event>): Queues {
    if events == [] then map[] else Step(Run(events[..|events| - 1]), events[|events| - 1])
  }

  function Lookup(f: Queues, c: ClientId): Option<Q.State> {
    if c in f then Some(f[c]) else None
  }

  // --- one client alone --------------------------------------------------------------

  predicate Concerns(c: ClientId, ev: Event) {
    ev.Publish? || ev.c == c
  }

  /** The queue of a client with its history since it attached. */
  function LogOf(calls: seq<Q.Op>): Q.Log {
    Q.Run(Q.Empty(Q.CAPACITY), calls)
  }

  function CallsAfter(c: ClientId, before: Option<seq<Q.Op>>, ev: Event): Option<seq<Q.Op>> {
    if !Concerns(c, ev) then before
    else if before.None? then if ev.Attach? then Some([]) else None
    else
      match ev
      case Attach(_) => before
      case Detach(_) => None
      case Publish(e) => Some(before.value + [Q.OpPut(e)])
      case PublishTo(_, e) => Some(before.value + [Q.OpPut(e)])
      case Drain(_) => Some(before.value + Q.Gets(|LogOf(before.value).queue.items| + 1))
  }

  /** The calls on the queue of `c` since it attached last; none while it is detached. */
  function Calls(c: ClientId, events: seq<Event>): Option<seq<Q.Op>> {
    if events == [] then None else CallsAfter(c, Calls(c, events[..|events| - 1]), events[|events| - 1])
  }

  lemma CallSnoc(calls: seq<Q.Op>, op: Q.Op)
    ensures LogOf(calls + [op]) == Q.Apply(LogOf(calls), op)
  {
    assert (calls + [op])[..|calls + [op]| - 1] == calls;
  }

  lemma StepIsOwnStep(f: Queues, c: ClientId, calls: Option<seq<Q.Op>>, ev: Event)
    requires Lookup(f, c) == (if calls.None? then None else Some(LogOf(calls.value).queue))
    ensures var after := CallsAfter(c, calls, ev);
            Lookup(Step(f, ev), c) == (if after.None? then None else Some(LogOf(after.value).queue))
  {
    if calls.Some? && Concerns(c, ev) {
      match ev {
        case Attach(_) =>
        case Detach(_) =>
        case Publish(e) => CallSnoc(calls.value, Q.OpPut(e));
        case PublishTo(_, e) => CallSnoc(calls.value, Q.OpPut(e));
        case Drain(_) => Q.DrainDelivers(Q.Empty(Q.CAPACITY), calls.value);
      }
    }
  }

  /** Inside the fan-out, a client's queue is what its own calls alone would make it. */
  lemma {:induction false} ClientStandsAlone(events: seq<Event>, c: ClientId)
    ensures var calls := Calls(c, events);
            Lookup(Run(events), c) == (if calls.None? then None else Some(LogOf(calls.value).queue))
  {
    if events != [] {
      ClientStandsAlone(events[..|events| - 1], c);
      StepIsOwnStep(Run(events[..|events| - 1]), c, Calls(c, events[..|events| - 1]), events[|events| - 1]);
    }
  }

  function Concerning(c: ClientId, events: seq<Event>): seq<Event> {
    if events == [] then []
    else
      Concerning(c, events[..|events| - 1]) +
      if Concerns(c, events[|events| - 1]) then [events[|events| - 1]] else []
  }

  lemma {:induction false} CallsIgnoreOthers(events: seq<Event>, c: ClientId)
    ensures Calls(c, Concerning(c, events)) == Calls(c, events)
  {
    if events != [] {
      var front, ev := events[..|events| - 1], events[|events| - 1];
      CallsIgnoreOthers(front, c);
      if Concerns(c, ev) {
        var all := Concerning(c, front) + [ev];
        assert all[..|all| - 1] == Concerning(c, front);
        assert Concerning(c, events) == all;
      } else {
        assert Concerning(c, events) == Concerning(c, front);
      }
    }
  }

  /** Attaching, detaching, draining or addressing another client makes no difference to this one. */
  lemma OthersMakeNoDifference(events: seq<Event>, c: ClientId)
    ensures Lookup(Run(events), c) == Lookup(Run(Concerning(c, events)), c)
  {
    ClientStandsAlone(events, c);
    ClientStandsAlone(Concerning(c, events), c);
    CallsIgnoreOthers(events, c);
  }

  // --- who is attached -----------------------------------------------------------------

  /** The last time `c` was attached or detached, it was attached. */
  predicate IsAttached(c: ClientId, events: seq<Event>) {
    events != [] &&
    var last := events[|events| - 1];
    if last == Attach(c) then true
    else if last == Detach(c) then false
    else IsAttached(c, events[..|events| - 1])
  }

  /** A client has a queue exactly from when it is attached until it is detached. */
  lemma {:induction false} AttachedIff(events: seq<Event>, c: ClientId)
    ensures c in Run(events) <==> IsAttached(c, events)
  {
    if events != [] {
      AttachedIff(events[..|events| - 1], c);
    }
  }

  // --- what a client sees --------------------------------------------------------------

  function PublishedBy(c: ClientId, ev: Event): seq<Envelope> {
    if ev.Publish? || (ev.PublishTo? && ev.c == c) then [ev.e] else []
  }

  /** What is published to `c` by `events`. */
  function PublishedTo(c: ClientId, events: seq<Event>): seq<Envelope> {
    if events == [] then []
    else PublishedTo(c, events[..|events| - 1]) + PublishedBy(c, events[|events| - 1])
  }

  predicate NeverDetached(c: ClientId, events: seq<Event>) {
    forall i :: 0 <= i < |events| ==> events[i] != Detach(c)
  }

  lemma CallsOffer(c: ClientId, calls: seq<Q.Op>, ev: Event)
    requires ev != Detach(c)
    ensures var after := CallsAfter(c, Some(calls), ev);
            after.Some? && LogOf(after.value).offered == LogOf(calls).offered + PublishedBy(c, ev)
  {
    if Concerns(c, ev) {
      match ev {
        case Attach(_) =>
        case Publish(e) => CallSnoc(calls, Q.OpPut(e));
        case PublishTo(_, e) => CallSnoc(calls, Q.OpPut(e));
        case Drain(_) => Q.DrainDelivers(Q.Empty(Q.CAPACITY), calls);
      }
    }
  }

  lemma CallsOfLonger(c: ClientId, events: seq<Event>, ev: Event)
    ensures Calls(c, events + [ev]) == CallsAfter(c, Calls(c, events), ev)
  {
    assert (events + [ev])[..|events + [ev]| - 1] == events;
  }

  lemma {:induction false} OfferedIsPublished(c: ClientId, before: seq<Event>, since: seq<Event>)
    requires Calls(c, before).None? && NeverDetached(c, since)
    ensures var calls := Calls(c, before + [Attach(c)] + since);
            calls.Some? && LogOf(calls.value).offered == PublishedTo(c, since)
    decreases |since|
  {
    var attached := before + [Attach(c)];
    if since == [] {
      CallsOfLonger(c, before, Attach(c));
      assert attached + since == attached;
    } else {
      var front, ev := since[..|since| - 1], since[|since| - 1];
      OfferedIsPublished(c, before, front);
      CallsOfLonger(c, attached + front, ev);
      assert attached + since == (attached + front) + [ev];
      CallsOffer(c, Calls(c, attached + front).value, ev);
    }
  }

  /**
   A client sees, in order, a part of what was published to it since it attached, the
   rest is counted or refused; it sees everything exactly when its queue never overflowed.
   */
  lemma ClientSeesPublished(c: ClientId, before: seq<Event>, since: seq<Event>)
    requires Calls(c, before).None? && NeverDetached(c, since)
    ensures var calls := Calls(c, before + [Attach(c)] + since);
            && calls.Some?
            && var log := LogOf(calls.value);
               && Lookup(Run(before + [Attach(c)] + since), c) == Some(log.queue)
               && |log.queue.items| <= Q.CAPACITY
               && Sub(Q.Kept(log), PublishedTo(c, since))
               && |log.accepted| == |log.delivered| + |log.queue.items| + log.queue.dropped
               && (Q.Kept(log) == PublishedTo(c, since) <==> Q.Overflows(Q.Empty(Q.CAPACITY), calls.value) == 0)
  {
    var all := before + [Attach(c)] + since;
    OfferedIsPublished(c, before, since);
    ClientStandsAlone(all, c);
    var calls := Calls(c, all).value;
    Q.RunsAreFaithful(Q.Empty(Q.CAPACITY), calls);
    SubTrans(Q.Kept(LogOf(calls)), LogOf(calls).accepted, LogOf(calls).offered);
    Q.GaplessIff(Q.CAPACITY, calls);
  }

  /** What a drain by `c` returns. */
  function DrainedBy(f: Queues, c: ClientId, ev: Event): seq<Envelope> {
    if ev == Drain(c) && c in f then f[c].items else []
  }

  /** What `c` has been given by its drains during `since`. */
  function Received(c: ClientId, before: seq<Event>, since: seq<Event>): seq<Envelope> {
    if since == [] then []
    else
      var front := since[..|since| - 1];
      Received(c, before, front) + DrainedBy(Run(before + front), c, since[|since| - 1])
  }

  lemma CallsDeliver(c: ClientId, calls: seq<Q.Op>, ev: Event)
    requires ev != Detach(c)
    ensures var after, log := CallsAfter(c, Some(calls), ev), LogOf(calls);
            && after.Some?
            && LogOf(after.value).delivered == log.delivered + if ev == Drain(c) then log.queue.items else []
  {
    if Concerns(c, ev) {
      match ev {
        case Attach(_) =>
        case Publish(e) => CallSnoc(calls, Q.OpPut(e));
        case PublishTo(_, e) => CallSnoc(calls, Q.OpPut(e));
        case Drain(_) => Q.DrainDelivers(Q.Empty(Q.CAPACITY), calls);
      }
    }
  }

  /** What its queue has delivered is what the drains of the client returned, each item once. */
  lemma {:induction false} DeliveredIsReceived(c: ClientId, before: seq<Event>, since: seq<Event>)
    requires Calls(c, before).None? && NeverDetached(c, since)
    ensures var attached := before + [Attach(c)];
            var calls := Calls(c, attached + since);
            calls.Some? && LogOf(calls.value).delivered == Received(c, attached, since)
    decreases |since|
  {
    var attached := before + [Attach(c)];
    if since == [] {
      CallsOfLonger(c, before, Attach(c));
      assert attached + since == attached;
    } else {
      var front, ev := since[..|since| - 1], since[|since| - 1];
      DeliveredIsReceived(c, before, front);
      ClientStandsAlone(attached + front, c);
      CallsOfLonger(c, attached + front, ev);
      assert attached + since == (attached + front) + [ev];
      CallsDeliver(c, Calls(c, attached + front).value, ev);
    }
  }

  /**
   What a client has drained, followed by what is still queued for it, is in order a part of what was published
   to it since it attached, and all of it exactly when its queue never overflowed.
   */
  lemma ClientReceivesPublished(c: ClientId, before: seq<Event>, since: seq<Event>)
    requires Calls(c, before).None? && NeverDetached(c, since)
    ensures var attached := before + [Attach(c)];
            var f, calls := Run(attached + since), Calls(c, attached + since);
            && c in f && calls.Some?
            && var seen := Received(c, attached, since) + f[c].items;
               && Sub(seen, PublishedTo(c, since))
               && (seen == PublishedTo(c, since) <==> Q.Overflows(Q.Empty(Q.CAPACITY), calls.value) == 0)
  {
    ClientSeesPublished(c, before, since);
    DeliveredIsReceived(c, before, since);
  }

  lemma {:induction false} PublishedToConcat(c: ClientId, a: seq<Event>, b: seq<Event>)
    ensures PublishedTo(c, a + b) == PublishedTo(c, a) + PublishedTo(c, b)
    decreases |b|
  {
    if b == [] {
      assert a + b == a;
    } else {
      assert (a + b)[..|a + b| - 1] == a + b[..|b| - 1];
      PublishedToConcat(c, a, b[..|b| - 1]);
    }
  }

  /** A client that attaches gets the snapshot first, and then every later event, while its queue has not overflowed. */
  lemma SnapshotComesFirst(c: ClientId, before: seq<Event>, snapshot: Envelope, since: seq<Event>)
    requires Calls(c, before).None? && NeverDetached(c, since)
    ensures var calls := Calls(c, before + [Attach(c)] + ([PublishTo(c, snapshot)] + since));
            && calls.Some?
            && (Q.Kept(LogOf(calls.value)) == [snapshot] + PublishedTo(c, since)
                <==> Q.Overflows(Q.Empty(Q.CAPACITY), calls.value) == 0)
  {
    ClientSeesPublished(c, before, [PublishTo(c, snapshot)] + since);
    PublishedToConcat(c, [PublishTo(c, snapshot)], since);
    assert [PublishTo(c, snapshot)][..0] == [];
    assert PublishedTo(c, [PublishTo(c, snapshot)]) == [snapshot];
  }

  // --- the object ----------------------------------------------------------------------

  class Fanout {
    var queues: map<ClientId, BackpressureQueue>

    constructor ()
      ensures Valid() && Contents() == map[]
    {
      queues := map[];
    }

    /** Every client owns a queue of its own. */
    ghost predicate Valid()
      reads this, queues.Values
    {
      && (forall c :: c in queues ==> queues[c].capacity == Q.CAPACITY)
      && (forall c, d :: c in queues && d in queues && c != d ==> queues[c] != queues[d])
    }

    ghost function Contents(): Queues
      reads this, queues.Values
    {
      map c | c in queues :: queues[c].Content()
    }

    method Attach(c: ClientId)
      requires Valid()
      modifies this
      ensures Valid() && Contents() == Step(old(Contents()), Event.Attach(c))
      ensures forall q :: q in queues.Values && q !in old(queues.Values) ==> fresh(q)
    {
      if c !in queues {
        var queue := new BackpressureQueue(Q.CAPACITY);
        queues := queues[c := queue];
      }
    }

    method Detach(c: ClientId)
      requires Valid()
      modifies this
      ensures Valid() && Contents() == Step(old(Contents()), Event.Detach(c))
      ensures queues.Values <= old(queues.Values)
    {
      queues := queues - {c};
    }

    method Publish(e: Envelope)
      requires Valid()
      modifies queues.Values
      ensures Valid() && Contents() == Step(old(Contents()), Event.Publish(e))
    {
      var todo := queues.Keys;
      while todo != {}
        invariant todo <= queues.Keys
        invariant forall c :: c in queues ==>
                    queues[c].Content() ==
                    if c in todo then old(queues[c].Content()) else After(old(queues[c].Content()), e)
        decreases |todo|
      {
        var c :| c in todo;
        var _ := queues[c].Put(e);
        todo := todo - {c};
      }
    }

    method PublishTo(c: ClientId, e: Envelope)
      requires Valid()
      modifies queues.Values
      ensures Valid() && Contents() == Step(old(Contents()), Event.PublishTo(c, e))
    {
      if c in queues {
        var _ := queues[c].Put(e);
      }
    }

    method Drain(c: ClientId) returns (out: seq<Envelope>)
      requires Valid()
      modifies queues.Values
      ensures Valid() && Contents() == Step(old(Contents()), Event.Drain(c))
      ensures out == if c in old(Contents()) then old(Contents())[c].items else []
    {
      out := [];
      if c !in queues {
        return;
      }
      var queue := queues[c];
      var item := queue.Get();
      while item.Some?
        modifies queue
        invariant queue.dropped == old(queues[c].dropped)
        invariant out + (if item.Some? then [item.value] else []) + queue.items == old(queues[c].items)
        invariant item.None? ==> queue.items == []
        decreases |queue.items| + if item.Some? then 1 else 0
      {
        out := out + [item.value];
        item := queue.Get();
      }
    }
  }
}
