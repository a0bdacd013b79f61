/**
 The coalescing throttle (tui/throttle.py). The clock readings a call may take
 are its parameters, in the order in which the code takes them. The sink is
 the list of the batches it was handed.
 */
module Throttle {
  import opened Collections
  import opened Wrappers

  datatype Config = Config(interval: real, maxBatch: int)
  {
    predicate Valid() { 0.0 < interval && 1 <= maxBatch }
  }

  datatype State<T> = State(buffer: seq<T>, lastFlush: real, flushes: nat, written: nat, batches: seq<seq<T>>)

  /** `Drain` is `drain()` when `given` is `None`, and `drain(now)` otherwise. */
  datatype Op<T> =
    | Push(item: T, fullAt: real, checkAt: real, flushAt: real)
    | Flush(flushAt: real)
    | Drain(given: Option<real>, checkAt: real, flushAt: real)

  function Start<T>(now: real): State<T> {
    State([], now, 0, 0, [])
  }

  /** The batch counts as flushed before the sink sees it. */
  function Flushed<T>(s: State<T>, now: real): State<T> {
    if s.buffer == [] then s
    else State([], now, s.flushes + 1, s.written + |s.buffer|, s.batches + [s.buffer])
  }

  predicate IsFull<T>(c: Config, s: State<T>) {
    |s.buffer| >= c.maxBatch
  }

  predicate IsDue<T>(c: Config, s: State<T>, now: real) {
    now - s.lastFlush >= c.interval
  }

  function Appended<T>(c: Config, s: State<T>, op: Op<T>): State<T>
    requires op.Push?
  {
    var room := if IsFull(c, s) then Flushed(s, op.fullAt) else s;
    room.(buffer := room.buffer + [op.item])
  }

  function DrainTime(given: Option<real>, checkAt: real): real {
    if given.Some? then given.value else checkAt
  }

  function Apply<T>(c: Config, s: State<T>, op: Op<T>): State<T> {
    match op
    case Push(_, _, checkAt, flushAt) =>
      var next := Appended(c, s, op);
      if IsDue(c, next, checkAt) then Flushed(next, flushAt) else next
    case Flush(flushAt) => Flushed(s, flushAt)
    case Drain(given, checkAt, flushAt) =>
      if IsDue(c, s, DrainTime(given, checkAt)) then Flushed(s, flushAt) else s
  }

  function Run<T>(c: Config, s: State<T>, ops: seq<Op<T>>): State<T> {
    if ops == [] then s else Apply(c, Run(c, s, ops[..|ops| - 1]), ops[|ops| - 1])
  }

  function PushedBy<T>(op: Op<T>): seq<T> {
    if op.Push? then [op.item] else []
  }

  function Pushed<T>(ops: seq<Op<T>>): seq<T> {
    if ops == [] then [] else Pushed(ops[..|ops| - 1]) + PushedBy(ops[|ops| - 1])
  }

  function Flat<T>(batches: seq<seq<T>>): seq<T> {
    if batches == [] then [] else Flat(batches[..|batches| - 1]) + batches[|batches| - 1]
  }

  // --- nothing is lost, repeated or reordered -------------------------------------

  ghost predicate Delivering<T>(c: Config, s: State<T>, pushed: seq<T>) {
    && Flat(s.batches) + s.buffer == pushed
    && |s.buffer| <= c.maxBatch
    && s.flushes == |s.batches|
    && s.written == |Flat(s.batches)|
    && forall b :: b in s.batches ==> 1 <= |b| <= c.maxBatch
  }

  lemma FlatAppend<T>(batches: seq<seq<T>>, b: seq<T>)
    ensures Flat(batches + [b]) == Flat(batches) + b
  {
    assert (batches + [b])[..|batches + [b]| - 1] == batches;
  }

  lemma FlushDelivers<T>(c: Config, s: State<T>, now: real, pushed: seq<T>)
    requires Delivering(c, s, pushed)
    ensures Delivering(c, Flushed(s, now), pushed) && Flushed(s, now).buffer == []
  {
    FlatAppend(s.batches, s.buffer);
  }

  lemma AppendDelivers<T>(c: Config, s: State<T>, item: T, pushed: seq<T>)
    requires Delivering(c, s, pushed) && !IsFull(c, s)
    ensures Delivering(c, s.(buffer := s.buffer + [item]), pushed + [item])
  {
    assert Flat(s.batches) + (s.buffer + [item]) == (Flat(s.batches) + s.buffer) + [item];
  }

  lemma ApplyDelivers<T>(c: Config, s: State<T>, op: Op<T>, pushed: seq<T>)
    requires c.Valid() && Delivering(c, s, pushed)
    ensures Delivering(c, Apply(c, s, op), pushed + PushedBy(op))
  {
    match op {
      case Push(item, fullAt, _, flushAt) =>
        FlushDelivers(c, s, fullAt, pushed);
        var next := Appended(c, s, op);
        AppendDelivers(c, if IsFull(c, s) then Flushed(s, fullAt) else s, item, pushed);
        FlushDelivers(c, next, flushAt, pushed + [item]);
      case Flush(flushAt) =>
        assert pushed + PushedBy(op) == pushed;
        FlushDelivers(c, s, flushAt, pushed);
      case Drain(_, _, flushAt) =>
        assert pushed + PushedBy(op) == pushed;
        FlushDelivers(c, s, flushAt, pushed);
    }
  }

  /** Delivered batches followed by the buffer are what was pushed, and no batch is empty or too large. */
  lemma {:induction false} RunsDeliver<T>(c: Config, now: real, ops: seq<Op<T>>)
    requires c.Valid()
    ensures Delivering(c, Run(c, Start(now), ops), Pushed(ops))
  {
    if ops != [] {
      RunsDeliver(c, now, ops[..|ops| - 1]);
      ApplyDelivers(c, Run(c, Start(now), ops[..|ops| - 1]), ops[|ops| - 1], Pushed(ops[..|ops| - 1]));
    }
  }

  // --- how often the sink is called -----------------------------------------------

  /** A drain of waiting items that is given a `now` past the end of the interval, before the clock is there. */
  predicate IsEarly<T>(c: Config, s: State<T>, op: Op<T>) {
    && op.Drain? && s.buffer != [] && op.given.Some?
    && op.given.value >= s.lastFlush + c.interval > op.flushAt
  }

  /** What made the sink calls: the interval, a full buffer, or a `flush`; `early` are among the timed ones. */
  datatype Tally = Tally(timed: nat, full: nat, manual: nat, early: nat)

  function TallyBy<T>(c: Config, s: State<T>, op: Op<T>): Tally {
    match op
    case Push(_, _, checkAt, _) => Tally(Count(IsDue(c, Appended(c, s, op), checkAt)), Count(IsFull(c, s)), 0, 0)
    case Flush(_) => Tally(0, 0, Count(s.buffer != []), 0)
    case Drain(given, checkAt, _) =>
      Tally(Count(s.buffer != [] && IsDue(c, s, DrainTime(given, checkAt))), 0, 0, Count(IsEarly(c, s, op)))
  }

  function Add(a: Tally, b: Tally): Tally {
    Tally(a.timed + b.timed, a.full + b.full, a.manual + b.manual, a.early + b.early)
  }

  function TallyOf<T>(c: Config, s: State<T>, ops: seq<Op<T>>): Tally {
    if ops == [] then Tally(0, 0, 0, 0)
    else
      var front := ops[..|ops| - 1];
      Add(TallyOf(c, s, front), TallyBy(c, Run(c, s, front), ops[|ops| - 1]))
  }

  /** The readings of one call do not go back; a `now` given to `drain` may be anything. */
  predicate Ordered<T>(op: Op<T>, since: real) {
    match op
    case Push(_, fullAt, checkAt, flushAt) => since <= fullAt <= checkAt <= flushAt
    case Flush(flushAt) => since <= flushAt
    case Drain(_, checkAt, flushAt) => since <= checkAt <= flushAt
  }

  function LastReading<T>(ops: seq<Op<T>>, start: real): real {
    if ops == [] then start else ops[|ops| - 1].flushAt
  }

  predicate Clocked<T>(ops: seq<Op<T>>, start: real) {
    ops == [] ||
    (Clocked(ops[..|ops| - 1], start) && Ordered(ops[|ops| - 1], LastReading(ops[..|ops| - 1], start)))
  }

  // What one call does.

  /** A timed flush comes at least an interval after the flush before it. */
  predicate OnTime<T>(c: Config, s: State<T>, op: Op<T>) {
    TallyBy(c, s, op).timed == 1 ==> s.lastFlush + c.interval <= Apply(c, s, op).lastFlush
  }

  /** That fails exactly for an early drain. */
  lemma OnTimeIff<T>(c: Config, s: State<T>, op: Op<T>, since: real)
    requires c.Valid() && Ordered(op, since) && s.lastFlush <= since
    ensures OnTime(c, s, op) <==> !IsEarly(c, s, op)
  {
  }

  /** A drain whose `now` is not ahead of the clock is not early. */
  lemma NotAheadIsNotEarly<T>(c: Config, s: State<T>, op: Op<T>, since: real)
    requires Ordered(op, since) && (op.Drain? && op.given.Some? ==> op.given.value <= op.flushAt)
    ensures !IsEarly(c, s, op)
  {
  }

  /** A drain delivers what is waiting exactly when the clock, or the `now` it is given, is at the interval's end. */
  lemma DrainFlushesIff<T>(c: Config, s: State<T>, given: Option<real>, checkAt: real, flushAt: real)
    requires s.buffer != []
    ensures var after := Apply(c, s, Drain(given, checkAt, flushAt));
            var now := match given case None => checkAt case Some(t) => t;
            && (after.buffer == [] <==> s.lastFlush + c.interval <= now)
            && (after.buffer == [] ==> after.lastFlush == flushAt && after.batches == s.batches + [s.buffer])
            && (after.buffer != [] ==> after == s)
  {
  }

  /** After a push nothing waits past the end of the interval; before it, and with room, the item is only kept. */
  lemma PushFlushesWhenDue<T>(c: Config, s: State<T>, item: T, fullAt: real, checkAt: real, flushAt: real)
    requires c.Valid()
    ensures var after := Apply(c, s, Push(item, fullAt, checkAt, flushAt));
            && (s.lastFlush + c.interval <= checkAt && |s.buffer| < c.maxBatch ==>
                  after.buffer == [] && after.batches == s.batches + [s.buffer + [item]] && after.lastFlush == flushAt)
            && (after.buffer != [] ==> checkAt < after.lastFlush + c.interval)
            && (checkAt < s.lastFlush + c.interval && |s.buffer| < c.maxBatch ==>
                  after == s.(buffer := s.buffer + [item]))
  {
  }

  lemma ApplyPaces<T>(c: Config, s: State<T>, op: Op<T>, since: real)
    requires c.Valid() && Ordered(op, since) && s.lastFlush <= since
    ensures var after, k := Apply(c, s, op), TallyBy(c, s, op);
            && s.lastFlush <= after.lastFlush <= op.flushAt
            && after.flushes == s.flushes + k.timed + k.full + k.manual
            && (k.full == 1 ==> s.written + c.maxBatch <= after.written)
            && s.written <= after.written && k.timed <= 1 && k.full <= 1 && k.early <= k.timed
  {
  }

  // What a run does.

  /** Every timed flush of the run is on time. */
  predicate AllOnTime<T>(c: Config, s: State<T>, ops: seq<Op<T>>) {
    ops == [] ||
    (AllOnTime(c, s, ops[..|ops| - 1]) && OnTime(c, Run(c, s, ops[..|ops| - 1]), ops[|ops| - 1]))
  }

  lemma {:induction false} LastFlushIsPast<T>(c: Config, start: real, ops: seq<Op<T>>)
    requires c.Valid() && Clocked(ops, start)
    ensures start <= Run(c, Start(start), ops).lastFlush <= LastReading(ops, start)
  {
    if ops != [] {
      var front := ops[..|ops| - 1];
      LastFlushIsPast(c, start, front);
      ApplyPaces(c, Run(c, Start(start), front), ops[|ops| - 1], LastReading(front, start));
    }
  }

  /** The interval is kept over a run exactly when no drain of it is early. */
  lemma {:induction false} AllOnTimeIff<T>(c: Config, start: real, ops: seq<Op<T>>)
    requires c.Valid() && Clocked(ops, start)
    ensures AllOnTime(c, Start(start), ops) <==> TallyOf(c, Start(start), ops).early == 0
  {
    if ops != [] {
      var front := ops[..|ops| - 1];
      AllOnTimeIff(c, start, front);
      LastFlushIsPast(c, start, front);
      OnTimeIff(c, Run(c, Start(start), front), ops[|ops| - 1], LastReading(front, start));
    }
  }

  /** The least time in which `n` timed flushes fit. */
  function Spread(c: Config, n: nat): real {
    n as real * c.interval
  }

  /** The items `n` full buffers hold. */
  function Fill(c: Config, n: nat): int {
    n * c.maxBatch
  }

  lemma SpreadAdds(c: Config, n: nat, m: nat)
    ensures Spread(c, n + m) == Spread(c, n) + Spread(c, m)
    ensures Spread(c, 0) == 0.0 && Spread(c, 1) == c.interval
  {
    assert (n + m) as real == n as real + m as real;
  }

  lemma FillAdds(c: Config, n: nat, m: nat)
    ensures Fill(c, n + m) == Fill(c, n) + Fill(c, m)
    ensures Fill(c, 0) == 0 && Fill(c, 1) == c.maxBatch
  {
  }

  ghost predicate Paced<T>(c: Config, start: real, s: State<T>, k: Tally) {
    && k.early <= k.timed
    && s.flushes == k.timed + k.full + k.manual
    && Spread(c, k.timed - k.early) <= s.lastFlush - start
    && Fill(c, k.full) <= s.written
  }

  lemma TallyPaces<T>(c: Config, start: real, s: State<T>, op: Op<T>, since: real, k: Tally)
    requires c.Valid() && Ordered(op, since) && s.lastFlush <= since && Paced(c, start, s, k)
    ensures Paced(c, start, Apply(c, s, op), Add(k, TallyBy(c, s, op)))
  {
    var more := TallyBy(c, s, op);
    ApplyPaces(c, s, op, since);
    OnTimeIff(c, s, op, since);
    SpreadAdds(c, k.timed - k.early, more.timed - more.early);
    FillAdds(c, k.full, more.full);
  }

  lemma {:induction false} RunsArePaced<T>(c: Config, start: real, ops: seq<Op<T>>)
    requires c.Valid() && Clocked(ops, start)
    ensures Paced(c, start, Run(c, Start(start), ops), TallyOf(c, Start(start), ops))
  {
    if ops == [] {
      SpreadAdds(c, 0, 0);
      FillAdds(c, 0, 0);
    } else {
      var front, op := ops[..|ops| - 1], ops[|ops| - 1];
      RunsArePaced(c, start, front);
      LastFlushIsPast(c, start, front);
      TallyPaces(c, start, Run(c, Start(start), front), op, LastReading(front, start), TallyOf(c, Start(start), front));
    }
  }

  // The bound.

  lemma ProductOfQuotient(total: real, each: real)
    requires 0.0 < each
    ensures total / each * each == total
  {
  }

  lemma LessTimes(x: real, y: real, each: real)
    requires 0.0 < each && x * each <= y * each
    ensures x <= y
  {
  }

  lemma AtMostQuotient(x: real, each: real, total: real)
    requires 0.0 < each && x * each <= total
    ensures x <= total / each
  {
    ProductOfQuotient(total, each);
    LessTimes(x, total / each, each);
  }

  /** How many intervals fit into `elapsed`. */
  function Intervals(c: Config, elapsed: real): real
    requires c.Valid()
  {
    elapsed / c.interval
  }

  /** How many batches fit into `written`. */
  function Batches(c: Config, written: nat): real
    requires c.Valid()
  {
    written as real / c.maxBatch as real
  }

  lemma TimedFit(c: Config, n: nat, elapsed: real)
    requires c.Valid() && Spread(c, n) <= elapsed
    ensures n as real <= Intervals(c, elapsed)
  {
    AtMostQuotient(n as real, c.interval, elapsed);
  }

  lemma FillIsReal(c: Config, n: nat)
    ensures Fill(c, n) as real == n as real * c.maxBatch as real
  {
  }

  lemma FullFit(c: Config, n: nat, written: nat)
    requires c.Valid() && Fill(c, n) <= written
    ensures n as real <= Batches(c, written)
  {
    FillIsReal(c, n);
    AtMostQuotient(n as real, c.maxBatch as real, written as real);
  }

  lemma SumUp(timed: nat, full: nat, rest: nat, intervals: real, batches: real)
    requires timed as real <= intervals && full as real <= batches
    ensures (timed + full + rest) as real <= intervals + batches + rest as real
  {
  }

  lemma PacedIsBounded<T>(c: Config, start: real, s: State<T>, k: Tally)
    requires c.Valid() && Paced(c, start, s, k)
    ensures s.flushes as real <=
            Intervals(c, s.lastFlush - start) + Batches(c, s.written) + (k.manual + k.early) as real
  {
    TimedFit(c, k.timed - k.early, s.lastFlush - start);
    FullFit(c, k.full, s.written);
    SumUp(k.timed - k.early, k.full, k.manual + k.early, Intervals(c, s.lastFlush - start), Batches(c, s.written));
  }

  /**
   Sink calls: one per interval elapsed, one per full batch, one per explicit flush that had
   something to write, and one per early drain.
   */
  lemma SinkCallsAreBounded<T>(c: Config, start: real, ops: seq<Op<T>>)
    requires c.Valid() && Clocked(ops, start)
    ensures var s, k := Run(c, Start(start), ops), TallyOf(c, Start(start), ops);
            s.flushes as real <=
            Intervals(c, s.lastFlush - start) + Batches(c, s.written) + (k.manual + k.early) as real
  {
    RunsArePaced(c, start, ops);
    PacedIsBounded(c, start, Run(c, Start(start), ops), TallyOf(c, Start(start), ops));
  }

  /** Every `now` given to a drain has been reached by the clock when the drain flushes. */
  predicate NeverAhead<T>(ops: seq<Op<T>>) {
    forall i :: 0 <= i < |ops| && ops[i].Drain? && ops[i].given.Some? ==> ops[i].given.value <= ops[i].flushAt
  }

  lemma {:induction false} NeverAheadIsNeverEarly<T>(c: Config, s: State<T>, start: real, ops: seq<Op<T>>)
    requires Clocked(ops, start) && NeverAhead(ops)
    ensures TallyOf(c, s, ops).early == 0
  {
    if ops != [] {
      var front := ops[..|ops| - 1];
      NeverAheadIsNeverEarly(c, s, start, front);
      NotAheadIsNotEarly(c, Run(c, s, front), ops[|ops| - 1], LastReading(front, start));
    }
  }

  /** The documented bound, for drains that do not look ahead. */
  lemma SinkCallsOnTime<T>(c: Config, start: real, ops: seq<Op<T>>)
    requires c.Valid() && Clocked(ops, start) && NeverAhead(ops)
    ensures var s, k := Run(c, Start(start), ops), TallyOf(c, Start(start), ops);
            s.flushes as real <= Intervals(c, s.lastFlush - start) + Batches(c, s.written) + k.manual as real
  {
    SinkCallsAreBounded(c, start, ops);
    NeverAheadIsNeverEarly(c, Start(start), start, ops);
  }

  lemma FortyIntervals(n: nat)
    requires n as real * 0.05 <= 2.0
    ensures n <= 40
  {
  }

  lemma TwoBatches(n: nat)
    requires n * 4096 <= 10000
    ensures n <= 2
  {
  }

  lemma PacedInTwoSeconds<T>(start: real, s: State<T>, k: Tally)
    requires Paced(Config(0.05, 4096), start, s, k) && s.lastFlush <= start + 2.0 && s.written <= 10000
    ensures s.flushes <= 42 + k.manual + k.early
  {
    FortyIntervals(k.timed - k.early);
    TwoBatches(k.full);
  }

  lemma WrittenIsPushed<T>(c: Config, start: real, ops: seq<Op<T>>)
    requires c.Valid()
    ensures Run(c, Start(start), ops).written <= |Pushed(ops)|
  {
    RunsDeliver(c, start, ops);
    var s: State<T> := Run(c, Start(start), ops);
    assert |Flat(s.batches) + s.buffer| == |Flat(s.batches)| + |s.buffer|;
  }

  /** The documented case: 10 000 events in 2 s at 20 Hz and 4096 a batch cost at most 42 sink calls. */
  lemma TenThousandEvents<T>(start: real, ops: seq<Op<T>>)
    requires Clocked(ops, start) && LastReading(ops, start) <= start + 2.0 && |Pushed(ops)| <= 10000
    ensures var k := TallyOf(Config(0.05, 4096), Start(start), ops);
            Run(Config(0.05, 4096), Start(start), ops).flushes <= 42 + k.manual + k.early
  {
    var c := Config(0.05, 4096);
    RunsArePaced(c, start, ops);
    LastFlushIsPast(c, start, ops);
    WrittenIsPushed(c, start, ops);
    PacedInTwoSeconds(start, Run(c, Start(start), ops), TallyOf(c, Start(start), ops));
  }

  // --- `drain(now)` with a `now` the clock has not reached ---------------------------

  /** Pushing and draining in turn, at one instant, with a `now` one interval ahead of it. */
  function Hasty<T>(item: T, c: Config, at: real, n: nat): seq<Op<T>> {
    if n == 0 then [] else Hasty(item, c, at, n - 1) + [Push(item, at, at, at), Drain(Some(at + c.interval), at, at)]
  }

  lemma RunOfTwo<T>(c: Config, s: State<T>, ops: seq<Op<T>>, first: Op<T>, second: Op<T>)
    ensures Run(c, s, ops + [first, second]) == Apply(c, Apply(c, Run(c, s, ops), first), second)
  {
    var all := ops + [first, second];
    assert all[..|all| - 1] == ops + [first];
    assert (ops + [first])[..|ops + [first]| - 1] == ops;
  }

  lemma HastyRound<T>(item: T, c: Config, s: State<T>, at: real)
    requires c.Valid() && s.buffer == [] && s.lastFlush == at
    ensures var after := Apply(c, Apply(c, s, Push(item, at, at, at)), Drain(Some(at + c.interval), at, at));
            && after.buffer == [] && after.lastFlush == at
            && after.flushes == s.flushes + 1 && after.written == s.written + 1
  {
  }

  /** The interval bound then fails: `n` flushes take no time at all. */
  lemma {:induction false} HastyDrainsFlushEveryTime<T>(item: T, c: Config, at: real, n: nat)
    requires c.Valid()
    ensures var s := Run(c, Start(at), Hasty(item, c, at, n));
            s.flushes == n && s.lastFlush == at && s.buffer == [] && s.written == n
  {
    if n != 0 {
      HastyDrainsFlushEveryTime(item, c, at, n - 1);
      var front := Hasty(item, c, at, n - 1);
      RunOfTwo(c, Start(at), front, Push(item, at, at, at), Drain(Some(at + c.interval), at, at));
      HastyRound(item, c, Run(c, Start(at), front), at);
    }
  }

  /** Draining again at the same time writes nothing. */
  lemma DrainTwice<T>(c: Config, s: State<T>, now: real, first: real, second: real)
    ensures var once := Apply(c, s, Drain(Some(now), first, first));
            Apply(c, once, Drain(Some(now), second, second)) == once
  {
  }

  datatype ThrottleError = ValueError

  class CoalescingThrottle<T> {
    const config: Config
    var buffer: seq<T>
    var lastFlush: real
    var flushes: nat
    var written: nat
    var sink: seq<seq<T>>

    constructor (config: Config, now: real)
      requires config.Valid()
      ensures this.config == config && Snapshot() == Start(now)
    {
      this.config := config;
      buffer, lastFlush, flushes, written, sink := [], now, 0, 0, [];
    }

    ghost function Snapshot(): State<T>
      reads this
    {
      State(buffer, lastFlush, flushes, written, sink)
    }

    method Push(item: T, fullAt: real, checkAt: real, flushAt: real) returns (flushed: bool)
      modifies this
      ensures Snapshot() == Apply(config, old(Snapshot()), Op.Push(item, fullAt, checkAt, flushAt))
      ensures config.Valid() ==> (flushed <==> old(flushes) < flushes)
    {
      flushed := false;
      if |buffer| >= config.maxBatch {
        var _ := Flush(fullAt);
        flushed := true;
      }
      buffer := buffer + [item];
      if checkAt - lastFlush >= config.interval {
        var _ := Flush(flushAt);
        flushed := true;
      }
    }

    method Flush(now: real) returns (count: nat)
      modifies this
      ensures Snapshot() == Flushed(old(Snapshot()), now)
      ensures count == written - old(written) == |old(buffer)|
    {
      if |buffer| == 0 {
        return 0;
      }
      var batch := buffer;
      buffer := [];
      lastFlush := now;
      flushes := flushes + 1;
      written := written + |batch|;
      sink := sink + [batch];
      count := |batch|;
    }

    method Drain(given: Option<real>, checkAt: real, flushAt: real) returns (count: nat)
      modifies this
      ensures Snapshot() == Apply(config, old(Snapshot()), Op.Drain(given, checkAt, flushAt))
      ensures count == written - old(written)
      ensures given.None? ==>
                count == if old(lastFlush) + config.interval <= checkAt then |old(buffer)| else 0
    {
      var now := if given.Some? then given.value else checkAt;
      if now - lastFlush >= config.interval {
        count := Flush(flushAt);
      } else {
        count := 0;
      }
    }
  }

  /** The constructor's checks on the interval and the batch size. */
  method NewThrottle<T>(interval: real, maxBatch: int, now: real)
    returns (throttle: Result<CoalescingThrottle<T>, ThrottleError>)
    ensures throttle.Err? <==> interval <= 0.0 || maxBatch < 1
    ensures throttle.Ok? ==> fresh(throttle.value) && throttle.value.config == Config(interval, maxBatch)
                             && throttle.value.config.Valid() && throttle.value.Snapshot() == Start(now)
  {
    if interval <= 0.0 || maxBatch < 1 {
      return Err(ValueError);
    }
    var created := new CoalescingThrottle<T>(Config(interval, maxBatch), now);
    throttle := Ok(created);
  }
}
