/**
 The token bucket (broker/bucket.py) over reals, with the clock reading of each
 call as a parameter. A run is any list of calls.
 */
module Bucket {
  import opened Wrappers

  datatype Config = Config(capacity: real, rate: real)
  {
    predicate Valid() { 0.0 < capacity && 0.0 <= rate }
  }

  datatype Level = Level(tokens: real, last: real)

  datatype Op = Read(now: real) | TryAcquire(now: real, want: real) | Release(back: real)

  function Min(a: real, b: real): real {
    if a <= b then a else b
  }

  /** The tokens that flow in between two clock readings. */
  function Gain(c: Config, since: real, until: real): real {
    (until - since) * c.rate
  }

  lemma GainAdds(c: Config, x: real, y: real, z: real)
    ensures Gain(c, x, z) == Gain(c, x, y) + Gain(c, y, z)
  {
  }

  lemma GainIsNonNegative(c: Config, x: real, y: real)
    requires c.Valid() && x <= y
    ensures 0.0 <= Gain(c, x, y)
  {
  }

  lemma GainGrows(c: Config, x: real, y: real, z: real)
    requires c.Valid() && y <= z
    ensures Gain(c, x, y) <= Gain(c, x, z)
  {
    GainIsNonNegative(c, y, z);
    GainAdds(c, x, y, z);
  }

  lemma NoGain(c: Config, x: real)
    ensures Gain(c, x, x) == 0.0
  {
  }

  /** `_refill`: a reading that is not later than the last one changes nothing. */
  function Refilled(c: Config, s: Level, now: real): Level {
    if now - s.last > 0.0 then Level(Min(c.capacity, s.tokens + Gain(c, s.last, now)), now) else s
  }

  predicate Grants(c: Config, s: Level, op: Op) {
    op.TryAcquire? && 0.0 < op.want && op.want <= Refilled(c, s, op.now).tokens
  }

  /** The state after one call; a call with a non-positive amount raises and changes nothing. */
  function Apply(c: Config, s: Level, op: Op): Level {
    match op
    case Read(now) => Refilled(c, s, now)
    case TryAcquire(now, want) =>
      if want <= 0.0 then s
      else
        var r := Refilled(c, s, now);
        if want <= r.tokens then r.(tokens := r.tokens - want) else r
    case Release(back) =>
      if back <= 0.0 then s else s.(tokens := Min(c.capacity, s.tokens + back))
  }

  function Run(c: Config, s: Level, ops: seq<Op>): Level
    decreases |ops|
  {
    if ops == [] then s else Run(c, Apply(c, s, ops[0]), ops[1..])
  }

  /** The answers of the `try_acquire` calls, in order. */
  function Answers(c: Config, s: Level, ops: seq<Op>): seq<bool>
    decreases |ops|
  {
    if ops == [] then [] else
      (if ops[0].TryAcquire? then [Grants(c, s, ops[0])] else []) + Answers(c, Apply(c, s, ops[0]), ops[1..])
  }

  function GrantedBy(c: Config, s: Level, op: Op): real {
    if Grants(c, s, op) then op.want else 0.0
  }

  /** The tokens handed out. */
  function Granted(c: Config, s: Level, ops: seq<Op>): real
    decreases |ops|
  {
    if ops == [] then 0.0 else
      GrantedBy(c, s, ops[0]) + Granted(c, Apply(c, s, ops[0]), ops[1..])
  }

  function ReleasedBy(op: Op): real {
    if op.Release? && 0.0 < op.back then op.back else 0.0
  }

  /** The tokens given back. */
  function Released(ops: seq<Op>): real {
    if ops == [] then 0.0 else
      ReleasedBy(ops[0]) + Released(ops[1..])
  }

  predicate InRange(c: Config, s: Level) {
    0.0 <= s.tokens <= c.capacity
  }

  /** Clock readings never go back, starting from `t`. */
  predicate Clocked(ops: seq<Op>, t: real) {
    ops == [] || (if ops[0].Release? then Clocked(ops[1..], t) else t <= ops[0].now && Clocked(ops[1..], ops[0].now))
  }

  function EndTime(ops: seq<Op>, t: real): real {
    if ops == [] then t else EndTime(ops[1..], if ops[0].Release? then t else ops[0].now)
  }

  lemma RefillStaysInRange(c: Config, s: Level, now: real)
    requires c.Valid() && InRange(c, s)
    ensures InRange(c, Refilled(c, s, now))
    ensures Refilled(c, s, now).tokens <= s.tokens + Gain(c, s.last, Refilled(c, s, now).last)
  {
    if now - s.last > 0.0 {
      GainIsNonNegative(c, s.last, now);
    } else {
      NoGain(c, s.last);
    }
  }

  /** The level never leaves [0, capacity]. */
  lemma {:induction false} RunStaysInRange(c: Config, s: Level, ops: seq<Op>)
    requires c.Valid() && InRange(c, s)
    ensures InRange(c, Run(c, s, ops))
    decreases |ops|
  {
    if ops != [] {
      if !ops[0].Release? {
        RefillStaysInRange(c, s, ops[0].now);
      }
      RunStaysInRange(c, Apply(c, s, ops[0]), ops[1..]);
    }
  }

  /** The refill earned between the last readings before and after one call. */
  function GainedBy(c: Config, s: Level, op: Op): real {
    Gain(c, s.last, Apply(c, s, op).last)
  }

  function Gained(c: Config, s: Level, ops: seq<Op>): real
    decreases |ops|
  {
    if ops == [] then 0.0 else GainedBy(c, s, ops[0]) + Gained(c, Apply(c, s, ops[0]), ops[1..])
  }

  lemma {:induction false} GainedIsElapsed(c: Config, s: Level, ops: seq<Op>)
    ensures Gained(c, s, ops) == Gain(c, s.last, Run(c, s, ops).last)
    decreases |ops|
  {
    if ops == [] {
      NoGain(c, s.last);
    } else {
      var next := Apply(c, s, ops[0]);
      GainedIsElapsed(c, next, ops[1..]);
      GainAdds(c, s.last, next.last, Run(c, s, ops).last);
    }
  }

  /** The balance of a single call. */
  lemma StepIsBounded(c: Config, s: Level, op: Op)
    requires c.Valid() && InRange(c, s)
    ensures InRange(c, Apply(c, s, op))
    ensures GrantedBy(c, s, op) + Apply(c, s, op).tokens <= s.tokens + GainedBy(c, s, op) + ReleasedBy(op)
  {
    if op.Release? {
      NoGain(c, s.last);
    } else {
      RefillStaysInRange(c, s, op.now);
      if op.TryAcquire? && op.want <= 0.0 {
        NoGain(c, s.last);
      }
    }
  }

  /** What is granted, plus what is left, is at most the start level, the refill, and what was given back. */
  lemma {:induction false} GrantsAreBounded(c: Config, s: Level, ops: seq<Op>)
    requires c.Valid() && InRange(c, s)
    ensures Granted(c, s, ops) + Run(c, s, ops).tokens <= s.tokens + Gained(c, s, ops) + Released(ops)
    decreases |ops|
  {
    if ops != [] {
      StepIsBounded(c, s, ops[0]);
      GrantsAreBounded(c, Apply(c, s, ops[0]), ops[1..]);
    }
  }

  /** The level the bucket would show at time `t`. */
  function LevelAt(c: Config, s: Level, t: real): real {
    Min(c.capacity, s.tokens + Gain(c, s.last, t))
  }

  /** Refilling in two steps is refilling in one. */
  lemma LevelComposes(c: Config, s: Level, t: real, later: real)
    requires c.Valid() && t <= later
    ensures LevelAt(c, s, later) == Min(c.capacity, LevelAt(c, s, t) + Gain(c, t, later))
  {
    GainAdds(c, s.last, t, later);
    GainIsNonNegative(c, t, later);
  }

  /** Both states show the same level at `t`, and so at any later time. */
  predicate SameFrom(c: Config, a: Level, b: Level, t: real) {
    InRange(c, a) && InRange(c, b) && a.last <= t && b.last <= t && LevelAt(c, a, t) == LevelAt(c, b, t)
  }

  lemma RefilledIsLevelAt(c: Config, s: Level, now: real)
    requires c.Valid() && InRange(c, s) && s.last <= now
    ensures Refilled(c, s, now) == Level(LevelAt(c, s, now), now)
  {
    NoGain(c, s.last);
  }

  /** A request is granted exactly when the refilled level covers it, and takes what it asked for. */
  lemma GrantedIff(c: Config, s: Level, now: real, want: real)
    requires c.Valid() && InRange(c, s) && s.last <= now
    ensures var level := LevelAt(c, s, now);
            && (Grants(c, s, TryAcquire(now, want)) <==> 0.0 < want <= level)
            && (0.0 < want ==>
                  Apply(c, s, TryAcquire(now, want)) == Level(if want <= level then level - want else level, now))
  {
    RefilledIsLevelAt(c, s, now);
  }

  lemma GainOver(c: Config, since: real, until: real, need: real)
    requires 0.0 < c.rate && since + need / c.rate <= until
    ensures need <= Gain(c, since, until)
  {
    assert need / c.rate * c.rate == need;
    assert (until - since - need / c.rate) * c.rate >= 0.0;
  }

  /** Whatever the bucket can hold is granted once what is missing has been refilled at the rate. */
  lemma GrantedAfterWait(c: Config, s: Level, now: real, want: real)
    requires c.Valid() && InRange(c, s) && 0.0 < c.rate && 0.0 < want <= c.capacity
    requires s.last <= now && s.last + (want - s.tokens) / c.rate <= now
    ensures Grants(c, s, TryAcquire(now, want))
  {
    GainOver(c, s.last, now, want - s.tokens);
    GrantedIff(c, s, now, want);
  }

  /** A bucket of as many tokens as it refills in a minute is full a minute after it was emptied, and not before. */
  lemma FullInAMinute(c: Config, at: real, now: real)
    requires c.Valid() && c.rate * 60.0 == c.capacity && at <= now
    ensures LevelAt(c, Level(0.0, at), now) == c.capacity <==> at + 60.0 <= now
  {
    var over := now - at - 60.0;
    assert over * c.rate == Gain(c, at, now) - c.capacity;
    assert (over < 0.0 ==> over * c.rate < 0.0) && (0.0 <= over ==> 0.0 <= over * c.rate);
  }

  lemma SameLater(c: Config, a: Level, b: Level, t: real, later: real)
    requires c.Valid() && SameFrom(c, a, b, t) && t <= later
    ensures SameFrom(c, a, b, later)
  {
    LevelComposes(c, a, t, later);
    LevelComposes(c, b, t, later);
  }

  /** A reading moves the refill but not the level shown. */
  lemma ReadIsSame(c: Config, s: Level, t: real, now: real)
    requires c.Valid() && InRange(c, s) && s.last <= now <= t
    ensures SameFrom(c, s, Refilled(c, s, now), t)
  {
    RefilledIsLevelAt(c, s, now);
    RefillStaysInRange(c, s, now);
    LevelComposes(c, s, now, t);
  }

  /** Giving tokens back shifts the level shown at any later time by the same clipped amount. */
  lemma ReleaseShifts(c: Config, s: Level, t: real, back: real)
    requires c.Valid() && InRange(c, s) && s.last <= t && 0.0 < back
    ensures LevelAt(c, Apply(c, s, Release(back)), t) == Min(c.capacity, LevelAt(c, s, t) + back)
  {
    GainIsNonNegative(c, s.last, t);
  }

  function WithoutReads(ops: seq<Op>): seq<Op> {
    if ops == [] then [] else (if ops[0].Read? then [] else [ops[0]]) + WithoutReads(ops[1..])
  }

  lemma HeadOfWithoutReads(op: Op, rest: seq<Op>)
    requires !op.Read?
    ensures var out := WithoutReads([op] + rest); out != [] && out[0] == op && out[1..] == WithoutReads(rest)
  {
    assert ([op] + rest)[1..] == rest;
  }

  /** Reading the level, any number of times and anywhere, changes no answer. */
  lemma {:induction false} ReadsAreInvisible(c: Config, a: Level, b: Level, ops: seq<Op>, t: real)
    requires c.Valid() && SameFrom(c, a, b, t) && Clocked(ops, t)
    ensures Answers(c, a, ops) == Answers(c, b, WithoutReads(ops))
    ensures SameFrom(c, Run(c, a, ops), Run(c, b, WithoutReads(ops)), EndTime(ops, t))
    decreases |ops|
  {
    if ops != [] {
      var op, rest := ops[0], ops[1..];
      var a' := Apply(c, a, op);
      match op {
        case Read(now) =>
          SameLater(c, a, b, t, now);
          ReadIsSame(c, a, now, now);
          ReadsAreInvisible(c, a', b, rest, now);
          assert WithoutReads(ops) == WithoutReads(rest);
          assert Answers(c, a, ops) == Answers(c, a', rest);
        case TryAcquire(now, want) =>
          SameLater(c, a, b, t, now);
          RefilledIsLevelAt(c, a, now);
          RefilledIsLevelAt(c, b, now);
          RefillStaysInRange(c, a, now);
          var b' := Apply(c, b, op);
          assert SameFrom(c, a', b', now);
          HeadOfWithoutReads(op, rest);
          ReadsAreInvisible(c, a', b', rest, now);
        case Release(back) =>
          var b' := Apply(c, b, op);
          if 0.0 < back {
            ReleaseShifts(c, a, t, back);
            ReleaseShifts(c, b, t, back);
          }
          HeadOfWithoutReads(op, rest);
          ReadsAreInvisible(c, a', b', rest, t);
      }
    }
  }

  lemma {:induction false} GrantedIsSame(c: Config, a: Level, b: Level, ops: seq<Op>, t: real)
    requires c.Valid() && SameFrom(c, a, b, t) && Clocked(ops, t)
    ensures Granted(c, a, ops) == Granted(c, b, ops)
    decreases |ops|
  {
    if ops != [] {
      var op, rest := ops[0], ops[1..];
      if op.Release? {
        if 0.0 < op.back {
          ReleaseShifts(c, a, t, op.back);
          ReleaseShifts(c, b, t, op.back);
        }
        GrantedIsSame(c, Apply(c, a, op), Apply(c, b, op), rest, t);
      } else {
        SameLater(c, a, b, t, op.now);
        RefilledIsLevelAt(c, a, op.now);
        RefilledIsLevelAt(c, b, op.now);
        RefillStaysInRange(c, a, op.now);
        RefillStaysInRange(c, b, op.now);
        assert SameFrom(c, Apply(c, a, op), Apply(c, b, op), op.now);
        GrantedIsSame(c, Apply(c, a, op), Apply(c, b, op), rest, op.now);
      }
    }
  }

  lemma {:induction false} LastIsClocked(c: Config, s: Level, ops: seq<Op>, t: real)
    requires s.last <= t && Clocked(ops, t)
    ensures Run(c, s, ops).last <= EndTime(ops, t)
    decreases |ops|
  {
    if ops != [] {
      LastIsClocked(c, Apply(c, s, ops[0]), ops[1..], if ops[0].Release? then t else ops[0].now);
    }
  }

  lemma BoundFromReading(c: Config, start: Level, ops: seq<Op>)
    requires c.Valid() && InRange(c, start) && Clocked(ops, start.last)
    ensures Granted(c, start, ops) <= start.tokens + Gain(c, start.last, EndTime(ops, start.last)) + Released(ops)
  {
    GrantsAreBounded(c, start, ops);
    GainedIsElapsed(c, start, ops);
    RunStaysInRange(c, start, ops);
    LastIsClocked(c, start, ops, start.last);
    GainGrows(c, start.last, Run(c, start, ops).last, EndTime(ops, start.last));
  }

  /** Over any interval of a run: grants are bounded by the level at `t`, the refill since, and what was given back. */
  lemma IntervalBound(c: Config, s: Level, ops: seq<Op>, t: real)
    requires c.Valid() && InRange(c, s) && s.last <= t && Clocked(ops, t)
    ensures Granted(c, s, ops) <= LevelAt(c, s, t) + Gain(c, t, EndTime(ops, t)) + Released(ops)
  {
    var start := Refilled(c, s, t);
    ReadIsSame(c, s, t, t);
    RefilledIsLevelAt(c, s, t);
    GrantedIsSame(c, s, start, ops, t);
    RefillStaysInRange(c, s, t);
    BoundFromReading(c, start, ops);
  }

  datatype BucketError = ValueError

  class TokenBucket {
    const config: Config
    var tokens: real
    var last: real

    constructor (config: Config, now: real)
      requires config.Valid()
      ensures this.config == config && State() == Level(config.capacity, now) && Valid()
    {
      this.config := config;
      this.tokens := config.capacity;
      this.last := now;
    }

    ghost predicate Valid()
      reads this
    {
      config.Valid() && InRange(config, State())
    }

    ghost function State(): Level
      reads this
    {
      Level(tokens, last)
    }

    method Refill(now: real)
      requires Valid()
      modifies this
      ensures Valid() && State() == Refilled(config, old(State()), now)
    {
      RefillStaysInRange(config, State(), now);
      var elapsed := now - last;
      if elapsed > 0.0 {
        tokens := Min(config.capacity, tokens + elapsed * config.rate);
        last := now;
      }
    }

    method Tokens(now: real) returns (level: real)
      requires Valid()
      modifies this
      ensures Valid() && State() == Apply(config, old(State()), Read(now))
      ensures level == tokens
    {
      Refill(now);
      level := tokens;
    }

    method TryAcquire(now: real, want: real) returns (answer: Result<bool, BucketError>)
      requires Valid()
      modifies this
      ensures Valid() && State() == Apply(config, old(State()), Op.TryAcquire(now, want))
      ensures answer.Err? <==> want <= 0.0
      ensures answer.Ok? ==> answer.value == Grants(config, old(State()), Op.TryAcquire(now, want))
    {
      if want <= 0.0 {
        return Err(ValueError);
      }
      Refill(now);
      if tokens >= want {
        tokens := tokens - want;
        return Ok(true);
      }
      answer := Ok(false);
    }

    method Release(back: real) returns (answer: Result<(), BucketError>)
      requires Valid()
      modifies this
      ensures Valid() && State() == Apply(config, old(State()), Op.Release(back))
      ensures answer.Err? <==> back <= 0.0
    {
      if back <= 0.0 {
        return Err(ValueError);
      }
      tokens := Min(config.capacity, tokens + back);
      answer := Ok(());
    }
  }

  /** The constructor's checks: a capacity that is not positive, or a negative rate, raises. */
  method NewBucket(capacity: real, rate: real, now: real) returns (bucket: Result<TokenBucket, BucketError>)
    ensures bucket.Err? <==> capacity <= 0.0 || rate < 0.0
    ensures bucket.Ok? ==> fresh(bucket.value) && bucket.value.Valid()
                           && bucket.value.config == Config(capacity, rate)
                           && bucket.value.State() == Level(capacity, now)
  {
    if capacity <= 0.0 || rate < 0.0 {
      return Err(ValueError);
    }
    var created := new TokenBucket(Config(capacity, rate), now);
    bucket := Ok(created);
  }
}
