/**
 Conservation of tokens across RESERVE, COMMIT and RELEASE: the level, the
 open reservations and the tokens used account for each other.
 */
module BrokerBalance {
  import B = Bucket
  import opened Broker
  import opened Totals
  import opened Wrappers

  // --- the sum of the open reservations ------------------------------------

  /** What reservation `rid` contributes to the open tokens of `p`. */
  function OpenAmount(store: map<Rid, Reservation>, p: Provider, rid: Rid): real {
    if rid in store && store[rid].provider == p && !store[rid].committed then store[rid].tokens else 0.0
  }

  lemma OpenAfterCreate(store: map<Rid, Reservation>, p: Provider, rid: Rid, r: Reservation)
    requires rid !in store && !r.committed
    ensures Total(OpenTokens(store[rid := r], p)) ==
            Total(OpenTokens(store, p)) + if r.provider == p then r.tokens else 0.0
  {
    if r.provider == p {
      TotalAdd(OpenTokens(store, p), rid, r.tokens);
      assert OpenTokens(store[rid := r], p) == OpenTokens(store, p)[rid := r.tokens];
    } else {
      assert OpenTokens(store[rid := r], p) == OpenTokens(store, p);
    }
  }

  /** Marking a reservation committed, or dropping it, takes its amount out of the sum. */
  lemma OpenAfterClose(store: map<Rid, Reservation>, after: map<Rid, Reservation>, p: Provider, rid: Rid)
    requires after == store - {rid} || (rid in store && after == store[rid := store[rid].(committed := true)])
    ensures Total(OpenTokens(after, p)) == Total(OpenTokens(store, p)) - OpenAmount(store, p, rid)
  {
    if rid in OpenTokens(store, p) {
      TotalRemove(OpenTokens(store, p), rid);
      assert OpenTokens(after, p) == OpenTokens(store, p) - {rid};
    } else {
      assert OpenTokens(after, p) == OpenTokens(store, p);
    }
  }

  lemma OpenIsNonNegative(env: Env, store: map<Rid, Reservation>, p: Provider)
    requires p in env.configs && TokensPositive(env, store)
    ensures 0.0 <= Total(OpenTokens(store, p))
    ensures forall rid :: rid in store ==> OpenAmount(store, p, rid) <= Total(OpenTokens(store, p))
  {
    TotalIsNonNegative(OpenTokens(store, p));
    forall rid | rid in store ensures OpenAmount(store, p, rid) <= Total(OpenTokens(store, p)) {
      if rid in OpenTokens(store, p) {
        assert OpenTokens(store, p)[rid] <= Total(OpenTokens(store, p));
      }
    }
  }

  // --- one bucket call ------------------------------------------------------

  /** Giving `back` tokens to the bucket of `q` raises the level of `p` by at most that, exactly if it fits. */
  lemma GiveBack(env: Env, buckets: map<Provider, B.Level>, p: Provider, q: Provider, back: real)
    requires BucketsInRange(env, buckets) && p in env.configs && 0.0 <= back
    ensures var after := OnBucket(env, buckets, q, B.Release(back));
            && after.Keys == buckets.Keys && after[p].last == buckets[p].last
            && after[p].tokens ==
               if p == q then B.Min(env.configs[p].capacity, buckets[p].tokens + back) else buckets[p].tokens
  {
  }

  // --- one handler ------------------------------------------------------------

  /** Taking `want` tokens from the bucket of `p` and giving them back leaves what the refill alone leaves. */
  lemma TakeThenGiveBack(c: B.Config, before: B.Level, now: real, want: real)
    requires c.Valid() && B.InRange(c, before) && 0.0 < want && B.Grants(c, before, B.TryAcquire(now, want))
    ensures B.Apply(c, B.Apply(c, before, B.TryAcquire(now, want)), B.Release(want)) == B.Refilled(c, before, now)
  {
    B.RefillStaysInRange(c, before, now);
  }

  /** The bucket of `p` after RESERVE on `q`. */
  lemma ReserveLevel(env: Env, s: State, now: real, q: Provider, tokens: real, rid: Rid, p: Provider)
    requires Sane(env, s) && p in env.configs
    ensures var (after, reply) := Reserve(env, s, now, q, tokens, rid);
            var c, before := env.configs[p], s.buckets[p];
            && p in after.buckets
            && after.buckets[p] ==
               (if p != q || s.tripped || tokens <= 0.0 then before
                else if reply.Granted? then B.Apply(c, before, B.TryAcquire(now, tokens))
                else B.Refilled(c, before, now))
            && (reply.Granted? && p == q ==> B.Grants(c, before, B.TryAcquire(now, tokens)))
  {
    var c, before := env.configs[p], s.buckets[p];
    if p == q && 0.0 < tokens && B.Grants(c, before, B.TryAcquire(now, tokens)) {
      TakeThenGiveBack(c, before, now, tokens);
    }
  }

  /** The store after RESERVE gains the reservation, or nothing. */
  lemma ReserveStore(env: Env, s: State, now: real, q: Provider, tokens: real, rid: Rid)
    ensures var (after, reply) := Reserve(env, s, now, q, tokens, rid);
            && (reply.Granted? ==>
                  !s.tripped && after.store == s.store[rid := Reservation(q, tokens, now + env.ttl, false)])
            && (!reply.Granted? ==> after.store == s.store && after.limiters == s.limiters)
  {
  }

  /** A refused RESERVE changes nothing but the refill of one bucket. */
  lemma RefusalIsNeutral(env: Env, s: State, now: real, q: Provider, tokens: real, rid: Rid)
    requires Sane(env, s) && Reserve(env, s, now, q, tokens, rid).1.Refused?
    ensures var after := Reserve(env, s, now, q, tokens, rid).0;
            && after == s.(buckets := after.buckets)
            && after.buckets.Keys == s.buckets.Keys
            && forall p :: p in env.configs ==>
                 after.buckets[p] == s.buckets[p] || after.buckets[p] == B.Refilled(env.configs[p], s.buckets[p], now)
  {
    ReserveStaysSane(env, s, now, q, tokens, rid);
    forall p | p in env.configs
      ensures var after := Reserve(env, s, now, q, tokens, rid).0;
              after.buckets[p] == s.buckets[p] || after.buckets[p] == B.Refilled(env.configs[p], s.buckets[p], now)
    {
      ReserveLevel(env, s, now, q, tokens, rid, p);
    }
  }

  lemma TakeMoves(c: B.Config, before: B.Level, now: real, want: real)
    requires c.Valid() && B.InRange(c, before) && B.Grants(c, before, B.TryAcquire(now, want))
    ensures var after := B.Apply(c, before, B.TryAcquire(now, want));
            && after.tokens + want <= before.tokens + B.Gain(c, before.last, after.last)
            && (now <= before.last ==> after == before.(tokens := before.tokens - want))
  {
    B.StepIsBounded(c, before, B.TryAcquire(now, want));
  }

  lemma RefillMoves(c: B.Config, before: B.Level, now: real)
    requires c.Valid() && B.InRange(c, before)
    ensures var after := B.Refilled(c, before, now);
            && after.tokens <= before.tokens + B.Gain(c, before.last, after.last)
            && (now <= before.last ==> after == before)
  {
    B.RefillStaysInRange(c, before, now);
  }

  /** Level and open tokens together grow at most by the refill, and keep their sum while the clock stands. */
  predicate Moved(c: B.Config, level: B.Level, open: real, level': B.Level, open': real, now: real) {
    && level'.tokens + open' <= level.tokens + open + B.Gain(c, level.last, level'.last)
    && (now <= level.last ==> level'.last == level.last && level'.tokens + open' == level.tokens + open)
  }

  /** A reservation moves tokens from the bucket to the open reservations, or moves none. */
  lemma ReserveMoves(env: Env, s: State, now: real, q: Provider, tokens: real, rid: Rid, p: Provider)
    requires Sane(env, s) && p in env.configs && rid !in s.store
    ensures var after := Reserve(env, s, now, q, tokens, rid).0;
            && p in after.buckets
            && Moved(env.configs[p], s.buckets[p], Outstanding(s, p), after.buckets[p], Outstanding(after, p), now)
  {
    var c, before := env.configs[p], s.buckets[p];
    ReserveLevel(env, s, now, q, tokens, rid, p);
    ReserveStore(env, s, now, q, tokens, rid);
    OpenAfterCreate(s.store, p, rid, Reservation(q, tokens, now + env.ttl, false));
    B.NoGain(c, before.last);
    RefillMoves(c, before, now);
    if Reserve(env, s, now, q, tokens, rid).1.Granted? && p == q {
      TakeMoves(c, before, now, tokens);
    }
  }

  /** Level, open and used tokens together do not grow, and keep their sum if there is room for the open amount. */
  predicate Closed(c: B.Config, level: B.Level, open: real, level': B.Level, open': real, used: real, amount: real) {
    && level'.last == level.last
    && level'.tokens + open' + used <= level.tokens + open
    && (level.tokens + amount <= c.capacity ==> level'.tokens + open' + used == level.tokens + open)
  }

  lemma ChargeParts(env: Env, s: State, now: real, cost: real)
    ensures var after := Charge(env, s, now, cost);
            after.buckets == s.buckets && after.store == s.store && after.limiters == s.limiters
  {
  }

  /** What COMMIT does to the buckets, the store and the limiters; an unknown id leaves the store alone. */
  lemma CommitParts(env: Env, s: State, e: Event)
    requires e.EvCommit?
    ensures var after := Step(env, s, e);
            && after.buckets == OnBucket(env, s.buckets, e.provider, B.Release(Delta(s, e.rid, e.actual)))
            && after.store ==
               (if e.rid in s.store then s.store[e.rid := s.store[e.rid].(committed := true)] else s.store)
            && after.limiters == s.limiters
  {
    var marked := if e.rid in s.store then s.store[e.rid := s.store[e.rid].(committed := true)] else s.store;
    var credited := s.(store := marked,
                       buckets := OnBucket(env, s.buckets, e.provider, B.Release(Delta(s, e.rid, e.actual))));
    if e.cost.Some? {
      ChargeParts(env, credited, e.now, e.cost.value);
      assert Step(env, s, e) == Charge(env, credited, e.now, e.cost.value);
    } else {
      assert Step(env, s, e) == credited;
    }
  }

  /** Closing an open reservation moves its tokens to the bucket and to what was used, as far as the bucket has room. */
  lemma CommitMoves(env: Env, s: State, e: Event, p: Provider)
    requires Sane(env, s) && p in env.configs && e.EvCommit? && Disciplined(s, e)
    ensures var after := Step(env, s, e);
            && p in after.buckets
            && Closed(env.configs[p], s.buckets[p], Outstanding(s, p), after.buckets[p], Outstanding(after, p),
                      UsedBy(s, p, e), OpenAmount(s.store, p, e.rid))
  {
    CommitParts(env, s, e);
    GiveBack(env, s.buckets, p, e.provider, Delta(s, e.rid, e.actual));
    OpenAfterClose(s.store, Step(env, s, e).store, p, e.rid);
  }

  lemma ReleaseParts(env: Env, s: State, p: Provider, rid: Rid)
    ensures var after := Release(env, s, p, rid).0;
            && after.buckets ==
               OnBucket(env, s.buckets, p, B.Release(if rid in s.store then s.store[rid].tokens else 0.0))
            && after.store == s.store - {rid}
  {
  }

  lemma ReleaseMoves(env: Env, s: State, e: Event, p: Provider)
    requires Sane(env, s) && p in env.configs && e.EvRelease? && Disciplined(s, e)
    ensures var after := Step(env, s, e);
            && p in after.buckets
            && Closed(env.configs[p], s.buckets[p], Outstanding(s, p), after.buckets[p], Outstanding(after, p),
                      0.0, OpenAmount(s.store, p, e.rid))
  {
    ReleaseParts(env, s, e.provider, e.rid);
    OpenAfterClose(s.store, Step(env, s, e).store, p, e.rid);
    if e.provider in env.configs {
      GiveBack(env, s.buckets, p, e.provider, s.store[e.rid].tokens);
    }
  }

  /** Reaping credits nothing: the balance falls by every open reservation it drops. */
  lemma ReapLoses(env: Env, s: State, now: real, p: Provider)
    requires Sane(env, s) && p in env.configs
    ensures Balance(Reap(s, now), p, 0.0) <= Balance(s, p, 0.0)
    ensures Balance(Reap(s, now), p, 0.0) == Balance(s, p, 0.0) <==>
            !exists rid :: rid in OpenTokens(s.store, p) && s.store[rid].expiresAt < now
  {
    var before, after := OpenTokens(s.store, p), OpenTokens(Reap(s, now).store, p);
    TotalOfPart(after, before);
    if before == after {
      forall rid | rid in before ensures now <= s.store[rid].expiresAt {
        assert rid in after;
      }
    }
  }

  // --- whole runs -------------------------------------------------------------

  lemma {:induction false} RunStaysSane(env: Env, s: State, events: seq<Event>)
    requires Sane(env, s)
    ensures Sane(env, Run(env, s, events))
  {
    if events != [] {
      RunStaysSane(env, s, events[..|events| - 1]);
      StepStaysSane(env, Run(env, s, events[..|events| - 1]), events[|events| - 1]);
    }
  }

  lemma {:induction false} UsedIsNonNegative(env: Env, s: State, events: seq<Event>, p: Provider)
    ensures 0.0 <= Used(env, s, events, p)
  {
    if events != [] {
      UsedIsNonNegative(env, s, events[..|events| - 1], p);
    }
  }

  /** One disciplined event: the balance grows at most by the refill. */
  lemma StepMoves(env: Env, s: State, e: Event, p: Provider)
    requires Sane(env, s) && p in env.configs && Disciplined(s, e)
    ensures var after := Step(env, s, e);
            && p in after.buckets
            && Balance(after, p, UsedBy(s, p, e)) <=
               Balance(s, p, 0.0) + B.Gain(env.configs[p], s.buckets[p].last, after.buckets[p].last)
  {
    B.NoGain(env.configs[p], s.buckets[p].last);
    match e {
      case EvReserve(now, q, tokens, rid) => ReserveMoves(env, s, now, q, tokens, rid, p);
      case EvCommit(_, _, _, _, _) => CommitMoves(env, s, e, p);
      case EvRelease(_, _) => ReleaseMoves(env, s, e, p);
      case EvReap(now) => ReapLoses(env, s, now, p);
    }
  }

  /** Level, open reservations and used tokens never exceed the start balance and the refill since. */
  lemma {:induction false} BalanceIsBounded(env: Env, s: State, events: seq<Event>, p: Provider)
    requires Sane(env, s) && p in env.configs && DisciplinedRun(env, s, events)
    ensures var end := Run(env, s, events);
            && p in end.buckets
            && Balance(end, p, Used(env, s, events, p)) <=
               Balance(s, p, 0.0) + B.Gain(env.configs[p], s.buckets[p].last, end.buckets[p].last)
  {
    if events == [] {
      B.NoGain(env.configs[p], s.buckets[p].last);
    } else {
      var front, e := events[..|events| - 1], events[|events| - 1];
      var before := Run(env, s, front);
      BalanceIsBounded(env, s, front, p);
      RunStaysSane(env, s, front);
      StepMoves(env, before, e, p);
      B.GainAdds(env.configs[p], s.buckets[p].last, before.buckets[p].last, Step(env, before, e).buckets[p].last);
    }
  }

  /** Every clock reading of the run is `t`. */
  predicate Frozen(events: seq<Event>, t: real) {
    forall i :: 0 <= i < |events| && !events[i].EvRelease? ==> events[i].now == t
  }

  /** Every reservation outlives `t`. */
  predicate NoneExpired(store: map<Rid, Reservation>, t: real) {
    forall rid :: rid in store ==> t <= store[rid].expiresAt
  }

  lemma NoneExpires(env: Env, s: State, e: Event, t: real)
    requires NoneExpired(s.store, t) && 0.0 <= env.ttl && (e.EvRelease? || e.now == t) && Disciplined(s, e)
    ensures NoneExpired(Step(env, s, e).store, t)
  {
    match e {
      case EvReserve(now, q, tokens, rid) => ReserveStore(env, s, now, q, tokens, rid);
      case EvCommit(_, _, _, _, _) => CommitParts(env, s, e);
      case EvRelease(q, rid) => ReleaseParts(env, s, q, rid);
      case EvReap(now) =>
    }
  }

  /** One disciplined event under a standing clock keeps a balance that fits the bucket. */
  lemma FrozenStep(env: Env, s: State, e: Event, p: Provider)
    requires Sane(env, s) && p in env.configs && Disciplined(s, e)
    requires e.EvRelease? || e.now == s.buckets[p].last
    requires NoneExpired(s.store, s.buckets[p].last)
    requires Balance(s, p, 0.0) <= env.configs[p].capacity
    ensures var after := Step(env, s, e);
            && p in after.buckets && after.buckets[p].last == s.buckets[p].last
            && Balance(after, p, UsedBy(s, p, e)) == Balance(s, p, 0.0)
  {
    OpenIsNonNegative(env, s.store, p);
    match e {
      case EvReserve(now, q, tokens, rid) => ReserveMoves(env, s, now, q, tokens, rid, p);
      case EvCommit(_, _, rid, _, _) => CommitMoves(env, s, e, p);
      case EvRelease(_, rid) => ReleaseMoves(env, s, e, p);
      case EvReap(now) => ReapLoses(env, s, now, p);
    }
  }

  /** With a frozen clock, nothing is lost: the balance stays the capacity. */
  lemma {:induction false} FrozenClockConserves(env: Env, s: State, events: seq<Event>, p: Provider)
    requires Sane(env, s) && p in env.configs && 0.0 <= env.ttl && DisciplinedRun(env, s, events)
    requires Frozen(events, s.buckets[p].last) && NoneExpired(s.store, s.buckets[p].last)
    requires Balance(s, p, 0.0) == env.configs[p].capacity
    ensures var end := Run(env, s, events);
            && p in end.buckets && end.buckets[p].last == s.buckets[p].last
            && NoneExpired(end.store, s.buckets[p].last)
            && Balance(end, p, Used(env, s, events, p)) == env.configs[p].capacity
  {
    if events != [] {
      var front, e := events[..|events| - 1], events[|events| - 1];
      FrozenClockConserves(env, s, front, p);
      RunStaysSane(env, s, front);
      UsedIsNonNegative(env, s, front, p);
      NoneExpires(env, Run(env, s, front), e, s.buckets[p].last);
      FrozenStep(env, Run(env, s, front), e, p);
    }
  }

  /** A daemon that has just started: full buckets and no reservations. */
  ghost predicate IsFresh(env: Env, s: State, now: real) {
    && s.buckets.Keys == env.configs.Keys && s.store == map[]
    && forall p :: p in env.configs ==> env.configs[p].Valid() && s.buckets[p] == B.Level(env.configs[p].capacity, now)
  }

  /** It meets what FrozenClockConserves asks of a start. */
  lemma FreshIsBalanced(env: Env, s: State, now: real)
    requires IsFresh(env, s, now)
    ensures Sane(env, s) && NoneExpired(s.store, now)
    ensures forall p :: p in env.configs ==>
              s.buckets[p].last == now && Balance(s, p, 0.0) == env.configs[p].capacity
  {
    forall p | p in env.configs ensures Outstanding(s, p) == 0.0 {
      assert OpenTokens(s.store, p) == map[];
    }
  }

  /** From its start on, a daemon with a frozen clock neither makes nor loses a token. */
  lemma FreshRunConserves(env: Env, s: State, now: real, events: seq<Event>, p: Provider)
    requires IsFresh(env, s, now) && p in env.configs && 0.0 <= env.ttl
    requires DisciplinedRun(env, s, events) && Frozen(events, now)
    ensures p in Run(env, s, events).buckets
    ensures Balance(Run(env, s, events), p, Used(env, s, events, p)) == env.configs[p].capacity
  {
    FreshIsBalanced(env, s, now);
    FrozenClockConserves(env, s, events, p);
  }

  // --- where conservation stops --------------------------------------------------

  /** The tokens of the reservation a RELEASE names; none if there is no such reservation. */
  function TokensOf(store: map<Rid, Reservation>, rid: Rid): real {
    if rid in store then store[rid].tokens else 0.0
  }

  /** Room for `credit` tokens moved from `open` ones: the change of level and open tokens together. */
  lemma CreditMoves(level: real, capacity: real, credit: real, open: real)
    requires 0.0 <= level <= capacity && 0.0 <= open <= credit
    ensures B.Min(capacity, level + credit) - open > level <==> open < credit && level + open < capacity
    ensures B.Min(capacity, level + credit) - open < level <==> level + open > capacity
  {
  }

  /** What RELEASE does to level and open tokens, for every message and every provider. */
  lemma ReleaseEffect(env: Env, s: State, q: Provider, rid: Rid, p: Provider)
    requires Sane(env, s) && p in env.configs
    ensures var (after, tokens) := (Release(env, s, q, rid).0, TokensOf(s.store, rid));
            && p in after.buckets && Outstanding(after, p) == Outstanding(s, p) - OpenAmount(s.store, p, rid)
            && after.buckets[p].tokens ==
               if p == q && 0.0 < tokens then B.Min(env.configs[p].capacity, s.buckets[p].tokens + tokens)
               else s.buckets[p].tokens
  {
    ReleaseParts(env, s, q, rid);
    OpenAfterClose(s.store, Release(env, s, q, rid).0.store, p, rid);
    if 0.0 < TokensOf(s.store, rid) {
      GiveBack(env, s.buckets, p, q, TokensOf(s.store, rid));
    }
  }

  /**
   A RELEASE, whatever provider it names, raises the balance of `p` exactly when it credits the bucket of `p`,
   which is not full, for a reservation that is not an open one of `p`: one committed before, or another
   provider's. It lowers the balance exactly when it closes an open reservation of `p` and names another
   provider, or the tokens do not fit. Otherwise the balance is kept.
   */
  lemma ReleaseKeepsBalanceIff(env: Env, s: State, q: Provider, rid: Rid, p: Provider, used: real)
    requires Sane(env, s) && p in env.configs
    ensures var after, open, tokens := Release(env, s, q, rid).0, OpenAmount(s.store, p, rid), TokensOf(s.store, rid);
            && p in after.buckets
            && (Balance(after, p, used) > Balance(s, p, used) <==>
                p == q && open == 0.0 < tokens && s.buckets[p].tokens < env.configs[p].capacity)
            && (Balance(after, p, used) < Balance(s, p, used) <==>
                0.0 < open && (p != q || s.buckets[p].tokens + open > env.configs[p].capacity))
  {
    ReleaseEffect(env, s, q, rid, p);
    var open, tokens := OpenAmount(s.store, p, rid), TokensOf(s.store, rid);
    assert 0.0 <= open && (0.0 < open ==> open == tokens);
    if p == q && 0.0 < tokens {
      CreditMoves(s.buckets[p].tokens, env.configs[p].capacity, tokens, open);
    }
  }

  /** The part of an open reservation of `p` that a COMMIT does not use. */
  function Unused(s: State, p: Provider, e: Event): real
    requires e.EvCommit?
  {
    OpenAmount(s.store, p, e.rid) - UsedBy(s, p, e)
  }

  /** What COMMIT does to level and open tokens, for every message and every provider. */
  lemma CommitEffect(env: Env, s: State, e: Event, p: Provider)
    requires Sane(env, s) && p in env.configs && e.EvCommit?
    ensures var (after, delta) := (Step(env, s, e), Delta(s, e.rid, e.actual));
            && p in after.buckets && Outstanding(after, p) == Outstanding(s, p) - OpenAmount(s.store, p, e.rid)
            && after.buckets[p].tokens ==
               if p == e.provider then B.Min(env.configs[p].capacity, s.buckets[p].tokens + delta)
               else s.buckets[p].tokens
  {
    CommitParts(env, s, e);
    if e.rid in s.store {
      OpenAfterClose(s.store, Step(env, s, e).store, p, e.rid);
    }
    GiveBack(env, s.buckets, p, e.provider, Delta(s, e.rid, e.actual));
  }

  lemma UnusedIsCredited(env: Env, s: State, e: Event, p: Provider)
    requires Sane(env, s) && p in env.configs && e.EvCommit?
    ensures 0.0 <= Unused(s, p, e) <= Delta(s, e.rid, e.actual)
    ensures OpenAmount(s.store, p, e.rid) == 0.0 ==> Unused(s, p, e) == 0.0
    ensures 0.0 < OpenAmount(s.store, p, e.rid) && 0.0 <= e.actual ==> Unused(s, p, e) == Delta(s, e.rid, e.actual)
  {
  }

  /**
   A COMMIT, whatever provider and amount it names, raises the balance of `p` exactly when it credits the
   bucket of `p` with more than the unused part of an open reservation of `p`, and there is room for more:
   for a reservation committed before or another provider's, or for a negative amount. It lowers the balance
   exactly when that part goes to another provider's bucket, or does not fit. An unknown id commits nothing.
   */
  lemma CommitKeepsBalanceIff(env: Env, s: State, e: Event, p: Provider, used: real)
    requires Sane(env, s) && p in env.configs && e.EvCommit?
    ensures var (after, delta, unused) := (Step(env, s, e), Delta(s, e.rid, e.actual), Unused(s, p, e));
            var level, capacity := s.buckets[p].tokens, env.configs[p].capacity;
            && p in after.buckets
            && (Balance(after, p, used + UsedBy(s, p, e)) > Balance(s, p, used) <==>
                p == e.provider && unused < delta && level + unused < capacity)
            && (Balance(after, p, used + UsedBy(s, p, e)) < Balance(s, p, used) <==>
                0.0 < unused && (p != e.provider || level + unused > capacity))
  {
    CommitEffect(env, s, e, p);
    UnusedIsCredited(env, s, e, p);
    CreditMoves(s.buckets[p].tokens, env.configs[p].capacity, Delta(s, e.rid, e.actual), Unused(s, p, e));
  }

  /** A daemon with one full bucket of 60 tokens, refilled at one token a second. */
  function ExampleEnv(): Env {
    Env(map[Anthropic := B.Config(60.0, 1.0)], None, None, 120.0)
  }

  function ExampleStart(): State {
    State(map[Anthropic := B.Level(60.0, 0.0)], map[], map[], Ledger(0.0, 0.0, 0.0), false, 0)
  }

  lemma RunOfOne(env: Env, s: State, events: seq<Event>, e: Event)
    ensures Run(env, s, events + [e]) == Step(env, Run(env, s, events), e)
    ensures forall p :: Used(env, s, events + [e], p) == Used(env, s, events, p) + UsedBy(Run(env, s, events), p, e)
  {
    assert (events + [e])[..|events + [e]| - 1] == events;
  }

  lemma ExampleReserve()
    ensures var events := [EvReserve(0.0, Anthropic, 10.0, 0)];
            && Run(ExampleEnv(), ExampleStart(), events) ==
               ExampleStart().(buckets := map[Anthropic := B.Level(50.0, 0.0)],
                               store := map[0 := Reservation(Anthropic, 10.0, 120.0, false)])
            && Used(ExampleEnv(), ExampleStart(), events, Anthropic) == 0.0
  {
    RunOfOne(ExampleEnv(), ExampleStart(), [], EvReserve(0.0, Anthropic, 10.0, 0));
    assert [] + [EvReserve(0.0, Anthropic, 10.0, 0)] == [EvReserve(0.0, Anthropic, 10.0, 0)];
  }

  /** COMMIT and then RELEASE of one id: 10 tokens are used, and the bucket is full again. */
  lemma CommitThenReleaseCreatesTokens()
    ensures var reserve, commit := EvReserve(0.0, Anthropic, 10.0, 0), EvCommit(0.0, Anthropic, 0, 10.0, None);
            var events := [reserve, commit, EvRelease(Anthropic, 0)];
            && Run(ExampleEnv(), ExampleStart(), events).buckets == map[Anthropic := B.Level(60.0, 0.0)]
            && Used(ExampleEnv(), ExampleStart(), events, Anthropic) == 10.0
  {
    var one := [EvReserve(0.0, Anthropic, 10.0, 0)];
    var two := one + [EvCommit(0.0, Anthropic, 0, 10.0, None)];
    ExampleReserve();
    RunOfOne(ExampleEnv(), ExampleStart(), one, EvCommit(0.0, Anthropic, 0, 10.0, None));
    RunOfOne(ExampleEnv(), ExampleStart(), two, EvRelease(Anthropic, 0));
    assert two + [EvRelease(Anthropic, 0)] ==
           [EvReserve(0.0, Anthropic, 10.0, 0), EvCommit(0.0, Anthropic, 0, 10.0, None), EvRelease(Anthropic, 0)];
  }

  /** A reservation that expires takes its tokens with it: none are open or used, and 10 are missing. */
  lemma ReapingLosesTokens()
    ensures var events := [EvReserve(0.0, Anthropic, 10.0, 0), EvReap(121.0)];
            && Run(ExampleEnv(), ExampleStart(), events) ==
               ExampleStart().(buckets := map[Anthropic := B.Level(50.0, 0.0)])
            && Used(ExampleEnv(), ExampleStart(), events, Anthropic) == 0.0
  {
    ExampleReserve();
    RunOfOne(ExampleEnv(), ExampleStart(), [EvReserve(0.0, Anthropic, 10.0, 0)], EvReap(121.0));
    assert [EvReserve(0.0, Anthropic, 10.0, 0)] + [EvReap(121.0)] ==
           [EvReserve(0.0, Anthropic, 10.0, 0), EvReap(121.0)];
  }

  /** Two providers, each with 50 of 60 tokens, and an open reservation of 10 for the first. */
  function TwoProviders(): State {
    State(map[Anthropic := B.Level(50.0, 0.0), OpenRouter := B.Level(50.0, 0.0)], map[],
          map[0 := Reservation(Anthropic, 10.0, 120.0, false)], Ledger(0.0, 0.0, 0.0), false, 0)
  }

  /** A RELEASE that names the wrong provider moves its 10 tokens from one provider to the other. */
  lemma WrongProviderMovesTokens()
    ensures var env := Env(map[Anthropic := B.Config(60.0, 1.0), OpenRouter := B.Config(60.0, 1.0)], None, None, 120.0);
            var after := Release(env, TwoProviders(), OpenRouter, 0).0;
            && after.buckets == map[Anthropic := B.Level(50.0, 0.0), OpenRouter := B.Level(60.0, 0.0)]
            && after.store == map[]
            && Balance(after, Anthropic, 0.0) == Balance(TwoProviders(), Anthropic, 0.0) - 10.0
            && Balance(after, OpenRouter, 0.0) == Balance(TwoProviders(), OpenRouter, 0.0) + 10.0
  {
    var env := Env(map[Anthropic := B.Config(60.0, 1.0), OpenRouter := B.Config(60.0, 1.0)], None, None, 120.0);
    ReleaseEffect(env, TwoProviders(), OpenRouter, 0, Anthropic);
    ReleaseEffect(env, TwoProviders(), OpenRouter, 0, OpenRouter);
  }
}
