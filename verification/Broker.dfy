/**
 The RESERVE, COMMIT and RELEASE handlers of the broker (broker/daemon.py) with
 the reservation store, the cost governor and the kill switch, as functions on
 the daemon's state. Each handler uses one clock reading.
 */
module Broker {
  import opened Wrappers
  import opened Totals
  import B = Bucket

  datatype Provider = Anthropic | OpenRouter | Ollama

  type Rid = nat

  datatype Reservation = Reservation(provider: Provider, tokens: real, expiresAt: real, committed: bool)

  /** A local limiter between calls: `held` semaphore permits and the in-flight counter. */
  datatype Limiter = Limiter(max: nat, held: nat, inFlight: int)

  datatype Ledger = Ledger(runUsd: real, dayUsd: real, dayStart: real)

  /** What the configuration fixes: a bucket for providers with an RPM, the budgets, the TTL. */
  datatype Env = Env(configs: map<Provider, B.Config>, budgetRun: Option<real>, budgetDay: Option<real>, ttl: real)

  datatype State = State(
    buckets: map<Provider, B.Level>,
    limiters: map<Provider, Limiter>,
    store: map<Rid, Reservation>,
    ledger: Ledger,
    tripped: bool,
    emitted: nat)

  datatype Reason = RateLimited | Saturated | Budget | Error

  datatype Reply =
    | Granted(rid: Rid, tokens: real)
    | Refused(reason: Reason)
    | Committed(delta: real)
    | Returned(tokens: real)
    | OverRelease

  const DAY_SECONDS := 86400.0

  function Max0(x: real): real {
    if x < 0.0 then 0.0 else x
  }

  function OnBucket(env: Env, buckets: map<Provider, B.Level>, p: Provider, op: B.Op): map<Provider, B.Level> {
    if p in env.configs && p in buckets then buckets[p := B.Apply(env.configs[p], buckets[p], op)] else buckets
  }

  predicate HasBucket(env: Env, s: State, p: Provider) {
    p in env.configs && p in s.buckets
  }

  predicate IsSaturated(s: State, p: Provider) {
    p in s.limiters && s.limiters[p].max <= s.limiters[p].held
  }

  function TakePermit(limiters: map<Provider, Limiter>, p: Provider): map<Provider, Limiter> {
    if p in limiters then
      var l := limiters[p];
      limiters[p := l.(held := l.held + 1, inFlight := l.inFlight + 1)]
    else limiters
  }

  /** A bounded semaphore with no permit held raises, after the in-flight counter went down. */
  function FreePermit(limiters: map<Provider, Limiter>, p: Provider): map<Provider, Limiter> {
    if p in limiters then
      var l := limiters[p];
      limiters[p := l.(held := if l.held == 0 then 0 else l.held - 1, inFlight := l.inFlight - 1)]
    else limiters
  }

  /** `_reserve`: bucket, then limiter (giving the tokens back when it is full), then the store. */
  function Reserve(env: Env, s: State, now: real, p: Provider, tokens: real, rid: Rid): (State, Reply) {
    if s.tripped then (s, Refused(Budget))
    else if HasBucket(env, s, p) && tokens <= 0.0 then (s, Refused(Error))
    else
      var taken := s.(buckets := OnBucket(env, s.buckets, p, B.TryAcquire(now, tokens)));
      if HasBucket(env, s, p) && !B.Grants(env.configs[p], s.buckets[p], B.TryAcquire(now, tokens)) then
        (taken, Refused(RateLimited))
      else if IsSaturated(s, p) then
        (taken.(buckets := OnBucket(env, taken.buckets, p, B.Release(tokens))), Refused(Saturated))
      else
        (taken.(limiters := TakePermit(s.limiters, p),
                store := s.store[rid := Reservation(p, tokens, now + env.ttl, false)]),
         Granted(rid, tokens))
  }

  /** `ReservationStore.commit`: the unused part of the reservation, which stays in the store. */
  function Delta(s: State, rid: Rid, actual: real): real {
    if rid in s.store then Max0(s.store[rid].tokens - actual) else 0.0
  }

  function RolledDay(l: Ledger, now: real): Ledger {
    if now - l.dayStart >= DAY_SECONDS then l.(dayUsd := 0.0, dayStart := now) else l
  }

  predicate Exceeds(limit: Option<real>, amount: real) {
    limit.Some? && amount > limit.value
  }

  predicate BreaksBudget(env: Env, l: Ledger, now: real, cost: real) {
    var rolled := RolledDay(l, now);
    Exceeds(env.budgetRun, rolled.runUsd + cost) || Exceeds(env.budgetDay, rolled.dayUsd + cost)
  }

  /** `CostGovernor.commit`, and `KillSwitch.trip` when it raises. */
  function Charge(env: Env, s: State, now: real, cost: real): State {
    var rolled := RolledDay(s.ledger, now);
    if BreaksBudget(env, s.ledger, now, cost) then
      s.(ledger := rolled, tripped := true, emitted := if s.tripped then s.emitted else s.emitted + 1)
    else
      s.(ledger := rolled.(runUsd := rolled.runUsd + cost, dayUsd := rolled.dayUsd + cost))
  }

  /** `_commit`; `cost` is the priced usage when the message names a model. */
  function Commit(env: Env, s: State, now: real, p: Provider, rid: Rid, actual: real, cost: Option<real>)
    : (State, Reply)
  {
    var delta := Delta(s, rid, actual);
    var marked := if rid in s.store then s.(store := s.store[rid := s.store[rid].(committed := true)]) else s;
    var credited := marked.(buckets := OnBucket(env, s.buckets, p, B.Release(delta)));
    (if cost.Some? then Charge(env, credited, now, cost.value) else credited, Committed(delta))
  }

  /** `_release`: pops the reservation, returns its tokens, and frees a permit whether or not it existed. */
  function Release(env: Env, s: State, p: Provider, rid: Rid): (State, Reply) {
    var tokens := if rid in s.store then s.store[rid].tokens else 0.0;
    var returned := s.(store := s.store - {rid}, buckets := OnBucket(env, s.buckets, p, B.Release(tokens)));
    (returned.(limiters := FreePermit(s.limiters, p)),
     if p in s.limiters && s.limiters[p].held == 0 then OverRelease else Returned(tokens))
  }

  /** `reap_expired`: drops expired reservations; nothing is credited. */
  function Reap(s: State, now: real): State {
    s.(store := map rid | rid in s.store && now <= s.store[rid].expiresAt :: s.store[rid])
  }

  datatype Event =
    | EvReserve(now: real, provider: Provider, tokens: real, rid: Rid)
    | EvCommit(now: real, provider: Provider, rid: Rid, actual: real, cost: Option<real>)
    | EvRelease(provider: Provider, rid: Rid)
    | EvReap(now: real)

  function Step(env: Env, s: State, e: Event): State {
    match e
    case EvReserve(now, p, tokens, rid) => Reserve(env, s, now, p, tokens, rid).0
    case EvCommit(now, p, rid, actual, cost) => Commit(env, s, now, p, rid, actual, cost).0
    case EvRelease(p, rid) => Release(env, s, p, rid).0
    case EvReap(now) => Reap(s, now)
  }

  function Run(env: Env, s: State, events: seq<Event>): State {
    if events == [] then s
    else Step(env, Run(env, s, events[..|events| - 1]), events[|events| - 1])
  }

  // --- token conservation -------------------------------------------------

  function OpenTokens(store: map<Rid, Reservation>, p: Provider): map<Rid, real> {
    map rid | rid in store && store[rid].provider == p && !store[rid].committed :: store[rid].tokens
  }

  /** The tokens of the reservations of `p` not yet committed. */
  ghost function Outstanding(s: State, p: Provider): real {
    Total(OpenTokens(s.store, p))
  }

  /** What a COMMIT really uses of the reservation it closes. */
  function UsedBy(s: State, p: Provider, e: Event): real {
    if e.EvCommit? && e.rid in s.store && s.store[e.rid].provider == p && !s.store[e.rid].committed
    then Max0(B.Min(s.store[e.rid].tokens, e.actual)) else 0.0
  }

  function Used(env: Env, s: State, events: seq<Event>, p: Provider): real {
    if events == [] then 0.0
    else
      var front := events[..|events| - 1];
      Used(env, s, front, p) + UsedBy(Run(env, s, front), p, events[|events| - 1])
  }

  /** Level, outstanding reservations, and `used` tokens together. */
  ghost function Balance(s: State, p: Provider, used: real): real
    requires p in s.buckets
  {
    s.buckets[p].tokens + Outstanding(s, p) + used
  }

  /** Ids are fresh, and an id is closed once, by its own provider, for a non-negative amount. */
  predicate Disciplined(s: State, e: Event) {
    match e
    case EvReserve(_, _, _, rid) => rid !in s.store
    case EvCommit(_, p, rid, actual, _) =>
      rid in s.store && s.store[rid].provider == p && !s.store[rid].committed && 0.0 <= actual
    case EvRelease(p, rid) => rid in s.store && s.store[rid].provider == p && !s.store[rid].committed
    case EvReap(_) => true
  }

  predicate DisciplinedRun(env: Env, s: State, events: seq<Event>) {
    events == [] ||
    (DisciplinedRun(env, s, events[..|events| - 1])
     && Disciplined(Run(env, s, events[..|events| - 1]), events[|events| - 1]))
  }

  ghost predicate BucketsInRange(env: Env, buckets: map<Provider, B.Level>) {
    buckets.Keys == env.configs.Keys
    && forall p :: p in env.configs ==> env.configs[p].Valid() && B.InRange(env.configs[p], buckets[p])
  }

  ghost predicate TokensPositive(env: Env, store: map<Rid, Reservation>) {
    forall rid :: rid in store && store[rid].provider in env.configs ==> 0.0 < store[rid].tokens
  }

  ghost predicate Sane(env: Env, s: State) {
    BucketsInRange(env, s.buckets) && TokensPositive(env, s.store)
  }

  lemma OnBucketStaysInRange(env: Env, buckets: map<Provider, B.Level>, p: Provider, op: B.Op)
    requires BucketsInRange(env, buckets)
    ensures BucketsInRange(env, OnBucket(env, buckets, p, op))
  {
    if p in env.configs {
      B.StepIsBounded(env.configs[p], buckets[p], op);
    }
  }

  lemma ReserveStaysSane(env: Env, s: State, now: real, p: Provider, tokens: real, rid: Rid)
    requires Sane(env, s)
    ensures Sane(env, Reserve(env, s, now, p, tokens, rid).0)
  {
    var taken := OnBucket(env, s.buckets, p, B.TryAcquire(now, tokens));
    OnBucketStaysInRange(env, s.buckets, p, B.TryAcquire(now, tokens));
    OnBucketStaysInRange(env, taken, p, B.Release(tokens));
  }

  lemma CommitStaysSane(env: Env, s: State, now: real, p: Provider, rid: Rid, actual: real, cost: Option<real>)
    requires Sane(env, s)
    ensures Sane(env, Commit(env, s, now, p, rid, actual, cost).0)
  {
    OnBucketStaysInRange(env, s.buckets, p, B.Release(Delta(s, rid, actual)));
  }

  lemma ReleaseStaysSane(env: Env, s: State, p: Provider, rid: Rid)
    requires Sane(env, s)
    ensures Sane(env, Release(env, s, p, rid).0)
  {
    OnBucketStaysInRange(env, s.buckets, p, B.Release(if rid in s.store then s.store[rid].tokens else 0.0));
  }

  lemma StepStaysSane(env: Env, s: State, e: Event)
    requires Sane(env, s)
    ensures Sane(env, Step(env, s, e))
  {
    match e {
      case EvReserve(now, p, tokens, rid) => ReserveStaysSane(env, s, now, p, tokens, rid);
      case EvCommit(now, p, rid, actual, cost) => CommitStaysSane(env, s, now, p, rid, actual, cost);
      case EvRelease(p, rid) => ReleaseStaysSane(env, s, p, rid);
      case EvReap(now) =>
    }
  }
}
