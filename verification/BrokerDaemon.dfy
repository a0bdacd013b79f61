/**
 The broker daemon as the objects it is made of: buckets, limiters, reservation
 store, cost governor and kill switch. Every handler is shown to compute the
 function of the module Broker with the same name.
 */
module BrokerDaemon {
  import B = Bucket
  import opened Broker
  import opened BrokerBalance
  import opened Wrappers

  datatype LimiterError = OverReleased

  /** LocalLimiter as the daemon uses it: `acquire(timeout=0)` and `release`. */
  class LimiterSlots {
    const max: nat
    var held: nat
    var inFlight: int

    constructor (max: nat)
      ensures State() == Limiter(max, 0, 0)
    {
      this.max := max;
      held := 0;
      inFlight := 0;
    }

    ghost function State(): Limiter
      reads this
    {
      Limiter(max, held, inFlight)
    }

    method TryAcquire() returns (acquired: bool)
      modifies this
      ensures acquired == (old(held) < max)
      ensures State() == if acquired then Limiter(max, old(held) + 1, old(inFlight) + 1) else old(State())
    {
      if held >= max {
        return false;
      }
      held := held + 1;
      inFlight := inFlight + 1;
      acquired := true;
    }

    method Release() returns (answer: Result<(), LimiterError>)
      modifies this
      ensures answer.Err? <==> old(held) == 0
      ensures State() == Limiter(max, if answer.Ok? then old(held) - 1 else 0, old(inFlight) - 1)
    {
      inFlight := inFlight - 1;
      if held == 0 {
        return Err(OverReleased);
      }
      held := held - 1;
      answer := Ok(());
    }
  }

  class ReservationStore {
    const ttl: real
    var reservations: map<Rid, Reservation>

    constructor (ttl: real)
      ensures this.ttl == ttl && reservations == map[]
    {
      this.ttl := ttl;
      reservations := map[];
    }

    method Create(now: real, p: Provider, tokens: real, rid: Rid)
      modifies this
      ensures reservations == old(reservations)[rid := Reservation(p, tokens, now + ttl, false)]
    {
      reservations := reservations[rid := Reservation(p, tokens, now + ttl, false)];
    }

    method Commit(rid: Rid, actual: real) returns (delta: real)
      modifies this
      ensures rid !in old(reservations) ==> delta == 0.0 && reservations == old(reservations)
      ensures rid in old(reservations) ==>
                && delta == Max0(old(reservations)[rid].tokens - actual)
                && reservations == old(reservations)[rid := old(reservations)[rid].(committed := true)]
    {
      if rid !in reservations {
        return 0.0;
      }
      var res := reservations[rid];
      delta := Max0(res.tokens - actual);
      reservations := reservations[rid := res.(committed := true)];
    }

    method Release(rid: Rid) returns (tokens: real)
      modifies this
      ensures tokens == if rid in old(reservations) then old(reservations)[rid].tokens else 0.0
      ensures reservations == old(reservations) - {rid}
    {
      tokens := if rid in reservations then reservations[rid].tokens else 0.0;
      reservations := reservations - {rid};
    }

    /** `get`: an expired reservation is dropped when it is looked up. */
    method Get(now: real, rid: Rid) returns (found: Option<Reservation>)
      modifies this
      ensures found.Some? <==> rid in old(reservations) && now <= old(reservations)[rid].expiresAt
      ensures found.Some? ==> found.value == old(reservations)[rid] && reservations == old(reservations)
      ensures found.None? ==> reservations == old(reservations) - {rid}
    {
      if rid !in reservations {
        return None;
      }
      var res := reservations[rid];
      if now > res.expiresAt {
        reservations := reservations - {rid};
        return None;
      }
      found := Some(res);
    }

    /** Visits a snapshot of the ids and deletes the expired ones. */
    method ReapExpired(now: real) returns (expired: map<Rid, Reservation>)
      modifies this
      ensures reservations ==
              map rid | rid in old(reservations) && now <= old(reservations)[rid].expiresAt :: old(reservations)[rid]
      ensures expired ==
              map rid | rid in old(reservations) && old(reservations)[rid].expiresAt < now :: old(reservations)[rid]
    {
      var todo := reservations.Keys;
      expired := map[];
      while todo != {}
        invariant todo <= old(reservations).Keys
        invariant reservations ==
                  map rid | rid in old(reservations) && (rid in todo || now <= old(reservations)[rid].expiresAt)
                    :: old(reservations)[rid]
        invariant expired ==
                  map rid | rid in old(reservations) && rid !in todo && old(reservations)[rid].expiresAt < now
                    :: old(reservations)[rid]
        decreases |todo|
      {
        var rid :| rid in todo;
        var res := reservations[rid];
        if now > res.expiresAt {
          expired := expired[rid := res];
          reservations := reservations - {rid};
        }
        todo := todo - {rid};
      }
    }
  }

  datatype GovernorError = BudgetExceeded

  class CostGovernor {
    const budgetRun: Option<real>
    const budgetDay: Option<real>
    var runUsd: real
    var dayUsd: real
    var dayStart: real

    constructor (budgetRun: Option<real>, budgetDay: Option<real>, now: real)
      ensures this.budgetRun == budgetRun && this.budgetDay == budgetDay && State() == Ledger(0.0, 0.0, now)
    {
      this.budgetRun := budgetRun;
      this.budgetDay := budgetDay;
      runUsd, dayUsd, dayStart := 0.0, 0.0, now;
    }

    ghost function State(): Ledger
      reads this
    {
      Ledger(runUsd, dayUsd, dayStart)
    }

    method RollDay(now: real)
      modifies this
      ensures State() == RolledDay(old(State()), now)
    {
      if now - dayStart >= DAY_SECONDS {
        dayUsd := 0.0;
        dayStart := now;
      }
    }

    method Commit(now: real, cost: real) returns (answer: Result<real, GovernorError>)
      modifies this
      ensures var over := now - old(dayStart) >= 86400.0;
              var spent, added := if over then 0.0 else old(dayUsd), if answer.Ok? then cost else 0.0;
              && (answer.Err? <==> || (budgetRun.Some? && budgetRun.value < old(runUsd) + cost)
                                   || (budgetDay.Some? && budgetDay.value < spent + cost))
              && answer == (if answer.Ok? then Ok(cost) else Err(BudgetExceeded))
              && State() == Ledger(old(runUsd) + added, spent + added, if over then now else old(dayStart))
    {
      RollDay(now);
      var newRun, newDay := runUsd + cost, dayUsd + cost;
      if budgetRun.Some? && newRun > budgetRun.value {
        return Err(BudgetExceeded);
      }
      if budgetDay.Some? && newDay > budgetDay.value {
        return Err(BudgetExceeded);
      }
      runUsd, dayUsd := newRun, newDay;
      answer := Ok(cost);
    }
  }

  class KillSwitch {
    var tripped: bool
    var emitted: nat

    constructor ()
      ensures !tripped && emitted == 0
    {
      tripped, emitted := false, 0;
    }

    method Trip()
      modifies this
      ensures tripped && emitted == if old(tripped) then old(emitted) else old(emitted) + 1
    {
      if tripped {
        return;
      }
      tripped := true;
      emitted := emitted + 1;
    }
  }

  /** A bucket of RPM tokens, refilled at RPM/60 a second. */
  function Configs(rpms: map<Provider, real>): (configs: map<Provider, B.Config>)
    requires forall p :: p in rpms ==> 0.0 < rpms[p]
    ensures forall p :: p in configs ==> configs[p].Valid()
  {
    map p | p in rpms :: B.Config(rpms[p], rpms[p] / 60.0)
  }

  ghost predicate IsFull(bucket: B.TokenBucket, config: B.Config, now: real)
    reads bucket
  {
    bucket.Valid() && bucket.config == config && bucket.State() == B.Level(config.capacity, now)
  }

  method BuildBuckets(configs: map<Provider, B.Config>, now: real) returns (buckets: map<Provider, B.TokenBucket>)
    requires forall p :: p in configs ==> configs[p].Valid()
    ensures buckets.Keys == configs.Keys && (forall p :: p in buckets ==> fresh(buckets[p]))
    ensures forall p :: p in configs ==> IsFull(buckets[p], configs[p], now)
    ensures forall p, q :: p in buckets && q in buckets && p != q ==> buckets[p] != buckets[q]
  {
    buckets := map[];
    var todo := configs.Keys;
    while todo != {}
      invariant todo <= configs.Keys && buckets.Keys == configs.Keys - todo
      invariant forall p :: p in buckets ==> fresh(buckets[p])
      invariant forall p :: p in buckets ==> IsFull(buckets[p], configs[p], now)
      invariant forall p, q :: p in buckets && q in buckets && p != q ==> buckets[p] != buckets[q]
      decreases |todo|
    {
      var p :| p in todo;
      var bucket := new B.TokenBucket(configs[p], now);
      buckets := buckets[p := bucket];
      todo := todo - {p};
    }
  }

  method BuildLimiters(concurrency: map<Provider, nat>) returns (limiters: map<Provider, LimiterSlots>)
    ensures limiters.Keys == concurrency.Keys && (forall p :: p in limiters ==> fresh(limiters[p]))
    ensures forall p :: p in concurrency ==> limiters[p].State() == Limiter(concurrency[p], 0, 0)
    ensures forall p, q :: p in limiters && q in limiters && p != q ==> limiters[p] != limiters[q]
  {
    limiters := map[];
    var todo := concurrency.Keys;
    while todo != {}
      invariant todo <= concurrency.Keys && limiters.Keys == concurrency.Keys - todo
      invariant forall p :: p in limiters ==> fresh(limiters[p])
      invariant forall p :: p in limiters ==> limiters[p].State() == Limiter(concurrency[p], 0, 0)
      invariant forall p, q :: p in limiters && q in limiters && p != q ==> limiters[p] != limiters[q]
      decreases |todo|
    {
      var p :| p in todo;
      var slots := new LimiterSlots(concurrency[p]);
      limiters := limiters[p := slots];
      todo := todo - {p};
    }
  }

  class BrokerDaemon {
    const env: Env
    const buckets: map<Provider, B.TokenBucket>
    const limiters: map<Provider, LimiterSlots>
    const reservations: ReservationStore
    const governor: CostGovernor
    const kill: KillSwitch

    ghost function Objects(): set<object>
    {
      buckets.Values + limiters.Values + {reservations, governor, kill}
    }

    ghost predicate Valid()
      reads Objects()
    {
      && buckets.Keys == env.configs.Keys
      && (forall p :: p in buckets ==> buckets[p].Valid() && buckets[p].config == env.configs[p])
      && (forall p, q :: p in buckets && q in buckets && p != q ==> buckets[p] != buckets[q])
      && (forall p, q :: p in limiters && q in limiters && p != q ==> limiters[p] != limiters[q])
      && reservations.ttl == env.ttl
      && governor.budgetRun == env.budgetRun && governor.budgetDay == env.budgetDay
    }

    ghost function Levels(): map<Provider, B.Level>
      reads buckets.Values
    {
      map p | p in buckets :: buckets[p].State()
    }

    ghost function Slots(): map<Provider, Limiter>
      reads limiters.Values
    {
      map p | p in limiters :: limiters[p].State()
    }

    ghost function State(): State
      reads Objects()
    {
      Broker.State(Levels(), Slots(), reservations.reservations, governor.State(), kill.tripped, kill.emitted)
    }

    /** `_build_buckets` over the policies: a bucket for each RPM, a limiter for each concurrency. */
    constructor (rpms: map<Provider, real>, concurrency: map<Provider, nat>,
                 budgetRun: Option<real>, budgetDay: Option<real>, ttl: real, now: real)
      requires forall p :: p in rpms ==> 0.0 < rpms[p]
      ensures Valid() && fresh(Objects())
      ensures env == Env(Configs(rpms), budgetRun, budgetDay, ttl)
      ensures forall p :: p in buckets ==> buckets[p].State() == B.Level(env.configs[p].capacity, now)
      ensures limiters.Keys == concurrency.Keys
      ensures forall p :: p in limiters ==> limiters[p].State() == Limiter(concurrency[p], 0, 0)
      ensures State() == Broker.State(Levels(), Slots(), map[], Ledger(0.0, 0.0, now), false, 0)
    {
      env := Env(Configs(rpms), budgetRun, budgetDay, ttl);
      var built := BuildBuckets(Configs(rpms), now);
      var slots := BuildLimiters(concurrency);
      buckets := built;
      limiters := slots;
      reservations := new ReservationStore(ttl);
      governor := new CostGovernor(budgetRun, budgetDay, now);
      kill := new KillSwitch();
    }

    /** A call on one bucket changes one level. */
    twostate lemma OneLevel(p: Provider)
      requires old(Valid()) && Valid() && p in buckets
      requires forall q :: q in buckets && q != p ==> unchanged(buckets[q])
      ensures Levels() == old(Levels())[p := buckets[p].State()]
    {
    }

    twostate lemma OneSlot(p: Provider)
      requires old(Valid()) && Valid() && p in limiters
      requires forall q :: q in limiters && q != p ==> unchanged(limiters[q])
      ensures Slots() == old(Slots())[p := limiters[p].State()]
    {
    }

    /** A call on limiters changes nothing else. */
    twostate lemma OnlySlots()
      requires old(Valid()) && Valid()
      requires unchanged(buckets.Values, reservations, governor, kill)
      ensures State() == old(State()).(limiters := Slots())
    {
      assert Levels() == old(Levels());
    }

    /** `bucket.try_acquire` if the provider has a bucket. */
    method TryBucket(now: real, p: Provider, tokens: real) returns (answer: Result<bool, B.BucketError>)
      requires Valid()
      modifies buckets.Values
      ensures Valid() && State() == old(State()).(buckets := OnBucket(env, old(Levels()), p, B.TryAcquire(now, tokens)))
      ensures p !in buckets ==> answer == Ok(true)
      ensures p in buckets ==> (answer.Err? <==> tokens <= 0.0)
      ensures answer.Err? ==> State() == old(State())
      ensures p in buckets && answer.Ok? ==>
                answer.value == B.Grants(env.configs[p], old(Levels())[p], B.TryAcquire(now, tokens))
    {
      if p !in buckets {
        return Ok(true);
      }
      answer := buckets[p].TryAcquire(now, tokens);
      OneLevel(p);
    }

    /** `bucket.release` if the provider has a bucket and there is anything to give back. */
    method GiveBack(p: Provider, tokens: real)
      requires Valid()
      modifies buckets.Values
      ensures Valid() && State() == old(State()).(buckets := OnBucket(env, old(Levels()), p, B.Release(tokens)))
    {
      if p in buckets && tokens > 0.0 {
        var _ := buckets[p].Release(tokens);
        OneLevel(p);
      }
    }

    /** `limiter.acquire(timeout=0)` if the provider has a limiter. */
    method TrySlot(p: Provider) returns (acquired: bool)
      requires Valid()
      modifies limiters.Values
      ensures Valid() && acquired == !IsSaturated(old(State()), p)
      ensures State() == if acquired then old(State()).(limiters := TakePermit(old(Slots()), p)) else old(State())
    {
      if p !in limiters {
        return true;
      }
      acquired := limiters[p].TryAcquire();
      OneSlot(p);
      OnlySlots();
    }

    /** `limiter.release` if the provider has a limiter. */
    method FreeSlot(p: Provider) returns (freed: Result<(), LimiterError>)
      requires Valid()
      modifies limiters.Values
      ensures Valid() && (freed.Err? <==> p in limiters && old(Slots())[p].held == 0)
      ensures State() == old(State()).(limiters := FreePermit(old(Slots()), p))
    {
      if p !in limiters {
        return Ok(());
      }
      freed := limiters[p].Release();
      OneSlot(p);
      OnlySlots();
    }

    method Record(now: real, p: Provider, tokens: real, rid: Rid)
      requires Valid()
      modifies reservations
      ensures Valid()
      ensures State() ==
              old(State()).(store := old(State()).store[rid := Reservation(p, tokens, now + env.ttl, false)])
    {
      reservations.Create(now, p, tokens, rid);
    }

    /** `ReservationStore.release` alone. */
    method TakeReservation(rid: Rid) returns (tokens: real)
      requires Valid()
      modifies reservations
      ensures Valid() && State() == old(State()).(store := old(State()).store - {rid})
      ensures tokens == if rid in old(State()).store then old(State()).store[rid].tokens else 0.0
    {
      tokens := reservations.Release(rid);
    }

    /** `ReservationStore.commit` alone. */
    method MarkCommitted(rid: Rid, actual: real) returns (delta: real)
      requires Valid()
      modifies reservations
      ensures Valid() && delta == Delta(old(State()), rid, actual)
      ensures State() ==
              if rid !in old(State()).store then old(State())
              else old(State()).(store := old(State()).store[rid := old(State()).store[rid].(committed := true)])
    {
      delta := reservations.Commit(rid, actual);
    }

    /** `CostGovernor.commit` alone. */
    method Bill(now: real, cost: real) returns (accepted: bool)
      requires Valid()
      modifies governor
      ensures Valid() && accepted == !BreaksBudget(env, old(State()).ledger, now, cost)
      ensures var rolled := RolledDay(old(State()).ledger, now);
              var billed := rolled.(runUsd := rolled.runUsd + cost, dayUsd := rolled.dayUsd + cost);
              State() == old(State()).(ledger := if accepted then billed else rolled)
    {
      var charged := governor.Commit(now, cost);
      accepted := charged.Ok?;
    }

    method Charge(now: real, cost: real)
      requires Valid()
      modifies governor, kill
      ensures Valid() && State() == Broker.Charge(env, old(State()), now, cost)
    {
      var accepted := Bill(now, cost);
      if !accepted {
        kill.Trip();
      }
    }

    method Reserve(now: real, p: Provider, tokens: real, rid: Rid) returns (reply: Reply)
      requires Valid()
      modifies Objects()
      ensures Valid() && (State(), reply) == Broker.Reserve(env, old(State()), now, p, tokens, rid)
    {
      if kill.tripped {
        return Refused(Budget);
      }
      var granted := TryBucket(now, p, tokens);
      if granted.Err? {
        return Refused(Error);
      }
      if !granted.value {
        return Refused(RateLimited);
      }
      var acquired := TrySlot(p);
      if !acquired {
        GiveBack(p, tokens);
        return Refused(Saturated);
      }
      Record(now, p, tokens, rid);
      reply := Granted(rid, tokens);
    }

    method Commit(now: real, p: Provider, rid: Rid, actual: real, cost: Option<real>) returns (reply: Reply)
      requires Valid()
      modifies Objects()
      ensures Valid() && (State(), reply) == Broker.Commit(env, old(State()), now, p, rid, actual, cost)
    {
      var delta := MarkCommitted(rid, actual);
      GiveBack(p, delta);
      if cost.Some? {
        Charge(now, cost.value);
      }
      reply := Committed(delta);
    }

    method Release(p: Provider, rid: Rid) returns (reply: Reply)
      requires Valid()
      modifies Objects()
      ensures Valid() && (State(), reply) == Broker.Release(env, old(State()), p, rid)
    {
      var tokens := TakeReservation(rid);
      GiveBack(p, tokens);
      var freed := FreeSlot(p);
      reply := if freed.Ok? then Returned(tokens) else OverRelease;
    }

    method Reap(now: real)
      requires Valid()
      modifies Objects()
      ensures Valid() && State() == Broker.Reap(old(State()), now)
    {
      var _ := reservations.ReapExpired(now);
    }
  }

  /** Building the daemon raises when a policy has a bucket or a limiter with no capacity. */
  method NewDaemon(rpms: map<Provider, real>, concurrency: map<Provider, nat>,
                   budgetRun: Option<real>, budgetDay: Option<real>, ttl: real, now: real)
    returns (daemon: Result<BrokerDaemon, B.BucketError>)
    ensures daemon.Ok? <==>
            (forall p :: p in rpms ==> 0.0 < rpms[p]) && (forall p :: p in concurrency ==> 1 <= concurrency[p])
    ensures daemon.Ok? ==> fresh(daemon.value) && daemon.value.Valid()
    ensures daemon.Ok? ==> IsFresh(daemon.value.env, daemon.value.State(), now)
    ensures daemon.Ok? ==> daemon.value.env.configs.Keys == rpms.Keys
    ensures daemon.Ok? ==> forall p :: p in rpms ==> daemon.value.env.configs[p].capacity == rpms[p]
                                                     && daemon.value.env.configs[p].rate * 60.0 == rpms[p]
    ensures daemon.Ok? ==> forall p :: p in daemon.value.env.configs ==>
                             && p in daemon.value.State().buckets
                             && Balance(daemon.value.State(), p, 0.0) == daemon.value.env.configs[p].capacity
  {
    if (exists p :: p in rpms && rpms[p] <= 0.0) || (exists p :: p in concurrency && concurrency[p] < 1) {
      return Err(B.ValueError);
    }
    var created := new BrokerDaemon(rpms, concurrency, budgetRun, budgetDay, ttl, now);
    FreshIsBalanced(created.env, created.State(), now);
    daemon := Ok(created);
  }
}
