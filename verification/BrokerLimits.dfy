/**
 What holds of every list of broker events, disciplined or not: the permits of
 a limiter, the budget of a run, and the kill switch.
 */
module BrokerLimits {
  import B = Bucket
  import opened Broker
  import opened BrokerBalance
  import opened Collections
  import opened Wrappers

  function GrantsBy(env: Env, s: State, p: Provider, e: Event): nat {
    Count(e.EvReserve? && e.provider == p && Reserve(env, s, e.now, p, e.tokens, e.rid).1.Granted?)
  }

  /** Reservations of `p` granted during the run. */
  function Grants(env: Env, s: State, events: seq<Event>, p: Provider): nat {
    if events == [] then 0
    else
      var front := events[..|events| - 1];
      Grants(env, s, front, p) + GrantsBy(env, Run(env, s, front), p, events[|events| - 1])
  }

  function ReleasesBy(e: Event, p: Provider): nat {
    Count(e.EvRelease? && e.provider == p)
  }

  /** RELEASE messages for `p`, whether or not their id exists. */
  function Releases(events: seq<Event>, p: Provider): nat {
    if events == [] then 0 else Releases(events[..|events| - 1], p) + ReleasesBy(events[|events| - 1], p)
  }

  function OverReleasesBy(s: State, e: Event, p: Provider): nat {
    Count(e.EvRelease? && e.provider == p && p in s.limiters && s.limiters[p].held == 0)
  }

  /** RELEASE messages that found no permit held, which makes the bounded semaphore raise. */
  function OverReleases(env: Env, s: State, events: seq<Event>, p: Provider): nat {
    if events == [] then 0
    else
      var front := events[..|events| - 1];
      OverReleases(env, s, front, p) + OverReleasesBy(Run(env, s, front), events[|events| - 1], p)
  }

  predicate WithinLimit(s: State, p: Provider) {
    p in s.limiters && s.limiters[p].held <= s.limiters[p].max
  }

  lemma ReserveTakesPermit(env: Env, s: State, now: real, q: Provider, tokens: real, rid: Rid)
    ensures var (after, reply) := Reserve(env, s, now, q, tokens, rid);
            && after.limiters == (if reply.Granted? then TakePermit(s.limiters, q) else s.limiters)
            && (reply.Granted? ==> !IsSaturated(s, q))
  {
  }

  lemma CommitTakesNoPermit(env: Env, s: State, now: real, q: Provider, rid: Rid, actual: real, cost: Option<real>)
    ensures Commit(env, s, now, q, rid, actual, cost).0.limiters == s.limiters
  {
  }

  lemma PermitStep(env: Env, s: State, e: Event, p: Provider)
    requires WithinLimit(s, p)
    ensures var after := Step(env, s, e);
            && WithinLimit(after, p) && after.limiters[p].max == s.limiters[p].max
            && after.limiters[p].held + ReleasesBy(e, p) ==
               s.limiters[p].held + GrantsBy(env, s, p, e) + OverReleasesBy(s, e, p)
            && after.limiters[p].inFlight + ReleasesBy(e, p) == s.limiters[p].inFlight + GrantsBy(env, s, p, e)
  {
    match e {
      case EvReserve(now, q, tokens, rid) => ReserveTakesPermit(env, s, now, q, tokens, rid);
      case EvCommit(now, q, rid, actual, cost) => CommitTakesNoPermit(env, s, now, q, rid, actual, cost);
      case EvRelease(_, _) =>
      case EvReap(_) =>
    }
  }

  /** Only RELEASE frees a permit, COMMIT never: the exact count over any run. */
  lemma {:induction false} PermitsAreConserved(env: Env, s: State, events: seq<Event>, p: Provider)
    requires WithinLimit(s, p)
    ensures var end := Run(env, s, events);
            && WithinLimit(end, p) && end.limiters[p].max == s.limiters[p].max
            && end.limiters[p].held + Releases(events, p) ==
               s.limiters[p].held + Grants(env, s, events, p) + OverReleases(env, s, events, p)
            && end.limiters[p].inFlight + Releases(events, p) == s.limiters[p].inFlight + Grants(env, s, events, p)
  {
    if events != [] {
      PermitsAreConserved(env, s, events[..|events| - 1], p);
      PermitStep(env, Run(env, s, events[..|events| - 1]), events[|events| - 1], p);
    }
  }

  /** The in-flight counter is the number of permits held, exactly as long as nobody released too often. */
  lemma InFlightIsHeldIff(env: Env, s: State, events: seq<Event>, p: Provider)
    requires WithinLimit(s, p) && s.limiters[p].inFlight == s.limiters[p].held
    ensures var end := Run(env, s, events);
            && p in end.limiters
            && (end.limiters[p].inFlight == end.limiters[p].held <==> OverReleases(env, s, events, p) == 0)
  {
    PermitsAreConserved(env, s, events, p);
  }

  /** A provider whose clients only COMMIT is granted at most its concurrency limit, ever. */
  lemma CommitOnlyStarves(env: Env, s: State, events: seq<Event>, p: Provider)
    requires WithinLimit(s, p) && Releases(events, p) == 0
    ensures s.limiters[p].held + Grants(env, s, events, p) <= s.limiters[p].max
  {
    PermitsAreConserved(env, s, events, p);
  }

  // --- permits and open reservations ---------------------------------------------

  /** The reservations of `p` neither committed, released nor reaped. */
  function Open(store: map<Rid, Reservation>, p: Provider): set<Rid> {
    set rid | rid in store && store[rid].provider == p && !store[rid].committed
  }

  function CommitsBy(e: Event, p: Provider): nat {
    Count(e.EvCommit? && e.provider == p)
  }

  /** COMMIT messages for `p`. */
  function Commits(events: seq<Event>, p: Provider): nat {
    if events == [] then 0 else Commits(events[..|events| - 1], p) + CommitsBy(events[|events| - 1], p)
  }

  /** The open reservations of `p` that a reap at `now` drops. */
  function Expired(store: map<Rid, Reservation>, p: Provider, now: real): set<Rid> {
    set rid | rid in Open(store, p) && store[rid].expiresAt < now
  }

  function ReapedBy(s: State, e: Event, p: Provider): nat {
    if e.EvReap? then |Expired(s.store, p, e.now)| else 0
  }

  /** Open reservations of `p` dropped by the reaps of the run. */
  function Reaped(env: Env, s: State, events: seq<Event>, p: Provider): nat {
    if events == [] then 0
    else
      var front := events[..|events| - 1];
      Reaped(env, s, front, p) + ReapedBy(Run(env, s, front), events[|events| - 1], p)
  }

  lemma OpenAfterReserve(store: map<Rid, Reservation>, p: Provider, rid: Rid, r: Reservation)
    requires rid !in store && !r.committed
    ensures |Open(store[rid := r], p)| == |Open(store, p)| + Count(r.provider == p)
  {
    if r.provider == p {
      assert Open(store[rid := r], p) == Open(store, p) + {rid};
    } else {
      assert Open(store[rid := r], p) == Open(store, p);
    }
  }

  lemma OpenWithout(store: map<Rid, Reservation>, after: map<Rid, Reservation>, p: Provider, rid: Rid)
    requires after == store - {rid} || (rid in store && after == store[rid := store[rid].(committed := true)])
    ensures Open(after, p) == Open(store, p) - {rid}
  {
    forall x ensures x in Open(after, p) <==> x in Open(store, p) && x != rid {
    }
  }

  lemma OpenAfterClosing(store: map<Rid, Reservation>, after: map<Rid, Reservation>, p: Provider, rid: Rid)
    requires rid in store && !store[rid].committed
    requires after == store - {rid} || after == store[rid := store[rid].(committed := true)]
    ensures |Open(store, p)| == |Open(after, p)| + Count(store[rid].provider == p)
  {
    OpenWithout(store, after, p, rid);
    assert rid in Open(store, p) <==> store[rid].provider == p;
  }

  lemma OpenAfterReap(s: State, p: Provider, now: real)
    ensures |Open(s.store, p)| == |Open(Reap(s, now).store, p)| + |Expired(s.store, p, now)|
  {
    var kept, gone := Open(Reap(s, now).store, p), Expired(s.store, p, now);
    forall x ensures x in Open(s.store, p) <==> x in kept || x in gone {
    }
    assert kept !! gone && Open(s.store, p) == kept + gone;
  }

  /** A RESERVE takes one permit for one open reservation, or neither. */
  lemma ReserveKeepsSurplus(env: Env, s: State, e: Event, p: Provider)
    requires WithinLimit(s, p) && e.EvReserve? && Disciplined(s, e)
    ensures var after := Step(env, s, e);
            && p in after.limiters
            && after.limiters[p].held + |Open(s.store, p)| == s.limiters[p].held + |Open(after.store, p)|
  {
    ReserveTakesPermit(env, s, e.now, e.provider, e.tokens, e.rid);
    ReserveStore(env, s, e.now, e.provider, e.tokens, e.rid);
    OpenAfterReserve(s.store, p, e.rid, Reservation(e.provider, e.tokens, e.now + env.ttl, false));
  }

  /** A COMMIT closes a reservation and keeps its permit. */
  lemma CommitAddsSurplus(env: Env, s: State, e: Event, p: Provider)
    requires WithinLimit(s, p) && e.EvCommit? && Disciplined(s, e)
    ensures var after := Step(env, s, e);
            && p in after.limiters
            && after.limiters[p].held + |Open(s.store, p)| ==
               s.limiters[p].held + |Open(after.store, p)| + CommitsBy(e, p)
  {
    CommitParts(env, s, e);
    OpenAfterClosing(s.store, Step(env, s, e).store, p, e.rid);
  }

  /** A RELEASE of an open reservation gives up both. */
  lemma ReleaseKeepsSurplus(env: Env, s: State, e: Event, p: Provider)
    requires WithinLimit(s, p) && e.EvRelease? && Disciplined(s, e) && |Open(s.store, p)| <= s.limiters[p].held
    ensures var after := Step(env, s, e);
            && p in after.limiters
            && after.limiters[p].held + |Open(s.store, p)| == s.limiters[p].held + |Open(after.store, p)|
  {
    ReleaseParts(env, s, e.provider, e.rid);
    OpenAfterClosing(s.store, Step(env, s, e).store, p, e.rid);
  }

  lemma SurplusStep(env: Env, s: State, e: Event, p: Provider)
    requires WithinLimit(s, p) && Disciplined(s, e) && |Open(s.store, p)| <= s.limiters[p].held
    ensures var after := Step(env, s, e);
            && p in after.limiters
            && after.limiters[p].held + |Open(s.store, p)| ==
               s.limiters[p].held + |Open(after.store, p)| + CommitsBy(e, p) + ReapedBy(s, e, p)
  {
    match e {
      case EvReserve(_, _, _, _) => ReserveKeepsSurplus(env, s, e, p);
      case EvCommit(_, _, _, _, _) => CommitAddsSurplus(env, s, e, p);
      case EvRelease(_, _) => ReleaseKeepsSurplus(env, s, e, p);
      case EvReap(now) => OpenAfterReap(s, p, now);
    }
  }

  /** Permits held are the open reservations, and one more for every COMMIT and every open reservation reaped. */
  lemma {:induction false} PermitsExceedOpenByCommits(env: Env, s: State, events: seq<Event>, p: Provider)
    requires WithinLimit(s, p) && s.limiters[p].held == |Open(s.store, p)| && DisciplinedRun(env, s, events)
    ensures var end := Run(env, s, events);
            && WithinLimit(end, p) && end.limiters[p].max == s.limiters[p].max
            && end.limiters[p].held == |Open(end.store, p)| + Commits(events, p) + Reaped(env, s, events, p)
  {
    if events != [] {
      var front, e := events[..|events| - 1], events[|events| - 1];
      PermitsExceedOpenByCommits(env, s, front, p);
      SurplusStep(env, Run(env, s, front), e, p);
      PermitStep(env, Run(env, s, front), e, p);
    }
  }

  /** The permits match the open reservations exactly when nothing was committed and nothing open was reaped. */
  lemma PermitsMatchOpenIff(env: Env, s: State, events: seq<Event>, p: Provider)
    requires WithinLimit(s, p) && s.limiters[p].held == |Open(s.store, p)| && DisciplinedRun(env, s, events)
    ensures var end := Run(env, s, events);
            && p in end.limiters
            && (end.limiters[p].held == |Open(end.store, p)| <==>
                Commits(events, p) == 0 && Reaped(env, s, events, p) == 0)
  {
    PermitsExceedOpenByCommits(env, s, events, p);
  }

  /** One provider with one permit and no rate limit. */
  function OnePermit(held: nat, store: map<Rid, Reservation>): State {
    State(map[], map[Ollama := Limiter(1, held, held)], store, Ledger(0.0, 0.0, 0.0), false, 0)
  }

  lemma OnePermitSteps(env: Env, now: real, tokens: real)
    requires Ollama !in env.configs
    ensures var granted := Reservation(Ollama, tokens, now + env.ttl, false);
            && Step(env, OnePermit(0, map[]), EvReserve(now, Ollama, tokens, 0)) == OnePermit(1, map[0 := granted])
            && Step(env, OnePermit(1, map[0 := granted]), EvCommit(now, Ollama, 0, tokens, None)) ==
               OnePermit(1, map[0 := granted.(committed := true)])
  {
    var granted := Reservation(Ollama, tokens, now + env.ttl, false);
    assert map[0 := granted][0 := granted.(committed := true)] == map[0 := granted.(committed := true)];
  }

  /** Its one reservation was committed and none is open, and yet the next RESERVE is refused. */
  lemma CommittedPermitSaturates(env: Env, now: real, tokens: real)
    requires Ollama !in env.configs && 0.0 <= tokens
    ensures var events := [EvReserve(now, Ollama, tokens, 0), EvCommit(now, Ollama, 0, tokens, None)];
            var end := Run(env, OnePermit(0, map[]), events);
            && DisciplinedRun(env, OnePermit(0, map[]), events)
            && Open(end.store, Ollama) == {}
            && Reserve(env, end, now, Ollama, tokens, 1) == (end, Refused(Saturated))
  {
    var start := OnePermit(0, map[]);
    var reserve, commit := EvReserve(now, Ollama, tokens, 0), EvCommit(now, Ollama, 0, tokens, None);
    var granted := Reservation(Ollama, tokens, now + env.ttl, false);
    OnePermitSteps(env, now, tokens);
    assert [reserve, commit][..1] == [reserve] && [reserve][..0] == [];
    assert Run(env, start, [reserve]) == OnePermit(1, map[0 := granted]) && DisciplinedRun(env, start, [reserve]);
    assert Run(env, start, [reserve, commit]) == OnePermit(1, map[0 := granted.(committed := true)]);
  }

  // --- what a RESERVE is answered ------------------------------------------------

  /** The tokens a bucket can give at a clock reading that is not before its last one. */
  predicate Covers(env: Env, s: State, p: Provider, now: real, tokens: real) {
    p in env.configs && p in s.buckets ==>
      var c, b := env.configs[p], s.buckets[p];
      0.0 < tokens <= if b.tokens + (now - b.last) * c.rate <= c.capacity then b.tokens + (now - b.last) * c.rate
                      else c.capacity
  }

  /** Whether a limiter, if there is one, has a permit left. */
  predicate HasPermit(s: State, p: Provider) {
    p in s.limiters ==> s.limiters[p].held < s.limiters[p].max
  }

  lemma CoversIsLevel(env: Env, s: State, p: Provider, now: real, tokens: real)
    requires p in env.configs && p in s.buckets
    ensures Covers(env, s, p, now, tokens) <==> 0.0 < tokens <= B.LevelAt(env.configs[p], s.buckets[p], now)
  {
    var c, b := env.configs[p], s.buckets[p];
    assert B.Gain(c, b.last, now) == (now - b.last) * c.rate;
  }

  /** What RESERVE answers: the switch comes first, then a bad amount, then the bucket, then the limiter. */
  lemma ReserveIsAnswered(env: Env, s: State, now: real, p: Provider, tokens: real, rid: Rid)
    requires Sane(env, s) && (p in s.buckets ==> s.buckets[p].last <= now)
    ensures Reserve(env, s, now, p, tokens, rid).1 ==
            if s.tripped then Refused(Budget)
            else if p in s.buckets && tokens <= 0.0 then Refused(Error)
            else if !Covers(env, s, p, now, tokens) then Refused(RateLimited)
            else if !HasPermit(s, p) then Refused(Saturated)
            else Granted(rid, tokens)
  {
    if p in s.buckets {
      B.GrantedIff(env.configs[p], s.buckets[p], now, tokens);
      CoversIsLevel(env, s, p, now, tokens);
    }
  }

  /** A granted RESERVE holds its tokens under the id until the expiry, and one permit; a refused one holds nothing. */
  lemma ReserveHolds(env: Env, s: State, now: real, p: Provider, tokens: real, rid: Rid)
    ensures var (after, reply) := Reserve(env, s, now, p, tokens, rid);
            if reply.Granted? then
              && after.store == s.store[rid := Reservation(p, tokens, now + env.ttl, false)]
              && (p in s.limiters ==> p in after.limiters && after.limiters[p].held == s.limiters[p].held + 1)
            else after.store == s.store && after.limiters == s.limiters
  {
  }

  /** COMMIT answers what was left of the reservation, and nothing for an unknown id. */
  lemma CommitIsAnswered(env: Env, s: State, now: real, p: Provider, rid: Rid, actual: real, cost: Option<real>)
    ensures var delta := if rid in s.store && actual < s.store[rid].tokens then s.store[rid].tokens - actual else 0.0;
            Commit(env, s, now, p, rid, actual, cost).1 == Committed(delta)
  {
  }

  /** RELEASE answers the tokens of the reservation, unless its limiter has no permit out. */
  lemma ReleaseIsAnswered(env: Env, s: State, p: Provider, rid: Rid)
    ensures Release(env, s, p, rid).1 ==
            if p in s.limiters && s.limiters[p].held == 0 then OverRelease
            else if rid in s.store then Returned(s.store[rid].tokens) else Returned(0.0)
  {
  }

  // --- the governor and the kill switch ----------------------------------------

  predicate IsCharge(e: Event) {
    e.EvCommit? && e.cost.Some?
  }

  predicate Rejected(env: Env, s: State, e: Event) {
    IsCharge(e) && BreaksBudget(env, s.ledger, e.now, e.cost.value)
  }

  function AcceptedBy(env: Env, s: State, e: Event): real {
    if IsCharge(e) && !Rejected(env, s, e) then e.cost.value else 0.0
  }

  /** The sum of the costs the governor accepted. */
  function Accepted(env: Env, s: State, events: seq<Event>): real {
    if events == [] then 0.0
    else
      var front := events[..|events| - 1];
      Accepted(env, s, front) + AcceptedBy(env, Run(env, s, front), events[|events| - 1])
  }

  /** Some COMMIT of the run broke a ceiling. */
  predicate Broken(env: Env, s: State, events: seq<Event>) {
    events != [] &&
    (Broken(env, s, events[..|events| - 1])
     || Rejected(env, Run(env, s, events[..|events| - 1]), events[|events| - 1]))
  }

  predicate WithinBudget(env: Env, l: Ledger) {
    && (env.budgetRun.Some? ==> l.runUsd <= env.budgetRun.value)
    && (env.budgetDay.Some? ==> 0.0 <= env.budgetDay.value && l.dayUsd <= env.budgetDay.value)
  }

  /** RESERVE, RELEASE, reaping, and a COMMIT without a price, leave the ledger and the switch alone. */
  lemma UnpricedStep(env: Env, s: State, e: Event)
    requires !IsCharge(e)
    ensures var after := Step(env, s, e);
            after.ledger == s.ledger && after.tripped == s.tripped && after.emitted == s.emitted
  {
  }

  lemma PricedStep(env: Env, s: State, e: Event)
    requires IsCharge(e)
    ensures exists before: State ::
              before.ledger == s.ledger && before.tripped == s.tripped && before.emitted == s.emitted
                                    && Step(env, s, e) == Charge(env, before, e.now, e.cost.value)
  {
    var marked := if e.rid in s.store then s.(store := s.store[e.rid := s.store[e.rid].(committed := true)]) else s;
    var credited := marked.(buckets := OnBucket(env, s.buckets, e.provider, B.Release(Delta(s, e.rid, e.actual))));
    assert Step(env, s, e) == Charge(env, credited, e.now, e.cost.value);
  }

  lemma ChargeStep(env: Env, s: State, e: Event)
    requires WithinBudget(env, s.ledger)
    ensures var after := Step(env, s, e);
            && after.ledger.runUsd == s.ledger.runUsd + AcceptedBy(env, s, e)
            && WithinBudget(env, after.ledger)
            && after.tripped == (s.tripped || Rejected(env, s, e))
            && after.emitted == s.emitted + Count(after.tripped && !s.tripped)
  {
    if IsCharge(e) {
      PricedStep(env, s, e);
    } else {
      UnpricedStep(env, s, e);
    }
  }

  /** When a day window has run out: 86400 seconds after it began. */
  predicate IsOver(start: real, now: real) {
    now >= start + 86400.0
  }

  /** A charge is refused exactly when it would pass the run ceiling, or the day ceiling of the window it falls in. */
  lemma RejectedIff(env: Env, s: State, e: Event)
    requires IsCharge(e)
    ensures var l, cost := s.ledger, e.cost.value;
            var day := if IsOver(l.dayStart, e.now) then 0.0 else l.dayUsd;
            Rejected(env, s, e) <==>
              || (env.budgetRun.Some? && env.budgetRun.value < l.runUsd + cost)
              || (env.budgetDay.Some? && env.budgetDay.value < day + cost)
  {
  }

  /** Within a day window its start stays and its total grows by what is accepted; a charge after it opens the next. */
  lemma ChargeInWindow(env: Env, s: State, e: Event)
    ensures var before, after := s.ledger, Step(env, s, e).ledger;
            if IsCharge(e) && IsOver(before.dayStart, e.now)
            then after.dayStart == e.now && after.dayUsd == AcceptedBy(env, s, e)
            else after.dayStart == before.dayStart && after.dayUsd == before.dayUsd + AcceptedBy(env, s, e)
  {
    if IsCharge(e) {
      PricedStep(env, s, e);
    } else {
      UnpricedStep(env, s, e);
    }
  }

  /** Where the day window open at the end of a run began. */
  function WindowStart(start: real, events: seq<Event>): real {
    if events == [] then start
    else
      var since, e := WindowStart(start, events[..|events| - 1]), events[|events| - 1];
      if IsCharge(e) && IsOver(since, e.now) then e.now else since
  }

  /** What was accepted since then. */
  function AcceptedInWindow(env: Env, s: State, events: seq<Event>): real {
    if events == [] then s.ledger.dayUsd
    else
      var front, e := events[..|events| - 1], events[|events| - 1];
      var opens := IsCharge(e) && IsOver(WindowStart(s.ledger.dayStart, front), e.now);
      AcceptedBy(env, Run(env, s, front), e) + if opens then 0.0 else AcceptedInWindow(env, s, front)
  }

  /** Over any run the day total is what was accepted since the open window began. */
  lemma {:induction false} DayTotalIsWindowTotal(env: Env, s: State, events: seq<Event>)
    ensures var end := Run(env, s, events).ledger;
            end.dayStart == WindowStart(s.ledger.dayStart, events) && end.dayUsd == AcceptedInWindow(env, s, events)
  {
    if events != [] {
      DayTotalIsWindowTotal(env, s, events[..|events| - 1]);
      ChargeInWindow(env, Run(env, s, events[..|events| - 1]), events[|events| - 1]);
    }
  }

  /** As long as no charge comes a day after the window began, the day total grows with the run total. */
  lemma {:induction false} DayTotalGrows(env: Env, s: State, events: seq<Event>)
    requires forall e :: e in events && IsCharge(e) ==> e.now - s.ledger.dayStart < 86400.0
    ensures var end := Run(env, s, events).ledger;
            && end.dayStart == s.ledger.dayStart
            && end.dayUsd == s.ledger.dayUsd + Accepted(env, s, events)
  {
    if events != [] {
      DayTotalGrows(env, s, events[..|events| - 1]);
      ChargeInWindow(env, Run(env, s, events[..|events| - 1]), events[|events| - 1]);
    }
  }

  /** The run total is the sum of the accepted costs and stays under its ceiling, and so does the day total. */
  lemma {:induction false} BudgetHolds(env: Env, s: State, events: seq<Event>)
    requires WithinBudget(env, s.ledger)
    ensures var end := Run(env, s, events);
            && end.ledger.runUsd == s.ledger.runUsd + Accepted(env, s, events)
            && WithinBudget(env, end.ledger)
  {
    if events != [] {
      BudgetHolds(env, s, events[..|events| - 1]);
      ChargeStep(env, Run(env, s, events[..|events| - 1]), events[|events| - 1]);
    }
  }

  /** The switch trips exactly when a ceiling was broken, with one interrupt however often that happens. */
  lemma {:induction false} OneInterrupt(env: Env, s: State, events: seq<Event>)
    requires WithinBudget(env, s.ledger) && !s.tripped && s.emitted == 0
    ensures var end := Run(env, s, events);
            && (end.tripped <==> Broken(env, s, events))
            && end.emitted == Count(end.tripped)
  {
    if events != [] {
      OneInterrupt(env, s, events[..|events| - 1]);
      BudgetHolds(env, s, events[..|events| - 1]);
      ChargeStep(env, Run(env, s, events[..|events| - 1]), events[|events| - 1]);
    }
  }

  lemma TrippedStep(env: Env, s: State, e: Event, p: Provider)
    requires s.tripped
    ensures Step(env, s, e).tripped && GrantsBy(env, s, p, e) == 0
  {
    if IsCharge(e) {
      PricedStep(env, s, e);
    }
  }

  /** Once tripped, nothing is granted any more. */
  lemma {:induction false} NoGrantAfterTrip(env: Env, s: State, events: seq<Event>, p: Provider)
    requires s.tripped
    ensures Run(env, s, events).tripped && Grants(env, s, events, p) == 0
  {
    if events != [] {
      NoGrantAfterTrip(env, s, events[..|events| - 1], p);
      TrippedStep(env, Run(env, s, events[..|events| - 1]), events[|events| - 1], p);
    }
  }
}
