/**
 The local limiter (broker/local_limiter.py) under every interleaving of its
 callers. A caller's acquire and release fall into the steps between lock
 regions: entering, the semaphore, the bookkeeping, and the way out.
 */
module LocalLimiter {
  type Caller = nat

  /** Where a caller stands; `Failed` is past a semaphore timeout, before the queue depth is corrected. */
  datatype Place = Idle | Waiting | GotSemaphore | Failed | Holding | Releasing

  datatype State = State(max: nat, available: int, inFlight: int, queueDepth: int, places: map<Caller, Place>)

  datatype Action =
    | Enter | SemaphoreGiven | SemaphoreTimedOut | RecordAcquired | RecordFailed | StartRelease | SemaphoreReleased

  /** The place an action starts from. */
  function Before(a: Action): Place {
    match a
    case Enter => Idle
    case SemaphoreGiven => Waiting
    case SemaphoreTimedOut => Waiting
    case RecordAcquired => GotSemaphore
    case RecordFailed => Failed
    case StartRelease => Holding
    case SemaphoreReleased => Releasing
  }

  function After(a: Action): Place {
    match a
    case Enter => Waiting
    case SemaphoreGiven => GotSemaphore
    case SemaphoreTimedOut => Failed
    case RecordAcquired => Holding
    case RecordFailed => Idle
    case StartRelease => Releasing
    case SemaphoreReleased => Idle
  }

  predicate Enabled(s: State, t: Caller, a: Action) {
    && t in s.places && s.places[t] == Before(a)
    && (a.SemaphoreGiven? ==> 0 < s.available)
  }

  /** The bounded semaphore raises when it would exceed its initial value. */
  predicate Raises(s: State, a: Action) {
    a.SemaphoreReleased? && s.available >= s.max
  }

  function Apply(s: State, t: Caller, a: Action): State {
    var moved := s.(places := s.places[t := After(a)]);
    match a
    case Enter => moved.(queueDepth := s.queueDepth + 1)
    case SemaphoreGiven => moved.(available := s.available - 1)
    case SemaphoreTimedOut => moved
    case RecordAcquired => moved.(inFlight := s.inFlight + 1, queueDepth := s.queueDepth - 1)
    case RecordFailed => moved.(queueDepth := s.queueDepth - 1)
    case StartRelease => moved.(inFlight := s.inFlight - 1)
    case SemaphoreReleased => if Raises(s, a) then moved else moved.(available := s.available + 1)
  }

  predicate Initial(s: State) {
    && 1 <= s.max && s.available == s.max && s.inFlight == 0 && s.queueDepth == 0
    && forall t :: t in s.places ==> s.places[t] == Idle
  }

  datatype Move = Move(caller: Caller, action: Action)

  predicate FollowsFrom(run: seq<State>, moves: seq<Move>, i: nat)
    requires i < |moves| && |run| == |moves| + 1
  {
    Enabled(run[i], moves[i].caller, moves[i].action)
    && run[i + 1] == Apply(run[i], moves[i].caller, moves[i].action)
  }

  /** `run` is a run of the limiter from an initial state, one action of one caller at a time. */
  predicate IsRun(run: seq<State>, moves: seq<Move>) {
    && |run| == |moves| + 1 && Initial(run[0])
    && forall i :: 0 <= i < |moves| ==> FollowsFrom(run, moves, i)
  }

  function At(places: map<Caller, Place>, p: Place): set<Caller> {
    set t | t in places && places[t] == p
  }

  /** Callers that own a permit of the semaphore. */
  function Owners(s: State): nat {
    |At(s.places, GotSemaphore)| + |At(s.places, Holding)| + |At(s.places, Releasing)|
  }

  /** Callers inside the waiting section. */
  function Waiters(s: State): nat {
    |At(s.places, Waiting)| + |At(s.places, GotSemaphore)| + |At(s.places, Failed)|
  }

  predicate Accounted(s: State) {
    && s.inFlight == |At(s.places, Holding)|
    && s.available + Owners(s) == s.max
    && s.queueDepth == Waiters(s)
    && 0 <= s.available
  }

  lemma MoveCounts(places: map<Caller, Place>, t: Caller, to: Place, p: Place)
    requires t in places && places[t] != to
    ensures |At(places[t := to], p)| ==
            if p == to then |At(places, p)| + 1 else if p == places[t] then |At(places, p)| - 1 else |At(places, p)|
  {
    var before, after := At(places, p), At(places[t := to], p);
    if p == to {
      assert after == before + {t};
    } else if p == places[t] {
      assert after == before - {t};
    } else {
      assert after == before;
    }
  }

  lemma StepKeepsAccounts(s: State, t: Caller, a: Action)
    requires Accounted(s) && Enabled(s, t, a)
    ensures Accounted(Apply(s, t, a)) && Apply(s, t, a).max == s.max && !Raises(s, a)
  {
    MoveCounts(s.places, t, After(a), Waiting);
    MoveCounts(s.places, t, After(a), GotSemaphore);
    MoveCounts(s.places, t, After(a), Failed);
    MoveCounts(s.places, t, After(a), Holding);
    MoveCounts(s.places, t, After(a), Releasing);
    if a.SemaphoreReleased? {
      assert t in At(s.places, Releasing);
    }
  }

  lemma NobodyIsNowhere(s: State)
    requires forall t :: t in s.places ==> s.places[t] == Idle
    ensures Owners(s) == 0 && Waiters(s) == 0 && |At(s.places, Holding)| == 0
  {
    forall p: Place | p != Idle ensures At(s.places, p) == {} {
    }
    assert At(s.places, Waiting) == At(s.places, GotSemaphore) == At(s.places, Failed) == {};
    assert At(s.places, Holding) == At(s.places, Releasing) == {};
  }

  lemma {:induction false} RunsAreAccounted(run: seq<State>, moves: seq<Move>, i: nat)
    requires IsRun(run, moves) && i < |run|
    ensures Accounted(run[i]) && run[i].max == run[0].max
  {
    if i == 0 {
      NobodyIsNowhere(run[0]);
    } else {
      RunsAreAccounted(run, moves, i - 1);
      assert FollowsFrom(run, moves, i - 1);
      StepKeepsAccounts(run[i - 1], moves[i - 1].caller, moves[i - 1].action);
    }
  }

  /** In every reachable state the counters are true, and in-flight <= permits owned <= the limit. */
  lemma CountersAreTrue(run: seq<State>, moves: seq<Move>, i: nat)
    requires IsRun(run, moves) && i < |run|
    ensures var s := run[i];
            && s.queueDepth == Waiters(s)
            && s.inFlight == |At(s.places, Holding)|
            && 0 <= s.inFlight <= Owners(s) <= run[0].max
            && s.available == run[0].max - Owners(s)
            && ((forall t :: t in s.places ==> s.places[t] == Idle) ==>
                  s.inFlight == 0 && s.queueDepth == 0 && s.available == s.max)
  {
    RunsAreAccounted(run, moves, i);
    if forall t :: t in run[i].places ==> run[i].places[t] == Idle {
      NobodyIsNowhere(run[i]);
    }
  }

  /** A caller that releases what it acquired never makes the bounded semaphore raise. */
  lemma ReleaseNeverRaises(run: seq<State>, moves: seq<Move>, i: nat, t: Caller, a: Action)
    requires IsRun(run, moves) && i < |run| && Enabled(run[i], t, a)
    ensures !Raises(run[i], a)
  {
    RunsAreAccounted(run, moves, i);
    StepKeepsAccounts(run[i], t, a);
  }

  /** A waiting caller can be served exactly when fewer than the limit own a permit. */
  lemma ServedIff(run: seq<State>, moves: seq<Move>, i: nat, t: Caller)
    requires IsRun(run, moves) && i < |run| && t in run[i].places && run[i].places[t] == Waiting
    ensures Enabled(run[i], t, SemaphoreGiven) <==> Owners(run[i]) < run[0].max
  {
    RunsAreAccounted(run, moves, i);
  }

  /** No deadlock: unless everyone is idle or waiting behind a full limiter, somebody can move without a timeout. */
  lemma SomebodyCanMove(run: seq<State>, moves: seq<Move>, i: nat, t: Caller)
    requires IsRun(run, moves) && i < |run| && t in run[i].places && run[i].places[t] == Waiting
    ensures exists u, a :: Enabled(run[i], u, a) && !a.SemaphoreTimedOut? && !a.Enter?
  {
    var s := run[i];
    RunsAreAccounted(run, moves, i);
    RunsAreAccounted(run, moves, 0);
    if Owners(s) < s.max {
      assert Enabled(s, t, SemaphoreGiven);
    } else if u :| u in At(s.places, GotSemaphore) {
      assert Enabled(s, u, RecordAcquired);
    } else if u :| u in At(s.places, Holding) {
      assert Enabled(s, u, StartRelease);
    } else {
      assert At(s.places, GotSemaphore) == At(s.places, Holding) == {};
      var u :| u in At(s.places, Releasing);
      assert Enabled(s, u, SemaphoreReleased);
    }
  }
}
