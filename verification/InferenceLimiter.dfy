/**
 The counting semaphore in front of the decoder. A blocked thread is either asleep on the
 condition variable or woken and waiting to look at the counter again; other threads may slip
 in between, wake-ups may be spurious, and the limit may change at any time.
 */
module InferenceLimiter {

  type Thread = nat

  const DEFAULT_LIMIT: int := 4

  datatype LimiterState = LimiterState(
    active: int,
    limit: int,
    sleeping: set<Thread>,
    woken: set<Thread>,
    holders: set<Thread>)

  const INITIAL: LimiterState := LimiterState(0, DEFAULT_LIMIT, {}, {}, {})

  /** One critical section. `wake` is the sleeper the condition variable picks, if there is any. */
  datatype Event =
    | Acquire(thread: Thread)
    | TryAcquire(thread: Thread)
    | Resume(thread: Thread)
    | Spurious(thread: Thread)
    | Release(thread: Thread, wake: Thread)
    | StrayRelease(wake: Thread)
    | SetLimit(limit: int)

  predicate Idle(s: LimiterState, t: Thread) {
    t !in s.sleeping && t !in s.woken && t !in s.holders
  }

  predicate Enabled(s: LimiterState, e: Event) {
    match e
    case Acquire(t) => Idle(s, t)
    case TryAcquire(t) => Idle(s, t)
    case Resume(t) => t in s.woken
    case Spurious(t) => t in s.sleeping
    case Release(t, wake) => t in s.holders && (s.sleeping != {} ==> wake in s.sleeping)
    case StrayRelease(wake) => s.sleeping != {} ==> wake in s.sleeping
    case SetLimit(_) => true
  }

  /** The test of the wait predicate: take a slot, or go (back) to sleep. */
  function Claim(s: LimiterState, t: Thread): LimiterState {
    if s.active < s.limit then s.(active := s.active + 1, holders := s.holders + {t})
    else s.(sleeping := s.sleeping + {t})
  }

  function NotifyOne(s: LimiterState, wake: Thread): LimiterState {
    if s.sleeping == {} then s else s.(sleeping := s.sleeping - {wake}, woken := s.woken + {wake})
  }

  function NotifyAll(s: LimiterState): LimiterState {
    s.(sleeping := {}, woken := s.woken + s.sleeping)
  }

  function Freed(s: LimiterState, wake: Thread): LimiterState {
    if s.active > 0 then NotifyOne(s.(active := s.active - 1), wake) else s
  }

  /** The state after an event; an event that is not enabled does nothing. */
  function Step(s: LimiterState, e: Event): LimiterState {
    if !Enabled(s, e) then s
    else
      match e
      case Acquire(t) => Claim(s, t)
      case TryAcquire(t) => if s.active < s.limit then Claim(s, t) else s
      case Resume(t) => Claim(s.(woken := s.woken - {t}), t)
      case Spurious(t) => s.(sleeping := s.sleeping - {t}, woken := s.woken + {t})
      case Release(t, wake) => Freed(s.(holders := s.holders - {t}), wake)
      case StrayRelease(wake) => Freed(s, wake)
      case SetLimit(n) => if n > 0 then NotifyAll(s.(limit := n)) else s
  }

  function Run(s: LimiterState, events: seq<Event>): LimiterState {
    if events == [] then s else Step(Run(s, events[..|events| - 1]), events[|events| - 1])
  }

  // ----- the limiter object -----

  class InferenceLimiter {
    var activeCount: int
    var maxConcurrent: int
    ghost var sleeping: set<Thread>
    ghost var woken: set<Thread>
    ghost var holders: set<Thread>

    ghost function State(): LimiterState
      reads this
    {
      LimiterState(activeCount, maxConcurrent, sleeping, woken, holders)
    }

    constructor ()
      ensures State() == INITIAL
    {
      activeCount, maxConcurrent := 0, DEFAULT_LIMIT;
      sleeping, woken, holders := {}, {}, {};
    }

    method SetMaxConcurrency(n: int)
      modifies this
      ensures State() == Step(old(State()), SetLimit(n))
    {
      if n > 0 {
        maxConcurrent := n;
        sleeping, woken := {}, woken + sleeping;
      }
    }

    /** First test of the wait predicate. */
    method AcquireOrSleep(ghost t: Thread) returns (got: bool)
      requires Idle(State(), t)
      modifies this
      ensures State() == Step(old(State()), Acquire(t))
      ensures got <==> t in holders
    {
      got := activeCount < maxConcurrent;
      if got {
        activeCount, holders := activeCount + 1, holders + {t};
      } else {
        sleeping := sleeping + {t};
      }
    }

    /** The wait predicate again, after a wake-up of any kind. */
    method AcquireAfterWake(ghost t: Thread) returns (got: bool)
      requires t in woken && t !in holders
      modifies this
      ensures State() == Step(old(State()), Resume(t))
      ensures got <==> t in holders
    {
      got := activeCount < maxConcurrent;
      woken := woken - {t};
      if got {
        activeCount, holders := activeCount + 1, holders + {t};
      } else {
        sleeping := sleeping + {t};
      }
    }

    method TryToAcquire(ghost t: Thread) returns (got: bool)
      requires Idle(State(), t)
      modifies this
      ensures State() == Step(old(State()), TryAcquire(t))
      ensures got <==> t in holders
    {
      if activeCount < maxConcurrent {
        activeCount, holders := activeCount + 1, holders + {t};
        return true;
      }
      return false;
    }

    method GiveBack(ghost t: Thread, ghost wake: Thread)
      requires Enabled(State(), Release(t, wake))
      modifies this
      ensures State() == Step(old(State()), Release(t, wake))
    {
      holders := holders - {t};
      if activeCount > 0 {
        activeCount := activeCount - 1;
        if sleeping != {} {
          sleeping, woken := sleeping - {wake}, woken + {wake};
        }
      }
    }

    method HasCapacity() returns (free: bool)
      ensures free <==> State().active < State().limit
    {
      free := activeCount < maxConcurrent;
    }
  }

  /** Blocking and non-blocking requests: who gets a slot, who sleeps, who leaves. */
  lemma RequestEffect(s: LimiterState, t: Thread)
    requires Idle(s, t)
    ensures s.active < s.limit ==>
              Step(s, Acquire(t)) == Step(s, TryAcquire(t)) ==
              LimiterState(s.active + 1, s.limit, s.sleeping, s.woken, s.holders + {t})
    ensures s.active >= s.limit ==>
              && Step(s, Acquire(t)) == s.(sleeping := s.sleeping + {t})
              && Step(s, TryAcquire(t)) == s
  {
  }

  /** A woken thread looks again, and takes a slot or goes back to sleep. */
  lemma ResumeEffect(s: LimiterState, t: Thread)
    requires t in s.woken
    ensures Step(s, Resume(t)) ==
            if s.active < s.limit then LimiterState(s.active + 1, s.limit, s.sleeping, s.woken - {t}, s.holders + {t})
            else LimiterState(s.active, s.limit, s.sleeping + {t}, s.woken - {t}, s.holders)
  {
  }

  /** A release that was never matched by an acquire is ignored when no slot is taken. */
  lemma StrayEffect(s: LimiterState, t: Thread, wake: Thread)
    requires s.active <= 0
    ensures Step(s, StrayRelease(wake)) == s
    ensures Enabled(s, Release(t, wake)) ==> Step(s, Release(t, wake)) == s.(holders := s.holders - {t})
  {
  }

  /** A release frees one slot and wakes one sleeper, if there is one; a new limit wakes them all. */
  lemma WakeEffect(s: LimiterState, t: Thread, wake: Thread, n: int)
    requires t in s.holders && s.active > 0
    ensures wake in s.sleeping ==>
              Step(s, Release(t, wake)) ==
              LimiterState(s.active - 1, s.limit, s.sleeping - {wake}, s.woken + {wake}, s.holders - {t})
    ensures s.sleeping == {} ==>
              Step(s, Release(t, wake)) == LimiterState(s.active - 1, s.limit, {}, s.woken, s.holders - {t})
    ensures Step(s, SetLimit(n)) ==
            if n > 0 then LimiterState(s.active, n, {}, s.woken + s.sleeping, s.holders) else s
  {
  }

  // ----- every reachable state -----

  /** The places a thread can be in are exclusive. */
  ghost predicate Separate(s: LimiterState) {
    s.sleeping !! s.woken && s.sleeping !! s.holders && s.woken !! s.holders
  }

  /** While somebody sleeps, free slots are matched by threads already on their way. */
  ghost predicate NoLostWakeUp(s: LimiterState) {
    s.sleeping != {} ==> |s.woken| >= s.limit - s.active
  }

  ghost predicate Sound(s: LimiterState) {
    s.active >= 0 && s.limit > 0 && Separate(s) && NoLostWakeUp(s)
  }

  lemma StepIsSound(s: LimiterState, e: Event)
    requires Sound(s)
    ensures Sound(Step(s, e))
  {
  }

  /** No wake-up is ever lost: barging, spurious wake-ups, stray releases and limit changes included. */
  lemma {:induction false} NeverLosesWakeUp(events: seq<Event>)
    ensures Sound(Run(INITIAL, events))
  {
    if events != [] {
      NeverLosesWakeUp(events[..|events| - 1]);
      StepIsSound(Run(INITIAL, events[..|events| - 1]), events[|events| - 1]);
    }
  }

  ghost predicate Paired(events: seq<Event>) {
    forall e :: e in events ==> !e.StrayRelease?
  }

  function HighestLimit(events: seq<Event>): int {
    if events == [] then DEFAULT_LIMIT
    else
      var before, e := HighestLimit(events[..|events| - 1]), events[|events| - 1];
      if e.SetLimit? && e.limit > before then e.limit else before
  }

  ghost predicate Counted(s: LimiterState) {
    s.active == |s.holders|
  }

  lemma StepIsCounted(s: LimiterState, e: Event)
    requires Sound(s) && Counted(s) && !e.StrayRelease?
    ensures Counted(Step(s, e))
    ensures Step(s, e).active <= s.active || Step(s, e).active <= s.limit
  {
  }

  /** With paired releases the counter is the number of holders, never above the highest limit set. */
  lemma {:induction false} CounterIsHolders(events: seq<Event>)
    requires Paired(events)
    ensures var s := Run(INITIAL, events);
            Counted(s) && s.active <= HighestLimit(events) && s.limit <= HighestLimit(events)
  {
    if events != [] {
      var init, e := events[..|events| - 1], events[|events| - 1];
      assert e in events;
      CounterIsHolders(init);
      NeverLosesWakeUp(init);
      StepIsCounted(Run(INITIAL, init), e);
    }
  }

  // ----- progress -----

  /** Only threads already inside finish what they do: woken ones look again, holders release. */
  ghost predicate Draining(s: LimiterState, events: seq<Event>) {
    if events == [] then true
    else
      var init, e := events[..|events| - 1], events[|events| - 1];
      Draining(s, init) && (e.Resume? || e.Release?) && Enabled(Run(s, init), e)
  }

  function Work(s: LimiterState): nat {
    2 * |s.holders| + 3 * |s.woken| + 2 * |s.sleeping|
  }

  lemma StepDrains(s: LimiterState, e: Event)
    requires Sound(s) && Counted(s)
    requires (e.Resume? || e.Release?) && Enabled(s, e)
    ensures Work(Step(s, e)) < Work(s)
  {
  }

  lemma {:induction false} DrainIsBounded(s: LimiterState, events: seq<Event>)
    requires Sound(s) && Counted(s) && Draining(s, events)
    ensures Sound(Run(s, events)) && Counted(Run(s, events))
    ensures |events| + Work(Run(s, events)) <= Work(s)
  {
    if events != [] {
      var init, e := events[..|events| - 1], events[|events| - 1];
      DrainIsBounded(s, init);
      StepDrains(Run(s, init), e);
      StepIsSound(Run(s, init), e);
      StepIsCounted(Run(s, init), e);
    }
  }

  ghost predicate Stuck(s: LimiterState) {
    forall e: Event :: e.Resume? || e.Release? ==> !Enabled(s, e)
  }

  /**
   Nobody waits for ever: from any reachable state, once no thread arrives any more, every
   schedule ends within three steps a thread, and it can only end with nobody asleep.
   */
  lemma EverybodyIsServed(history: seq<Event>, events: seq<Event>)
    requires Paired(history)
    requires Draining(Run(INITIAL, history), events)
    ensures var s := Run(INITIAL, history);
            && |events| <= 3 * (|s.holders| + |s.woken| + |s.sleeping|)
            && (Stuck(Run(s, events)) ==>
                  var end := Run(s, events);
                  end.sleeping == end.woken == end.holders == {} && end.active == 0)
  {
    var s := Run(INITIAL, history);
    NeverLosesWakeUp(history);
    CounterIsHolders(history);
    DrainIsBounded(s, events);
    var end := Run(s, events);
    if Stuck(end) {
      if t :| t in end.woken {
        assert Enabled(end, Resume(t));
      }
      if t :| t in end.holders {
        var wake :| end.sleeping != {} ==> wake in end.sleeping;
        assert Enabled(end, Release(t, wake));
      }
    }
  }
}
