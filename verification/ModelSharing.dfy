/**
 Any number of sessions sharing one model path through the cache. A session holds a context
 from the moment `acquire` returns: first in hand, until it gets its own lock, then in its
 engine. Timer threads and the clock run in between.
 */
module ModelSharing {
  import opened Common
  import opened ModelCache

  /** `acquires`, `releases` and `reconfigs` only count what happened. */
  datatype Holder = Holder(
    inHand: Option<nat>,
    engine: Option<nat>,
    acquired: bool,
    acquires: nat,
    releases: nat,
    reconfigs: nat)

  const NEW_HOLDER: Holder := Holder(None, None, false, 0, 0, 0)

  /** `idleSince` is the time of the latest release that brought the count to zero. */
  datatype System = System(cache: Cache, sessions: seq<Holder>, now: int, idleSince: int)

  datatype Event =
    | Open
    | AcquireModel(id: nat, loads: bool)
    | InstallEngine(id: nat, builds: bool)
    | ReleaseModel(id: nat)
    | TimerFires(timer: nat)
    | Tick(seconds: nat)

  predicate Enabled(s: System, e: Event) {
    match e
    case Open => true
    case AcquireModel(id, _) => id < |s.sessions| && s.sessions[id].inHand.None?
    case InstallEngine(id, _) => id < |s.sessions| && s.sessions[id].inHand.Some?
    case ReleaseModel(id) => id < |s.sessions| && s.sessions[id].inHand.None?
    case TimerFires(i) => i < |s.cache.timers| && s.cache.timers[i] <= s.now
    case Tick(_) => true
  }

  /** The critical section that builds the engine; when building throws, the old engine stays. */
  function Installed(h: Holder, builds: bool): Holder {
    h.(inHand := None,
       engine := if builds then h.inHand else h.engine,
       acquired := true,
       reconfigs := h.reconfigs + if h.acquired then 1 else 0)
  }

  function Released(h: Holder): Holder {
    h.(engine := None, acquired := false, releases := h.releases + 1)
  }

  function Step(path: string, s: System, e: Event): System {
    if !Enabled(s, e) then s
    else
      match e
      case Open => s.(sessions := s.sessions + [NEW_HOLDER])
      case AcquireModel(id, loads) =>
        var h := s.sessions[id];
        var (c, got) := Acquire(s.cache, path, loads);
        if got.None? then s.(cache := c)
        else s.(cache := c, sessions := s.sessions[id := h.(inHand := got, acquires := h.acquires + 1)])
      case InstallEngine(id, builds) =>
        s.(sessions := s.sessions[id := Installed(s.sessions[id], builds)])
      case ReleaseModel(id) =>
        var h := s.sessions[id];
        if !h.acquired then s
        else
          var c := Release(s.cache, s.now);
          s.(cache := c,
             sessions := s.sessions[id := Released(h)],
             idleSince := if s.cache.refs > 0 && c.refs == 0 then s.now else s.idleSince)
      case TimerFires(i) => s.(cache := Fire(s.cache, i))
      case Tick(seconds) => s.(now := s.now + seconds)
  }

  function Run(path: string, s: System, events: seq<Event>): System {
    if events == [] then s else Step(path, Run(path, s, events[..|events| - 1]), events[|events| - 1])
  }

  function Start(ttl: int): System {
    System(Initial(ttl), [], 0, 0)
  }

  // ----- safety -----

  /** References a session owes to what it holds now. */
  function Holding(h: Holder): nat {
    (if h.inHand.Some? then 1 else 0) + (if h.acquired then 1 else 0)
  }

  function HoldingAll(sessions: seq<Holder>): nat {
    if sessions == [] then 0 else HoldingAll(sessions[..|sessions| - 1]) + Holding(sessions[|sessions| - 1])
  }

  function ReconfigsAll(sessions: seq<Holder>): nat {
    if sessions == [] then 0 else ReconfigsAll(sessions[..|sessions| - 1]) + sessions[|sessions| - 1].reconfigs
  }

  function OutstandingAll(sessions: seq<Holder>): int {
    if sessions == [] then 0
    else
      var last := sessions[|sessions| - 1];
      OutstandingAll(sessions[..|sessions| - 1]) + last.acquires - last.releases
  }

  lemma {:induction false} SumsAfterUpdate(sessions: seq<Holder>, id: nat, h: Holder)
    requires id < |sessions|
    ensures HoldingAll(sessions[id := h]) == HoldingAll(sessions) - Holding(sessions[id]) + Holding(h)
    ensures ReconfigsAll(sessions[id := h]) == ReconfigsAll(sessions) - sessions[id].reconfigs + h.reconfigs
    ensures OutstandingAll(sessions[id := h]) ==
            OutstandingAll(sessions) - (sessions[id].acquires - sessions[id].releases) + (h.acquires - h.releases)
    ensures HoldingAll(sessions) >= Holding(sessions[id]) && ReconfigsAll(sessions) >= sessions[id].reconfigs
  {
    var init := sessions[..|sessions| - 1];
    if id < |init| {
      SumsAfterUpdate(init, id, h);
      assert sessions[id := h][..|init|] == init[id := h];
    } else {
      assert sessions[id := h][..|init|] == init;
    }
  }

  /** A context somewhere in a session is the one that is loaded now. */
  ghost predicate Fresh(c: Cache, h: Holder) {
    && (h.inHand.Some? ==> h.inHand == c.context)
    && (h.engine.Some? ==> h.acquired && h.engine == c.context)
  }

  ghost predicate Safe(path: string, s: System) {
    && s.cache.refs == HoldingAll(s.sessions) + ReconfigsAll(s.sessions)
    && s.cache.refs == OutstandingAll(s.sessions)
    && (s.cache.context.Some? ==> s.cache.path == path)
    && (s.cache.refs > 0 ==> s.cache.context.Some?)
    && forall i :: 0 <= i < |s.sessions| ==> Fresh(s.cache, s.sessions[i])
  }

  lemma SomebodyHolds(s: System, id: nat)
    requires id < |s.sessions|
    ensures Holding(s.sessions[id]) <= HoldingAll(s.sessions)
  {
    SumsAfterUpdate(s.sessions, id, s.sessions[id]);
  }

  lemma UnusedWhenZero(path: string, s: System, c: Cache)
    requires Safe(path, s) && s.cache.refs == 0
    ensures forall i :: 0 <= i < |s.sessions| ==> Fresh(c, s.sessions[i])
  {
    forall i | 0 <= i < |s.sessions|
      ensures Fresh(c, s.sessions[i])
    {
      SomebodyHolds(s, i);
      assert Fresh(s.cache, s.sessions[i]);
    }
  }

  lemma AcquireIsSafe(path: string, s: System, id: nat, loads: bool)
    requires Safe(path, s) && Enabled(s, AcquireModel(id, loads))
    ensures Safe(path, Step(path, s, AcquireModel(id, loads)))
  {
    var s' := Step(path, s, AcquireModel(id, loads));
    SumsAfterUpdate(s.sessions, id, s'.sessions[id]);
    assert s'.sessions == s.sessions[id := s'.sessions[id]];
    if s.cache.context.None? {
      UnusedWhenZero(path, s, s'.cache);
    }
  }

  lemma ReleaseIsSafe(path: string, s: System, id: nat)
    requires Safe(path, s) && Enabled(s, ReleaseModel(id))
    ensures Safe(path, Step(path, s, ReleaseModel(id)))
  {
    var h := s.sessions[id];
    var s' := Step(path, s, ReleaseModel(id));
    if h.acquired {
      SumsAfterUpdate(s.sessions, id, s'.sessions[id]);
      SomebodyHolds(s, id);
      assert s'.cache.refs == s.cache.refs - 1;
      forall i | 0 <= i < |s'.sessions|
        ensures Fresh(s'.cache, s'.sessions[i])
      {
        assert Fresh(s.cache, s.sessions[i]);
        SomebodyHolds(s', i);
      }
    }
  }

  lemma InstallIsSafe(path: string, s: System, id: nat, builds: bool)
    requires Safe(path, s) && Enabled(s, InstallEngine(id, builds))
    ensures Safe(path, Step(path, s, InstallEngine(id, builds)))
  {
    SumsAfterUpdate(s.sessions, id, Installed(s.sessions[id], builds));
    assert Fresh(s.cache, s.sessions[id]);
  }

  lemma OpenIsSafe(path: string, s: System)
    requires Safe(path, s)
    ensures Safe(path, Step(path, s, Open))
  {
  }

  lemma TimerIsSafe(path: string, s: System, i: nat)
    requires Safe(path, s) && Enabled(s, TimerFires(i))
    ensures Safe(path, Step(path, s, TimerFires(i)))
  {
    if s.cache.refs == 0 {
      UnusedWhenZero(path, s, Fire(s.cache, i));
    }
  }

  lemma StepIsSafe(path: string, s: System, e: Event)
    requires Safe(path, s)
    ensures Safe(path, Step(path, s, e))
  {
    if Enabled(s, e) {
      match e
      case Open => OpenIsSafe(path, s);
      case AcquireModel(id, loads) => AcquireIsSafe(path, s, id, loads);
      case InstallEngine(id, builds) => InstallIsSafe(path, s, id, builds);
      case ReleaseModel(id) => ReleaseIsSafe(path, s, id);
      case TimerFires(i) => TimerIsSafe(path, s, i);
      case Tick(_) =>
    }
  }

  /**
   In every interleaving of any number of sessions with timers: the count is the number of
   acquires not yet released, and every session that has a context in hand or in its engine
   has the one that is loaded, so no decode ever runs on a freed context.
   */
  lemma {:induction false} NoUseAfterFree(path: string, ttl: int, events: seq<Event>)
    ensures var s := Run(path, Start(ttl), events);
            && Safe(path, s)
            && forall i :: 0 <= i < |s.sessions| && s.sessions[i].engine.Some? ==>
                 s.cache.context == s.sessions[i].engine && s.cache.refs > 0
  {
    if events != [] {
      NoUseAfterFree(path, ttl, events[..|events| - 1]);
      StepIsSafe(path, Run(path, Start(ttl), events[..|events| - 1]), events[|events| - 1]);
    }
    var s := Run(path, Start(ttl), events);
    forall i | 0 <= i < |s.sessions| && s.sessions[i].engine.Some?
      ensures s.cache.context == s.sessions[i].engine && s.cache.refs > 0
    {
      assert Fresh(s.cache, s.sessions[i]);
      SomebodyHolds(s, i);
    }
  }

  /** The count equals the number of contexts held exactly when no session was configured twice. */
  lemma CountIsHoldersIff(path: string, ttl: int, events: seq<Event>)
    ensures var s := Run(path, Start(ttl), events);
            s.cache.refs == HoldingAll(s.sessions) <==>
            forall i :: 0 <= i < |s.sessions| ==> s.sessions[i].reconfigs == 0
  {
    NoUseAfterFree(path, ttl, events);
    ReconfigsZero(Run(path, Start(ttl), events).sessions);
  }

  lemma {:induction false} ReconfigsZero(sessions: seq<Holder>)
    ensures ReconfigsAll(sessions) == 0 <==> forall i :: 0 <= i < |sessions| ==> sessions[i].reconfigs == 0
  {
    if sessions != [] {
      var init := sessions[..|sessions| - 1];
      ReconfigsZero(init);
      assert forall i :: 0 <= i < |init| ==> init[i] == sessions[i];
    }
  }

  lemma StepKeepsReconfigs(path: string, s: System, e: Event)
    ensures ReconfigsAll(s.sessions) <= ReconfigsAll(Step(path, s, e).sessions)
  {
    var s' := Step(path, s, e);
    if s'.sessions != s.sessions {
      if e.Open? {
        assert s'.sessions[..|s.sessions|] == s.sessions;
      } else {
        SumsAfterUpdate(s.sessions, e.id, s'.sessions[e.id]);
        assert s'.sessions == s.sessions[e.id := s'.sessions[e.id]];
      }
    }
  }

  /** One session configured twice pins the model: it stays loaded for ever after. */
  lemma {:induction false} ReconfigPinsModel(path: string, ttl: int, events: seq<Event>, more: seq<Event>)
    requires ReconfigsAll(Run(path, Start(ttl), events).sessions) > 0
    ensures ReconfigsAll(Run(path, Start(ttl), events + more).sessions) > 0
    ensures Run(path, Start(ttl), events + more).cache.context.Some?
    ensures Run(path, Start(ttl), events + more).cache.context == Run(path, Start(ttl), events).cache.context
  {
    NoUseAfterFree(path, ttl, events + more);
    if more == [] {
      assert events + more == events;
    } else {
      var init, e := more[..|more| - 1], more[|more| - 1];
      ReconfigPinsModel(path, ttl, events, init);
      NoUseAfterFree(path, ttl, events + init);
      assert (events + more)[..|events + more| - 1] == events + init;
      StepKeepsReconfigs(path, Run(path, Start(ttl), events + init), e);
      StepKeepsLoaded(path, Run(path, Start(ttl), events + init), e);
    }
  }

  /** A model that is still referenced after a step has survived the step. */
  lemma StepKeepsLoaded(path: string, s: System, e: Event)
    requires Safe(path, s) && s.cache.context.Some?
    ensures var s' := Step(path, s, e);
            s'.cache.refs > 0 ==> s'.cache.context == s.cache.context
  {
  }

  // ----- the idle model -----

  ghost predicate IdleLoaded(c: Cache) {
    c.context.Some? && c.refs == 0
  }

  /** Timer threads run as soon as they are due: the clock never passes a live timer. */
  ghost predicate Prompt(s: System, e: Event) {
    e.Tick? ==> forall i :: 0 <= i < |s.cache.timers| ==> s.now + e.seconds <= s.cache.timers[i]
  }

  ghost predicate PromptRun(path: string, s: System, events: seq<Event>) {
    if events == [] then true
    else
      var init := events[..|events| - 1];
      PromptRun(path, s, init) && Prompt(Run(path, s, init), events[|events| - 1])
  }

  /** Every idle model has a deadline that some live timer will keep. */
  ghost predicate Doomed(s: System) {
    && s.cache.ttl > 0
    && s.idleSince <= s.now
    && (forall i :: 0 <= i < |s.cache.timers| ==> s.now <= s.cache.timers[i] <= s.now + s.cache.ttl)
    && (IdleLoaded(s.cache) ==> s.cache.unloadPending && s.idleSince + s.cache.ttl in s.cache.timers)
  }

  lemma StepIsDoomed(path: string, s: System, e: Event)
    requires Safe(path, s) && Doomed(s) && Prompt(s, e)
    ensures Doomed(Step(path, s, e))
  {
  }

  /** With prompt timers an idle model is gone a TTL after the last release at the latest. */
  lemma {:induction false} IdleModelHasDeadline(path: string, ttl: int, events: seq<Event>)
    requires ttl > 0 && PromptRun(path, Start(ttl), events)
    ensures var s := Run(path, Start(ttl), events);
            Doomed(s) && (IdleLoaded(s.cache) ==> s.now <= s.idleSince + ttl)
  {
    if events != [] {
      var init := events[..|events| - 1];
      IdleModelHasDeadline(path, ttl, init);
      NoUseAfterFree(path, ttl, init);
      StepIsDoomed(path, Run(path, Start(ttl), init), events[|events| - 1]);
    }
    TtlIsFixed(path, ttl, events);
  }

  lemma {:induction false} TtlIsFixed(path: string, ttl: int, events: seq<Event>)
    ensures Run(path, Start(ttl), events).cache.ttl == ttl
  {
    if events != [] {
      TtlIsFixed(path, ttl, events[..|events| - 1]);
    }
  }

  ghost predicate NoAcquire(events: seq<Event>) {
    forall e :: e in events ==> !e.AcquireModel?
  }

  /** Left alone, an idle model stays until one of the timers live at the start has become due. */
  lemma {:induction false} IdleUntilATimer(path: string, s: System, events: seq<Event>)
    requires IdleLoaded(s.cache) && NoAcquire(events)
    ensures var t := Run(path, s, events);
            if t.cache.context.Some? then
              t.cache.context == s.cache.context && t.cache.refs == 0 &&
              forall due :: due in t.cache.timers ==> due in s.cache.timers
            else
              exists due :: due in s.cache.timers && due <= t.now
  {
    if events != [] {
      var init, e := events[..|events| - 1], events[|events| - 1];
      assert e in events;
      IdleUntilATimer(path, s, init);
      var t := Run(path, s, init);
      if e.TimerFires? && Enabled(t, e) {
        assert t.cache.timers[e.timer] in t.cache.timers;
      }
    }
  }

  lemma {:induction false} Earliest(timers: seq<int>) returns (i: nat)
    requires timers != []
    ensures i < |timers| && forall k :: 0 <= k < |timers| ==> timers[i] <= timers[k]
  {
    i := |timers| - 1;
    if |timers| > 1 {
      var init := timers[..|timers| - 1];
      var j := Earliest(init);
      assert forall k :: 0 <= k < |init| ==> init[k] == timers[k];
      if timers[j] <= timers[i] {
        i := j;
      }
    }
  }

  ghost predicate UnloadsBefore(path: string, s: System, events: seq<Event>, deadline: int) {
    && NoAcquire(events)
    && PromptRun(path, s, events)
    && Run(path, s, events).cache.context.None?
    && Run(path, s, events).now < deadline
  }

  ghost predicate MayUnloadBefore(path: string, s: System, deadline: int) {
    exists events :: UnloadsBefore(path, s, events, deadline)
  }

  lemma RunOne(path: string, s: System, events: seq<Event>, e: Event)
    ensures Run(path, s, events + [e]) == Step(path, Run(path, s, events), e)
    ensures PromptRun(path, s, events + [e]) <==> PromptRun(path, s, events) && Prompt(Run(path, s, events), e)
  {
  }

  /** Waiting for the earliest timer and letting it run frees the model. */
  lemma EarliestTimerUnloads(path: string, s: System, due: int, deadline: int)
    requires Doomed(s) && IdleLoaded(s.cache)
    requires due in s.cache.timers && due < deadline
    ensures MayUnloadBefore(path, s, deadline)
  {
    var i := Earliest(s.cache.timers);
    var first := s.cache.timers[i];
    assert s.now <= first <= due;
    var wait, fire := Tick(first - s.now), TimerFires(i);
    RunOne(path, s, [], wait);
    RunOne(path, s, [] + [wait], fire);
    var events := [] + [wait] + [fire];
    assert Run(path, s, [] + [wait]) == s.(now := first);
    assert NoAcquire(events);
    assert UnloadsBefore(path, s, events, deadline);
  }

  /** Whether a timer left over from an earlier idle period comes before the full TTL is over. */
  ghost predicate HasStaleTimer(s: System) {
    exists due :: due in s.cache.timers && due < s.idleSince + s.cache.ttl
  }

  lemma UnloadsEarlyIff(path: string, s: System)
    requires Doomed(s) && IdleLoaded(s.cache)
    ensures MayUnloadBefore(path, s, s.idleSince + s.cache.ttl) <==> HasStaleTimer(s)
  {
    var deadline := s.idleSince + s.cache.ttl;
    if MayUnloadBefore(path, s, deadline) {
      var events :| UnloadsBefore(path, s, events, deadline);
      IdleUntilATimer(path, s, events);
    }
    if HasStaleTimer(s) {
      var due :| due in s.cache.timers && due < deadline;
      EarliestTimerUnloads(path, s, due, deadline);
    }
  }

  /**
   The cache is documented to keep an idle model for a whole TTL. It can let go of it sooner
   exactly when a timer left over from an earlier idle period is due sooner.
   */
  lemma KeptForTtlIffNoStaleTimer(path: string, ttl: int, history: seq<Event>)
    requires ttl > 0 && PromptRun(path, Start(ttl), history)
    requires IdleLoaded(Run(path, Start(ttl), history).cache)
    ensures var s := Run(path, Start(ttl), history);
            MayUnloadBefore(path, s, s.idleSince + ttl) <==> HasStaleTimer(s)
  {
    IdleModelHasDeadline(path, ttl, history);
    TtlIsFixed(path, ttl, history);
    UnloadsEarlyIff(path, Run(path, Start(ttl), history));
  }

  // ----- what the TTL means -----

  /** With no TTL the model goes with its last holder; with a positive one an unload is pending while it is idle. */
  ghost predicate MeansTtl(c: Cache) {
    && (c.ttl == 0 ==> (c.context.Some? <==> c.refs > 0) && c.timers == [])
    && (c.ttl > 0 ==> (c.unloadPending <==> IdleLoaded(c)))
    && (c.ttl < 0 ==> c.timers == [])
    && (c.ttl <= 0 ==> !c.unloadPending)
    && c.refs >= 0
    && (c.context.None? ==> c.path == "")
  }

  lemma StepMeansTtl(path: string, s: System, e: Event)
    requires Safe(path, s) && MeansTtl(s.cache)
    ensures MeansTtl(Step(path, s, e).cache)
    ensures s.cache.ttl < 0 && s.cache.context.Some? ==> Step(path, s, e).cache.context == s.cache.context
  {
  }

  /** In every run: zero frees an idle model at once, a positive TTL leaves it with an unload pending. */
  lemma {:induction false} TtlMeaning(path: string, ttl: int, events: seq<Event>)
    ensures MeansTtl(Run(path, Start(ttl), events).cache)
  {
    if events != [] {
      var init := events[..|events| - 1];
      TtlMeaning(path, ttl, init);
      NoUseAfterFree(path, ttl, init);
      StepMeansTtl(path, Run(path, Start(ttl), init), events[|events| - 1]);
    }
  }

  /** And a negative one keeps it for ever, used or not. */
  lemma {:induction false} NegativeTtlKeeps(path: string, ttl: int, events: seq<Event>, more: seq<Event>)
    requires ttl < 0 && Run(path, Start(ttl), events).cache.context.Some?
    ensures Run(path, Start(ttl), events + more).cache.context == Run(path, Start(ttl), events).cache.context
  {
    if more == [] {
      assert events + more == events;
    } else {
      var init, e := more[..|more| - 1], more[|more| - 1];
      NegativeTtlKeeps(path, ttl, events, init);
      assert (events + more)[..|events + more| - 1] == events + init;
      NoUseAfterFree(path, ttl, events + init);
      TtlMeaning(path, ttl, events + init);
      TtlIsFixed(path, ttl, events + init);
      StepMeansTtl(path, Run(path, Start(ttl), events + init), e);
    }
  }

  // ----- reachable exceptions -----

  /** One session uses the model and leaves it, then after five seconds another one does. */
  function TwoShortSessions(): seq<Event> {
    [] + [Open] + [AcquireModel(0, true)] + [InstallEngine(0, true)] + [ReleaseModel(0)] +
    [Tick(5)] + [Open] + [AcquireModel(1, true)] + [InstallEngine(1, true)] + [ReleaseModel(1)]
  }

  /** With a TTL of ten seconds the timer of the first one cuts the idle time of the second one short. */
  lemma StaleTimerIsReachable(path: string)
    ensures var s := Run(path, Start(10), TwoShortSessions());
            PromptRun(path, Start(10), TwoShortSessions()) && IdleLoaded(s.cache) && HasStaleTimer(s)
  {
    var start := Start(10);
    var a := [] + [Open] + [AcquireModel(0, true)];
    RunOne(path, start, [], Open);
    RunOne(path, start, [] + [Open], AcquireModel(0, true));
    RunOne(path, start, a, InstallEngine(0, true));
    var b := a + [InstallEngine(0, true)] + [ReleaseModel(0)];
    RunOne(path, start, a + [InstallEngine(0, true)], ReleaseModel(0));
    RunOne(path, start, b, Tick(5));
    var waited := Run(path, start, b + [Tick(5)]);
    assert waited.cache.timers == [] + [10] && waited.now == 5 && |waited.sessions| == 1;
    assert waited.cache.context.Some? && waited.cache.path == path && waited.cache.refs == 0;
    var c := b + [Tick(5)] + [Open];
    RunOne(path, start, b + [Tick(5)], Open);
    RunOne(path, start, c, AcquireModel(1, true));
    RunOne(path, start, c + [AcquireModel(1, true)], InstallEngine(1, true));
    RunOne(path, start, c + [AcquireModel(1, true)] + [InstallEngine(1, true)], ReleaseModel(1));
    var s := Run(path, start, TwoShortSessions());
    assert s.cache.timers == [10] + [15];
    assert s.cache.timers[0] == 10 && s.idleSince == 5 && s.cache.ttl == 10;
    assert 10 in s.cache.timers;
  }

  /** Configuring a session a second time leaves a reference that nobody gives back. */
  lemma ReconfigIsReachable(path: string, ttl: int)
    ensures var events := [] + [Open] + [AcquireModel(0, true)] + [InstallEngine(0, true)] +
                          [AcquireModel(0, true)] + [InstallEngine(0, true)] + [ReleaseModel(0)];
            var s := Run(path, Start(ttl), events);
            HoldingAll(s.sessions) == 0 && s.cache.refs == 1
  {
    var start := Start(ttl);
    var a := [] + [Open] + [AcquireModel(0, true)];
    RunOne(path, start, [], Open);
    RunOne(path, start, [] + [Open], AcquireModel(0, true));
    RunOne(path, start, a, InstallEngine(0, true));
    var b := a + [InstallEngine(0, true)] + [AcquireModel(0, true)];
    RunOne(path, start, a + [InstallEngine(0, true)], AcquireModel(0, true));
    RunOne(path, start, b, InstallEngine(0, true));
    RunOne(path, start, b + [InstallEngine(0, true)], ReleaseModel(0));
    var s := Run(path, start, b + [InstallEngine(0, true)] + [ReleaseModel(0)]);
    assert |s.sessions| == 1 && s.sessions[..0] == [];
    assert Holding(s.sessions[0]) == 0;
  }
}
