/** The shared model in the whole server: all that holds of the sharing machine holds there too. */
module ServerModel {
  import opened Server
  import M = ModelSharing

  /** The events of the sharing machine that a server run amounts to. */
  ghost function ModelEvents(path: string, ttl: int, slots: int, events: seq<Event>): seq<M.Event> {
    if events == [] then []
    else
      var init, e := events[..|events| - 1], events[|events| - 1];
      ModelEvents(path, ttl, slots, init) +
      if Enabled(Run(path, ttl, slots, init), e) && ModelEvent(e).Some? then [ModelEvent(e).value] else []
  }

  /** Timer threads run as soon as they are due. */
  ghost predicate PromptRun(path: string, ttl: int, slots: int, events: seq<Event>) {
    if events == [] then true
    else
      var init, e := events[..|events| - 1], events[|events| - 1];
      && PromptRun(path, ttl, slots, init)
      && (ModelEvent(e).Some? ==> M.Prompt(Run(path, ttl, slots, init).model, ModelEvent(e).value))
  }

  lemma ModelAfter(path: string, s: Server, e: Event)
    ensures Step(path, s, e).model ==
            if Enabled(s, e) && ModelEvent(e).Some? then M.Step(path, s.model, ModelEvent(e).value) else s.model
  {
  }

  /** Seen alone, the shared model of a server run is a run of the sharing machine. */
  lemma {:induction false} ModelRunsOnItsOwn(path: string, ttl: int, slots: int, events: seq<Event>)
    ensures Run(path, ttl, slots, events).model == M.Run(path, M.Start(ttl), ModelEvents(path, ttl, slots, events))
    ensures PromptRun(path, ttl, slots, events) ==>
              M.PromptRun(path, M.Start(ttl), ModelEvents(path, ttl, slots, events))
  {
    if events != [] {
      var init, e := events[..|events| - 1], events[|events| - 1];
      var own := ModelEvents(path, ttl, slots, init);
      ModelRunsOnItsOwn(path, ttl, slots, init);
      ModelAfter(path, Run(path, ttl, slots, init), e);
      if Enabled(Run(path, ttl, slots, init), e) && ModelEvent(e).Some? {
        M.RunOne(path, M.Start(ttl), own, ModelEvent(e).value);
        assert ModelEvents(path, ttl, slots, events) == own + [ModelEvent(e).value];
      } else {
        assert ModelEvents(path, ttl, slots, events) == own + [] == own;
      }
    }
  }

  lemma {:induction false} ModelEventsGrow(path: string, ttl: int, slots: int, events: seq<Event>, more: seq<Event>)
    returns (own: seq<M.Event>)
    ensures ModelEvents(path, ttl, slots, events + more) == ModelEvents(path, ttl, slots, events) + own
  {
    if more == [] {
      assert events + more == events;
      own := [];
    } else {
      var init, e := more[..|more| - 1], more[|more| - 1];
      own := ModelEventsGrow(path, ttl, slots, events, init);
      assert (events + more)[..|events + more| - 1] == events + init;
      if Enabled(Run(path, ttl, slots, events + init), e) && ModelEvent(e).Some? {
        own := own + [ModelEvent(e).value];
      }
    }
  }

  /** The idle model is within its deadline, and can be unloaded before that only by an older timer. */
  ghost predicate MeetsDeadline(path: string, m: M.System) {
    var deadline := m.idleSince + m.cache.ttl;
    m.now <= deadline && (M.MayUnloadBefore(path, m, deadline) <==> M.HasStaleTimer(m))
  }

  lemma IdleDeadlineAt(path: string, ttl: int, own: seq<M.Event>, m: M.System)
    requires ttl > 0 && M.PromptRun(path, M.Start(ttl), own)
    requires m == M.Run(path, M.Start(ttl), own) && M.IdleLoaded(m.cache)
    ensures m.cache.ttl == ttl && MeetsDeadline(path, m)
  {
    M.TtlIsFixed(path, ttl, own);
    M.IdleModelHasDeadline(path, ttl, own);
    M.KeptForTtlIffNoStaleTimer(path, ttl, own);
  }

  /**
   So what holds of the sharing machine holds in the whole server. With prompt timers an idle model
   is gone a TTL after the last release at the latest, and can go sooner exactly when a timer of an
   earlier idle period is due sooner.
   */
  lemma ServerIdleDeadline(path: string, ttl: int, slots: int, events: seq<Event>)
    requires ttl > 0 && PromptRun(path, ttl, slots, events)
    requires M.IdleLoaded(Run(path, ttl, slots, events).model.cache)
    ensures var m := Run(path, ttl, slots, events).model;
            m.cache.ttl == ttl && MeetsDeadline(path, m)
  {
    ModelRunsOnItsOwn(path, ttl, slots, events);
    IdleDeadlineAt(path, ttl, ModelEvents(path, ttl, slots, events), Run(path, ttl, slots, events).model);
  }

  lemma PinnedAt(path: string, ttl: int, own: seq<M.Event>, more: seq<M.Event>, m: M.System, m': M.System)
    requires m == M.Run(path, M.Start(ttl), own) && m' == M.Run(path, M.Start(ttl), own + more)
    requires M.ReconfigsAll(m.sessions) > 0
    ensures m'.cache.context.Some? && m'.cache.context == m.cache.context
  {
    M.ReconfigPinsModel(path, ttl, own, more);
  }

  /** A session configured twice keeps the model loaded, whatever the other sessions do from then on. */
  lemma ServerPinsModel(path: string, ttl: int, slots: int, events: seq<Event>, more: seq<Event>)
    requires M.ReconfigsAll(Run(path, ttl, slots, events).model.sessions) > 0
    ensures var m, m' := Run(path, ttl, slots, events).model, Run(path, ttl, slots, events + more).model;
            m'.cache.context.Some? && m'.cache.context == m.cache.context
  {
    ModelRunsOnItsOwn(path, ttl, slots, events);
    ModelRunsOnItsOwn(path, ttl, slots, events + more);
    var own := ModelEventsGrow(path, ttl, slots, events, more);
    PinnedAt(path, ttl, ModelEvents(path, ttl, slots, events), own,
             Run(path, ttl, slots, events).model, Run(path, ttl, slots, events + more).model);
  }
}
