/** How many decodes the configured maximum really allows, and how many clients it takes to exceed it. */
module ServerCapacity {
  import opened Common
  import opened Server
  import WhisperEngine
  import L = InferenceLimiter
  import S = SessionModel
  import M = ModelSharing

  /** The sessions that still occupy a connection. */
  function Live(sessions: seq<S.Session>): set<nat> {
    set i: nat | i < |sessions| && sessions[i].receiving != S.Gone
  }

  /** At no time in the run were there more than `clients` of them. */
  ghost predicate NeverMore(path: string, ttl: int, slots: int, events: seq<Event>, clients: nat) {
    && (events != [] ==> NeverMore(path, ttl, slots, events[..|events| - 1], clients))
    && |Live(Run(path, ttl, slots, events).sessions)| <= clients
  }

  function Maximum(slots: int): nat {
    if slots > 0 then slots else L.DEFAULT_LIMIT
  }

  // ----- a session that has gone does not decode -----

  lemma GoneByRelease(s: S.Session, e: S.Event)
    requires S.Step(s, e).receiving == S.Gone
    ensures s.receiving == S.Gone || (e.ReleaseModel? && S.Enabled(s, e))
  {
    if S.Minor(e) {
      S.MinorStep(s, e);
    }
  }

  lemma {:induction false} EngineMeansHere(built: int, events: seq<S.Event>)
    ensures var s := S.Run(S.Start(built), events);
            s.engine.Some? ==> s.acquired && s.receiving != S.Gone
  {
    if events != [] {
      var init, e := events[..|events| - 1], events[|events| - 1];
      var s := S.Run(S.Start(built), init);
      EngineMeansHere(built, init);
      if S.Enabled(s, e) {
        SessionStep(s, e);
        if S.Step(s, e).receiving == S.Gone {
          GoneByRelease(s, e);
        }
      }
    }
  }

  lemma DecodersAreLive(path: string, ttl: int, slots: int, events: seq<Event>)
    ensures var s := Run(path, ttl, slots, events);
            s.decoding.Keys <= Live(s.sessions) && |s.decoding| <= |Live(s.sessions)|
  {
    AlwaysSound(path, ttl, slots, events);
    var s := Run(path, ttl, slots, events);
    forall id | id in s.decoding
      ensures id in Live(s.sessions)
    {
      var built, own := SessionsRunOnTheirOwn(path, ttl, slots, events, id);
      EngineMeansHere(built, own);
    }
    SubsetSize(s.decoding.Keys, Live(s.sessions));
  }

  lemma SubsetSize(a: set<nat>, b: set<nat>)
    requires a <= b
    ensures |a| <= |b|
  {
    assert b == a + (b - a);
  }

  // ----- one more client, one more decode -----

  /** `t` is `s` with one more session, which may have a context in hand. */
  predicate Joined(s: Server, t: Server, joined: S.Session, inHand: bool) {
    && t.sessions == s.sessions + [joined]
    && |t.model.sessions| == |s.sessions| + 1
    && InHand(t, |s.sessions|) == inHand
    && t.decoding == s.decoding
  }

  lemma JoinedStep(path: string, s: Server, t: Server, joined: S.Session, inHand: bool, e: S.Event)
    requires Joined(s, t, joined, inHand) && Up(t) && |s.sessions| !in s.decoding
    requires S.Enabled(joined, e) && !RunsDecoder(joined, e) && !e.ReleaseModel? && TakesContext(e) == inHand
    ensures Enabled(t, InSession(|s.sessions|, e))
    ensures Joined(s, Step(path, t, InSession(|s.sessions|, e)), S.Step(joined, e), false)
  {
  }

  function Frame(): S.Event {
    S.Binary(4, [0.0], 0)
  }

  lemma ReadyToEnd()
    ensures var a := S.Step(S.Start(0), S.Config(S.Built, 0));
            var b := S.Step(a, S.Announce);
            var c := S.Step(b, Frame());
            && !a.crashed && !b.crashed && !c.crashed && S.Enabled(S.Start(0), S.Config(S.Built, 0))
            && S.Enabled(a, S.Announce) && S.Enabled(b, Frame())
            && c.receiving == S.Listening && c.configured && S.BufferSize(c) == 1
  {
    var b := S.Step(S.Step(S.Start(0), S.Config(S.Built, 0)), S.Announce);
    assert b.engine == Some(WhisperEngine.FRESH);
    WhisperEngine.CapArithmetic(WhisperEngine.FRESH, [0.0]);
  }

  lemma JoinedUp(s: Server, t: Server, joined: S.Session, inHand: bool)
    requires Up(s) && Joined(s, t, joined, inHand) && !joined.crashed
    ensures Up(t)
  {
  }

  lemma JoinedLive(s: Server, t: Server, joined: S.Session, inHand: bool)
    requires Joined(s, t, joined, inHand) && joined.receiving != S.Gone
    ensures |Live(t.sessions)| == |Live(s.sessions)| + 1
  {
    LiveGrows(s.sessions, joined);
  }

  lemma LiveGrows(sessions: seq<S.Session>, joined: S.Session)
    requires joined.receiving != S.Gone
    ensures Live(sessions + [joined]) == Live(sessions) + {|sessions|}
  {
    assert forall i: nat :: i < |sessions| ==> (sessions + [joined])[i] == sessions[i];
  }

  lemma JoinsByConnecting(path: string, s: Server)
    requires Sound(path, s) && Up(s)
    ensures Joined(s, Step(path, s, Connect(0)), S.Start(0), false) && |s.sessions| !in s.decoding
    ensures Step(path, s, Connect(0)).model.sessions == s.model.sessions + [M.NEW_HOLDER]
  {
  }

  lemma GetsContext(path: string, s: Server, t: Server)
    requires Joined(s, t, S.Start(0), false) && Up(t) && |s.sessions| !in s.decoding
    ensures Joined(s, Step(path, t, Acquire(|s.sessions|, true)), S.Start(0), true)
  {
  }

  /** A client connects and its `config` message gets a context. */
  lemma Joins(path: string, ttl: int, slots: int, events: seq<Event>, clients: nat) returns (more: seq<Event>)
    requires Up(Run(path, ttl, slots, events))
    ensures var s := Run(path, ttl, slots, events);
            && Joined(s, Run(path, ttl, slots, more), S.Start(0), true) && |s.sessions| !in s.decoding
            && GrowsWithin(path, ttl, slots, events, more, clients)
  {
    AlwaysSound(path, ttl, slots, events);
    var s := Run(path, ttl, slots, events);
    var connect, acquire := Connect(0), Acquire(|s.sessions|, true);
    var t := Step(path, s, connect);
    JoinsByConnecting(path, s);
    JoinedUp(s, t, S.Start(0), false);
    JoinedLive(s, t, S.Start(0), false);
    GetsContext(path, s, t);
    RunOne(path, ttl, slots, events, connect, clients);
    RunOne(path, ttl, slots, events + [connect], acquire, clients);
    more := events + [connect] + [acquire];
  }

  lemma RunOne(path: string, ttl: int, slots: int, events: seq<Event>, e: Event, clients: nat)
    ensures Run(path, ttl, slots, events + [e]) == Step(path, Run(path, ttl, slots, events), e)
    ensures NeverMore(path, ttl, slots, events + [e], clients) <==>
            NeverMore(path, ttl, slots, events, clients) &&
            |Live(Run(path, ttl, slots, events + [e]).sessions)| <= clients
  {
    assert (events + [e])[..|events|] == events;
  }

  /** `more` goes on from `events`, and keeps within one client more than there were. */
  ghost predicate GrowsWithin(
      path: string, ttl: int, slots: int, events: seq<Event>, more: seq<Event>, clients: nat)
  {
    && events <= more
    && (NeverMore(path, ttl, slots, events, clients) && |Live(Run(path, ttl, slots, events).sessions)| < clients ==>
          NeverMore(path, ttl, slots, more, clients))
  }

  /** One more event of the session that has joined. */
  lemma Extend(
      path: string, ttl: int, slots: int, start: seq<Event>, events: seq<Event>, joined: S.Session, inHand: bool,
      e: S.Event, clients: nat)
    returns (more: seq<Event>)
    requires var s := Run(path, ttl, slots, start);
             Joined(s, Run(path, ttl, slots, events), joined, inHand) && Up(s) && |s.sessions| !in s.decoding
    requires !joined.crashed && !S.Step(joined, e).crashed && S.Step(joined, e).receiving != S.Gone
    requires S.Enabled(joined, e) && !RunsDecoder(joined, e) && !e.ReleaseModel? && TakesContext(e) == inHand
    requires GrowsWithin(path, ttl, slots, start, events, clients)
    ensures var s, t := Run(path, ttl, slots, start), Run(path, ttl, slots, more);
            Up(t) && Joined(s, t, S.Step(joined, e), false)
    ensures GrowsWithin(path, ttl, slots, start, more, clients)
  {
    var s, u := Run(path, ttl, slots, start), Run(path, ttl, slots, events);
    var step := InSession(|s.sessions|, e);
    JoinedUp(s, u, joined, inHand);
    JoinedStep(path, s, u, joined, inHand, e);
    RunOne(path, ttl, slots, events, step, clients);
    more := events + [step];
    JoinedUp(s, Run(path, ttl, slots, more), S.Step(joined, e), false);
    JoinedLive(s, Run(path, ttl, slots, more), S.Step(joined, e), false);
  }

  lemma Ends(path: string, s: Server, t: Server, joined: S.Session)
    requires Joined(s, t, joined, false) && Up(t) && |s.sessions| !in s.decoding
    requires joined.receiving == S.Listening && joined.configured && S.BufferSize(joined) > 0
    ensures var u := Step(path, t, BeginEnd(|s.sessions|));
            && Up(u) && u.sessions == t.sessions
            && u.decoding.Keys == s.decoding.Keys + {|s.sessions|}
            && Ending(u.decoding) == Ending(s.decoding) + {|s.sessions|}
  {
    assert Enabled(t, BeginEnd(|s.sessions|));
    DecodingBegins(s.decoding, |s.sessions|, Step(path, t, BeginEnd(|s.sessions|)).decoding[|s.sessions|]);
  }

  /** A client that connects, is configured, sends one sample and says `end` adds one decode. */
  lemma OneMoreDecode(path: string, ttl: int, slots: int, events: seq<Event>, clients: nat) returns (more: seq<Event>)
    requires Up(Run(path, ttl, slots, events))
    ensures var s, t := Run(path, ttl, slots, events), Run(path, ttl, slots, more);
            && Up(t) && |Live(t.sessions)| == |Live(s.sessions)| + 1
            && |t.decoding| == |s.decoding| + 1 && |Ending(t.decoding)| == |Ending(s.decoding)| + 1
    ensures GrowsWithin(path, ttl, slots, events, more, clients)
  {
    var s := Run(path, ttl, slots, events);
    ReadyToEnd();
    var a := S.Step(S.Start(0), S.Config(S.Built, 0));
    var b := S.Step(a, S.Announce);
    var joined := S.Step(b, Frame());
    more := Joins(path, ttl, slots, events, clients);
    more := Extend(path, ttl, slots, events, more, S.Start(0), true, S.Config(S.Built, 0), clients);
    more := Extend(path, ttl, slots, events, more, a, false, S.Announce, clients);
    more := Extend(path, ttl, slots, events, more, b, false, Frame(), clients);
    more := Begins(path, ttl, slots, events, more, joined, clients);
  }

  lemma Begins(
      path: string, ttl: int, slots: int, start: seq<Event>, events: seq<Event>, joined: S.Session, clients: nat)
    returns (more: seq<Event>)
    requires var s, t := Run(path, ttl, slots, start), Run(path, ttl, slots, events);
             Joined(s, t, joined, false) && Up(t) && |s.sessions| !in s.decoding
    requires joined.receiving == S.Listening && joined.configured && S.BufferSize(joined) > 0
    requires GrowsWithin(path, ttl, slots, start, events, clients)
    ensures var s, t := Run(path, ttl, slots, start), Run(path, ttl, slots, more);
            && Up(t) && |Live(t.sessions)| == |Live(s.sessions)| + 1
            && |t.decoding| == |s.decoding| + 1 && |Ending(t.decoding)| == |Ending(s.decoding)| + 1
    ensures GrowsWithin(path, ttl, slots, start, more, clients)
  {
    var s, t := Run(path, ttl, slots, start), Run(path, ttl, slots, events);
    var begin := BeginEnd(|s.sessions|);
    Ends(path, s, t, joined);
    JoinedLive(s, t, joined, false);
    RunOne(path, ttl, slots, events, begin, clients);
    more := events + [begin];
    var u := Run(path, ttl, slots, more);
    assert |u.decoding.Keys| == |s.decoding.Keys| + 1;
  }

  /** From every state, any number of further decodes can be under way at once, one for every further client. */
  lemma {:induction false} DecodesExceedMaximum(
      path: string, ttl: int, slots: int, history: seq<Event>, n: nat, clients: nat)
    returns (events: seq<Event>)
    requires Up(Run(path, ttl, slots, history))
    ensures history <= events && Up(Run(path, ttl, slots, events))
    ensures var s, t := Run(path, ttl, slots, history), Run(path, ttl, slots, events);
            && |Ending(t.decoding)| == |Ending(s.decoding)| + n && |t.decoding| == |s.decoding| + n
            && |Live(t.sessions)| == |Live(s.sessions)| + n
            && (NeverMore(path, ttl, slots, history, clients) && |Live(s.sessions)| + n <= clients ==>
                  NeverMore(path, ttl, slots, events, clients))
  {
    events := history;
    if n > 0 {
      var fewer := DecodesExceedMaximum(path, ttl, slots, history, n - 1, clients);
      events := OneMoreDecode(path, ttl, slots, fewer, clients);
    }
  }

  /** The configured maximum is never exceeded while there are never more clients than that. */
  ghost predicate KeepsMaximum(path: string, ttl: int, slots: int, clients: nat) {
    forall events :: NeverMore(path, ttl, slots, events, clients) ==>
      |Run(path, ttl, slots, events).decoding| <= Maximum(slots)
  }

  /**
   The maximum of simultaneous decodes is meant to hold for all of them. It does exactly when no
   more clients are let in at the same time than that, because decodes in `handleEnd` bypass it.
   */
  lemma MaximumKeptIff(path: string, ttl: int, slots: int, clients: nat)
    ensures KeepsMaximum(path, ttl, slots, clients) <==> clients <= Maximum(slots)
  {
    if clients <= Maximum(slots) {
      forall events | NeverMore(path, ttl, slots, events, clients)
        ensures |Run(path, ttl, slots, events).decoding| <= Maximum(slots)
      {
        DecodersAreLive(path, ttl, slots, events);
        WithinNow(path, ttl, slots, events, clients);
      }
    } else {
      StartIsEmpty(path, ttl, slots, clients);
      var events := DecodesExceedMaximum(path, ttl, slots, [], Maximum(slots) + 1, clients);
      assert |Run(path, ttl, slots, events).decoding| > Maximum(slots);
    }
  }

  lemma StartIsEmpty(path: string, ttl: int, slots: int, clients: nat)
    ensures var s := Run(path, ttl, slots, []);
            && Up(s) && |Live(s.sessions)| == 0 && |s.decoding| == 0
            && NeverMore(path, ttl, slots, [], clients)
  {
    assert Live([]) == {};
  }

  lemma WithinNow(path: string, ttl: int, slots: int, events: seq<Event>, clients: nat)
    requires NeverMore(path, ttl, slots, events, clients)
    ensures |Live(Run(path, ttl, slots, events).sessions)| <= clients
  {
  }

  /** With the defaults, eight connections and four decodes, it is not kept. */
  lemma DefaultsExceedMaximum(path: string, ttl: int) returns (events: seq<Event>)
    ensures NeverMore(path, ttl, 4, events, 8) && |Run(path, ttl, 4, events).decoding| == 8
  {
    StartIsEmpty(path, ttl, 4, 8);
    events := DecodesExceedMaximum(path, ttl, 4, [], 8, 8);
  }
}
