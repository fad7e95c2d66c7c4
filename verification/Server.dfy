/**
 The whole server: any number of complete sessions, both threads of each, sharing one model
 through the cache and the decoder through the limiter, while timer threads and the clock run.
 A decode takes time: it begins and ends in two events, and everything that does not need the
 session's lock goes on in between.
 */
module Server {
  import opened Common
  import WhisperEngine
  import L = InferenceLimiter
  import R = RateWindow
  import S = SessionModel
  import T = SessionTranscript
  import M = ModelSharing

  /**
   A decode under way: in the flush thread or, forced, in `handleEnd`; the context it works on, and
   the engine as it was when the decode began.
   */
  datatype Decoding = Decoding(flush: bool, now: int, context: Option<nat>, engine: Option<WhisperEngine.EngineState>)

  /** The `i`-th holder of the sharing model is what the `i`-th session holds of the model. */
  datatype Server = Server(
    model: M.System,
    sessions: seq<S.Session>,
    decoding: map<nat, Decoding>,
    limiter: L.LimiterState)

  datatype Event =
    | Connect(now: int)
    | Acquire(id: nat, loads: bool)
    | InSession(id: nat, event: S.Event)
    | BeginFlush(id: nat, now: int)
    | BeginEnd(id: nat)
    | EndDecode(id: nat, answer: WhisperEngine.Decode)
    | TimerFires(timer: nat)
    | Tick(seconds: nat)

  /** Configuring reaches its critical section only with a context in hand. */
  predicate TakesContext(e: S.Event) {
    e.Config? && (e.outcome.NoEngine? || e.outcome.Built?)
  }

  predicate FlushThread(e: S.Event) {
    e.Flush? || e.SendPartial? || e.ConnectionLost?
  }

  /** The event needs the lock that a decode holds from its begin to its end. */
  predicate TakesLock(s: S.Session, e: S.Event) {
    match e
    case Config(_, _) => TakesContext(e)
    case Binary(bytes, _, now) => S.Valid(s, bytes) && R.Admit(s.window, R.Frame(now, bytes)).Some?
    case End(_) => s.configured
    case ReleaseModel => true
    case Flush(_, _, _) => true
    case _ => false
  }

  /** The event is one that the thread inside the decoder would have to make. */
  predicate OfThread(d: Decoding, e: S.Event) {
    if d.flush then e.Flush? || e.SendPartial? else !FlushThread(e)
  }

  /** The event keeps the decoder busy, so it is split into a begin and an end. */
  predicate RunsDecoder(s: S.Session, e: S.Event) {
    || (e.Flush? && S.Infers(s, e.now, e.capacity))
    || (e.End? && s.configured && S.BufferSize(s) > 0)
  }

  /** The session event that a decode amounts to, given the answer. */
  function Completion(d: Decoding, answer: WhisperEngine.Decode): S.Event {
    if d.flush then S.Flush(d.now, true, answer) else S.End(answer)
  }

  /** An exception in one flush thread ends the process, and with it every session. */
  predicate Up(s: Server) {
    forall i :: 0 <= i < |s.sessions| ==> !s.sessions[i].crashed
  }

  predicate InHand(s: Server, id: nat) {
    id < |s.model.sessions| && s.model.sessions[id].inHand.Some?
  }

  function ContextOf(s: Server, id: nat): Option<nat> {
    if id < |s.model.sessions| then s.model.sessions[id].engine else None
  }

  predicate SessionMay(s: Server, id: nat, e: S.Event)
    requires id < |s.sessions|
  {
    && S.Enabled(s.sessions[id], e)
    && !RunsDecoder(s.sessions[id], e)
    && (TakesContext(e) ==> InHand(s, id))
    && (InHand(s, id) ==> TakesContext(e) || FlushThread(e))
    && (id in s.decoding ==> !TakesLock(s.sessions[id], e) && !OfThread(s.decoding[id], e))
  }

  predicate Enabled(s: Server, e: Event) {
    Up(s) &&
    match e
    case Connect(_) => true
    case Acquire(id, _) =>
      && id < |s.sessions| && s.sessions[id].receiving == S.Listening && !InHand(s, id)
      && (id in s.decoding ==> s.decoding[id].flush)
    case InSession(id, event) => id < |s.sessions| && SessionMay(s, id, event)
    case BeginFlush(id, now) =>
      && id < |s.sessions| && id !in s.decoding
      && s.sessions[id].sending.None? && S.Infers(s.sessions[id], now, true)
      && s.limiter.active < s.limiter.limit
    case BeginEnd(id) =>
      && id < |s.sessions| && id !in s.decoding && !InHand(s, id)
      && s.sessions[id].receiving == S.Listening && s.sessions[id].configured && S.BufferSize(s.sessions[id]) > 0
    case EndDecode(id, _) => id < |s.sessions| && id in s.decoding
    case TimerFires(i) => true
    case Tick(_) => true
  }

  /** The part of a server event that concerns the model, if any. */
  function ModelEvent(e: Event): Option<M.Event> {
    match e
    case Connect(_) => Some(M.Open)
    case Acquire(id, loads) => Some(M.AcquireModel(id, loads))
    case InSession(id, event) =>
      if TakesContext(event) then Some(M.InstallEngine(id, event.outcome.Built?))
      else if event.ReleaseModel? then Some(M.ReleaseModel(id))
      else None
    case BeginFlush(_, _) => None
    case BeginEnd(_) => None
    case EndDecode(_, _) => None
    case TimerFires(i) => Some(M.TimerFires(i))
    case Tick(seconds) => Some(M.Tick(seconds))
  }

  /** What a session event does to the session it belongs to. */
  ghost function SessionsAfter(s: Server, e: Event): seq<S.Session>
    requires Enabled(s, e)
  {
    match e
    case Connect(now) => s.sessions + [S.Start(now)]
    case InSession(id, event) => s.sessions[id := S.Step(s.sessions[id], event)]
    case EndDecode(id, answer) => s.sessions[id := S.Step(s.sessions[id], Completion(s.decoding[id], answer))]
    case _ => s.sessions
  }

  /** The end of a decode gives the slot back, unless the exception that leaves it ends the process. */
  ghost function Finished(s: Server, id: nat, answer: WhisperEngine.Decode): Server
    requires id in s.decoding
  {
    if !s.decoding[id].flush then s.(decoding := s.decoding - {id})
    else if answer.Failed? then s
    else s.(decoding := s.decoding - {id}, limiter := L.Step(s.limiter, L.Release(id, 0)))
  }

  ghost function Step(path: string, s: Server, e: Event): Server {
    if !Enabled(s, e) then s
    else
      var sessions := SessionsAfter(s, e);
      match e
      case BeginFlush(id, now) =>
        s.(decoding := s.decoding[id := Decoding(true, now, ContextOf(s, id), s.sessions[id].engine)],
           limiter := L.Step(s.limiter, L.TryAcquire(id)))
      case BeginEnd(id) =>
        s.(decoding := s.decoding[id := Decoding(false, 0, ContextOf(s, id), s.sessions[id].engine)])
      case EndDecode(id, answer) => Finished(s, id, answer).(sessions := sessions)
      case _ =>
        s.(model := if ModelEvent(e).Some? then M.Step(path, s.model, ModelEvent(e).value) else s.model,
           sessions := sessions)
  }

  /** `slots` is the configured maximum of simultaneous decodes. */
  function Start(ttl: int, slots: int): Server {
    Server(M.Start(ttl), [], map[], L.Step(L.INITIAL, L.SetLimit(slots)))
  }

  ghost function Run(path: string, ttl: int, slots: int, events: seq<Event>): Server {
    if events == [] then Start(ttl, slots)
    else Step(path, Run(path, ttl, slots, events[..|events| - 1]), events[|events| - 1])
  }

  // ----- sessions and holders agree -----

  predicate Matches(s: S.Session, h: M.Holder) {
    s.acquired == h.acquired && s.engine.Some? == h.engine.Some?
  }

  ghost predicate Agrees(path: string, s: Server) {
    && M.Safe(path, s.model)
    && |s.sessions| == |s.model.sessions|
    && forall i :: 0 <= i < |s.sessions| ==> Matches(s.sessions[i], s.model.sessions[i])
  }

  /** What one event of a session does to its hold on the model. */
  lemma SessionStep(s: S.Session, e: S.Event)
    requires S.Enabled(s, e)
    ensures var s' := S.Step(s, e);
            && s'.acquired == (!e.ReleaseModel? && (s.acquired || TakesContext(e)))
            && s'.engine.Some? ==
               (!(e.ReleaseModel? && s.acquired) && (s.engine.Some? || (e.Config? && e.outcome.Built?)))
  {
    if e.Flush? && T.FlushOutcome(s, e).None? {
      T.IdleFlush(s, e);
    }
  }

  lemma HolderStep(path: string, s: Server, id: nat, e: S.Event)
    requires Agrees(path, s) && Enabled(s, InSession(id, e))
    ensures var m := Step(path, s, InSession(id, e)).model;
            && |m.sessions| == |s.model.sessions|
            && Matches(S.Step(s.sessions[id], e), m.sessions[id])
            && forall i :: 0 <= i < |s.sessions| && i != id ==> m.sessions[i] == s.model.sessions[i]
  {
    SessionStep(s.sessions[id], e);
  }

  /** Events that concern only the model, as far as sessions and holders go. */
  lemma ModelStep(path: string, m: M.System, e: M.Event)
    requires e.AcquireModel? || e.TimerFires? || e.Tick?
    ensures var m' := M.Step(path, m, e);
            && |m'.sessions| == |m.sessions|
            && forall i :: 0 <= i < |m.sessions| ==>
                 m'.sessions[i].acquired == m.sessions[i].acquired && m'.sessions[i].engine == m.sessions[i].engine
  {
  }

  lemma InSessionAgrees(path: string, s: Server, id: nat, e: S.Event)
    requires Agrees(path, s) && Enabled(s, InSession(id, e))
    ensures Agrees(path, Step(path, s, InSession(id, e)))
  {
    HolderStep(path, s, id, e);
    if ModelEvent(InSession(id, e)).Some? {
      M.StepIsSafe(path, s.model, ModelEvent(InSession(id, e)).value);
    }
  }

  lemma EndAgrees(path: string, s: Server, id: nat, answer: WhisperEngine.Decode)
    requires Agrees(path, s) && Pending(s) && Enabled(s, EndDecode(id, answer))
    ensures Agrees(path, Step(path, s, EndDecode(id, answer)))
  {
    assert CanEnd(s.sessions[id], s.decoding[id]);
    SessionStep(s.sessions[id], Completion(s.decoding[id], answer));
  }

  lemma BeginAgrees(path: string, s: Server, e: Event)
    requires Agrees(path, s) && (e.BeginFlush? || e.BeginEnd?)
    ensures Agrees(path, Step(path, s, e))
  {
  }

  lemma ModelAgrees(path: string, s: Server, e: Event)
    requires Agrees(path, s) && Enabled(s, e)
    requires e.Connect? || e.Acquire? || e.TimerFires? || e.Tick?
    ensures Agrees(path, Step(path, s, e))
  {
    M.StepIsSafe(path, s.model, ModelEvent(e).value);
    if !e.Connect? {
      ModelStep(path, s.model, ModelEvent(e).value);
    }
  }

  lemma StepAgrees(path: string, s: Server, e: Event)
    requires Agrees(path, s) && Pending(s)
    ensures Agrees(path, Step(path, s, e))
  {
    if Enabled(s, e) {
      match e
      case InSession(id, event) => InSessionAgrees(path, s, id, event);
      case EndDecode(id, answer) => EndAgrees(path, s, id, answer);
      case BeginFlush(_, _) => BeginAgrees(path, s, e);
      case BeginEnd(_) => BeginAgrees(path, s, e);
      case _ => ModelAgrees(path, s, e);
    }
  }

  // ----- decodes under way -----

  /** The decode can end at any time, with any answer, and nothing has changed what it will then do. */
  ghost predicate CanEnd(s: S.Session, d: Decoding) {
    forall answer :: S.Enabled(s, Completion(d, answer)) && RunsDecoder(s, Completion(d, answer))
  }

  ghost predicate Pending(s: Server) {
    forall id :: id in s.decoding ==>
      && id < |s.sessions| && s.sessions[id].engine.Some?
      && s.decoding[id].context == ContextOf(s, id)
      && s.decoding[id].engine == s.sessions[id].engine
      && (!s.sessions[id].crashed ==> CanEnd(s.sessions[id], s.decoding[id]))
  }

  /** An event outside the lock, not of the decoding thread, leaves the decode as it was. */
  lemma OutsideTheLock(s: S.Session, d: Decoding, e: S.Event)
    requires S.Enabled(s, e) && !TakesLock(s, e) && !OfThread(d, e)
    requires s.engine.Some? && CanEnd(s, d)
    ensures var s' := S.Step(s, e);
            s'.engine == s.engine && CanEnd(s', d)
  {
    var s' := S.Step(s, e);
    var any := WhisperEngine.Failed(0);
    assert S.Enabled(s, Completion(d, any)) && RunsDecoder(s, Completion(d, any));
    if S.Minor(e) {
      S.MinorStep(s, e);
    } else if e.Binary? {
      RefusedFrame(s, e);
    }
    forall answer
      ensures S.Enabled(s', Completion(d, answer)) && RunsDecoder(s', Completion(d, answer))
    {
    }
  }

  /** A frame that never reaches the lock. */
  lemma RefusedFrame(s: S.Session, e: S.Event)
    requires S.Enabled(s, e) && e.Binary? && !TakesLock(s, e)
    ensures var s' := S.Step(s, e);
            && s'.engine == s.engine && s'.configured == s.configured && s'.lastTranscribed == s.lastTranscribed
            && s'.lastAudio == s.lastAudio && s'.crashed == s.crashed && s'.sending == s.sending
  {
  }

  lemma BegunCanEnd(s: S.Session, d: Decoding)
    requires !s.crashed && s.engine.Some?
    requires if d.flush then s.sending.None? && S.Infers(s, d.now, true)
             else s.receiving == S.Listening && s.configured && S.BufferSize(s) > 0
    ensures CanEnd(s, d)
  {
  }

  lemma InSessionIsPending(path: string, s: Server, id: nat, e: S.Event)
    requires Agrees(path, s) && Pending(s) && Enabled(s, InSession(id, e))
    ensures Pending(Step(path, s, InSession(id, e)))
  {
    var s' := Step(path, s, InSession(id, e));
    HolderStep(path, s, id, e);
    if id in s.decoding {
      OutsideTheLock(s.sessions[id], s.decoding[id], e);
      assert !TakesContext(e) && !e.ReleaseModel?;
      assert ContextOf(s', id) == ContextOf(s, id);
    }
    forall other | other in s'.decoding && other != id
      ensures other < |s'.sessions| && s'.sessions[other] == s.sessions[other]
      ensures ContextOf(s', other) == ContextOf(s, other)
    {
      assert other < |s.sessions|;
    }
  }

  lemma EndIsPending(path: string, s: Server, id: nat, answer: WhisperEngine.Decode)
    requires Agrees(path, s) && Pending(s) && Enabled(s, EndDecode(id, answer))
    ensures Pending(Step(path, s, EndDecode(id, answer)))
  {
    var s' := Step(path, s, EndDecode(id, answer));
    assert CanEnd(s.sessions[id], s.decoding[id]);
    assert id in s'.decoding ==> s'.sessions[id].crashed;
    SessionStep(s.sessions[id], Completion(s.decoding[id], answer));
  }

  /** Nothing but the model moves, or a session joins. */
  lemma ModelIsPending(path: string, s: Server, e: Event)
    requires Agrees(path, s) && Pending(s) && Enabled(s, e)
    requires e.Connect? || e.Acquire? || e.TimerFires? || e.Tick?
    ensures Pending(Step(path, s, e))
  {
    var s' := Step(path, s, e);
    if !e.Connect? {
      ModelStep(path, s.model, ModelEvent(e).value);
    }
    forall id | id in s.decoding
      ensures id < |s'.sessions| && s'.sessions[id] == s.sessions[id] && ContextOf(s', id) == ContextOf(s, id)
    {
    }
  }

  lemma BeginIsPending(path: string, s: Server, e: Event)
    requires Agrees(path, s) && Pending(s) && Enabled(s, e)
    requires e.BeginFlush? || e.BeginEnd?
    ensures Pending(Step(path, s, e))
  {
    var s' := Step(path, s, e);
    BegunCanEnd(s.sessions[e.id], s'.decoding[e.id]);
  }

  lemma StepIsPending(path: string, s: Server, e: Event)
    requires Agrees(path, s) && Pending(s)
    ensures Pending(Step(path, s, e))
  {
    if Enabled(s, e) {
      if e.InSession? {
        InSessionIsPending(path, s, e.id, e.event);
      } else if e.BeginFlush? || e.BeginEnd? {
        BeginIsPending(path, s, e);
      } else if e.EndDecode? {
        EndIsPending(path, s, e.id, e.answer);
      } else {
        ModelIsPending(path, s, e);
      }
    }
  }

  ghost predicate Sound(path: string, s: Server) {
    Agrees(path, s) && Pending(s) && Slots(s)
  }

  lemma {:induction false} AlwaysSound(path: string, ttl: int, slots: int, events: seq<Event>)
    ensures Sound(path, Run(path, ttl, slots, events))
  {
    if events != [] {
      var s, e := Run(path, ttl, slots, events[..|events| - 1]), events[|events| - 1];
      AlwaysSound(path, ttl, slots, events[..|events| - 1]);
      StepAgrees(path, s, e);
      StepIsPending(path, s, e);
      StepKeepsSlots(path, s, e);
    }
  }

  /**
   In every interleaving of any number of sessions, of both threads of each, with re-configurations,
   failed loads, releases and timers: from the begin to the end of every decode, the context it
   began on is the one that is loaded, referenced, and the one that its session holds.
   */
  lemma DecodersUseLoadedModel(path: string, ttl: int, slots: int, events: seq<Event>)
    ensures var s := Run(path, ttl, slots, events);
            forall id :: id in s.decoding ==>
              && s.decoding[id].context.Some?
              && s.decoding[id].context == s.model.cache.context == ContextOf(s, id)
              && s.model.cache.refs > 0
  {
    AlwaysSound(path, ttl, slots, events);
    var s := Run(path, ttl, slots, events);
    forall id | id in s.decoding
      ensures s.decoding[id].context.Some? && s.decoding[id].context == s.model.cache.context && s.model.cache.refs > 0
    {
      assert Matches(s.sessions[id], s.model.sessions[id]);
      assert M.Fresh(s.model.cache, s.model.sessions[id]);
      M.SomebodyHolds(s.model, id);
    }
  }

  /**
   Whatever else happens before it ends, a decode can end with any answer, and it works on the very
   audio that was there when it began: the engine afterwards is what the answer makes of that.
   */
  lemma DecodesCanEnd(path: string, ttl: int, slots: int, events: seq<Event>, id: nat, answer: WhisperEngine.Decode)
    requires var s := Run(path, ttl, slots, events); id in s.decoding && Up(s)
    ensures var s := Run(path, ttl, slots, events);
            var d := s.decoding[id];
            && Enabled(s, EndDecode(id, answer))
            && d.engine.Some? && s.sessions[id].engine == d.engine
            && Step(path, s, EndDecode(id, answer)).sessions[id].engine ==
               Some(WhisperEngine.Transcribe(d.engine.value, !d.flush, answer).0)
  {
    AlwaysSound(path, ttl, slots, events);
    var s := Run(path, ttl, slots, events);
    assert CanEnd(s.sessions[id], s.decoding[id]);
    CompletionTranscribes(s.sessions[id], s.decoding[id], answer);
  }

  lemma CompletionTranscribes(s: S.Session, d: Decoding, answer: WhisperEngine.Decode)
    requires s.engine.Some? && S.Enabled(s, Completion(d, answer)) && RunsDecoder(s, Completion(d, answer))
    ensures S.Step(s, Completion(d, answer)).engine ==
            Some(WhisperEngine.Transcribe(s.engine.value, !d.flush, answer).0)
  {
  }

  ghost predicate NoEndOf(events: seq<Event>, id: nat) {
    forall e :: e in events ==> !(e.EndDecode? && e.id == id)
  }

  /** What a decode began with is remembered until it ends. */
  lemma {:induction false} DecodingLasts(
      path: string, ttl: int, slots: int, events: seq<Event>, more: seq<Event>, id: nat)
    requires id in Run(path, ttl, slots, events).decoding && NoEndOf(more, id)
    ensures id in Run(path, ttl, slots, events + more).decoding
    ensures Run(path, ttl, slots, events + more).decoding[id] == Run(path, ttl, slots, events).decoding[id]
  {
    if more == [] {
      assert events + more == events;
    } else {
      var init, e := more[..|more| - 1], more[|more| - 1];
      assert e in more && forall e :: e in init ==> e in more;
      DecodingLasts(path, ttl, slots, events, init, id);
      assert (events + more)[..|events + more| - 1] == events + init;
    }
  }

  // ----- how many decodes at once -----

  /** The sessions whose flush thread, or whose `handleEnd`, is inside the decoder. */
  function Flushing(decoding: map<nat, Decoding>): set<nat> {
    set id | id in decoding && decoding[id].flush
  }

  function Ending(decoding: map<nat, Decoding>): set<nat> {
    set id | id in decoding && !decoding[id].flush
  }

  ghost predicate Slots(s: Server) {
    s.limiter.holders == Flushing(s.decoding) && Calm(s.limiter)
  }

  /** Nobody ever blocks on the limiter, and the maximum is kept. */
  ghost predicate Calm(l: L.LimiterState) {
    l.sleeping == {} && l.woken == {} && L.Counted(l) && l.active <= l.limit
  }

  lemma SlotTaken(l: L.LimiterState, id: nat)
    requires Calm(l) && l.active < l.limit && id !in l.holders
    ensures var l' := L.Step(l, L.TryAcquire(id));
            Calm(l') && l'.holders == l.holders + {id} && l'.limit == l.limit
  {
  }

  lemma SlotReturned(l: L.LimiterState, id: nat)
    requires Calm(l) && id in l.holders
    ensures var l' := L.Step(l, L.Release(id, 0));
            Calm(l') && l'.holders == l.holders - {id} && l'.limit == l.limit
  {
  }

  lemma DecodingBegins(decoding: map<nat, Decoding>, id: nat, d: Decoding)
    requires id !in decoding
    ensures Flushing(decoding[id := d]) == if d.flush then Flushing(decoding) + {id} else Flushing(decoding)
    ensures Ending(decoding[id := d]) == if d.flush then Ending(decoding) else Ending(decoding) + {id}
  {
  }

  lemma DecodingEnds(decoding: map<nat, Decoding>, id: nat)
    requires id in decoding
    ensures Flushing(decoding - {id}) == if decoding[id].flush then Flushing(decoding) - {id} else Flushing(decoding)
    ensures id in Flushing(decoding) <==> decoding[id].flush
  {
  }

  lemma BeginKeepsSlots(path: string, s: Server, e: Event)
    requires Slots(s) && Enabled(s, e) && (e.BeginFlush? || e.BeginEnd?)
    ensures Slots(Step(path, s, e)) && Step(path, s, e).limiter.limit == s.limiter.limit
  {
    DecodingBegins(s.decoding, e.id, Step(path, s, e).decoding[e.id]);
    if e.BeginFlush? {
      SlotTaken(s.limiter, e.id);
    }
  }

  lemma EndKeepsSlots(s: Server, id: nat, answer: WhisperEngine.Decode)
    requires Slots(s) && id in s.decoding
    ensures Slots(Finished(s, id, answer)) && Finished(s, id, answer).limiter.limit == s.limiter.limit
  {
    DecodingEnds(s.decoding, id);
    if s.decoding[id].flush {
      SlotReturned(s.limiter, id);
    }
  }

  lemma StepKeepsSlots(path: string, s: Server, e: Event)
    requires Slots(s)
    ensures Slots(Step(path, s, e)) && Step(path, s, e).limiter.limit == s.limiter.limit
  {
    if Enabled(s, e) {
      if e.BeginFlush? || e.BeginEnd? {
        BeginKeepsSlots(path, s, e);
      } else if e.EndDecode? {
        EndKeepsSlots(s, e.id, e.answer);
      }
    }
  }

  lemma {:induction false} LimitIsFixed(path: string, ttl: int, slots: int, events: seq<Event>)
    ensures Run(path, ttl, slots, events).limiter.limit == if slots > 0 then slots else L.DEFAULT_LIMIT
  {
    if events != [] {
      LimitIsFixed(path, ttl, slots, events[..|events| - 1]);
      AlwaysSound(path, ttl, slots, events[..|events| - 1]);
      StepKeepsSlots(path, Run(path, ttl, slots, events[..|events| - 1]), events[|events| - 1]);
    }
  }

  /**
   The maximum of simultaneous decodes holds for the flush threads alone. Sessions inside
   `handleEnd` come on top, so the maximum is kept exactly while they fit what the others leave.
   */
  lemma DecodesAreLimited(path: string, ttl: int, slots: int, events: seq<Event>)
    ensures var s, limit := Run(path, ttl, slots, events), if slots > 0 then slots else L.DEFAULT_LIMIT;
            && |Flushing(s.decoding)| == s.limiter.active <= limit
            && |s.decoding| == |Flushing(s.decoding)| + |Ending(s.decoding)|
            && |s.decoding| <= limit + |Ending(s.decoding)|
            && |s.decoding| <= |s.sessions|
  {
    AlwaysSound(path, ttl, slots, events);
    LimitIsFixed(path, ttl, slots, events);
    var s := Run(path, ttl, slots, events);
    assert s.decoding.Keys == Flushing(s.decoding) + Ending(s.decoding);
    Below(s.decoding.Keys, |s.sessions|);
  }

  lemma {:induction false} Below(ids: set<nat>, n: nat)
    requires forall id :: id in ids ==> id < n
    ensures |ids| <= n
  {
    if n > 0 {
      Below(ids - {n - 1}, n - 1);
    } else {
      assert ids == {};
    }
  }

  // ----- each session by itself -----

  /**
   Seen alone, every session of a server run is a run of the session machine, so what holds of
   all session runs (transcripts, message order, warnings, costs, rate) holds in the server.
   */
  lemma {:induction false} SessionsRunOnTheirOwn(path: string, ttl: int, slots: int, events: seq<Event>, id: nat)
    returns (built: int, own: seq<S.Event>)
    requires id < |Run(path, ttl, slots, events).sessions|
    ensures Run(path, ttl, slots, events).sessions[id] == S.Run(S.Start(built), own)
  {
    var before, e := Run(path, ttl, slots, events[..|events| - 1]), events[|events| - 1];
    if id < |before.sessions| {
      built, own := SessionsRunOnTheirOwn(path, ttl, slots, events[..|events| - 1], id);
      if Enabled(before, e) && e.InSession? && e.id == id {
        S.RunOne(S.Start(built), own, e.event);
        own := own + [e.event];
      } else if Enabled(before, e) && e.EndDecode? && e.id == id {
        var event := Completion(before.decoding[id], e.answer);
        S.RunOne(S.Start(built), own, event);
        own := own + [event];
      }
    } else {
      built, own := e.now, [];
    }
  }
}
