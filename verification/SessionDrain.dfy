/** Whether a saturated buffer can ever drain, so that audio is taken again. */
module SessionDrain {
  import opened Common
  import opened WhisperEngine
  import opened SessionModel
  import opened SessionTranscript
  import opened SessionOverflow
  import opened SessionLedger
  import opened SessionAftermath

  /** The events with which a client starts anew or ends, and the loss of the model. */
  predicate Restarts(e: Event) {
    (e.Config? && e.outcome.Built?) || e.End? || e.ReleaseModel?
  }

  ghost predicate NoRestart(events: seq<Event>) {
    forall e :: e in events ==> !Restarts(e)
  }

  /** All audio is recorded as decoded, and there is no room for more. */
  predicate Stuck(s: Session) {
    Saturated(s) && s.lastTranscribed == BufferSize(s)
  }

  lemma StuckStep(s: Session, e: Event)
    requires Stuck(s) && !Restarts(e)
    ensures Stuck(Step(s, e)) && Step(s, e).engine == s.engine
  {
    if Minor(e) {
      MinorStep(s, e);
    } else if e.Binary? {
      DroppedFrame(s, e);
    } else {
      IdleFlush(s, e);
    }
  }

  lemma DroppedFrame(s: Session, e: Event)
    requires Saturated(s) && e.Binary?
    ensures Step(s, e).engine == s.engine && Step(s, e).lastTranscribed == s.lastTranscribed
  {
  }

  /** A stuck session stays stuck: every frame that still reaches the engine is dropped. */
  lemma {:induction false} StuckForEver(s: Session, events: seq<Event>)
    requires Stuck(s) && NoRestart(events)
    ensures var t := Run(s, events);
            Stuck(t) && t.engine == s.engine && forall e :: Feeds(t, e) ==> Drops(t, e)
  {
    if events != [] {
      var init, e := events[..|events| - 1], events[|events| - 1];
      assert e in events;
      StuckForEver(s, init);
      StuckStep(Run(s, init), e);
    }
  }

  /** An answer that takes an `n`-sample buffer below the high-water mark. */
  function Draining(n: nat): Decode
    requires n >= HIGH_WATER_MARK
  {
    Decoded([Segment((n - HIGH_WATER_MARK) / TICK + 1, Some("x"))])
  }

  lemma DrainingErases(s: EngineState)
    requires HIGH_WATER_MARK <= |s.buffer|
    ensures |Transcribe(s, false, Draining(|s.buffer|)).0.buffer| < HIGH_WATER_MARK
  {
    var n := |s.buffer|;
    var segments := Draining(n).segments;
    assert EndsBefore(segments, OverlapBound(n), 0);
    assert ChooseCut(n, false, segments) == Cut(1, segments[0].t1);
    assert segments[0].t1 * TICK > n - HIGH_WATER_MARK;
  }

  ghost predicate Drains(s: Session, events: seq<Event>) {
    NoRestart(events) && Run(s, events).engine.Some? && !Saturated(Run(s, events))
  }

  ghost predicate MayDrain(s: Session) {
    exists events :: Drains(s, events)
  }

  lemma CycleDrains(s: Session)
    requires Saturated(s) && Capped(s) && Unread(s) && s.sending.None?
    ensures var t := Step(s, Flush(Later(s), true, Draining(BufferSize(s))));
            t.engine.Some? && !Saturated(t)
  {
    InfersIffUnread(s);
    DrainingErases(s.engine.value);
    var (engine, outcome) := Transcribe(s.engine.value, false, Draining(BufferSize(s)));
    assert Step(s, Flush(Later(s), true, Draining(BufferSize(s)))) ==
           Absorb(s, engine, outcome.partial, outcome.committed);
  }

  /**
   Chunks are documented to be dropped until the buffer drains. Short of a new configuration or
   the end of the session, a saturated buffer can drain exactly when the recorded size differs
   from its own; otherwise the flush thread sees nothing new, and every frame is dropped for ever.
   */
  lemma MayDrainIff(s: Session)
    requires Saturated(s) && Capped(s) && s.configured && !s.crashed
    ensures MayDrain(s) <==> s.lastTranscribed != BufferSize(s)
  {
    if s.lastTranscribed == BufferSize(s) {
      if events :| Drains(s, events) {
        StuckForEver(s, events);
        assert false;
      }
    } else {
      var flush := Flush(Later(s), true, Draining(BufferSize(s)));
      if s.sending.Some? {
        PendingSent(s);
        CycleDrains(Step(s, SendPartial));
        RunOne(s, [], SendPartial);
        RunOne(s, [] + [SendPartial], flush);
        assert Drains(s, [] + [SendPartial] + [flush]);
      } else {
        CycleDrains(s);
        RunOne(s, [], flush);
        assert Drains(s, [] + [flush]);
      }
    }
  }

  /**
   A saturated session has one decode to get out: if that leaves the buffer saturated, the session
   is stuck, exactly unless segments without text were committed up to a positive tick.
   */
  lemma OneChance(s: Session, e: Event)
    requires Saturated(s) && FlushOutcome(s, e).Some? && FlushOutcome(s, e).value.Transcript?
    requires Saturated(Step(s, e))
    ensures Stuck(Step(s, e)) <==> !Textless(BufferSize(s), e.decode.segments)
  {
    BacklogNegativeIff(s, e);
  }

  /** A decode that erases nothing is enough. */
  lemma IdleDecodeSticks(s: Session, now: int, d: Decode)
    requires Saturated(s) && !s.crashed && s.sending.None? && Infers(s, now, true)
    requires d.Decoded? && |Transcribe(s.engine.value, false, d).0.buffer| == BufferSize(s)
    ensures var t := Step(s, Flush(now, true, d));
            && Stuck(t) && !t.crashed && t.configured && t.open == s.open && t.receiving == s.receiving
            && BufferSize(t) == BufferSize(s)
  {
    var e := Flush(now, true, d);
    FlushEngine(s, e);
    BacklogNegativeIff(s, e);
  }

  /** So is a decoder that hears nothing. */
  lemma NothingHeard(s: EngineState)
    requires s.buffer != []
    ensures |Transcribe(s, false, Decoded([])).0.buffer| == |s.buffer|
  {
  }
}
