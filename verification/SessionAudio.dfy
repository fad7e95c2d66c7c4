/** The engine inside a session: which operations of its history a run of events amounts to. */
module SessionAudio {
  import opened WhisperEngine
  import opened SessionModel
  import opened SessionTranscript
  import opened SessionOverflow
  import opened SessionLedger
  import H = EngineHistory

  /** The engine operation an event amounts to, if any. */
  function EngineOp(s: Session, e: Event): seq<H.Op> {
    if Feeds(s, e) then [H.Chunk(e.pcm)]
    else if FlushOutcome(s, e).Some? then [H.Inference(false, e.decode)]
    else if EndOutcome(s, e).Some? then [H.Inference(true, e.finalDecode)]
    else []
  }

  /** The operations on the current engine, since it was created. */
  ghost function EngineOps(s: Session, events: seq<Event>): seq<H.Op> {
    if events == [] then []
    else
      var init, e := events[..|events| - 1], events[|events| - 1];
      var t := Run(s, init);
      if Configures(t, e) then [] else EngineOps(s, init) + EngineOp(t, e)
  }

  lemma StepIsEngineOp(s: Session, e: Event)
    requires s.engine.Some? && Step(s, e).engine.Some? && !Configures(s, e)
    ensures EngineOp(s, e) == [] ==> Step(s, e).engine == s.engine
    ensures EngineOp(s, e) != [] ==>
              && EngineOp(s, e) == [EngineOp(s, e)[0]]
              && Step(s, e).engine.value == H.Apply(s.engine.value, EngineOp(s, e)[0])
              && |H.Accepted(s.engine.value, EngineOp(s, e)[0])| ==
                 if Feeds(s, e) && !Saturated(s) then |e.pcm| else 0
  {
    if e.Flush? {
      if FlushOutcome(s, e).None? {
        IdleFlush(s, e);
      }
    } else if !e.Binary? && !e.End? {
      LeavesAudio(s, e);
    }
  }

  lemma AppendOp(ops: seq<H.Op>, op: H.Op)
    ensures H.Run(FRESH, ops + [op]) == H.Apply(H.Run(FRESH, ops), op)
    ensures |H.AcceptedAll(FRESH, ops + [op])| == |H.AcceptedAll(FRESH, ops)| + |H.Accepted(H.Run(FRESH, ops), op)|
  {
  }

  lemma StepKeepsEngine(s: Session, e: Event)
    requires s.engine.None? && Step(s, e).engine.Some?
    ensures Configures(s, e) && Step(s, e).engine.value == FRESH
  {
  }

  /**
   In every run of a session its engine is where the operations of the epoch lead, and the
   samples counted as accepted are those of the engine's accepted stream. So everything shown
   about engine histories (tiling, filtering, loudness) holds inside every session.
   */
  lemma {:induction false} SessionDrivesEngine(built: int, events: seq<Event>)
    requires Run(Start(built), events).engine.Some?
    ensures var ops := EngineOps(Start(built), events);
            && Run(Start(built), events).engine.value == H.Run(FRESH, ops)
            && LedgerOf(Start(built), events).accepted == |H.AcceptedAll(FRESH, ops)|
            && H.Tiled(ops)
  {
    if events != [] {
      var init, e := events[..|events| - 1], events[|events| - 1];
      var s := Run(Start(built), init);
      if s.engine.None? {
        StepKeepsEngine(s, e);
      } else if !Configures(s, e) {
        SessionDrivesEngine(built, init);
        StepIsEngineOp(s, e);
        var ops := EngineOps(Start(built), init);
        if EngineOp(s, e) == [] {
          assert ops + [] == ops;
        } else {
          AppendOp(ops, EngineOp(s, e)[0]);
        }
      }
    }
    H.AudioIsTiled(EngineOps(Start(built), events));
  }
}
