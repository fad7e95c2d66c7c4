/**
 What each event of a session does, in plain numbers and texts: which frames are heard, when the
 flush thread decodes, what becomes of the two transcripts. The other theorems about sessions
 rest on these events; here their meaning is stated without the functions that compute it.
 */
module SessionEffects {
  import opened Common
  import opened WhisperEngine
  import opened AudioPreprocessor
  import opened HallucinationGuard
  import opened SessionModel
  import opened SessionOverflow
  import opened SessionLedger
  import R = RateWindow

  // ----- configuration -----

  /** Success starts an epoch: new engine, empty transcripts, no audio recorded as decoded. */
  lemma ConfiguredEffect(s: Session, now: int)
    requires s.receiving == Listening && !s.crashed
    ensures var t := Step(s, Config(Built, now));
            && t.configured && t.acquired
            && t.engine == Some(EngineState([], FilterState(0.0, 0.0)))
            && t.lastTranscribed == 0 && t.full == "" && t.raw == "" && t.lastAudio == now
            && t.overflowed == s.overflowed && t.window == s.window && t.sending == s.sending
            && t.receiving == Announcing && t.open == s.open && t.sent == s.sent && !t.crashed
  {
  }

  /** Failure is reported, takes a reference only if a context was there, and closes only if refused. */
  lemma ConfigFailedEffect(s: Session, outcome: ConfigOutcome, now: int)
    requires s.receiving == Listening && !s.crashed && !outcome.Built?
    ensures var t := Step(s, Config(outcome, now));
            && SameCore(s, t) && t.sending == s.sending
            && t.acquired == (s.acquired || outcome.NoEngine?)
            && t.sent == (if s.open then s.sent + [Error(if outcome.Refused? then outcome.code else "CONFIG_ERROR")]
                          else s.sent)
            && t.open == (s.open && !outcome.Refused?)
            && t.receiving == (if outcome.Refused? then Leaving else Listening)
  {
  }

  // ----- frames -----

  /** A frame that counts: after configuration, of whole samples, at least one and at most a megabyte. */
  predicate Counted(s: Session, bytes: nat) {
    s.configured && 4 <= bytes <= 1048576 && bytes % 4 == 0
  }

  /** A frame that counts and does not close the connection for its rate. */
  predicate Heard(s: Session, bytes: nat, now: int) {
    Counted(s, bytes) && (now - s.window.start < 3000000000 || s.window.bytes + bytes <= 614400)
  }

  /** Who is told what, who is cut off, and what the byte window becomes. */
  lemma FrameEffect(s: Session, bytes: nat, pcm: seq<real>, now: int)
    requires Enabled(s, Binary(bytes, pcm, now))
    ensures var t := Step(s, Binary(bytes, pcm, now));
            && (t.receiving == Leaving <==> bytes > 1048576 || (Counted(s, bytes) && !Heard(s, bytes, now)))
            && t.open == (s.open && t.receiving != Leaving)
            && t.sent == (if s.open && 4 <= bytes <= 1048576 && !s.configured then s.sent + [Error("NOT_CONFIGURED")]
                          else s.sent)
            && t.window ==
               (if !Counted(s, bytes) then s.window
                else if Heard(s, bytes, now) && now - s.window.start >= 3000000000 then R.Window(0, now)
                else R.Window(s.window.bytes + bytes, s.window.start))
            && t.configured == s.configured && t.acquired == s.acquired && t.lastTranscribed == s.lastTranscribed
            && t.full == s.full && t.raw == s.raw && t.sending == s.sending && !t.crashed
  {
  }

  /** A heard frame reaches the engine, and a warning follows exactly when overflow begins with it. */
  lemma AudioEffect(s: Session, bytes: nat, pcm: seq<real>, now: int)
    requires Enabled(s, Binary(bytes, pcm, now))
    ensures var t := Step(s, Binary(bytes, pcm, now));
            if Heard(s, bytes, now) && s.engine.Some? then
              var overflow := |s.engine.value.buffer| >= 320000;
              && t.engine == Some(Feed(s.engine.value, pcm))
              && t.lastAudio == now
              && t.overflowed == overflow
              && (t.receiving == Warning <==> overflow && !s.overflowed)
            else
              t.engine == s.engine && t.lastAudio == s.lastAudio && t.overflowed == s.overflowed &&
              t.receiving in {Listening, Leaving}
  {
  }

  /** An event that makes `lastAudio` the present. */
  predicate Hears(s: Session, e: Event) {
    Enabled(s, e) &&
    match e
    case Config(outcome, _) => outcome.Built?
    case Binary(bytes, _, now) => Heard(s, bytes, now) && s.engine.Some?
    case _ => false
  }

  /** The time of the last frame handed to an engine, or of the last configuration, or of the start. */
  ghost function LastHeard(built: int, events: seq<Event>): int {
    if events == [] then built
    else
      var init, e := events[..|events| - 1], events[|events| - 1];
      if Hears(Run(Start(built), init), e) then e.now else LastHeard(built, init)
  }

  lemma {:induction false} LastAudioIs(built: int, events: seq<Event>)
    ensures Run(Start(built), events).lastAudio == LastHeard(built, events)
  {
    if events != [] {
      var init, e := events[..|events| - 1], events[|events| - 1];
      var s := Run(Start(built), init);
      LastAudioIs(built, init);
      if Minor(e) {
        MinorStep(s, e);
      } else if e.Binary? && Enabled(s, e) {
        AudioEffect(s, e.bytes, e.pcm, e.now);
      }
    }
  }

  // ----- the end -----

  /** The text that a forced decode of the engine's audio commits. */
  function ForcedText(s: Session, d: Decode): string {
    if s.engine.Some? && s.engine.value.buffer != [] && d.Decoded? then TextOf(d.segments) else ""
  }

  /** A forced decode that fails: an exception that the receive loop does not survive. */
  predicate ForcedFails(s: Session, d: Decode) {
    s.engine.Some? && s.engine.value.buffer != [] && d.Failed?
  }

  /**
   The final text is the filtered transcript followed by what the forced decode heard, unguarded;
   only if both are empty is it the raw transcript. The engine's audio goes with what was heard.
   */
  lemma EndEffect(s: Session, d: Decode)
    requires s.receiving == Listening && !s.crashed && s.configured
    ensures var t := Step(s, End(d));
            var forced := ForcedText(s, d);
            && t.full == (if ForcedFails(s, d) then s.full
                          else if |s.full| + |forced| > 0 then s.full + forced
                          else s.raw)
            && t.receiving == (if ForcedFails(s, d) then Leaving else Finishing)
            && t.engine == (if s.engine.Some? && d.Decoded? && d.segments != []
                            then Some(s.engine.value.(buffer := []))
                            else s.engine)
            && t.raw == s.raw && t.lastTranscribed == s.lastTranscribed && t.sending == s.sending
            && t.sent == s.sent && t.open == s.open && t.acquired == s.acquired
  {
    if s.engine.Some? {
      NoDecode(s.engine.value, true, d);
      if s.engine.value.buffer != [] && d.Decoded? {
        ForcedDecode(s.engine.value, d.segments);
      }
    }
    assert s.full + "" == s.full;
  }

  /** Before configuration `end` is only answered with an error. */
  lemma EndRefused(s: Session, d: Decode)
    requires s.receiving == Listening && !s.crashed && !s.configured
    ensures Step(s, End(d)) == s.(sent := if s.open then s.sent + [Error("NOT_CONFIGURED")] else s.sent)
  {
  }

  // ----- flush cycles -----

  /**
   A cycle decodes exactly with two seconds of audio, a free slot, and a reason: a quarter of a
   second of new audio, more than 400 whole milliseconds of silence with anything new at all,
   or a record that has run ahead of the buffer.
   */
  lemma InfersExactly(s: Session, now: int, capacity: bool)
    requires Capped(s)
    ensures var n, recorded := BufferSize(s), s.lastTranscribed;
            Infers(s, now, capacity) <==>
            && capacity && s.configured && s.engine.Some? && n >= 32000
            && (|| n - recorded >= 4000
                || (n > recorded && now - s.lastAudio >= 401000000)
                || n < recorded)
  {
    NoWrap(s);
  }

  /** Without one nothing happens, and a decoder that fails ends the process and changes no text. */
  lemma NoFlushEffect(s: Session, now: int, capacity: bool, d: Decode)
    requires Enabled(s, Flush(now, capacity, d))
    ensures !Infers(s, now, capacity) ==> Step(s, Flush(now, capacity, d)) == s
    ensures Infers(s, now, capacity) && d.Failed? ==> Step(s, Flush(now, capacity, d)) == s.(crashed := true)
  {
  }

  /**
   A cycle that decodes: the raw transcript takes every committed text and the filtered one those
   not flagged; the audio that is left, or was there if nothing was committed, is recorded as
   decoded; and overflow ends when the buffer is below the high-water mark.
   */
  lemma FlushEffect(s: Session, now: int, d: Decode)
    requires Enabled(s, Flush(now, true, d)) && Infers(s, now, true) && d.Decoded?
    ensures var t := Step(s, Flush(now, true, d));
            var (engine, outcome) := Transcribe(s.engine.value, false, d);
            && t.engine == Some(engine)
            && t.raw == s.raw + outcome.committed
            && t.full == (if Hallucinated(outcome.committed) then s.full else s.full + outcome.committed)
            && t.lastTranscribed ==
               (if outcome.committed == "" then |s.engine.value.buffer| else |engine.buffer|)
            && t.overflowed == (s.overflowed && |engine.buffer| >= 320000)
            && t.lastAudio == s.lastAudio && t.window == s.window && t.receiving == s.receiving && !t.crashed
            && t.sent == s.sent && t.open == s.open && t.configured && t.acquired == s.acquired
  {
    assert s.full + "" == s.full;
  }

  /** A message is composed exactly when some text came that is not flagged: all text kept so far, then that. */
  lemma MessageEffect(s: Session, now: int, d: Decode)
    requires Enabled(s, Flush(now, true, d)) && Infers(s, now, true) && d.Decoded?
    ensures var t := Step(s, Flush(now, true, d));
            var outcome := Transcribe(s.engine.value, false, d).1;
            var heard := outcome.committed != "" && !Hallucinated(outcome.committed);
            var maybe := outcome.partial != "" && !Hallucinated(outcome.partial);
            t.sending == if maybe then Some(t.full + outcome.partial)
                         else if heard then Some(t.full)
                         else None
  {
    assert Step(s, Flush(now, true, d)).full + "" == Step(s, Flush(now, true, d)).full;
  }

  // ----- the rest -----

  /** Giving up the model takes the engine along, and happens at most once. */
  lemma ReleaseEffect(s: Session)
    requires s.receiving == Leaving && !s.crashed
    ensures var t := Step(s, ReleaseModel);
            && t == s.(engine := if s.acquired then None else s.engine, acquired := false, receiving := Gone)
            && Step(t, ReleaseModel) == t
  {
  }

  /** Where the receiving thread goes when it answers, warns, finishes, closes or stops reading. */
  lemma ReceiverMoves(s: Session, e: Event)
    requires Enabled(s, e)
    ensures var t := Step(s, e);
            && (e.Announce? || e.Warn? || e.OtherMessage? ==> t.receiving == Listening && t.open == s.open)
            && (e.Finish? ==> t.receiving == Closing && t.open == s.open)
            && (e.Close? ==> t.receiving == Leaving && !t.open)
            && (e.Leave? ==> t.receiving == Leaving && t.open == s.open)
            && (e.ConnectionLost? ==> t.receiving == s.receiving && !t.open)
            && (e.SendPartial? ==> t.receiving == s.receiving && t.open == s.open && t.sending.None?)
  {
  }
}
