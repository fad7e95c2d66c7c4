/**
 What can still happen after the `end` message: the final text is composed, and the connection
 closed, outside the lock, while the flush thread goes on.
 */
module SessionAftermath {
  import opened Common
  import opened WhisperEngine
  import opened HallucinationGuard
  import opened SessionModel
  import opened SessionOverflow
  import opened SessionLedger

  lemma WordIsPresentable(w: string)
    requires IsToken(w) && |w| <= MAX_LENGTH
    ensures Presentable(w)
  {
    TokenIsOneWord(w);
    forall a, b
      ensures |Places([w], a, b)| < LIMIT
    {
      assert Places([w], a, b) == {};
    }
  }

  /** A decoder's answer of one short word at the very start of the audio. */
  const WORD: Decode := Decoded([Segment(1, Some("x"))])

  /** Committed when the window is full, provisional before that. */
  lemma WordOutcome(s: EngineState)
    requires s.buffer != []
    ensures Transcribe(s, false, WORD).1 ==
            if |s.buffer| >= MAX_WINDOW then Transcript("", "x") else Transcript("x", "")
  {
    var segments := WORD.segments;
    assert EndsBefore(segments, 800, 0);
    assert TextOf(segments[..0]) == "" && segments[..1] == segments == segments[0..];
    assert TextOf(segments) == "x";
  }

  /** Audio that the flush thread has not decoded yet, or believes not to have decoded. */
  predicate Unread(s: Session) {
    && !s.crashed && s.configured && s.engine.Some?
    && BufferSize(s) >= MIN_BUFFER_SAMPLES && BufferSize(s) != s.lastTranscribed
  }

  /** A moment at which nothing but the limiter keeps the flush thread from decoding. */
  function Later(s: Session): int {
    s.lastAudio + (SILENCE_MILLIS + 1) * MILLISECOND
  }

  lemma InfersIffUnread(s: Session)
    requires Capped(s) && !s.crashed
    ensures (exists now, capacity :: Infers(s, now, capacity)) <==> Unread(s)
    ensures Unread(s) ==> Infers(s, Later(s), true)
  {
    NoWrap(s);
    if Unread(s) {
      assert Later(s) - s.lastAudio == 401 * MILLISECOND;
      assert Infers(s, Later(s), true);
    }
  }

  /** What a flush cycle at that moment makes of the word. */
  lemma WordIsHeard(s: Session)
    requires Capped(s) && Unread(s) && s.sending.None?
    ensures var t := Step(s, Flush(Later(s), true, WORD));
            && t.sending.Some? && !t.crashed && t.open == s.open && t.sent == s.sent && t.receiving == s.receiving
            && t.full == if BufferSize(s) >= MAX_WINDOW then s.full + "x" else s.full
  {
    InfersIffUnread(s);
    WordOutcome(s.engine.value);
    WordIsPresentable("x");
    var (engine, outcome) := Transcribe(s.engine.value, false, WORD);
    assert Step(s, Flush(Later(s), true, WORD)) == Absorb(s, engine, outcome.partial, outcome.committed);
  }

  // ----- the final text -----

  /** A flush cycle could still commit something. */
  predicate Unsettled(s: Session) {
    Unread(s) && BufferSize(s) >= MAX_WINDOW
  }

  lemma StepSettled(s: Session, e: Event)
    requires s.receiving == Finishing && !Unsettled(s)
    ensures var t := Step(s, e);
            t.receiving == Closing || (t.receiving == Finishing && t.full == s.full && !Unsettled(t))
  {
    if Minor(e) {
      MinorStep(s, e);
    } else {
      FlushSettled(s, e);
    }
  }

  lemma FlushSettled(s: Session, e: Event)
    requires s.receiving == Finishing && !Unsettled(s) && !Minor(e)
    ensures var t := Step(s, e);
            t.receiving == Finishing && t.full == s.full && !Unsettled(t)
  {
  }

  lemma StepPast(s: Session, e: Event)
    requires s.receiving in {Closing, Leaving, Gone}
    ensures Step(s, e).receiving in {Closing, Leaving, Gone}
  {
    if Minor(e) {
      MinorStep(s, e);
    }
  }

  /** Without audio to commit, the final message carries the text that the forced decode left. */
  lemma {:induction false} FinalTextIsSettled(s: Session, events: seq<Event>)
    requires s.receiving == Finishing && !Unsettled(s)
    ensures var t := Run(s, events);
            t.receiving in {Closing, Leaving, Gone} ||
            (t.receiving == Finishing && t.full == s.full && !Unsettled(t))
  {
    if events != [] {
      var init, e := events[..|events| - 1], events[|events| - 1];
      FinalTextIsSettled(s, init);
      if Run(s, init).receiving == Finishing {
        StepSettled(Run(s, init), e);
      } else {
        StepPast(Run(s, init), e);
      }
    }
  }

  /** The final message, not composed yet, would carry another text than now. */
  ghost predicate Changes(s: Session, events: seq<Event>) {
    Run(s, events).receiving == Finishing && Run(s, events).full != s.full
  }

  ghost predicate MayChange(s: Session) {
    exists events :: Changes(s, events)
  }

  /** The events that let the flush thread decode once more. */
  function OneMoreCycle(s: Session): seq<Event> {
    (if s.sending.Some? then [SendPartial] else []) + [Flush(Later(s), true, WORD)]
  }

  lemma PendingSent(s: Session)
    requires Unread(s) && s.sending.Some?
    ensures var t := Step(s, SendPartial);
            && t.sending.None? && Unread(t) && t.open == s.open && s.sent <= t.sent && t.receiving == s.receiving
            && t.full == s.full && t.engine == s.engine
            && t.lastTranscribed == s.lastTranscribed && Later(t) == Later(s)
  {
  }

  lemma CycleRuns(s: Session)
    requires Capped(s) && Unread(s)
    ensures var t := Run(s, OneMoreCycle(s));
            && t.sending.Some? && !t.crashed && t.open == s.open && s.sent <= t.sent && t.receiving == s.receiving
            && t.full == if BufferSize(s) >= MAX_WINDOW then s.full + "x" else s.full
  {
    if s.sending.Some? {
      RunOne(s, [], SendPartial);
      RunOne(s, [SendPartial], Flush(Later(s), true, WORD));
      assert [] + [SendPartial] == [SendPartial];
      PendingSent(s);
      WordIsHeard(Step(s, SendPartial));
    } else {
      RunOne(s, [], Flush(Later(s), true, WORD));
      WordIsHeard(s);
    }
  }

  /**
   Between the forced decode and the final message the lock is free. Some continuation puts more
   text into the final message exactly when at least ten seconds of audio are still there that the
   flush thread takes for new.
   */
  lemma FinalTextMayChangeIff(s: Session)
    requires s.receiving == Finishing && Capped(s)
    ensures MayChange(s) <==> Unsettled(s)
  {
    if Unsettled(s) {
      CycleRuns(s);
      assert |s.full + "x"| > |s.full|;
      assert Changes(s, OneMoreCycle(s));
    } else if events :| Changes(s, events) {
      FinalTextIsSettled(s, events);
    }
  }

  /** So the forced decode settles the text exactly when it finds a segment or there was little to commit. */
  lemma EndSettlesIff(s: Session, d: Decode)
    requires Enabled(s, End(d)) && s.configured && d.Decoded? && Capped(s)
    ensures MayChange(Step(s, End(d))) <==> d.segments == [] && Unsettled(s)
  {
    var t := Step(s, End(d));
    if s.engine.Some? && s.engine.value.buffer != [] {
      ForcedCommitEmpties(s.engine.value, d.segments);
      assert d.segments == [] ==> t.engine == s.engine;
    }
    FinalTextMayChangeIff(t);
  }

  // ----- messages after the final one -----

  /** The final message is sent, or the receiving thread has ended without it. */
  predicate Past(s: Session) {
    s.receiving in {Closing, Leaving, Gone}
  }

  ghost predicate Hears(s: Session, events: seq<Event>) {
    exists i :: |s.sent| <= i < |Run(s, events).sent| && Run(s, events).sent[i].Partial?
  }

  ghost predicate MayHear(s: Session) {
    exists events :: Hears(s, events)
  }

  lemma StepOfPast(s: Session, e: Event)
    requires Past(s) && !Unread(s)
    ensures var t := Step(s, e);
            && Past(t) && !Unread(t)
            && (s.sending.None? ==> t.sending.None? && t.sent == s.sent)
  {
  }

  lemma {:induction false} SilentForEver(s: Session, events: seq<Event>)
    requires Past(s) && !Unread(s) && s.sending.None?
    ensures var t := Run(s, events);
            Past(t) && !Unread(t) && t.sending.None? && t.sent == s.sent
  {
    if events != [] {
      SilentForEver(s, events[..|events| - 1]);
      StepOfPast(Run(s, events[..|events| - 1]), events[|events| - 1]);
    }
  }

  lemma PendingIsHeard(s: Session, events: seq<Event>)
    requires var t := Run(s, events); t.sending.Some? && !t.crashed && t.open && s.sent <= t.sent
    ensures MayHear(s)
  {
    var t := Run(s, events);
    RunOne(s, events, SendPartial);
    var u := Run(s, events + [SendPartial]);
    assert u.sent == t.sent + [Partial(t.sending.value)];
    assert u.sent[|t.sent|].Partial?;
    assert Hears(s, events + [SendPartial]);
  }

  /**
   Nothing is meant to follow the final message. While the socket is open a provisional message
   still can, exactly when one is composed already or the flush thread has audio left to decode.
   */
  lemma PartialMayFollowIff(s: Session)
    requires Past(s) && s.open && !s.crashed && Capped(s)
    ensures MayHear(s) <==> s.sending.Some? || Unread(s)
  {
    if s.sending.Some? {
      PendingIsHeard(s, []);
    } else if Unread(s) {
      CycleRuns(s);
      PendingIsHeard(s, OneMoreCycle(s));
    } else if events :| Hears(s, events) {
      SilentForEver(s, events);
    }
  }

  /** The texts of the provisional messages, in order. */
  function Partials(sent: seq<Message>): seq<string> {
    if sent == [] then []
    else
      var last := sent[|sent| - 1];
      Partials(sent[..|sent| - 1]) + if last.Partial? then [last.text] else []
  }

  /** No provisional message since, and the composed one still there; or that one sent or lost, and no other. */
  ghost predicate AtMostThePending(s: Session, t: Session) {
    || (t.sending == s.sending && Partials(t.sent) == Partials(s.sent))
    || (s.sending.Some? && t.sending.None? &&
        Partials(t.sent) in {Partials(s.sent), Partials(s.sent) + [s.sending.value]})
  }

  lemma PartialsSnoc(sent: seq<Message>, m: Message)
    ensures Partials(sent + [m]) == Partials(sent) + if m.Partial? then [m.text] else []
  {
    assert (sent + [m])[..|sent|] == sent;
  }

  lemma StepAfterEnd(s: Session, e: Event)
    requires Over(s) && !Unread(s)
    ensures var t := Step(s, e);
            Over(t) && !Unread(t) && AtMostThePending(s, t)
  {
    var t := Step(s, e);
    if e.Finish? {
      PartialsSnoc(s.sent, Final(s.full));
    } else if e.SendPartial? && s.sending.Some? {
      PartialsSnoc(s.sent, Partial(s.sending.value));
    }
  }

  /**
   After a forced decode that found a segment, or had nothing to decode, at most one provisional
   message follows, the one that the flush thread was holding.
   */
  lemma {:induction false} OnlyThePendingPartial(s: Session, d: Decode, events: seq<Event>)
    requires Enabled(s, End(d)) && s.configured && d.Decoded?
    requires d.segments != [] || !Unread(s)
    ensures var t := Run(Step(s, End(d)), events);
            Over(t) && !Unread(t) && AtMostThePending(s, t)
  {
    if events == [] {
      if s.engine.Some? && s.engine.value.buffer != [] {
        ForcedCommitEmpties(s.engine.value, d.segments);
      }
    } else {
      OnlyThePendingPartial(s, d, events[..|events| - 1]);
      StepAfterEnd(Run(Step(s, End(d)), events[..|events| - 1]), events[|events| - 1]);
    }
  }
}
