/** Concrete runs behind the promises that do not hold without conditions. */
module SessionWitnesses {
  import opened Common
  import opened WhisperEngine
  import opened SessionModel
  import opened SessionTranscript
  import opened SessionOverflow
  import opened SessionLedger
  import opened SessionAftermath
  import opened SessionDrain
  import E = SessionEffects
  import R = RateWindow
  import SessionRate

  function Quiescent(n: nat): seq<real> {
    seq(n, _ => 0.0)
  }

  /** A first segment without text that ends early, and a second one that reaches into the overlap. */
  const LOPSIDED: Decode := Decoded([Segment(100, None), Segment(1500, Some("x"))])

  function Configuring(): seq<Event> {
    [Config(Built, 0), Announce, Binary(1048576, Quiescent(262144), 1)]
  }

  /** One megabyte of audio has arrived and nothing was decoded yet. */
  lemma Configured()
    ensures var s := Run(Start(0), Configuring());
            && BufferSize(s) == 262144 && s.lastTranscribed == 0
            && s.configured && s.engine.Some? && !s.crashed && s.open && s.sending.None?
            && s.receiving == Listening && s.full == "" && s.raw == "" && s.sent == [Ready]
            && s.window == R.Window(1048576, 0)
  {
    var a, b, c := Config(Built, 0), Announce, Binary(1048576, Quiescent(262144), 1);
    assert Configuring() == [] + [a] + [b] + [c];
    RunOne(Start(0), [], a);
    RunOne(Start(0), [] + [a], b);
    RunOne(Start(0), [] + [a] + [b], c);
    var s := Run(Start(0), [] + [a] + [b]);
    assert s.engine == Some(FRESH) && s.sent == [] + [Ready];
    CapArithmetic(FRESH, c.pcm);
  }

  lemma LopsidedCut(n: nat)
    requires n == 262144
    ensures ChooseCut(n, false, LOPSIDED.segments) == Cut(1, 100)
    ensures TextOf(LOPSIDED.segments[..1]) == "" && TextOf(LOPSIDED.segments[1..]) == "x"
  {
  }

  /**
   Without text in an erasing commit the flush thread's size bookkeeping does go wrong: a reachable
   session decodes a second time although not one sample has arrived in between.
   */
  lemma SpuriousInferenceIsReachable()
    ensures var s := Run(Start(0), Configuring());
            var e := Flush(1, true, LOPSIDED);
            && FlushOutcome(s, e).Some?
            && EmptyErasure(s, e)
            && Backlog(Step(s, e)) < 0
            && Infers(Step(s, e), 1, true)
  {
    Configured();
    var s, e := Run(Start(0), Configuring()), Flush(1, true, LOPSIDED);
    LopsidedCut(BufferSize(s));
    AlwaysCapped(0, Configuring());
    NoWrap(s);
    assert |Transcribe(s.engine.value, false, LOPSIDED).0.buffer| == 262144 - 16000;
    BacklogNegativeIff(s, e);
    SpuriousInference(s, e, LOPSIDED);
  }

  function LopsidedFlush(): Event {
    Flush(1, true, LOPSIDED)
  }

  function Ending(): Event {
    End(Decoded([Segment(10, Some("y"))]))
  }

  function StaleRun(): seq<Event> {
    Configuring() + [LopsidedFlush()] + [Ending()] + [Finish] + [SendPartial]
  }

  /** The flush cycle has composed "x" and dropped the lock. */
  lemma Composed()
    ensures var s := Run(Start(0), Configuring() + [LopsidedFlush()]);
            && s.sending == Some("x") && s.full == "" && s.sent == [Ready] && s.open && !s.crashed
            && s.configured && s.receiving == Listening && BufferSize(s) > 0
  {
    Configured();
    var s, e := Run(Start(0), Configuring()), LopsidedFlush();
    LopsidedCut(BufferSize(s));
    SpuriousInferenceIsReachable();
    WordIsPresentable("x");
    RunOne(Start(0), Configuring(), e);
    assert Transcribe(s.engine.value, false, LOPSIDED).1 == Transcript("x", "");
    E.FlushEffect(s, 1, LOPSIDED);
    E.MessageEffect(s, 1, LOPSIDED);
    assert "" + "x" == "x";
  }

  /** The forced decode of the `end` message commits "y". */
  lemma Ended()
    ensures var s := Run(Start(0), Configuring() + [LopsidedFlush()] + [Ending()]);
            && s.sending == Some("x") && s.full == "y" && s.sent == [Ready] && s.open && !s.crashed
            && s.receiving == Finishing
  {
    Composed();
    var events := Configuring() + [LopsidedFlush()];
    RunOne(Start(0), events, Ending());
    E.EndEffect(Run(Start(0), events), Decoded([Segment(10, Some("y"))]));
    TextOfOne(Segment(10, Some("y")));
    assert "" + "y" == "y";
  }

  lemma BothSent(s: Session)
    requires !s.crashed && s.open && s.receiving == Finishing && s.sending.Some?
    ensures Step(Step(s, Finish), SendPartial).sent == s.sent + [Final(s.full)] + [Partial(s.sending.value)]
  {
  }

  /** A provisional message composed before `end` does reach a client after the final one. */
  lemma StalePartialAfterFinal()
    ensures Run(Start(0), StaleRun()).sent == [Ready, Final("y"), Partial("x")]
  {
    Ended();
    var events := Configuring() + [LopsidedFlush()] + [Ending()];
    BothSent(Run(Start(0), events));
    RunOne(Start(0), events, Finish);
    RunOne(Start(0), events + [Finish], SendPartial);
    assert StaleRun() == events + [Finish] + [SendPartial];
  }

  // ----- a final text that changes after the forced decode -----

  /** The forced decode finds nothing, so the buffer stays, and a flush cycle comes before the final message. */
  function LateRun(): seq<Event> {
    Configuring() + [End(Decoded([]))] + [Flush(SILENCE_AND_MORE, true, WORD)] + [Finish]
  }

  const SILENCE_AND_MORE: int := 1 + (SILENCE_MILLIS + 1) * MILLISECOND

  lemma EmptyEnd()
    ensures var s := Run(Start(0), Configuring() + [End(Decoded([]))]);
            && s.receiving == Finishing && s.full == "" && s.sent == [Ready] && s.open
            && s.sending.None? && Unsettled(s) && Later(s) == SILENCE_AND_MORE && Capped(s)
  {
    Configured();
    var s, e := Run(Start(0), Configuring()), End(Decoded([]));
    RunOne(Start(0), Configuring(), e);
    AlwaysCapped(0, Configuring() + [e]);
    assert Transcribe(s.engine.value, true, Decoded([])) == (s.engine.value, Transcript("", ""));
    assert "" + "" == "";
    assert Step(s, e) == OnEnd(s, Decoded([]));
  }

  /** The text was empty when the forced decode was done, and the final message is not. */
  lemma FinalTextChangesInReach()
    ensures Run(Start(0), Configuring() + [End(Decoded([]))]).full == ""
    ensures Run(Start(0), LateRun()).sent == [Ready, Final("x")]
  {
    EmptyEnd();
    var events := Configuring() + [End(Decoded([]))];
    var flush := Flush(SILENCE_AND_MORE, true, WORD);
    WordIsHeard(Run(Start(0), events));
    RunOne(Start(0), events, flush);
    RunOne(Start(0), events + [flush], Finish);
    FinishSends(Run(Start(0), events + [flush]));
    assert "" + "x" == "x";
  }

  lemma FinishSends(s: Session)
    requires !s.crashed && s.open && s.receiving == Finishing
    ensures Step(s, Finish).sent == s.sent + [Final(s.full)]
  {
  }

  // ----- text committed twice -----

  /** The second segment ends before the first one, so the commit takes almost no audio along. */
  const TANGLED: Decode := Decoded([Segment(900, Some("a")), Segment(1, Some("b"))])

  /** One tick of audio is gone: the first segment again, at the same place in the audio. */
  const AGAIN: Decode := Decoded([Segment(899, Some("a"))])

  function FirstCommit(): seq<Event> {
    Configuring() + [Flush(1, true, TANGLED)]
  }

  function MoreAudio(): seq<Event> {
    FirstCommit() + [Binary(16000, Quiescent(4000), 2)]
  }

  lemma TangledCut(s: EngineState)
    requires |s.buffer| == 262144
    ensures ChooseCut(|s.buffer|, false, TANGLED.segments) == Cut(2, 1)
    ensures !Clean(|s.buffer|, false, TANGLED.segments)
    ensures Transcribe(s, false, TANGLED) == (s.(buffer := s.buffer[TICK..]), Transcript("", "ab"))
  {
    var segments := TANGLED.segments;
    assert TextOf(segments[..1]) == "a" && segments[..2] == segments && segments[..2][..1] == segments[..1];
    assert "a" + "b" == "ab";
    assert segments[0].t1 == 900;
  }

  lemma AgainCut(s: EngineState)
    requires |s.buffer| == 265984
    ensures Transcribe(s, false, AGAIN).1 == Transcript("", "a")
  {
    var segments := AGAIN.segments;
    assert EndsBefore(segments, OverlapBound(265984), 0);
    assert TextOf(segments[..0]) == "" && segments[..1] == segments;
  }

  lemma FirstCommitted()
    ensures var s, t := Run(Start(0), Configuring()), Run(Start(0), FirstCommit());
            && BufferSize(s) == 262144 && t.full == "ab" && t.engine.Some?
            && t.engine.value.buffer == s.engine.value.buffer[TICK..]
            && t.lastTranscribed == 261984 && t.configured && !t.crashed && t.receiving == Listening
            && t.window == s.window
  {
    Configured();
    var s, flush := Run(Start(0), Configuring()), Flush(1, true, TANGLED);
    TangledCut(s.engine.value);
    WordIsPresentable("ab");
    RunOne(Start(0), Configuring(), flush);
    assert Infers(s, 1, true);
    E.FlushEffect(s, 1, TANGLED);
    assert "" + "ab" == "ab";
  }

  lemma MoreAudioArrives()
    ensures var s, t := Run(Start(0), FirstCommit()), Run(Start(0), MoreAudio());
            && BufferSize(t) == 265984 && t.full == s.full && t.lastTranscribed == s.lastTranscribed
            && t.configured && t.engine.Some? && !t.crashed && t.sending == s.sending
  {
    Configured();
    FirstCommitted();
    var s, e := Run(Start(0), FirstCommit()), Binary(16000, Quiescent(4000), 2);
    RunOne(Start(0), FirstCommit(), e);
    CapArithmetic(s.engine.value, e.pcm);
  }

  lemma CommitStep(s: Session, now: int, d: Decode, text: string)
    requires !s.crashed && s.sending.None? && Infers(s, now, true)
    requires Transcribe(s.engine.value, false, d).1 == Transcript("", text) && Presentable(text)
    ensures Step(s, Flush(now, true, d)).full == s.full + text
  {
    FlushTexts(s, Flush(now, true, d));
  }

  /** From any such state on, once nothing is being sent. */
  lemma AgainCommits(s: Session)
    requires !s.crashed && s.configured && s.engine.Some? && s.sending.None?
    requires BufferSize(s) == 265984 && s.lastTranscribed == 261984
    ensures Step(s, Flush(2, true, AGAIN)).full == s.full + "a"
  {
    AgainCut(s.engine.value);
    WordIsPresentable("a");
    assert SizeSub(265984, 261984) == 4000;
    CommitStep(s, 2, AGAIN, "a");
  }

  lemma AfterSending(s: Session)
    requires !s.crashed
    ensures var t := Step(s, SendPartial);
            && t.sending.None? && !t.crashed && t.configured == s.configured && t.engine == s.engine
            && t.lastTranscribed == s.lastTranscribed && t.full == s.full
  {
  }

  lemma CommittedAgain()
    ensures Run(Start(0), MoreAudio() + [SendPartial] + [Flush(2, true, AGAIN)]).full == "aba"
  {
    FirstCommitted();
    MoreAudioArrives();
    RunOne(Start(0), MoreAudio(), SendPartial);
    RunOne(Start(0), MoreAudio() + [SendPartial], Flush(2, true, AGAIN));
    AfterSending(Run(Start(0), MoreAudio()));
    AgainCommits(Run(Start(0), MoreAudio() + [SendPartial]));
    assert "ab" + "a" == "aba";
  }

  /** The same audio is committed twice, and its text stands in the transcript twice. */
  lemma TextIsCommittedTwice()
    ensures var s, t := Run(Start(0), Configuring()), Run(Start(0), FirstCommit());
            && s.engine.Some? && t.engine.Some? && |s.engine.value.buffer| == 262144
            && !Clean(262144, false, TANGLED.segments)
            && t.engine.value.buffer == s.engine.value.buffer[TICK..]
            && TANGLED.segments[0].t1 * TICK == TICK + AGAIN.segments[0].t1 * TICK
            && t.full == "ab"
    ensures Run(Start(0), MoreAudio() + [SendPartial] + [Flush(2, true, AGAIN)]).full == "aba"
  {
    Configured();
    TangledCut(Run(Start(0), Configuring()).engine.value);
    FirstCommitted();
    CommittedAgain();
  }

  // ----- the rate limit is not a limit on bursts -----

  /** A megabyte within one nanosecond is taken; four bytes, three seconds later, close the connection. */
  lemma BurstIsTaken()
    ensures var s := Run(Start(0), Configuring());
            && s.window.bytes > R.MAX_BYTES_PER_WINDOW && s.open && s.receiving == Listening
            && !SessionRate.ClosedForRate(Start(0), Configuring())
    ensures var events := Configuring() + [Binary(4, Quiescent(1), R.PERIOD)];
            SessionRate.ClosedForRate(Start(0), events) && !Run(Start(0), events).open
  {
    Configured();
    SessionRate.SessionRunsWindow(0, Configuring());
    var s, e := Run(Start(0), Configuring()), Binary(4, Quiescent(1), R.PERIOD);
    RunOne(Start(0), Configuring(), e);
    assert (Configuring() + [e])[..|Configuring()|] == Configuring();
    assert R.Admit(s.window, R.Frame(R.PERIOD, 4)).None?;
  }

  // ----- a buffer that never drains -----

  function Saturating(): seq<Event> {
    Configuring() + [Binary(1048576, Quiescent(262144), 2)]
  }

  lemma Saturated480000()
    ensures var s := Run(Start(0), Saturating());
            && BufferSize(s) == MAX_BUFFER && s.lastTranscribed == 0 && s.sending.None?
            && s.configured && s.engine.Some? && !s.crashed && s.open && s.receiving == Listening
  {
    Configured();
    var s, e := Run(Start(0), Configuring()), Binary(1048576, Quiescent(262144), 2);
    RunOne(Start(0), Configuring(), e);
    CapArithmetic(s.engine.value, e.pcm);
  }

  /** Thirty seconds of audio in which the decoder hears nothing, and the session is deaf for good. */
  lemma StuckIsReachable()
    ensures var s := Run(Start(0), Saturating() + [Flush(2, true, Decoded([]))]);
            Stuck(s) && Capped(s) && s.configured && !s.crashed && s.open && s.receiving == Listening && !MayDrain(s)
  {
    Saturated480000();
    var s, flush := Run(Start(0), Saturating()), Flush(2, true, Decoded([]));
    RunOne(Start(0), Saturating(), flush);
    NothingHeard(s.engine.value);
    IdleDecodeSticks(s, 2, Decoded([]));
    AlwaysCapped(0, Saturating() + [flush]);
    MayDrainIff(Run(Start(0), Saturating() + [flush]));
  }
}
