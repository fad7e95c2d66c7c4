/** What inference costs: every decode is paid for by audio that was accepted before it. */
module SessionLedger {
  import opened Common
  import opened WhisperEngine
  import opened SessionModel
  import opened SessionTranscript
  import opened SessionOverflow

  /**
   Counted since the last configuration: samples accepted, decodes started because enough new
   audio was seen, decodes started by silence alone, and commits that took audio away without
   leaving any text.
   */
  datatype Ledger = Ledger(accepted: nat, byAudio: nat, bySilence: nat, emptyErasures: nat)

  predicate EmptyErasure(s: Session, e: Event) {
    var outcome := FlushOutcome(s, e);
    && outcome.Some? && outcome.value.Transcript? && outcome.value.committed == ""
    && |Transcribe(s.engine.value, false, e.decode).0.buffer| < BufferSize(s)
  }

  function Book(s: Session, e: Event, l: Ledger): Ledger {
    if Configures(s, e) then Ledger(0, 0, 0, 0)
    else
      var infers := FlushOutcome(s, e).Some?;
      Ledger(
        l.accepted + (if Feeds(s, e) && !Saturated(s) then |e.pcm| else 0),
        l.byAudio + (if infers && EnoughNewAudio(s) then 1 else 0),
        l.bySilence + (if infers && !EnoughNewAudio(s) then 1 else 0),
        l.emptyErasures + if EmptyErasure(s, e) then 1 else 0)
  }

  ghost function LedgerOf(s: Session, events: seq<Event>): Ledger {
    if events == [] then Ledger(0, 0, 0, 0)
    else
      var init := events[..|events| - 1];
      Book(Run(s, init), events[|events| - 1], LedgerOf(s, init))
  }

  /** Audio not yet transcribed; negative when the flush thread's bookkeeping is off. */
  function Backlog(s: Session): int {
    BufferSize(s) - s.lastTranscribed
  }

  function Cost(l: Ledger): nat {
    MIN_NEW_SAMPLES * l.byAudio + l.bySilence
  }

  function Budget(l: Ledger): nat {
    l.accepted + MIN_NEW_SAMPLES * l.emptyErasures
  }

  /** No decode can start any more, or none for lack of audio. */
  predicate Settled(s: Session) {
    s.crashed || s.engine.None? || (Over(s) && BufferSize(s) == 0)
  }

  ghost predicate Paid(s: Session, l: Ledger) {
    && Capped(s)
    && Cost(l) <= Budget(l)
    && (s.engine.None? ==> s.lastTranscribed == 0 || Over(s))
    && (!Settled(s) ==>
          && Cost(l) + (if Backlog(s) < 0 then MIN_NEW_SAMPLES else Backlog(s)) <= Budget(l)
          && (l.emptyErasures == 0 ==> Backlog(s) >= 0))
  }

  /** While the backlog is not negative the unsigned difference is the true one. */
  lemma NoWrap(s: Session)
    requires Capped(s)
    ensures Backlog(s) >= 0 ==> SizeSub(BufferSize(s), s.lastTranscribed) == Backlog(s)
    ensures Backlog(s) < 0 ==> EnoughNewAudio(s)
  {
  }

  /** In the decoder's own terms: segments without any text are committed up to a positive tick. */
  ghost predicate Textless(n: nat, segments: seq<Segment>) {
    var cut := ChooseCut(n, false, segments);
    cut.count > 0 && cut.t1 > 0 && Wordless(segments[..cut.count])
  }

  ghost predicate Wordless(segments: seq<Segment>) {
    forall i :: 0 <= i < |segments| ==> segments[i].text in {None, Some("")}
  }

  lemma {:induction false} WordlessIff(segments: seq<Segment>)
    ensures TextOf(segments) == "" <==> Wordless(segments)
  {
    if segments != [] {
      var init, last := segments[..|segments| - 1], segments[|segments| - 1];
      WordlessIff(init);
      assert |TextOf(segments)| == |TextOf(init)| + if last.text.Some? then |last.text.value| else 0;
      assert forall i :: 0 <= i < |init| ==> init[i] == segments[i];
      assert last.text.Some? && |last.text.value| == 0 ==> last.text.value == "";
    }
  }

  lemma EmptyErasureIff(s: Session, e: Event)
    requires FlushOutcome(s, e).Some?
    ensures EmptyErasure(s, e) <==> e.decode.Decoded? && Textless(BufferSize(s), e.decode.segments)
  {
    if e.decode.Decoded? {
      var cut := ChooseCut(BufferSize(s), false, e.decode.segments);
      WordlessIff(e.decode.segments[..cut.count]);
    }
  }

  /**
   After a decode the bookkeeping is off exactly when audio left and no text came of it, that is
   when the decoder ended segments without text at a positive tick and those were committed.
   */
  lemma BacklogNegativeIff(s: Session, e: Event)
    requires FlushOutcome(s, e).Some? && FlushOutcome(s, e).value.Transcript?
    ensures Backlog(Step(s, e)) < 0 <==> EmptyErasure(s, e)
    ensures EmptyErasure(s, e) <==> Textless(BufferSize(s), e.decode.segments)
    ensures Backlog(Step(s, e)) <= 0
  {
    EmptyErasureIff(s, e);
  }

  /** Then, without any new audio, the next cycle decodes again as soon as two seconds are left. */
  lemma SpuriousInference(s: Session, e: Event, d: Decode)
    requires Capped(s) && EmptyErasure(s, e)
    requires BufferSize(Step(s, e)) >= MIN_BUFFER_SAMPLES
    ensures Infers(Step(s, e), e.now, true)
  {
  }

  lemma FlushIsPaid(s: Session, e: Event, l: Ledger)
    requires Paid(s, l) && FlushOutcome(s, e).Some?
    ensures Paid(Step(s, e), Book(s, e, l))
  {
    StepIsCapped(s, e);
    NoWrap(s);
    assert !Settled(s);
    if FlushOutcome(s, e).value.Transcript? {
      BacklogNegativeIff(s, e);
    }
  }

  lemma AudioIsPaid(s: Session, e: Event, l: Ledger)
    requires Paid(s, l) && e.Binary?
    ensures Paid(Step(s, e), Book(s, e, l))
  {
    StepIsCapped(s, e);
    BinaryAudio(s, e);
  }

  /** A frame leaves everything as it is or adds at most its own samples to the backlog. */
  lemma BinaryAudio(s: Session, e: Event)
    requires Capped(s) && e.Binary?
    ensures var s' := Step(s, e);
            && s'.lastTranscribed == s.lastTranscribed && s'.crashed == s.crashed
            && (Over(s) ==> s' == s)
            && (s.engine.None? <==> s'.engine.None?)
            && (if Feeds(s, e) && !Saturated(s)
                then Backlog(s) <= Backlog(s') <= Backlog(s) + |e.pcm|
                else s'.engine == s.engine)
  {
  }

  /** The forced decode can only end the session's audio, or leave it as it is. */
  lemma EndAudio(s: Session, e: Event)
    requires e.End?
    ensures var s' := Step(s, e);
            && s'.lastTranscribed == s.lastTranscribed && s'.crashed == s.crashed
            && (s.engine.None? <==> s'.engine.None?)
            && (Over(s) ==> Over(s'))
            && (BufferSize(s') == BufferSize(s) || (Over(s') && BufferSize(s') == 0))
  {
  }

  lemma EndIsPaid(s: Session, e: Event, l: Ledger)
    requires Paid(s, l) && e.End?
    ensures Paid(Step(s, e), Book(s, e, l))
  {
    EndAudio(s, e);
  }

  /** Events that touch neither the engine's audio nor the bookkeeping. */
  lemma LeavesAudio(s: Session, e: Event)
    requires !e.Flush? && !e.Binary? && !e.End? && !Configures(s, e)
    ensures var s' := Step(s, e);
            && s'.lastTranscribed == s.lastTranscribed && s'.crashed == s.crashed
            && (s'.engine == s.engine || (s'.engine.None? && Over(s')))
            && (Over(s) ==> Over(s'))
  {
    if Minor(e) {
      MinorStep(s, e);
    }
  }

  lemma OtherIsPaid(s: Session, e: Event, l: Ledger)
    requires Paid(s, l) && !e.Flush? && !e.Binary? && !e.End?
    ensures Paid(Step(s, e), Book(s, e, l))
  {
    if Configures(s, e) {
      assert Step(s, e) == Configured(s, e.now);
    } else {
      LeavesAudio(s, e);
    }
  }

  lemma StepIsPaid(s: Session, e: Event, l: Ledger)
    requires Paid(s, l)
    ensures Paid(Step(s, e), Book(s, e, l))
  {
    if e.Flush? {
      if FlushOutcome(s, e).Some? {
        FlushIsPaid(s, e, l);
      } else {
        IdleFlush(s, e);
      }
    } else if e.Binary? {
      AudioIsPaid(s, e, l);
    } else if e.End? {
      EndIsPaid(s, e, l);
    } else {
      OtherIsPaid(s, e, l);
    }
  }

  /**
   In every run, per epoch: 4000 for each decode started by new audio plus 1 for each started by
   silence is at most the accepted samples, plus 4000 for each commit that erased audio but had
   no text. Without such commits the difference of sizes never wraps while the session is open.
   */
  lemma {:induction false} InferenceIsPaid(built: int, events: seq<Event>)
    ensures var s, l := Run(Start(built), events), LedgerOf(Start(built), events);
            && Paid(s, l)
            && MIN_NEW_SAMPLES * l.byAudio + l.bySilence <= l.accepted + MIN_NEW_SAMPLES * l.emptyErasures
            && (l.emptyErasures == 0 && !Settled(s) ==>
                  SizeSub(BufferSize(s), s.lastTranscribed) == BufferSize(s) - s.lastTranscribed)
  {
    if events != [] {
      var init, e := events[..|events| - 1], events[|events| - 1];
      InferenceIsPaid(built, init);
      StepIsPaid(Run(Start(built), init), e, LedgerOf(Start(built), init));
    }
    NoWrap(Run(Start(built), events));
  }
}
