/** When the client is warned that audio is being dropped, and how much audio a session can lose. */
module SessionOverflow {
  import opened Common
  import opened WhisperEngine
  import opened SessionModel
  import RateWindow

  ghost function At(built: int, events: seq<Event>, i: nat): Session
    requires i <= |events|
  {
    Run(Start(built), events[..i])
  }

  lemma AtNext(built: int, events: seq<Event>, i: nat)
    requires i < |events|
    ensures At(built, events, i + 1) == Step(At(built, events, i), events[i])
  {
    assert events[..i + 1] == events[..i] + [events[i]];
    RunOne(Start(built), events[..i], events[i]);
  }

  /** The buffer is at or above the high-water mark. */
  predicate Saturated(s: Session) {
    s.engine.Some? && Full(s.engine.value)
  }

  /** The event hands a chunk to the engine. */
  predicate Feeds(s: Session, e: Event) {
    && Enabled(s, e) && e.Binary? && Valid(s, e.bytes) && s.engine.Some?
    && RateWindow.Admit(s.window, RateWindow.Frame(e.now, e.bytes)).Some?
  }

  predicate Drops(s: Session, e: Event) {
    Feeds(s, e) && Saturated(s)
  }

  /** Between two consecutive states the receiving thread decides to send a warning next. */
  predicate Alerts(s: Session, s': Session) {
    s'.receiving == Warning && s.receiving != Warning
  }

  ghost predicate AlertsAt(built: int, events: seq<Event>, i: nat)
    requires i < |events|
  {
    Alerts(At(built, events, i), At(built, events, i + 1))
  }

  /** What one event can do to the flag, the buffer level and the pending warning. */
  predicate OverflowRule(s: Session, e: Event, s': Session) {
    && (Alerts(s, s') ==> Drops(s, e) && !s.overflowed && s'.overflowed && Saturated(s'))
    && (Drops(s, e) ==> s'.overflowed && Saturated(s') && (s.overflowed || Alerts(s, s')))
    && (s.overflowed && !s'.overflowed ==> !Saturated(s) || !Saturated(s'))
    && (!s.overflowed && s'.overflowed ==> Alerts(s, s'))
    && (!Saturated(s) && Saturated(s') ==> !s'.overflowed)
    && (s.receiving == Warning && s'.receiving == Warning && Saturated(s') ==>
          Saturated(s) && (s.overflowed ==> s'.overflowed))
  }

  lemma FrameOverflow(s: Session, e: Event)
    requires e.Binary?
    ensures OverflowRule(s, e, Step(s, e))
  {
  }

  lemma FlushOverflow(s: Session, e: Event)
    requires e.Flush?
    ensures OverflowRule(s, e, Step(s, e))
  {
  }

  lemma EndOverflow(s: Session, e: Event)
    requires e.End? || e.ReleaseModel?
    ensures OverflowRule(s, e, Step(s, e))
  {
  }

  /** The remaining events leave the flag and the engine alone, or bring a fresh engine. */
  lemma LevelUntouched(s: Session, e: Event)
    requires !e.Binary? && !e.Flush? && !e.End? && !e.ReleaseModel?
    ensures var s' := Step(s, e);
            && s'.overflowed == s.overflowed
            && (s'.engine == s.engine || s'.engine == Some(FRESH))
            && (s'.receiving == Warning ==> s.receiving == Warning && s'.engine == s.engine)
  {
    if Minor(e) {
      MinorStep(s, e);
    }
  }

  lemma StepOverflow(s: Session, e: Event)
    ensures OverflowRule(s, e, Step(s, e))
  {
    if e.Binary? {
      FrameOverflow(s, e);
    } else if e.Flush? {
      FlushOverflow(s, e);
    } else if e.End? || e.ReleaseModel? {
      EndOverflow(s, e);
    } else {
      LevelUntouched(s, e);
    }
  }

  ghost predicate CalmBetween(built: int, events: seq<Event>, i: nat, j: nat)
    requires j <= |events|
  {
    exists k :: i < k <= j && !Saturated(At(built, events, k))
  }

  ghost predicate SaturatedFrom(built: int, events: seq<Event>, i: nat, j: nat)
    requires j <= |events|
  {
    forall k :: i <= k <= j ==> Saturated(At(built, events, k))
  }

  lemma {:induction false} PendingWarning(built: int, events: seq<Event>, n: nat)
    requires n <= |events|
    ensures var s := At(built, events, n);
            s.receiving == Warning ==> s.overflowed || !Saturated(s)
  {
    if n > 0 {
      PendingWarning(built, events, n - 1);
      AtNext(built, events, n - 1);
      StepOverflow(At(built, events, n - 1), events[n - 1]);
    }
  }

  lemma {:induction false} QuietSinceWarning(built: int, events: seq<Event>, i: nat, n: nat)
    requires i < n <= |events|
    requires events[i] == Warn && Enabled(At(built, events, i), Warn)
    ensures var s := At(built, events, n);
            CalmBetween(built, events, i, n) || (s.overflowed && s.receiving != Warning)
  {
    AtNext(built, events, n - 1);
    var s, s' := At(built, events, n - 1), At(built, events, n);
    if n == i + 1 {
      PendingWarning(built, events, i);
      if !s'.overflowed {
        assert !Saturated(s');
      }
    } else {
      QuietSinceWarning(built, events, i, n - 1);
      if !CalmBetween(built, events, i, n - 1) {
        StepOverflow(s, events[n - 1]);
        assert Saturated(s);
      } else {
        var k :| i < k <= n - 1 && !Saturated(At(built, events, k));
        assert i < k <= n;
      }
    }
  }

  /** Between two `buffer_full` warnings sent in a run, the buffer was below the high-water mark. */
  lemma OneWarningPerEpisode(built: int, events: seq<Event>, i: nat, j: nat)
    requires i < j < |events| && events[i] == events[j] == Warn
    requires Enabled(At(built, events, i), Warn) && Enabled(At(built, events, j), Warn)
    ensures CalmBetween(built, events, i, j)
  {
    QuietSinceWarning(built, events, i, j);
  }

  ghost predicate AlertedSince(built: int, events: seq<Event>, n: nat)
    requires n <= |events|
  {
    exists i :: 0 <= i < n && AlertsAt(built, events, i) && SaturatedFrom(built, events, i, n)
  }

  lemma AlertCarries(built: int, events: seq<Event>, n: nat)
    requires n < |events|
    requires AlertedSince(built, events, n) && Saturated(At(built, events, n + 1))
    ensures AlertedSince(built, events, n + 1)
  {
  }

  lemma AlertStarts(built: int, events: seq<Event>, n: nat)
    requires n < |events|
    requires AlertsAt(built, events, n)
    requires Saturated(At(built, events, n)) && Saturated(At(built, events, n + 1))
    ensures AlertedSince(built, events, n + 1)
  {
  }

  lemma {:induction false} FlagMeansAlerted(built: int, events: seq<Event>, n: nat)
    requires n <= |events|
    ensures var s := At(built, events, n);
            s.overflowed && Saturated(s) ==> AlertedSince(built, events, n)
  {
    if n > 0 {
      FlagMeansAlerted(built, events, n - 1);
      AtNext(built, events, n - 1);
      var s, s' := At(built, events, n - 1), At(built, events, n);
      StepOverflow(s, events[n - 1]);
      if s'.overflowed && Saturated(s') {
        if s.overflowed {
          AlertCarries(built, events, n - 1);
        } else {
          AlertStarts(built, events, n - 1);
        }
      }
    }
  }

  /** Every dropped chunk triggers a warning, or follows one with the buffer saturated ever since. */
  lemma DropsAreAnnounced(built: int, events: seq<Event>, j: nat)
    requires j < |events| && Drops(At(built, events, j), events[j])
    ensures exists i :: 0 <= i <= j && AlertsAt(built, events, i) && SaturatedFrom(built, events, i, j)
  {
    var s := At(built, events, j);
    AtNext(built, events, j);
    StepOverflow(s, events[j]);
    FlagMeansAlerted(built, events, j);
    if !s.overflowed {
      assert SaturatedFrom(built, events, j, j);
    }
  }

  // ----- the cap -----

  ghost predicate Capped(s: Session) {
    BufferSize(s) <= MAX_BUFFER && s.lastTranscribed <= MAX_BUFFER
  }

  lemma FrameIsCapped(s: Session, e: Event)
    requires Capped(s) && e.Binary?
    ensures Capped(Step(s, e))
  {
    if Feeds(s, e) && !Saturated(s) {
      CapArithmetic(s.engine.value, e.pcm);
    }
  }

  lemma DecodeIsCapped(s: Session, e: Event)
    requires Capped(s) && (e.Flush? || e.End?)
    ensures Capped(Step(s, e))
  {
  }

  lemma StepIsCapped(s: Session, e: Event)
    requires Capped(s)
    ensures Capped(Step(s, e))
  {
    if e.Binary? {
      FrameIsCapped(s, e);
    } else if e.Flush? || e.End? {
      DecodeIsCapped(s, e);
    } else if !e.ReleaseModel? {
      LevelUntouched(s, e);
    }
  }

  lemma {:induction false} AlwaysCapped(built: int, events: seq<Event>)
    ensures Capped(Run(Start(built), events))
  {
    if events != [] {
      AlwaysCapped(built, events[..|events| - 1]);
      StepIsCapped(Run(Start(built), events[..|events| - 1]), events[|events| - 1]);
    }
  }

  /**
   An accepted frame brings the buffer to exactly the old size plus its own, capped at thirty
   seconds. A frame never replaces the whole buffer; it costs at most 102143 old samples, and
   none when it carries at most 160001 samples.
   */
  lemma AcceptedFrame(s: Session, e: Event)
    requires Feeds(s, e) && !Saturated(s)
    ensures var total, size := BufferSize(s) + |e.pcm|, BufferSize(Step(s, e));
            && size == (if total <= MAX_BUFFER then total else MAX_BUFFER)
            && |e.pcm| == e.bytes / SAMPLE_BYTES < MAX_BUFFER
            && total - size <= 102143
            && (|e.pcm| <= 160001 ==> size == total)
  {
    CapArithmetic(s.engine.value, e.pcm);
  }
}
