/** The byte limit seen from a whole session: only valid frames count, and only they can close it. */
module SessionRate {
  import opened SessionModel
  import R = RateWindow

  predicate Counts(s: Session, e: Event) {
    Enabled(s, e) && e.Binary? && Valid(s, e.bytes)
  }

  /** The frames of a run that passed all checks before the limit. */
  ghost function Frames(s: Session, events: seq<Event>): seq<R.Frame> {
    if events == [] then []
    else
      var init, e := events[..|events| - 1], events[|events| - 1];
      Frames(s, init) + if Counts(Run(s, init), e) then [R.Frame(e.now, e.bytes)] else []
  }

  /** Some frame of the run made the server close the connection for its rate. */
  ghost predicate ClosedForRate(s: Session, events: seq<Event>) {
    events != [] &&
    var init, e := events[..|events| - 1], events[|events| - 1];
    var t := Run(s, init);
    || ClosedForRate(s, init)
    || (Counts(t, e) && R.Admit(t.window, R.Frame(e.now, e.bytes)).None?)
  }

  lemma WindowUntouched(s: Session, e: Event)
    requires !Counts(s, e)
    ensures Step(s, e).window == s.window
    ensures s.receiving in {Leaving, Gone} ==> Step(s, e).receiving in {Leaving, Gone}
  {
    if Minor(e) {
      MinorStep(s, e);
    } else if e.End? || e.Flush? {
      DecodeKeepsWindow(s, e);
    }
  }

  lemma DecodeKeepsWindow(s: Session, e: Event)
    requires e.End? || e.Flush?
    ensures Step(s, e).window == s.window
    ensures s.receiving in {Leaving, Gone} ==> Step(s, e).receiving == s.receiving
  {
  }

  lemma CountedFrame(s: Session, e: Event)
    requires Counts(s, e)
    ensures var w := R.Admit(s.window, R.Frame(e.now, e.bytes));
            if w.Some? then Step(s, e).window == w.value else Step(s, e).receiving == Leaving
  {
  }

  /** The session runs the window over its valid frames, and closes exactly when the window says so. */
  lemma {:induction false} SessionRunsWindow(built: int, events: seq<Event>)
    ensures var s, w := Run(Start(built), events), R.Run(built, Frames(Start(built), events));
            && (w.None? <==> ClosedForRate(Start(built), events))
            && (if w.Some? then s.window == w.value else s.receiving in {Leaving, Gone})
  {
    if events != [] {
      var init, e := events[..|events| - 1], events[|events| - 1];
      var s, frames := Run(Start(built), init), Frames(Start(built), init);
      SessionRunsWindow(built, init);
      if Counts(s, e) {
        CountedFrame(s, e);
        var f := R.Frame(e.now, e.bytes);
        assert (frames + [f])[..|frames|] == frames;
      } else {
        WindowUntouched(s, e);
        assert frames + [] == frames;
      }
    }
  }

  /** A session is closed for its rate exactly when some window of its valid frames carries too much. */
  lemma SessionClosedIffExcess(built: int, events: seq<Event>)
    ensures var frames := Frames(Start(built), events);
            ClosedForRate(Start(built), events) <==> exists a: nat, b: nat :: R.Excess(built, frames, a, b)
  {
    SessionRunsWindow(built, events);
    R.ClosedIffExcess(built, Frames(Start(built), events));
  }

  /** A session not closed for its rate stayed within the limit up to its last window reset. */
  lemma SessionRateIsEnforced(built: int, events: seq<Event>)
    requires R.InOrder(built, Frames(Start(built), events))
    requires !ClosedForRate(Start(built), events)
    ensures var frames, w := Frames(Start(built), events), Run(Start(built), events).window;
            var counted := R.Bytes(frames) - w.bytes;
            && 0 <= counted <= R.MAX_BYTES_PER_WINDOW * R.Resets(built, frames)
            && counted * R.SECOND <= R.BYTES_PER_SECOND * (w.start - built)
  {
    SessionRunsWindow(built, events);
    R.RateIsEnforced(built, Frames(Start(built), events));
  }

  /** A client that keeps the pace is never closed for its rate, over runs of any length. */
  lemma PacedClientIsNeverClosed(built: int, events: seq<Event>, rate: nat, burst: nat, gap: nat)
    requires var frames := Frames(Start(built), events);
             R.InOrder(built, frames) && R.Paced(frames, rate, burst) && R.Steady(built, frames, gap)
    requires R.Allowance(rate, burst, R.PERIOD + gap) <= R.MAX_BYTES_PER_WINDOW * R.SECOND
    ensures !ClosedForRate(Start(built), events)
  {
    SessionRunsWindow(built, events);
    R.NoFalsePositive(built, Frames(Start(built), events), rate, burst, gap);
  }
}
