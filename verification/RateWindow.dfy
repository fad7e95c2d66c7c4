/**
 The fixed-window byte limit on binary frames. Times are nanoseconds of a clock that never runs
 backwards; a window starts when the session is built or when the previous window is reset.
 */
module RateWindow {
  import opened Common

  const SECOND: int := 1000000000
  const WINDOW_SECONDS: int := 3
  const MAX_BYTES_PER_WINDOW: int := 614400  // 200 KiB/s for 3 s
  const BYTES_PER_SECOND: int := 204800

  datatype Window = Window(bytes: nat, start: int)

  datatype Frame = Frame(time: int, bytes: nat)

  predicate Expired(w: Window, now: int) {
    (now - w.start) / SECOND >= WINDOW_SECONDS
  }

  /** The window after counting a frame, or `None` when the connection is closed for its rate. */
  function Admit(w: Window, f: Frame): Option<Window> {
    var bytes := w.bytes + f.bytes;
    if !Expired(w, f.time) then Some(w.(bytes := bytes))
    else if bytes > MAX_BYTES_PER_WINDOW then None
    else Some(Window(0, f.time))
  }

  function Run(built: int, frames: seq<Frame>): Option<Window> {
    if frames == [] then Some(Window(0, built))
    else
      var before := Run(built, frames[..|frames| - 1]);
      if before.None? then None else Admit(before.value, frames[|frames| - 1])
  }

  function Bytes(frames: seq<Frame>): nat {
    if frames == [] then 0 else Bytes(frames[..|frames| - 1]) + frames[|frames| - 1].bytes
  }

  /** The time just before frame `i`: the previous frame, or the moment the session was built. */
  function Previous(built: int, frames: seq<Frame>, i: nat): int
    requires i <= |frames|
  {
    if i == 0 then built else frames[i - 1].time
  }

  /** Frames arrive in time order, none before the session is built. */
  ghost predicate InOrder(built: int, frames: seq<Frame>) {
    forall i :: 0 <= i < |frames| ==> Previous(built, frames, i) <= frames[i].time
  }

  /** How many frames of a run that is still open ended a window. */
  function Resets(built: int, frames: seq<Frame>): nat {
    if frames == [] then 0
    else
      var init := frames[..|frames| - 1];
      var before := Run(built, init);
      Resets(built, init) +
      if before.Some? && Expired(before.value, frames[|frames| - 1].time) then 1 else 0
  }

  lemma PrefixInOrder(built: int, frames: seq<Frame>)
    requires frames != [] && InOrder(built, frames)
    ensures InOrder(built, frames[..|frames| - 1])
    ensures Previous(built, frames[..|frames| - 1], |frames| - 1) <= frames[|frames| - 1].time
  {
  }

  /**
   In a run that was not closed, the bytes up to the last reset are at most 600 KiB a window
   and, over the whole life of the session, at most 200 KiB for every second that passed.
   */
  lemma {:induction false} RateIsEnforced(built: int, frames: seq<Frame>)
    requires InOrder(built, frames) && Run(built, frames).Some?
    ensures var w := Run(built, frames).value;
            var counted := Bytes(frames) - w.bytes;
            && built <= w.start <= Previous(built, frames, |frames|)
            && 0 <= counted <= MAX_BYTES_PER_WINDOW * Resets(built, frames)
            && counted * SECOND <= BYTES_PER_SECOND * (w.start - built)
            && Resets(built, frames) * WINDOW_SECONDS * SECOND <= w.start - built
  {
    if frames != [] {
      var init := frames[..|frames| - 1];
      PrefixInOrder(built, frames);
      RateIsEnforced(built, init);
    }
  }

  // ----- exactly when a connection is closed -----

  const PERIOD: int := WINDOW_SECONDS * SECOND

  /** The frames from `a` up to but not including `b` come less than three seconds after the one before `a`. */
  ghost predicate Recent(built: int, frames: seq<Frame>, a: nat, b: nat) {
    a <= b <= |frames| && forall i :: a <= i < b ==> frames[i].time - Previous(built, frames, a) < 3000000000
  }

  /** Frames `a` to `b` fill one window: `b` is the first of them three seconds in, or later. */
  ghost predicate IsWindow(built: int, frames: seq<Frame>, a: nat, b: nat) {
    && a <= b < |frames|
    && Recent(built, frames, a, b)
    && frames[b].time - Previous(built, frames, a) >= 3000000000
  }

  /** A window starts with the first frame and after every frame that ends one. */
  ghost predicate Starts(built: int, frames: seq<Frame>, a: nat) {
    a == 0 || exists p: nat :: p < a && Starts(built, frames, p) && IsWindow(built, frames, p, a - 1)
  }

  /** Some window, from its first frame to the one that ends it, carries more than the limit. */
  ghost predicate Excess(built: int, frames: seq<Frame>, a: nat, b: nat) {
    Starts(built, frames, a) && IsWindow(built, frames, a, b) && Bytes(frames[a..b + 1]) > 614400
  }

  lemma RunNext(built: int, frames: seq<Frame>, n: nat)
    requires n < |frames|
    ensures var before := Run(built, frames[..n]);
            Run(built, frames[..n + 1]) == if before.None? then None else Admit(before.value, frames[n])
  {
    assert frames[..n + 1][..n] == frames[..n];
  }

  lemma BytesNext(frames: seq<Frame>, a: nat, n: nat)
    requires a <= n < |frames|
    ensures Bytes(frames[a..n + 1]) == Bytes(frames[a..n]) + frames[n].bytes
  {
    assert frames[a..n + 1][..n - a] == frames[a..n];
  }

  lemma FillNext(built: int, frames: seq<Frame>, n: nat, w: Window)
    requires n < |frames| && Run(built, frames[..n]) == Some(w) && frames[n].time - w.start < 3000000000
    ensures Run(built, frames[..n + 1]) == Some(Window(w.bytes + frames[n].bytes, w.start))
  {
    RunNext(built, frames, n);
  }

  /** Within a window bytes are only added up. */
  lemma {:induction false} WindowFills(built: int, frames: seq<Frame>, a: nat, n: nat)
    requires Recent(built, frames, a, n)
    requires Run(built, frames[..a]) == Some(Window(0, Previous(built, frames, a)))
    ensures Run(built, frames[..n]) == Some(Window(Bytes(frames[a..n]), Previous(built, frames, a)))
  {
    if n == a {
      assert frames[a..n] == [];
    } else {
      var start := Previous(built, frames, a);
      assert Recent(built, frames, a, n - 1);
      WindowFills(built, frames, a, n - 1);
      assert frames[n - 1].time - start < 3000000000;
      FillNext(built, frames, n - 1, Window(Bytes(frames[a..n - 1]), start));
      BytesNext(frames, a, n - 1);
    }
  }

  /** What the run has come to where a window starts. */
  lemma {:induction false} StartState(built: int, frames: seq<Frame>, a: nat)
    requires a <= |frames| && Starts(built, frames, a)
    ensures Run(built, frames[..a]) in {None, Some(Window(0, Previous(built, frames, a)))}
  {
    if a > 0 {
      var p: nat :| p < a && Starts(built, frames, p) && IsWindow(built, frames, p, a - 1);
      StartState(built, frames, p);
      WindowEnds(built, frames, p, a - 1);
    }
  }

  /** The frame that ends a window closes the connection exactly when the window carries too much. */
  lemma {:induction false} WindowEnds(built: int, frames: seq<Frame>, a: nat, b: nat)
    requires IsWindow(built, frames, a, b)
    requires Run(built, frames[..a]) in {None, Some(Window(0, Previous(built, frames, a)))}
    ensures var before, after := Run(built, frames[..a]), Run(built, frames[..b + 1]);
            && (after.None? <==> before.None? || Bytes(frames[a..b + 1]) > MAX_BYTES_PER_WINDOW)
            && (after.Some? ==> after.value == Window(0, frames[b].time))
  {
    if Run(built, frames[..a]).None? {
      StaysClosed(built, frames, a, b + 1);
    } else {
      WindowFills(built, frames, a, b);
      RunNext(built, frames, b);
      BytesNext(frames, a, b);
    }
  }

  lemma {:induction false} StaysClosed(built: int, frames: seq<Frame>, a: nat, n: nat)
    requires a <= n <= |frames| && Run(built, frames[..a]).None?
    ensures Run(built, frames[..n]).None?
  {
    if a < n {
      StaysClosed(built, frames, a, n - 1);
      RunNext(built, frames, n - 1);
    }
  }

  /** While a run is open some window is, and the counter holds exactly that window's bytes. */
  lemma {:induction false} CurrentWindow(built: int, frames: seq<Frame>, n: nat) returns (from: nat)
    requires n <= |frames| && Run(built, frames[..n]).Some?
    ensures Starts(built, frames, from) && Recent(built, frames, from, n)
    ensures Run(built, frames[..n]) == Some(Window(Bytes(frames[from..n]), Previous(built, frames, from)))
  {
    from := 0;
    if n > 0 {
      RunNext(built, frames, n - 1);
      from := CurrentWindow(built, frames, n - 1);
      BytesNext(frames, from, n - 1);
      if Expired(Run(built, frames[..n - 1]).value, frames[n - 1].time) {
        assert IsWindow(built, frames, from, n - 1);
        assert Starts(built, frames, n);
        from := n;
        assert frames[n..n] == [];
      }
    }
  }

  lemma {:induction false} FirstExcess(built: int, frames: seq<Frame>, n: nat) returns (a: nat, b: nat)
    requires n <= |frames| && Run(built, frames[..n]).None?
    ensures Excess(built, frames, a, b)
  {
    RunNext(built, frames, n - 1);
    if Run(built, frames[..n - 1]).None? {
      a, b := FirstExcess(built, frames, n - 1);
    } else {
      a := CurrentWindow(built, frames, n - 1);
      b := n - 1;
      BytesNext(frames, a, b);
      assert IsWindow(built, frames, a, b);
    }
  }

  lemma ExcessCloses(built: int, frames: seq<Frame>, a: nat, b: nat)
    requires Excess(built, frames, a, b)
    ensures Run(built, frames[..|frames|]).None?
  {
    StartState(built, frames, a);
    WindowEnds(built, frames, a, b);
    StaysClosed(built, frames, b + 1, |frames|);
  }

  /**
   A connection is closed for its rate exactly when some window, up to and including the frame
   that ends it, carries more than 600 KiB. How fast those bytes came does not matter.
   */
  lemma ClosedIffExcess(built: int, frames: seq<Frame>)
    ensures Run(built, frames).None? <==> exists a: nat, b: nat :: Excess(built, frames, a, b)
  {
    assert frames[..|frames|] == frames;
    if Run(built, frames).None? {
      var a, b := FirstExcess(built, frames, |frames|);
    }
    if a: nat, b: nat :| Excess(built, frames, a, b) {
      ExcessCloses(built, frames, a, b);
    }
  }

  /**
   The limit is only looked at when a window ends, so an open window can hold any amount: all that
   came since it started. The next frame is refused exactly when it ends the window and the sum is
   too large; and the window is over the limit exactly when every frame that ends it is refused.
   */
  lemma NextFrameRefusedIff(built: int, frames: seq<Frame>, from: nat, f: Frame)
    requires Run(built, frames).Some?
    requires Starts(built, frames, from) && Recent(built, frames, from, |frames|)
    ensures var w, start := Run(built, frames).value, Previous(built, frames, from);
            && w == Window(Bytes(frames[from..]), start)
            && (Run(built, frames + [f]).None? <==>
                  f.time - start >= 3000000000 && Bytes(frames[from..]) + f.bytes > 614400)
            && (Bytes(frames[from..]) > 614400 <==>
                  forall last: Frame :: last.time - start >= 3000000000 ==> Admit(w, last).None?)
  {
    var n, start := |frames|, Previous(built, frames, from);
    assert frames[..n] == frames && frames[from..n] == frames[from..];
    StartState(built, frames, from);
    if Run(built, frames[..from]).None? {
      StaysClosed(built, frames, from, n);
    }
    WindowFills(built, frames, from, n);
    assert (frames + [f])[..n] == frames;
    var w := Run(built, frames).value;
    assert Admit(w, Frame(start + PERIOD, 0)).None? <==> w.bytes > MAX_BYTES_PER_WINDOW;
  }

  function Allowance(rate: nat, burst: nat, duration: int): int {
    rate * duration + burst * SECOND
  }

  /** At most `rate` bytes a second and `burst` on top, in every interval between two frames. */
  ghost predicate Paced(frames: seq<Frame>, rate: nat, burst: nat) {
    forall i, j :: 0 <= i <= j < |frames| ==> PacedBetween(frames, i, j, rate, burst)
  }

  ghost predicate PacedBetween(frames: seq<Frame>, i: nat, j: nat, rate: nat, burst: nat)
    requires i <= j < |frames|
  {
    Bytes(frames[i..j + 1]) * SECOND <= Allowance(rate, burst, frames[j].time - frames[i].time)
  }

  /** Never silent for more than `gap`, the time before the first frame included. */
  ghost predicate Steady(built: int, frames: seq<Frame>, gap: nat) {
    forall i :: 0 <= i < |frames| ==> frames[i].time - Previous(built, frames, i) <= gap
  }

  lemma MulMonotone(k: nat, a: int, b: int)
    requires a <= b
    ensures k * a <= k * b
  {
  }

  /** A window of a steady sender is not much longer than three seconds. */
  lemma WindowIsShort(built: int, frames: seq<Frame>, a: nat, b: nat, gap: nat)
    requires InOrder(built, frames) && Steady(built, frames, gap) && IsWindow(built, frames, a, b)
    ensures Previous(built, frames, a) <= frames[a].time
    ensures frames[b].time - Previous(built, frames, a) <= PERIOD + gap
  {
    assert frames[b].time - Previous(built, frames, b) <= gap;
    if a < b {
      assert frames[b - 1].time - Previous(built, frames, a) < PERIOD;
    }
  }

  lemma WithinBudget(bytes: nat, duration: int, rate: nat, burst: nat, longest: int)
    requires bytes * SECOND <= Allowance(rate, burst, duration) && duration <= longest
    requires Allowance(rate, burst, longest) <= MAX_BYTES_PER_WINDOW * SECOND
    ensures bytes <= MAX_BYTES_PER_WINDOW
  {
    MulMonotone(rate, duration, longest);
  }

  lemma PacedWindowFits(built: int, frames: seq<Frame>, a: nat, b: nat, rate: nat, burst: nat, gap: nat)
    requires InOrder(built, frames) && Steady(built, frames, gap) && IsWindow(built, frames, a, b)
    requires PacedBetween(frames, a, b, rate, burst)
    requires Allowance(rate, burst, PERIOD + gap) <= MAX_BYTES_PER_WINDOW * SECOND
    ensures Bytes(frames[a..b + 1]) <= MAX_BYTES_PER_WINDOW
  {
    var bytes, duration := Bytes(frames[a..b + 1]), frames[b].time - frames[a].time;
    WindowIsShort(built, frames, a, b, gap);
    assert duration <= PERIOD + gap;
    assert bytes * SECOND <= Allowance(rate, burst, duration);
    WithinBudget(bytes, duration, rate, burst, PERIOD + gap);
  }

  /** A sender that keeps the pace is never closed for its rate, however long the run. */
  lemma NoFalsePositive(built: int, frames: seq<Frame>, rate: nat, burst: nat, gap: nat)
    requires InOrder(built, frames) && Paced(frames, rate, burst) && Steady(built, frames, gap)
    requires Allowance(rate, burst, PERIOD + gap) <= MAX_BYTES_PER_WINDOW * SECOND
    ensures Run(built, frames).Some?
  {
    ClosedIffExcess(built, frames);
    if a: nat, b: nat :| Excess(built, frames, a, b) {
      assert PacedBetween(frames, a, b, rate, burst);
      PacedWindowFits(built, frames, a, b, rate, burst, gap);
      assert false;
    }
  }
}
