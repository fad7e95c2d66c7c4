/**
 The audio conditioning applied to every accepted chunk: a one-pole high-pass filter whose
 state survives from chunk to chunk, then a peak normalisation with a capped gain.
 Samples are `real`: rounding is not modelled.
 */
module AudioPreprocessor {

  const ALPHA: real := 0.969
  const NOISE_FLOOR: real := 0.02
  const TARGET_PEAK: real := 0.9
  const MAX_GAIN: real := 4.0

  /** What the filter remembers between two calls. */
  datatype FilterState = FilterState(raw: real, filtered: real)

  const SILENT: FilterState := FilterState(0.0, 0.0)

  function Abs(x: real): real {
    if x < 0.0 then -x else x
  }

  function Min(x: real, y: real): real {
    if x <= y then x else y
  }

  function Max(x: real, y: real): real {
    if x <= y then y else x
  }

  ghost predicate Within(x: seq<real>, bound: real) {
    forall i :: 0 <= i < |x| ==> Abs(x[i]) <= bound
  }

  function Concat(chunks: seq<seq<real>>): seq<real> {
    if chunks == [] then [] else Concat(chunks[..|chunks| - 1]) + chunks[|chunks| - 1]
  }

  // ----- the filter -----

  function Next(s: FilterState, x: real): FilterState {
    FilterState(x, ALPHA * (s.filtered + x - s.raw))
  }

  function StateAfter(x: seq<real>, s: FilterState): FilterState {
    if x == [] then s else Next(StateAfter(x[..|x| - 1], s), x[|x| - 1])
  }

  /** The filtered signal: sample `i` is the filter output after samples `0..i`. */
  function HighPass(x: seq<real>, s: FilterState): (y: seq<real>)
    ensures |y| == |x|
  {
    if x == [] then [] else HighPass(x[..|x| - 1], s) + [StateAfter(x, s).filtered]
  }

  // ----- the normaliser -----

  function Peak(y: seq<real>): real {
    if y == [] then 0.0 else Max(Peak(y[..|y| - 1]), Abs(y[|y| - 1]))
  }

  /** `Peak` is the largest magnitude: no sample exceeds it and some sample attains it. */
  lemma {:induction false} PeakIsLargest(y: seq<real>) returns (at: nat)
    ensures 0.0 <= Peak(y)
    ensures Within(y, Peak(y))
    ensures y != [] ==> at < |y| && Abs(y[at]) == Peak(y)
  {
    at := 0;
    if y != [] {
      var init := y[..|y| - 1];
      at := PeakIsLargest(init);
      forall i | 0 <= i < |y|
        ensures Abs(y[i]) <= Peak(y)
      {
        if i < |init| {
          assert Abs(init[i]) <= Peak(init);
        }
      }
      if init == [] || Peak(init) < Abs(y[|y| - 1]) {
        at := |y| - 1;
      } else {
        assert init[at] == y[at];
      }
    }
  }

  function Gain(peak: real): real {
    if NOISE_FLOOR < peak < TARGET_PEAK then Min(TARGET_PEAK / peak, MAX_GAIN) else 1.0
  }

  function Amplify(v: real, gain: real): real {
    v * gain
  }

  function Scaled(y: seq<real>, gain: real): (z: seq<real>)
    ensures |z| == |y|
  {
    if y == [] then [] else Scaled(y[..|y| - 1], gain) + [Amplify(y[|y| - 1], gain)]
  }

  lemma ScaledSnoc(y: seq<real>, v: real, gain: real)
    ensures Scaled(y + [v], gain) == Scaled(y, gain) + [Amplify(v, gain)]
  {
    assert (y + [v])[..|y|] == y;
  }

  lemma PeakSnoc(y: seq<real>, v: real)
    ensures Peak(y + [v]) == Max(Peak(y), Abs(v))
  {
    assert (y + [v])[..|y|] == y;
  }

  lemma {:induction false} ScaledAt(y: seq<real>, gain: real, i: nat)
    requires i < |y|
    ensures Scaled(y, gain)[i] == Amplify(y[i], gain)
  {
    if i < |y| - 1 {
      ScaledAt(y[..|y| - 1], gain, i);
    }
  }

  lemma {:induction false} ScaledByOne(y: seq<real>)
    ensures Scaled(y, 1.0) == y
  {
    if y != [] {
      ScaledByOne(y[..|y| - 1]);
    }
  }

  function Preprocessed(x: seq<real>, s: FilterState): (z: seq<real>)
    ensures |z| == |x|
  {
    var y := HighPass(x, s);
    Scaled(y, Gain(Peak(y)))
  }

  /** Works on the array in two passes: one filters it and tracks the peak, a second one scales it. */
  method Process(pcm: array<real>, prevRaw: real, prevFiltered: real) returns (raw: real, filtered: real)
    modifies pcm
    ensures pcm[..] == Preprocessed(old(pcm[..]), FilterState(prevRaw, prevFiltered))
    ensures FilterState(raw, filtered) == StateAfter(old(pcm[..]), FilterState(prevRaw, prevFiltered))
  {
    var peak;
    raw, filtered, peak := FilterInPlace(pcm, prevRaw, prevFiltered);
    ghost var y := pcm[..];
    if NOISE_FLOOR < peak < TARGET_PEAK {
      ScaleInPlace(pcm, Min(TARGET_PEAK / peak, MAX_GAIN));
    } else {
      ScaledByOne(y);
    }
  }

  method FilterInPlace(pcm: array<real>, prevRaw: real, prevFiltered: real)
    returns (raw: real, filtered: real, peak: real)
    modifies pcm
    ensures pcm[..] == HighPass(old(pcm[..]), FilterState(prevRaw, prevFiltered))
    ensures FilterState(raw, filtered) == StateAfter(old(pcm[..]), FilterState(prevRaw, prevFiltered))
    ensures peak == Peak(pcm[..])
  {
    ghost var x, s := pcm[..], FilterState(prevRaw, prevFiltered);
    raw, filtered, peak := prevRaw, prevFiltered, 0.0;
    for i := 0 to pcm.Length
      invariant FilterState(raw, filtered) == StateAfter(x[..i], s)
      invariant pcm[..i] == HighPass(x[..i], s)
      invariant forall k :: i <= k < pcm.Length ==> pcm[k] == x[k]
      invariant peak == Peak(pcm[..i])
    {
      ghost var done := pcm[..i];
      assert x[..i + 1][..i] == x[..i];
      var sample := pcm[i];
      filtered := ALPHA * (filtered + sample - raw);
      raw := sample;
      pcm[i] := filtered;
      assert pcm[..i + 1] == done + [filtered];
      assert pcm[..i + 1][..i] == done;
      peak := Max(peak, Abs(filtered));
    }
    assert x[..pcm.Length] == x;
    assert pcm[..pcm.Length] == pcm[..];
  }

  method ScaleInPlace(pcm: array<real>, gain: real)
    modifies pcm
    ensures pcm[..] == Scaled(old(pcm[..]), gain)
  {
    ghost var y := pcm[..];
    for i := 0 to pcm.Length
      invariant pcm[..i] == Scaled(y[..i], gain)
      invariant forall k :: i <= k < pcm.Length ==> pcm[k] == y[k]
    {
      ghost var done := pcm[..i];
      pcm[i] := Amplify(pcm[i], gain);
      assert pcm[..i + 1] == done + [pcm[i]];
      ScaledSnoc(y[..i], y[i], gain);
      assert y[..i + 1] == y[..i] + [y[i]];
    }
    assert y[..pcm.Length] == y;
    assert pcm[..pcm.Length] == pcm[..];
  }

  // ----- what the filter promises -----

  /** Filtering in two goes is filtering once: the carried state is all that is needed. */
  lemma {:induction false} HighPassAppend(a: seq<real>, b: seq<real>, s: FilterState)
    ensures StateAfter(a + b, s) == StateAfter(b, StateAfter(a, s))
    ensures HighPass(a + b, s) == HighPass(a, s) + HighPass(b, StateAfter(a, s))
  {
    if b == [] {
      assert a + b == a;
    } else {
      assert (a + b)[..|a + b| - 1] == a + b[..|b| - 1];
      HighPassAppend(a, b[..|b| - 1], s);
    }
  }

  /** The pre-gain outputs of consecutive chunks, each filtered with the state the previous ones left. */
  function FilteredChunks(chunks: seq<seq<real>>, s: FilterState): (out: seq<seq<real>>)
    ensures |out| == |chunks|
  {
    if chunks == [] then
      []
    else
      var init := chunks[..|chunks| - 1];
      FilteredChunks(init, s) + [HighPass(chunks[|chunks| - 1], StateAfter(Concat(init), s))]
  }

  /** However a stream is cut into chunks, the pre-gain signal is the same. */
  lemma {:induction false} ChunkingIsIrrelevant(chunks: seq<seq<real>>, s: FilterState)
    ensures Concat(FilteredChunks(chunks, s)) == HighPass(Concat(chunks), s)
  {
    if chunks != [] {
      var init, last := chunks[..|chunks| - 1], chunks[|chunks| - 1];
      ChunkingIsIrrelevant(init, s);
      HighPassAppend(Concat(init), last, s);
      var out := FilteredChunks(chunks, s);
      assert out[..|out| - 1] == FilteredChunks(init, s);
    }
  }

  function Power(n: nat): real {
    if n == 0 then 1.0 else ALPHA * Power(n - 1)
  }

  /** Sum over k < |x| of ALPHA^(|x|-k) * x[k]: the fading memory of the past. */
  function Memory(x: seq<real>): real {
    if x == [] then 0.0 else ALPHA * (Memory(x[..|x| - 1]) + x[|x| - 1])
  }

  /** `Memory` is the weighted sum it is meant to be: the oldest sample weighs ALPHA^n. */
  lemma {:induction false} MemoryWeights(x: seq<real>)
    requires x != []
    ensures Memory(x) == Power(|x|) * x[0] + Memory(x[1..])
  {
    if |x| == 1 {
      assert x[..0] == [];
      assert Power(1) == ALPHA * Power(0);
    } else {
      var init := x[..|x| - 1];
      MemoryWeights(init);
      assert init[1..] == x[1..][..|x| - 2];
      calc {
        Memory(x);
        ALPHA * (Power(|init|) * x[0] + Memory(init[1..]) + x[|x| - 1]);
        ALPHA * (Power(|init|) * x[0]) + Memory(x[1..]);
        Power(|x|) * x[0] + Memory(x[1..]);
      }
    }
  }

  /** Closed form of the recursion from silence: the new sample, less an average of all earlier ones. */
  lemma {:induction false} HighPassClosedForm(x: seq<real>, i: nat)
    requires i < |x|
    ensures HighPass(x, SILENT)[i] == ALPHA * x[i] - (1.0 - ALPHA) * Memory(x[..i])
    decreases |x|
  {
    var init := x[..|x| - 1];
    if i < |x| - 1 {
      HighPassClosedForm(init, i);
      assert init[..i] == x[..i];
    } else if i == 0 {
      assert init == [];
    } else {
      HighPassClosedForm(init, i - 1);
      var before := x[..i];
      assert before == init && before[..i - 1] == init[..i - 1];
      assert Memory(before) == ALPHA * (Memory(before[..i - 1]) + before[i - 1]);
      StateIsLastOutput(init, SILENT);
    }
  }

  lemma StateIsLastOutput(x: seq<real>, s: FilterState)
    requires x != []
    ensures StateAfter(x, s) == FilterState(x[|x| - 1], HighPass(x, s)[|x| - 1])
  {
  }

  /** A constant offset dies out geometrically, which is what the filter is for. */
  lemma {:induction false} ConstantOffsetDecays(c: real, n: nat)
    ensures n > 0 ==> StateAfter(seq(n, _ => c), SILENT) == FilterState(c, c * Power(n))
  {
    if n > 0 {
      var x := seq(n, _ => c);
      assert x[..n - 1] == seq(n - 1, _ => c);
      ConstantOffsetDecays(c, n - 1);
    }
  }

  // ----- boundedness -----

  /** Inductive over the stream: the output stays close to ALPHA times the input. */
  ghost predicate Tame(s: FilterState, bound: real) {
    Abs(s.raw) <= bound && Abs(s.filtered - 0.969 * s.raw) <= 0.969 * bound
  }

  lemma NextIsTame(s: FilterState, x: real, bound: real)
    requires Tame(s, bound) && Abs(x) <= bound
    ensures Tame(Next(s, x), bound)
    ensures Abs(Next(s, x).filtered) <= 1.938 * bound
  {
    var drift := s.filtered - 0.969 * s.raw;
    assert Next(s, x).filtered - 0.969 * x == 0.969 * drift - 0.969 * 0.031 * s.raw;
  }

  /** Inputs within `bound` give outputs within twice ALPHA times `bound`, however long the stream. */
  lemma {:induction false} HighPassIsBounded(x: seq<real>, s: FilterState, bound: real)
    requires Tame(s, bound) && Within(x, bound)
    ensures Tame(StateAfter(x, s), bound)
    ensures Within(HighPass(x, s), 1.938 * bound)
  {
    if x != [] {
      var init := x[..|x| - 1];
      assert Within(init, bound);
      HighPassIsBounded(init, s, bound);
      NextIsTame(StateAfter(init, s), x[|x| - 1], bound);
      var y := HighPass(init, s);
      assert forall i :: 0 <= i < |y| ==> HighPass(x, s)[i] == y[i];
    }
  }

  lemma Quotient(numerator: real, peak: real) returns (ratio: real)
    requires 0.0 < peak < numerator
    ensures ratio == numerator / peak
    ensures ratio * peak == numerator && 1.0 < ratio
  {
    ratio := numerator / peak;
    assert ratio * peak == numerator;
    assert (ratio - 1.0) * peak == numerator - peak;
  }

  lemma GainRange(peak: real)
    ensures 1.0 <= Gain(peak) <= MAX_GAIN
    ensures NOISE_FLOOR < peak < TARGET_PEAK ==> Amplify(peak, Gain(peak)) == Min(TARGET_PEAK, MAX_GAIN * peak)
    ensures !(NOISE_FLOOR < peak < TARGET_PEAK) ==> Gain(peak) == 1.0
  {
    if NOISE_FLOOR < peak < TARGET_PEAK {
      var ratio := Quotient(TARGET_PEAK, peak);
      assert (MAX_GAIN - ratio) * peak == MAX_GAIN * peak - TARGET_PEAK;
    }
  }

  lemma AmplifyIsMonotone(v: real, w: real, gain: real)
    requires 0.0 <= gain && v <= w
    ensures Amplify(v, gain) <= Amplify(w, gain)
  {
    var slack := w - v;
    assert 0.0 <= slack * gain;
    assert w * gain == (v + slack) * gain;
  }

  lemma MaxScales(v: real, w: real, gain: real)
    requires 0.0 <= gain
    ensures Max(Amplify(w, gain), Abs(Amplify(v, gain))) == Amplify(Max(w, Abs(v)), gain)
  {
    assert Abs(Amplify(v, gain)) == Amplify(Abs(v), gain) by {
      if v < 0.0 {
        AmplifyIsMonotone(v, 0.0, gain);
      } else {
        AmplifyIsMonotone(0.0, v, gain);
      }
    }
    if w <= Abs(v) {
      AmplifyIsMonotone(w, Abs(v), gain);
    } else {
      AmplifyIsMonotone(Abs(v), w, gain);
    }
  }

  /** The peak after scaling is exactly the peak before, times the gain. */
  lemma {:induction false} PeakScales(y: seq<real>, gain: real)
    requires 0.0 <= gain
    ensures Peak(Scaled(y, gain)) == Amplify(Peak(y), gain)
  {
    if y != [] {
      var init, last := y[..|y| - 1], y[|y| - 1];
      assert y == init + [last];
      calc {
        Peak(Scaled(y, gain));
        { ScaledSnoc(init, last, gain); }
        Peak(Scaled(init, gain) + [Amplify(last, gain)]);
        { PeakSnoc(Scaled(init, gain), Amplify(last, gain)); }
        Max(Peak(Scaled(init, gain)), Abs(Amplify(last, gain)));
        { PeakScales(init, gain); }
        Max(Amplify(Peak(init), gain), Abs(Amplify(last, gain)));
        { MaxScales(last, Peak(init), gain); }
        Amplify(Max(Peak(init), Abs(last)), gain);
        Amplify(Peak(y), gain);
      }
    }
  }

  /** The three normalisation rules, as a statement about the loudest sample that comes out. */
  lemma NormalisedPeak(x: seq<real>, s: FilterState)
    ensures var before, after := Peak(HighPass(x, s)), Peak(Preprocessed(x, s));
            after == if NOISE_FLOOR < before < TARGET_PEAK then Min(TARGET_PEAK, MAX_GAIN * before) else before
  {
    var y := HighPass(x, s);
    GainRange(Peak(y));
    PeakScales(y, Gain(Peak(y)));
  }

  /** After both stages every sample is within 0.9 or within 1.938 times the input bound. */
  lemma PreprocessedIsBounded(x: seq<real>, s: FilterState, bound: real)
    requires 0.0 <= bound && Tame(s, bound) && Within(x, bound)
    ensures Within(Preprocessed(x, s), Max(TARGET_PEAK, 1.938 * bound))
    ensures Tame(StateAfter(x, s), bound)
  {
    HighPassIsBounded(x, s, bound);
    NormalisedPeak(x, s);
    var _ := PeakIsLargest(Preprocessed(x, s));
    var loudest := PeakIsLargest(HighPass(x, s));
  }

  // ----- the rules sample by sample, with their numbers -----

  /** What the filter puts out next, and what it remembers. */
  lemma NextIs(s: FilterState, x: real)
    ensures Next(s, x) == FilterState(x, 0.969 * (s.filtered + x - s.raw))
  {
  }

  /** Each sample is filtered once, in order. */
  lemma FilterSnoc(x: seq<real>, v: real, s: FilterState)
    ensures StateAfter(x + [v], s) == Next(StateAfter(x, s), v)
    ensures HighPass(x + [v], s) == HighPass(x, s) + [Next(StateAfter(x, s), v).filtered]
  {
    assert (x + [v])[..|x|] == x;
  }

  /** No gain for noise and loud signals, otherwise up to a peak of 0.9 but at most fourfold. */
  lemma GainIs(peak: real)
    ensures Gain(peak) == if 0.02 < peak && peak < 0.9 then Min(0.9 / peak, 4.0) else 1.0
  {
  }

  lemma AmplifyIs(v: real, gain: real)
    ensures Amplify(v, gain) == v * gain
  {
  }

  /** Every filtered sample is amplified by the gain for the peak of all of them. */
  lemma SampleByOneGain(x: seq<real>, s: FilterState, i: nat)
    requires i < |x|
    ensures Preprocessed(x, s)[i] == Amplify(HighPass(x, s)[i], Gain(Peak(HighPass(x, s))))
  {
    ScaledAt(HighPass(x, s), Gain(Peak(HighPass(x, s))), i);
  }
}
