/**
 The sliding-window engine: a bounded buffer of preprocessed samples, a decoder that is an
 oracle, and the rule that decides which decoded segments become final and how much audio
 leaves the front of the buffer with them.
 */
module WhisperEngine {
  import opened Common
  import opened AudioPreprocessor

  const HIGH_WATER_MARK: nat := 320000  // 20 s at 16 kHz
  const MAX_BUFFER: nat := 480000       // 30 s
  const MAX_WINDOW: nat := 160000       // 10 s
  const OVERLAP: nat := 32000           // 2 s
  const TICK: nat := 160                // samples in one 10 ms decoder tick

  /** One decoded segment: its end in ticks, and a text that the decoder may not provide. */
  datatype Segment = Segment(t1: int, text: Option<string>)

  /** What the decoder answers; nothing is assumed about timestamps or texts. */
  datatype Decode = Failed(code: int) | Decoded(segments: seq<Segment>)

  /** What a transcription call ends with: an exception, or provisional and final text. */
  datatype Outcome = Thrown(code: int) | Transcript(partial: string, committed: string)

  datatype EngineState = EngineState(buffer: seq<real>, filter: FilterState)

  const FRESH: EngineState := EngineState([], SILENT)

  // ----- feeding audio -----

  predicate Full(s: EngineState) {
    |s.buffer| >= HIGH_WATER_MARK
  }

  function Last(x: seq<real>, n: nat): seq<real> {
    if |x| <= n then x else x[|x| - n..]
  }

  function Feed(s: EngineState, pcm: seq<real>): EngineState {
    if Full(s) then s
    else EngineState(Last(s.buffer + Preprocessed(pcm, s.filter), MAX_BUFFER), StateAfter(pcm, s.filter))
  }

  // ----- choosing what to commit -----

  function TextOf(segments: seq<Segment>): string {
    if segments == [] then
      ""
    else
      var last := segments[|segments| - 1];
      TextOf(segments[..|segments| - 1]) + if last.text.Some? then last.text.value else ""
  }

  /** How many leading segments are committed (0 for none), and the tick up to which audio goes. */
  datatype Cut = Cut(count: nat, t1: int)

  /** A tick that leaves the last two seconds of an `n`-sample buffer untouched. */
  function OverlapBound(n: nat): int
    requires n >= OVERLAP
  {
    (n - OVERLAP) / TICK
  }

  ghost predicate EndsBefore(segments: seq<Segment>, bound: int, i: int) {
    0 <= i < |segments| && segments[i].t1 < bound
  }

  /** `i` is the last segment that ends before `bound`, or -1 when there is none. */
  ghost predicate IsLastBefore(segments: seq<Segment>, bound: int, i: int) {
    && -1 <= i < |segments|
    && (i >= 0 ==> EndsBefore(segments, bound, i))
    && forall j :: i < j < |segments| ==> !EndsBefore(segments, bound, j)
  }

  /** The commit rule, declaratively. */
  ghost predicate IsCut(n: nat, force: bool, segments: seq<Segment>, cut: Cut) {
    if force then
      cut == Cut(|segments|, 0)
    else if n < MAX_WINDOW then
      cut == Cut(0, 0)
    else
      exists i :: IsLastBefore(segments, OverlapBound(n), i) && cut ==
        if i >= 0 then Cut(i + 1, segments[i].t1)
        else if |segments| > 1 then Cut(|segments| - 1, segments[|segments| - 2].t1)
        else Cut(0, 0)
  }

  function LastBefore(segments: seq<Segment>, bound: int): (i: int)
    ensures IsLastBefore(segments, bound, i)
  {
    if segments == [] then -1
    else if segments[|segments| - 1].t1 < bound then |segments| - 1
    else
      var init := segments[..|segments| - 1];
      var i := LastBefore(init, bound);
      assert i >= 0 ==> EndsBefore(init, bound, i);
      assert forall j :: i < j < |init| ==> !EndsBefore(init, bound, j) && init[j] == segments[j];
      i
  }

  function ChooseCut(n: nat, force: bool, segments: seq<Segment>): (cut: Cut)
    ensures cut.count <= |segments|
  {
    if force then
      Cut(|segments|, 0)
    else if n < MAX_WINDOW then
      Cut(0, 0)
    else
      var i := LastBefore(segments, OverlapBound(n));
      if i >= 0 then Cut(i + 1, segments[i].t1)
      else if |segments| > 1 then Cut(|segments| - 1, segments[|segments| - 2].t1)
      else Cut(0, 0)
  }

  /** The rule names one cut and no other, the one that is chosen. */
  lemma CutIsUnique(n: nat, force: bool, segments: seq<Segment>, cut: Cut)
    ensures IsCut(n, force, segments, cut) <==> cut == ChooseCut(n, force, segments)
  {
  }

  /** Samples that leave the front of an `n`-sample buffer. */
  function Erasure(n: nat, force: bool, cut: Cut): (k: nat)
    ensures k <= n
  {
    if cut.count == 0 then 0
    else if cut.t1 > 0 then (if cut.t1 * TICK < n then cut.t1 * TICK else n)
    else if force then n
    else 0
  }

  function Transcribe(s: EngineState, force: bool, d: Decode): (r: (EngineState, Outcome))
    ensures r.0.filter == s.filter
    ensures |r.0.buffer| <= |s.buffer|
  {
    if s.buffer == [] then
      (s, Transcript("", ""))
    else
      match d
      case Failed(code) => (s, Thrown(code))
      case Decoded(segments) =>
        var cut := ChooseCut(|s.buffer|, force, segments);
        (s.(buffer := s.buffer[Erasure(|s.buffer|, force, cut)..]),
         Transcript(TextOf(segments[cut.count..]), TextOf(segments[..cut.count])))
  }

  // ----- trimming -----

  function Reset(s: EngineState, keep: nat): EngineState {
    s.(buffer := if keep == 0 || keep >= |s.buffer| then [] else s.buffer[|s.buffer| - keep..])
  }

  // ----- the engine object -----

  class StreamingWhisperEngine {
    var audioBuffer: seq<real>
    var prevRaw: real
    var prevFiltered: real

    ghost function State(): EngineState
      reads this
    {
      EngineState(audioBuffer, FilterState(prevRaw, prevFiltered))
    }

    constructor ()
      ensures State() == FRESH
    {
      audioBuffer := [];
      prevRaw, prevFiltered := 0.0, 0.0;
    }

    /** Construction as a caller sees it: without a context or a decoder state there is an exception, and no engine. */
    static method Create(hasContext: bool, hasState: bool) returns (engine: StreamingWhisperEngine?)
      ensures engine == null <==> !hasContext || !hasState
      ensures engine != null ==> fresh(engine) && engine.State() == FRESH
    {
      if !hasContext {
        return null;
      }
      if !hasState {
        return null;
      }
      engine := new StreamingWhisperEngine();
    }

    method ProcessAudioChunk(pcm: seq<real>) returns (dropped: bool)
      modifies this
      ensures State() == Feed(old(State()), pcm)
      ensures dropped == Full(old(State()))
    {
      if |audioBuffer| >= HIGH_WATER_MARK {
        return true;
      }
      var samples := new real[|pcm|](i requires 0 <= i < |pcm| => pcm[i]);
      assert samples[..] == pcm;
      prevRaw, prevFiltered := Process(samples, prevRaw, prevFiltered);
      Append(samples[..]);
      return false;
    }

    /** Old audio makes room when the hard cap is reached. */
    method Append(prepped: seq<real>)
      requires |audioBuffer| <= MAX_BUFFER
      modifies this`audioBuffer
      ensures audioBuffer == Last(old(audioBuffer) + prepped, MAX_BUFFER)
    {
      var total := |audioBuffer| + |prepped|;
      if total > MAX_BUFFER {
        if |prepped| >= MAX_BUFFER {
          audioBuffer := [];
          audioBuffer := audioBuffer + prepped[|prepped| - MAX_BUFFER..];
        } else {
          var discard := total - MAX_BUFFER;
          audioBuffer := audioBuffer[discard..];
          audioBuffer := audioBuffer + prepped;
        }
      } else {
        audioBuffer := audioBuffer + prepped;
      }
    }

    /** The segment texts from index `from` up to but not including `to`, one after the other. */
    static method Gather(segments: seq<Segment>, from: nat, to: nat) returns (text: string)
      requires from <= to <= |segments|
      ensures text == TextOf(segments[from..to])
    {
      text := "";
      for i := from to to
        invariant text == TextOf(segments[from..i])
      {
        assert segments[from..i + 1][..i - from] == segments[from..i];
        if segments[i].text.Some? {
          text := text + segments[i].text.value;
        }
      }
    }

    method TranscribeSlidingWindow(force: bool, decode: Decode) returns (outcome: Outcome)
      modifies this
      ensures (State(), outcome) == Transcribe(old(State()), force, decode)
    {
      if audioBuffer == [] {
        return Transcript("", "");
      }
      if decode.Failed? {
        return Thrown(decode.code);
      }
      var segments := decode.segments;
      if force || |audioBuffer| >= MAX_WINDOW {
        var upTo, t1 := FindCut(|audioBuffer|, force, segments);
        if upTo >= 0 {
          var committed := Gather(segments, 0, upTo + 1);
          var partial := Gather(segments, upTo + 1, |segments|);
          assert segments[0..upTo + 1] == segments[..upTo + 1];
          assert segments[upTo + 1..|segments|] == segments[upTo + 1..];
          Erase(force, upTo + 1, t1);
          return Transcript(partial, committed);
        }
      }
      var partial := Gather(segments, 0, |segments|);
      assert segments[0..|segments|] == segments == segments[0..];
      assert audioBuffer == audioBuffer[0..];
      return Transcript(partial, "");
    }

    /** The last segment to commit (-1 for none) and its end, searching backwards from the newest. */
    static method FindCut(n: nat, force: bool, segments: seq<Segment>) returns (upTo: int, t1: int)
      requires force || n >= MAX_WINDOW
      ensures -1 <= upTo
      ensures Cut(upTo + 1, t1) == ChooseCut(n, force, segments)
    {
      upTo, t1 := -1, 0;
      if force {
        upTo := |segments| - 1;
      } else {
        var bound := (n - OVERLAP) / TICK;
        var i := |segments| - 1;
        while i >= 0
          invariant -1 <= i < |segments|
          invariant upTo == -1 && t1 == 0
          invariant forall j :: i < j < |segments| ==> !EndsBefore(segments, bound, j)
        {
          if segments[i].t1 < bound {
            upTo, t1 := i, segments[i].t1;
            break;
          }
          i := i - 1;
        }
        assert IsLastBefore(segments, bound, upTo);
        if upTo == -1 && |segments| > 1 {
          upTo := |segments| - 2;
          t1 := segments[upTo].t1;
        }
        CutIsUnique(n, force, segments, Cut(upTo + 1, t1));
      }
    }

    method Erase(force: bool, count: nat, t1: int)
      requires count > 0
      modifies this`audioBuffer
      ensures audioBuffer == old(audioBuffer)[Erasure(|old(audioBuffer)|, force, Cut(count, t1))..]
    {
      if t1 > 0 {
        var samples := t1 * TICK;
        if samples < |audioBuffer| {
          audioBuffer := audioBuffer[samples..];
        } else {
          audioBuffer := [];
        }
      } else if force {
        audioBuffer := [];
      }
    }

    method Trim(keep: nat)
      modifies this
      ensures State() == Reset(old(State()), keep)
    {
      if keep == 0 || keep >= |audioBuffer| {
        audioBuffer := [];
      } else {
        audioBuffer := audioBuffer[|audioBuffer| - keep..];
      }
    }
  }

  // ----- one call -----

  lemma {:induction false} TextOfAppend(a: seq<Segment>, b: seq<Segment>)
    ensures TextOf(a + b) == TextOf(a) + TextOf(b)
  {
    if b == [] {
      assert a + b == a;
    } else {
      assert (a + b)[..|a + b| - 1] == a + b[..|b| - 1];
      TextOfAppend(a, b[..|b| - 1]);
    }
  }

  lemma TextOfParts(segments: seq<Segment>, n: nat)
    requires n <= |segments|
    ensures TextOf(segments[..n]) + TextOf(segments[n..]) == TextOf(segments)
  {
    TextOfAppend(segments[..n], segments[n..]);
    assert segments[..n] + segments[n..] == segments;
  }

  /** One segment gives its text, and many give theirs one after the other. */
  lemma TextOfOne(segment: Segment)
    ensures TextOf([segment]) == if segment.text.Some? then segment.text.value else ""
    ensures TextOf([]) == ""
  {
  }

  /** A forced decode commits everything that was heard, provided there is audio and the decoder does not fail. */
  lemma ForcedDecode(s: EngineState, segments: seq<Segment>)
    requires s.buffer != []
    ensures var (after, outcome) := Transcribe(s, true, Decoded(segments));
            && outcome == Transcript("", TextOf(segments))
            && after == s.(buffer := if segments == [] then s.buffer else [])
  {
    assert segments[..|segments|] == segments && segments[|segments|..] == [];
  }

  /** Below ten seconds of audio nothing is committed and nothing leaves. */
  lemma ShortDecode(s: EngineState, segments: seq<Segment>)
    requires 0 < |s.buffer| < 160000
    ensures Transcribe(s, false, Decoded(segments)) == (s, Transcript(TextOf(segments), ""))
  {
    assert segments[..0] == [] && segments[0..] == segments;
  }

  /** From ten seconds on, what is committed, what stays provisional, and which samples leave. */
  lemma WindowDecode(s: EngineState, segments: seq<Segment>, i: int)
    requires |s.buffer| >= 160000 && -1 <= i < |segments|
    requires i >= 0 ==> segments[i].t1 < (|s.buffer| - 32000) / 160
    requires forall j :: i < j < |segments| ==> segments[j].t1 >= (|s.buffer| - 32000) / 160
    ensures var (after, outcome) := Transcribe(s, false, Decoded(segments));
            var count := if i >= 0 then i + 1 else if |segments| > 1 then |segments| - 1 else 0;
            && outcome == Transcript(TextOf(segments[count..]), TextOf(segments[..count]))
            && after.filter == s.filter
            && after.buffer ==
               if count == 0 || segments[count - 1].t1 <= 0 then s.buffer
               else if segments[count - 1].t1 * 160 < |s.buffer| then s.buffer[segments[count - 1].t1 * 160..]
               else []
  {
    var n := |s.buffer|;
    assert OverlapBound(n) == (n - 32000) / 160;
    assert IsLastBefore(segments, OverlapBound(n), i);
    CutIsUnique(n, false, segments,
      if i >= 0 then Cut(i + 1, segments[i].t1)
      else if |segments| > 1 then Cut(|segments| - 1, segments[|segments| - 2].t1)
      else Cut(0, 0));
    assert s.buffer[0..] == s.buffer;
  }

  /** Without audio the decoder is not asked; when it fails the audio stays and the caller gets its code. */
  lemma NoDecode(s: EngineState, force: bool, d: Decode)
    ensures s.buffer == [] ==> Transcribe(s, force, d) == (s, Transcript("", ""))
    ensures s.buffer != [] && d.Failed? ==> Transcribe(s, force, d) == (s, Thrown(d.code))
  {
  }

  /**
   From twenty seconds on a chunk is dropped and leaves no trace. Otherwise the filter advances over
   it and the buffer is the end of old and new audio, thirty seconds of it or all there is.
   */
  lemma FeedEffect(s: EngineState, pcm: seq<real>)
    ensures var all := s.buffer + Preprocessed(pcm, s.filter);
            if |s.buffer| >= 320000 then Feed(s, pcm) == s
            else
              && Feed(s, pcm).filter == StateAfter(pcm, s.filter)
              && Feed(s, pcm).buffer == if |all| <= 480000 then all else all[|all| - 480000..]
  {
  }

  /** No text is lost, repeated or reordered by a cut: final text then provisional text is all text. */
  lemma TextIsPartitioned(s: EngineState, force: bool, segments: seq<Segment>)
    requires s.buffer != []
    ensures var outcome := Transcribe(s, force, Decoded(segments)).1;
            outcome.committed + outcome.partial == TextOf(segments)
  {
    TextOfParts(segments, ChooseCut(|s.buffer|, force, segments).count);
  }

  /**
   When some segment ends before the overlap, the last such segment closes the commit and more
   than two seconds of audio stay; otherwise everything but the last segment is committed and
   at least eight seconds leave.
   */
  lemma WindowCommit(s: EngineState, segments: seq<Segment>)
    requires |s.buffer| >= MAX_WINDOW
    ensures var n := |s.buffer|;
            var (after, outcome) := Transcribe(s, false, Decoded(segments));
            if exists i :: EndsBefore(segments, OverlapBound(n), i) then
              && |after.buffer| >= OVERLAP + TICK
              && exists i :: IsLastBefore(segments, OverlapBound(n), i)
                             && outcome.committed == TextOf(segments[..i + 1])
            else if |segments| > 1 then
              && |after.buffer| <= n - (MAX_WINDOW - OVERLAP)
              && outcome.committed == TextOf(segments[..|segments| - 1])
            else
              after == s && outcome.committed == ""
  {
    var n := |s.buffer|;
    var bound := OverlapBound(n);
    var i := LastBefore(segments, bound);
    if i >= 0 {
      assert EndsBefore(segments, bound, i);
      assert bound * TICK <= n - OVERLAP;
    } else if |segments| > 1 {
      assert !EndsBefore(segments, bound, |segments| - 2);
      assert bound >= 800;
    }
  }

  /** The sample, counted from the front of an `n`-sample buffer, at which a segment ends. */
  function EndSample(n: nat, t1: int): int {
    if t1 * TICK < n then t1 * TICK else n
  }

  /**
   The front of the buffer has moved, and past the end of every committed segment, so none of
   the audio behind the committed text can be decoded again.
   */
  ghost predicate LeavesCommitted(n: nat, gone: int, committed: seq<Segment>) {
    gone > 0 && forall i :: 0 <= i < |committed| ==> EndSample(n, committed[i].t1) <= gone
  }

  /** No committed segment ends after the one that closes the commit, unless all audio goes anyway. */
  ghost predicate NoneEndsLater(n: nat, segments: seq<Segment>, cut: Cut) {
    cut.t1 * TICK >= n || forall i :: 0 <= i < cut.count && i < |segments| ==> segments[i].t1 <= cut.t1
  }

  ghost predicate NonDecreasing(segments: seq<Segment>) {
    forall i, j :: 0 <= i < j < |segments| ==> segments[i].t1 <= segments[j].t1
  }

  /** What a decoder's answer must look like for its committed text to take its audio along. */
  ghost predicate Clean(n: nat, force: bool, segments: seq<Segment>) {
    var cut := ChooseCut(n, force, segments);
    force || (cut.t1 > 0 && NoneEndsLater(n, segments, cut))
  }

  /**
   Committed text is meant never to be sent again. A commit takes all audio of its segments out
   of the buffer exactly when it is forced, or when it ends at a positive tick after which no
   committed segment ends, or takes everything. For timestamps in order the positive tick decides.
   */
  lemma CommittedAudioLeavesIff(s: EngineState, force: bool, segments: seq<Segment>)
    requires s.buffer != [] && ChooseCut(|s.buffer|, force, segments).count > 0
    ensures var n, cut := |s.buffer|, ChooseCut(|s.buffer|, force, segments);
            var gone := n - |Transcribe(s, force, Decoded(segments)).0.buffer|;
            && (gone == 0 <==> !force && cut.t1 <= 0)
            && (LeavesCommitted(n, gone, segments[..cut.count]) <==> Clean(n, force, segments))
            && (NonDecreasing(segments) ==> (Clean(n, force, segments) <==> force || cut.t1 > 0))
  {
    var n, cut := |s.buffer|, ChooseCut(|s.buffer|, force, segments);
    if !force && 0 < cut.t1 && cut.t1 * TICK < n {
      forall i | 0 <= i < cut.count
        ensures EndSample(n, segments[..cut.count][i].t1) <= cut.t1 * TICK <==> segments[i].t1 <= cut.t1
      {
      }
    }
  }

  /** A forced commit is meant to empty the buffer; it does exactly when the decoder found a segment. */
  lemma ForcedCommitEmpties(s: EngineState, segments: seq<Segment>)
    requires s.buffer != []
    ensures Transcribe(s, true, Decoded(segments)).0.buffer == [] <==> segments != []
  {
  }

  /** `Reset` keeps the last `keep` samples exactly when fewer than all are asked for. */
  lemma ResetKeepsTail(s: EngineState, keep: nat)
    ensures Reset(s, keep).buffer == Last(s.buffer, keep) <==> keep < |s.buffer| || s.buffer == []
    ensures Reset(s, keep) == s.(buffer := if keep < |s.buffer| then s.buffer[|s.buffer| - keep..] else [])
  {
  }

  /** Accepting a chunk: the resulting length, and how much old audio the cap pushes out. */
  lemma CapArithmetic(s: EngineState, pcm: seq<real>)
    requires !Full(s)
    ensures var n, l := |s.buffer|, |pcm|;
            && |Feed(s, pcm).buffer| == (if n + l <= MAX_BUFFER then n + l else MAX_BUFFER)
            && (l <= 160001 ==> |Feed(s, pcm).buffer| == n + l)
            && (l <= 262144 ==> l < MAX_BUFFER && n + l - |Feed(s, pcm).buffer| <= 102143)
  {
  }
}
