/** What every history of chunks, decodes and trims does to the audio, seen as one stream. */
module EngineHistory {
  import opened AudioPreprocessor
  import opened WhisperEngine

  datatype Op = Chunk(pcm: seq<real>) | Inference(force: bool, decode: Decode) | Trimming(keep: nat)

  function Apply(s: EngineState, op: Op): EngineState {
    match op
    case Chunk(pcm) => Feed(s, pcm)
    case Inference(force, d) => Transcribe(s, force, d).0
    case Trimming(keep) => Reset(s, keep)
  }

  function Run(s: EngineState, ops: seq<Op>): EngineState {
    if ops == [] then s else Apply(Run(s, ops[..|ops| - 1]), ops[|ops| - 1])
  }

  /** The raw samples of the chunks that were not dropped. */
  function Taken(s: EngineState, op: Op): seq<real> {
    if op.Chunk? && !Full(s) then op.pcm else []
  }

  function TakenAll(s: EngineState, ops: seq<Op>): seq<real> {
    if ops == [] then []
    else
      var init := ops[..|ops| - 1];
      TakenAll(s, init) + Taken(Run(s, init), ops[|ops| - 1])
  }

  /** The preprocessed samples of the chunks that were not dropped. */
  function Accepted(s: EngineState, op: Op): seq<real> {
    Preprocessed(Taken(s, op), s.filter)
  }

  function AcceptedAll(s: EngineState, ops: seq<Op>): seq<real> {
    if ops == [] then []
    else
      var init := ops[..|ops| - 1];
      AcceptedAll(s, init) + Accepted(Run(s, init), ops[|ops| - 1])
  }

  /** The samples an operation takes off the front of what is there, old and new together. */
  function Removed(s: EngineState, op: Op): seq<real> {
    var available := s.buffer + Accepted(s, op);
    if |Apply(s, op).buffer| <= |available| then available[..|available| - |Apply(s, op).buffer|] else []
  }

  function RemovedAll(s: EngineState, ops: seq<Op>): seq<real> {
    if ops == [] then []
    else
      var init := ops[..|ops| - 1];
      RemovedAll(s, init) + Removed(Run(s, init), ops[|ops| - 1])
  }

  lemma StepConserves(s: EngineState, op: Op)
    ensures s.buffer + Accepted(s, op) == Removed(s, op) + Apply(s, op).buffer
  {
  }

  /** What was accepted is what was removed, in order, and then what is still buffered. */
  ghost predicate Tiled(ops: seq<Op>) {
    AcceptedAll(FRESH, ops) == RemovedAll(FRESH, ops) + Run(FRESH, ops).buffer
  }

  /**
   Over every history the accepted stream is the removed audio followed by the buffer: what
   successive operations remove tiles the stream with no gap and no overlap, in order.
   */
  lemma {:induction false} AudioIsTiled(ops: seq<Op>)
    ensures Tiled(ops)
  {
    if ops != [] {
      var init, op := ops[..|ops| - 1], ops[|ops| - 1];
      var s := Run(FRESH, init);
      AudioIsTiled(init);
      StepConserves(s, op);
      Rejoin(RemovedAll(FRESH, init), s.buffer, Accepted(s, op), Removed(s, op), Apply(s, op).buffer);
    }
  }

  lemma Rejoin(gone: seq<real>, buffer: seq<real>, more: seq<real>, removed: seq<real>, left: seq<real>)
    requires buffer + more == removed + left
    ensures (gone + buffer) + more == (gone + removed) + left
  {
    assert (gone + buffer) + more == gone + (buffer + more);
    assert (gone + removed) + left == gone + (removed + left);
  }

  /** Longer histories only extend both streams, so the buffer's start never moves back. */
  lemma {:induction false} StreamsGrow(ops: seq<Op>, more: seq<Op>)
    ensures AcceptedAll(FRESH, ops) <= AcceptedAll(FRESH, ops + more)
    ensures RemovedAll(FRESH, ops) <= RemovedAll(FRESH, ops + more)
  {
    if more == [] {
      assert ops + more == ops;
    } else {
      StreamsGrow(ops, more[..|more| - 1]);
      assert (ops + more)[..|ops + more| - 1] == ops + more[..|more| - 1];
    }
  }

  // ----- committed audio -----

  /** Samples that a commit and the operations after it take off the front. */
  function GoneWith(ops: seq<Op>, commit: Op, more: seq<Op>): int {
    |RemovedAll(FRESH, ops + [commit] + more)| - |RemovedAll(FRESH, ops)|
  }

  /** All audio behind the committed segments leaves with the commit and stays away for ever. */
  ghost predicate GoneForGood(ops: seq<Op>, commit: Op, n: nat, committed: seq<Segment>) {
    forall more :: LeavesCommitted(n, GoneWith(ops, commit, more), committed)
  }

  lemma GoneAtOnce(ops: seq<Op>, commit: Op)
    requires commit.Inference?
    ensures GoneWith(ops, commit, []) == |Run(FRESH, ops).buffer| - |Apply(Run(FRESH, ops), commit).buffer|
  {
    assert ops + [commit] + [] == ops + [commit];
    assert (ops + [commit])[..|ops|] == ops;
  }

  lemma GoneGrows(ops: seq<Op>, commit: Op, more: seq<Op>)
    ensures GoneWith(ops, commit, []) <= GoneWith(ops, commit, more)
  {
    assert ops + [commit] + [] == ops + [commit];
    StreamsGrow(ops + [commit], more);
  }

  lemma LeavesMore(n: nat, gone: int, more: int, committed: seq<Segment>)
    requires LeavesCommitted(n, gone, committed) && gone <= more
    ensures LeavesCommitted(n, more, committed)
  {
  }

  /** What is gone at once is gone for good. */
  lemma GoneForGoodIff(ops: seq<Op>, commit: Op, n: nat, committed: seq<Segment>)
    ensures GoneForGood(ops, commit, n, committed) <==> LeavesCommitted(n, GoneWith(ops, commit, []), committed)
  {
    if LeavesCommitted(n, GoneWith(ops, commit, []), committed) {
      forall more
        ensures LeavesCommitted(n, GoneWith(ops, commit, more), committed)
      {
        GoneGrows(ops, commit, more);
        LeavesMore(n, GoneWith(ops, commit, []), GoneWith(ops, commit, more), committed);
      }
    }
  }

  /**
   The run behind "committed text is never sent again": from a commit on, no continuation ever has
   audio of the committed segments in its buffer, exactly when the decoder's answer was clean.
   */
  lemma CommittedAudioIsGoneIff(ops: seq<Op>, force: bool, segments: seq<Segment>)
    requires var buffer := Run(FRESH, ops).buffer;
             buffer != [] && ChooseCut(|buffer|, force, segments).count > 0
    ensures var n := |Run(FRESH, ops).buffer|;
            GoneForGood(ops, Inference(force, Decoded(segments)), n, segments[..ChooseCut(n, force, segments).count])
            <==> Clean(n, force, segments)
  {
    var s, commit := Run(FRESH, ops), Inference(force, Decoded(segments));
    CommittedAudioLeavesIff(s, force, segments);
    GoneAtOnce(ops, commit);
    GoneForGoodIff(ops, commit, |s.buffer|, segments[..ChooseCut(|s.buffer|, force, segments).count]);
  }

  // ----- what the buffered samples are -----

  /** The lengths of the chunks that were taken, zero for every other operation. */
  function TakenLengths(s: EngineState, ops: seq<Op>): seq<nat> {
    if ops == [] then []
    else
      var init := ops[..|ops| - 1];
      TakenLengths(s, init) + [|Taken(Run(s, init), ops[|ops| - 1])|]
  }

  /** A filtered stream cut into pieces, each normalised by the gain that its own peak asks for. */
  function Normalised(y: seq<real>, lengths: seq<nat>): seq<real>
    decreases |lengths|
  {
    if lengths == [] then []
    else
      var last := lengths[|lengths| - 1];
      if last > |y| then []
      else
        var cut := |y| - last;
        Normalised(y[..cut], lengths[..|lengths| - 1]) + Scaled(y[cut..], Gain(Peak(y[cut..])))
  }

  lemma NormalisedSnoc(y: seq<real>, lengths: seq<nat>, piece: seq<real>)
    ensures Normalised(y + piece, lengths + [|piece|]) == Normalised(y, lengths) + Scaled(piece, Gain(Peak(piece)))
  {
    assert (y + piece)[..|y|] == y && (y + piece)[|y|..] == piece;
    assert (lengths + [|piece|])[..|lengths|] == lengths;
  }

  /**
   The filter sees exactly the taken chunks, as one stream from silence: dropped chunks,
   decodes and trims leave no trace in it. The accepted stream is that filtered stream, cut where
   the chunks were, each piece raised by the one gain that its peak asks for.
   */
  lemma {:induction false} AcceptedIsFilteredStream(ops: seq<Op>)
    ensures var taken := TakenAll(FRESH, ops);
            && Run(FRESH, ops).filter == StateAfter(taken, SILENT)
            && AcceptedAll(FRESH, ops) == Normalised(HighPass(taken, SILENT), TakenLengths(FRESH, ops))
            && |AcceptedAll(FRESH, ops)| == |taken|
  {
    if ops != [] {
      var init, op := ops[..|ops| - 1], ops[|ops| - 1];
      var s := Run(FRESH, init);
      AcceptedIsFilteredStream(init);
      HighPassAppend(TakenAll(FRESH, init), Taken(s, op), SILENT);
      var before, piece := HighPass(TakenAll(FRESH, init), SILENT), HighPass(Taken(s, op), s.filter);
      NormalisedSnoc(before, TakenLengths(FRESH, init), piece);
    }
  }

  /** Seen sample by sample: no gain is below 1 or above 4. */
  lemma {:induction false} AcceptedIsAmplified(ops: seq<Op>)
    ensures var y := HighPass(TakenAll(FRESH, ops), SILENT);
            && |AcceptedAll(FRESH, ops)| == |y|
            && forall i :: 0 <= i < |y| ==> AmplifiedFrom(AcceptedAll(FRESH, ops)[i], y[i])
  {
    if ops != [] {
      var init, op := ops[..|ops| - 1], ops[|ops| - 1];
      var s := Run(FRESH, init);
      AcceptedIsAmplified(init);
      AcceptedIsFilteredStream(init);
      HighPassAppend(TakenAll(FRESH, init), Taken(s, op), SILENT);
      var y := HighPass(Taken(s, op), s.filter);
      GainRange(Peak(y));
      forall i | 0 <= i < |y|
        ensures AmplifiedFrom(Accepted(s, op)[i], y[i])
      {
        ScaledAt(y, Gain(Peak(y)), i);
      }
    }
  }

  ghost predicate AmplifiedFrom(out: real, filtered: real) {
    exists gain :: 1.0 <= gain <= MAX_GAIN && out == Amplify(filtered, gain)
  }

  /** No history makes the buffer longer than thirty seconds. */
  lemma {:induction false} BufferIsCapped(ops: seq<Op>)
    ensures |Run(FRESH, ops).buffer| <= MAX_BUFFER
  {
    if ops != [] {
      BufferIsCapped(ops[..|ops| - 1]);
    }
  }

  ghost predicate InputsWithin(ops: seq<Op>, bound: real) {
    forall op :: op in ops && op.Chunk? ==> Within(op.pcm, bound)
  }

  /** Whatever the chunking and the decodes, loud input never makes a buffered sample louder than this. */
  lemma {:induction false} BufferIsBounded(ops: seq<Op>, bound: real)
    requires 0.0 <= bound && InputsWithin(ops, bound)
    ensures Within(Run(FRESH, ops).buffer, Max(TARGET_PEAK, 1.938 * bound))
    ensures Tame(Run(FRESH, ops).filter, bound)
  {
    if ops != [] {
      var init, op := ops[..|ops| - 1], ops[|ops| - 1];
      BufferIsBounded(init, bound);
      var s, limit := Run(FRESH, init), Max(TARGET_PEAK, 1.938 * bound);
      assert op in ops;
      PreprocessedIsBounded(Taken(s, op), s.filter, bound);
      assert Within(s.buffer + Accepted(s, op), limit);
      StepConserves(s, op);
      var b := Apply(s, op).buffer;
      forall i | 0 <= i < |b|
        ensures Abs(b[i]) <= limit
      {
        assert b[i] == (s.buffer + Accepted(s, op))[|Removed(s, op)| + i];
      }
    }
  }
}
