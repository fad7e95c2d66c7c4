/** What the client is told: the transcripts, the provisional and the final messages. */
module SessionTranscript {
  import opened Common
  import opened WhisperEngine
  import opened HallucinationGuard
  import opened SessionModel

  // ----- the commits of an epoch -----

  /**
   The texts committed by flush cycles since the last successful configuration, and, once the
   `end` message has been handled, how many of them came before it and what the forced decode
   committed.
   */
  datatype History = History(commits: seq<string>, ended: Option<(nat, string)>)

  /** The transcript a flush event produces, if it produces one. */
  function FlushOutcome(s: Session, e: Event): Option<Outcome> {
    if Enabled(s, e) && e.Flush? && Infers(s, e.now, e.capacity)
    then Some(Transcribe(s.engine.value, false, e.decode).1)
    else None
  }

  function EndOutcome(s: Session, e: Event): Option<Outcome> {
    if Enabled(s, e) && e.End? && s.configured
    then Some(if s.engine.None? then Transcript("", "") else Transcribe(s.engine.value, true, e.finalDecode).1)
    else None
  }

  predicate Configures(s: Session, e: Event) {
    Enabled(s, e) && e.Config? && e.outcome.Built?
  }

  function Record(s: Session, e: Event, h: History): History {
    var flushed, final := FlushOutcome(s, e), EndOutcome(s, e);
    if Configures(s, e) then History([], None)
    else if flushed.Some? && flushed.value.Transcript? then
      h.(commits := h.commits + [flushed.value.committed])
    else if final.Some? && final.value.Transcript? then
      h.(ended := Some((|h.commits|, final.value.committed)))
    else h
  }

  ghost function HistoryOf(s: Session, events: seq<Event>): History {
    if events == [] then History([], None)
    else
      var init := events[..|events| - 1];
      Record(Run(s, init), events[|events| - 1], HistoryOf(s, init))
  }

  /** The commits that are not taken for decoder loops, in order. */
  ghost function Kept(commits: seq<string>): seq<string> {
    if commits == [] then []
    else
      var last := commits[|commits| - 1];
      Kept(commits[..|commits| - 1]) + if Presentable(last) then [last] else []
  }

  /** The filtered text if there is any, and the raw one only if there is none. */
  function AtEnd(filtered: string, unfiltered: string): string {
    if |filtered| > 0 then filtered else unfiltered
  }

  /** The transcript an epoch must have, from its commits alone. */
  ghost function ExpectedText(h: History): string {
    if h.ended.None? then Join(Kept(h.commits))
    else if h.ended.value.0 > |h.commits| then ""
    else
      var before, after := h.commits[..h.ended.value.0], h.commits[h.ended.value.0..];
      AtEnd(Join(Kept(before)) + h.ended.value.1, Join(before)) + Join(Kept(after))
  }

  ghost predicate Exact(s: Session, h: History) {
    && s.raw == Join(h.commits)
    && s.full == ExpectedText(h)
    && (h.ended.Some? ==> Over(s) && h.ended.value.0 <= |h.commits|)
    && (s.receiving == Finishing ==> h.ended.Some?)
  }

  lemma JoinSnoc(parts: seq<string>, last: string)
    ensures Join(parts + [last]) == Join(parts) + last
  {
  }

  lemma KeptSnoc(commits: seq<string>, last: string)
    ensures Kept(commits + [last]) == Kept(commits) + if Presentable(last) then [last] else []
    ensures Join(Kept(commits + [last])) == Join(Kept(commits)) + if Presentable(last) then last else ""
  {
    assert (commits + [last])[..|commits|] == commits;
    if Presentable(last) {
      JoinSnoc(Kept(commits), last);
    } else {
      assert Kept(commits) + [] == Kept(commits);
      assert Join(Kept(commits)) + "" == Join(Kept(commits));
    }
  }

  lemma Reassociate(a: string, b: string, c: string)
    ensures a + (b + c) == (a + b) + c
  {
  }

  lemma ExpectedAfterCommit(h: History, text: string)
    requires h.ended.Some? ==> h.ended.value.0 <= |h.commits|
    ensures ExpectedText(h.(commits := h.commits + [text])) ==
            ExpectedText(h) + if Presentable(text) then text else ""
  {
    if h.ended.None? {
      KeptSnoc(h.commits, text);
    } else {
      var n, all := h.ended.value.0, h.commits + [text];
      assert all[..n] == h.commits[..n];
      assert all[n..] == h.commits[n..] + [text];
      KeptSnoc(h.commits[n..], text);
      var base := AtEnd(Join(Kept(h.commits[..n])) + h.ended.value.1, Join(h.commits[..n]));
      Reassociate(base, Join(Kept(h.commits[n..])), if Presentable(text) then text else "");
    }
  }

  /** The transcripts after a flush cycle that decoded. */
  lemma FlushTexts(s: Session, e: Event)
    requires FlushOutcome(s, e).Some? && FlushOutcome(s, e).value.Transcript?
    ensures var t, text := Step(s, e), FlushOutcome(s, e).value.committed;
            && t.raw == s.raw + text
            && t.full == (if Presentable(text) then s.full + text else s.full)
            && t.receiving == s.receiving
  {
  }

  /** The rest of the session after it. */
  lemma FlushEngine(s: Session, e: Event)
    requires FlushOutcome(s, e).Some? && FlushOutcome(s, e).value.Transcript?
    ensures var t := Step(s, e);
            && t.engine == Some(Transcribe(s.engine.value, false, e.decode).0)
            && t.configured == s.configured && t.open == s.open && t.receiving == s.receiving && !t.crashed
  {
  }

  lemma CommitIsExact(s: Session, t: Session, h: History, text: string)
    requires Exact(s, h) && t.raw == s.raw + text && t.receiving == s.receiving
    requires t.full == if Presentable(text) then s.full + text else s.full
    ensures Exact(t, h.(commits := h.commits + [text]))
  {
    JoinSnoc(h.commits, text);
    ExpectedAfterCommit(h, text);
    assert ExpectedText(h) + "" == ExpectedText(h);
  }

  lemma FlushIsExact(s: Session, e: Event, h: History)
    requires Exact(s, h) && FlushOutcome(s, e).Some? && FlushOutcome(s, e).value.Transcript?
    ensures Exact(Step(s, e), Record(s, e, h))
  {
    FlushTexts(s, e);
    CommitIsExact(s, Step(s, e), h, FlushOutcome(s, e).value.committed);
  }

  /** The transcripts after a forced decode. */
  lemma EndTexts(s: Session, e: Event)
    requires EndOutcome(s, e).Some? && EndOutcome(s, e).value.Transcript?
    ensures var t := Step(s, e);
            && t.full == AtEnd(s.full + EndOutcome(s, e).value.committed, s.raw)
            && t.raw == s.raw && t.receiving == Finishing
  {
    assert s.full + "" == s.full;
  }

  lemma EndedText(h: History, committed: string)
    requires h.ended.None?
    ensures ExpectedText(h.(ended := Some((|h.commits|, committed)))) ==
            AtEnd(Join(Kept(h.commits)) + committed, Join(h.commits))
  {
    assert h.commits[..|h.commits|] == h.commits && h.commits[|h.commits|..] == [];
    assert Join(Kept([])) == "";
    var text := AtEnd(Join(Kept(h.commits)) + committed, Join(h.commits));
    assert text + "" == text;
  }

  lemma EndIsExact(s: Session, e: Event, h: History)
    requires Exact(s, h) && EndOutcome(s, e).Some?
    ensures Exact(Step(s, e), Record(s, e, h))
  {
    assert h.ended.None?;
    if EndOutcome(s, e).value.Transcript? {
      EndTexts(s, e);
      EndedText(h, EndOutcome(s, e).value.committed);
    }
  }

  lemma IdleFlush(s: Session, e: Event)
    requires e.Flush? && FlushOutcome(s, e).None?
    ensures Step(s, e) == s
  {
  }

  lemma KeepsTranscripts(s: Session, e: Event)
    requires !e.Flush? && EndOutcome(s, e).None? && !Configures(s, e)
    ensures var s' := Step(s, e);
            && s'.full == s.full && s'.raw == s.raw
            && (s'.receiving == Finishing ==> s.receiving == Finishing)
            && (Over(s) ==> Over(s'))
  {
    if Minor(e) {
      MinorStep(s, e);
    }
  }

  lemma OtherIsExact(s: Session, e: Event, h: History)
    requires Exact(s, h) && !e.Flush? && EndOutcome(s, e).None?
    ensures Exact(Step(s, e), Record(s, e, h))
  {
    if Configures(s, e) {
      assert Step(s, e) == Configured(s, e.now);
    } else {
      KeepsTranscripts(s, e);
    }
  }

  /**
   In every interleaving: the raw transcript is the commits of the epoch in order, and the
   filtered one is what the commits and the forced decode prescribe.
   */
  lemma {:induction false} TranscriptsAreCommits(built: int, events: seq<Event>)
    ensures Exact(Run(Start(built), events), HistoryOf(Start(built), events))
  {
    if events != [] {
      var init, e := events[..|events| - 1], events[|events| - 1];
      var s, h := Run(Start(built), init), HistoryOf(Start(built), init);
      TranscriptsAreCommits(built, init);
      if EndOutcome(s, e).Some? {
        EndIsExact(s, e, h);
      } else if FlushOutcome(s, e).Some? && FlushOutcome(s, e).value.Transcript? {
        FlushIsExact(s, e, h);
      } else if FlushOutcome(s, e).Some? {
        assert Step(s, e) == s.(crashed := true);
      } else if e.Flush? {
        IdleFlush(s, e);
      } else {
        OtherIsExact(s, e, h);
      }
    }
  }

  // ----- the final message -----

  lemma {:induction false} KeptEmpty(commits: seq<string>)
    ensures Join(Kept(commits)) == "" <==> Kept(commits) == []
    ensures Join(commits) == "" ==> Kept(commits) == []
  {
    if commits != [] {
      var init, last := commits[..|commits| - 1], commits[|commits| - 1];
      KeptEmpty(init);
      KeptSnoc(init, last);
      JoinSnoc(init, last);
      assert commits == init + [last];
      assert |Join(Kept(commits))| == |Join(Kept(init))| + if Presentable(last) then |last| else 0;
      assert |Join(commits)| == |Join(init)| + |last|;
    }
  }

  /**
   The final text is empty exactly when there was nothing to fall back on: every commit before
   the `end` message was empty, so was the forced one, and nothing was kept afterwards.
   */
  lemma FinalTextEmptyIff(built: int, events: seq<Event>)
    requires Run(Start(built), events).receiving == Finishing
    ensures var h := HistoryOf(Start(built), events);
            && h.ended.Some? && h.ended.value.0 <= |h.commits|
            && (Run(Start(built), events).full == "" <==>
                && (forall text :: text in h.commits[..h.ended.value.0] ==> text == "")
                && h.ended.value.1 == ""
                && Kept(h.commits[h.ended.value.0..]) == [])
  {
    TranscriptsAreCommits(built, events);
    var s, h := Run(Start(built), events), HistoryOf(Start(built), events);
    var before, after := h.commits[..h.ended.value.0], h.commits[h.ended.value.0..];
    KeptEmpty(before);
    KeptEmpty(after);
    JoinEmpty(before);
    var base := AtEnd(Join(Kept(before)) + h.ended.value.1, Join(before));
    assert |s.full| == |base| + |Join(Kept(after))|;
  }

  /** No successful configuration among the events that follow `s`. */
  ghost predicate SameEpoch(s: Session, events: seq<Event>) {
    if events == [] then true
    else
      var init := events[..|events| - 1];
      SameEpoch(s, init) && !Configures(Run(s, init), events[|events| - 1])
  }

  lemma StepExtends(s: Session, e: Event)
    requires !Configures(s, e)
    ensures s.full <= Step(s, e).full && s.raw <= Step(s, e).raw
  {
    if e.Flush? {
      if FlushOutcome(s, e).None? {
        IdleFlush(s, e);
      } else if FlushOutcome(s, e).value.Transcript? {
        FlushTexts(s, e);
      }
    } else if EndOutcome(s, e).None? {
      KeepsTranscripts(s, e);
    }
  }

  /** Within an epoch, text once committed is never taken back. */
  lemma {:induction false} CommittedTextStays(s: Session, events: seq<Event>)
    requires SameEpoch(s, events)
    ensures s.full <= Run(s, events).full && s.raw <= Run(s, events).raw
  {
    if events != [] {
      CommittedTextStays(s, events[..|events| - 1]);
      StepExtends(Run(s, events[..|events| - 1]), events[|events| - 1]);
    }
  }

  /** A provisional message is the text committed so far, and perhaps what was heard beyond it. */
  lemma ComposedMessage(s: Session, flush: Event)
    requires flush.Flush? && Enabled(s, flush) && Step(s, flush).sending.Some?
    ensures var composed := Step(s, flush);
            && FlushOutcome(s, flush).Some? && FlushOutcome(s, flush).value.Transcript?
            && composed.full <= composed.sending.value
            && composed.sending.value[|composed.full|..] in {"", FlushOutcome(s, flush).value.partial}
            && !Hallucinated(composed.sending.value[|composed.full|..])
            && (!Hallucinated(FlushOutcome(s, flush).value.partial) ==>
                  composed.sending.value == composed.full + FlushOutcome(s, flush).value.partial)
  {
    NothingIsNotFlagged();
    var outcome := FlushOutcome(s, flush).value;
    var full := Step(s, flush).full;
    assert (full + outcome.partial)[|full|..] == outcome.partial && (full + "")[|full|..] == "";
    assert full + "" == full;
  }

  lemma NothingIsNotFlagged()
    ensures !Hallucinated("")
  {
    assert Words("") == [];
    forall a, b
      ensures |Places([], a, b)| < LIMIT
    {
      assert Places([], a, b) == {};
    }
  }

  /**
   The committed part of every provisional message is a prefix of the final text of its epoch,
   whatever happens between composing the one and the other.
   */
  lemma FinalExtendsPartials(s: Session, flush: Event, events: seq<Event>)
    requires flush.Flush? && Enabled(s, flush) && Step(s, flush).sending.Some?
    requires SameEpoch(Step(s, flush), events)
    requires Enabled(Run(Step(s, flush), events), Finish) && Run(Step(s, flush), events).open
    ensures var composed := Step(s, flush);
            var before := Run(composed, events);
            var after := Step(before, Finish);
            && FlushOutcome(s, flush).Some? && FlushOutcome(s, flush).value.Transcript?
            && composed.full <= composed.sending.value
            && composed.sending.value[|composed.full|..] in {"", FlushOutcome(s, flush).value.partial}
            && composed.full <= before.full
            && after.sent == before.sent + [Final(before.full)]
  {
    ComposedMessage(s, flush);
    CommittedTextStays(Step(s, flush), events);
  }
}
