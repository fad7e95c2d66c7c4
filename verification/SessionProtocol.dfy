/** The order of the messages a client can see. */
module SessionProtocol {
  import opened Common
  import opened SessionModel

  predicate NeedsReady(m: Message) {
    m.Partial? || m.Final? || m.BufferFull?
  }

  ghost predicate ReadyBefore(sent: seq<Message>, i: nat)
    requires i <= |sent|
  {
    Ready in sent[..i]
  }

  ghost predicate ReadyComesFirst(sent: seq<Message>) {
    forall i :: 0 <= i < |sent| && NeedsReady(sent[i]) ==> ReadyBefore(sent, i)
  }

  /** After the final message only provisional ones, composed earlier, can still arrive. */
  ghost predicate OnlyPartialsAfterFinal(sent: seq<Message>) {
    forall i, j :: 0 <= i < j < |sent| && sent[i].Final? ==> sent[j].Partial?
  }

  ghost predicate FinalSent(sent: seq<Message>) {
    exists i :: 0 <= i < |sent| && sent[i].Final?
  }

  /** Nothing has happened yet that could lead to a message other than `ready` or an error. */
  predicate Quiet(s: Session) {
    && BufferSize(s) == 0
    && s.sending.None?
    && s.receiving != Warning && s.receiving != Finishing
    && (s.receiving == Listening ==> !s.configured)
  }

  ghost predicate Orderly(s: Session) {
    && ReadyComesFirst(s.sent)
    && OnlyPartialsAfterFinal(s.sent)
    && (FinalSent(s.sent) ==> s.receiving in {Closing, Leaving, Gone})
    && (s.open && Ready !in s.sent ==> Quiet(s))
  }

  lemma SendIsOrderly(sent: seq<Message>, m: Message)
    requires ReadyComesFirst(sent) && OnlyPartialsAfterFinal(sent)
    requires NeedsReady(m) ==> Ready in sent
    requires FinalSent(sent) ==> m.Partial?
    ensures ReadyComesFirst(sent + [m]) && OnlyPartialsAfterFinal(sent + [m])
    ensures FinalSent(sent + [m]) <==> FinalSent(sent) || m.Final?
  {
    var all := sent + [m];
    assert all[..|sent|] == sent;
    forall i | 0 <= i < |all| && NeedsReady(all[i])
      ensures ReadyBefore(all, i)
    {
      if i < |sent| {
        assert ReadyBefore(sent, i);
        assert all[..i] == sent[..i];
      }
    }
    if FinalSent(sent) {
      var i :| 0 <= i < |sent| && sent[i].Final?;
      assert all[i].Final?;
    }
    if m.Final? {
      assert all[|sent|].Final?;
    }
  }

  /** The message an event sends when the socket takes it. */
  function Sends(s: Session, e: Event): Option<Message> {
    match e
    case Config(Refused(code), _) => Some(Error(code))
    case Config(NoModel, _) => Some(Error("CONFIG_ERROR"))
    case Config(NoEngine, _) => Some(Error("CONFIG_ERROR"))
    case Config(Built, _) => None
    case Announce => Some(Ready)
    case Warn => Some(BufferFull)
    case Finish => Some(Final(s.full))
    case OtherMessage(code) => Some(Error(code))
    case SendPartial => if s.sending.Some? then Some(Partial(s.sending.value)) else None
    case End(_) => if s.configured then None else Some(Error("NOT_CONFIGURED"))
    case Binary(bytes, _, _) =>
      if SAMPLE_BYTES <= bytes <= MAX_FRAME_BYTES && !s.configured then Some(Error("NOT_CONFIGURED")) else None
    case _ => None
  }

  predicate SendsExactly(s: Session, e: Event, t: Session) {
    && t.sent == (if Enabled(s, e) && s.open && Sends(s, e).Some? then s.sent + [Sends(s, e).value] else s.sent)
    && (t.open ==> s.open)
  }

  lemma AnswerSends(s: Session, e: Event)
    requires e.Announce? || e.Warn? || e.Finish? || e.SendPartial?
    ensures SendsExactly(s, e, Step(s, e))
  {
  }

  lemma ErrorSends(s: Session, e: Event)
    requires e.Config? || e.OtherMessage? || e.End? || e.Binary?
    ensures SendsExactly(s, e, Step(s, e))
  {
  }

  lemma StepSends(s: Session, e: Event)
    ensures SendsExactly(s, e, Step(s, e))
  {
    if e.Announce? || e.Warn? || e.Finish? || e.SendPartial? {
      AnswerSends(s, e);
    } else if e.Config? || e.OtherMessage? || e.End? || e.Binary? {
      ErrorSends(s, e);
    }
  }

  /** A final message is sent only on the way to closing, and the session never comes back from there. */
  lemma EndIsEnd(s: Session, e: Event)
    requires s.receiving in {Closing, Leaving, Gone} || (e.Finish? && Enabled(s, e))
    ensures Step(s, e).receiving in {Closing, Leaving, Gone}
  {
    if Minor(e) {
      MinorStep(s, e);
    }
  }

  lemma QuietLasts(s: Session, e: Event)
    requires Quiet(s) && Step(s, e).open && e != Announce
    ensures Quiet(Step(s, e))
  {
  }

  lemma StepIsOrderly(s: Session, e: Event)
    requires Orderly(s)
    ensures Orderly(Step(s, e))
  {
    var s' := Step(s, e);
    StepSends(s, e);
    if s'.sent != s.sent {
      SendIsOrderly(s.sent, Sends(s, e).value);
    }
    if s'.open && Ready !in s'.sent {
      assert forall m :: m in s.sent ==> m in s'.sent;
      assert (s.sent + [Ready])[|s.sent|] == Ready;
      if e != Announce {
        QuietLasts(s, e);
      }
    }
    if FinalSent(s'.sent) {
      EndIsEnd(s, e);
    }
  }

  /**
   In every interleaving: nothing but errors comes before `ready`, there is at most one final
   message, and what follows it can only be a provisional message the flush thread was holding.
   */
  lemma {:induction false} MessagesAreOrdered(built: int, events: seq<Event>)
    ensures Orderly(Run(Start(built), events))
  {
    if events != [] {
      MessagesAreOrdered(built, events[..|events| - 1]);
      StepIsOrderly(Run(Start(built), events[..|events| - 1]), events[|events| - 1]);
    }
  }
}
