/**
 One WebSocket session as a state machine. Two threads share its state under one lock: the
 receiving thread handles client messages in order, the flush thread does all provisional
 inference. Every event is one critical section or one message sent outside the lock, so a
 list of events is an arbitrary interleaving of the two threads.
 */
module SessionModel {
  import opened Common
  import opened WhisperEngine
  import opened HallucinationGuard
  import RateWindow

  const MAX_FRAME_BYTES: nat := 1048576
  const SAMPLE_BYTES: nat := 4
  const MIN_NEW_SAMPLES: nat := 4000      // 250 ms
  const MIN_BUFFER_SAMPLES: nat := 32000  // 2 s
  const SILENCE_MILLIS: int := 400
  const MILLISECOND: int := 1000000       // in nanoseconds
  const SIZE_MODULUS: int := 0x1_0000_0000_0000_0000

  datatype Message =
    | Ready
    | Error(code: string)
    | BufferFull
    | Partial(text: string)
    | Final(text: string)

  /** Where the receiving thread is between two of its steps. */
  datatype Receiving =
    | Listening    // waiting for the next frame
    | Announcing   // configured, `ready` not sent yet
    | Warning      // chunk dropped, warning not sent yet
    | Finishing    // final decode done, lock dropped, final message not composed yet
    | Closing      // final message sent
    | Leaving      // receive loop over, model not released yet
    | Gone

  datatype Session = Session(
    configured: bool,
    engine: Option<EngineState>,
    overflowed: bool,
    lastTranscribed: nat,
    full: string,
    raw: string,
    acquired: bool,
    window: RateWindow.Window,
    lastAudio: int,
    receiving: Receiving,
    sending: Option<string>,  // provisional message composed by the flush thread, not sent yet
    open: bool,               // the socket still takes messages
    crashed: bool,            // an exception left the flush thread, which ends the process
    sent: seq<Message>)

  function Start(built: int): Session {
    Session(false, None, false, 0, "", "", false, RateWindow.Window(0, built), built, Listening, None, true, false, [])
  }

  /** How a `config` message ends: refused, no model, no decoder state, or a new engine. */
  datatype ConfigOutcome = Refused(code: string) | NoModel | NoEngine | Built

  datatype Event =
    | Config(outcome: ConfigOutcome, now: int)
    | Announce
    | Binary(bytes: nat, pcm: seq<real>, now: int)
    | Warn
    | End(finalDecode: Decode)
    | Finish
    | Close
    | Leave
    | ReleaseModel
    | OtherMessage(code: string)
    | Flush(now: int, capacity: bool, decode: Decode)
    | SendPartial
    | ConnectionLost

  predicate Enabled(s: Session, e: Event) {
    !s.crashed &&
    match e
    case Config(_, _) => s.receiving == Listening
    case Binary(bytes, pcm, _) => s.receiving == Listening && |pcm| == bytes / SAMPLE_BYTES
    case OtherMessage(_) => s.receiving == Listening
    case End(_) => s.receiving == Listening
    case Leave => s.receiving == Listening
    case Announce => s.receiving == Announcing
    case Warn => s.receiving == Warning
    case Finish => s.receiving == Finishing
    case Close => s.receiving == Closing
    case ReleaseModel => s.receiving == Leaving
    case Flush(_, _, _) => s.sending.None?
    case SendPartial => s.sending.Some?
    case ConnectionLost => true
  }

  /** Sending on a closed socket fails without further effect. */
  function Send(s: Session, m: Message): Session {
    if s.open then s.(sent := s.sent + [m]) else s
  }

  // ----- the receiving thread -----

  function OnConfig(s: Session, outcome: ConfigOutcome, now: int): Session {
    match outcome
    case Refused(code) => Send(s, Error(code)).(open := false, receiving := Leaving)
    case NoModel => Send(s, Error("CONFIG_ERROR"))
    case NoEngine => Send(s.(acquired := true), Error("CONFIG_ERROR"))
    case Built => Configured(s, now)
  }

  /** A new engine, and the transcripts of the previous one forgotten. */
  function Configured(s: Session, now: int): Session {
    s.(configured := true, engine := Some(FRESH), lastTranscribed := 0, full := "", raw := "",
       acquired := true, lastAudio := now, receiving := Announcing)
  }

  /** Frames that are counted and processed: configured, aligned, and neither too small nor too large. */
  predicate Valid(s: Session, bytes: nat) {
    s.configured && SAMPLE_BYTES <= bytes <= MAX_FRAME_BYTES && bytes % SAMPLE_BYTES == 0
  }

  function OnAudio(s: Session, pcm: seq<real>, now: int): Session {
    if s.engine.None? then s
    else
      var overflow := Full(s.engine.value);
      s.(engine := Some(Feed(s.engine.value, pcm)),
         lastAudio := now,
         overflowed := overflow,
         receiving := if overflow && !s.overflowed then Warning else s.receiving)
  }

  function OnBinary(s: Session, bytes: nat, pcm: seq<real>, now: int): Session {
    if bytes > MAX_FRAME_BYTES then s.(open := false, receiving := Leaving)
    else if bytes < SAMPLE_BYTES then s
    else if !s.configured then Send(s, Error("NOT_CONFIGURED"))
    else if bytes % SAMPLE_BYTES != 0 then s
    else
      var admitted := RateWindow.Admit(s.window, RateWindow.Frame(now, bytes));
      if admitted.None? then
        s.(window := s.window.(bytes := s.window.bytes + bytes), open := false, receiving := Leaving)
      else OnAudio(s.(window := admitted.value), pcm, now)
  }

  function FinalText(full: string, raw: string): string {
    if full == "" then raw else full
  }

  function OnEnd(s: Session, d: Decode): Session {
    if !s.configured then Send(s, Error("NOT_CONFIGURED"))
    else if s.engine.None? then s.(full := FinalText(s.full, s.raw), receiving := Finishing)
    else
      var (engine, outcome) := Transcribe(s.engine.value, true, d);
      match outcome
      case Thrown(_) => s.(receiving := Leaving)
      case Transcript(_, committed) =>
        s.(engine := Some(engine), full := FinalText(s.full + committed, s.raw), receiving := Finishing)
  }

  function OnRelease(s: Session): Session {
    if s.acquired then s.(engine := None, acquired := false, receiving := Gone) else s.(receiving := Gone)
  }

  // ----- the flush thread -----

  /** Subtraction of two 64-bit sizes. */
  function SizeSub(a: nat, b: nat): int {
    (a - b) % SIZE_MODULUS
  }

  function BufferSize(s: Session): nat {
    if s.engine.Some? then |s.engine.value.buffer| else 0
  }

  predicate EnoughNewAudio(s: Session) {
    SizeSub(BufferSize(s), s.lastTranscribed) >= MIN_NEW_SAMPLES
  }

  predicate Silence(s: Session, now: int) {
    (now - s.lastAudio) / MILLISECOND > SILENCE_MILLIS && BufferSize(s) > s.lastTranscribed
  }

  /** A flush cycle runs the decoder. */
  predicate Infers(s: Session, now: int, capacity: bool) {
    && s.configured && s.engine.Some?
    && BufferSize(s) >= MIN_BUFFER_SAMPLES
    && (EnoughNewAudio(s) || Silence(s, now))
    && capacity
  }

  ghost predicate Presentable(text: string) {
    text != "" && !Hallucinated(text)
  }

  ghost function OnFlush(s: Session, now: int, capacity: bool, d: Decode): Session {
    if !Infers(s, now, capacity) then s
    else
      var (engine, outcome) := Transcribe(s.engine.value, false, d);
      match outcome
      case Thrown(_) => s.(crashed := true)
      case Transcript(partial, committed) => Absorb(s, engine, partial, committed)
  }

  /** What a flush cycle does with a transcript. */
  ghost function Absorb(s: Session, engine: EngineState, partial: string, committed: string): Session {
    var full := if Presentable(committed) then s.full + committed else s.full;
    s.(engine := Some(engine),
       overflowed := s.overflowed && Full(engine),
       raw := s.raw + committed,
       full := full,
       lastTranscribed := if committed != "" then |engine.buffer| else BufferSize(s),
       sending := if Presentable(committed) || Presentable(partial)
                  then Some(full + if Presentable(partial) then partial else "")
                  else s.sending)
  }

  // ----- both -----

  /** The state after an event; an event that is not enabled does nothing. */
  ghost function Step(s: Session, e: Event): Session {
    if !Enabled(s, e) then s
    else
      match e
      case Config(outcome, now) => OnConfig(s, outcome, now)
      case Announce => Send(s, Ready).(receiving := Listening)
      case Binary(bytes, pcm, now) => OnBinary(s, bytes, pcm, now)
      case Warn => Send(s, BufferFull).(receiving := Listening)
      case End(d) => OnEnd(s, d)
      case Finish => Send(s, Final(s.full)).(receiving := Closing)
      case Close => s.(open := false, receiving := Leaving)
      case Leave => s.(receiving := Leaving)
      case ReleaseModel => OnRelease(s)
      case OtherMessage(code) => Send(s, Error(code))
      case Flush(now, capacity, d) => OnFlush(s, now, capacity, d)
      case SendPartial => Send(s, Partial(s.sending.value)).(sending := None)
      case ConnectionLost => s.(open := false)
  }

  ghost function Run(s: Session, events: seq<Event>): Session {
    if events == [] then s else Step(Run(s, events[..|events| - 1]), events[|events| - 1])
  }

  lemma RunOne(s: Session, events: seq<Event>, e: Event)
    ensures Run(s, events + [e]) == Step(Run(s, events), e)
  {
  }

  /** The receiving thread is past the `end` message, or otherwise done with the client. */
  predicate Over(s: Session) {
    s.receiving != Listening && s.receiving != Announcing && s.receiving != Warning
  }

  /** Events that at most send something, move the receiving thread on, or take a reference. */
  predicate Minor(e: Event) {
    match e
    case Config(outcome, _) => !outcome.Built?
    case Binary(_, _, _) => false
    case End(_) => false
    case ReleaseModel => false
    case Flush(_, _, _) => false
    case _ => true
  }

  /** Everything but references, messages and where the receiving thread is. */
  predicate SameCore(s: Session, t: Session) {
    && t.configured == s.configured && t.engine == s.engine && t.overflowed == s.overflowed
    && t.lastTranscribed == s.lastTranscribed && t.full == s.full && t.raw == s.raw
    && t.window == s.window && t.lastAudio == s.lastAudio && t.crashed == s.crashed
  }

  lemma ErrorStep(s: Session, e: Event)
    requires Minor(e) && (e.Config? || e.OtherMessage?)
    ensures var t := Step(s, e);
            SameCore(s, t) && t.sending == s.sending && t.receiving in {s.receiving, Leaving}
  {
  }

  lemma AnswerStep(s: Session, e: Event)
    requires e.Announce? || e.Warn? || e.Finish?
    ensures var t := Step(s, e);
            && SameCore(s, t) && t.sending == s.sending
            && t.receiving in {s.receiving, if e.Finish? then Closing else Listening}
  {
  }

  lemma MovingStep(s: Session, e: Event)
    requires e.Close? || e.Leave? || e.SendPartial? || e.ConnectionLost?
    ensures var t := Step(s, e);
            && SameCore(s, t) && t.sending in {s.sending, None} && t.receiving in {s.receiving, Leaving}
            && (e.SendPartial? || e.ConnectionLost? ==> t.receiving == s.receiving)
  {
  }

  lemma MinorStep(s: Session, e: Event)
    requires Minor(e)
    ensures var t := Step(s, e);
            && SameCore(s, t) && t.sending in {s.sending, None}
            && t.receiving in {s.receiving, Leaving, if e.Finish? then Closing else Listening}
            && (Over(s) ==> Over(t))
            && (e.SendPartial? || e.ConnectionLost? ==> t.receiving == s.receiving)
  {
    if e.Config? || e.OtherMessage? {
      ErrorStep(s, e);
    } else if e.Announce? || e.Warn? || e.Finish? {
      AnswerStep(s, e);
    } else {
      MovingStep(s, e);
    }
  }
}
