/** The session object: each method is one critical section or one send of the state machine. */
module StreamingSession {
  import opened Common
  import opened WhisperEngine
  import HallucinationGuard
  import RateWindow
  import opened SessionModel
  import A = AuthManager
  import C = ModelCache

  /** A `config` message: its token if it has one that is text, and whether its language is text or absent. */
  datatype ConfigMessage = ConfigMessage(token: Option<A.Token>, languageIsText: bool)

  function Refusal(
      c: A.Config, entries: map<A.Token, A.CacheEntry>, m: ConfigMessage, answer: A.Answer, asked: int, answered: int)
    : Option<string>
  {
    if !A.AuthEnabled(c) then None
    else if m.token.None? then Some("AUTH_REQUIRED")
    else if !A.Validated(c, entries, m.token.value, answer, asked, answered).0 then Some("AUTH_FAILED")
    else None
  }

  /** The token cache afterwards. */
  function Consulted(
      c: A.Config, entries: map<A.Token, A.CacheEntry>, m: ConfigMessage, answer: A.Answer, asked: int, answered: int)
    : map<A.Token, A.CacheEntry>
  {
    if A.AuthEnabled(c) && m.token.Some? then A.Validated(c, entries, m.token.value, answer, asked, answered).1
    else entries
  }

  function ConfigEnd(refusal: Option<string>, hasModel: bool, hasState: bool): ConfigOutcome {
    if refusal.Some? then Refused(refusal.value)
    else if !hasModel then NoModel
    else if !hasState then NoEngine
    else Built
  }

  class StreamingSession {
    var configured: bool
    var engine: StreamingWhisperEngine?
    var bufferOverflowed: bool
    var lastTranscribedSize: nat
    var fullTranscription: string
    var rawTranscription: string
    var modelAcquired: bool
    var bytesReceivedInWindow: nat
    var rateLimitStart: int
    var lastAudioTime: int
    var merged: Option<string>
    ghost var receiving: Receiving
    ghost var open: bool
    ghost var crashed: bool
    ghost var sent: seq<Message>

    ghost function Repr(): set<object>
      reads this
    {
      if engine == null then {this} else {this, engine}
    }

    ghost function State(): Session
      reads Repr()
    {
      Session(configured, if engine == null then None else Some(engine.State()), bufferOverflowed,
              lastTranscribedSize, fullTranscription, rawTranscription, modelAcquired,
              RateWindow.Window(bytesReceivedInWindow, rateLimitStart), lastAudioTime,
              receiving, merged, open, crashed, sent)
    }

    constructor (now: int)
      ensures State() == Start(now)
    {
      configured, engine, bufferOverflowed, lastTranscribedSize := false, null, false, 0;
      fullTranscription, rawTranscription, modelAcquired := "", "", false;
      bytesReceivedInWindow, rateLimitStart, lastAudioTime, merged := 0, now, now, None;
      receiving, open, crashed, sent := Listening, true, false, [];
    }

    ghost method SendMessage(m: Message)
      modifies this`sent
      ensures sent == if open then old(sent) + [m] else old(sent)
    {
      if open {
        sent := sent + [m];
      }
    }

    /**
     The whole handler: authentication, the model from the shared cache, then the critical section.
     `answer` is what the API would say, `loaded` what loading the model would yield, and
     `hasState` whether the decoder can set up a state for this session.
     */
    method HandleConfig(
        auth: A.AuthManager, cache: C.ModelCache, message: ConfigMessage, answer: A.Answer, asked: int, answered: int,
        path: string, loaded: Option<nat>, hasState: bool, now: int)
      requires State().receiving == Listening && !State().crashed
      requires loaded.Some? ==> loaded.value == cache.nextContext
      modifies this, auth.cache, cache
      ensures var refusal := Refusal(auth.config, old(auth.cache.entries), message, answer, asked, answered);
              var asks := refusal.None? && message.languageIsText;
              var (model, got) := C.Acquire(old(cache.State()), path, loaded.Some?);
              && State() == Step(old(State()), Config(ConfigEnd(refusal, asks && got.Some?, hasState), now))
              && cache.State() == (if asks then model else old(cache.State()))
      ensures auth.cache.entries == Consulted(auth.config, old(auth.cache.entries), message, answer, asked, answered)
    {
      var refusal := Authorize(auth, message, answer, asked, answered);
      if refusal.Some? {
        Refuse(refusal.value);
        return;
      }
      AcquireAndConfigure(cache, message.languageIsText, path, loaded, hasState, now);
    }

    /** What follows authentication. A malformed language raises before the model is asked for. */
    method AcquireAndConfigure(
        cache: C.ModelCache, languageIsText: bool, path: string, loaded: Option<nat>, hasState: bool, now: int)
      requires loaded.Some? ==> loaded.value == cache.nextContext
      modifies this, cache
      ensures var (model, got) := C.Acquire(old(cache.State()), path, loaded.Some?);
              && State() == OnConfig(old(State()), ConfigEnd(None, languageIsText && got.Some?, hasState), now)
              && cache.State() == (if languageIsText then model else old(cache.State()))
    {
      var context: Option<nat> := None;
      if languageIsText {
        context := cache.AcquireContext(path, loaded);
      }
      if context.Some? {
        Configure(hasState, now);
      } else {
        SendMessage(Error("CONFIG_ERROR"));
      }
    }

    /** The code with which a configuration is refused, if it is. */
    static method Authorize(auth: A.AuthManager, message: ConfigMessage, answer: A.Answer, asked: int, answered: int)
      returns (refusal: Option<string>)
      modifies auth.cache
      ensures refusal == Refusal(auth.config, old(auth.cache.entries), message, answer, asked, answered)
      ensures auth.cache.entries == Consulted(auth.config, old(auth.cache.entries), message, answer, asked, answered)
    {
      if A.AuthEnabled(auth.config) {
        if message.token.None? {
          return Some("AUTH_REQUIRED");
        }
        var ok := auth.Validate(message.token.value, answer, asked, answered);
        if !ok {
          return Some("AUTH_FAILED");
        }
      }
      return None;
    }

    method Refuse(code: string)
      modifies this`sent, this`open, this`receiving
      ensures State() == OnConfig(old(State()), Refused(code), 0)
    {
      SendMessage(Error(code));
      open, receiving := false, Leaving;
    }

    /** The critical section. When no decoder state can be set up, the reference is taken but the old engine stays. */
    method Configure(hasState: bool, now: int)
      modifies this
      ensures State() == OnConfig(old(State()), if hasState then Built else NoEngine, now)
    {
      modelAcquired := true;
      var created := StreamingWhisperEngine.Create(true, hasState);
      if created == null {
        SendMessage(Error("CONFIG_ERROR"));
      } else {
        Install(created, now);
      }
    }

    method Install(created: StreamingWhisperEngine, now: int)
      requires modelAcquired && created.State() == FRESH
      modifies this
      ensures State() == Configured(old(State()), now)
    {
      engine := created;
      Restart(now);
    }

    method Restart(now: int)
      modifies this`configured, this`lastTranscribedSize, this`fullTranscription
      modifies this`rawTranscription, this`lastAudioTime, this`receiving
      ensures configured && lastTranscribedSize == 0 && fullTranscription == "" && rawTranscription == ""
      ensures lastAudioTime == now && receiving == Announcing
    {
      configured := true;
      lastTranscribedSize, fullTranscription, rawTranscription := 0, "", "";
      lastAudioTime, receiving := now, Announcing;
    }

    method ProcessAudioChunk(pcm: seq<real>, now: int)
      requires configured
      modifies Repr()
      ensures engine == old(engine)
      ensures State() == OnAudio(old(State()), pcm, now)
    {
      if !configured || engine == null {
        return;
      }
      lastAudioTime := now;
      var overflow := engine.ProcessAudioChunk(pcm);
      var shouldWarn := overflow && !bufferOverflowed;
      bufferOverflowed := overflow;
      if shouldWarn {
        receiving := Warning;
      }
    }

    method HandleBinaryMessage(bytes: nat, pcm: seq<real>, now: int)
      requires Enabled(State(), Binary(bytes, pcm, now))
      modifies Repr()
      ensures State() == Step(old(State()), Binary(bytes, pcm, now))
    {
      if bytes > MAX_FRAME_BYTES {
        open, receiving := false, Leaving;
        return;
      }
      if bytes < SAMPLE_BYTES {
        return;
      }
      if !configured {
        SendMessage(Error("NOT_CONFIGURED"));
        return;
      }
      if bytes % SAMPLE_BYTES != 0 {
        return;
      }
      var elapsed := (now - rateLimitStart) / RateWindow.SECOND;
      bytesReceivedInWindow := bytesReceivedInWindow + bytes;
      if elapsed >= RateWindow.WINDOW_SECONDS {
        if bytesReceivedInWindow > RateWindow.MAX_BYTES_PER_WINDOW {
          open, receiving := false, Leaving;
          return;
        }
        rateLimitStart := now;
        bytesReceivedInWindow := 0;
      }
      ProcessAudioChunk(pcm, now);
    }

    method HandleEnd(decode: Decode)
      requires Enabled(State(), End(decode))
      modifies Repr()
      ensures State() == Step(old(State()), End(decode))
    {
      if !configured {
        SendMessage(Error("NOT_CONFIGURED"));
        return;
      }
      if engine != null {
        var res := engine.TranscribeSlidingWindow(true, decode);
        if res.Thrown? {
          receiving := Leaving;
          return;
        }
        fullTranscription := fullTranscription + res.committed;
      }
      if fullTranscription == "" && rawTranscription != "" {
        fullTranscription := rawTranscription;
      }
      receiving := Finishing;
    }

    /** The second half of `handleEnd`: compose and send the final message, outside the lock. */
    method SendFinal()
      requires Enabled(State(), Finish)
      modifies this
      ensures State() == Step(old(State()), Finish)
    {
      SendMessage(Final(fullTranscription));
      receiving := Closing;
    }

    method ReleaseTheModel()
      requires Enabled(State(), ReleaseModel)
      modifies this
      ensures State() == Step(old(State()), ReleaseModel)
    {
      if modelAcquired {
        engine := null;
        modelAcquired := false;
      }
      receiving := Gone;
    }

    /** The guards of a flush cycle, in the order in which they are looked at. */
    method ShouldInfer(now: int, capacity: bool) returns (infer: bool)
      ensures infer <==> Infers(State(), now, capacity)
    {
      if !configured || engine == null {
        return false;
      }
      var currentSize := |engine.audioBuffer|;
      if currentSize < MIN_BUFFER_SAMPLES {
        return false;
      }
      var elapsed := (now - lastAudioTime) / MILLISECOND;
      var enough := (currentSize - lastTranscribedSize) % SIZE_MODULUS >= MIN_NEW_SAMPLES;
      var silence := elapsed > SILENCE_MILLIS && currentSize > lastTranscribedSize;
      if !enough && !silence {
        return false;
      }
      return capacity;
    }

    /** One cycle of the flush loop that got the lock, up to where it drops it. */
    method FlushCycle(now: int, capacity: bool, decode: Decode)
      requires Enabled(State(), Flush(now, capacity, decode))
      modifies Repr()
      ensures State() == Step(old(State()), Flush(now, capacity, decode))
    {
      var infer := ShouldInfer(now, capacity);
      if !infer {
        return;
      }
      var currentSize := |engine.audioBuffer|;
      ghost var before := State();
      var res := engine.TranscribeSlidingWindow(false, decode);
      assert (engine.State(), res) == Transcribe(before.engine.value, false, decode);
      if res.Thrown? {
        crashed := true;
        return;
      }
      Digest(currentSize, res.partial, res.committed);
    }

    /** The hallucination guard in front of the client. */
    static method CanBeShown(text: string) returns (ok: bool)
      ensures ok <==> Presentable(text)
    {
      ok := text != "";
      if ok {
        var flagged := HallucinationGuard.IsHallucination(text);
        ok := !flagged;
      }
    }

    /** What a cycle does with a transcript. */
    method Digest(currentSize: nat, partial: string, committed: string)
      requires engine != null
      modifies this`bufferOverflowed, this`rawTranscription, this`fullTranscription
      modifies this`lastTranscribedSize, this`merged
      ensures State() == Absorb(old(State()), engine.State(), partial, committed).(
                lastTranscribed := if committed != "" then |engine.audioBuffer| else currentSize)
    {
      ClearOverflow();
      Publish(currentSize, partial, committed);
    }

    method ClearOverflow()
      requires engine != null
      modifies this`bufferOverflowed
      ensures bufferOverflowed == (old(bufferOverflowed) && Full(engine.State()))
    {
      if bufferOverflowed && |engine.audioBuffer| < HIGH_WATER_MARK {
        bufferOverflowed := false;
      }
    }

    method Publish(currentSize: nat, partial: string, committed: string)
      requires engine != null
      modifies this`rawTranscription, this`fullTranscription, this`lastTranscribedSize, this`merged
      ensures rawTranscription == old(rawTranscription) + committed
      ensures fullTranscription ==
              if Presentable(committed) then old(fullTranscription) + committed else old(fullTranscription)
      ensures lastTranscribedSize == if committed != "" then |engine.audioBuffer| else currentSize
      ensures merged == if Presentable(committed) || Presentable(partial)
                        then Some(fullTranscription + if Presentable(partial) then partial else "")
                        else old(merged)
    {
      var committedOk := CanBeShown(committed);
      var partialOk := CanBeShown(partial);
      Accumulate(currentSize, committed, committedOk);
      Compose(committedOk, partialOk, partial);
    }

    method Compose(committedOk: bool, partialOk: bool, partial: string)
      modifies this`merged
      ensures merged == if committedOk || partialOk
                        then Some(fullTranscription + if partialOk then partial else "")
                        else old(merged)
    {
      if committedOk || partialOk {
        merged := Some(fullTranscription + if partialOk then partial else "");
      }
    }

    method Accumulate(currentSize: nat, committed: string, ok: bool)
      requires engine != null
      requires ok ==> committed != ""
      modifies this`rawTranscription, this`fullTranscription, this`lastTranscribedSize
      ensures rawTranscription == old(rawTranscription) + committed
      ensures fullTranscription == if ok then old(fullTranscription) + committed else old(fullTranscription)
      ensures lastTranscribedSize == if committed != "" then |engine.audioBuffer| else currentSize
    {
      if committed != "" {
        rawTranscription := rawTranscription + committed;
        if ok {
          fullTranscription := fullTranscription + committed;
        }
        lastTranscribedSize := |engine.audioBuffer|;
      } else {
        lastTranscribedSize := currentSize;
      }
    }

    method SendMerged()
      requires Enabled(State(), SendPartial)
      modifies this
      ensures State() == Step(old(State()), SendPartial)
    {
      SendMessage(Partial(merged.value));
      merged := None;
    }
  }

  // ----- who gets configured -----

  /** Whom the server should let in. Without authentication no token is needed. */
  predicate Accepted(
      c: A.Config, entries: map<A.Token, A.CacheEntry>, m: ConfigMessage, answer: A.Answer, asked: int)
  {
    if !c.hasApi && c.staticToken == [] then true
    else if m.token.None? then false
    else if c.staticToken != [] then m.token.value == c.staticToken
    else if m.token.value in entries && asked < entries[m.token.value].expiresAt then entries[m.token.value].valid
    else answer == A.Allowed
  }

  /** Exactly the others are refused, with one code for a missing token and one for a wrong one. */
  lemma RefusalIff(
      c: A.Config, entries: map<A.Token, A.CacheEntry>, m: ConfigMessage, answer: A.Answer, asked: int, answered: int)
    ensures Refusal(c, entries, m, answer, asked, answered) ==
            if Accepted(c, entries, m, answer, asked) then None
            else if m.token.None? then Some("AUTH_REQUIRED")
            else Some("AUTH_FAILED")
  {
    if m.token.Some? {
      A.ValidatedIff(c, entries, m.token.value, answer, asked, answered);
    }
  }

  /** The token cache changes only when the API was asked, and then only for this token. */
  lemma ConsultedIs(
      c: A.Config, entries: map<A.Token, A.CacheEntry>, m: ConfigMessage, answer: A.Answer, asked: int, answered: int)
    ensures var after := Consulted(c, entries, m, answer, asked, answered);
            if !c.hasApi || c.staticToken != [] || m.token.None? ||
               (m.token.value in entries && asked < entries[m.token.value].expiresAt) then after == entries
            else if answer == A.Unavailable then after == entries - {m.token.value}
            else after == entries[m.token.value := A.CacheEntry(answer == A.Allowed, answered + c.ttl)]
  {
    if m.token.Some? {
      A.ValidatedIff(c, entries, m.token.value, answer, asked, answered);
    }
  }

  /**
   A `config` message gives a session a new engine exactly when it is accepted, the model is there and
   the decoder can set up a state. When it is not accepted, nothing of the session changes but that
   the client is told and the connection closed.
   */
  lemma ConfiguresIff(
      c: A.Config, entries: map<A.Token, A.CacheEntry>, m: ConfigMessage, answer: A.Answer, asked: int, answered: int,
      s: Session, hasModel: bool, hasState: bool, now: int)
    requires s.receiving == Listening && !s.crashed
    ensures var e := Config(ConfigEnd(Refusal(c, entries, m, answer, asked, answered), hasModel, hasState), now);
            var t := Step(s, e);
            var accepted := Accepted(c, entries, m, answer, asked);
            && (t.receiving == Announcing <==> accepted && hasModel && hasState)
            && (t.receiving == Announcing ==> t.configured && t.acquired && t.engine == Some(FRESH))
            && (t.receiving != Announcing ==> SameCore(s, t))
            && (!accepted ==> !t.open && t.receiving == Leaving && t.acquired == s.acquired)
            && (accepted ==> t.open == s.open && t.receiving in {Listening, Announcing})
            && (accepted ==> t.acquired == (s.acquired || hasModel))
  {
    RefusalIff(c, entries, m, answer, asked, answered);
  }

  /** What a client sends: a `config` message with all that decides about it, or anything else. */
  datatype Input =
    | Message(entries: map<A.Token, A.CacheEntry>, config: ConfigMessage, answer: A.Answer, asked: int, answered: int,
              hasModel: bool, hasState: bool, now: int)
    | Other(event: Event)

  function EventOf(c: A.Config, i: Input): Event {
    match i
    case Message(entries, m, answer, asked, answered, hasModel, hasState, now) =>
      Config(ConfigEnd(Refusal(c, entries, m, answer, asked, answered), hasModel, hasState), now)
    case Other(e) => e
  }

  function EventsOf(c: A.Config, inputs: seq<Input>): seq<Event> {
    if inputs == [] then [] else EventsOf(c, inputs[..|inputs| - 1]) + [EventOf(c, inputs[|inputs| - 1])]
  }

  ghost predicate NobodyAccepted(c: A.Config, inputs: seq<Input>) {
    forall i :: i in inputs ==>
      if i.Message? then !Accepted(c, i.entries, i.config, i.answer, i.asked) else !i.event.Config?
  }

  /** Until some token is accepted a session has no engine and keeps nothing but what it was built with. */
  lemma {:induction false} OnlyAcceptedTokensConfigure(c: A.Config, built: int, inputs: seq<Input>)
    requires NobodyAccepted(c, inputs)
    ensures var s := Run(Start(built), EventsOf(c, inputs));
            !s.configured && s.engine.None? && !s.acquired && s.full == "" && s.raw == "" && s.sending.None?
  {
    if inputs != [] {
      var init, last := inputs[..|inputs| - 1], inputs[|inputs| - 1];
      assert last in inputs && forall i :: i in init ==> i in inputs;
      OnlyAcceptedTokensConfigure(c, built, init);
      RunOne(Start(built), EventsOf(c, init), EventOf(c, last));
      var s, e := Run(Start(built), EventsOf(c, init)), EventOf(c, last);
      if last.Message? {
        RefusalIff(c, last.entries, last.config, last.answer, last.asked, last.answered);
      }
      UnconfiguredStep(s, e);
    }
  }

  lemma UnconfiguredStep(s: Session, e: Event)
    requires !s.configured && s.engine.None? && !s.acquired && s.full == "" && s.raw == "" && s.sending.None?
    requires e.Config? ==> e.outcome.Refused?
    ensures var t := Step(s, e);
            !t.configured && t.engine.None? && !t.acquired && t.full == "" && t.raw == "" && t.sending.None?
  {
  }
}
