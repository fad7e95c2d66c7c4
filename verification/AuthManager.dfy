/**
 Token validation: a static token, or an external API behind an expiring cache shared by all
 sessions. The API is an oracle; the static token wins when both are configured.
 */
module AuthManager {
  import opened Common

  type Token = seq<bv8>

  datatype Answer = Allowed | Denied | Unavailable

  datatype CacheEntry = CacheEntry(valid: bool, expiresAt: int)

  datatype Config = Config(staticToken: Token, hasApi: bool, ttl: int)

  predicate AuthEnabled(c: Config) {
    c.hasApi || c.staticToken != []
  }

  function Find(entries: map<Token, CacheEntry>, token: Token, now: int): Option<bool> {
    if token in entries && now < entries[token].expiresAt then Some(entries[token].valid) else None
  }

  /** Looking up an entry that has expired removes it. */
  function Purged(entries: map<Token, CacheEntry>, token: Token, now: int): map<Token, CacheEntry> {
    if Find(entries, token, now).None? then entries - {token} else entries
  }

  class AuthCache {
    var entries: map<Token, CacheEntry>

    constructor ()
      ensures entries == map[]
    {
      entries := map[];
    }

    method Get(token: Token, now: int) returns (valid: Option<bool>)
      modifies this
      ensures valid == Find(old(entries), token, now)
      ensures entries == Purged(old(entries), token, now)
    {
      if token !in entries {
        return None;
      }
      if now >= entries[token].expiresAt {
        entries := entries - {token};
        return None;
      }
      return Some(entries[token].valid);
    }

    method Put(token: Token, valid: bool, ttl: int, now: int)
      modifies this
      ensures entries == old(entries)[token := CacheEntry(valid, now + ttl)]
    {
      entries := entries[token := CacheEntry(valid, now + ttl)];
    }
  }

  class AuthManager {
    const config: Config
    const cache: AuthCache

    constructor (config: Config)
      ensures this.config == config && fresh(cache) && cache.entries == map[]
    {
      this.config := config;
      cache := new AuthCache();
    }

    /** The XOR of every byte pair, OR-ed together, is zero exactly for equal tokens. */
    static method ConstantTimeEqual(a: Token, b: Token) returns (equal: bool)
      ensures equal <==> a == b
    {
      if |a| != |b| {
        return false;
      }
      var diff: bv8 := 0;
      for i := 0 to |a|
        invariant diff == 0 <==> a[..i] == b[..i]
      {
        assert a[..i + 1] == a[..i] + [a[i]] && b[..i + 1] == b[..i] + [b[i]];
        XorOrZero(diff, a[i], b[i]);
        diff := diff | (a[i] ^ b[i]);
      }
      assert a[..|a|] == a && b[..|b|] == b;
      return diff == 0;
    }

    /** `answer` is what the API would say if it is asked, `asked` and `answered` the times around that. */
    method Validate(token: Token, answer: Answer, asked: int, answered: int) returns (ok: bool)
      modifies cache
      ensures ok <==> Acceptable(config, old(cache.entries), token, answer, asked)
      ensures !config.hasApi || config.staticToken != [] ==> cache.entries == old(cache.entries)
      ensures config.hasApi && config.staticToken == [] ==>
                var known := Find(old(cache.entries), token, asked);
                && ok == (if known.Some? then known.value else answer == Allowed)
                && cache.entries ==
                   if known.Some? then old(cache.entries)
                   else if answer == Unavailable then old(cache.entries) - {token}
                   else old(cache.entries)[token := CacheEntry(answer == Allowed, answered + config.ttl)]
      ensures (ok, cache.entries) == Validated(config, old(cache.entries), token, answer, asked, answered)
    {
      if !AuthEnabled(config) {
        return true;
      }
      if config.staticToken != [] {
        ok := ConstantTimeEqual(token, config.staticToken);
        return;
      }
      var known := cache.Get(token, asked);
      if known.Some? {
        return known.value;
      }
      if answer == Unavailable {
        return false;
      }
      ok := answer == Allowed;
      cache.Put(token, ok, config.ttl, answered);
      assert (old(cache.entries) - {token})[token := CacheEntry(ok, answered + config.ttl)] ==
             old(cache.entries)[token := CacheEntry(ok, answered + config.ttl)];
    }
  }

  /** The verdict of a validation that nothing interrupts, and the cache it leaves. */
  function Validated(
      c: Config, entries: map<Token, CacheEntry>, token: Token, answer: Answer, asked: int, answered: int)
    : (bool, map<Token, CacheEntry>)
  {
    if !AuthEnabled(c) then (true, entries)
    else if c.staticToken != [] then (token == c.staticToken, entries)
    else
      var known, left := Find(entries, token, asked), Purged(entries, token, asked);
      if known.Some? then (known.value, left)
      else if answer == Unavailable then (false, left)
      else (answer == Allowed, left[token := CacheEntry(answer == Allowed, answered + c.ttl)])
  }

  /** Who should be let in: everybody, the holder of the static token, or whom cache or API allow. */
  predicate Acceptable(c: Config, entries: map<Token, CacheEntry>, token: Token, answer: Answer, asked: int) {
    if !c.hasApi && c.staticToken == [] then true
    else if c.staticToken != [] then token == c.staticToken
    else if token in entries && asked < entries[token].expiresAt then entries[token].valid
    else answer == Allowed
  }

  /**
   A call admits exactly those. It touches no entry but that of its token, and that one only when the
   API is asked: a definite answer is kept for a TTL, an expired entry goes, nothing else is kept.
   */
  lemma ValidatedIff(
      c: Config, entries: map<Token, CacheEntry>, token: Token, answer: Answer, asked: int, answered: int)
    ensures var (ok, after) := Validated(c, entries, token, answer, asked, answered);
            var asks := c.hasApi && c.staticToken == [] &&
                        !(token in entries && asked < entries[token].expiresAt);
            && (ok <==> Acceptable(c, entries, token, answer, asked))
            && (!asks ==> after == entries)
            && (asks && answer == Unavailable ==> after == entries - {token})
            && (asks && answer != Unavailable ==>
                  after == entries[token := CacheEntry(answer == Allowed, answered + c.ttl)])
  {
    assert (entries - {token})[token := CacheEntry(answer == Allowed, answered + c.ttl)] ==
           entries[token := CacheEntry(answer == Allowed, answered + c.ttl)];
  }

  lemma XorOrZero(d: bv8, x: bv8, y: bv8)
    ensures (d | (x ^ y)) == 0 <==> d == 0 && x == y
  {
  }

  // ----- many sessions validating at once -----

  /** Where a validation is between two accesses to the cache. */
  datatype Phase = Querying(token: Token) | Storing(token: Token, allowed: bool)

  /** What happened, in order. */
  datatype Note =
    | Answered(token: Token, answer: Answer)
    | Stored(token: Token, allowed: bool, at: int)
    | Verdict(token: Token, admitted: bool, at: int)

  datatype AuthState = AuthState(
    entries: map<Token, CacheEntry>,
    calls: map<nat, Phase>,
    journal: seq<Note>,
    clock: int)

  /** Each event happens at a time; one that lies before the clock is not possible. */
  datatype Event =
    | Begin(call: nat, token: Token, time: int)
    | Reply(call: nat, answer: Answer, time: int)
    | Store(call: nat, time: int)

  predicate Enabled(s: AuthState, e: Event) {
    s.clock <= e.time &&
    match e
    case Begin(call, _, _) => call !in s.calls
    case Reply(call, _, _) => call in s.calls && s.calls[call].Querying?
    case Store(call, _) => call in s.calls && s.calls[call].Storing?
  }

  function Begun(c: Config, s: AuthState, call: nat, token: Token, now: int): AuthState {
    if !AuthEnabled(c) then
      s.(journal := s.journal + [Verdict(token, true, now)])
    else if c.staticToken != [] then
      s.(journal := s.journal + [Verdict(token, token == c.staticToken, now)])
    else
      var known := Find(s.entries, token, now);
      var s' := s.(entries := Purged(s.entries, token, now));
      if known.Some? then s'.(journal := s.journal + [Verdict(token, known.value, now)])
      else s'.(calls := s.calls[call := Querying(token)])
  }

  function Replied(s: AuthState, call: nat, answer: Answer, now: int): AuthState
    requires call in s.calls
  {
    var token := s.calls[call].token;
    if answer == Unavailable then
      s.(calls := s.calls - {call}, journal := s.journal + [Answered(token, answer), Verdict(token, false, now)])
    else
      s.(calls := s.calls[call := Storing(token, answer == Allowed)], journal := s.journal + [Answered(token, answer)])
  }

  function Kept(c: Config, s: AuthState, call: nat, now: int): AuthState
    requires call in s.calls && s.calls[call].Storing?
  {
    var p := s.calls[call];
    s.(entries := s.entries[p.token := CacheEntry(p.allowed, now + c.ttl)],
       calls := s.calls - {call},
       journal := s.journal + [Stored(p.token, p.allowed, now), Verdict(p.token, p.allowed, now)])
  }

  function Step(c: Config, s: AuthState, e: Event): AuthState {
    if !Enabled(s, e) then s
    else
      var s' := match e
        case Begin(call, token, now) => Begun(c, s, call, token, now)
        case Reply(call, answer, now) => Replied(s, call, answer, now)
        case Store(call, now) => Kept(c, s, call, now);
      s'.(clock := e.time)
  }

  function Run(c: Config, start: int, events: seq<Event>): AuthState {
    if events == [] then AuthState(map[], map[], [], start)
    else Step(c, Run(c, start, events[..|events| - 1]), events[|events| - 1])
  }

  /** The last definite answer kept for a token, with the time it was kept. */
  function LastStored(journal: seq<Note>, token: Token): Option<Note> {
    if journal == [] then None
    else
      var n := journal[|journal| - 1];
      if n.Stored? && n.token == token then Some(n) else LastStored(journal[..|journal| - 1], token)
  }

  /** What the journal alone says the cache should answer. */
  function Remembered(c: Config, journal: seq<Note>, token: Token, now: int): Option<bool> {
    var n := LastStored(journal, token);
    if n.Some? && n.value.Stored? && now < n.value.at + c.ttl then Some(n.value.allowed) else None
  }

  ghost predicate OracleSaid(journal: seq<Note>, upTo: nat, token: Token, allowed: bool)
    requires upTo <= |journal|
  {
    Answered(token, if allowed then Allowed else Denied) in journal[..upTo]
  }

  /** Every note follows from the ones before it. */
  ghost predicate Justified(c: Config, journal: seq<Note>, i: nat)
    requires i < |journal|
  {
    match journal[i]
    case Answered(_, _) => true
    case Stored(token, allowed, _) => OracleSaid(journal, i, token, allowed)
    case Verdict(token, admitted, at) =>
      if !c.hasApi && c.staticToken == [] then admitted
      else if c.staticToken != [] then admitted == (token == c.staticToken)
      else
        || Remembered(c, journal[..i], token, at) == Some(admitted)
        || (i > 0 && journal[i - 1] == Stored(token, admitted, at))
        || (i > 0 && journal[i - 1] == Answered(token, Unavailable) && !admitted)
  }

  ghost predicate AllJustified(c: Config, journal: seq<Note>) {
    forall i :: 0 <= i < |journal| ==> Justified(c, journal, i)
  }

  ghost predicate Faithful(c: Config, s: AuthState) {
    && AllJustified(c, s.journal)
    && (forall call :: call in s.calls && s.calls[call].Storing? ==>
          OracleSaid(s.journal, |s.journal|, s.calls[call].token, s.calls[call].allowed))
    && (s.calls != map[] ==> AuthEnabled(c) && c.staticToken == [])
    && (forall token, now :: s.clock <= now ==> Find(s.entries, token, now) == Remembered(c, s.journal, token, now))
  }

  /** Appending one justified note keeps the journal justified, and everything kept so far. */
  lemma Extend(c: Config, journal: seq<Note>, n: Note)
    requires AllJustified(c, journal)
    requires Justified(c, journal + [n], |journal|)
    ensures AllJustified(c, journal + [n])
    ensures forall token, allowed :: OracleSaid(journal, |journal|, token, allowed) ==>
              OracleSaid(journal + [n], |journal| + 1, token, allowed)
    ensures forall token, now :: !(n.Stored? && n.token == token) ==>
              Remembered(c, journal + [n], token, now) == Remembered(c, journal, token, now)
  {
    var all := journal + [n];
    assert all[..|journal|] == journal == journal[..|journal|];
    assert all[..|journal| + 1] == all;
    forall i | 0 <= i < |journal|
      ensures Justified(c, all, i)
    {
      assert Justified(c, journal, i);
      assert all[..i] == journal[..i];
    }
  }

  lemma {:induction false} LastStoredIsThere(journal: seq<Note>, token: Token) returns (k: nat)
    requires LastStored(journal, token).Some?
    ensures k < |journal| && Some(journal[k]) == LastStored(journal, token)
    ensures journal[k].Stored? && journal[k].token == token
  {
    k := |journal| - 1;
    var n := journal[k];
    if !(n.Stored? && n.token == token) {
      k := LastStoredIsThere(journal[..|journal| - 1], token);
    }
  }

  lemma BeginIsFaithful(c: Config, s: AuthState, call: nat, token: Token, now: int)
    requires Faithful(c, s) && Enabled(s, Begin(call, token, now))
    ensures Faithful(c, Step(c, s, Begin(call, token, now)))
  {
    var s' := Step(c, s, Begin(call, token, now));
    assert Find(s.entries, token, now) == Remembered(c, s.journal, token, now);
    if s'.journal != s.journal {
      var n := s'.journal[|s.journal|];
      assert s'.journal == s.journal + [n];
      assert (s.journal + [n])[..|s.journal|] == s.journal;
      Extend(c, s.journal, n);
    }
    forall t, at | now <= at
      ensures Find(s'.entries, t, at) == Remembered(c, s'.journal, t, at)
    {
      assert Find(s.entries, t, at) == Remembered(c, s.journal, t, at);
    }
  }

  lemma ReplyIsFaithful(c: Config, s: AuthState, call: nat, answer: Answer, now: int)
    requires Faithful(c, s) && Enabled(s, Reply(call, answer, now))
    ensures Faithful(c, Step(c, s, Reply(call, answer, now)))
  {
    var s' := Step(c, s, Reply(call, answer, now));
    var token := s.calls[call].token;
    var first := Answered(token, answer);
    var journal := s.journal + [first];
    Extend(c, s.journal, first);
    assert first in journal[..|journal|];
    if answer == Unavailable {
      var second := Verdict(token, false, now);
      assert s'.journal == journal + [second];
      assert (journal + [second])[|s.journal|] == first;
      Extend(c, journal, second);
    }
    forall t, at | now <= at
      ensures Find(s'.entries, t, at) == Remembered(c, s'.journal, t, at)
    {
      assert Find(s.entries, t, at) == Remembered(c, s.journal, t, at);
    }
  }

  lemma StoredIsRemembered(c: Config, s: AuthState, p: Phase, now: int, t: Token, at: int)
    requires p.Storing? && s.clock <= now <= at
    requires Find(s.entries, t, at) == Remembered(c, s.journal, t, at)
    ensures Find(s.entries[p.token := CacheEntry(p.allowed, now + c.ttl)], t, at) ==
            Remembered(c, s.journal + [Stored(p.token, p.allowed, now)], t, at)
  {
  }

  lemma StoreIsJustified(c: Config, s: AuthState, p: Phase, now: int)
    requires p.Storing? && AllJustified(c, s.journal) && AuthEnabled(c) && c.staticToken == []
    requires OracleSaid(s.journal, |s.journal|, p.token, p.allowed)
    ensures var journal := s.journal + [Stored(p.token, p.allowed, now)] + [Verdict(p.token, p.allowed, now)];
            && AllJustified(c, journal)
            && (forall token, allowed :: OracleSaid(s.journal, |s.journal|, token, allowed) ==>
                  OracleSaid(journal, |journal|, token, allowed))
            && (forall token, at :: Remembered(c, journal, token, at) ==
                  Remembered(c, s.journal + [Stored(p.token, p.allowed, now)], token, at))
  {
    var first, second := Stored(p.token, p.allowed, now), Verdict(p.token, p.allowed, now);
    var once := s.journal + [first];
    assert once[..|s.journal|] == s.journal == s.journal[..|s.journal|];
    Extend(c, s.journal, first);
    assert (once + [second])[|s.journal|] == first;
    Extend(c, once, second);
  }

  lemma StoreIsFaithful(c: Config, s: AuthState, call: nat, now: int)
    requires Faithful(c, s) && Enabled(s, Store(call, now))
    ensures Faithful(c, Step(c, s, Store(call, now)))
  {
    var s', p := Step(c, s, Store(call, now)), s.calls[call];
    StoreIsJustified(c, s, p, now);
    assert s'.journal == s.journal + [Stored(p.token, p.allowed, now)] + [Verdict(p.token, p.allowed, now)];
    forall t, at | now <= at
      ensures Find(s'.entries, t, at) == Remembered(c, s'.journal, t, at)
    {
      StoredIsRemembered(c, s, p, now, t, at);
    }
  }

  /**
   In every interleaving of any number of validations every verdict is the right one: admitted
   when authentication is disabled, equality with the static token, else what the cache should
   remember, what the API just answered this call, or refusal when the API was unavailable. And
   the cache answers exactly what was kept last for a token, while it is fresh.
   */
  lemma {:induction false} VerdictsAreJustified(c: Config, start: int, events: seq<Event>)
    ensures Faithful(c, Run(c, start, events))
  {
    if events != [] {
      var s, e := Run(c, start, events[..|events| - 1]), events[|events| - 1];
      VerdictsAreJustified(c, start, events[..|events| - 1]);
      if Enabled(s, e) {
        match e
        case Begin(call, token, now) => BeginIsFaithful(c, s, call, token, now);
        case Reply(call, answer, now) => ReplyIsFaithful(c, s, call, answer, now);
        case Store(call, now) => StoreIsFaithful(c, s, call, now);
      }
    }
  }

  /**
   Behind every admission through the API stands an answer Allowed for that very token, kept at
   the moment of the verdict or less than a TTL before it.
   */
  lemma AdmissionIsTraced(c: Config, start: int, events: seq<Event>, i: nat) returns (answered: nat, kept: nat)
    requires AuthEnabled(c) && c.staticToken == []
    requires i < |Run(c, start, events).journal|
    requires Run(c, start, events).journal[i].Verdict? && Run(c, start, events).journal[i].admitted
    ensures var journal := Run(c, start, events).journal;
            var token, at := journal[i].token, journal[i].at;
            && answered < kept < i
            && journal[answered] == Answered(token, Allowed)
            && journal[kept].Stored? && journal[kept].token == token && journal[kept].allowed
            && (journal[kept].at == at || at < journal[kept].at + c.ttl)
  {
    VerdictsAreJustified(c, start, events);
    var journal := Run(c, start, events).journal;
    assert Justified(c, journal, i);
    if Remembered(c, journal[..i], journal[i].token, journal[i].at) == Some(true) {
      kept := LastStoredIsThere(journal[..i], journal[i].token);
    } else {
      kept := i - 1;
    }
    assert Justified(c, journal, kept);
    answered :| answered < kept && journal[..kept][answered] == Answered(journal[i].token, Allowed);
  }

  /** A validation whose accesses to the cache follow each other with nothing in between. */
  function Uninterrupted(
      c: Config, s: AuthState, call: nat, token: Token, answer: Answer, asked: int, answered: int)
    : AuthState
  {
    Step(c, Step(c, Step(c, s, Begin(call, token, asked)), Reply(call, answer, answered)), Store(call, answered))
  }

  /** What `Validate` does is that run of events; the interleavings above are what threads make of it. */
  lemma ValidateIsARun(c: Config, s: AuthState, call: nat, token: Token, answer: Answer, asked: int, answered: int)
    requires call !in s.calls && s.clock <= asked <= answered
    ensures var t := Uninterrupted(c, s, call, token, answer, asked, answered);
            var (ok, entries) := Validated(c, s.entries, token, answer, asked, answered);
            && t.entries == entries && t.calls == s.calls
            && |t.journal| > |s.journal| && s.journal <= t.journal
            && var verdict := t.journal[|t.journal| - 1];
               verdict.Verdict? && verdict.token == token && verdict.admitted == ok
  {
    var a := Step(c, s, Begin(call, token, asked));
    if call in a.calls {
      assert a.calls - {call} == s.calls;
      var b := Step(c, a, Reply(call, answer, answered));
      assert b.calls - {call} == s.calls;
    }
  }

  // ----- which of the two decides -----

  /** The static token makes no difference to any call, whatever the cache holds and the API says. */
  ghost predicate ApiDecides(c: Config) {
    forall entries, token, answer, asked, answered ::
      Validated(c, entries, token, answer, asked, answered) ==
      Validated(c.(staticToken := []), entries, token, answer, asked, answered)
  }

  /** With both configured, a token that the API denies is admitted, and one that it allows is refused. */
  lemma StaticTokenWins(c: Config, other: Token)
    requires c.hasApi && c.staticToken != [] && other != c.staticToken
    ensures Validated(c, map[], c.staticToken, Denied, 0, 0) == (true, map[])
    ensures !Validated(c.(staticToken := []), map[], c.staticToken, Denied, 0, 0).0
    ensures Validated(c, map[], other, Allowed, 0, 0) == (false, map[])
    ensures Validated(c.(staticToken := []), map[], other, Allowed, 0, 0).0
  {
  }

  /** The API is documented to take precedence over a static token; it does exactly when none is configured. */
  lemma ApiDecidesIff(c: Config)
    requires c.hasApi
    ensures ApiDecides(c) <==> c.staticToken == []
  {
    if c.staticToken == [] {
      assert c.(staticToken := []) == c;
    } else {
      StaticTokenWins(c, []);
    }
  }

  /** An answer of the API for the token of verdict `i` comes before the verdict and agrees with it. */
  ghost predicate Backed(journal: seq<Note>, i: nat)
    requires i < |journal| && journal[i].Verdict?
  {
    exists j :: 0 <= j < i && journal[j].Answered? && journal[j].token == journal[i].token &&
      (journal[j].answer == Allowed <==> journal[i].admitted)
  }

  ghost predicate BackedRun(c: Config, start: int, events: seq<Event>) {
    var journal := Run(c, start, events).journal;
    forall i :: 0 <= i < |journal| && journal[i].Verdict? ==> Backed(journal, i)
  }

  lemma StoredIsBacked(journal: seq<Note>, k: nat, i: nat)
    requires k < i < |journal| && journal[k].Stored? && journal[i].Verdict?
    requires journal[k].token == journal[i].token && journal[k].allowed == journal[i].admitted
    requires OracleSaid(journal, k, journal[k].token, journal[k].allowed)
    ensures Backed(journal, i)
  {
    var said := Answered(journal[k].token, if journal[k].allowed then Allowed else Denied);
    var j :| 0 <= j < k && journal[..k][j] == said;
    assert journal[j] == said;
  }

  lemma VerdictIsBacked(c: Config, start: int, events: seq<Event>, i: nat)
    requires AuthEnabled(c) && c.staticToken == []
    requires i < |Run(c, start, events).journal| && Run(c, start, events).journal[i].Verdict?
    ensures Backed(Run(c, start, events).journal, i)
  {
    VerdictsAreJustified(c, start, events);
    var journal := Run(c, start, events).journal;
    var verdict := journal[i];
    assert Justified(c, journal, i);
    if Remembered(c, journal[..i], verdict.token, verdict.at) == Some(verdict.admitted) {
      var k := LastStoredIsThere(journal[..i], verdict.token);
      assert Justified(c, journal, k);
      StoredIsBacked(journal, k, i);
    } else if journal[i - 1].Stored? {
      assert Justified(c, journal, i - 1);
      StoredIsBacked(journal, i - 1, i);
    } else {
      assert journal[i - 1] == Answered(verdict.token, Unavailable);
    }
  }

  /** In all runs an answer of the API stands behind every verdict, exactly when no static token is configured. */
  lemma ApiBacksVerdictsIff(c: Config, start: int)
    requires c.hasApi
    ensures (forall events :: BackedRun(c, start, events)) <==> c.staticToken == []
  {
    if c.staticToken == [] {
      forall events
        ensures BackedRun(c, start, events)
      {
        var journal := Run(c, start, events).journal;
        forall i | 0 <= i < |journal| && journal[i].Verdict?
          ensures Backed(journal, i)
        {
          VerdictIsBacked(c, start, events, i);
        }
      }
    } else {
      var events := [Begin(0, c.staticToken, start)];
      assert events[..0] == [];
      assert Run(c, start, events).journal == [] + [Verdict(c.staticToken, true, start)];
      var journal := Run(c, start, events).journal;
      assert journal[0].Verdict? && !Backed(journal, 0);
      assert !BackedRun(c, start, events);
    }
  }
}
