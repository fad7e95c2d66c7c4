/**
 Global and per-address connection counters, and the accept loop that pairs every granted slot
 with exactly one release: by the session's guard, or by the accept loop itself when the
 session thread cannot be spawned.
 */
module ConnectionLimiter {

  datatype Limits = Limits(maxTotal: nat, maxPerIp: nat)

  datatype Counters = Counters(perIp: map<string, nat>, total: nat)

  const ZERO: Counters := Counters(map[], 0)

  function Count(m: map<string, nat>, ip: string): nat {
    if ip in m then m[ip] else 0
  }

  function TryAcquire(limits: Limits, s: Counters, ip: string): (Counters, bool) {
    if s.total >= limits.maxTotal then (s, false)
    else if Count(s.perIp, ip) >= limits.maxPerIp then (s.(perIp := s.perIp[ip := Count(s.perIp, ip)]), false)
    else (Counters(s.perIp[ip := Count(s.perIp, ip) + 1], s.total + 1), true)
  }

  function Release(s: Counters, ip: string): Counters {
    var n := Count(s.perIp, ip);
    Counters(
      if n == 0 then s.perIp else if n == 1 then s.perIp - {ip} else s.perIp[ip := n - 1],
      if s.total > 0 then s.total - 1 else 0)
  }

  class ConnectionLimiter {
    const limits: Limits
    var perIp: map<string, nat>
    var total: nat

    ghost function State(): Counters
      reads this
    {
      Counters(perIp, total)
    }

    constructor (maxTotal: nat, maxPerIp: nat)
      ensures limits == Limits(maxTotal, maxPerIp)
      ensures State() == ZERO
    {
      limits := Limits(maxTotal, maxPerIp);
      perIp, total := map[], 0;
    }

    method TryToAcquire(ip: string) returns (ok: bool)
      modifies this
      ensures (State(), ok) == TryAcquire(limits, old(State()), ip)
    {
      if total >= limits.maxTotal {
        return false;
      }
      if ip !in perIp {
        perIp := perIp[ip := 0];
      }
      assert perIp == old(perIp)[ip := Count(old(perIp), ip)];
      if perIp[ip] >= limits.maxPerIp {
        return false;
      }
      perIp := perIp[ip := perIp[ip] + 1];
      total := total + 1;
      assert perIp == old(perIp)[ip := Count(old(perIp), ip) + 1];
      return true;
    }

    method GiveBack(ip: string)
      modifies this
      ensures State() == Release(old(State()), ip)
    {
      if ip in perIp && perIp[ip] > 0 {
        perIp := perIp[ip := perIp[ip] - 1];
        if perIp[ip] == 0 {
          perIp := perIp - {ip};
        }
      }
      if total > 0 {
        total := total - 1;
      }
    }
  }

  // ----- the counters as a bounded multiset -----

  /** The multiset a counting map stands for; its size is the sum of the counts. */
  ghost function Bag(m: map<string, nat>): (bag: multiset<string>)
    ensures forall ip :: bag[ip] == Count(m, ip)
    decreases |m|
  {
    if m == map[] then multiset{}
    else
      var ip :| ip in m;
      Bag(m - {ip})[ip := m[ip]]
  }

  ghost predicate Agree(s: Counters, live: multiset<string>) {
    Bag(s.perIp) == live && s.total == |live|
  }

  /** A slot is granted exactly while both bounds leave room, and then the bag gains one element. */
  lemma TryAcquireRefines(limits: Limits, s: Counters, ip: string, live: multiset<string>)
    requires Agree(s, live)
    ensures var (s', ok) := TryAcquire(limits, s, ip);
            && (ok <==> |live| < limits.maxTotal && live[ip] < limits.maxPerIp)
            && Agree(s', if ok then live + multiset{ip} else live)
  {
  }

  /** A request refused for the total leaves no trace; any other leaves an entry for its address. */
  lemma TryAcquireEntry(limits: Limits, s: Counters, ip: string)
    ensures var (s', ok) := TryAcquire(limits, s, ip);
            && (s.total >= limits.maxTotal ==> s' == s)
            && (s.total < limits.maxTotal ==> s'.perIp.Keys == s.perIp.Keys + {ip})
            && forall other :: other != ip ==> Count(s'.perIp, other) == Count(s.perIp, other)
  {
  }

  /** A release takes one element out, and the counters stay right exactly when there was one. */
  lemma ReleaseRefines(s: Counters, ip: string, live: multiset<string>)
    requires Agree(s, live)
    ensures ip in live || s.total == 0 ==> Agree(Release(s, ip), live - multiset{ip})
    ensures (exists b :: Agree(Release(s, ip), b)) <==> ip in live || s.total == 0
  {
  }

  // ----- the accept loop -----

  /** A granted slot: first held by the accept loop, then by the guard inside the session thread. */
  datatype Slot = Accepted(ip: string) | Serving(ip: string)

  /** The live slots are listed in the order they were granted. */
  datatype Server = Server(counters: Counters, slots: seq<Slot>)

  datatype Event =
    | Connect(ip: string)
    | SpawnFailed(slot: nat)
    | GuardBuilt(slot: nat)
    | GuardDestroyed(slot: nat)

  predicate Enabled(s: Server, e: Event) {
    match e
    case Connect(_) => true
    case SpawnFailed(i) => i < |s.slots| && s.slots[i].Accepted?
    case GuardBuilt(i) => i < |s.slots| && s.slots[i].Accepted?
    case GuardDestroyed(i) => i < |s.slots| && s.slots[i].Serving?
  }

  function WithoutSlot(s: Server, i: nat): Server
    requires i < |s.slots|
  {
    Server(Release(s.counters, s.slots[i].ip), s.slots[..i] + s.slots[i + 1..])
  }

  function Step(limits: Limits, s: Server, e: Event): Server {
    if !Enabled(s, e) then s
    else
      match e
      case Connect(ip) =>
        var (c, ok) := TryAcquire(limits, s.counters, ip);
        Server(c, if ok then s.slots + [Accepted(ip)] else s.slots)
      case SpawnFailed(i) => WithoutSlot(s, i)
      case GuardBuilt(i) => s.(slots := s.slots[i := Serving(s.slots[i].ip)])
      case GuardDestroyed(i) => WithoutSlot(s, i)
  }

  function Run(limits: Limits, events: seq<Event>): Server {
    if events == [] then Server(ZERO, [])
    else Step(limits, Run(limits, events[..|events| - 1]), events[|events| - 1])
  }

  ghost function Ips(slots: seq<Slot>): (ips: seq<string>)
    ensures |ips| == |slots|
    ensures forall i :: 0 <= i < |slots| ==> ips[i] == slots[i].ip
  {
    seq(|slots|, i requires 0 <= i < |slots| => slots[i].ip)
  }

  /** The addresses of the live slots, one occurrence a slot. */
  ghost function Live(slots: seq<Slot>): multiset<string> {
    multiset(Ips(slots))
  }

  lemma LiveWithout(slots: seq<Slot>, i: nat)
    requires i < |slots|
    ensures Live(slots) == Live(slots[..i] + slots[i + 1..]) + multiset{slots[i].ip}
  {
    var ips := Ips(slots);
    assert ips == ips[..i] + [ips[i]] + ips[i + 1..];
    assert Ips(slots[..i] + slots[i + 1..]) == ips[..i] + ips[i + 1..];
  }

  ghost predicate NoEmptyEntry(m: map<string, nat>) {
    forall ip :: ip in m ==> m[ip] > 0
  }

  ghost predicate Consistent(limits: Limits, s: Server) {
    && Agree(s.counters, Live(s.slots))
    && |s.slots| <= limits.maxTotal
    && (forall ip :: Live(s.slots)[ip] <= limits.maxPerIp)
    && (limits.maxPerIp > 0 ==> NoEmptyEntry(s.counters.perIp))
  }

  lemma LiveWith(slots: seq<Slot>, ip: string)
    ensures Live(slots + [Accepted(ip)]) == Live(slots) + multiset{ip}
  {
    assert Ips(slots + [Accepted(ip)]) == Ips(slots) + [ip];
  }

  lemma ConnectIsConsistent(limits: Limits, s: Server, ip: string)
    requires Consistent(limits, s)
    ensures Consistent(limits, Step(limits, s, Connect(ip)))
  {
    TryAcquireRefines(limits, s.counters, ip, Live(s.slots));
    LiveWith(s.slots, ip);
  }

  lemma EndIsConsistent(limits: Limits, s: Server, i: nat)
    requires Consistent(limits, s) && i < |s.slots|
    ensures Consistent(limits, WithoutSlot(s, i))
  {
    LiveWithout(s.slots, i);
    ReleaseRefines(s.counters, s.slots[i].ip, Live(s.slots));
    assert Live(s.slots) - multiset{s.slots[i].ip} == Live(s.slots[..i] + s.slots[i + 1..]);
  }

  lemma StepIsConsistent(limits: Limits, s: Server, e: Event)
    requires Consistent(limits, s)
    ensures Consistent(limits, Step(limits, s, e))
  {
    if Enabled(s, e) {
      match e
      case Connect(ip) => ConnectIsConsistent(limits, s, ip);
      case SpawnFailed(i) => EndIsConsistent(limits, s, i);
      case GuardDestroyed(i) => EndIsConsistent(limits, s, i);
      case GuardBuilt(i) => assert Ips(Step(limits, s, e).slots) == Ips(s.slots);
    }
  }

  /**
   For every run of accepts, rejections, failed spawns and finished sessions: the total is the
   sum of the per-address counts and the number of live slots, both bounds hold, and (when at
   least one connection an address is allowed) the map's keys are exactly the addresses with a
   live slot.
   */
  lemma {:induction false} CountersAreExact(limits: Limits, events: seq<Event>)
    ensures var s := Run(limits, events);
            && Consistent(limits, s)
            && s.counters.total == |Bag(s.counters.perIp)| == |s.slots|
            && (limits.maxPerIp > 0 ==> forall ip :: ip in s.counters.perIp <==> ip in Ips(s.slots))
  {
    if events == [] {
      assert Bag(map[]) == multiset{};
    } else {
      CountersAreExact(limits, events[..|events| - 1]);
      StepIsConsistent(limits, Run(limits, events[..|events| - 1]), events[|events| - 1]);
    }
    var s := Run(limits, events);
    forall ip
      ensures limits.maxPerIp > 0 ==> (ip in s.counters.perIp <==> ip in Ips(s.slots))
    {
      assert Bag(s.counters.perIp)[ip] == Count(s.counters.perIp, ip);
    }
  }
}
