/**
 The shared model context: reference counting, and detached timer threads that free the model
 some time after the last release. Contexts are numbered in loading order, so a number below
 `nextContext` other than the loaded one denotes a context that has been freed.
 */
module ModelCache {
  import opened Common

  datatype Cache = Cache(
    context: Option<nat>,
    path: string,
    refs: int,
    unloadPending: bool,
    timers: seq<int>,   // due times of the detached timer threads that have not run yet
    ttl: int,
    nextContext: nat)

  function Initial(ttl: int): Cache {
    Cache(None, "", 0, false, [], ttl, 0)
  }

  function Unload(c: Cache): Cache {
    if c.context.Some? then c.(context := None, path := "", refs := 0) else c
  }

  function Load(c: Cache, path: string): Cache {
    c.(context := Some(c.nextContext), path := path, refs := 1, nextContext := c.nextContext + 1)
  }

  /** `loads` says whether reading the model file would succeed; `None` stands for the exception. */
  function Acquire(c: Cache, path: string, loads: bool): (Cache, Option<nat>) {
    var d := c.(unloadPending := false);
    if c.context.Some? && c.path == path then (d.(refs := d.refs + 1), d.context)
    else
      var e := if c.context.Some? then d.(context := None, path := "") else d;
      if loads then (Load(e, path), Some(e.nextContext)) else (e, None)
  }

  function Release(c: Cache, now: int): Cache {
    if c.refs <= 0 then c
    else
      var d := c.(refs := c.refs - 1);
      if d.refs > 0 then d
      else if c.ttl == 0 then Unload(d)
      else if c.ttl > 0 then d.(unloadPending := true, timers := d.timers + [now + c.ttl])
      else d
  }

  function WithoutTimer(c: Cache, i: nat): Cache
    requires i < |c.timers|
  {
    c.(timers := c.timers[..i] + c.timers[i + 1..])
  }

  function Fire(c: Cache, i: nat): Cache
    requires i < |c.timers|
  {
    var d := WithoutTimer(c, i);
    if d.unloadPending && d.refs == 0 then Unload(d).(unloadPending := false) else d
  }

  class ModelCache {
    var context: Option<nat>
    var loadedPath: string
    var refCount: int
    var ttlSeconds: int
    var unloadPending: bool
    ghost var timers: seq<int>
    ghost var nextContext: nat

    ghost function State(): Cache
      reads this
    {
      Cache(context, loadedPath, refCount, unloadPending, timers, ttlSeconds, nextContext)
    }

    constructor (ttl: int)
      ensures State() == Initial(ttl)
    {
      context, loadedPath, refCount, ttlSeconds, unloadPending := None, "", 0, ttl, false;
      timers, nextContext := [], 0;
    }

    /** `loaded` is what reading the file yields: the next context, or nothing. */
    method AcquireContext(path: string, loaded: Option<nat>) returns (got: Option<nat>)
      requires loaded.Some? ==> loaded.value == nextContext
      modifies this
      ensures (State(), got) == Acquire(old(State()), path, loaded.Some?)
    {
      unloadPending := false;
      if context.Some? && loadedPath == path {
        refCount := refCount + 1;
        return context;
      }
      if context.Some? {
        context, loadedPath := None, "";
      }
      context := loaded;
      if context.None? {
        return None;
      }
      loadedPath, refCount := path, 1;
      nextContext := nextContext + 1;
      return context;
    }

    method ReleaseContext(now: int)
      modifies this
      ensures State() == Release(old(State()), now)
    {
      if refCount <= 0 {
        return;
      }
      refCount := refCount - 1;
      if refCount == 0 {
        if ttlSeconds == 0 {
          UnloadLocked();
        } else if ttlSeconds > 0 {
          unloadPending := true;
          timers := timers + [now + ttlSeconds];
        }
      }
    }

    /** The body of the `i`-th timer thread after its sleep. */
    method TimerExpires(ghost i: nat)
      requires i < |timers|
      modifies this
      ensures State() == Fire(old(State()), i)
    {
      timers := timers[..i] + timers[i + 1..];
      if unloadPending && refCount == 0 {
        UnloadLocked();
        unloadPending := false;
      }
    }

    method UnloadLocked()
      modifies this
      ensures State() == Unload(old(State()))
    {
      if context.Some? {
        context, loadedPath, refCount := None, "", 0;
      }
    }
  }

  /** A loaded model of the right path is shared; otherwise what is there goes and the file is read. */
  lemma AcquireEffect(c: Cache, path: string, loads: bool)
    ensures var (after, got) := Acquire(c, path, loads);
            && !after.unloadPending && after.timers == c.timers && after.ttl == c.ttl
            && (c.context.Some? && c.path == path ==>
                  && got == after.context == c.context
                  && after.refs == c.refs + 1 && after.path == path && after.nextContext == c.nextContext)
            && (!(c.context.Some? && c.path == path) && loads ==>
                  && got == after.context == Some(c.nextContext)
                  && after.refs == 1 && after.path == path && after.nextContext == c.nextContext + 1)
            && (!(c.context.Some? && c.path == path) && !loads ==>
                  got == after.context == None && after.refs == c.refs && after.nextContext == c.nextContext)
  {
  }

  /** Only the last reference matters: then the model goes at once, or a timer is set, or it stays for ever. */
  lemma ReleaseEffect(c: Cache, now: int)
    ensures var after := Release(c, now);
            && (c.refs <= 0 ==> after == c)
            && (c.refs > 1 ==> after == c.(refs := c.refs - 1))
            && (c.refs == 1 ==>
                  && after.refs == 0 && after.ttl == c.ttl
                  && (c.ttl == 0 ==> after.context.None? && after.timers == c.timers)
                  && (c.ttl == 0 && c.context.Some? ==> after.path == "")
                  && (c.ttl > 0 ==>
                        && after.context == c.context && after.unloadPending
                        && after.timers == c.timers + [now + c.ttl])
                  && (c.ttl < 0 ==> after == c.(refs := 0)))
  {
  }

  /** A timer that runs is gone, and takes an unreferenced model with it if an unload is pending. */
  lemma FireEffect(c: Cache, i: nat)
    requires i < |c.timers|
    ensures var after := Fire(c, i);
            && after.timers == c.timers[..i] + c.timers[i + 1..]
            && (c.unloadPending && c.refs == 0 ==> after.context.None? && !after.unloadPending && after.refs == 0)
            && (!(c.unloadPending && c.refs == 0) ==> after == c.(timers := after.timers))
  {
  }
}
