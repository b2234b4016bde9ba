/**
 The lease manager itself (internal/session/lease.go): the current lease, its timer and its release
 channel are changed in place, each method one step of the state machine in Leases. The runtime
 stands for the clock and the timers.
 */
module LeaseManager {
  import opened Wrappers
  import opened Leases

  datatype LeaseError = HeldByOther | NotFound | Mismatch

  /** What callers get to see of a lease. */
  datatype View = View(id: Id, owner: string, expiresAt: Time)

  function ViewOf(l: Lease): View {
    View(l.id, l.owner, l.expiresAt)
  }

  class ReleaseChan {
    ghost const lease: Id
    var sent: seq<Reason>
    var taken: nat
    var closes: nat

    constructor (ghost lease: Id)
      ensures this.lease == lease && Value() == Chan([], 0, 0)
    {
      this.lease := lease;
      sent, taken, closes := [], 0, 0;
    }

    function Value(): Chan
      reads this
    {
      Chan(sent, taken, closes)
    }

    /** The non-blocking send into a buffer of one, then the close. */
    method Signal(r: Reason)
      modifies this
      ensures Value() == Signalled(old(Value()), r)
      ensures sent == old(sent) + (if |old(sent)| - old(taken) < 1 then [r] else []) && closes == old(closes) + 1
    {
      if |sent| - taken < 1 {
        sent := sent + [r];
      }
      closes := closes + 1;
    }
  }

  /** The clock and the timers; a stopped timer that has fired already is not called back. */
  class Runtime {
    var now: Time
    var armed: map<TimerId, Timer>
    var flying: map<TimerId, Id>
    var nextTimer: TimerId

    constructor ()
      ensures now == 0 && armed == map[] && flying == map[] && nextTimer == 0
    {
      now, armed, flying, nextTimer := 0, map[], map[], 0;
    }

    method AfterFunc(d: Time, lease: Id) returns (k: TimerId)
      modifies this`armed, this`nextTimer
      ensures k == old(nextTimer) && nextTimer == k + 1
      ensures armed == old(armed)[k := Timer(lease, now + d)]
    {
      k := nextTimer;
      armed := armed[k := Timer(lease, now + d)];
      nextTimer := nextTimer + 1;
    }

    method Stop(k: TimerId)
      modifies this`armed
      ensures armed == old(armed) - {k}
    {
      armed := armed - {k};
    }
  }

  class InternalLease {
    const id: Id
    const owner: string
    const releaseCh: ReleaseChan
    ghost const since: Time
    var expiresAt: Time
    var graceUntil: Option<Time>
    var timer: TimerId

    constructor (id: Id, owner: string, releaseCh: ReleaseChan, ghost since: Time, expiresAt: Time, timer: TimerId)
      ensures this.releaseCh == releaseCh && Value() == Lease(id, owner, since, expiresAt, None, timer)
    {
      this.id, this.owner, this.releaseCh, this.since := id, owner, releaseCh, since;
      this.expiresAt, this.graceUntil, this.timer := expiresAt, None, timer;
    }

    ghost function Value(): Lease
      reads this
    {
      Lease(id, owner, since, expiresAt, graceUntil, timer)
    }
  }

  class Manager {
    const ttl: Time
    const graceDur: Time
    const rt: Runtime
    var cur: InternalLease?
    var nextId: Id                          // stands for the fresh ids
    ghost var chans: map<Id, ReleaseChan>   // the release channels of all leases so far
    ghost var st: State                     // the abstract state that the fields stand for
    ghost var trace: seq<Event>             // the steps so far

    ghost function Cfg(): Config {
      Config(ttl, graceDur)
    }

    ghost predicate ClockShows(s: State)
      reads rt
    {
      rt.now == s.now && rt.armed == s.armed && rt.flying == s.flying && rt.nextTimer == s.nextTimer
    }

    ghost predicate CurShows(s: State)
      reads this`cur, this`chans, cur
    {
      && (cur == null <==> s.cur.None?)
      && (cur != null ==> cur.Value() == s.cur.value && cur.id in chans && chans[cur.id] == cur.releaseCh)
    }

    ghost predicate ChansShow(s: State)
      reads this`chans, chans.Values
    {
      && chans.Keys == s.chans.Keys
      && (forall id | id in chans :: chans[id].lease == id && chans[id].Value() == s.chans[id])
    }

    ghost predicate Shows(s: State)
      reads this`cur, this`chans, this`nextId, cur, rt, chans.Values
    {
      nextId == s.nextId && ClockShows(s) && CurShows(s) && ChansShow(s)
    }

    ghost predicate Valid()
      reads this, cur, rt, chans.Values
    {
      Shows(st) && st == Run(Cfg(), trace)
    }

    constructor (ttl: Time)
      ensures Valid() && trace == [] && Cfg() == Config(ttl, 5_000_000_000) && fresh(rt)
    {
      this.ttl, graceDur := ttl, 5_000_000_000;
      rt := new Runtime();
      cur, nextId := null, 0;
      chans, st, trace := map[], INIT, [];
    }

    /** Records a step that the fields have already taken. */
    ghost method Commit(e: Event)
      requires st == Run(Cfg(), trace) && Shows(Step(Cfg(), st, e))
      modifies this`st, this`trace
      ensures Valid() && trace == old(trace) + [e] && st == Step(Cfg(), old(st), e)
    {
      ghost var next := Step(Cfg(), st, e);
      assert next == Run(Cfg(), trace + [e]) by {
        Unrolls(Cfg(), trace, e);
      }
      st, trace := next, trace + [e];
    }

    /** Stops the timer, signals the reason and leaves no current lease. */
    method ReapLocked(reason: Reason, ghost s: State)
      requires Shows(s)
      modifies this`cur, rt`armed, chans.Values
      ensures Shows(Reap(s, reason)) && cur == null
    {
      if cur == null {
        return;
      }
      rt.Stop(cur.timer);
      cur.releaseCh.Signal(reason);
      cur := null;
    }

    method OpenChan(ghost s: State) returns (ch: ReleaseChan)
      requires ChansShow(s) && nextId !in chans
      modifies this`chans
      ensures fresh(ch) && chans == old(chans)[nextId := ch]
      ensures ChansShow(s.(chans := s.chans[nextId := Chan([], 0, 0)]))
    {
      ch := new ReleaseChan(nextId);
      chans := chans[nextId := ch];
    }

    method GrantLocked(owner: string, ghost s: State)
      requires Shows(s) && s.nextId !in chans
      modifies this`cur, this`nextId, this`chans, rt`armed, rt`nextTimer
      ensures Shows(Grant(Cfg(), s, owner)) && cur != null
      ensures fresh(cur) && chans == old(chans)[old(nextId) := cur.releaseCh]
    {
      var ch := OpenChan(s);
      InstallLease(owner, ch, s);
    }

    method InstallLease(owner: string, ch: ReleaseChan, ghost s: State)
      requires nextId == s.nextId && ClockShows(s) && nextId in chans && chans[nextId] == ch
      requires ChansShow(s.(chans := s.chans[nextId := Chan([], 0, 0)]))
      modifies this`cur, this`nextId, rt`armed, rt`nextTimer
      ensures Shows(Grant(Cfg(), s, owner)) && cur != null && fresh(cur) && cur.releaseCh == ch
    {
      var k := rt.AfterFunc(ttl, nextId);
      cur := new InternalLease(nextId, owner, ch, rt.now, rt.now + ttl, k);
      nextId := nextId + 1;
    }

    /** Denied while the current lease has not reached its governing deadline; a lease that has is
        reaped although its timer's callback has not run. */
    method Acquire(owner: string) returns (r: Result<View, LeaseError>)
      requires Valid()
      modifies this, rt, chans.Values
      ensures Valid() && trace == old(trace) + [Leases.Event.Acquire(owner)]
      ensures r == if Free(old(st)) then Ok(ViewOf(st.cur.value)) else Err(HeldByOther)
      ensures r.Ok? <==>
              old(cur == null || (if cur.graceUntil.Some? then cur.graceUntil.value else cur.expiresAt) <= rt.now)
      ensures r.Ok? ==> && cur != null && fresh(cur) && r.value == View(cur.id, cur.owner, cur.expiresAt)
                        && cur.owner == owner && cur.expiresAt == rt.now + ttl && cur.graceUntil == None
      ensures r.Err? ==> cur == old(cur) && unchanged(rt)
    {
      if cur != null {
        if cur.graceUntil.Some? && rt.now < cur.graceUntil.value {
          Commit(Leases.Event.Acquire(owner));
          return Err(HeldByOther);
        }
        if cur.graceUntil.None? && rt.now < cur.expiresAt {
          Commit(Leases.Event.Acquire(owner));
          return Err(HeldByOther);
        }
      }
      LeasesExclude(Cfg(), trace);
      if cur != null {
        ReapLocked(Expired, st);
      }
      GrantLocked(owner, Reap(st, Expired));
      Commit(Leases.Event.Acquire(owner));
      r := Ok(View(cur.id, cur.owner, cur.expiresAt));
    }

    function Missing(id: Id): Option<LeaseError>
      reads this`cur
    {
      if cur == null then Some(NotFound) else if cur.id != id then Some(Mismatch) else None
    }

    method Extend(id: Id) returns (r: Result<View, LeaseError>)
      requires Valid()
      modifies this`st, this`trace, rt`armed, rt`nextTimer, cur
      ensures Valid() && trace == old(trace) + [Leases.Event.Extend(id)]
      ensures old(cur) == null ==> r == Err(NotFound)
      ensures old(cur) != null && old(cur.id) != id ==> r == Err(Mismatch) && unchanged(old(cur))
      ensures old(cur) != null && old(cur.id) == id ==>
                && r == Ok(View(id, old(cur).owner, old(cur).expiresAt))
                && old(cur).expiresAt == rt.now + ttl && old(cur).graceUntil == None
    {
      if cur == null {
        Commit(Leases.Event.Extend(id));
        return Err(NotFound);
      }
      if cur.id != id {
        Commit(Leases.Event.Extend(id));
        return Err(Mismatch);
      }
      cur.graceUntil := None;
      rt.Stop(cur.timer);
      cur.expiresAt := rt.now + ttl;
      cur.timer := rt.AfterFunc(ttl, cur.id);
      Commit(Leases.Event.Extend(id));
      r := Ok(View(cur.id, cur.owner, cur.expiresAt));
    }

    method Release(id: Id) returns (e: Option<LeaseError>)
      requires Valid()
      modifies this`st, this`trace, this`cur, rt`armed, chans.Values
      ensures Valid() && trace == old(trace) + [Leases.Event.Release(id)]
      ensures e == if old(cur) == null then Some(NotFound) else if old(cur).id != id then Some(Mismatch) else None
      ensures cur == if e.None? then null else old(cur)
    {
      e := Missing(id);
      if e.None? {
        ReapLocked(ClientReleased, st);
      }
      Commit(Leases.Event.Release(id));
    }

    method ForceRelease(reason: Reason)
      requires Valid()
      modifies this`st, this`trace, this`cur, rt`armed, chans.Values
      ensures Valid() && trace == old(trace) + [Leases.Event.ForceRelease(reason)] && cur == null
    {
      if cur != null {
        ReapLocked(reason, st);
      }
      Commit(Leases.Event.ForceRelease(reason));
    }

    /** The grace timer takes the place of the lease's own. */
    method StartGrace()
      requires Shows(st) && cur != null && cur.graceUntil.None?
      modifies rt`armed, rt`nextTimer, cur
      ensures Shows(InGrace(Cfg(), st, cur.id)) && cur.graceUntil == Some(rt.now + graceDur)
    {
      rt.Stop(cur.timer);
      cur.graceUntil := Some(rt.now + graceDur);
      cur.timer := rt.AfterFunc(graceDur, cur.id);
    }

    /** Starts the grace timer unless the lease is in grace already. */
    method BeginGrace(id: Id) returns (e: Option<LeaseError>)
      requires Valid()
      modifies this`st, this`trace, rt`armed, rt`nextTimer, cur
      ensures Valid() && trace == old(trace) + [Leases.Event.BeginGrace(id)]
      ensures e == if old(cur) == null then Some(NotFound) else if old(cur).id != id then Some(Mismatch) else None
      ensures e.None? ==> cur.graceUntil == if old(cur.graceUntil).Some? then old(cur.graceUntil)
                                            else Some(rt.now + graceDur)
    {
      e := Missing(id);
      if e.None? && cur.graceUntil.None? {
        StartGrace();
      }
      Commit(Leases.Event.BeginGrace(id));
    }

    /** What an extension does, without the view. */
    method CancelGrace(id: Id) returns (e: Option<LeaseError>)
      requires Valid()
      modifies this`st, this`trace, rt`armed, rt`nextTimer, cur
      ensures Valid() && trace == old(trace) + [Leases.Event.Extend(id)]
      ensures e == if old(cur) == null then Some(NotFound) else if old(cur).id != id then Some(Mismatch) else None
      ensures e.None? ==> old(cur).expiresAt == rt.now + ttl && old(cur).graceUntil == None
    {
      var r := Extend(id);
      e := if r.Ok? then None else Some(r.error);
    }

    method IsHeldBy(id: Id) returns (held: bool)
      requires Valid()
      ensures held <==> cur != null && cur.id == id
                        && rt.now <= if cur.graceUntil.Some? then cur.graceUntil.value else cur.expiresAt
      ensures held <==> HeldBy(st, id)
    {
      if cur == null {
        return false;
      }
      if cur.graceUntil.Some? && rt.now > cur.graceUntil.value {
        return false;
      }
      if cur.graceUntil.None? && rt.now > cur.expiresAt {
        return false;
      }
      held := cur.id == id;
    }

    method ReleaseChanFor(id: Id) returns (ch: ReleaseChan?)
      requires Valid()
      ensures ch == if cur != null && cur.id == id then cur.releaseCh else null
      ensures if Current(st, id) then id in chans && ch == chans[id] else ch == null
    {
      if cur == null || cur.id != id {
        return null;
      }
      ch := cur.releaseCh;
    }

    method Snapshot() returns (v: Option<View>)
      requires Valid()
      ensures v == if cur == null then None else Some(View(cur.id, cur.owner, cur.expiresAt))
    {
      if cur == null {
        return None;
      }
      v := Some(View(cur.id, cur.owner, cur.expiresAt));
    }

    // -------------------------------------------------------------- the runtime

    method PassTime(d: Time)
      requires Valid()
      modifies this`st, this`trace, rt`now
      ensures Valid() && trace == old(trace) + [Tick(d)] && rt.now == old(rt.now) + d
    {
      rt.now := rt.now + d;
      Commit(Tick(d));
    }

    /** The runtime starts the callback of a due timer; stopping the timer is too late then. */
    method FireTimer(k: TimerId)
      requires Valid() && k in rt.armed && rt.armed[k].deadline <= rt.now
      modifies this`st, this`trace, rt`armed, rt`flying
      ensures Valid() && trace == old(trace) + [Fire(k)] && k !in rt.armed && k in rt.flying
    {
      rt.flying := rt.flying[k := rt.armed[k].lease];
      rt.armed := rt.armed - {k};
      Commit(Fire(k));
    }

    /** The callback gets the lock and compares ids. */
    method ExpireFromTimer(k: TimerId)
      requires Valid() && k in rt.flying
      modifies this`st, this`trace, this`cur, rt`armed, rt`flying, chans.Values
      ensures Valid() && trace == old(trace) + [Callback(k)]
      ensures cur == if old(cur) != null && old(cur).id == old(rt.flying)[k] then null else old(cur)
    {
      var expected := rt.flying[k];
      rt.flying := rt.flying - {k};
      if cur != null && cur.id == expected {
        ReapLocked(Expired, st.(flying := st.flying - {k}));
      }
      Commit(Callback(k));
    }
  }
}
