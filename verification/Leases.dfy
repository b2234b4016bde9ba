/**
 The lease of one device as a state machine over time (internal/session/lease.go). Every method
 of the manager holds its lock from start to end and is one step. A timer that has fired is only
 a callback waiting for that lock; it may get it late, after other calls.
 */
module Leases {
  import opened Wrappers

  type Id = nat
  type TimerId = nat
  type Time = nat

  datatype Reason = Expired | AdminRevoked | DeviceGone | ClientReleased

  datatype Config = Config(ttl: Time, grace: Time)

  /** A lease and the time when it was acquired. */
  datatype Lease = Lease(id: Id, owner: string, since: Time, expiresAt: Time, graceUntil: Option<Time>, timer: TimerId)

  datatype Timer = Timer(lease: Id, deadline: Time)

  /** A release channel with room for one reason: what was sent, received, and how often it was closed. */
  datatype Chan = Chan(sent: seq<Reason>, taken: nat, closes: nat)

  /** How long a lease was the current one. */
  datatype Period = Period(id: Id, start: Time, end: Time)

  datatype State = State(now: Time, cur: Option<Lease>, armed: map<TimerId, Timer>, flying: map<TimerId, Id>,
    chans: map<Id, Chan>, nextId: Id, nextTimer: TimerId, past: seq<Period>)

  /** CancelGrace is Extend under another name. */
  datatype Event =
    | Tick(d: Time)
    | Fire(k: TimerId)
    | Callback(k: TimerId)
    | Acquire(owner: string)
    | Extend(id: Id)
    | Release(id: Id)
    | ForceRelease(reason: Reason)
    | BeginGrace(id: Id)
    | TakeReason(id: Id)

  const INIT := State(0, None, map[], map[], map[], 0, 0, [])

  /** The moment that governs whether the lease still stands. */
  function Deadline(l: Lease): Time {
    if l.graceUntil.Some? then l.graceUntil.value else l.expiresAt
  }

  predicate Current(st: State, id: Id) {
    st.cur.Some? && st.cur.value.id == id
  }

  /** An Acquire call succeeds. */
  predicate Free(st: State) {
    st.cur.None? || Deadline(st.cur.value) <= st.now
  }

  /** IsHeldBy's answer; it still says yes at the very instant of the deadline. */
  predicate HeldBy(st: State, id: Id) {
    Current(st, id) && st.now <= Deadline(st.cur.value)
  }

  predicate Enabled(st: State, e: Event) {
    match e
    case Fire(k) => k in st.armed && st.armed[k].deadline <= st.now
    case Callback(k) => k in st.flying
    case TakeReason(id) => id in st.chans && st.chans[id].taken < |st.chans[id].sent|
    case _ => true
  }

  /** The non-blocking send into the buffer of one, and the close. */
  function Signalled(c: Chan, r: Reason): Chan {
    Chan(if |c.sent| < c.taken + 1 then c.sent + [r] else c.sent, c.taken, c.closes + 1)
  }

  function Reap(st: State, r: Reason): State {
    if st.cur.None? then st else
    var l := st.cur.value;
    st.(cur := None, armed := st.armed - {l.timer},
        chans := if l.id in st.chans then st.chans[l.id := Signalled(st.chans[l.id], r)] else st.chans,
        past := st.past + [Period(l.id, l.since, st.now)])
  }

  function Grant(cfg: Config, st: State, owner: string): State {
    var l := Lease(st.nextId, owner, st.now, st.now + cfg.ttl, None, st.nextTimer);
    st.(cur := Some(l), chans := st.chans[l.id := Chan([], 0, 0)], nextId := st.nextId + 1,
        armed := st.armed[l.timer := Timer(l.id, l.expiresAt)], nextTimer := st.nextTimer + 1)
  }

  /** The timer of the current lease is stopped and a new one armed. */
  function Rearm(st: State, l: Lease, deadline: Time): State
    requires st.cur.Some?
  {
    st.(cur := Some(l.(timer := st.nextTimer)), nextTimer := st.nextTimer + 1,
        armed := (st.armed - {st.cur.value.timer})[st.nextTimer := Timer(l.id, deadline)])
  }

  function Extended(cfg: Config, st: State, id: Id): State {
    if !Current(st, id) then st else
    var end := st.now + cfg.ttl;
    Rearm(st, st.cur.value.(expiresAt := end, graceUntil := None), end)
  }

  function InGrace(cfg: Config, st: State, id: Id): State {
    if !Current(st, id) || st.cur.value.graceUntil.Some? then st else
    var end := st.now + cfg.grace;
    Rearm(st, st.cur.value.(graceUntil := Some(end)), end)
  }

  /** One step; an event that is not possible leaves the state as it is. */
  function Step(cfg: Config, st: State, e: Event): State {
    if !Enabled(st, e) then st else
    match e
    case Tick(d) => st.(now := st.now + d)
    case Fire(k) => st.(armed := st.armed - {k}, flying := st.flying[k := st.armed[k].lease])
    case Callback(k) =>
      var rest := st.(flying := st.flying - {k});
      if Current(st, st.flying[k]) then Reap(rest, Expired) else rest
    case Acquire(owner) => if Free(st) then Grant(cfg, Reap(st, Expired), owner) else st
    case Extend(id) => Extended(cfg, st, id)
    case Release(id) => if Current(st, id) then Reap(st, ClientReleased) else st
    case ForceRelease(r) => Reap(st, r)
    case BeginGrace(id) => InGrace(cfg, st, id)
    case TakeReason(id) => st.(chans := st.chans[id := st.chans[id].(taken := st.chans[id].taken + 1)])
  }

  /** The state after the events, from any state. */
  function RunFrom(cfg: Config, st: State, es: seq<Event>): State {
    if es == [] then st else Step(cfg, RunFrom(cfg, st, es[..|es| - 1]), es[|es| - 1])
  }

  function Run(cfg: Config, es: seq<Event>): State {
    RunFrom(cfg, INIT, es)
  }

  // ---------------------------------------------------------------- timers

  /** Whatever the lateness of callbacks: at most one timer is armed, it is the current lease's and
      stands at its governing deadline; a fired timer of the current lease is due unless the
      lease has a newer one. */
  ghost predicate TimersOk(st: State) {
    && (forall k | k in st.armed ::
          && st.cur.Some? && k == st.cur.value.timer
          && st.armed[k] == Timer(st.cur.value.id, Deadline(st.cur.value)))
    && (forall k | k in st.flying :: k < st.nextTimer && st.flying[k] < st.nextId)
    && (st.cur.Some? ==>
          var l := st.cur.value;
          && l.id < st.nextId && l.timer < st.nextTimer
          && (l.timer in st.flying ==> st.flying[l.timer] == l.id && Deadline(l) <= st.now)
          && (l.timer in st.armed || l.timer in st.flying))
  }

  lemma StepKeepsTimers(cfg: Config, st: State, e: Event)
    requires TimersOk(st)
    ensures TimersOk(Step(cfg, st, e))
  {
  }

  lemma {:induction false} TimersAlwaysOk(cfg: Config, es: seq<Event>)
    ensures TimersOk(Run(cfg, es))
    decreases |es|
  {
    if es != [] {
      TimersAlwaysOk(cfg, es[..|es| - 1]);
      StepKeepsTimers(cfg, Run(cfg, es[..|es| - 1]), es[|es| - 1]);
    }
  }

  /** The lease for which timer number k was armed: the current one right after that step. */
  function ArmedFor(cfg: Config, es: seq<Event>, k: TimerId): Option<Id> {
    if es == [] then None else
    var n := |es| - 1;
    var st, st' := Run(cfg, es[..n]), Run(cfg, es);
    if st.nextTimer <= k < st'.nextTimer && st'.cur.Some? then Some(st'.cur.value.id) else ArmedFor(cfg, es[..n], k)
  }

  lemma NewTimersAreCurrents(cfg: Config, st: State, e: Event, k: TimerId)
    requires TimersOk(st)
    ensures var st' := Step(cfg, st, e);
            if st.nextTimer <= k < st'.nextTimer
            then st'.cur.Some? && k !in st'.flying && (k in st'.armed ==> st'.armed[k].lease == st'.cur.value.id)
            else && (k in st'.armed ==> k in st.armed && st'.armed[k].lease == st.armed[k].lease)
                 && (k in st'.flying ==> || (k in st.flying && st'.flying[k] == st.flying[k])
                                         || (k in st.armed && st'.flying[k] == st.armed[k].lease))
  {
  }

  lemma {:induction false} TimersKeepTheirLease(cfg: Config, es: seq<Event>, k: TimerId)
    ensures var st := Run(cfg, es);
            && (k in st.armed ==> ArmedFor(cfg, es, k) == Some(st.armed[k].lease))
            && (k in st.flying ==> ArmedFor(cfg, es, k) == Some(st.flying[k]))
    decreases |es|
  {
    if es != [] {
      var n := |es| - 1;
      TimersKeepTheirLease(cfg, es[..n], k);
      TimersAlwaysOk(cfg, es[..n]);
      NewTimersAreCurrents(cfg, Run(cfg, es[..n]), es[n], k);
    }
  }

  /** A callback armed for one lease never ends another, however late it runs: it ends the lease for
      which its timer was armed if that is still the current one, and otherwise touches nothing. */
  lemma {:induction false} CallbackEndsOnlyItsOwn(cfg: Config, es: seq<Event>, k: TimerId)
    requires k in Run(cfg, es).flying
    ensures var st := Run(cfg, es);
            var st' := Step(cfg, st, Callback(k));
            && ArmedFor(cfg, es, k).Some?
            && if Current(st, ArmedFor(cfg, es, k).value) then st'.cur.None?
               else st'.cur == st.cur && st'.armed == st.armed && st'.chans == st.chans
  {
    TimersKeepTheirLease(cfg, es, k);
  }

  /** The current lease ends only by its release, by force, by a callback armed for it, or by an
      Acquire call at or after its governing deadline; a callback of its present timer, too, comes
      no sooner than that. */
  lemma {:induction false} EndsOnlyBy(cfg: Config, es: seq<Event>, e: Event)
    requires Run(cfg, es).cur.Some? && !Current(Step(cfg, Run(cfg, es), e), Run(cfg, es).cur.value.id)
    ensures var st := Run(cfg, es);
            var l := st.cur.value;
            || e == Release(l.id) || e.ForceRelease?
            || (e.Acquire? && Deadline(l) <= st.now)
            || (e.Callback? && ArmedFor(cfg, es, e.k) == Some(l.id) && (e.k == l.timer ==> Deadline(l) <= st.now))
  {
    TimersAlwaysOk(cfg, es);
    if e.Callback? {
      TimersKeepTheirLease(cfg, es, e.k);
    }
  }

  // ---------------------------------------------------------------- exclusion and end signal

  /** The leases follow one another in time, each in the order of its id; all but the current one
      have ended. */
  ghost predicate InOrder(st: State) {
    && |st.past| == st.nextId - (if st.cur.Some? then 1 else 0)
    && (forall i | 0 <= i < |st.past| ::
          st.past[i].id == i && st.past[i].start <= st.past[i].end <= st.now)
    && (forall i, j | 0 <= i < j < |st.past| :: st.past[i].end <= st.past[j].start)
    && (st.cur.Some? ==>
          var l := st.cur.value;
          l.id == |st.past| && l.since <= st.now && forall i | 0 <= i < |st.past| :: st.past[i].end <= l.since)
  }

  /** The current lease's channel is open and empty; every other one has carried exactly one
      reason and has been closed exactly once. */
  ghost predicate Signals(st: State) {
    && (forall id: Id :: id in st.chans <==> id < st.nextId)
    && (forall id | id in st.chans ::
          if Current(st, id) then st.chans[id] == Chan([], 0, 0)
          else |st.chans[id].sent| == 1 && st.chans[id].closes == 1 && st.chans[id].taken <= 1)
  }

  lemma ReapKeepsOrder(st: State, r: Reason)
    requires InOrder(st)
    ensures InOrder(Reap(st, r)) && Reap(st, r).nextId == st.nextId && Reap(st, r).cur.None?
  {
  }

  lemma ReapKeepsSignals(st: State, r: Reason)
    requires Signals(st)
    ensures Signals(Reap(st, r))
  {
  }

  lemma StepKeepsOrder(cfg: Config, st: State, e: Event)
    requires InOrder(st)
    ensures InOrder(Step(cfg, st, e))
  {
    ReapKeepsOrder(st, if e.ForceRelease? then e.reason else if e.Release? then ClientReleased else Expired);
  }

  lemma StepKeepsSignals(cfg: Config, st: State, e: Event)
    requires Signals(st) && TimersOk(st)
    ensures Signals(Step(cfg, st, e))
  {
    ReapKeepsSignals(st, if e.ForceRelease? then e.reason else if e.Release? then ClientReleased else Expired);
  }

  /** Over every run, in any order of calls, timers and late callbacks: the periods of distinct
      leases do not overlap, and each ends with one reason on its channel and one close. */
  lemma {:induction false} LeasesExclude(cfg: Config, es: seq<Event>)
    ensures InOrder(Run(cfg, es)) && Signals(Run(cfg, es))
    decreases |es|
  {
    if es != [] {
      var n := |es| - 1;
      LeasesExclude(cfg, es[..n]);
      TimersAlwaysOk(cfg, es[..n]);
      StepKeepsOrder(cfg, Run(cfg, es[..n]), es[n]);
      StepKeepsSignals(cfg, Run(cfg, es[..n]), es[n]);
    }
  }

  /** The reason that goes with the way in which a lease ends. */
  function ReasonFor(e: Event): Reason {
    match e
    case Release(_) => ClientReleased
    case ForceRelease(r) => r
    case _ => Expired
  }

  /** When a lease ends, its channel, until then open and empty, gets the reason and is closed. */
  lemma {:induction false} EndReason(cfg: Config, es: seq<Event>, e: Event)
    requires Run(cfg, es).cur.Some? && !Current(Run(cfg, es + [e]), Run(cfg, es).cur.value.id)
    ensures var id := Run(cfg, es).cur.value.id;
            && id in Run(cfg, es).chans && Run(cfg, es).chans[id] == Chan([], 0, 0)
            && id in Run(cfg, es + [e]).chans && Run(cfg, es + [e]).chans[id] == Chan([ReasonFor(e)], 0, 1)
    ensures var l, past := Run(cfg, es).cur.value, Run(cfg, es + [e]).past;
            past == Run(cfg, es).past + [Period(l.id, l.since, Run(cfg, es).now)]
  {
    LeasesExclude(cfg, es);
    TimersAlwaysOk(cfg, es);
    Unrolls(cfg, es, e);
  }

  /** Acquire succeeds exactly when there is no lease, or the current one has reached the end of its
      grace if it is in grace, and of its term if it is not. The new lease is the caller's, fresh and for
      a full ttl; otherwise nothing changes. */
  lemma {:induction false} AcquireIffFree(cfg: Config, es: seq<Event>, owner: string)
    ensures var st := Run(cfg, es);
            var st' := Step(cfg, st, Acquire(owner));
            var ended := st.cur.None?
              || (if st.cur.value.graceUntil.Some? then st.cur.value.graceUntil.value
                  else st.cur.value.expiresAt) <= st.now;
            && (Free(st) <==> ended)
            && (if ended
                then st'.cur == Some(Lease(st.nextId, owner, st.now, st.now + cfg.ttl, None, st.nextTimer))
                     && !Current(st, st.nextId)
                else st' == st)
  {
    TimersAlwaysOk(cfg, es);
  }

  /** IsHeldBy says yes to the id of the current lease, up to and with the last instant of its grace if it is
      in grace and of its term if it is not; so a lease that nobody can take over is held by its id alone. */
  lemma {:induction false} HeldExactly(cfg: Config, es: seq<Event>, id: Id)
    ensures var st := Run(cfg, es);
            && (HeldBy(st, id) <==>
                  && st.cur.Some? && st.cur.value.id == id
                  && st.now <= if st.cur.value.graceUntil.Some? then st.cur.value.graceUntil.value
                               else st.cur.value.expiresAt)
            && (st.cur.Some? && !Free(st) ==> (HeldBy(st, id) <==> id == st.cur.value.id))
  {
    AcquireIffFree(cfg, es, "");
  }

  /** A released lease is gone, and only its own id releases it. */
  lemma {:induction false} ReleaseEnds(cfg: Config, es: seq<Event>, id: Id, r: Reason)
    ensures var st := Run(cfg, es);
            var st' := Step(cfg, st, Release(id));
            if st.cur.Some? && st.cur.value.id == id then st'.cur.None? && st'.armed == map[] else st' == st
    ensures Step(cfg, Run(cfg, es), ForceRelease(r)).cur.None?
    ensures Run(cfg, es).cur.None? ==> Step(cfg, Run(cfg, es), ForceRelease(r)) == Run(cfg, es)
  {
    TimersAlwaysOk(cfg, es);
  }

  /** The first BeginGrace of the current lease gives it the full grace, counted from the call, and a timer
      for its end; for any other id, and in grace already, it does nothing. */
  lemma {:induction false} GraceGiven(cfg: Config, es: seq<Event>, id: Id)
    ensures var st := Run(cfg, es);
            var st' := Step(cfg, st, BeginGrace(id));
            if st.cur.Some? && st.cur.value.id == id && st.cur.value.graceUntil.None?
            then && st'.cur == Some(st.cur.value.(graceUntil := Some(st.now + cfg.grace), timer := st.nextTimer))
                 && Deadline(st'.cur.value) == st.now + cfg.grace
                 && st'.armed == map[st.nextTimer := Timer(id, st.now + cfg.grace)]
            else st' == st
  {
    TimersAlwaysOk(cfg, es);
  }

  /** An extension of the current lease gives it a full term from the call, out of any grace. */
  lemma {:induction false} ExtensionGiven(cfg: Config, es: seq<Event>, id: Id)
    ensures var st := Run(cfg, es);
            var st' := Step(cfg, st, Extend(id));
            if st.cur.Some? && st.cur.value.id == id
            then && st'.cur == Some(st.cur.value.(expiresAt := st.now + cfg.ttl, graceUntil := None,
                                                  timer := st.nextTimer))
                 && Deadline(st'.cur.value) == st.now + cfg.ttl
                 && st'.armed == map[st.nextTimer := Timer(id, st.now + cfg.ttl)]
            else st' == st
  {
    TimersAlwaysOk(cfg, es);
  }

  /** No step changes whose the current lease is, or since when. */
  lemma {:induction false} OwnerStays(cfg: Config, es: seq<Event>, e: Event)
    requires Run(cfg, es).cur.Some? && Current(Run(cfg, es + [e]), Run(cfg, es).cur.value.id)
    ensures var l, l' := Run(cfg, es).cur.value, Run(cfg, es + [e]).cur.value;
            l'.owner == l.owner && l'.since == l.since
  {
    TimersAlwaysOk(cfg, es);
    Unrolls(cfg, es, e);
  }

  /** The expiry of a due lease is always possible: its timer can fire, or has, and the callback ends it. */
  lemma {:induction false} DueLeaseCanExpire(cfg: Config, es: seq<Event>)
    requires Run(cfg, es).cur.Some? && Deadline(Run(cfg, es).cur.value) <= Run(cfg, es).now
    ensures var st := Run(cfg, es);
            var k := st.cur.value.timer;
            Step(cfg, Step(cfg, st, Fire(k)), Callback(k)).cur.None?
  {
    TimersAlwaysOk(cfg, es);
  }

  // ---------------------------------------------------------------- callbacks at their deadlines

  /** A timer fires at its deadline, and its callback gets the lock at once. */
  ghost predicate TimelyStep(st: State, e: Event) {
    match e
    case Tick(d) => st.flying == map[] && forall k | k in st.armed :: st.now + d <= st.armed[k].deadline
    case Fire(_) => true
    case Callback(_) => true
    case _ => st.flying == map[]
  }

  ghost predicate Timely(cfg: Config, es: seq<Event>) {
    forall i | 0 <= i < |es| :: TimelyStep(Run(cfg, es[..i]), es[i])
  }

  lemma TimelyPrefix(cfg: Config, es: seq<Event>)
    requires Timely(cfg, es) && es != []
    ensures Timely(cfg, es[..|es| - 1]) && TimelyStep(Run(cfg, es[..|es| - 1]), es[|es| - 1])
  {
    var n := |es| - 1;
    forall i | 0 <= i < n ensures TimelyStep(Run(cfg, es[..n][..i]), es[i]) {
      assert es[..n][..i] == es[..i];
    }
  }

  /** When the current lease was last acquired or extended. */
  function RenewedAt(cfg: Config, es: seq<Event>): Time {
    if es == [] then 0 else
    var n := |es| - 1;
    var st := Run(cfg, es[..n]);
    if Renews(st, es[n]) then st.now else RenewedAt(cfg, es[..n])
  }

  predicate Renews(st: State, e: Event) {
    match e
    case Acquire(_) => Free(st)
    case Extend(id) => Current(st, id)
    case _ => false
  }

  /** The current lease has not passed its deadline, which follows from the last renewal. */
  ghost predicate OnTime(cfg: Config, st: State, renewed: Time) {
    && (st.cur.Some? ==>
          var l := st.cur.value;
          && st.now <= Deadline(l) && l.expiresAt == renewed + cfg.ttl
          && Deadline(l) <= l.expiresAt + cfg.grace)
    && (forall k | k in st.flying :: st.cur.Some? && k == st.cur.value.timer)
  }

  lemma StepOnTime(cfg: Config, st: State, e: Event, renewed: Time)
    requires TimersOk(st) && OnTime(cfg, st, renewed) && TimelyStep(st, e)
    ensures OnTime(cfg, Step(cfg, st, e), if Renews(st, e) then st.now else renewed)
  {
  }

  /** With callbacks at their deadlines, a lease last acquired or extended at time t has ended by
      t + ttl + grace, whatever BeginGrace calls there were, and by t + ttl when there was none. */
  lemma {:induction false} LifetimeBound(cfg: Config, es: seq<Event>)
    requires Timely(cfg, es)
    ensures OnTime(cfg, Run(cfg, es), RenewedAt(cfg, es))
    ensures var st := Run(cfg, es);
            st.cur.Some? ==> st.now <= RenewedAt(cfg, es) + cfg.ttl +
                                       if st.cur.value.graceUntil.Some? then cfg.grace else 0
    decreases |es|
  {
    if es != [] {
      var n := |es| - 1;
      TimelyPrefix(cfg, es);
      LifetimeBound(cfg, es[..n]);
      TimersAlwaysOk(cfg, es[..n]);
      StepOnTime(cfg, Run(cfg, es[..n]), es[n], RenewedAt(cfg, es[..n]));
    }
  }

  /** And unless it is released it ends at its governing deadline, not before. */
  lemma {:induction false} EndsAtDeadline(cfg: Config, es: seq<Event>, e: Event)
    requires Timely(cfg, es) && TimelyStep(Run(cfg, es), e) && Run(cfg, es).cur.Some?
    requires !Current(Step(cfg, Run(cfg, es), e), Run(cfg, es).cur.value.id)
    ensures var st := Run(cfg, es);
            e == Release(st.cur.value.id) || e.ForceRelease? || st.now == Deadline(st.cur.value)
  {
    LifetimeBound(cfg, es);
    TimersAlwaysOk(cfg, es);
    EndsOnlyBy(cfg, es, e);
  }

  /** Repeated BeginGrace calls change nothing. */
  lemma GraceOnce(cfg: Config, st: State, id: Id)
    requires TimersOk(st)
    ensures Step(cfg, Step(cfg, st, BeginGrace(id)), BeginGrace(id)) == Step(cfg, st, BeginGrace(id))
  {
  }

  // ---------------------------------------------------------------- late callbacks

  /** No call of a client: only time, timers, callbacks and readers of release channels. */
  predicate Unattended(es: seq<Event>) {
    forall i | 0 <= i < |es| :: es[i].Tick? || es[i].Fire? || es[i].Callback? || es[i].TakeReason?
  }

  /** No callback armed for the lease is waiting for the lock. */
  predicate NoneWaiting(st: State, id: Id) {
    forall k | k in st.flying :: st.flying[k] != id
  }

  lemma {:induction false} StandsUntilDeadline(cfg: Config, st: State, es: seq<Event>)
    requires TimersOk(st) && st.cur.Some? && NoneWaiting(st, st.cur.value.id) && Unattended(es)
    requires RunFrom(cfg, st, es).now < Deadline(st.cur.value)
    ensures var st' := RunFrom(cfg, st, es);
            TimersOk(st') && st'.cur == st.cur && NoneWaiting(st', st.cur.value.id)
    decreases |es|
  {
    if es != [] {
      var n := |es| - 1;
      var mid := RunFrom(cfg, st, es[..n]);
      assert mid.now <= RunFrom(cfg, st, es).now;
      StandsUntilDeadline(cfg, st, es[..n]);
      StepKeepsTimers(cfg, mid, es[n]);
    }
  }

  /** A lease that was just extended stands for a full ttl, unless clients end it, exactly when no
      callback armed for it was waiting for the lock at that moment. */
  lemma {:induction false} ExtensionHoldsIff(cfg: Config, es: seq<Event>, id: Id)
    requires cfg.ttl > 0 && Current(Run(cfg, es), id)
    ensures var st := Run(cfg, es);
            var st' := Step(cfg, st, Extend(id));
            NoneWaiting(st, id) <==>
              forall more: seq<Event> | Unattended(more) && RunFrom(cfg, st', more).now < st.now + cfg.ttl ::
                RunFrom(cfg, st', more).cur == st'.cur
  {
    var st := Run(cfg, es);
    var st' := Step(cfg, st, Extend(id));
    TimersAlwaysOk(cfg, es);
    StepKeepsTimers(cfg, st, Extend(id));
    if NoneWaiting(st, id) {
      forall more: seq<Event> | Unattended(more) && RunFrom(cfg, st', more).now < st.now + cfg.ttl
        ensures RunFrom(cfg, st', more).cur == st'.cur
      {
        StandsUntilDeadline(cfg, st', more);
      }
    } else {
      var k :| k in st.flying && st.flying[k] == id;
      var more := [Callback(k)];
      assert more[..0] == [];
      assert RunFrom(cfg, st', more) == Step(cfg, st', Callback(k));
      assert Unattended(more) && RunFrom(cfg, st', more).cur != st'.cur;
    }
  }

  /** Such a callback is possible: the lease expires while the extension is on its way. */
  lemma ExtensionLost(cfg: Config, owner: string)
    requires cfg.ttl > 0
    ensures var es := [Acquire(owner), Tick(cfg.ttl), Fire(0), Extend(0)];
            && Current(Run(cfg, es), 0) && Run(cfg, es).now < Deadline(Run(cfg, es).cur.value)
            && Run(cfg, es + [Callback(0)]).cur.None?
  {
    var es := [Acquire(owner), Tick(cfg.ttl), Fire(0), Extend(0)];
    var st2 := Step(cfg, Step(cfg, INIT, Acquire(owner)), Tick(cfg.ttl));
    RunOfTwo(cfg, Acquire(owner), Tick(cfg.ttl));
    Unrolls(cfg, es[..2], Fire(0));
    Unrolls(cfg, es[..3], Extend(0));
    Unrolls(cfg, es, Callback(0));
    assert es[..2] == [Acquire(owner), Tick(cfg.ttl)] && es[..2] + [Fire(0)] == es[..3] && es[..3] + [Extend(0)] == es;
    assert st2.armed == map[0 := Timer(0, cfg.ttl)];
    assert Step(cfg, st2, Fire(0)).flying == map[0 := 0];
  }

  lemma RunOfTwo(cfg: Config, e1: Event, e2: Event)
    ensures Run(cfg, [e1, e2]) == Step(cfg, Step(cfg, INIT, e1), e2)
  {
    Unrolls(cfg, [], e1);
    Unrolls(cfg, [e1], e2);
    assert [] + [e1] == [e1] && [e1] + [e2] == [e1, e2];
  }

  lemma Unrolls(cfg: Config, es: seq<Event>, e: Event)
    ensures Run(cfg, es + [e]) == Step(cfg, Run(cfg, es), e)
  {
  }

  /** At the instant of the deadline, and only then, the lease is reported as held while an Acquire
      call would succeed; that instant is reached. */
  lemma {:induction false} BoundaryInstant(cfg: Config, es: seq<Event>, id: Id, owner: string)
    ensures var st := Run(cfg, es);
            HeldBy(st, id) && Free(st) <==> Current(st, id) && st.now == Deadline(st.cur.value)
    ensures var st := Run(cfg, [Acquire(owner), Tick(cfg.ttl)]);
            HeldBy(st, 0) && Free(st)
  {
    RunOfTwo(cfg, Acquire(owner), Tick(cfg.ttl));
  }
}
