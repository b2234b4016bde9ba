/**
 What a viewer of the hub gets, over whole runs: the preload that its Subscribe call found, then
 the frames fanned out since its registration, in order and without repetition, but for those
 that were dropped because its channel was full.
 */
module HubDelivery {
  import opened Wrappers
  import opened Frames
  import opened Fanout
  import opened Hub

  // ---------------------------------------------------------------- frames through the hub

  /** The frames that Publish put into the queue. */
  function AcceptedStep(st: State, e: Event, fs: seq<Frame>): seq<Frame> {
    if e.Publish? && e.f.Some? && |st.inq| < IN_CAPACITY then fs + [e.f.value] else fs
  }

  function Accepted(cfg: Config, es: seq<Event>): seq<Frame> {
    if es == [] then [] else
    var n := |es| - 1;
    AcceptedStep(Run(cfg, es[..n]), es[n], Accepted(cfg, es[..n]))
  }

  /** The frames that the producer published, in order. */
  function PublishedFrames(es: seq<Event>): seq<Frame> {
    if es == [] then [] else
    var e := es[|es| - 1];
    PublishedFrames(es[..|es| - 1]) + if e.Publish? && e.f.Some? then [e.f.value] else []
  }

  /** The positions among them of those that found room in the queue. */
  function AcceptedAt(cfg: Config, es: seq<Event>): seq<nat> {
    if es == [] then [] else
    var n := |es| - 1;
    AcceptedAt(cfg, es[..n])
    + if es[n].Publish? && es[n].f.Some? && |Run(cfg, es[..n]).inq| < IN_CAPACITY
      then [|PublishedFrames(es[..n])|] else []
  }

  lemma PickMore(fs: seq<Frame>, more: seq<Frame>, at: seq<nat>, room: bool)
    requires Within(at, 0, |fs|) && |more| <= 1 && (room ==> |more| == 1)
    ensures var at' := at + if room then [|fs|] else [];
            && Within(at', 0, |fs + more|)
            && Pick(fs + more, at') == Pick(fs, at) + if room then more else []
  {
    if more != [] {
      PickGrows(fs, more[0], at);
      assert more == [more[0]];
      if room {
        PickSnoc(fs + more, at, |fs|);
      }
    } else {
      assert fs + more == fs;
    }
  }

  /** The queue takes the published frames in order; what it does not take is lost before the hub. */
  lemma {:induction false} AcceptedArePublished(cfg: Config, es: seq<Event>)
    ensures Within(AcceptedAt(cfg, es), 0, |PublishedFrames(es)|)
    ensures Accepted(cfg, es) == Pick(PublishedFrames(es), AcceptedAt(cfg, es))
    decreases |es|
  {
    if es != [] {
      var n := |es| - 1;
      var e := es[n];
      AcceptedArePublished(cfg, es[..n]);
      PickMore(PublishedFrames(es[..n]), if e.Publish? && e.f.Some? then [e.f.value] else [], AcceptedAt(cfg, es[..n]),
               e.Publish? && e.f.Some? && |Run(cfg, es[..n]).inq| < IN_CAPACITY);
    }
  }

  /** The frames for which the hub has taken its snapshot of the viewers. */
  function FannedStep(st: State, e: Event, fs: seq<Frame>): seq<Frame> {
    if e.Snapshot? && st.pc.Snapping? then fs + [st.pc.frame] else fs
  }

  function Fanned(cfg: Config, es: seq<Event>): seq<Frame> {
    if es == [] then [] else
    var n := |es| - 1;
    FannedStep(Run(cfg, es[..n]), es[n], Fanned(cfg, es[..n]))
  }

  function InHand(pc: Pc): seq<Frame> {
    if pc.Storing? || pc.StoringKey? || pc.Snapping? then [pc.frame] else []
  }

  /** The queue without the nil frames, which the hub skips. */
  function Queued(q: seq<Option<Frame>>): seq<Frame> {
    if q == [] then [] else (if q[0].Some? then [q[0].value] else []) + Queued(q[1..])
  }

  lemma {:induction false} QueuedSnoc(q: seq<Option<Frame>>, f: Option<Frame>)
    ensures Queued(q + [f]) == Queued(q) + if f.Some? then [f.value] else []
    decreases |q|
  {
    if q != [] {
      assert (q + [f])[1..] == q[1..] + [f];
      QueuedSnoc(q[1..], f);
    } else {
      assert q + [f] == [f] && [f][1..] == [];
    }
  }

  /** The accepted frames are those fanned out, the one in hand and the queue; the frame that is
      being offered is the last one fanned out. */
  ghost predicate Flows(st: State, accepted: seq<Frame>, fanned: seq<Frame>) {
    && accepted == fanned + (InHand(st.pc) + Queued(st.inq))
    && (st.pc.Sending? ==> fanned != [] && fanned[|fanned| - 1] == st.pc.frame)
  }

  lemma DequeueFlows(cfg: Config, st: State, accepted: seq<Frame>, fanned: seq<Frame>)
    requires Flows(st, accepted, fanned) && Enabled(cfg, st, Dequeue)
    ensures Flows(Step(cfg, st, Dequeue), accepted, fanned)
  {
  }

  lemma PublishFlows(cfg: Config, st: State, f: Option<Frame>, accepted: seq<Frame>, fanned: seq<Frame>)
    requires Flows(st, accepted, fanned)
    ensures Flows(Step(cfg, st, Publish(f)), AcceptedStep(st, Publish(f), accepted), fanned)
  {
    if |st.inq| < IN_CAPACITY {
      QueuedSnoc(st.inq, f);
      var more := if f.Some? then [f.value] else [];
      var rest := InHand(st.pc) + Queued(st.inq);
      assert InHand(st.pc) + (Queued(st.inq) + more) == rest + more;
      assert fanned + (rest + more) == fanned + rest + more;
      assert AcceptedStep(st, Publish(f), accepted) == accepted + more;
    }
  }

  lemma SnapshotFlows(cfg: Config, st: State, accepted: seq<Frame>, fanned: seq<Frame>)
    requires Flows(st, accepted, fanned) && Enabled(cfg, st, Snapshot)
    ensures Flows(Step(cfg, st, Snapshot), accepted, fanned + [st.pc.frame])
  {
  }

  lemma StepFlows(cfg: Config, st: State, e: Event, accepted: seq<Frame>, fanned: seq<Frame>)
    requires Flows(st, accepted, fanned)
    ensures Flows(Step(cfg, st, e), AcceptedStep(st, e, accepted), FannedStep(st, e, fanned))
  {
    if !Enabled(cfg, st, e) {
    } else {
      match e
      case Publish(f) => PublishFlows(cfg, st, f, accepted, fanned);
      case Dequeue => DequeueFlows(cfg, st, accepted, fanned);
      case Snapshot => SnapshotFlows(cfg, st, accepted, fanned);
      case _ =>
    }
  }

  /** No frame is lost, repeated or overtaken inside the hub: the accepted frames are those
      fanned out, then the one in hand, then the queue. */
  lemma {:induction false} HubConserves(cfg: Config, es: seq<Event>)
    ensures Flows(Run(cfg, es), Accepted(cfg, es), Fanned(cfg, es))
    decreases |es|
  {
    if es != [] {
      var n := |es| - 1;
      HubConserves(cfg, es[..n]);
      StepFlows(cfg, Run(cfg, es[..n]), es[n], Accepted(cfg, es[..n]), Fanned(cfg, es[..n]));
    }
  }

  /** What the hub has in hand, in its queue and in its caches was published, and what a cache
      holds carries the cache's flag; the metadata is what was last set. */
  ghost predicate Sourced(st: State, es: seq<Event>) {
    && (st.meta.Some? ==> SetMeta(st.meta.value) in es)
    && (forall f | f in st.inq :: Publish(f) in es)
    && (!st.pc.Idle? && !st.pc.Exited? ==> Publish(Some(st.pc.frame)) in es)
    && (st.config.Some? ==> st.config.value.configPacket && Publish(st.config) in es)
    && (st.key.Some? ==> st.key.value.keyFrame && Publish(st.key) in es)
  }

  lemma {:induction false} CachesAreSourced(cfg: Config, es: seq<Event>)
    ensures Sourced(Run(cfg, es), es)
    decreases |es|
  {
    if es != [] {
      var n := |es| - 1;
      CachesAreSourced(cfg, es[..n]);
      SourcedGrows(cfg, Run(cfg, es[..n]), es[..n], es[n]);
      assert es == es[..n] + [es[n]];
    }
  }

  /** The newest of the frames with the flag. */
  function Newest(fs: seq<Frame>, asConfig: bool): Option<Frame> {
    if fs == [] then None else
    var f := fs[|fs| - 1];
    if if asConfig then f.configPacket else f.keyFrame then Some(f) else Newest(fs[..|fs| - 1], asConfig)
  }

  lemma NewestOfMore(fs: seq<Frame>, f: Frame, asConfig: bool)
    ensures Newest(fs + [f], asConfig) ==
            if if asConfig then f.configPacket else f.keyFrame then Some(f) else Newest(fs, asConfig)
  {
    assert (fs + [f])[..|fs|] == fs;
  }

  /** The frames that a cache has seen: those fanned out, and the one in hand after its store. */
  function Seen(fs: seq<Frame>, pc: Pc, asConfig: bool): seq<Frame> {
    if pc.Snapping? || (asConfig && pc.StoringKey?) then fs + [pc.frame] else fs
  }

  /** The metadata last set. */
  function LastMeta(es: seq<Event>): Option<Msg> {
    if es == [] then None else
    var e := es[|es| - 1];
    if e.SetMeta? then Some(e.m) else LastMeta(es[..|es| - 1])
  }

  ghost predicate UpToDate(st: State, fs: seq<Frame>) {
    && st.config == Newest(Seen(fs, st.pc, true), true)
    && st.key == Newest(Seen(fs, st.pc, false), false)
  }

  /** One frame more, and a cache that takes it if it has the flag. */
  lemma StoredNewest(fs: seq<Frame>, f: Frame, asConfig: bool, before: Option<Frame>, after: Option<Frame>)
    requires before == Newest(fs, asConfig)
    requires after == if if asConfig then f.configPacket else f.keyFrame then Some(f) else before
    ensures after == Newest(fs + [f], asConfig)
  {
    NewestOfMore(fs, f, asConfig);
  }

  lemma UpToDateFrom(st: State, fs: seq<Frame>, seen: seq<Frame>, seenKey: seq<Frame>)
    requires seen == Seen(fs, st.pc, true) && seenKey == Seen(fs, st.pc, false)
    requires st.config == Newest(seen, true) && st.key == Newest(seenKey, false)
    ensures UpToDate(st, fs)
  {
  }

  lemma StoreConfigKeepsUpToDate(cfg: Config, st: State, fs: seq<Frame>)
    requires UpToDate(st, fs) && st.pc.Storing?
    ensures UpToDate(Step(cfg, st, StoreConfig), fs)
  {
    var st', f := Step(cfg, st, StoreConfig), st.pc.frame;
    StoredNewest(fs, f, true, st.config, st'.config);
    UpToDateFrom(st', fs, fs + [f], fs);
  }

  lemma StoreKeyKeepsUpToDate(cfg: Config, st: State, fs: seq<Frame>)
    requires UpToDate(st, fs) && st.pc.StoringKey?
    ensures UpToDate(Step(cfg, st, StoreKey), fs)
  {
    var st', f := Step(cfg, st, StoreKey), st.pc.frame;
    StoredNewest(fs, f, false, st.key, st'.key);
    UpToDateFrom(st', fs, fs + [f], fs + [f]);
  }

  lemma SnapshotKeepsUpToDate(cfg: Config, st: State, fs: seq<Frame>)
    requires UpToDate(st, fs) && st.pc.Snapping?
    ensures UpToDate(Step(cfg, st, Snapshot), fs + [st.pc.frame])
  {
  }

  lemma StillUpToDate(cfg: Config, st: State, e: Event, fs: seq<Frame>)
    requires UpToDate(st, fs) && !e.StoreConfig? && !e.StoreKey? && !e.Snapshot?
    ensures UpToDate(Step(cfg, st, e), fs)
  {
    var st' := Step(cfg, st, e);
    assert st'.config == st.config && st'.key == st.key;
    assert Seen(fs, st'.pc, true) == Seen(fs, st.pc, true) && Seen(fs, st'.pc, false) == Seen(fs, st.pc, false);
  }

  lemma StepKeepsUpToDate(cfg: Config, st: State, e: Event, fs: seq<Frame>)
    requires UpToDate(st, fs)
    ensures UpToDate(Step(cfg, st, e), FannedStep(st, e, fs))
  {
    match e
    case StoreConfig => if st.pc.Storing? { StoreConfigKeepsUpToDate(cfg, st, fs); }
    case StoreKey => if st.pc.StoringKey? { StoreKeyKeepsUpToDate(cfg, st, fs); }
    case Snapshot => if st.pc.Snapping? { SnapshotKeepsUpToDate(cfg, st, fs); }
    case _ => StillUpToDate(cfg, st, e, fs);
  }

  lemma {:induction false} MetaIsLast(cfg: Config, es: seq<Event>)
    ensures Run(cfg, es).meta == LastMeta(es)
    decreases |es|
  {
    if es != [] {
      MetaIsLast(cfg, es[..|es| - 1]);
    }
  }

  /** The caches are up to date: the newest configuration packet and the newest key frame that the
      hub has come to. */
  lemma {:induction false} CachesAreLatest(cfg: Config, es: seq<Event>)
    ensures UpToDate(Run(cfg, es), Fanned(cfg, es))
    decreases |es|
  {
    if es != [] {
      var n := |es| - 1;
      CachesAreLatest(cfg, es[..n]);
      StepKeepsUpToDate(cfg, Run(cfg, es[..n]), es[n], Fanned(cfg, es[..n]));
    }
  }

  lemma SourcedGrows(cfg: Config, st: State, es: seq<Event>, e: Event)
    requires Sourced(st, es)
    ensures Sourced(Step(cfg, st, e), es + [e])
  {
    assert Sourced(st, es + [e]) by {
      assert forall x | x in es :: x in es + [e];
    }
    StepSourced(cfg, st, es + [e], e);
  }

  lemma StepSourced(cfg: Config, st: State, es: seq<Event>, e: Event)
    requires Sourced(st, es) && e in es
    ensures Sourced(Step(cfg, st, e), es)
  {
  }

  // ---------------------------------------------------------------- one viewer's trail

  /** What happened to one viewer: what its Subscribe call loaded, how many frames had been fanned
      out when it registered, up to where it was in every snapshot, which of those went into its
      channel, how many were dropped, what its reader received, and whether it unsubscribed or
      was displaced by a viewer with its id. */
  datatype Trail = Trail(meta: Option<Msg>, config: Option<Msg>, key: Option<Msg>,
    since: nat, upto: nat, kept: seq<nat>, lost: nat, taken: seq<Msg>, left: bool)

  const NO_TRAIL := Trail(None, None, None, 0, 0, [], 0, [], false)

  function Preload(t: Trail): seq<Msg> {
    Opt(t.meta) + Opt(t.config) + Opt(t.key)
  }

  function Opt(m: Option<Msg>): seq<Msg> {
    if m.None? then [] else [m.value]
  }

  /** Both viewers go by the same id. */
  predicate SameId(st: State, h: Handle, h': Handle)
    requires h in st.pool && h' in st.pool
  {
    st.pool[h].sub.id == st.pool[h'].sub.id
  }

  function TrailStep(cfg: Config, st: State, n: nat, e: Event, h: Handle, t: Trail): Trail {
    if !Enabled(cfg, st, e) then t else
    match e
    case Begin(h', _) => if h' == h then NO_TRAIL else t
    case LoadMeta(h') => if h' == h then t.(meta := Cached(st, e)) else t
    case LoadConfig(h') => if h' == h then t.(config := Cached(st, e)) else t
    case LoadKey(h') => if h' == h then t.(key := Cached(st, e)) else t
    case Register(h') =>
      if h' == h then t.(since := n, upto := n)
      else if Registered(st, h) && SameId(st, h, h') then t.(left := true) else t
    case Unsubscribe(h') => if h' == h then t.(left := true) else t
    case Receive(h') => if h' == h then t.(taken := t.taken + [st.pool[h].sub.buf[0]]) else t
    case Snapshot => if Registered(st, h) then t.(upto := n + 1) else t
    case OfferNext(h') =>
      if h' != h || n == 0 then t
      else if |st.pool[h].sub.buf| < cfg.bufFrames then t.(kept := t.kept + [n - 1])
      else t.(lost := t.lost + 1)
    case _ => t
  }

  function TrailOf(cfg: Config, es: seq<Event>, h: Handle): Trail {
    if es == [] then NO_TRAIL else
    var n := |es| - 1;
    TrailStep(cfg, Run(cfg, es[..n]), |Fanned(cfg, es[..n])|, es[n], h, TrailOf(cfg, es[..n], h))
  }

  /** The hub has the current frame still to offer to the viewer. */
  predicate Pending(st: State, h: Handle) {
    st.pc.Sending? && h in st.pc.todo
  }

  function Due(st: State, h: Handle): nat {
    if Pending(st, h) then 1 else 0
  }

  // ---------------------------------------------------------------- bookkeeping

  /** The trail accounts for every frame from since to upto: kept, lost or still to be offered. */
  ghost predicate Counts(st: State, n: nat, h: Handle, t: Trail) {
    && h in st.pool
    && t.since <= t.upto <= n
    && |t.kept| + t.lost + Due(st, h) == t.upto - t.since
    && Within(t.kept, t.since, t.upto - Due(st, h))
    && (Pending(st, h) || Registered(st, h) ==> t.upto == n)
    && st.pool[h].sub.drops <= t.lost
  }

  /** Without losses and departure, a viewer is registered until the hub exits. */
  ghost predicate Stays(st: State, n: nat, h: Handle, t: Trail)
    requires h in st.pool
  {
    st.pool[h].stage.Done? && !t.left && t.lost == 0 ==> t.upto == n && (Registered(st, h) || st.pc.Exited?)
  }

  /** A Subscribe call that is still under way has loaded no more than its stage says. */
  ghost predicate Loading(st: State, h: Handle, t: Trail)
    requires h in st.pool
  {
    var stage := st.pool[h].stage;
    && (stage.AtMeta? ==> t.meta.None?)
    && (stage.AtMeta? || stage.AtConfig? ==> t.config.None?)
    && (stage.AtMeta? || stage.AtConfig? || stage.AtKey? ==> t.key.None?)
    && (!stage.Done? ==> t.kept == [] && t.lost == 0 && t.taken == [] && !t.left)
  }

  /** How many of the frames up to end were lost since the last one kept. */
  function LostInARow(t: Trail, end: int): int {
    end - if t.kept == [] then t.since else t.kept[|t.kept| - 1] + 1
  }

  /** The viewer's drop count is the number of frames lost in a row, and has not reached the limit
      unless the viewer was cut off. */
  ghost predicate DropsExact(cfg: Config, st: State, h: Handle, t: Trail)
    requires h in st.pool
  {
    && st.pool[h].sub.drops == LostInARow(t, t.upto - Due(st, h))
    && (cfg.maxDrops > 0 && !st.pool[h].sub.evicted ==> st.pool[h].sub.drops < cfg.maxDrops)
  }

  lemma OfferDropsExact(cfg: Config, st: State, n: nat, h': Handle, h: Handle, t: Trail)
    requires Wired(st) && Counts(st, n, h, t) && DropsExact(cfg, st, h, t) && (st.pc.Sending? ==> n > 0)
    ensures DropsExact(cfg, Step(cfg, st, OfferNext(h')), h, TrailStep(cfg, st, n, OfferNext(h'), h, t))
  {
  }

  lemma SnapshotDropsExact(cfg: Config, st: State, n: nat, h: Handle, t: Trail)
    requires Wired(st) && Counts(st, n, h, t) && DropsExact(cfg, st, h, t) && st.pc.Snapping?
    ensures DropsExact(cfg, Step(cfg, st, Snapshot), h, TrailStep(cfg, st, n, Snapshot, h, t))
  {
    InTheMap(st, h);
  }

  lemma RegisterDropsExact(cfg: Config, st: State, n: nat, h': Handle, h: Handle, t: Trail)
    requires Wired(st) && Counts(st, n, h, t) && Loading(st, h, t) && DropsExact(cfg, st, h, t)
    ensures DropsExact(cfg, Step(cfg, st, Register(h')), h, TrailStep(cfg, st, n, Register(h'), h, t))
  {
    var st' := Step(cfg, st, Register(h'));
    assert Pending(st', h) == Pending(st, h);
  }

  /** What the other steps leave alone. */
  lemma OthersLeave(cfg: Config, st: State, n: nat, e: Event, h: Handle, t: Trail)
    requires Wired(st) && h in st.pool && !e.OfferNext? && !e.Snapshot? && !e.Register?
    ensures var st', t' := Step(cfg, st, e), TrailStep(cfg, st, n, e, h, t);
            && h in st'.pool && st'.pool[h].sub.drops == st.pool[h].sub.drops
            && (st.pool[h].sub.evicted ==> st'.pool[h].sub.evicted)
            && Pending(st', h) == Pending(st, h) && (Registered(st', h) ==> Registered(st, h))
            && t'.kept == t.kept && t'.since == t.since && t'.upto == t.upto && t'.lost == t.lost
  {
  }

  lemma OthersDropsExact(cfg: Config, st: State, n: nat, e: Event, h: Handle, t: Trail)
    requires Wired(st) && h in st.pool && DropsExact(cfg, st, h, t)
    requires !e.OfferNext? && !e.Snapshot? && !e.Register?
    ensures h in Step(cfg, st, e).pool && DropsExact(cfg, Step(cfg, st, e), h, TrailStep(cfg, st, n, e, h, t))
  {
    OthersLeave(cfg, st, n, e, h, t);
  }

  lemma StepDropsExact(cfg: Config, st: State, n: nat, e: Event, h: Handle, t: Trail)
    requires Wired(st) && Counts(st, n, h, t) && Loading(st, h, t) && DropsExact(cfg, st, h, t)
    requires st.pc.Sending? ==> n > 0
    ensures h in Step(cfg, st, e).pool && DropsExact(cfg, Step(cfg, st, e), h, TrailStep(cfg, st, n, e, h, t))
  {
    match e
    case OfferNext(h') => OfferDropsExact(cfg, st, n, h', h, t);
    case Register(h') => RegisterDropsExact(cfg, st, n, h', h, t);
    case Snapshot => if st.pc.Snapping? { SnapshotDropsExact(cfg, st, n, h, t); }
    case _ => OthersDropsExact(cfg, st, n, e, h, t);
  }

  lemma BeginDropsExact(cfg: Config, st: State, n: nat, e: Event, h: Handle, t: Trail)
    requires Wired(st) && h !in st.pool && h in Step(cfg, st, e).pool
    ensures DropsExact(cfg, Step(cfg, st, e), h, TrailStep(cfg, st, n, e, h, t))
  {
    assert e.Begin? && e.h == h && TrailStep(cfg, st, n, e, h, t) == NO_TRAIL;
    assert !Pending(Step(cfg, st, e), h);
  }

  lemma OfferCounts(cfg: Config, st: State, n: nat, h': Handle, h: Handle, t: Trail)
    requires Wired(st) && Counts(st, n, h, t) && (st.pc.Sending? ==> n > 0)
    ensures Counts(Step(cfg, st, OfferNext(h')), n, h, TrailStep(cfg, st, n, OfferNext(h'), h, t))
  {
  }

  lemma SnapshotCounts(cfg: Config, st: State, n: nat, h: Handle, t: Trail)
    requires Wired(st) && Counts(st, n, h, t) && st.pc.Snapping?
    ensures Counts(Step(cfg, st, Snapshot), n + 1, h, TrailStep(cfg, st, n, Snapshot, h, t))
  {
  }

  lemma RegisterCounts(cfg: Config, st: State, n: nat, h': Handle, h: Handle, t: Trail)
    requires Wired(st) && Counts(st, n, h, t) && Loading(st, h, t)
    ensures Counts(Step(cfg, st, Register(h')), n, h, TrailStep(cfg, st, n, Register(h'), h, t))
  {
    var e := Register(h');
    var st', t' := Step(cfg, st, e), TrailStep(cfg, st, n, e, h, t);
    assert Pending(st', h) == Pending(st, h);
    if h' == h && Enabled(cfg, st, e) {
      assert !Pending(st, h);
    } else {
      assert Registered(st', h) ==> Registered(st, h);
    }
  }

  lemma OthersCount(cfg: Config, st: State, n: nat, e: Event, h: Handle, t: Trail)
    requires Wired(st) && Counts(st, n, h, t) && !e.Snapshot? && !e.OfferNext? && !e.Register?
    ensures Counts(Step(cfg, st, e), n, h, TrailStep(cfg, st, n, e, h, t))
  {
    OthersLeave(cfg, st, n, e, h, t);
  }

  lemma StepCounts(cfg: Config, st: State, n: nat, e: Event, h: Handle, t: Trail)
    requires Wired(st) && Counts(st, n, h, t) && Loading(st, h, t) && (st.pc.Sending? ==> n > 0)
    ensures Counts(Step(cfg, st, e), if e.Snapshot? && st.pc.Snapping? then n + 1 else n, h,
                   TrailStep(cfg, st, n, e, h, t))
  {
    match e
    case Snapshot => if st.pc.Snapping? { SnapshotCounts(cfg, st, n, h, t); }
    case OfferNext(h') => OfferCounts(cfg, st, n, h', h, t);
    case Register(h') => RegisterCounts(cfg, st, n, h', h, t);
    case _ => OthersCount(cfg, st, n, e, h, t);
  }

  lemma RegisterStays(cfg: Config, st: State, n: nat, h': Handle, h: Handle, t: Trail)
    requires Wired(st) && h in st.pool && Stays(st, n, h, t) && Counts(st, n, h, t) && Loading(st, h, t)
    ensures Stays(Step(cfg, st, Register(h')), n, h, TrailStep(cfg, st, n, Register(h'), h, t))
  {
  }

  lemma OfferStays(cfg: Config, st: State, n: nat, h': Handle, h: Handle, t: Trail)
    requires Wired(st) && h in st.pool && Stays(st, n, h, t) && (st.pc.Sending? ==> n > 0)
    ensures Stays(Step(cfg, st, OfferNext(h')), n, h, TrailStep(cfg, st, n, OfferNext(h'), h, t))
  {
  }

  lemma SnapshotStays(cfg: Config, st: State, n: nat, h: Handle, t: Trail)
    requires Wired(st) && h in st.pool && Stays(st, n, h, t) && st.pc.Snapping?
    ensures Stays(Step(cfg, st, Snapshot), n + 1, h, TrailStep(cfg, st, n, Snapshot, h, t))
  {
  }

  lemma OthersStay(cfg: Config, st: State, n: nat, e: Event, h: Handle, t: Trail)
    requires Wired(st) && h in st.pool && Stays(st, n, h, t)
    requires !e.Register? && !e.OfferNext? && !e.Snapshot?
    ensures h in Step(cfg, st, e).pool && Stays(Step(cfg, st, e), n, h, TrailStep(cfg, st, n, e, h, t))
  {
    var st' := Step(cfg, st, e);
    assert !e.Cancel? && e != Unsubscribe(h) && Registered(st, h) ==> Registered(st', h);
    assert st.pc.Exited? ==> st'.pc.Exited?;
  }

  lemma StepStays(cfg: Config, st: State, n: nat, e: Event, h: Handle, t: Trail)
    requires Wired(st) && h in st.pool && Stays(st, n, h, t) && Counts(st, n, h, t) && Loading(st, h, t)
    requires st.pc.Sending? ==> n > 0
    ensures var n' := if e.Snapshot? && st.pc.Snapping? then n + 1 else n;
            h in Step(cfg, st, e).pool && Stays(Step(cfg, st, e), n', h, TrailStep(cfg, st, n, e, h, t))
  {
    match e
    case Register(h') => RegisterStays(cfg, st, n, h', h, t);
    case OfferNext(h') => OfferStays(cfg, st, n, h', h, t);
    case Snapshot => if st.pc.Snapping? { SnapshotStays(cfg, st, n, h, t); }
    case _ => OthersStay(cfg, st, n, e, h, t);
  }

  /** Steps of the viewer's own Subscribe call. */
  predicate Subscribes(e: Event, h: Handle) {
    e == LoadMeta(h) || e == LoadConfig(h) || e == LoadKey(h) || e == Register(h)
  }

  lemma OwnLoads(cfg: Config, st: State, n: nat, e: Event, h: Handle, t: Trail)
    requires h in st.pool && Loading(st, h, t) && Subscribes(e, h)
    ensures h in Step(cfg, st, e).pool && Loading(Step(cfg, st, e), h, TrailStep(cfg, st, n, e, h, t))
  {
  }

  lemma OthersLoad(cfg: Config, st: State, n: nat, e: Event, h: Handle, t: Trail)
    requires Wired(st) && h in st.pool && Loading(st, h, t) && !Subscribes(e, h)
    ensures h in Step(cfg, st, e).pool && Loading(Step(cfg, st, e), h, TrailStep(cfg, st, n, e, h, t))
  {
    var t' := TrailStep(cfg, st, n, e, h, t);
    assert Step(cfg, st, e).pool[h].stage == st.pool[h].stage;
    assert t'.meta == t.meta && t'.config == t.config && t'.key == t.key;
  }

  lemma StepLoads(cfg: Config, st: State, n: nat, e: Event, h: Handle, t: Trail)
    requires Wired(st) && h in st.pool && Loading(st, h, t)
    ensures h in Step(cfg, st, e).pool && Loading(Step(cfg, st, e), h, TrailStep(cfg, st, n, e, h, t))
  {
    if Subscribes(e, h) {
      OwnLoads(cfg, st, n, e, h, t);
    } else {
      OthersLoad(cfg, st, n, e, h, t);
    }
  }

  // ---------------------------------------------------------------- contents

  /** The wire images of the frames. */
  function Images(fs: seq<Frame>): (r: seq<Msg>)
    ensures |r| == |fs| && forall i | 0 <= i < |fs| :: r[i] == WireBytes(fs[i])
  {
    seq(|fs|, i requires 0 <= i < |fs| => WireBytes(fs[i]))
  }

  ghost predicate Holds(st: State, fs: seq<Frame>, h: Handle, t: Trail)
    requires h in st.pool
  {
    && Within(t.kept, 0, |fs|)
    && t.taken + st.pool[h].sub.buf == Preload(t) + Pick(Images(fs), t.kept)
  }

  lemma SnapshotHolds(cfg: Config, st: State, fs: seq<Frame>, h: Handle, t: Trail)
    requires h in st.pool && Holds(st, fs, h, t) && st.pc.Snapping?
    ensures Holds(Step(cfg, st, Snapshot), fs + [st.pc.frame], h, TrailStep(cfg, st, |fs|, Snapshot, h, t))
  {
    var f := st.pc.frame;
    assert Images(fs + [f]) == Images(fs) + [WireBytes(f)];
    PickGrows(Images(fs), WireBytes(f), t.kept);
  }

  lemma SentHolds(cfg: Config, st: State, fs: seq<Frame>, h: Handle, t: Trail)
    requires Counts(st, |fs|, h, t) && Holds(st, fs, h, t) && Pending(st, h)
    requires fs != [] && fs[|fs| - 1] == st.pc.frame && |st.pool[h].sub.buf| < cfg.bufFrames
    requires !st.pool[h].sub.evicted
    ensures Holds(Step(cfg, st, OfferNext(h)), fs, h, TrailStep(cfg, st, |fs|, OfferNext(h), h, t))
  {
    assert Step(cfg, st, OfferNext(h)).pool[h].sub.buf == st.pool[h].sub.buf + [WireBytes(st.pc.frame)];
    PickSnoc(Images(fs), t.kept, |fs| - 1);
    OneMore(t.taken, st.pool[h].sub.buf, Preload(t), Pick(Images(fs), t.kept), WireBytes(st.pc.frame));
  }

  lemma OfferHolds(cfg: Config, st: State, fs: seq<Frame>, h: Handle, t: Trail)
    requires Wired(st) && Counts(st, |fs|, h, t) && Holds(st, fs, h, t) && Pending(st, h)
    requires fs != [] && fs[|fs| - 1] == st.pc.frame
    ensures Holds(Step(cfg, st, OfferNext(h)), fs, h, TrailStep(cfg, st, |fs|, OfferNext(h), h, t))
  {
    if |st.pool[h].sub.buf| < cfg.bufFrames {
      SentHolds(cfg, st, fs, h, t);
    } else {
      assert Step(cfg, st, OfferNext(h)).pool[h].sub.buf == st.pool[h].sub.buf;
    }
  }

  lemma OneMore(taken: seq<Msg>, buf: seq<Msg>, before: seq<Msg>, picked: seq<Msg>, m: Msg)
    requires taken + buf == before + picked
    ensures taken + (buf + [m]) == before + (picked + [m])
  {
    assert taken + (buf + [m]) == (taken + buf) + [m];
    assert before + (picked + [m]) == (before + picked) + [m];
  }

  lemma PreloadGains(t: Trail, m: Option<Msg>)
    requires t.key.None?
    ensures t.meta.None? && t.config.None? ==> Preload(t.(meta := m)) == Preload(t) + Opt(m)
    ensures t.config.None? ==> Preload(t.(config := m)) == Preload(t) + Opt(m)
    ensures Preload(t.(key := m)) == Preload(t) + Opt(m)
  {
  }

  /** A message that joins the channel and the preload while nothing else is in either. */
  lemma LoadedOne(st: State, st': State, fs: seq<Frame>, h: Handle, t: Trail, t': Trail, m: Option<Msg>)
    requires h in st.pool && Holds(st, fs, h, t) && t.kept == [] && t.taken == []
    requires h in st'.pool && st'.pool[h].sub.buf == st.pool[h].sub.buf + Opt(m)
    requires t'.kept == [] && t'.taken == [] && Preload(t') == Preload(t) + Opt(m)
    ensures Holds(st', fs, h, t')
  {
    var none := Pick(Images(fs), []);
    assert none == [];
    assert st.pool[h].sub.buf == [] + st.pool[h].sub.buf == Preload(t) + none == Preload(t);
    assert [] + st'.pool[h].sub.buf == Preload(t') + none;
  }

  lemma LoadHolds(cfg: Config, st: State, fs: seq<Frame>, e: Event, h: Handle, t: Trail)
    requires h in st.pool && Loading(st, h, t) && Holds(st, fs, h, t)
    requires (e.LoadMeta? || e.LoadConfig? || e.LoadKey?) && e.h == h && Enabled(cfg, st, e)
    ensures Holds(Step(cfg, st, e), fs, h, TrailStep(cfg, st, |fs|, e, h, t))
  {
    var m := Cached(st, e);
    PreloadGains(t, m);
    var buf := st.pool[h].sub.buf;
    assert buf + Opt(m) == if m.Some? then buf + [m.value] else buf;
    LoadedOne(st, Step(cfg, st, e), fs, h, t, TrailStep(cfg, st, |fs|, e, h, t), m);
  }

  lemma ReceiveHolds(cfg: Config, st: State, fs: seq<Frame>, h: Handle, t: Trail)
    requires h in st.pool && Holds(st, fs, h, t) && Enabled(cfg, st, Receive(h))
    ensures Holds(Step(cfg, st, Receive(h)), fs, h, TrailStep(cfg, st, |fs|, Receive(h), h, t))
  {
  }

  /** Steps that leave the viewer's channel and the contents of its trail alone. */
  predicate Quiet(st: State, e: Event, h: Handle) {
    match e
    case Snapshot => false
    case OfferNext(h') => h' != h
    case LoadMeta(h') => h' != h
    case LoadConfig(h') => h' != h
    case LoadKey(h') => h' != h
    case Receive(h') => h' != h
    case _ => true
  }

  lemma QuietHolds(cfg: Config, st: State, e: Event, n: nat, h: Handle, t: Trail)
    requires h in st.pool && (!Enabled(cfg, st, e) || Quiet(st, e, h))
    ensures h in Step(cfg, st, e).pool && Step(cfg, st, e).pool[h].sub.buf == st.pool[h].sub.buf
    ensures var t' := TrailStep(cfg, st, n, e, h, t);
            t'.kept == t.kept && t'.taken == t.taken && Preload(t') == Preload(t)
  {
  }

  lemma StillHolds(cfg: Config, st: State, fs: seq<Frame>, e: Event, h: Handle, t: Trail)
    requires h in st.pool && Holds(st, fs, h, t) && (!Enabled(cfg, st, e) || Quiet(st, e, h))
    ensures h in Step(cfg, st, e).pool && FannedStep(st, e, fs) == fs
    ensures Holds(Step(cfg, st, e), fs, h, TrailStep(cfg, st, |fs|, e, h, t))
  {
    QuietHolds(cfg, st, e, |fs|, h, t);
  }

  lemma StepHolds(cfg: Config, st: State, fs: seq<Frame>, e: Event, h: Handle, t: Trail)
    requires Wired(st) && Counts(st, |fs|, h, t) && Loading(st, h, t) && Holds(st, fs, h, t)
    requires st.pc.Sending? ==> fs != [] && fs[|fs| - 1] == st.pc.frame
    ensures h in Step(cfg, st, e).pool
    ensures Holds(Step(cfg, st, e), FannedStep(st, e, fs), h, TrailStep(cfg, st, |fs|, e, h, t))
  {
    if !Enabled(cfg, st, e) || Quiet(st, e, h) {
      StillHolds(cfg, st, fs, e, h, t);
    } else if e.Snapshot? {
      SnapshotHolds(cfg, st, fs, h, t);
    } else if e.OfferNext? {
      OfferHolds(cfg, st, fs, h, t);
    } else if e.Receive? {
      ReceiveHolds(cfg, st, fs, h, t);
    } else {
      LoadHolds(cfg, st, fs, e, h, t);
    }
  }

  // ---------------------------------------------------------------- the theorem

  ghost predicate Follows(st: State, fs: seq<Frame>, h: Handle, t: Trail) {
    Counts(st, |fs|, h, t) && Stays(st, |fs|, h, t) && Loading(st, h, t) && Holds(st, fs, h, t)
  }

  lemma StepFollows(cfg: Config, st: State, fs: seq<Frame>, e: Event, h: Handle, t: Trail)
    requires Wired(st) && Follows(st, fs, h, t)
    requires st.pc.Sending? ==> fs != [] && fs[|fs| - 1] == st.pc.frame
    ensures Follows(Step(cfg, st, e), FannedStep(st, e, fs), h, TrailStep(cfg, st, |fs|, e, h, t))
  {
    StepCounts(cfg, st, |fs|, e, h, t);
    StepStays(cfg, st, |fs|, e, h, t);
    StepLoads(cfg, st, |fs|, e, h, t);
    StepHolds(cfg, st, fs, e, h, t);
  }

  lemma BeginFollows(cfg: Config, st: State, fs: seq<Frame>, e: Event, h: Handle, t: Trail)
    requires Wired(st) && h !in st.pool && h in Step(cfg, st, e).pool
    ensures Follows(Step(cfg, st, e), fs, h, TrailStep(cfg, st, |fs|, e, h, t)) && !e.Snapshot?
  {
    var st' := Step(cfg, st, e);
    assert e.Begin? && e.h == h && TrailStep(cfg, st, |fs|, e, h, t) == NO_TRAIL;
    assert !Pending(st', h) && !Registered(st', h);
    assert Pick(Images(fs), []) == [];
  }

  lemma {:induction false} StreamFollows(cfg: Config, es: seq<Event>, h: Handle)
    requires h in Run(cfg, es).pool
    ensures Follows(Run(cfg, es), Fanned(cfg, es), h, TrailOf(cfg, es, h))
    decreases |es|
  {
    var n := |es| - 1;
    var st, fs, e, t := Run(cfg, es[..n]), Fanned(cfg, es[..n]), es[n], TrailOf(cfg, es[..n], h);
    AlwaysWired(cfg, es[..n]);
    if h in st.pool {
      StreamFollows(cfg, es[..n], h);
      HubConserves(cfg, es[..n]);
      StepFollows(cfg, st, fs, e, h, t);
    } else {
      BeginFollows(cfg, st, fs, e, h, t);
    }
  }

  /** In every run, what a viewer has received and what is still in its channel are its preload
      and then frames fanned out since its registration, in order and without repetition; those
      missing were dropped, or are not its own any more, or are still to be offered. */
  lemma {:induction false} DeliveredStream(cfg: Config, es: seq<Event>, h: Handle)
    requires h in Run(cfg, es).pool
    ensures var st, fs, t := Run(cfg, es), Fanned(cfg, es), TrailOf(cfg, es, h);
            && t.since <= t.upto <= |fs| && Within(t.kept, t.since, t.upto)
            && |t.kept| + t.lost + Due(st, h) == t.upto - t.since
            && t.taken + st.pool[h].sub.buf == Preload(t) + Pick(Images(fs), t.kept)
  {
    StreamFollows(cfg, es, h);
  }

  /** With no drops and no unsubscription it is all of them, without gaps, up to the frame that is
      about to be offered. */
  lemma {:induction false} GaplessStream(cfg: Config, es: seq<Event>, h: Handle)
    requires InStage(Run(cfg, es), h, Done)
    requires TrailOf(cfg, es, h).lost == 0 && !TrailOf(cfg, es, h).left
    ensures var st, fs, t := Run(cfg, es), Fanned(cfg, es), TrailOf(cfg, es, h);
            && t.since <= |fs| - Due(st, h)
            && t.taken + st.pool[h].sub.buf == Preload(t) + Images(fs)[t.since..|fs| - Due(st, h)]
  {
    var st, fs, t := Run(cfg, es), Fanned(cfg, es), TrailOf(cfg, es, h);
    StreamFollows(cfg, es, h);
    PickAll(Images(fs), t.kept, t.since, |fs| - Due(st, h));
  }

  lemma {:induction false} DropsAlwaysExact(cfg: Config, es: seq<Event>, h: Handle)
    requires h in Run(cfg, es).pool
    ensures DropsExact(cfg, Run(cfg, es), h, TrailOf(cfg, es, h))
    decreases |es|
  {
    var n := |es| - 1;
    var st, fs, t := Run(cfg, es[..n]), Fanned(cfg, es[..n]), TrailOf(cfg, es[..n], h);
    AlwaysWired(cfg, es[..n]);
    if h in st.pool {
      DropsAlwaysExact(cfg, es[..n], h);
      StreamFollows(cfg, es[..n], h);
      HubConserves(cfg, es[..n]);
      StepDropsExact(cfg, st, |fs|, es[n], h, t);
    } else {
      BeginDropsExact(cfg, st, |fs|, es[n], h, t);
    }
  }

  /** An offer cuts a viewer off exactly when it makes the number of frames that the viewer lost in a
      row the limit; one that gets through starts the count anew. */
  lemma {:induction false} EvictedIffLostInARow(cfg: Config, es: seq<Event>, h: Handle)
    requires cfg.maxDrops > 0 && Pending(Run(cfg, es), h)
    ensures var es' := es + [OfferNext(h)];
            var t := TrailOf(cfg, es', h);
            && h in Run(cfg, es').pool
            && (Run(cfg, es').pool[h].sub.evicted <==> LostInARow(t, t.upto) == cfg.maxDrops)
  {
    var es' := es + [OfferNext(h)];
    AlwaysWired(cfg, es);
    RunSnoc(cfg, es, OfferNext(h));
    DropsAlwaysExact(cfg, es, h);
    DropsAlwaysExact(cfg, es', h);
    assert !Pending(Run(cfg, es'), h);
  }

  /** The message is the wire image of a published frame with the flag of its cache. */
  ghost predicate FromCache(es: seq<Event>, m: Msg, asConfig: bool) {
    exists f :: Publish(Some(f)) in es && m == WireBytes(f) && if asConfig then f.configPacket else f.keyFrame
  }

  ghost predicate PreloadSourced(es: seq<Event>, t: Trail) {
    && (t.meta.Some? ==> SetMeta(t.meta.value) in es)
    && (t.config.Some? ==> FromCache(es, t.config.value, true))
    && (t.key.Some? ==> FromCache(es, t.key.value, false))
  }

  lemma FromCacheGrows(es: seq<Event>, e: Event, m: Msg, asConfig: bool)
    requires FromCache(es, m, asConfig)
    ensures FromCache(es + [e], m, asConfig)
  {
    var f :| Publish(Some(f)) in es && m == WireBytes(f) && if asConfig then f.configPacket else f.keyFrame;
    assert Publish(Some(f)) in es + [e];
  }

  /** The preload is made of metadata that was set, a published configuration packet and a
      published key frame, each of them optional and in this order. */
  lemma {:induction false} PreloadIsPublished(cfg: Config, es: seq<Event>, h: Handle)
    ensures PreloadSourced(es, TrailOf(cfg, es, h))
    decreases |es|
  {
    if es != [] {
      var n := |es| - 1;
      var before, e := es[..n], es[n];
      PreloadIsPublished(cfg, before, h);
      CachesAreSourced(cfg, before);
      PreloadGrows(cfg, Run(cfg, before), |Fanned(cfg, before)|, before, e, h, TrailOf(cfg, before, h));
      assert es == before + [e];
    }
  }

  lemma CacheGrows(st: State, es: seq<Event>, e: Event)
    requires Sourced(st, es)
    ensures st.config.Some? ==> FromCache(es + [e], WireBytes(st.config.value), true)
    ensures st.key.Some? ==> FromCache(es + [e], WireBytes(st.key.value), false)
  {
    if st.config.Some? {
      FromCacheGrows(es, e, WireBytes(st.config.value), true);
    }
    if st.key.Some? {
      FromCacheGrows(es, e, WireBytes(st.key.value), false);
    }
  }

  lemma SourcedStill(es: seq<Event>, e: Event, t: Trail)
    requires PreloadSourced(es, t)
    ensures PreloadSourced(es + [e], t)
  {
    assert forall x | x in es :: x in es + [e];
    if t.config.Some? {
      FromCacheGrows(es, e, t.config.value, true);
    }
    if t.key.Some? {
      FromCacheGrows(es, e, t.key.value, false);
    }
  }

  /** Where the parts of a trail's preload come from. */
  lemma PreloadParts(cfg: Config, st: State, k: nat, e: Event, h: Handle, t: Trail)
    ensures var t' := TrailStep(cfg, st, k, e, h, t);
            && (t'.meta == t.meta || t'.meta == st.meta || t'.meta == None)
            && (t'.config == t.config || t'.config == Image(st.config) || t'.config == None)
            && (t'.key == t.key || t'.key == Image(st.key) || t'.key == None)
  {
  }

  function Image(f: Option<Frame>): Option<Msg> {
    if f.None? then None else Some(WireBytes(f.value))
  }

  lemma PreloadGrows(cfg: Config, st: State, k: nat, es: seq<Event>, e: Event, h: Handle, t: Trail)
    requires Sourced(st, es) && PreloadSourced(es, t)
    ensures PreloadSourced(es + [e], TrailStep(cfg, st, k, e, h, t))
  {
    SourcedStill(es, e, t);
    CacheGrows(st, es, e);
    PreloadParts(cfg, st, k, e, h, t);
    assert st.meta.Some? ==> SetMeta(st.meta.value) in es + [e];
  }

  // ---------------------------------------------------------------- the newest preload

  /** What a load should find: the metadata last set, or the newest packet of its kind. */
  function NewestFor(cfg: Config, es: seq<Event>, e: Event): Option<Msg> {
    match e
    case LoadMeta(_) => LastMeta(es)
    case LoadConfig(_) => Image(Newest(Seen(Fanned(cfg, es), Run(cfg, es).pc, true), true))
    case LoadKey(_) => Image(Newest(Seen(Fanned(cfg, es), Run(cfg, es).pc, false), false))
    case _ => None
  }

  lemma CachedIsNewest(cfg: Config, es: seq<Event>, e: Event)
    ensures Cached(Run(cfg, es), e) == NewestFor(cfg, es, e)
  {
    CachesAreLatest(cfg, es);
    MetaIsLast(cfg, es);
  }

  /** At some moment of the run the load e took place and m was the newest there was for it. */
  ghost predicate Found(cfg: Config, es: seq<Event>, e: Event, m: Option<Msg>) {
    exists k :: 0 <= k < |es| && FoundAt(cfg, es, e, m, k)
  }

  ghost predicate FoundAt(cfg: Config, es: seq<Event>, e: Event, m: Option<Msg>, k: nat)
    requires k < |es|
  {
    es[k] == e && Enabled(cfg, Run(cfg, es[..k]), e) && m == NewestFor(cfg, es[..k], e)
  }

  lemma FoundGrows(cfg: Config, es: seq<Event>, e': Event, e: Event, m: Option<Msg>)
    requires Found(cfg, es, e, m)
    ensures Found(cfg, es + [e'], e, m)
  {
    var k :| 0 <= k < |es| && FoundAt(cfg, es, e, m, k);
    assert (es + [e'])[..k] == es[..k];
    assert FoundAt(cfg, es + [e'], e, m, k);
  }

  lemma JustFound(cfg: Config, es: seq<Event>, e: Event)
    requires Enabled(cfg, Run(cfg, es), e)
    ensures Found(cfg, es + [e], e, Cached(Run(cfg, es), e))
  {
    CachedIsNewest(cfg, es, e);
    assert (es + [e])[..|es|] == es;
    assert FoundAt(cfg, es + [e], e, Cached(Run(cfg, es), e), |es|);
  }

  /** The stage says which loads are behind the viewer. */
  predicate Past(stage: Stage, e: Event) {
    match e
    case LoadMeta(_) => !stage.AtMeta?
    case LoadConfig(_) => !stage.AtMeta? && !stage.AtConfig?
    case LoadKey(_) => stage.AtRegister? || stage.Done?
    case _ => false
  }

  function Loaded(t: Trail, e: Event): Option<Msg> {
    match e
    case LoadMeta(_) => t.meta
    case LoadConfig(_) => t.config
    case LoadKey(_) => t.key
    case _ => None
  }

  lemma StepLoaded(cfg: Config, st: State, n: nat, e': Event, h: Handle, t: Trail, e: Event)
    requires e == LoadMeta(h) || e == LoadConfig(h) || e == LoadKey(h)
    requires h in Step(cfg, st, e').pool && Past(Step(cfg, st, e').pool[h].stage, e)
    ensures if e' == e && Enabled(cfg, st, e) then Loaded(TrailStep(cfg, st, n, e', h, t), e) == Cached(st, e)
            else h in st.pool && Past(st.pool[h].stage, e) && Loaded(TrailStep(cfg, st, n, e', h, t), e) == Loaded(t, e)
  {
  }

  /** Each part of a viewer's preload was the newest there was when its Subscribe call came to load it:
      the metadata last set, the newest configuration packet, the newest key frame. */
  lemma {:induction false} PreloadIsNewest(cfg: Config, es: seq<Event>, h: Handle, e: Event)
    requires e == LoadMeta(h) || e == LoadConfig(h) || e == LoadKey(h)
    requires h in Run(cfg, es).pool && Past(Run(cfg, es).pool[h].stage, e)
    ensures Found(cfg, es, e, Loaded(TrailOf(cfg, es, h), e))
    decreases |es|
  {
    var n := |es| - 1;
    var before, e' := es[..n], es[n];
    var st, t := Run(cfg, before), TrailOf(cfg, before, h);
    assert es == before + [e'];
    StepLoaded(cfg, st, |Fanned(cfg, before)|, e', h, t, e);
    if e' == e && Enabled(cfg, st, e) {
      JustFound(cfg, before, e);
    } else {
      PreloadIsNewest(cfg, before, h, e);
      FoundGrows(cfg, before, e', e, Loaded(t, e));
    }
  }
}
