/**
 Viewers of the hub do not interfere: a run with any number of viewers is, for each of them, the
 run of a hub that has only this viewer.
 */
module HubIsolation {
  import opened Wrappers
  import opened Frames
  import opened Fanout
  import opened Hub

  /** Is the step one of the hub itself, of its producer, or of this viewer? */
  predicate Concerns(e: Event, v: Handle) {
    match e
    case Begin(h, _) => h == v
    case LoadMeta(h) => h == v
    case LoadConfig(h) => h == v
    case LoadKey(h) => h == v
    case Register(h) => h == v
    case Unsubscribe(h) => h == v
    case Receive(h) => h == v
    case OfferNext(h) => h == v
    case _ => true
  }

  /** The steps of the run that concern the viewer. */
  function Project(cfg: Config, es: seq<Event>, v: Handle): seq<Event> {
    if es == [] then [] else
    var n := |es| - 1;
    Project(cfg, es[..n], v) + if Enabled(cfg, Run(cfg, es[..n]), es[n]) && Concerns(es[n], v) then [es[n]] else []
  }

  /** Every event of the run is a step that is possible when it comes. */
  ghost predicate Genuine(cfg: Config, es: seq<Event>) {
    forall i | 0 <= i < |es| :: Enabled(cfg, Run(cfg, es[..i]), es[i])
  }

  /** No other viewer goes by the same id. */
  ghost predicate OwnId(es: seq<Event>, v: Handle) {
    forall e, e' | e in es && e' in es :: e.Begin? && e'.Begin? && e.h == v && e'.h != v ==> e.id != e'.id
  }

  ghost predicate OwnIdIn(st: State, v: Handle) {
    v in st.pool ==> forall h | h in st.pool && h != v :: st.pool[h].sub.id != st.pool[v].sub.id
  }

  /** The state r of a hub with this one viewer is its share of the state st. */
  ghost predicate Shows(r: State, st: State, v: Handle) {
    && r.inq == st.inq && r.frameCount == st.frameCount
    && r.meta == st.meta && r.config == st.config && r.key == st.key
    && r.pc == (if st.pc.Sending? then Sending(st.pc.frame, st.pc.todo * {v}) else st.pc)
    && r.pool.Keys == st.pool.Keys * {v}
    && (v in st.pool ==> r.pool[v] == st.pool[v])
    && (Registered(r, v) <==> Registered(st, v))
    && (forall id | id in r.viewers :: r.viewers[id] == v)
  }

  // ---------------------------------------------------------------- ids

  lemma {:induction false} IdsWereGiven(cfg: Config, es: seq<Event>, h: Handle)
    requires h in Run(cfg, es).pool
    ensures Begin(h, Run(cfg, es).pool[h].sub.id) in es
    decreases |es|
  {
    var n := |es| - 1;
    if h in Run(cfg, es[..n]).pool {
      IdsWereGiven(cfg, es[..n], h);
      KeepsId(cfg, Run(cfg, es[..n]), es[n], h);
    }
  }

  lemma KeepsId(cfg: Config, st: State, e: Event, h: Handle)
    requires h in st.pool
    ensures h in Step(cfg, st, e).pool && Step(cfg, st, e).pool[h].sub.id == st.pool[h].sub.id
  {
  }

  lemma IdStaysOwn(cfg: Config, es: seq<Event>, v: Handle)
    requires OwnId(es, v)
    ensures OwnIdIn(Run(cfg, es), v)
  {
    var st := Run(cfg, es);
    forall h | h in st.pool && h != v && v in st.pool ensures st.pool[h].sub.id != st.pool[v].sub.id {
      IdsWereGiven(cfg, es, h);
      IdsWereGiven(cfg, es, v);
    }
  }

  // ---------------------------------------------------------------- one step

  lemma OtherRegister(cfg: Config, r: State, st: State, h: Handle, v: Handle)
    requires Wired(st) && Shows(r, st, v) && OwnIdIn(st, v) && h != v
    ensures Shows(r, Step(cfg, st, Register(h)), v)
  {
  }

  lemma OtherOffer(cfg: Config, r: State, st: State, h: Handle, v: Handle)
    requires Wired(st) && Shows(r, st, v) && h != v
    ensures Shows(r, Step(cfg, st, OfferNext(h)), v)
  {
  }

  lemma OtherUnsubscribe(cfg: Config, r: State, st: State, h: Handle, v: Handle)
    requires Wired(st) && Shows(r, st, v) && h != v
    ensures Shows(r, Step(cfg, st, Unsubscribe(h)), v)
  {
  }

  /** A step that only changes or makes another viewer. */
  lemma OtherViewer(r: State, st: State, h: Handle, w: Viewer, v: Handle)
    requires Shows(r, st, v) && h != v
    ensures Shows(r, SetViewer(st, h, w), v)
  {
  }

  lemma OtherViewerIf(cfg: Config, r: State, st: State, e: Event, h: Handle, v: Handle)
    requires Shows(r, st, v) && h != v
    requires (e.Begin? || e.LoadMeta? || e.LoadConfig? || e.LoadKey? || e.Receive?) && e.h == h
    ensures Shows(r, Step(cfg, st, e), v)
  {
    if Enabled(cfg, st, e) {
      OtherViewer(r, st, h, Step(cfg, st, e).pool[h], v);
    }
  }

  lemma OtherStep(cfg: Config, r: State, st: State, e: Event, v: Handle)
    requires Wired(st) && Shows(r, st, v) && OwnIdIn(st, v) && !Concerns(e, v)
    ensures Shows(r, Step(cfg, st, e), v)
  {
    match e
    case Register(h) => OtherRegister(cfg, r, st, h, v);
    case OfferNext(h) => OtherOffer(cfg, r, st, h, v);
    case Unsubscribe(h) => OtherUnsubscribe(cfg, r, st, h, v);
    case Begin(h, _) => OtherViewerIf(cfg, r, st, e, h, v);
    case LoadMeta(h) => OtherViewerIf(cfg, r, st, e, h, v);
    case LoadConfig(h) => OtherViewerIf(cfg, r, st, e, h, v);
    case LoadKey(h) => OtherViewerIf(cfg, r, st, e, h, v);
    case Receive(h) => OtherViewerIf(cfg, r, st, e, h, v);
    case _ =>
  }

  lemma HubStep(cfg: Config, r: State, st: State, e: Event, v: Handle)
    requires Wired(st) && Wired(r) && Shows(r, st, v) && Enabled(cfg, st, e)
    requires e.Publish? || e.SetMeta? || e.Dequeue? || e.StoreConfig? || e.StoreKey? || e.FinishFrame? || e.Cancel?
    ensures Enabled(cfg, r, e) && Shows(Step(cfg, r, e), Step(cfg, st, e), v)
  {
  }

  lemma SnapshotStep(cfg: Config, r: State, st: State, v: Handle)
    requires Wired(st) && Wired(r) && Shows(r, st, v) && Enabled(cfg, st, Snapshot)
    ensures Enabled(cfg, r, Snapshot) && Shows(Step(cfg, r, Snapshot), Step(cfg, st, Snapshot), v)
  {
  }

  lemma PreloadStep(cfg: Config, r: State, st: State, e: Event, v: Handle)
    requires Wired(st) && Wired(r) && Shows(r, st, v) && Enabled(cfg, st, e)
    requires (e.Begin? || e.LoadMeta? || e.LoadConfig? || e.LoadKey?) && e.h == v
    ensures Enabled(cfg, r, e) && Shows(Step(cfg, r, e), Step(cfg, st, e), v)
  {
  }

  lemma ViewerStep(cfg: Config, r: State, st: State, e: Event, v: Handle)
    requires Wired(st) && Wired(r) && Shows(r, st, v) && Enabled(cfg, st, e)
    requires (e.Register? || e.Unsubscribe? || e.Receive?) && e.h == v
    ensures Enabled(cfg, r, e) && Shows(Step(cfg, r, e), Step(cfg, st, e), v)
  {
  }

  lemma OfferStep(cfg: Config, r: State, st: State, v: Handle)
    requires Wired(st) && Wired(r) && Shows(r, st, v) && Enabled(cfg, st, OfferNext(v))
    ensures Enabled(cfg, r, OfferNext(v)) && Shows(Step(cfg, r, OfferNext(v)), Step(cfg, st, OfferNext(v)), v)
  {
  }

  lemma OwnStep(cfg: Config, r: State, st: State, e: Event, v: Handle)
    requires Wired(st) && Wired(r) && Shows(r, st, v) && Enabled(cfg, st, e) && Concerns(e, v)
    ensures Enabled(cfg, r, e) && Shows(Step(cfg, r, e), Step(cfg, st, e), v)
  {
    match e
    case OfferNext(_) => OfferStep(cfg, r, st, v);
    case Snapshot => SnapshotStep(cfg, r, st, v);
    case Publish(_) => HubStep(cfg, r, st, e, v);
    case SetMeta(_) => HubStep(cfg, r, st, e, v);
    case Dequeue => HubStep(cfg, r, st, e, v);
    case StoreConfig => HubStep(cfg, r, st, e, v);
    case StoreKey => HubStep(cfg, r, st, e, v);
    case FinishFrame => HubStep(cfg, r, st, e, v);
    case Cancel => HubStep(cfg, r, st, e, v);
    case Begin(_, _) => PreloadStep(cfg, r, st, e, v);
    case LoadMeta(_) => PreloadStep(cfg, r, st, e, v);
    case LoadConfig(_) => PreloadStep(cfg, r, st, e, v);
    case LoadKey(_) => PreloadStep(cfg, r, st, e, v);
    case _ => ViewerStep(cfg, r, st, e, v);
  }

  // ---------------------------------------------------------------- whole runs

  lemma GenuineSnoc(cfg: Config, es: seq<Event>, e: Event)
    requires Genuine(cfg, es) && Enabled(cfg, Run(cfg, es), e)
    ensures Genuine(cfg, es + [e])
  {
    var es' := es + [e];
    forall i | 0 <= i < |es'| ensures Enabled(cfg, Run(cfg, es'[..i]), es'[i]) {
      assert es'[..i] == if i < |es| then es[..i] else es;
    }
  }

  /** The steps that concern one viewer make up a run of their own, in which every step is
      possible and which leads to this viewer's share of the state. */
  lemma {:induction false} OneViewerRun(cfg: Config, es: seq<Event>, v: Handle)
    requires OwnId(es, v)
    ensures Genuine(cfg, Project(cfg, es, v))
    ensures Shows(Run(cfg, Project(cfg, es, v)), Run(cfg, es), v)
    decreases |es|
  {
    if es != [] {
      var n := |es| - 1;
      var before, e := es[..n], es[n];
      var own := Project(cfg, before, v);
      assert OwnId(before, v);
      OneViewerRun(cfg, before, v);
      AlwaysWired(cfg, before);
      AlwaysWired(cfg, own);
      if !Enabled(cfg, Run(cfg, before), e) {
        assert own + [] == own;
      } else if Concerns(e, v) {
        OwnStep(cfg, Run(cfg, own), Run(cfg, before), e, v);
        GenuineSnoc(cfg, own, e);
        RunSnoc(cfg, own, e);
      } else {
        IdStaysOwn(cfg, before, v);
        OtherStep(cfg, Run(cfg, own), Run(cfg, before), e, v);
        assert own + [] == own;
      }
    }
  }

  /** So whatever the other viewers do and in whatever order the hub serves them, runs with the
      same steps of the producer, the hub and this viewer leave it with the same channel, drop
      count, eviction and registration. */
  lemma {:induction false} NonInterference(cfg: Config, es1: seq<Event>, es2: seq<Event>, v: Handle)
    requires OwnId(es1, v) && OwnId(es2, v)
    requires Project(cfg, es1, v) == Project(cfg, es2, v)
    ensures var st1, st2 := Run(cfg, es1), Run(cfg, es2);
            && (v in st1.pool <==> v in st2.pool)
            && (v in st1.pool ==> st1.pool[v] == st2.pool[v])
            && (Registered(st1, v) <==> Registered(st2, v))
  {
    OneViewerRun(cfg, es1, v);
    OneViewerRun(cfg, es2, v);
    var st1, st2 := Run(cfg, es1), Run(cfg, es2);
    assert v in st1.pool <==> v in st1.pool.Keys * {v};
    assert v in st2.pool <==> v in st2.pool.Keys * {v};
  }

  // ---------------------------------------------------------------- offers and draining alone

  /** What the hub and the reader do to one viewer's channel. */
  datatype Op = Preloaded(m: Msg) | Offered(m: Msg) | Drained | ClosedDown

  function Apply(cfg: Config, s: Sub<Msg>, op: Op): Sub<Msg> {
    match op
    case Preloaded(m) => s.(buf := s.buf + [m])
    case Offered(m) => Offer(cfg.bufFrames, cfg.maxDrops, s, m)
    case Drained => s.(buf := if s.buf == [] then [] else s.buf[1..])
    case ClosedDown => s.(evicted := true, closed := true)
  }

  function Replay(cfg: Config, id: Id, ops: seq<Op>): Sub<Msg> {
    if ops == [] then Sub(id, [], false, 0, false)
    else Apply(cfg, Replay(cfg, id, ops[..|ops| - 1]), ops[|ops| - 1])
  }

  /** The operation that the step is for the viewer, if any. */
  function OpOf(cfg: Config, st: State, e: Event, v: Handle): (ops: seq<Op>)
    ensures |ops| <= 1
  {
    if !Enabled(cfg, st, e) || v !in st.pool then [] else
    match e
    case LoadMeta(h) => if h == v && st.meta.Some? then [Preloaded(st.meta.value)] else []
    case LoadConfig(h) => if h == v && st.config.Some? then [Preloaded(WireBytes(st.config.value))] else []
    case LoadKey(h) => if h == v && st.key.Some? then [Preloaded(WireBytes(st.key.value))] else []
    case OfferNext(h) => if h == v then [Offered(WireBytes(st.pc.frame))] else []
    case Receive(h) => if h == v then [Drained] else []
    case Cancel => if Registered(st, v) then [ClosedDown] else []
    case _ => []
  }

  function Ops(cfg: Config, es: seq<Event>, v: Handle): seq<Op> {
    if es == [] then [] else
    var n := |es| - 1;
    Ops(cfg, es[..n], v) + OpOf(cfg, Run(cfg, es[..n]), es[n], v)
  }

  lemma StepReplays(cfg: Config, st: State, e: Event, v: Handle)
    requires Wired(st) && v in st.pool
    ensures v in Step(cfg, st, e).pool && Step(cfg, st, e).pool[v].sub.id == st.pool[v].sub.id
    ensures var ops := OpOf(cfg, st, e, v);
            Step(cfg, st, e).pool[v].sub == if ops == [] then st.pool[v].sub else Apply(cfg, st.pool[v].sub, ops[0])
  {
  }

  lemma {:induction false} NothingBefore(cfg: Config, es: seq<Event>, v: Handle)
    requires v !in Run(cfg, es).pool
    ensures Ops(cfg, es, v) == []
    decreases |es|
  {
    if es != [] {
      var n := |es| - 1;
      assert v !in Run(cfg, es[..n]).pool;
      NothingBefore(cfg, es[..n], v);
    }
  }

  lemma ReplayMore(cfg: Config, id: Id, ops: seq<Op>, op: seq<Op>)
    requires |op| <= 1
    ensures Replay(cfg, id, ops + op) ==
            if op == [] then Replay(cfg, id, ops) else Apply(cfg, Replay(cfg, id, ops), op[0])
  {
    if op == [] {
      assert ops + op == ops;
    } else {
      assert (ops + op)[..|ops|] == ops;
    }
  }

  lemma BeginReplays(cfg: Config, st: State, e: Event, v: Handle)
    requires v !in st.pool && v in Step(cfg, st, e).pool
    ensures var s := Step(cfg, st, e).pool[v].sub;
            s == Replay(cfg, s.id, []) && OpOf(cfg, st, e, v) == []
  {
  }

  /** In every interleaving a viewer's channel, drop count and eviction are what its own preload,
      the offers made to it and its own draining amount to. */
  lemma {:induction false} OnlyItsOwnOps(cfg: Config, es: seq<Event>, v: Handle)
    requires v in Run(cfg, es).pool
    ensures Run(cfg, es).pool[v].sub == Replay(cfg, Run(cfg, es).pool[v].sub.id, Ops(cfg, es, v))
    decreases |es|
  {
    var n := |es| - 1;
    var st, e, ops := Run(cfg, es[..n]), es[n], Ops(cfg, es[..n], v);
    if v in st.pool {
      OnlyItsOwnOps(cfg, es[..n], v);
      AlwaysWired(cfg, es[..n]);
      StepReplays(cfg, st, e, v);
      ReplayMore(cfg, st.pool[v].sub.id, ops, OpOf(cfg, st, e, v));
    } else {
      NothingBefore(cfg, es[..n], v);
      BeginReplays(cfg, st, e, v);
    }
  }
}
