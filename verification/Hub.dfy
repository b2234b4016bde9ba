/**
 The fan-out hub as a state machine over its atomic steps (internal/session/hub.go).

 One goroutine runs the hub; a producer publishes, viewers subscribe, receive and unsubscribe,
 all at the same time. A step is one lock section, one atomic load or store, or one channel
 operation; a run is any interleaving of steps.
 */
module Hub {
  import opened Wrappers
  import opened Bytes
  import opened Fanout
  import opened Frames

  type Msg = seq<byte>

  const IN_CAPACITY := 16

  datatype Config = Config(bufFrames: nat, maxDrops: nat)

  /** How far a Subscribe call has come; its caller has the channel only when it is done. */
  datatype Stage = AtMeta | AtConfig | AtKey | AtRegister | Done

  datatype Viewer = Viewer(stage: Stage, sub: Sub<Msg>)

  /** Where the hub's goroutine is, with the frame in hand and the viewers still to be served. */
  datatype Pc = Idle | Storing(frame: Frame) | StoringKey(frame: Frame) | Snapping(frame: Frame)
    | Sending(frame: Frame, todo: set<Handle>) | Exited

  datatype State = State(
    inq: seq<Option<Frame>>, frameCount: nat, meta: Option<Msg>, config: Option<Frame>, key: Option<Frame>,
    pc: Pc, viewers: map<Id, Handle>, pool: map<Handle, Viewer>)

  datatype Event =
    | Publish(f: Option<Frame>)
    | SetMeta(m: Msg)
    | Begin(h: Handle, id: Id)
    | LoadMeta(h: Handle)
    | LoadConfig(h: Handle)
    | LoadKey(h: Handle)
    | Register(h: Handle)
    | Unsubscribe(h: Handle)
    | Receive(h: Handle)
    | Dequeue
    | StoreConfig
    | StoreKey
    | Snapshot
    | OfferNext(h: Handle)
    | FinishFrame
    | Cancel

  const INIT := State([], 0, None, None, None, Idle, map[], map[])

  predicate Registered(st: State, h: Handle) {
    h in st.pool && st.pool[h].sub.id in st.viewers && st.viewers[st.pool[h].sub.id] == h
  }

  predicate InStage(st: State, h: Handle, stage: Stage) {
    h in st.pool && st.pool[h].stage == stage
  }

  /** What a load puts into the viewer's channel. */
  function Cached(st: State, e: Event): Option<Msg> {
    match e
    case LoadMeta(_) => st.meta
    case LoadConfig(_) => if st.config.None? then None else Some(WireBytes(st.config.value))
    case LoadKey(_) => if st.key.None? then None else Some(WireBytes(st.key.value))
    case _ => None
  }

  /** A preload blocks while there is something to send and no room for it. */
  predicate Room(cfg: Config, st: State, e: Event, h: Handle)
    requires h in st.pool
  {
    Cached(st, e).Some? ==> |st.pool[h].sub.buf| < cfg.bufFrames
  }

  predicate Enabled(cfg: Config, st: State, e: Event) {
    match e
    case Publish(_) => true
    case SetMeta(_) => true
    case Begin(h, _) => h !in st.pool
    case LoadMeta(h) => InStage(st, h, AtMeta) && Room(cfg, st, e, h)
    case LoadConfig(h) => InStage(st, h, AtConfig) && Room(cfg, st, e, h)
    case LoadKey(h) => InStage(st, h, AtKey) && Room(cfg, st, e, h)
    case Register(h) => InStage(st, h, AtRegister)
    case Unsubscribe(h) => InStage(st, h, Done)
    case Receive(h) => InStage(st, h, Done) && st.pool[h].sub.buf != []
    case Dequeue => st.pc.Idle? && st.inq != []
    case StoreConfig => st.pc.Storing?
    case StoreKey => st.pc.StoringKey?
    case Snapshot => st.pc.Snapping?
    case OfferNext(h) => st.pc.Sending? && h in st.pc.todo && h in st.pool
    case FinishFrame => st.pc.Sending? && st.pc.todo == {}
    case Cancel => st.pc.Idle?
  }

  function Put(v: Viewer, m: Option<Msg>, stage: Stage): Viewer {
    Viewer(stage, if m.None? then v.sub else v.sub.(buf := v.sub.buf + [m.value]))
  }

  function SetViewer(st: State, h: Handle, v: Viewer): State {
    st.(pool := st.pool[h := v])
  }

  function Cut(st: State, h: Handle): Viewer
    requires h in st.pool
  {
    var v := st.pool[h];
    if Registered(st, h) && !v.sub.evicted then v.(sub := v.sub.(evicted := true, closed := true)) else v
  }

  /** The non-blocking send to one viewer; one that is cut off leaves the map if it is still there. */
  function Served(cfg: Config, st: State, h: Handle): State
    requires h in st.pool && st.pc.Sending?
  {
    var v := st.pool[h];
    var sub := Offer(cfg.bufFrames, cfg.maxDrops, v.sub, WireBytes(st.pc.frame));
    var gone := sub.evicted && !v.sub.evicted && Registered(st, h);
    st.(pool := st.pool[h := v.(sub := sub)],
        viewers := if gone then st.viewers - {sub.id} else st.viewers,
        pc := Sending(st.pc.frame, st.pc.todo - {h}))
  }

  /** One step; an event that is not possible leaves the state as it is. */
  function Step(cfg: Config, st: State, e: Event): State {
    if !Enabled(cfg, st, e) then st else
    match e
    case Publish(f) =>
      st.(frameCount := st.frameCount + 1, inq := if |st.inq| < IN_CAPACITY then st.inq + [f] else st.inq)
    case SetMeta(m) => st.(meta := Some(m))
    case Begin(h, id) => SetViewer(st, h, Viewer(AtMeta, Sub(id, [], false, 0, false)))
    case LoadMeta(h) => SetViewer(st, h, Put(st.pool[h], Cached(st, e), AtConfig))
    case LoadConfig(h) => SetViewer(st, h, Put(st.pool[h], Cached(st, e), AtKey))
    case LoadKey(h) => SetViewer(st, h, Put(st.pool[h], Cached(st, e), AtRegister))
    case Register(h) =>
      SetViewer(st, h, st.pool[h].(stage := Done)).(viewers := st.viewers[st.pool[h].sub.id := h])
    case Unsubscribe(h) =>
      if Registered(st, h) then st.(viewers := st.viewers - {st.pool[h].sub.id}) else st
    case Receive(h) =>
      var v := st.pool[h];
      SetViewer(st, h, v.(sub := v.sub.(buf := v.sub.buf[1..])))
    case Dequeue =>
      st.(inq := st.inq[1..], pc := if st.inq[0].None? then Idle else Storing(st.inq[0].value))
    case StoreConfig =>
      st.(config := if st.pc.frame.configPacket then Some(st.pc.frame) else st.config, pc := StoringKey(st.pc.frame))
    case StoreKey =>
      st.(key := if st.pc.frame.keyFrame then Some(st.pc.frame) else st.key, pc := Snapping(st.pc.frame))
    case Snapshot => st.(pc := Sending(st.pc.frame, st.viewers.Values))
    case OfferNext(h) => Served(cfg, st, h)
    case FinishFrame => st.(pc := Idle)
    case Cancel => st.(pc := Exited, viewers := map[], pool := map h | h in st.pool :: Cut(st, h))
  }

  function Run(cfg: Config, es: seq<Event>): State {
    if es == [] then INIT else Step(cfg, Run(cfg, es[..|es| - 1]), es[|es| - 1])
  }

  lemma RunSnoc(cfg: Config, es: seq<Event>, e: Event)
    ensures Run(cfg, es + [e]) == Step(cfg, Run(cfg, es), e)
  {
  }

  // ---------------------------------------------------------------- channels

  /** The registrations are of done and open viewers; a channel is closed just when its viewer is
      evicted; the viewers still to be served are open. */
  ghost predicate Wired(st: State) {
    && (forall id | id in st.viewers :: st.viewers[id] in st.pool && st.pool[st.viewers[id]].sub.id == id)
    && (forall h | h in st.pool && Registered(st, h) :: st.pool[h].stage.Done? && !st.pool[h].sub.closed)
    && (forall h | h in st.pool :: st.pool[h].sub.closed == st.pool[h].sub.evicted)
    && (forall h | h in st.pool && st.pool[h].sub.closed :: st.pool[h].stage.Done?)
    && (st.pc.Sending? ==> forall h | h in st.pc.todo :: InStage(st, h, Done) && !st.pool[h].sub.closed)
  }

  lemma InTheMap(st: State, h: Handle)
    requires Wired(st)
    ensures h in st.viewers.Values <==> Registered(st, h)
  {
  }

  lemma SnapshotKeepsWired(cfg: Config, st: State)
    requires Wired(st)
    ensures Wired(Step(cfg, st, Snapshot))
  {
  }

  lemma ServeKeepsWired(cfg: Config, st: State, h: Handle)
    requires Wired(st)
    ensures Wired(Step(cfg, st, OfferNext(h)))
  {
  }

  lemma RegisterKeepsWired(cfg: Config, st: State, h: Handle)
    requires Wired(st)
    ensures Wired(Step(cfg, st, Register(h)))
  {
  }

  /** A viewer that is new, or changes while its Subscribe call is under way. */
  lemma PreloadKeepsWired(st: State, h: Handle, w: Viewer)
    requires Wired(st) && !w.stage.Done? && !w.sub.closed && !w.sub.evicted
    requires h in st.pool ==> !st.pool[h].stage.Done? && st.pool[h].sub.id == w.sub.id
    ensures Wired(SetViewer(st, h, w))
  {
  }

  lemma SubscribeKeepsWired(cfg: Config, st: State, e: Event)
    requires Wired(st) && (e.Begin? || e.LoadMeta? || e.LoadConfig? || e.LoadKey? || e.Register?)
    ensures Wired(Step(cfg, st, e))
  {
    if e.Register? {
      RegisterKeepsWired(cfg, st, e.h);
    } else if Enabled(cfg, st, e) {
      PreloadKeepsWired(st, e.h, Step(cfg, st, e).pool[e.h]);
    }
  }

  lemma ViewerKeepsWired(cfg: Config, st: State, e: Event)
    requires Wired(st) && (e.Unsubscribe? || e.Receive? || e.Cancel?)
    ensures Wired(Step(cfg, st, e))
  {
  }

  lemma StepKeepsWired(cfg: Config, st: State, e: Event)
    requires Wired(st)
    ensures Wired(Step(cfg, st, e))
  {
    if e.Snapshot? {
      SnapshotKeepsWired(cfg, st);
    } else if e.OfferNext? {
      ServeKeepsWired(cfg, st, e.h);
    } else if e.Unsubscribe? || e.Receive? || e.Cancel? {
      ViewerKeepsWired(cfg, st, e);
    } else if e.Begin? || e.LoadMeta? || e.LoadConfig? || e.LoadKey? || e.Register? {
      SubscribeKeepsWired(cfg, st, e);
    }
  }

  lemma {:induction false} AlwaysWired(cfg: Config, es: seq<Event>)
    ensures Wired(Run(cfg, es))
    decreases |es|
  {
    if es != [] {
      var n := |es| - 1;
      AlwaysWired(cfg, es[..n]);
      StepKeepsWired(cfg, Run(cfg, es[..n]), es[n]);
    }
  }

  /** Does the step send into the viewer's channel? */
  predicate SendsTo(st: State, e: Event, h: Handle) {
    match e
    case LoadMeta(h') => h' == h && st.meta.Some?
    case LoadConfig(h') => h' == h && st.config.Some?
    case LoadKey(h') => h' == h && st.key.Some?
    case OfferNext(h') => h' == h
    case _ => false
  }

  /** Channel safety in every interleaving: only open channels are sent to or closed; a closed
      one stays closed and is its evicted viewer's; and a shutdown closes every registered one. */
  lemma {:induction false} ChannelsAreSafe(cfg: Config, es: seq<Event>, e: Event, h: Handle)
    requires Enabled(cfg, Run(cfg, es), e) && h in Run(cfg, es).pool
    ensures var st, st' := Run(cfg, es), Run(cfg, es + [e]);
            && (SendsTo(st, e, h) ==> !st.pool[h].sub.closed)
            && h in st'.pool && (st.pool[h].sub.closed ==> st'.pool[h].sub.closed)
            && (st.pool[h].sub.closed <==> st.pool[h].sub.evicted)
            && (e.Cancel? && Registered(st, h) ==> !st.pool[h].sub.closed && st'.pool[h].sub.closed)
  {
    RunSnoc(cfg, es, e);
    AlwaysWired(cfg, es);
  }

  /** How a registered viewer ceases to be registered: its own unsubscription, a newer viewer with
      its id, the shutdown, or too many losses in a row; the last two close its channel. */
  lemma {:induction false} LeavesOnlyFor(cfg: Config, es: seq<Event>, e: Event, h: Handle)
    requires Registered(Run(cfg, es), h) && !Registered(Run(cfg, es + [e]), h)
    ensures var st, st' := Run(cfg, es), Run(cfg, es + [e]);
            || e == Unsubscribe(h)
            || (e.Register? && e.h != h && st.pool[e.h].sub.id == st.pool[h].sub.id)
            || (e.Cancel? && st'.pool[h].sub.closed)
            || (e == OfferNext(h) && st'.pool[h].sub.closed && |st.pool[h].sub.buf| >= cfg.bufFrames
                  && st.pool[h].sub.drops + 1 >= cfg.maxDrops)
  {
    RunSnoc(cfg, es, e);
    AlwaysWired(cfg, es);
  }

  /** An unsubscription takes the viewer's id out of the map exactly when the map led to this viewer, and
      leaves every other entry, all channels and everything else as they were. */
  lemma {:induction false} UnsubscribeRemoves(cfg: Config, es: seq<Event>, h: Handle)
    requires InStage(Run(cfg, es), h, Done)
    ensures var st, st' := Run(cfg, es), Run(cfg, es + [Unsubscribe(h)]);
            var id := st.pool[h].sub.id;
            && !Registered(st', h)
            && (forall i | i in st'.viewers :: i in st.viewers && st'.viewers[i] == st.viewers[i])
            && (forall i | i in st.viewers :: i in st'.viewers <==> i != id || st.viewers[i] != h)
            && st' == st.(viewers := st'.viewers)
  {
    RunSnoc(cfg, es, Unsubscribe(h));
    AlwaysWired(cfg, es);
  }

  /** A registration makes the map lead from the viewer's id to the viewer; a shutdown empties it. */
  lemma {:induction false} RegisterAdds(cfg: Config, es: seq<Event>, h: Handle)
    ensures InStage(Run(cfg, es), h, AtRegister) ==>
              var st, st' := Run(cfg, es), Run(cfg, es + [Register(h)]);
              && Registered(st', h) && InStage(st', h, Done)
              && st'.viewers == st.viewers[st.pool[h].sub.id := h]
    ensures Run(cfg, es).pc.Idle? ==> Run(cfg, es + [Cancel]).viewers == map[]
  {
    RunSnoc(cfg, es, Register(h));
    RunSnoc(cfg, es, Cancel);
  }

  /** A viewer that is not registered any more never is again, so no later snapshot holds it. */
  lemma {:induction false} GoneForGood(cfg: Config, es: seq<Event>, more: seq<Event>, h: Handle)
    requires InStage(Run(cfg, es), h, Done) && !Registered(Run(cfg, es), h)
    ensures InStage(Run(cfg, es + more), h, Done) && !Registered(Run(cfg, es + more), h)
    ensures Run(cfg, es + more).pc.Snapping? ==> h !in Step(cfg, Run(cfg, es + more), Snapshot).pc.todo
    decreases |more|
  {
    if more == [] {
      assert es + more == es;
    } else {
      var n := |more| - 1;
      assert es + more == es + more[..n] + [more[n]];
      GoneForGood(cfg, es, more[..n], h);
      RunSnoc(cfg, es + more[..n], more[n]);
      StaysGone(cfg, Run(cfg, es + more[..n]), more[n], h);
    }
    AlwaysWired(cfg, es + more);
    InTheMap(Run(cfg, es + more), h);
  }

  lemma StaysGone(cfg: Config, st: State, e: Event, h: Handle)
    requires InStage(st, h, Done) && !Registered(st, h)
    ensures InStage(Step(cfg, st, e), h, Done) && !Registered(Step(cfg, st, e), h)
  {
  }

  /** So after its unsubscription a viewer is offered at most the frame that is being fanned out. */
  lemma {:induction false} NotServedAgain(cfg: Config, es: seq<Event>, more: seq<Event>, h: Handle)
    requires InStage(Run(cfg, es), h, Done)
    ensures var later := Run(cfg, es + [Unsubscribe(h)] + more);
            && !Registered(later, h)
            && (later.pc.Snapping? ==> h !in Step(cfg, later, Snapshot).pc.todo)
  {
    UnsubscribeRemoves(cfg, es, h);
    GoneForGood(cfg, es + [Unsubscribe(h)], more, h);
  }

  /** With room for three messages a Subscribe call never blocks. */
  ghost predicate Preloading(st: State) {
    forall h | h in st.pool ::
      var v := st.pool[h];
      && (v.stage.AtMeta? ==> |v.sub.buf| == 0)
      && (v.stage.AtConfig? ==> |v.sub.buf| <= 1)
      && (v.stage.AtKey? ==> |v.sub.buf| <= 2)
  }

  lemma StepKeepsPreloading(cfg: Config, st: State, e: Event)
    requires Wired(st) && Preloading(st)
    ensures Preloading(Step(cfg, st, e))
  {
  }

  /** A Subscribe call that has come this far can take its next step. */
  predicate CanGoOn(cfg: Config, st: State, h: Handle)
    requires h in st.pool
  {
    match st.pool[h].stage
    case AtMeta => Enabled(cfg, st, LoadMeta(h))
    case AtConfig => Enabled(cfg, st, LoadConfig(h))
    case AtKey => Enabled(cfg, st, LoadKey(h))
    case AtRegister => Enabled(cfg, st, Register(h))
    case Done => true
  }

  lemma {:induction false} AlwaysPreloading(cfg: Config, es: seq<Event>)
    ensures Preloading(Run(cfg, es))
    decreases |es|
  {
    if es != [] {
      var n := |es| - 1;
      AlwaysWired(cfg, es[..n]);
      AlwaysPreloading(cfg, es[..n]);
      StepKeepsPreloading(cfg, Run(cfg, es[..n]), es[n]);
    }
  }

  /** With three slots every Subscribe call can go on at any time. */
  lemma {:induction false} SubscribeNeverBlocks(cfg: Config, es: seq<Event>, h: Handle)
    requires cfg.bufFrames >= 3 && h in Run(cfg, es).pool
    ensures CanGoOn(cfg, Run(cfg, es), h)
  {
    AlwaysPreloading(cfg, es);
  }

  lemma CachesStay(cfg: Config, st: State, e: Event)
    ensures var st' := Step(cfg, st, e);
            && (st.meta.Some? ==> st'.meta.Some?)
            && (st.config.Some? ==> st'.config.Some?)
            && (st.key.Some? ==> st'.key.Some?)
  {
  }

  lemma StuckViewerStays(cfg: Config, st: State, e: Event, h: Handle)
    requires Wired(st) && h in st.pool && !CanGoOn(cfg, st, h)
    ensures h in Step(cfg, st, e).pool && Step(cfg, st, e).pool[h] == st.pool[h]
  {
    assert !st.pool[h].stage.Done? && !Registered(st, h);
  }

  lemma StepKeepsStuck(cfg: Config, st: State, e: Event, h: Handle)
    requires Wired(st) && h in st.pool && !CanGoOn(cfg, st, h)
    ensures h in Step(cfg, st, e).pool && !CanGoOn(cfg, Step(cfg, st, e), h)
  {
    StuckViewerStays(cfg, st, e, h);
    CachesStay(cfg, st, e);
  }

  /** A Subscribe call that cannot go on never will: its caller does not have the channel yet, so
      nobody drains it. */
  lemma {:induction false} StuckForever(cfg: Config, es: seq<Event>, more: seq<Event>, h: Handle)
    requires h in Run(cfg, es).pool && !CanGoOn(cfg, Run(cfg, es), h)
    ensures h in Run(cfg, es + more).pool && !CanGoOn(cfg, Run(cfg, es + more), h)
    decreases |more|
  {
    if more == [] {
      assert es + more == es;
    } else {
      var n := |more| - 1;
      assert es + more == es + more[..n] + [more[n]];
      StuckForever(cfg, es, more[..n], h);
      RunSnoc(cfg, es + more[..n], more[n]);
      AlwaysWired(cfg, es + more[..n]);
      StepKeepsStuck(cfg, Run(cfg, es + more[..n]), more[n], h);
    }
  }

  /** The hub learns metadata, a configuration packet and a key frame; then somebody subscribes. */
  function FullPreload(m: Msg, f: Frame, id: Id): seq<Event> {
    [SetMeta(m), Publish(Some(f)), Dequeue, StoreConfig, StoreKey, Begin(0, id), LoadMeta(0), LoadConfig(0)]
  }

  lemma OneMore(cfg: Config, es: seq<Event>, k: nat)
    requires k < |es|
    ensures Run(cfg, es[..k + 1]) == Step(cfg, Run(cfg, es[..k]), es[k])
  {
    RunSnoc(cfg, es[..k], es[k]);
    assert es[..k] + [es[k]] == es[..k + 1];
  }

  lemma CachesFill(cfg: Config, m: Msg, f: Frame, id: Id)
    requires f.configPacket && f.keyFrame
    ensures Run(cfg, FullPreload(m, f, id)[..5]) == State([], 1, Some(m), Some(f), Some(f), Snapping(f), map[], map[])
  {
    var es := FullPreload(m, f, id);
    assert es[..0] == [];
    OneMore(cfg, es, 0);
    OneMore(cfg, es, 1);
    OneMore(cfg, es, 2);
    assert Run(cfg, es[..3]) == State([], 1, Some(m), None, None, Storing(f), map[], map[]);
    OneMore(cfg, es, 3);
    OneMore(cfg, es, 4);
  }

  /** With fewer slots than three the third message of a full preload finds no room, or one before it. */
  lemma FullPreloadBlocks(cfg: Config, m: Msg, f: Frame, id: Id)
    requires cfg.bufFrames < 3 && f.configPacket && f.keyFrame
    ensures var st := Run(cfg, FullPreload(m, f, id));
            0 in st.pool && !CanGoOn(cfg, st, 0)
  {
    var es := FullPreload(m, f, id);
    CachesFill(cfg, m, f, id);
    OneMore(cfg, es, 5);
    OneMore(cfg, es, 6);
    OneMore(cfg, es, 7);
    assert es[..8] == es;
    PreloadStops(cfg, Run(cfg, es[..5]), id);
  }

  lemma PreloadStops(cfg: Config, st: State, id: Id)
    requires cfg.bufFrames < 3 && st.pool == map[] && st.meta.Some? && st.config.Some? && st.key.Some?
    ensures var st' := Step(cfg, Step(cfg, Step(cfg, st, Begin(0, id)), LoadMeta(0)), LoadConfig(0));
            0 in st'.pool && !CanGoOn(cfg, st', 0)
  {
    var st1 := Step(cfg, st, Begin(0, id));
    assert st1.pool[0] == Viewer(AtMeta, Sub(id, [], false, 0, false));
    var st2 := Step(cfg, st1, LoadMeta(0));
    if cfg.bufFrames > 0 {
      assert st2.pool[0].stage.AtConfig? && |st2.pool[0].sub.buf| == 1;
    }
  }

  /** So three slots are exactly what it takes for no Subscribe call ever to be stuck. */
  lemma {:induction false} SubscribeNeverBlocksIff(cfg: Config)
    ensures cfg.bufFrames >= 3 <==>
            forall es: seq<Event>, h: Handle | h in Run(cfg, es).pool :: CanGoOn(cfg, Run(cfg, es), h)
  {
    if cfg.bufFrames >= 3 {
      forall es: seq<Event>, h: Handle | h in Run(cfg, es).pool ensures CanGoOn(cfg, Run(cfg, es), h) {
        SubscribeNeverBlocks(cfg, es, h);
      }
    } else {
      FullPreloadBlocks(cfg, [], Frame([], [], true, true), "");
      assert 0 in Run(cfg, FullPreload([], Frame([], [], true, true), "")).pool;
    }
  }
}
