/**
 The hub itself (internal/session/hub.go): its queue, caches and viewer map are fields that its
 methods change, each method one step or one uninterrupted sequence of steps of the state machine
 in Hub. The trace records the steps, so what is proved about runs holds of the object.
 */
module HubObject {
  import opened Wrappers
  import opened Frames
  import opened Fanout
  import opened Subscribers
  import opened Hub
  import HubDelivery

  class FanoutHub {
    const bufFrames: nat
    const maxConsecutiveDrops: nat
    var frameCount: nat
    var inq: seq<Option<Frame>>
    var metaCache: Option<Msg>
    var configCache: Option<Frame>
    var keyframeCache: Option<Frame>
    var viewers: map<Id, Subscriber<Msg>>
    ghost var pool: map<Handle, Subscriber<Msg>>    // every viewer ever made
    ghost var now: State                            // the abstract state that the fields stand for
    ghost var trace: seq<Event>                     // the steps so far

    ghost function Cfg(): Config {
      Config(bufFrames, maxConsecutiveDrops)
    }

    ghost predicate FieldsShow(st: State)
      reads this`inq, this`frameCount, this`metaCache, this`configCache, this`keyframeCache
    {
      && inq == st.inq && frameCount == st.frameCount
      && metaCache == st.meta && configCache == st.config && keyframeCache == st.key
    }

    /** The map and the viewer objects stand for the abstract ones. */
    ghost predicate ViewersShow(st: State)
      reads this`viewers, this`pool, pool.Values
    {
      && pool.Keys == st.pool.Keys
      && (forall h | h in pool :: pool[h].handle == h && pool[h].Value() == st.pool[h].sub)
      && viewers.Keys == st.viewers.Keys
      && (forall id | id in viewers :: st.viewers[id] in pool && pool[st.viewers[id]] == viewers[id])
    }

    ghost predicate Tracks()
      reads this`now, this`trace
    {
      now == Run(Cfg(), trace)
    }

    ghost predicate Valid()
      reads this, pool.Values
    {
      FieldsShow(now) && ViewersShow(now) && Tracks()
    }

    /** The constructor's caller has made sure that both limits are positive. */
    constructor (bufFrames: nat, maxConsecutiveDrops: nat)
      requires bufFrames > 0 && maxConsecutiveDrops > 0
      ensures Valid() && trace == [] && Cfg() == Config(bufFrames, maxConsecutiveDrops)
    {
      this.bufFrames, this.maxConsecutiveDrops := bufFrames, maxConsecutiveDrops;
      frameCount, inq, metaCache, configCache, keyframeCache := 0, [], None, None, None;
      viewers, pool, now, trace := map[], map[], INIT, [];
    }

    /** Records a step that the fields have already taken. */
    ghost method Commit(e: Event)
      requires Tracks() && FieldsShow(Step(Cfg(), now, e)) && ViewersShow(Step(Cfg(), now, e))
      modifies this`now, this`trace
      ensures Valid() && trace == old(trace) + [e] && now == Step(Cfg(), old(now), e)
    {
      ghost var next := Step(Cfg(), now, e);
      assert next == Run(Cfg(), trace + [e]) by {
        RunSnoc(Cfg(), trace, e);
      }
      now, trace := next, trace + [e];
      assert FieldsShow(next) && ViewersShow(next);
    }

    // -------------------------------------------------------------- producer

    /** Counts every call, then enqueues without blocking; false says that the frame was dropped. */
    method PublishFrame(f: Option<Frame>) returns (ok: bool)
      requires Valid()
      modifies this`frameCount, this`inq, this`now, this`trace
      ensures Valid() && trace == old(trace) + [Publish(f)] && frameCount == old(frameCount) + 1
      ensures inq == if |old(inq)| < 16 then old(inq) + [f] else old(inq)
      ensures ok <==> inq != old(inq)
    {
      frameCount := frameCount + 1;
      ok := |inq| < IN_CAPACITY;
      if ok {
        inq := inq + [f];
      }
      Commit(Publish(f));
    }

    method SetCodecMeta(meta: Msg)
      requires Valid()
      modifies this`metaCache, this`now, this`trace
      ensures Valid() && trace == old(trace) + [SetMeta(meta)] && metaCache == Some(meta)
    {
      metaCache := Some(meta);
      Commit(SetMeta(meta));
    }

    // -------------------------------------------------------------- viewers

    method NewViewer(id: Id, ghost h: Handle) returns (v: Subscriber<Msg>)
      requires Valid() && h !in pool
      modifies this`pool, this`now, this`trace
      ensures Valid() && fresh(v) && v.handle == h && v.id == id && pool == old(pool)[h := v]
      ensures trace == old(trace) + [Begin(h, id)] && InStage(now, h, AtMeta) && v.send == []
    {
      v := new Subscriber<Msg>(id, h);
      pool := pool[h := v];
      Commit(Begin(h, id));
    }

    ghost predicate Mine(v: Subscriber<Msg>)
      reads this
    {
      v.handle in pool && pool[v.handle] == v
    }

    method SetSend(v: Subscriber<Msg>, buf: seq<Msg>, ghost w: Viewer)
      requires ViewersShow(now) && Mine(v) && w.sub == now.pool[v.handle].sub.(buf := buf)
      modifies v`send
      ensures ViewersShow(SetViewer(now, v.handle, w)) && v.send == buf
    {
      v.send := buf;
    }

    /** A blocking send of what the cache holds. The answer is false when there is no room for it:
        then the send waits, and as nobody else has the channel yet it waits for ever. */
    method Preload(v: Subscriber<Msg>, ghost e: Event, m: Option<Msg>) returns (ok: bool)
      requires Valid() && Mine(v) && LoadsAt(now, e, v.handle) && m == Cached(now, e)
      modifies v`send, this`now, this`trace
      ensures Valid() && trace == old(trace) + (if ok then [e] else [])
      ensures ok ==> InStage(now, v.handle, NextStage(e))
      ensures !ok ==> v.handle in now.pool && !CanGoOn(Cfg(), now, v.handle)
    {
      assert v.send == now.pool[v.handle].sub.buf;
      if m.Some? && |v.send| >= bufFrames {
        assert trace + [] == trace;
        return false;
      }
      ghost var w := LoadIsStep(Cfg(), now, e, v.handle);
      if m.Some? {
        SetSend(v, v.send + [m.value], w);
      }
      Commit(e);
      ok := true;
    }

    method AddToBroadcastSet(v: Subscriber<Msg>)
      requires Valid() && Mine(v) && InStage(now, v.handle, AtRegister)
      modifies this`viewers, this`now, this`trace
      ensures Valid() && trace == old(trace) + [Register(v.handle)] && InStage(now, v.handle, Done)
      ensures viewers == old(viewers)[v.id := v]
    {
      RegisterIsStep(Cfg(), now, v.handle);
      viewers := viewers[v.id := v];
      Commit(Register(v.handle));
    }

    method WireOf(f: Option<Frame>) returns (m: Option<Msg>)
      ensures m == if f.None? then None else Some(WireBytes(f.value))
    {
      if f.None? {
        return None;
      }
      var out := BuildWireBytes(f.value);
      m := Some(out);
    }

    method PreloadMeta(v: Subscriber<Msg>) returns (ok: bool)
      requires Valid() && Mine(v) && InStage(now, v.handle, AtMeta)
      modifies v`send, this`now, this`trace
      ensures Valid() && trace == old(trace) + (if ok then [LoadMeta(v.handle)] else [])
      ensures if ok then InStage(now, v.handle, AtConfig) else v.handle in now.pool && !CanGoOn(Cfg(), now, v.handle)
    {
      ok := Preload(v, LoadMeta(v.handle), metaCache);
    }

    method PreloadConfig(v: Subscriber<Msg>) returns (ok: bool)
      requires Valid() && Mine(v) && InStage(now, v.handle, AtConfig)
      modifies v`send, this`now, this`trace
      ensures Valid() && trace == old(trace) + (if ok then [LoadConfig(v.handle)] else [])
      ensures if ok then InStage(now, v.handle, AtKey) else v.handle in now.pool && !CanGoOn(Cfg(), now, v.handle)
    {
      var m := WireOf(configCache);
      ok := Preload(v, LoadConfig(v.handle), m);
    }

    method PreloadKeyframe(v: Subscriber<Msg>) returns (ok: bool)
      requires Valid() && Mine(v) && InStage(now, v.handle, AtKey)
      modifies v`send, this`now, this`trace
      ensures Valid() && trace == old(trace) + (if ok then [LoadKey(v.handle)] else [])
      ensures if ok then InStage(now, v.handle, AtRegister) else v.handle in now.pool && !CanGoOn(Cfg(), now, v.handle)
    {
      var m := WireOf(keyframeCache);
      ok := Preload(v, LoadKey(v.handle), m);
    }

    /** The three loads, as many of them as there is room for. */
    method PreloadCaches(v: Subscriber<Msg>) returns (ok: bool, ghost k: nat)
      requires Valid() && Mine(v) && InStage(now, v.handle, AtMeta)
      modifies v`send, this`now, this`trace
      ensures Valid() && trace == old(trace) + Loads(v.handle, k) && (ok <==> k == 3)
      ensures if ok then InStage(now, v.handle, AtRegister) else v.handle in now.pool && !CanGoOn(Cfg(), now, v.handle)
    {
      k := 0;
      ok := PreloadMeta(v);
      if ok {
        LoadsMore(old(trace), v.handle, 0);
        ok, k := PreloadFrames(v, old(trace));
      }
    }

    /** The second and the third load. */
    method PreloadFrames(v: Subscriber<Msg>, ghost t: seq<Event>) returns (ok: bool, ghost k: nat)
      requires Valid() && Mine(v) && InStage(now, v.handle, AtConfig) && trace == t + Loads(v.handle, 1)
      modifies v`send, this`now, this`trace
      ensures Valid() && trace == t + Loads(v.handle, k) && (ok <==> k == 3)
      ensures if ok then InStage(now, v.handle, AtRegister) else v.handle in now.pool && !CanGoOn(Cfg(), now, v.handle)
    {
      k := 1;
      ok := PreloadConfig(v);
      if !ok {
        return;
      }
      LoadsMore(t, v.handle, 1);
      k := 2;
      ok := PreloadKeyframe(v);
      if ok {
        LoadsMore(t, v.handle, 2);
        k := 3;
      }
    }

    /** A new viewer and its preload, which is stuck for ever when there is no room for it. */
    method Enter(id: Id, ghost h: Handle) returns (v: Subscriber<Msg>, ok: bool, ghost k: nat)
      requires Valid() && h !in pool
      modifies this`pool, this`now, this`trace
      ensures Valid() && fresh(v) && v.handle == h && pool == old(pool)[h := v]
      ensures trace == old(trace) + [Begin(h, id)] + Loads(h, k) && (ok <==> k == 3)
      ensures if ok then InStage(now, h, AtRegister) else h in now.pool && !CanGoOn(Cfg(), now, h)
    {
      v := NewViewer(id, h);
      ok, k := PreloadCaches(v);
    }

    lemma StuckIsShort(h: Handle)
      requires Tracks() && h in now.pool && !CanGoOn(Cfg(), now, h)
      ensures bufFrames < 3
    {
      if bufFrames >= 3 {
        SubscribeNeverBlocks(Cfg(), trace, h);
      }
    }

    /** Metadata, configuration packet and key frame go into the channel before the viewer is
        added to the broadcast set. The call does not return if one of them finds no room. */
    method Subscribe(id: Id, ghost h: Handle) returns (v: Subscriber<Msg>, returned: bool, ghost k: nat)
      requires Valid() && h !in pool
      modifies this`pool, this`viewers, this`now, this`trace
      ensures Valid() && fresh(v) && v.handle == h && pool == old(pool)[h := v] && (returned <==> k == 3)
      ensures trace == old(trace) + [Begin(h, id)] + Loads(h, k) + (if returned then [Register(h)] else [])
      ensures if returned then InStage(now, h, Done) else h in now.pool && !CanGoOn(Cfg(), now, h)
      ensures bufFrames >= 3 ==> returned
    {
      v, returned, k := Enter(id, h);
      if !returned {
        StuckIsShort(h);
        assert trace + [] == trace;
        return;
      }
      AddToBroadcastSet(v);
    }

    /** Takes the viewer out of the map unless a newer one has its place; never closes. */
    method Unsub(v: Subscriber<Msg>)
      requires Valid() && Mine(v) && InStage(now, v.handle, Done)
      modifies this`viewers, this`now, this`trace
      ensures Valid() && trace == old(trace) + [Unsubscribe(v.handle)]
      ensures viewers == if v.id in old(viewers) && old(viewers)[v.id] == v then old(viewers) - {v.id} else old(viewers)
    {
      TakeOut(v);
      Commit(Unsubscribe(v.handle));
    }

    method TakeOut(v: Subscriber<Msg>)
      requires ViewersShow(now) && Mine(v)
      modifies this`viewers
      ensures viewers == if v.id in old(viewers) && old(viewers)[v.id] == v then old(viewers) - {v.id} else old(viewers)
      ensures ViewersShow(if Registered(now, v.handle) then now.(viewers := now.viewers - {v.id}) else now)
    {
      RegisteredIs(v);
      if v.id in viewers && viewers[v.id] == v {
        viewers := viewers - {v.id};
      }
    }

    method ReceiveMsg(v: Subscriber<Msg>) returns (m: Msg)
      requires Valid() && Mine(v) && InStage(now, v.handle, Done) && v.send != []
      modifies v`send, this`now, this`trace
      ensures Valid() && trace == old(trace) + [Receive(v.handle)] && old(v.send) == [m] + v.send
    {
      m := v.send[0];
      assert v.send == [m] + v.send[1..];
      ghost var w := ReceiveIsStep(Cfg(), now, v.handle);
      SetSend(v, v.send[1..], w);
      Commit(Receive(v.handle));
    }

    /** The channel of a viewer object holds the rest of its stream: what its reader took before
        and what is in the channel are the preload and then fanned-out frames in order. */
    lemma Delivered(v: Subscriber<Msg>)
      requires Valid() && Mine(v)
      ensures var t, fs := HubDelivery.TrailOf(Cfg(), trace, v.handle), HubDelivery.Fanned(Cfg(), trace);
              && Within(t.kept, t.since, |fs|)
              && t.taken + v.send == HubDelivery.Preload(t) + Pick(HubDelivery.Images(fs), t.kept)
    {
      HubDelivery.DeliveredStream(Cfg(), trace, v.handle);
      assert v.send == v.Value().buf;
    }

    // -------------------------------------------------------------- the hub's goroutine

    method TakeFrame() returns (f: Option<Frame>)
      requires Valid() && now.pc.Idle? && inq != []
      modifies this`inq, this`now, this`trace
      ensures Valid() && trace == old(trace) + [Dequeue]
      ensures now.pc == (if f.None? then Idle else Storing(f.value)) && old(inq) == [f] + inq
    {
      f := inq[0];
      inq := inq[1..];
      Commit(Dequeue);
    }

    method UpdateConfig(f: Frame)
      requires Valid() && now.pc == Storing(f)
      modifies this`configCache, this`now, this`trace
      ensures Valid() && trace == old(trace) + [StoreConfig] && now.pc == StoringKey(f)
      ensures configCache == if f.configPacket then Some(f) else old(configCache)
    {
      if f.configPacket {
        configCache := Some(f);
      }
      Commit(StoreConfig);
    }

    method UpdateKeyframe(f: Frame)
      requires Valid() && now.pc == StoringKey(f)
      modifies this`keyframeCache, this`now, this`trace
      ensures Valid() && trace == old(trace) + [StoreKey] && now.pc == Snapping(f)
      ensures keyframeCache == if f.keyFrame then Some(f) else old(keyframeCache)
    {
      if f.keyFrame {
        keyframeCache := Some(f);
      }
      Commit(StoreKey);
    }

    method TakeSnapshot(f: Frame) returns (snap: set<Subscriber<Msg>>)
      requires Valid() && now.pc == Snapping(f)
      modifies this`now, this`trace
      ensures Valid() && trace == old(trace) + [Snapshot]
      ensures now.pc.Sending? && now.pc.frame == f && Snapped(snap) && snap == viewers.Values
    {
      snap := viewers.Values;
      Commit(Snapshot);
    }

    /** The objects in snap are the viewers still to be served. */
    ghost predicate Snapped(snap: set<Subscriber<Msg>>)
      reads this
      requires now.pc.Sending?
    {
      && (forall v | v in snap :: Mine(v) && v.handle in now.pc.todo)
      && (forall h | h in now.pc.todo :: h in pool && pool[h] in snap)
    }

    /** Marks the viewer, takes it out of the map if it is the one there, and closes its channel. */
    method Evict(v: Subscriber<Msg>)
      requires !v.evicted
      modifies v`evicted, v`sendClosed, this`viewers
      ensures v.evicted && v.sendClosed
      ensures viewers == if v.id in old(viewers) && old(viewers)[v.id] == v then old(viewers) - {v.id} else old(viewers)
    {
      v.evicted := true;
      if v.id in viewers && viewers[v.id] == v {
        viewers := viewers - {v.id};
      }
      v.sendClosed := true;
    }

    /** The non-blocking send with drop accounting, and the eviction that may follow. */
    method Deliver(v: Subscriber<Msg>, msg: Msg)
      modifies v, this`viewers
      ensures v.Value() == Offer(bufFrames, maxConsecutiveDrops, old(v.Value()), msg)
      ensures viewers == if v.evicted && !old(v.evicted) && v.id in old(viewers) && old(viewers)[v.id] == v
                         then old(viewers) - {v.id} else old(viewers)
    {
      if v.evicted {
        return;
      }
      var over := v.TrySend(bufFrames, maxConsecutiveDrops, msg);
      if over {
        Evict(v);
      }
    }

    lemma RegisteredIs(v: Subscriber<Msg>)
      requires ViewersShow(now) && Mine(v)
      ensures Registered(now, v.handle) <==> v.id in viewers && viewers[v.id] == v
    {
    }

    method DeliverTo(v: Subscriber<Msg>, msg: Msg)
      requires ViewersShow(now) && Mine(v) && Pending(v.handle) && msg == WireBytes(now.pc.frame)
      modifies v, this`viewers
      ensures ViewersShow(Served(Cfg(), now, v.handle))
    {
      RegisteredIs(v);
      ghost var sub, gone := ServedParts(Cfg(), now, v.handle);
      Deliver(v, msg);
    }

    method OfferTo(v: Subscriber<Msg>, msg: Msg)
      requires Valid() && Mine(v) && Pending(v.handle) && msg == WireBytes(now.pc.frame)
      modifies v, this`viewers, this`now, this`trace
      ensures Valid() && trace == old(trace) + [OfferNext(v.handle)]
      ensures now.pc == Sending(old(now).pc.frame, old(now).pc.todo - {v.handle})
    {
      AlwaysWired(Cfg(), trace);
      ServedIsStep(Cfg(), now, v.handle);
      DeliverTo(v, msg);
      Commit(OfferNext(v.handle));
    }

    ghost predicate Pending(h: Handle)
      reads this
    {
      now.pc.Sending? && h in now.pc.todo
    }

    method OfferOne(rest: set<Subscriber<Msg>>, v: Subscriber<Msg>, msg: Msg)
      requires Valid() && now.pc.Sending? && Snapped(rest) && v in rest && msg == WireBytes(now.pc.frame)
      modifies v, this`viewers, this`now, this`trace
      ensures Valid() && trace == old(trace) + [OfferNext(v.handle)]
      ensures now.pc.Sending? && now.pc.frame == old(now).pc.frame && Snapped(rest - {v})
    {
      OfferTo(v, msg);
    }

    /** Offers the message to every viewer of the snapshot once, in whatever order. */
    method FanOut(snap: set<Subscriber<Msg>>, msg: Msg) returns (ghost order: seq<Handle>)
      requires Valid() && now.pc.Sending? && Snapped(snap) && msg == WireBytes(now.pc.frame)
      modifies pool.Values, this`viewers, this`now, this`trace
      ensures Valid() && trace == old(trace) + Offers(order)
      ensures now.pc == Sending(old(now).pc.frame, {})
    {
      order := [];
      var rest := snap;
      assert trace == old(trace) + Offers(order);
      while rest != {}
        invariant Valid() && now.pc.Sending? && Snapped(rest)
        invariant now.pc.frame == old(now).pc.frame
        invariant trace == old(trace) + Offers(order)
      {
        var v :| v in rest;
        OfferOne(rest, v, msg);
        rest := rest - {v};
        OffersSnoc(old(trace), order, v.handle);
        order := order + [v.handle];
      }
    }

    ghost method Finish()
      requires Valid() && now.pc.Sending? && now.pc.todo == {}
      modifies this`now, this`trace
      ensures Valid() && trace == old(trace) + [FinishFrame] && now.pc.Idle?
    {
      Commit(FinishFrame);
    }

    /** A frame in hand: the caches, the snapshot and the fan-out. */
    method Serve(f: Frame) returns (ghost order: seq<Handle>)
      requires Valid() && now.pc == Storing(f)
      modifies this`configCache, this`keyframeCache, this`viewers, this`now, this`trace, pool.Values
      ensures Valid() && now.pc.Idle?
      ensures trace == old(trace) + [StoreConfig] + [StoreKey] + [Snapshot] + Offers(order) + [FinishFrame]
    {
      UpdateConfig(f);
      UpdateKeyframe(f);
      order := ServeAll(f);
    }

    method ServeAll(f: Frame) returns (ghost order: seq<Handle>)
      requires Valid() && now.pc == Snapping(f)
      modifies this`viewers, this`now, this`trace, pool.Values
      ensures Valid() && now.pc.Idle?
      ensures trace == old(trace) + [Snapshot] + Offers(order) + [FinishFrame]
    {
      var msg := BuildWireBytes(f);
      var snap := TakeSnapshot(f);
      order := FanOut(snap, msg);
      Finish();
    }

    /** One turn of the loop on a frame from the queue; a nil frame is skipped. */
    method HandleNext() returns (ghost order: seq<Handle>)
      requires Valid() && now.pc.Idle? && inq != []
      modifies this`inq, this`configCache, this`keyframeCache, this`viewers, this`now, this`trace, pool.Values
      ensures Valid() && now.pc.Idle?
      ensures trace == if old(inq)[0].None? then old(trace) + [Dequeue]
                       else old(trace) + [Dequeue] + [StoreConfig] + [StoreKey] + [Snapshot] + Offers(order)
                            + [FinishFrame]
    {
      order := [];
      var f := TakeFrame();
      if f.Some? {
        order := Serve(f.value);
      }
    }

    /** Closes one registered viewer and takes it out of the map. */
    method CloseOne(id: Id, ghost mid: State)
      requires ViewersShow(mid) && id in viewers && mid.pool[mid.viewers[id]].sub.id == id
      modifies this`viewers, viewers[id]
      ensures ViewersShow(CutOne(mid, mid.viewers[id])) && viewers == old(viewers) - {id}
    {
      viewers[id].CloseOnce();
      viewers := viewers - {id};
    }

    method CloseNext(id: Id, ghost st: State, ghost mid: State, ghost ids: set<Id>) returns (ghost mid': State)
      requires Wired(st) && ViewersShow(mid) && Closing(st, ids, mid) && id in ids && id in viewers
      modifies this`viewers, viewers[id]
      ensures ViewersShow(mid') && Closing(st, ids - {id}, mid') && viewers == old(viewers) - {id}
    {
      CutOneMore(st, ids, mid, id);
      CloseOne(id, mid);
      mid' := CutOne(mid, mid.viewers[id]);
    }

    method CloseLoop(ghost st: State) returns (ghost mid: State)
      requires ViewersShow(st) && Wired(st)
      modifies this`viewers, pool.Values
      ensures ViewersShow(mid) && Closing(st, {}, mid) && viewers == map[]
    {
      mid := st;
      var ids := viewers.Keys;
      while ids != {}
        invariant ViewersShow(mid) && Closing(st, ids, mid) && viewers.Keys == ids
      {
        var id :| id in ids;
        mid := CloseNext(id, st, mid, ids);
        ids := ids - {id};
      }
    }

    method CloseAll()
      requires Valid() && now.pc.Idle?
      modifies this`viewers, pool.Values
      ensures FieldsShow(Step(Cfg(), now, Cancel)) && ViewersShow(Step(Cfg(), now, Cancel)) && viewers == map[]
    {
      AlwaysWired(Cfg(), trace);
      ghost var mid := CloseLoop(now);
      AllCut(Cfg(), now, mid);
    }

    /** The deferred shutdown when the context is cancelled. */
    method Shutdown()
      requires Valid() && now.pc.Idle?
      modifies this`viewers, this`now, this`trace, pool.Values
      ensures Valid() && trace == old(trace) + [Cancel] && viewers == map[]
    {
      CloseAll();
      Commit(Cancel);
    }
  }

  lemma ReceiveIsStep(cfg: Config, st: State, h: Handle) returns (w: Viewer)
    requires Enabled(cfg, st, Receive(h))
    ensures Step(cfg, st, Receive(h)) == SetViewer(st, h, w)
    ensures w.sub == st.pool[h].sub.(buf := st.pool[h].sub.buf[1..])
  {
    w := st.pool[h].(sub := st.pool[h].sub.(buf := st.pool[h].sub.buf[1..]));
  }

  predicate LoadsAt(st: State, e: Event, h: Handle) {
    match e
    case LoadMeta(h') => h' == h && InStage(st, h, AtMeta)
    case LoadConfig(h') => h' == h && InStage(st, h, AtConfig)
    case LoadKey(h') => h' == h && InStage(st, h, AtKey)
    case _ => false
  }

  function NextStage(e: Event): Stage {
    match e
    case LoadMeta(_) => AtConfig
    case LoadConfig(_) => AtKey
    case _ => AtRegister
  }

  /** The first k loads of a Subscribe call. */
  function Loads(h: Handle, k: nat): seq<Event> {
    if k == 0 then [] else
    Loads(h, k - 1) + [if k == 1 then LoadMeta(h) else if k == 2 then LoadConfig(h) else LoadKey(h)]
  }

  lemma LoadsMore(t: seq<Event>, h: Handle, k: nat)
    ensures t + Loads(h, k) + [if k == 0 then LoadMeta(h) else if k == 1 then LoadConfig(h) else LoadKey(h)]
            == t + Loads(h, k + 1)
    ensures t + Loads(h, 0) == t
  {
  }

  lemma LoadIsStep(cfg: Config, st: State, e: Event, h: Handle) returns (w: Viewer)
    requires LoadsAt(st, e, h) && Enabled(cfg, st, e)
    ensures Step(cfg, st, e) == SetViewer(st, h, w) && w.stage == NextStage(e)
    ensures var m, sub := Cached(st, e), st.pool[h].sub;
            w.sub == if m.None? then sub else sub.(buf := sub.buf + [m.value])
  {
    w := Step(cfg, st, e).pool[h];
  }

  lemma RegisterIsStep(cfg: Config, st: State, h: Handle)
    requires InStage(st, h, AtRegister)
    ensures Step(cfg, st, Register(h)) ==
            SetViewer(st, h, st.pool[h].(stage := Done)).(viewers := st.viewers[st.pool[h].sub.id := h])
  {
  }

  lemma ServedParts(cfg: Config, st: State, h: Handle) returns (sub: Sub<Msg>, gone: bool)
    requires h in st.pool && st.pc.Sending?
    ensures sub == Offer(cfg.bufFrames, cfg.maxDrops, st.pool[h].sub, WireBytes(st.pc.frame))
    ensures gone <==> sub.evicted && !st.pool[h].sub.evicted && Registered(st, h)
    ensures Served(cfg, st, h).pool == st.pool[h := st.pool[h].(sub := sub)]
    ensures Served(cfg, st, h).viewers == if gone then st.viewers - {st.pool[h].sub.id} else st.viewers
  {
    sub := Served(cfg, st, h).pool[h].sub;
    gone := sub.evicted && !st.pool[h].sub.evicted && Registered(st, h);
  }

  lemma ServedIsStep(cfg: Config, st: State, h: Handle)
    requires Wired(st) && st.pc.Sending? && h in st.pc.todo
    ensures h in st.pool && Step(cfg, st, OfferNext(h)) == Served(cfg, st, h)
  {
  }

  /** The closing of one registered viewer. */
  function CutOne(st: State, h: Handle): State
    requires h in st.pool
  {
    var v := st.pool[h];
    var sub := if v.sub.evicted then v.sub else v.sub.(evicted := true, closed := true);
    st.(pool := st.pool[h := v.(sub := sub)], viewers := st.viewers - {st.pool[h].sub.id})
  }

  /** All viewers registered in st have been closed and taken out but those with an id in ids. */
  ghost predicate Closing(st: State, ids: set<Id>, mid: State) {
    && mid == st.(pool := mid.pool, viewers := mid.viewers)
    && mid.pool.Keys == st.pool.Keys
    && (forall h | h in st.pool :: mid.pool[h] == if st.pool[h].sub.id in ids then st.pool[h] else Cut(st, h))
    && mid.viewers.Keys == ids && ids <= st.viewers.Keys
    && (forall id | id in mid.viewers :: mid.viewers[id] == st.viewers[id])
  }

  lemma CutOneMore(st: State, ids: set<Id>, mid: State, id: Id)
    requires Wired(st) && Closing(st, ids, mid) && id in ids
    ensures Registered(mid, st.viewers[id])
    ensures Closing(st, ids - {id}, CutOne(mid, st.viewers[id]))
  {
  }

  /** Whatever the order, in the end the viewers are as the shutdown's one step leaves them. */
  lemma AllCut(cfg: Config, st: State, mid: State)
    requires Closing(st, {}, mid) && st.pc.Idle?
    ensures Step(cfg, st, Cancel) == mid.(pc := Exited)
  {
  }

  function Offers(order: seq<Handle>): (r: seq<Event>)
    ensures |r| == |order| && forall i | 0 <= i < |r| :: r[i] == OfferNext(order[i])
  {
    seq(|order|, i requires 0 <= i < |order| => OfferNext(order[i]))
  }

  lemma OffersSnoc(t: seq<Event>, order: seq<Handle>, h: Handle)
    ensures t + Offers(order) + [OfferNext(h)] == t + Offers(order + [h])
  {
  }
}
