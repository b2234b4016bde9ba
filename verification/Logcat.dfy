/**
 The logcat buffer as a state machine (internal/session/logcat_buffer.go). Every operation of the
 buffer holds its lock from start to end, so each is one step. A reader takes a line from its channel
 without the lock and may do so while an append is telling the subscribers; as this commutes with
 what the others are told (ReceiveCommutes), it is as good as done before or after the append.
 */
module Logcat {
  import opened Fanout

  type Line = string

  datatype Config = Config(capacity: nat, chanSize: nat, limit: nat)

  /** All lines ever accepted, the registered subscribers by id, and every subscriber ever made. */
  datatype State = State(history: seq<Line>, closed: bool, subs: map<Id, Handle>, pool: map<Handle, Sub<Line>>)

  datatype Event =
    | Append(line: Line)
    | Subscribe(h: Handle, id: Id)
    | Unsubscribe(h: Handle)
    | Receive(h: Handle)
    | Shutdown

  const INIT := State([], false, map[], map[])

  /** The last n lines. */
  function Last(history: seq<Line>, n: nat): seq<Line> {
    if |history| <= n then history else history[|history| - n..]
  }

  predicate Registered(st: State, h: Handle) {
    h in st.pool && st.pool[h].id in st.subs && st.subs[st.pool[h].id] == h
  }

  /** A subscriber is made once, and a receive finds a line. */
  predicate Enabled(st: State, e: Event) {
    match e
    case Subscribe(h, _) => h !in st.pool
    case Unsubscribe(h) => h in st.pool
    case Receive(h) => h in st.pool && st.pool[h].buf != []
    case _ => true
  }

  function Told(cfg: Config, st: State, line: Line, h: Handle): Sub<Line>
    requires h in st.pool
  {
    if Registered(st, h) then Offer(cfg.chanSize, cfg.limit, st.pool[h], line) else st.pool[h]
  }

  /** The registrations of the subscribers that were not cut off. */
  function Staying(subs: map<Id, Handle>, pool: map<Handle, Sub<Line>>): map<Id, Handle> {
    map id | id in subs && !(subs[id] in pool && pool[subs[id]].evicted) :: subs[id]
  }

  function Cut(st: State, h: Handle): Sub<Line>
    requires h in st.pool
  {
    var v := st.pool[h];
    if Registered(st, h) && !v.evicted then v.(evicted := true, closed := true) else v
  }

  /** One operation; an event that is not possible leaves the state as it is. */
  function Step(cfg: Config, st: State, e: Event): State {
    if !Enabled(st, e) then st else
    match e
    case Append(line) =>
      if st.closed then st else
      var pool := map h | h in st.pool :: Told(cfg, st, line, h);
      State(st.history + [line], false, Staying(st.subs, pool), pool)
    case Subscribe(h, id) =>
      st.(pool := st.pool[h := Sub(id, [], st.closed, 0, false)],
          subs := if st.closed then st.subs else st.subs[id := h])
    case Unsubscribe(h) =>
      if Registered(st, h) then st.(subs := st.subs - {st.pool[h].id}) else st
    case Receive(h) =>
      st.(pool := st.pool[h := st.pool[h].(buf := st.pool[h].buf[1..])])
    case Shutdown =>
      if st.closed then st else
      State(st.history, true, map[], map h | h in st.pool :: Cut(st, h))
  }

  // ---------------------------------------------------------------- one subscriber at a time

  /** The offer to one registered subscriber, as the append's loop makes it. */
  function TellOne(cfg: Config, st: State, line: Line, h: Handle): State
    requires Registered(st, h)
  {
    var v := Offer(cfg.chanSize, cfg.limit, st.pool[h], line);
    st.(pool := st.pool[h := v], subs := if v.evicted then st.subs - {v.id} else st.subs)
  }

  /** All subscribers registered in st have been told the line but those with an id in ids. */
  ghost predicate Partly(cfg: Config, st: State, line: Line, ids: set<Id>, now: State) {
    && now.pool.Keys == st.pool.Keys
    && (forall h | h in st.pool :: now.pool[h] == if st.pool[h].id in ids then st.pool[h] else Told(cfg, st, line, h))
    && (forall id | id in now.subs :: id in st.subs && now.subs[id] == st.subs[id])
    && (forall id | id in st.subs :: id in now.subs <==>
          id in ids || (st.subs[id] in st.pool && !Told(cfg, st, line, st.subs[id]).evicted))
  }

  lemma TellOneMore(cfg: Config, st: State, line: Line, ids: set<Id>, now: State, id: Id)
    requires Wired(st) && Partly(cfg, st, line, ids, now) && id in ids && id in st.subs
    ensures Registered(now, st.subs[id]) && !now.pool[st.subs[id]].evicted
    ensures Partly(cfg, st, line, ids - {id}, TellOne(cfg, now, line, st.subs[id]))
  {
    assert Registered(st, st.subs[id]);
    var now' := TellOne(cfg, now, line, st.subs[id]);
    forall h | h in st.pool
      ensures now'.pool[h] == if st.pool[h].id in ids - {id} then st.pool[h] else Told(cfg, st, line, h)
    {
      if st.pool[h].id == id && h != st.subs[id] {
        assert !Registered(st, h);
      }
    }
  }

  /** A reader's receive and the telling of another subscriber can be swapped. */
  lemma ReceiveCommutes(cfg: Config, st: State, line: Line, h: Handle, h': Handle)
    requires Registered(st, h) && h' != h && Enabled(st, Receive(h'))
    ensures Registered(Step(cfg, st, Receive(h')), h) && Enabled(TellOne(cfg, st, line, h), Receive(h'))
    ensures Step(cfg, TellOne(cfg, st, line, h), Receive(h')) == TellOne(cfg, Step(cfg, st, Receive(h')), line, h)
  {
    var taken := st.pool[h'].(buf := st.pool[h'].buf[1..]);
    var told := Offer(cfg.chanSize, cfg.limit, st.pool[h], line);
    assert st.pool[h := told][h' := taken] == st.pool[h' := taken][h := told];
  }

  /** Whatever the order, in the end everyone has been told and the cut-off ones are gone. */
  lemma AllTold(cfg: Config, st: State, line: Line, now: State)
    requires Wired(st) && Partly(cfg, st, line, {}, now)
    ensures now.pool == map h | h in st.pool :: Told(cfg, st, line, h)
    ensures now.subs == Staying(st.subs, now.pool)
  {
  }

  /** The closing of one registered subscriber, as the shutdown's loop makes it. */
  function CutOne(st: State, h: Handle): State
    requires Registered(st, h)
  {
    st.(pool := st.pool[h := Cut(st, h)], subs := st.subs - {st.pool[h].id})
  }

  /** All subscribers registered in st have been closed and taken out but those with an id in ids. */
  ghost predicate Closing(st: State, ids: set<Id>, now: State) {
    && now.pool.Keys == st.pool.Keys
    && (forall h | h in st.pool :: now.pool[h] == if st.pool[h].id in ids then st.pool[h] else Cut(st, h))
    && now.subs.Keys == ids && ids <= st.subs.Keys
    && (forall id | id in now.subs :: now.subs[id] == st.subs[id])
  }

  lemma CutOneMore(st: State, ids: set<Id>, now: State, id: Id)
    requires Wired(st) && Closing(st, ids, now) && id in ids
    ensures Registered(now, st.subs[id])
    ensures Closing(st, ids - {id}, CutOne(now, st.subs[id]))
  {
  }

  /** Whatever the order, in the end the subscribers are as the shutdown leaves them. */
  lemma AllCut(cfg: Config, st: State, mid: State)
    requires Closing(st, {}, mid) && !st.closed
    ensures mid.pool == Step(cfg, st, Shutdown).pool && mid.subs == map[] == Step(cfg, st, Shutdown).subs
  {
  }

  // ---------------------------------------------------------------- runs

  function Run(cfg: Config, es: seq<Event>): State {
    if es == [] then INIT else Step(cfg, Run(cfg, es[..|es| - 1]), es[|es| - 1])
  }

  lemma RunSnoc(cfg: Config, es: seq<Event>, e: Event)
    ensures Run(cfg, es + [e]) == Step(cfg, Run(cfg, es), e)
  {
  }

  /** The lines appended before the first shutdown. */
  function Appended(es: seq<Event>): seq<Line> {
    if es == [] then [] else
    var n := |es| - 1;
    Appended(es[..n]) + if es[n].Append? && Shutdown !in es[..n] then [es[n].line] else []
  }

  lemma {:induction false} HistoryIsAppended(cfg: Config, es: seq<Event>)
    ensures Run(cfg, es).history == Appended(es)
    ensures Run(cfg, es).closed <==> Shutdown in es
    decreases |es|
  {
    if es != [] {
      var n := |es| - 1;
      HistoryIsAppended(cfg, es[..n]);
      assert es == es[..n] + [es[n]];
    }
  }

  /** What happened to one subscriber: the length of the history when it subscribed, up to where
      it was told of every line, which of those lines went into its channel, how many were
      lost, and what its reader has received. */
  datatype Trail = Trail(since: nat, upto: nat, kept: seq<nat>, lost: nat, taken: seq<Line>)

  function TrailStep(cfg: Config, st: State, e: Event, h: Handle, t: Trail): Trail {
    if !Enabled(st, e) then t else
    match e
    case Subscribe(h', _) => if h' == h then Trail(|st.history|, |st.history|, [], 0, []) else t
    case Append(_) =>
      if st.closed || !Registered(st, h) then t
      else if |st.pool[h].buf| < cfg.chanSize then t.(kept := t.kept + [|st.history|], upto := |st.history| + 1)
      else t.(lost := t.lost + 1, upto := |st.history| + 1)
    case Receive(h') => if h' == h then t.(taken := t.taken + [st.pool[h].buf[0]]) else t
    case _ => t
  }

  function TrailOf(cfg: Config, es: seq<Event>, h: Handle): Trail {
    if es == [] then Trail(0, 0, [], 0, []) else
    var n := |es| - 1;
    TrailStep(cfg, Run(cfg, es[..n]), es[n], h, TrailOf(cfg, es[..n], h))
  }

  // ---------------------------------------------------------------- channels

  /** A registered subscriber is open; an evicted one is closed; after shutdown none is registered. */
  ghost predicate Wired(st: State) {
    && (forall id | id in st.subs :: st.subs[id] in st.pool && st.pool[st.subs[id]].id == id)
    && (forall h | h in st.pool && Registered(st, h) :: !st.pool[h].closed && !st.pool[h].evicted)
    && (forall h | h in st.pool && st.pool[h].evicted :: st.pool[h].closed)
    && (st.closed ==> st.subs == map[])
  }

  lemma StepKeepsWired(cfg: Config, st: State, e: Event)
    requires Wired(st)
    ensures Wired(Step(cfg, st, e))
  {
  }

  lemma {:induction false} AlwaysWired(cfg: Config, es: seq<Event>)
    ensures Wired(Run(cfg, es))
    decreases |es|
  {
    if es != [] {
      var n := |es| - 1;
      AlwaysWired(cfg, es[..n]);
      StepKeepsWired(cfg, Run(cfg, es[..n]), es[n]);
    }
  }

  /** In every run only open channels are sent to or closed; a closed one stays closed, and an
      evicted subscriber's is; a shutdown closes every registered one and leaves nobody registered. */
  lemma {:induction false} ChannelsAreSafe(cfg: Config, es: seq<Event>, e: Event, h: Handle)
    requires h in Run(cfg, es).pool
    ensures var st, st' := Run(cfg, es), Run(cfg, es + [e]);
            && h in st'.pool && (st.pool[h].closed ==> st'.pool[h].closed)
            && (|st'.pool[h].buf| > |st.pool[h].buf| ==> !st.pool[h].closed && Registered(st, h))
            && (st'.pool[h].evicted ==> st'.pool[h].closed)
            && (e.Shutdown? ==> !Registered(st', h))
            && (e.Shutdown? && Registered(st, h) ==> !st.pool[h].closed && st'.pool[h].closed)
  {
    RunSnoc(cfg, es, e);
    AlwaysWired(cfg, es);
    AlwaysWired(cfg, es + [e]);
  }

  /** A subscriber ceases to be registered only by its own unsubscription, a newer subscriber with
      its id, a shutdown, or the limit of losses in a row; the last two close its channel. */
  lemma {:induction false} LeavesOnlyFor(cfg: Config, es: seq<Event>, e: Event, h: Handle)
    requires Registered(Run(cfg, es), h) && !Registered(Run(cfg, es + [e]), h)
    ensures var st, st' := Run(cfg, es), Run(cfg, es + [e]);
            || e == Unsubscribe(h)
            || (e.Subscribe? && e.id == st.pool[h].id)
            || (e == Shutdown && st'.pool[h].closed)
            || (e.Append? && |st.pool[h].buf| >= cfg.chanSize && st.pool[h].drops + 1 >= cfg.limit
                  && st'.pool[h].closed)
  {
    RunSnoc(cfg, es, e);
    AlwaysWired(cfg, es);
  }

  /** A subscription registers the subscriber under its id and changes no other entry; after a shutdown it
      changes nobody's registration, and the new channel is closed. */
  lemma {:induction false} SubscribeRegisters(cfg: Config, es: seq<Event>, h: Handle, id: Id)
    requires h !in Run(cfg, es).pool
    ensures var st, st' := Run(cfg, es), Run(cfg, es + [Subscribe(h, id)]);
            && st'.history == st.history && h in st'.pool && st'.pool[h] == Sub(id, [], Shutdown in es, 0, false)
            && st'.subs == (if Shutdown in es then st.subs else st.subs[id := h])
            && st'.pool == st.pool[h := st'.pool[h]]
  {
    RunSnoc(cfg, es, Subscribe(h, id));
    HistoryIsAppended(cfg, es);
  }

  /** An unsubscription takes the subscriber's id out of the map exactly when the map led to it, and leaves
      every other entry and all channels as they were. */
  lemma {:induction false} UnsubscribeRemoves(cfg: Config, es: seq<Event>, h: Handle)
    requires h in Run(cfg, es).pool
    ensures var st, st' := Run(cfg, es), Run(cfg, es + [Unsubscribe(h)]);
            var id := st.pool[h].id;
            && !Registered(st', h)
            && (forall i | i in st'.subs :: i in st.subs && st'.subs[i] == st.subs[i])
            && (forall i | i in st.subs :: i in st'.subs <==> i != id || st.subs[i] != h)
            && st' == st.(subs := st'.subs)
  {
    RunSnoc(cfg, es, Unsubscribe(h));
    AlwaysWired(cfg, es);
  }

  /** A subscriber that is not registered any more never is again, and gets no line any more. */
  lemma {:induction false} GoneForGood(cfg: Config, es: seq<Event>, more: seq<Event>, h: Handle)
    requires h in Run(cfg, es).pool && !Registered(Run(cfg, es), h)
    ensures h in Run(cfg, es + more).pool && !Registered(Run(cfg, es + more), h)
    ensures |Run(cfg, es + more).pool[h].buf| <= |Run(cfg, es).pool[h].buf|
    decreases |more|
  {
    if more == [] {
      assert es + more == es;
    } else {
      var n := |more| - 1;
      assert es + more == es + more[..n] + [more[n]];
      GoneForGood(cfg, es, more[..n], h);
      RunSnoc(cfg, es + more[..n], more[n]);
      StaysGone(cfg, Run(cfg, es + more[..n]), more[n], h);
    }
  }

  lemma StaysGone(cfg: Config, st: State, e: Event, h: Handle)
    requires h in st.pool && !Registered(st, h)
    ensures var st' := Step(cfg, st, e);
            h in st'.pool && !Registered(st', h) && |st'.pool[h].buf| <= |st.pool[h].buf|
  {
  }

  // ---------------------------------------------------------------- the tail

  /** How many lines were lost since the last one kept. */
  function LostInARow(t: Trail): int {
    t.upto - if t.kept == [] then t.since else t.kept[|t.kept| - 1] + 1
  }

  /** The trail accounts for every line from since to upto: kept or lost, in order and once. */
  ghost predicate Follows(st: State, h: Handle, t: Trail) {
    && h in st.pool
    && t.since <= t.upto <= |st.history|
    && Within(t.kept, t.since, t.upto)
    && |t.kept| + t.lost == t.upto - t.since
    && (Registered(st, h) ==> t.upto == |st.history|)
    && st.pool[h].drops == LostInARow(t)
    && t.taken + st.pool[h].buf == Pick(st.history, t.kept)
  }

  /** What an append does to one subscriber. */
  lemma AppendTells(cfg: Config, st: State, line: Line, h: Handle)
    requires Wired(st) && h in st.pool && !st.closed
    ensures var st' := Step(cfg, st, Append(line));
            && st'.history == st.history + [line]
            && h in st'.pool && st'.pool[h] == Told(cfg, st, line, h)
            && (Registered(st', h) ==> Registered(st, h))
            && (Registered(st, h) ==> !st.pool[h].evicted)
  {
  }

  lemma KeptFollows(st: State, st': State, line: Line, h: Handle, t: Trail)
    requires Follows(st, h, t) && t.upto == |st.history| && st'.history == st.history + [line] && h in st'.pool
    requires st'.pool[h].buf == st.pool[h].buf + [line] && st'.pool[h].drops == 0
    ensures Follows(st', h, t.(kept := t.kept + [t.upto], upto := t.upto + 1))
  {
    PickGrows(st.history, line, t.kept);
    PickSnoc(st'.history, t.kept, t.upto);
    assert t.taken + st.pool[h].buf + [line] == t.taken + (st.pool[h].buf + [line]);
  }

  lemma LostFollows(st: State, st': State, line: Line, h: Handle, t: Trail)
    requires Follows(st, h, t) && t.upto == |st.history| && st'.history == st.history + [line] && h in st'.pool
    requires st'.pool[h].buf == st.pool[h].buf && st'.pool[h].drops == st.pool[h].drops + 1
    ensures Follows(st', h, t.(lost := t.lost + 1, upto := t.upto + 1))
  {
    PickGrows(st.history, line, t.kept);
  }

  lemma IdleFollows(st: State, st': State, line: Line, h: Handle, t: Trail)
    requires Follows(st, h, t) && st'.history == st.history + [line] && h in st'.pool && !Registered(st', h)
    requires st'.pool[h] == st.pool[h]
    ensures Follows(st', h, t)
  {
    PickGrows(st.history, line, t.kept);
  }

  lemma AppendFollows(cfg: Config, st: State, line: Line, h: Handle, t: Trail)
    requires Wired(st) && Follows(st, h, t)
    ensures Follows(Step(cfg, st, Append(line)), h, TrailStep(cfg, st, Append(line), h, t))
  {
    var st' := Step(cfg, st, Append(line));
    if st.closed {
    } else {
      AppendTells(cfg, st, line, h);
      if !Registered(st, h) {
        IdleFollows(st, st', line, h, t);
      } else if |st.pool[h].buf| < cfg.chanSize {
        KeptFollows(st, st', line, h, t);
      } else {
        LostFollows(st, st', line, h, t);
      }
    }
  }

  lemma ReceiveFollows(cfg: Config, st: State, h': Handle, h: Handle, t: Trail)
    requires Follows(st, h, t)
    ensures Follows(Step(cfg, st, Receive(h')), h, TrailStep(cfg, st, Receive(h'), h, t))
  {
    if h' == h && Enabled(st, Receive(h)) {
      var buf := st.pool[h].buf;
      assert t.taken + [buf[0]] + buf[1..] == t.taken + buf;
    }
  }

  lemma StepFollows(cfg: Config, st: State, e: Event, h: Handle, t: Trail)
    requires Wired(st) && Follows(st, h, t)
    ensures Follows(Step(cfg, st, e), h, TrailStep(cfg, st, e, h, t))
  {
    match e
    case Append(line) => AppendFollows(cfg, st, line, h, t);
    case Receive(h') => ReceiveFollows(cfg, st, h', h, t);
    case _ =>
  }

  /** In every run, what a subscriber has received and what is still in its channel are exactly
      the kept lines of the history after its subscription, in order and without repetition. */
  lemma {:induction false} TailFollows(cfg: Config, es: seq<Event>, h: Handle)
    requires h in Run(cfg, es).pool
    ensures Follows(Run(cfg, es), h, TrailOf(cfg, es, h))
    decreases |es|
  {
    if es != [] {
      var n := |es| - 1;
      var st, e := Run(cfg, es[..n]), es[n];
      AlwaysWired(cfg, es[..n]);
      if h in st.pool {
        TailFollows(cfg, es[..n], h);
        StepFollows(cfg, st, e, h, TrailOf(cfg, es[..n], h));
      } else {
        assert e.Subscribe? && e.h == h;
        assert Pick(st.history, []) == [];
      }
    }
  }

  /** A registered subscriber has lost fewer lines in a row than the limit. */
  lemma {:induction false} BelowLimit(cfg: Config, es: seq<Event>, h: Handle)
    requires cfg.limit > 0
    ensures Registered(Run(cfg, es), h) ==> Run(cfg, es).pool[h].drops < cfg.limit
    decreases |es|
  {
    if es != [] {
      var n := |es| - 1;
      AlwaysWired(cfg, es[..n]);
      BelowLimit(cfg, es[..n], h);
    }
  }

  /** A line cuts a registered subscriber off exactly when it makes the number of lines lost in a row
      the limit; one that gets through starts the count anew. */
  lemma {:induction false} EvictedIffLostInARow(cfg: Config, es: seq<Event>, line: Line, h: Handle)
    requires cfg.limit > 0 && Registered(Run(cfg, es), h)
    ensures var es' := es + [Append(line)];
            && h in Run(cfg, es').pool
            && (Run(cfg, es').pool[h].evicted <==> LostInARow(TrailOf(cfg, es', h)) == cfg.limit)
  {
    var es' := es + [Append(line)];
    AlwaysWired(cfg, es);
    RunSnoc(cfg, es, Append(line));
    BelowLimit(cfg, es, h);
    TailFollows(cfg, es', h);
  }

  /** Where the snapshot of a history of length n begins. */
  function Start(n: nat, capacity: nat): nat {
    if n <= capacity then 0 else n - capacity
  }

  lemma Seam(history: seq<Line>, since: nat, upto: nat, capacity: nat)
    requires since <= upto <= |history|
    ensures Last(history[..since], capacity) + history[since..upto] == history[Start(since, capacity)..upto]
  {
  }

  /** Without losses there is neither gap nor repetition at the seam: the snapshot taken at the
      subscription followed by the live lines is one stretch of the history, which reaches to its
      end as long as the subscriber is registered. */
  lemma {:induction false} SnapshotThenTail(cfg: Config, es: seq<Event>, h: Handle)
    requires h in Run(cfg, es).pool && TrailOf(cfg, es, h).lost == 0
    ensures var st, t := Run(cfg, es), TrailOf(cfg, es, h);
            && t.since <= t.upto <= |st.history|
            && Last(st.history[..t.since], cfg.capacity) + (t.taken + st.pool[h].buf)
               == st.history[Start(t.since, cfg.capacity)..t.upto]
            && (Registered(st, h) ==> t.upto == |st.history|)
  {
    var st, t := Run(cfg, es), TrailOf(cfg, es, h);
    TailFollows(cfg, es, h);
    PickAll(st.history, t.kept, t.since, t.upto);
    Seam(st.history, t.since, t.upto, cfg.capacity);
  }

  /** The history at any earlier moment is a prefix of the history now. */
  lemma {:induction false} HistoryGrows(cfg: Config, es: seq<Event>, k: nat)
    requires k <= |es|
    ensures Run(cfg, es[..k]).history <= Run(cfg, es).history
    decreases |es|
  {
    if k == |es| {
      assert es[..k] == es;
    } else {
      var n := |es| - 1;
      assert es[..n][..k] == es[..k];
      HistoryGrows(cfg, es[..n], k);
    }
  }
}
