/**
 The logcat buffer itself: the wrapping ring and the subscriber map, shown to carry out the
 steps of the state machine in Logcat.
 */
module LogcatBuffer {
  import opened Fanout
  import opened Logcat
  import opened Subscribers

  type LogcatSub = Subscriber<Line>

  /** The ring holds the end of the history, the oldest line at head once it has wrapped. */
  ghost predicate Ring(lines: seq<Line>, head: nat, full: bool, history: seq<Line>) {
    && head < |lines|
    && if full then |history| >= |lines| && lines[head..] + lines[..head] == Last(history, |lines|)
       else |history| == head && lines[..head] == history
  }

  lemma FullRingTurns(lines: seq<Line>, head: nat, history: seq<Line>, line: Line, lines': seq<Line>)
    requires Ring(lines, head, true, history) && lines' == lines[head := line]
    ensures lines'[head + 1..] + lines'[..head + 1] == Last(history + [line], |lines|)
  {
  }

  lemma RingTurns(lines: seq<Line>, head: nat, full: bool, history: seq<Line>, line: Line)
    requires Ring(lines, head, full, history)
    ensures var lines', history' := lines[head := line], history + [line];
            if head + 1 < |lines| then Ring(lines', head + 1, full, history') else Ring(lines', 0, true, history')
  {
    var lines' := lines[head := line];
    if full {
      FullRingTurns(lines, head, history, line, lines');
      assert lines'[|lines|..] + lines'[..|lines|] == lines' == lines'[0..] + lines'[..0];
    } else {
      assert lines'[..head + 1] == history + [line];
      if head + 1 == |lines| {
        assert lines'[0..] + lines'[..0] == lines' == Last(history + [line], |lines|);
      }
    }
  }

  class Buffer {
    const lines: array<Line>
    const chanSize: nat
    const evictThresh: nat
    var head: nat
    var full: bool
    var subs: map<Id, LogcatSub>
    var closed: bool
    ghost var pool: map<Handle, LogcatSub>    // every subscriber ever made
    ghost var now: State                      // the abstract state that the fields stand for
    ghost var trace: seq<Event>               // the operations so far

    ghost function Cfg(): Config {
      Config(lines.Length, chanSize, evictThresh)
    }

    ghost predicate RingShows(history: seq<Line>)
      reads this`head, this`full, lines
    {
      Ring(lines[..], head, full, history)
    }

    /** The map and the subscriber objects stand for the abstract ones. */
    ghost predicate SubsShow(st: State)
      reads this`subs, this`pool, pool.Values
    {
      && pool.Keys == st.pool.Keys
      && (forall h | h in pool :: pool[h].handle == h && pool[h].Value() == st.pool[h])
      && subs.Keys == st.subs.Keys
      && (forall id | id in subs :: st.subs[id] in pool && pool[st.subs[id]] == subs[id])
    }

    ghost predicate Valid()
      reads this, lines, pool.Values
    {
      RingShows(now.history) && SubsShow(now) && closed == now.closed && now == Run(Cfg(), trace)
    }

    /** Records an operation that the fields have already taken. */
    ghost method Commit(e: Event)
      requires now == Run(Cfg(), trace) && closed == Step(Cfg(), now, e).closed
      requires RingShows(Step(Cfg(), now, e).history) && SubsShow(Step(Cfg(), now, e))
      modifies this`now, this`trace
      ensures Valid() && trace == old(trace) + [e] && now == Step(Cfg(), old(now), e)
    {
      ghost var next := Step(Cfg(), now, e);
      assert next == Run(Cfg(), trace + [e]) by {
        RunSnoc(Cfg(), trace, e);
      }
      now, trace := next, trace + [e];
      assert RingShows(next.history) && SubsShow(next);
    }

    constructor (capacity: int, chanSize: int, evictionThreshold: int)
      ensures Valid() && trace == []
      ensures Cfg() == Config(if capacity <= 0 then 10000 else capacity,
                              if chanSize <= 0 then 256 else chanSize,
                              if evictionThreshold <= 0 then 120 else evictionThreshold)
    {
      var size := if capacity <= 0 then 10000 else capacity;
      lines := new Line[size](_ => "");
      this.chanSize := if chanSize <= 0 then 256 else chanSize;
      evictThresh := if evictionThreshold <= 0 then 120 else evictionThreshold;
      head, full, subs, closed := 0, false, map[], false;
      pool, now, trace := map[], INIT, [];
    }

    /** The ring store of an append. */
    method Store(line: Line, ghost history: seq<Line>)
      requires RingShows(history)
      modifies this`head, this`full, lines
      ensures RingShows(history + [line])
    {
      RingTurns(lines[..], head, full, history, line);
      lines[head] := line;
      head := head + 1;
      if head >= lines.Length {
        head := 0;
        full := true;
      }
    }

    /** The ring is read as the last lines of the history, at most as many as it holds. */
    method Snapshot() returns (out: seq<Line>)
      requires RingShows(now.history)
      ensures out == Last(now.history, lines.Length)
      ensures |out| == if |now.history| < lines.Length then |now.history| else lines.Length
      ensures forall i | 0 <= i < |out| :: out[i] == now.history[|now.history| - |out| + i]
    {
      if !full {
        return lines[..head];
      }
      out := lines[head..];
      out := out + lines[..head];
    }

    /** Marks the subscriber, takes it out of the map if it is the one there, and closes its channel. */
    method EvictLocked(v: LogcatSub)
      requires !v.evicted
      modifies v`evicted, v`sendClosed, this`subs
      ensures v.evicted && v.sendClosed
      ensures subs == if v.id in old(subs) && old(subs)[v.id] == v then old(subs) - {v.id} else old(subs)
    {
      v.evicted := true;
      if v.id in subs && subs[v.id] == v {
        subs := subs - {v.id};
      }
      v.sendClosed := true;
    }

    /** Sends without blocking, counts a loss, and cuts the subscriber off at the limit. */
    method OfferTo(v: LogcatSub, line: Line)
      requires v.id in subs && subs[v.id] == v
      modifies v, this`subs
      ensures v.Value() == Offer(chanSize, evictThresh, old(v.Value()), line)
      ensures subs == if v.evicted && !old(v.evicted) then old(subs) - {v.id} else old(subs)
    {
      if v.evicted {
        return;
      }
      var over := v.TrySend(chanSize, evictThresh, line);
      if over {
        EvictLocked(v);
      }
    }

    method TellNow(v: LogcatSub, line: Line, ghost mid: State)
      requires SubsShow(mid) && v.id in subs && subs[v.id] == v && !v.evicted && Registered(mid, v.handle)
      modifies v, this`subs
      ensures SubsShow(TellOne(Cfg(), mid, line, v.handle))
    {
      OfferTo(v, line);
    }

    /** Those with an id in ids are still registered as in the snapshot and not told yet. */
    ghost predicate Underway(line: Line, st: State, snap: map<Id, LogcatSub>, ids: set<Id>, mid: State)
      reads this`subs, this`pool, pool.Values
    {
      && SubsShow(mid)
      && ids <= snap.Keys
      && (forall id | id in ids :: id in subs && subs[id] == snap[id])
      && Partly(Cfg(), st, line, ids, mid)
    }

    method TellNext(line: Line, snap: map<Id, LogcatSub>, id: Id, ghost st: State, ghost ids: set<Id>, ghost mid: State)
        returns (ghost mid': State)
      requires Wired(st) && Underway(line, st, snap, ids, mid) && id in ids
      modifies snap[id], this`subs
      ensures Underway(line, st, snap, ids - {id}, mid')
    {
      TellOneMore(Cfg(), st, line, ids, mid, id);
      assert mid.subs[id] == snap[id].handle;
      mid' := TellOne(Cfg(), mid, line, snap[id].handle);
      TellNow(snap[id], line, mid);
    }

    /** Tells the subscribers one by one, in whatever order the map yields them. */
    method Broadcast(line: Line, ghost st: State) returns (ghost mid: State)
      requires SubsShow(st) && Wired(st)
      modifies this`subs, pool.Values
      ensures SubsShow(mid) && mid.pool == map h | h in st.pool :: Told(Cfg(), st, line, h)
      ensures mid.subs == Staying(st.subs, mid.pool)
    {
      var snap := subs;
      var ids := snap.Keys;
      mid := st;
      while ids != {}
        invariant Underway(line, st, snap, ids, mid)
      {
        var id :| id in ids;
        mid := TellNext(line, snap, id, st, ids, mid);
        ids := ids - {id};
      }
      AllTold(Cfg(), st, line, mid);
    }

    method AppendLine(line: Line)
      requires Valid()
      modifies this`head, this`full, this`subs, this`now, this`trace, lines, pool.Values
      ensures Valid() && trace == old(trace) + [Append(line)]
    {
      if !closed {
        AlwaysWired(Cfg(), trace);
        Store(line, now.history);
        ghost var mid := Broadcast(line, now);
        assert SubsShow(Step(Cfg(), now, Append(line)));
      }
      Commit(Append(line));
    }

    method NewSub(id: Id, ghost h: Handle) returns (sub: LogcatSub)
      requires SubsShow(now) && h !in pool
      modifies this`pool
      ensures fresh(sub) && sub.handle == h && sub.id == id && pool == old(pool)[h := sub]
      ensures sub.sendClosed == closed
      ensures SubsShow(now.(pool := now.pool[h := Sub(id, [], closed, 0, false)]))
    {
      sub := new Subscriber<Line>(id, h);
      sub.sendClosed := closed;
      pool := pool[h := sub];
    }

    /** A new subscriber joins the map, or finds its channel closed after a shutdown. */
    method Attach(id: Id, ghost h: Handle) returns (sub: LogcatSub)
      requires SubsShow(now) && closed == now.closed && h !in pool
      modifies this`pool, this`subs
      ensures fresh(sub) && sub.handle == h && pool == old(pool)[h := sub]
      ensures SubsShow(Step(Cfg(), now, Subscribe(h, id)))
      ensures subs == (if closed then old(subs) else old(subs)[id := sub]) && sub.sendClosed == closed
    {
      sub := NewSub(id, h);
      if !closed {
        PutIn(sub, now.(pool := now.pool[h := Sub(id, [], closed, 0, false)]));
      }
    }

    method PutIn(sub: LogcatSub, ghost mid: State)
      requires SubsShow(mid) && sub.handle in pool && pool[sub.handle] == sub
      modifies this`subs
      ensures subs == old(subs)[sub.id := sub] && SubsShow(mid.(subs := mid.subs[sub.id := sub.handle]))
    {
      subs := subs[sub.id := sub];
    }

    /** The snapshot and the registration are one step, so the live tail begins where it ends. */
    method SubscribeLogs(id: Id, ghost h: Handle) returns (snap: seq<Line>, sub: LogcatSub)
      requires Valid() && h !in pool
      modifies this`pool, this`subs, this`now, this`trace
      ensures Valid() && fresh(sub) && sub.handle == h && pool == old(pool)[h := sub]
      ensures snap == Last(old(now).history, lines.Length)
      ensures trace == old(trace) + [Subscribe(h, id)]
      ensures subs == (if closed then old(subs) else old(subs)[id := sub]) && sub.sendClosed == closed
    {
      snap := Snapshot();
      sub := Attach(id, h);
      Commit(Subscribe(h, id));
    }

    /** Takes the subscriber out of the map unless a newer one has its place; never closes. */
    method Unsub(sub: LogcatSub)
      requires Valid() && sub.handle in pool && pool[sub.handle] == sub
      modifies this`subs, this`now, this`trace
      ensures Valid() && trace == old(trace) + [Unsubscribe(sub.handle)]
      ensures subs == if sub.id in old(subs) && old(subs)[sub.id] == sub then old(subs) - {sub.id} else old(subs)
    {
      TakeOut(sub);
      Commit(Unsubscribe(sub.handle));
    }

    method TakeOut(sub: LogcatSub)
      requires SubsShow(now) && sub.handle in pool && pool[sub.handle] == sub
      modifies this`subs
      ensures subs == if sub.id in old(subs) && old(subs)[sub.id] == sub then old(subs) - {sub.id} else old(subs)
      ensures SubsShow(if Registered(now, sub.handle) then now.(subs := now.subs - {sub.id}) else now)
    {
      if sub.id in subs && subs[sub.id] == sub {
        subs := subs - {sub.id};
      }
    }

    method TakeFirst(sub: LogcatSub)
      requires SubsShow(now) && sub.handle in pool && pool[sub.handle] == sub && sub.send != []
      modifies sub`send
      ensures SubsShow(Step(Cfg(), now, Receive(sub.handle))) && sub.send == old(sub.send)[1..]
    {
      sub.send := sub.send[1..];
    }

    /** A reader takes the next line from its channel. */
    method ReceiveLine(sub: LogcatSub) returns (line: Line)
      requires Valid() && sub.handle in pool && pool[sub.handle] == sub && sub.send != []
      modifies sub`send, this`now, this`trace
      ensures Valid() && trace == old(trace) + [Receive(sub.handle)] && old(sub.send) == [line] + sub.send
    {
      line := sub.send[0];
      TakeFirst(sub);
      Commit(Receive(sub.handle));
    }

    method CloseSub(id: Id, ghost mid: State)
      requires SubsShow(mid) && id in subs && Registered(mid, mid.subs[id]) && mid.pool[mid.subs[id]].id == id
      modifies this`subs, subs[id]
      ensures SubsShow(CutOne(mid, mid.subs[id])) && subs == old(subs) - {id}
    {
      subs[id].CloseOnce();
      subs := subs - {id};
    }

    method CloseNext(id: Id, ghost st: State, ghost ids: set<Id>, ghost mid: State) returns (ghost mid': State)
      requires Wired(st) && SubsShow(mid) && Closing(st, ids, mid) && id in ids && id in subs
      modifies this`subs, subs[id]
      ensures SubsShow(mid') && Closing(st, ids - {id}, mid') && subs == old(subs) - {id}
    {
      CutOneMore(st, ids, mid, id);
      mid' := CutOne(mid, mid.subs[id]);
      CloseSub(id, mid);
    }

    /** Closes every registered subscriber and takes it out of the map. */
    method CloseAll(ghost st: State) returns (ghost mid: State)
      requires SubsShow(st) && Wired(st)
      modifies this`subs, pool.Values
      ensures SubsShow(mid) && Closing(st, {}, mid) && subs == map[]
    {
      mid := st;
      var ids := subs.Keys;
      while ids != {}
        invariant SubsShow(mid) && Closing(st, ids, mid) && subs.Keys == ids
      {
        var id :| id in ids;
        mid := CloseNext(id, st, ids, mid);
        ids := ids - {id};
      }
    }

    method ShutdownAll()
      requires Valid()
      modifies this`closed, this`subs, this`now, this`trace, pool.Values
      ensures Valid() && closed && subs == map[] && trace == old(trace) + [Shutdown]
    {
      AlwaysWired(Cfg(), trace);
      if !closed {
        closed := true;
        ghost var mid := CloseAll(now);
        AllCut(Cfg(), now, mid);
      }
      Commit(Shutdown);
    }

    /** The channel of a subscriber object holds the rest of its tail: what its reader took before
        and what is in the channel are lines of the history in order, all since the subscription
        if none was dropped. */
    lemma Followed(sub: LogcatSub)
      requires Valid() && sub.handle in pool && pool[sub.handle] == sub
      ensures var t := TrailOf(Cfg(), trace, sub.handle);
              && t.since <= t.upto <= |now.history| && Within(t.kept, t.since, t.upto)
              && t.taken + sub.send == Pick(now.history, t.kept)
              && (t.lost == 0 ==> t.taken + sub.send == now.history[t.since..t.upto])
    {
      var t := TrailOf(Cfg(), trace, sub.handle);
      TailFollows(Cfg(), trace, sub.handle);
      assert sub.send == sub.Value().buf;
      if t.lost == 0 {
        PickAll(now.history, t.kept, t.since, t.upto);
      }
    }
  }
}
