/** The subscriber objects of the hub and of the logcat buffer: a bounded channel and its account. */
module Subscribers {
  import opened Fanout

  class Subscriber<M> {
    const id: Id
    ghost const handle: Handle
    var send: seq<M>
    var sendClosed: bool
    var consecutiveDrops: nat
    var evicted: bool

    constructor (id: Id, ghost handle: Handle)
      ensures this.id == id && this.handle == handle && Value() == Sub(id, [], false, 0, false)
    {
      this.id, this.handle := id, handle;
      send, sendClosed, consecutiveDrops, evicted := [], false, 0, false;
    }

    function Value(): Sub<M>
      reads this
    {
      Sub(id, send, sendClosed, consecutiveDrops, evicted)
    }

    /** The non-blocking send and its drop count; the result says that the limit is reached. */
    method TrySend(capacity: nat, limit: nat, m: M) returns (over: bool)
      requires !evicted
      modifies this`send, this`consecutiveDrops
      ensures over <==> Offer(capacity, limit, old(Value()), m).evicted
      ensures Offer(capacity, limit, old(Value()), m) ==
              if over then Value().(evicted := true, closed := true) else Value()
      ensures send == if |old(send)| < capacity then old(send) + [m] else old(send)
      ensures consecutiveDrops == if |old(send)| < capacity then 0 else old(consecutiveDrops) + 1
      ensures over <==> |old(send)| >= capacity && old(consecutiveDrops) + 1 >= limit
    {
      if |send| < capacity {
        send := send + [m];
        consecutiveDrops := 0;
        return false;
      }
      consecutiveDrops := consecutiveDrops + 1;
      over := consecutiveDrops >= limit;
    }

    /** Closes the channel unless that has happened already. */
    method CloseOnce()
      modifies this`evicted, this`sendClosed
      ensures Value() == if old(evicted) then old(Value()) else old(Value()).(evicted := true, closed := true)
    {
      if !evicted {
        evicted := true;
        sendClosed := true;
      }
    }
  }
}
