/**
 What the hub and the logcat buffer have in common: subscribers with a bounded channel, which
 lose messages while the channel is full and are cut off after too many losses in a row.
 */
module Fanout {
  type Id = string
  type Handle = nat

  /** A subscriber: its channel and the sender's account of it. */
  datatype Sub<M> = Sub(id: Id, buf: seq<M>, closed: bool, drops: nat, evicted: bool)

  /** The non-blocking send with its drop accounting. */
  function Offer<M>(capacity: nat, limit: nat, v: Sub<M>, m: M): Sub<M> {
    if v.evicted then v
    else if |v.buf| < capacity then v.(buf := v.buf + [m], drops := 0)
    else if v.drops + 1 >= limit then v.(drops := v.drops + 1, evicted := true, closed := true)
    else v.(drops := v.drops + 1)
  }

  /** The entries of history at the given positions. */
  function Pick<M>(history: seq<M>, kept: seq<nat>): seq<M>
    requires forall i | 0 <= i < |kept| :: kept[i] < |history|
  {
    seq(|kept|, i requires 0 <= i < |kept| => history[kept[i]])
  }

  /** Increasing positions in lo..hi. */
  ghost predicate Within(kept: seq<nat>, lo: nat, hi: nat) {
    && (forall i | 0 <= i < |kept| :: lo <= kept[i] < hi)
    && (forall i, j | 0 <= i < j < |kept| :: kept[i] < kept[j])
  }

  lemma PickSnoc<M>(history: seq<M>, kept: seq<nat>, k: nat)
    requires Within(kept, 0, k) && k < |history|
    ensures Within(kept + [k], 0, k + 1)
    ensures Pick(history, kept + [k]) == Pick(history, kept) + [history[k]]
  {
  }

  lemma PickGrows<M>(history: seq<M>, m: M, kept: seq<nat>)
    requires Within(kept, 0, |history|)
    ensures Pick(history + [m], kept) == Pick(history, kept)
  {
  }

  lemma {:induction false} AtMost(kept: seq<nat>, lo: nat, hi: nat)
    requires Within(kept, lo, hi) && lo <= hi
    ensures |kept| <= hi - lo
    decreases |kept|
  {
    if kept != [] {
      var n := |kept| - 1;
      AtMost(kept[..n], lo, kept[n]);
    }
  }

  /** Increasing positions that are as many as there are in lo..hi are all of them. */
  lemma {:induction false} AllOfThem(kept: seq<nat>, lo: nat, hi: nat)
    requires Within(kept, lo, hi) && lo <= hi && |kept| == hi - lo
    ensures forall i | 0 <= i < |kept| :: kept[i] == lo + i
    decreases |kept|
  {
    if kept != [] {
      var n := |kept| - 1;
      AtMost(kept[..n], lo, kept[n]);
      AllOfThem(kept[..n], lo, hi - 1);
    }
  }

  lemma PickAll<M>(history: seq<M>, kept: seq<nat>, lo: nat, hi: nat)
    requires lo <= hi <= |history| && Within(kept, lo, hi) && |kept| == hi - lo
    ensures Pick(history, kept) == history[lo..hi]
  {
    AllOfThem(kept, lo, hi);
  }
}
