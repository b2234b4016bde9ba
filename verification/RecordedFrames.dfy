/**
 What a recording holds of the messages that it was given, said octet by octet of the messages
 themselves (internal/session/recording.go).
 */
module RecordedFrames {
  import opened Wrappers
  import opened Bytes
  import opened AnnexB
  import opened Avcc
  import opened Recording

  /** There is at least one unit behind the header of twelve octets. */
  predicate Carries(msg: seq<byte>) {
    |msg| > 12 && Split(msg[12..]) != []
  }

  /** A message from which a recording can begin: bit 63 of its first eight octets is set, and among its
      units there is one of type 7 and one of type 8. */
  ghost predicate Begins(msg: seq<byte>) {
    |msg| > 12 && msg[0] >= 128 && Holds(Split(msg[12..]), 7) && Holds(Split(msg[12..]), 8)
  }

  /** The block is the message's frame: the key frame flag is bit 63, the time in milliseconds comes from
      the other 63 bits in microseconds, and the payload reads back to the message's units. */
  ghost predicate Renders(b: Block, msg: seq<byte>) {
    && Carries(msg)
    && b.keyframe == (msg[0] >= 128)
    && b.timestampMs == FromBE([msg[0] % 128] + msg[1..8]) / 1000
    && (Fits(Split(msg[12..])) ==> ReadUnits(b.payload) == Some(Split(msg[12..])))
    && b.payload == Prefixed(Split(msg[12..]))
  }

  lemma WordOf(msg: seq<byte>)
    requires |msg| >= 12
    ensures IsKeyframe(msg) <==> msg[0] >= 128
    ensures Pts(msg) % KEY_BIT == FromBE([msg[0] % 128] + msg[1..8])
  {
    TopBit(msg[..8]);
    assert msg[..8][1..] == msg[1..8];
  }

  lemma NoUnits(msg: seq<byte>)
    requires |msg| == 12
    ensures Split(msg[12..]) == []
  {
    assert msg[12..] == [];
  }

  /** Exactly the messages with a unit give a block, and it is their frame. */
  lemma BlocksRender(msg: seq<byte>)
    ensures if Carries(msg) then |Blocks(msg)| == 1 && Renders(Blocks(msg)[0], msg) else Blocks(msg) == []
  {
    if |msg| >= 12 {
      WordOf(msg);
      AvccParsesBack(msg[12..]);
      if |msg| == 12 {
        NoUnits(msg);
      }
    }
  }

  lemma OpensIffBegins(msg: seq<byte>)
    ensures Opens(msg) <==> Begins(msg)
  {
    if |msg| >= 12 {
      WordOf(msg);
      LastOfTypeIs(Split(msg[12..]), 7);
      LastOfTypeIs(Split(msg[12..]), 8);
      if |msg| == 12 {
        NoUnits(msg);
      }
    }
  }

  // ---------------------------------------------------------------- positions

  /** Where, from position lo on, the messages with a unit are. */
  function CarriedAt(msgs: seq<seq<byte>>, lo: nat): seq<nat>
    requires lo <= |msgs|
    decreases |msgs| - lo
  {
    if lo == |msgs| then [] else
    var rest := CarriedAt(msgs, lo + 1);
    if Carries(msgs[lo]) then [lo] + rest else rest
  }

  /** The positions lie in lo..hi and increase. */
  ghost predicate Rising(at: seq<nat>, lo: nat, hi: nat) {
    && (forall i | 0 <= i < |at| :: lo <= at[i] < hi)
    && (forall i, j | 0 <= i < j < |at| :: at[i] < at[j])
  }

  lemma RisingCons(at: seq<nat>, lo: nat, hi: nat)
    requires lo < hi && Rising(at, lo + 1, hi)
    ensures Rising([lo] + at, lo, hi) && Rising(at, lo, hi)
  {
  }

  lemma {:induction false} CarriedAtRises(msgs: seq<seq<byte>>, lo: nat)
    requires lo <= |msgs|
    ensures Rising(CarriedAt(msgs, lo), lo, |msgs|)
    decreases |msgs| - lo
  {
    if lo < |msgs| {
      CarriedAtRises(msgs, lo + 1);
      RisingCons(CarriedAt(msgs, lo + 1), lo, |msgs|);
    }
  }

  lemma {:induction false} CarriedAtIs(msgs: seq<seq<byte>>, lo: nat, j: nat)
    requires lo <= |msgs|
    ensures j in CarriedAt(msgs, lo) <==> lo <= j < |msgs| && Carries(msgs[j])
    decreases |msgs| - lo
  {
    if lo < |msgs| {
      CarriedAtIs(msgs, lo + 1, j);
    }
  }

  ghost predicate AllRender(bs: seq<Block>, msgs: seq<seq<byte>>, at: seq<nat>) {
    && |bs| == |at|
    && forall k | 0 <= k < |at| :: at[k] < |msgs| && Renders(bs[k], msgs[at[k]])
  }

  lemma {:induction false} AllBlocksRender(msgs: seq<seq<byte>>, lo: nat)
    requires lo <= |msgs|
    ensures AllRender(AllBlocks(msgs[lo..]), msgs, CarriedAt(msgs, lo))
    decreases |msgs| - lo
  {
    if lo < |msgs| {
      AllBlocksRender(msgs, lo + 1);
      BlocksRender(msgs[lo]);
      assert msgs[lo..][1..] == msgs[lo + 1..];
      if Carries(msgs[lo]) {
        RenderMore(msgs, lo, Blocks(msgs[lo])[0], AllBlocks(msgs[lo + 1..]), CarriedAt(msgs, lo + 1));
        assert Blocks(msgs[lo]) == [Blocks(msgs[lo])[0]];
      } else {
        assert [] + AllBlocks(msgs[lo + 1..]) == AllBlocks(msgs[lo + 1..]);
      }
    }
  }

  lemma RenderMore(msgs: seq<seq<byte>>, lo: nat, b: Block, bs: seq<Block>, at: seq<nat>)
    requires lo < |msgs| && AllRender(bs, msgs, at) && Renders(b, msgs[lo])
    ensures AllRender([b] + bs, msgs, [lo] + at)
  {
    forall k | 0 <= k < |at| + 1 ensures ([lo] + at)[k] < |msgs| && Renders(([b] + bs)[k], msgs[([lo] + at)[k]]) {
      if k > 0 {
        assert ([lo] + at)[k] == at[k - 1] && ([b] + bs)[k] == bs[k - 1];
      }
    }
  }

  /** The first position from lo on where a recording can begin. */
  ghost function BeginsAt(msgs: seq<seq<byte>>, lo: nat): (r: nat)
    requires lo <= |msgs|
    ensures lo <= r <= |msgs| && (r < |msgs| ==> Begins(msgs[r]))
    ensures forall j | lo <= j < r :: !Begins(msgs[j])
    decreases |msgs| - lo
  {
    if lo == |msgs| || Begins(msgs[lo]) then lo else BeginsAt(msgs, lo + 1)
  }

  lemma {:induction false} FromOpenerIs(msgs: seq<seq<byte>>, lo: nat)
    requires lo <= |msgs|
    ensures FromOpener(msgs[lo..]) == msgs[BeginsAt(msgs, lo)..]
    decreases |msgs| - lo
  {
    if lo < |msgs| {
      OpensIffBegins(msgs[lo]);
      assert msgs[lo..][1..] == msgs[lo + 1..];
      if !Begins(msgs[lo]) {
        FromOpenerIs(msgs, lo + 1);
      }
    }
  }

  // ---------------------------------------------------------------- the whole recording

  /** There is a message from which the recording can begin, and its parameter set fits a track header. */
  ghost predicate Records(msgs: seq<seq<byte>>) {
    var o := BeginsAt(msgs, 0);
    o < |msgs| && var sps := LastOfType(Split(msgs[o][12..]), 7); sps.Some? && |sps.value| >= 4
  }

  lemma OpenerHasSets(msg: seq<byte>)
    requires Begins(msg)
    ensures LastOfType(Split(msg[12..]), 7).Some? && LastOfType(Split(msg[12..]), 8).Some?
  {
    LastOfTypeIs(Split(msg[12..]), 7);
    LastOfTypeIs(Split(msg[12..]), 8);
  }

  /** Whatever messages arrive, the k-th block of the segments put one behind the other is the frame of the
      k-th message with a unit from the one on with which the recording begins; there are no others. */
  lemma {:induction false} RecordingHolds(max: int, msgs: seq<seq<byte>>)
    ensures Rising(CarriedAt(msgs, BeginsAt(msgs, 0)), BeginsAt(msgs, 0), |msgs|)
    ensures forall j: nat :: j in CarriedAt(msgs, BeginsAt(msgs, 0)) <==>
                               BeginsAt(msgs, 0) <= j < |msgs| && Carries(msgs[j])
    ensures AllRender(Flat(RunAll(max, INIT, msgs).segments), msgs,
                      if Records(msgs) then CarriedAt(msgs, BeginsAt(msgs, 0)) else [])
  {
    var o := BeginsAt(msgs, 0);
    if o < |msgs| {
      OpenerHasSets(msgs[o]);
    }
    assert msgs[0..] == msgs;
    FromOpenerIs(msgs, 0);
    RotationConserves(max, msgs);
    AllBlocksRender(msgs, o);
    CarriedAtRises(msgs, o);
    forall j: nat ensures j in CarriedAt(msgs, o) <==> o <= j < |msgs| && Carries(msgs[j]) {
      CarriedAtIs(msgs, o, j);
    }
  }

  lemma SetsStay(max: int, st: State, msgs: seq<seq<byte>>)
    requires st.active && st.segments != []
    ensures RunAll(max, st, msgs).sps == st.sps && RunAll(max, st, msgs).pps == st.pps
    decreases |msgs|
  {
    if msgs != [] {
      SetsStay(max, Accept(max, st, msgs[0]), msgs[1..]);
    }
  }

  lemma OpenedSets(max: int, ms: seq<seq<byte>>)
    requires ms != [] && Opens(ms[0])
    ensures RunAll(max, INIT, ms).sps == Sps(ms[0]).value && RunAll(max, INIT, ms).pps == Pps(ms[0]).value
  {
    if |Sps(ms[0]).value| >= 4 {
      RunFromOpener(max, ms);
      SetsStay(max, Begun(ms[0]), ms);
    }
  }

  /** All segments carry the parameter sets of the message with which the recording begins: the last of its
      units of type 7 and the last of type 8. */
  lemma {:induction false} SegmentsCarryTheSets(max: int, msgs: seq<seq<byte>>, i: nat)
    requires i < |RunAll(max, INIT, msgs).segments|
    ensures var o, s := BeginsAt(msgs, 0), RunAll(max, INIT, msgs).segments[i];
            && o < |msgs|
            && LastOfType(Split(msgs[o][12..]), 7) == Some(s.sps)
            && LastOfType(Split(msgs[o][12..]), 8) == Some(s.pps)
  {
    var o := BeginsAt(msgs, 0);
    assert msgs[0..] == msgs;
    FromOpenerIs(msgs, 0);
    IdleRun(max, msgs);
    RotationConserves(max, msgs);
    assert SegmentOk(max, RunAll(max, INIT, msgs).sps, RunAll(max, INIT, msgs).pps,
                     RunAll(max, INIT, msgs).segments, i);
    if o < |msgs| {
      OpensIffBegins(msgs[o]);
      assert msgs[o..][0] == msgs[o];
      OpenedSets(max, msgs[o..]);
    }
  }

  /** The recording fails exactly when the message with which it begins has a sequence parameter set of less
      than four octets. */
  lemma {:induction false} FailsIff(msgs: seq<seq<byte>>)
    ensures Fails(msgs) <==> BeginsAt(msgs, 0) < |msgs| && !Records(msgs)
  {
    var o := BeginsAt(msgs, 0);
    if o < |msgs| {
      OpenerHasSets(msgs[o]);
    }
    assert msgs[0..] == msgs;
    FromOpenerIs(msgs, 0);
  }

  // ---------------------------------------------------------------- dropped frames

  /** A message that is read but has no unit: it may be a header alone only if that announces nothing. */
  predicate HasNothing(msg: seq<byte>) {
    |msg| >= 12 && (|msg| == 12 ==> msg[8..12] == [0, 0, 0, 0]) && Split(msg[12..]) == []
  }

  function CountNothing(msgs: seq<seq<byte>>, lo: nat): nat
    requires lo <= |msgs|
    decreases |msgs| - lo
  {
    if lo == |msgs| then 0 else (if HasNothing(msgs[lo]) then 1 else 0) + CountNothing(msgs, lo + 1)
  }

  lemma ZeroSize(s: seq<byte>)
    requires |s| == 4
    ensures FromBE(s) == 0 <==> s == [0, 0, 0, 0]
  {
    ZeroMeansZeros(s);
  }

  lemma AcceptDrops(max: int, st: State, msg: seq<byte>)
    requires st.active && st.segments != []
    ensures Accept(max, st, msg).dropped == st.dropped + if HasNothing(msg) then 1 else 0
  {
    if |msg| >= 12 {
      ZeroSize(msg[8..12]);
      BlocksRender(msg);
    }
  }

  lemma {:induction false} RunDrops(max: int, st: State, msgs: seq<seq<byte>>, lo: nat)
    requires st.active && st.segments != [] && lo <= |msgs|
    ensures RunAll(max, st, msgs[lo..]).dropped == st.dropped + CountNothing(msgs, lo)
    decreases |msgs| - lo
  {
    if lo < |msgs| {
      AcceptDrops(max, st, msgs[lo]);
      assert msgs[lo..][1..] == msgs[lo + 1..];
      RunDrops(max, Accept(max, st, msgs[lo]), msgs, lo + 1);
    }
  }

  /** The counter of dropped frames is the number of such messages from the beginning of the recording on. */
  lemma {:induction false} DroppedAreEmpty(max: int, msgs: seq<seq<byte>>)
    requires Records(msgs)
    ensures RunAll(max, INIT, msgs).dropped == CountNothing(msgs, BeginsAt(msgs, 0))
  {
    var o := BeginsAt(msgs, 0);
    assert msgs[0..] == msgs;
    FromOpenerIs(msgs, 0);
    IdleRun(max, msgs);
    OpensIffBegins(msgs[o]);
    RunFromOpener(max, msgs[o..]);
    RunDrops(max, Begun(msgs[o]), msgs, o);
  }
}
