/**
 The recorder (internal/session/recording.go): a viewer that turns wire messages into
 container segments, rotating by size. The container library is a log of what it was given.
 */
module Recording {
  import opened Wrappers
  import opened Bytes
  import opened AnnexB
  import opened Avcc

  const KEY_BIT := 0x8000_0000_0000_0000

  datatype Block = Block(keyframe: bool, timestampMs: nat, payload: seq<byte>)

  /** One output file: its number, the parameter sets of its track header, and its frames. */
  datatype Segment = Segment(number: nat, sps: seq<byte>, pps: seq<byte>, blocks: seq<Block>)

  // ---------------------------------------------------------------- messages

  function Pts(msg: seq<byte>): nat
    requires |msg| >= 12
  {
    FromBE(msg[..8])
  }

  predicate IsKeyframe(msg: seq<byte>)
    requires |msg| >= 12
  {
    Pts(msg) / KEY_BIT % 2 == 1
  }

  /** Not too short, and not a bare header that announces a payload. */
  predicate Readable(msg: seq<byte>) {
    |msg| >= 12 && (FromBE(msg[8..12]) != |msg| - 12 ==> |msg| > 12)
  }

  function Sps(msg: seq<byte>): Option<seq<byte>>
    requires |msg| >= 12
  {
    LastOfType(Split(msg[12..]), SPS_TYPE)
  }

  function Pps(msg: seq<byte>): Option<seq<byte>>
    requires |msg| >= 12
  {
    LastOfType(Split(msg[12..]), PPS_TYPE)
  }

  /** Can a recording begin with this message? */
  predicate Opens(msg: seq<byte>) {
    Readable(msg) && IsKeyframe(msg) && Sps(msg).Some? && Pps(msg).Some?
  }

  /** The frame a message stands for once the recording has begun. */
  function Blocks(msg: seq<byte>): seq<Block> {
    if !Readable(msg) then [] else
    var avcc := Prefixed(Split(msg[12..]));
    if avcc == [] then [] else
    [Block(IsKeyframe(msg), Pts(msg) % KEY_BIT / 1000, avcc)]
  }

  function AllBlocks(msgs: seq<seq<byte>>): seq<Block> {
    if msgs == [] then [] else Blocks(msgs[0]) + AllBlocks(msgs[1..])
  }

  /** The messages from the first opening one on. */
  function FromOpener(msgs: seq<seq<byte>>): (r: seq<seq<byte>>)
    ensures r != [] ==> Opens(r[0])
  {
    if msgs == [] || Opens(msgs[0]) then msgs else FromOpener(msgs[1..])
  }

  /** The frames a recording accepts; a parameter set too short for the track header ends it. */
  function Accepted(msgs: seq<seq<byte>>): seq<Block> {
    var ms := FromOpener(msgs);
    if ms == [] || |Sps(ms[0]).value| < 4 then [] else AllBlocks(ms)
  }

  // ---------------------------------------------------------------- specification

  datatype State = State(
    segments: seq<Segment>, active: bool, sps: seq<byte>, pps: seq<byte>, curBytes: nat,
    bytesWritten: nat, framesWritten: nat, dropped: nat, currentSeq: nat)

  const INIT := State([], false, [], [], 0, 0, 0, 0, 0)

  function OpenSegment(st: State): State
    requires !st.active
  {
    st.(segments := st.segments + [Segment(st.currentSeq, st.sps, st.pps, [])], active := true, curBytes := 0)
  }

  function Rotate(st: State): State {
    OpenSegment(st.(active := false, currentSeq := st.currentSeq + 1))
  }

  function WriteBlock(st: State, b: Block): State
    requires st.segments != []
  {
    var n, size := |st.segments| - 1, |b.payload|;
    var s := st.segments[n];
    st.(segments := st.segments[..n] + [s.(blocks := s.blocks + [b])],
        curBytes := st.curBytes + size,
        bytesWritten := st.bytesWritten + size,
        framesWritten := st.framesWritten + 1)
  }

  /** One message on an open recording. */
  function Accept(max: int, st: State, msg: seq<byte>): (r: State)
    requires st.active && st.segments != []
    ensures r.active && r.segments != []
  {
    var bs := Blocks(msg);
    if !Readable(msg) then st
    else if bs == [] then st.(dropped := st.dropped + 1)
    else
      var full := max > 0 && st.curBytes + |bs[0].payload| > max;
      WriteBlock(if full then Rotate(st) else st, bs[0])
  }

  predicate Usable(st: State) {
    st.active ==> st.segments != []
  }

  /** One message; the flag is false when the recording fails. */
  function Step(max: int, st: State, msg: seq<byte>): (r: (State, bool))
    requires Usable(st)
    ensures Usable(r.0)
  {
    if st.active then (Accept(max, st, msg), true)
    else if !Opens(msg) then (st, true)
    else
      var st' := st.(sps := Sps(msg).value, pps := Pps(msg).value);
      if |st'.sps| < 4 then (st', false) else (Accept(max, OpenSegment(st'), msg), true)
  }

  /** The first message that could begin the recording has a parameter set too short for the track header. */
  predicate Fails(msgs: seq<seq<byte>>) {
    var ms := FromOpener(msgs);
    ms != [] && |Sps(ms[0]).value| < 4
  }

  lemma TurnFails(max: int, st: State, ms: seq<seq<byte>>)
    requires ms != [] && Usable(st)
    ensures var (st', ok) := Step(max, st, ms[0]);
            if st.active then ok && st'.active
            else if !ok then Fails(ms)
            else if st'.active then !Fails(ms)
            else FromOpener(ms) == FromOpener(ms[1..])
  {
  }

  function RunAll(max: int, st: State, msgs: seq<seq<byte>>): State
    requires Usable(st)
    decreases |msgs|
  {
    if msgs == [] then st else
    var (st', ok) := Step(max, st, msgs[0]);
    if ok then RunAll(max, st', msgs[1..]) else st'
  }

  // ---------------------------------------------------------------- the recorder itself

  /** A container file as a log of the calls made on it. */
  class Muxer {
    const number: nat
    var track: bool
    var sps: seq<byte>
    var pps: seq<byte>
    var blocks: seq<Block>

    constructor (number: nat)
      ensures this.number == number && !track && blocks == []
    {
      this.number := number;
      track, sps, pps, blocks := false, [], [], [];
    }

    function Contents(): Segment
      reads this
    {
      Segment(number, sps, pps, blocks)
    }

    method WriteTrackHeader(sps: seq<byte>, pps: seq<byte>) returns (ok: bool)
      modifies this
      ensures ok == (|sps| >= 4)
      ensures ok ==> track && Contents() == Segment(number, sps, pps, old(blocks))
    {
      var record := Record(sps, pps);
      if record.None? {
        return false;
      }
      this.sps, this.pps, track := sps, pps, true;
      ok := true;
    }

    method WriteFrame(keyframe: bool, timestampMs: nat, payload: seq<byte>)
      requires track
      modifies this`blocks
      ensures blocks == old(blocks) + [Block(keyframe, timestampMs, payload)]
    {
      blocks := blocks + [Block(keyframe, timestampMs, payload)];
    }
  }

  class Recorder {
    const maxFileBytes: int
    var muxer: Muxer?
    var sps: seq<byte>
    var pps: seq<byte>
    var curBytes: nat
    var bytesWritten: nat
    var framesWritten: nat
    var droppedFrames: nat
    var currentSeq: nat
    ghost var finished: seq<Segment>

    ghost predicate Valid()
      reads this, muxer
    {
      muxer != null ==> muxer.track
    }

    ghost function Now(): (st: State)
      reads this, muxer
      ensures Usable(st)
    {
      State(if muxer == null then finished else finished + [muxer.Contents()], muxer != null,
            sps, pps, curBytes, bytesWritten, framesWritten, droppedFrames, currentSeq)
    }

    constructor (maxFileBytes: int)
      ensures Valid() && Now() == INIT && this.maxFileBytes == maxFileBytes && muxer == null
    {
      this.maxFileBytes := maxFileBytes;
      muxer, sps, pps := null, [], [];
      curBytes, bytesWritten, framesWritten, droppedFrames, currentSeq := 0, 0, 0, 0, 0;
      finished := [];
    }

    method OpenSegmentFile() returns (ok: bool)
      requires Valid() && muxer == null
      modifies this
      ensures Valid() && ok == (|sps| >= 4)
      ensures ok ==> fresh(muxer) && Now() == OpenSegment(old(Now()))
      ensures !ok ==> muxer == null && Now() == old(Now())
    {
      var mux := new Muxer(currentSeq);
      ok := mux.WriteTrackHeader(sps, pps);
      if !ok {
        return;
      }
      muxer := mux;
      curBytes := 0;
    }

    method CloseFile()
      requires Valid()
      modifies this
      ensures Valid() && muxer == null
      ensures Now() == old(Now()).(active := false)
    {
      if muxer != null {
        finished := finished + [muxer.Contents()];
        muxer := null;
      }
    }

    method RotateFile() returns (ok: bool)
      requires Valid() && muxer != null && |sps| >= 4
      modifies this
      ensures Valid() && ok && fresh(muxer) && Now() == Rotate(old(Now()))
    {
      CloseFile();
      currentSeq := currentSeq + 1;
      ok := OpenSegmentFile();
    }

    method HandleFrame(msg: seq<byte>) returns (ok: bool)
      requires Valid() && (muxer != null ==> |sps| >= 4)
      modifies this, muxer
      ensures Valid() && (muxer != null ==> |sps| >= 4)
      ensures muxer != old(muxer) && muxer != null ==> fresh(muxer)
      ensures (Now(), ok) == Step(maxFileBytes, old(Now()), msg)
    {
      if |msg| < 12 {
        return true;
      }
      var payload := msg[12..];
      var pts := FromBE(msg[0..8]);
      assert msg[0..8] == msg[..8];
      var keyframe := pts / KEY_BIT % 2 == 1;
      pts := pts % KEY_BIT;
      var size := FromBE(msg[8..12]);
      if size != |payload| {
        if |payload| == 0 {
          return true;
        }
      }
      if muxer == null {
        if !keyframe {
          return true;
        }
        var s, p := ExtractSPSPPS(payload);
        if s.None? || p.None? {
          return true;
        }
        sps, pps := s.value, p.value;
        ok := OpenSegmentFile();
        if !ok {
          return;
        }
      }
      ok := WriteAvcc(msg, keyframe, pts, payload);
    }

    /** The second half of the source's handleFrame: rewrite, rotate, write, count. */
    method WriteAvcc(msg: seq<byte>, keyframe: bool, pts: nat, payload: seq<byte>) returns (ok: bool)
      requires Valid() && muxer != null && |sps| >= 4
      requires Readable(msg) && payload == msg[12..]
      requires keyframe == IsKeyframe(msg) && pts == Pts(msg) % KEY_BIT
      modifies this, muxer
      ensures Valid() && muxer != null && |sps| >= 4 && ok
      ensures muxer == old(muxer) || fresh(muxer)
      ensures Now() == Accept(maxFileBytes, old(Now()), msg)
    {
      ok := true;
      var avcc := AnnexBToAVCC(payload);
      if |avcc| == 0 {
        droppedFrames := droppedFrames + 1;
        return;
      }
      RotateIfFull(|avcc|);
      WriteFrame(Block(keyframe, pts / 1000, avcc));
    }

    /** A frame that would exceed the limit begins a new segment. */
    method RotateIfFull(size: nat)
      requires Valid() && muxer != null && |sps| >= 4
      modifies this
      ensures Valid() && muxer != null && |sps| >= 4
      ensures muxer == old(muxer) || fresh(muxer)
      ensures Now() ==
              if maxFileBytes > 0 && old(curBytes) + size > maxFileBytes then Rotate(old(Now())) else old(Now())
    {
      if maxFileBytes > 0 && curBytes + size > maxFileBytes {
        var ok := RotateFile();
      }
    }

    /** Hands the frame to the muxer and counts its payload. */
    method WriteFrame(b: Block)
      requires Valid() && muxer != null
      modifies this`curBytes, this`bytesWritten, this`framesWritten, muxer`blocks
      ensures Valid()
      ensures Now() == WriteBlock(old(Now()), b)
    {
      assert Now().segments[..|finished|] == finished;
      muxer.WriteFrame(b.keyframe, b.timestampMs, b.payload);
      curBytes := curBytes + |b.payload|;
      bytesWritten := bytesWritten + |b.payload|;
      framesWritten := framesWritten + 1;
    }

    /** The messages read before the channel closes or the context ends. */
    method Run(msgs: seq<seq<byte>>) returns (ok: bool)
      requires Valid() && Now() == INIT
      modifies this, muxer
      ensures Now() == RunAll(maxFileBytes, INIT, msgs).(active := false)
      ensures ok <==> !Fails(msgs)
    {
      ok := true;
      var i := 0;
      assert msgs[0..] == msgs;
      while i < |msgs| && ok
        invariant 0 <= i <= |msgs|
        invariant Valid() && (muxer != null ==> |sps| >= 4 && fresh(muxer))
        invariant RunAll(maxFileBytes, INIT, msgs) ==
                  if ok then RunAll(maxFileBytes, Now(), msgs[i..]) else Now()
        invariant if !ok then Fails(msgs)
                  else if muxer != null then !Fails(msgs)
                  else FromOpener(msgs) == FromOpener(msgs[i..])
      {
        TurnFails(maxFileBytes, Now(), msgs[i..]);
        assert msgs[i..][0] == msgs[i] && msgs[i..][1..] == msgs[i + 1..];
        ok := HandleFrame(msgs[i]);
        i := i + 1;
      }
      CloseFile();
    }
  }

  // ---------------------------------------------------------------- what a recording contains

  function Size(bs: seq<Block>): nat {
    if bs == [] then 0 else Size(bs[..|bs| - 1]) + |bs[|bs| - 1].payload|
  }

  function Flat(segs: seq<Segment>): seq<Block> {
    if segs == [] then [] else Flat(segs[..|segs| - 1]) + segs[|segs| - 1].blocks
  }

  /** Segment i is numbered i and carries the recording's parameter sets. When there is a limit
      it is within it or holds exactly one frame; and there was need for it: its first frame
      did not fit the segment before. */
  ghost predicate SegmentOk(max: int, sps: seq<byte>, pps: seq<byte>, segs: seq<Segment>, i: nat)
    requires i < |segs|
  {
    && segs[i].number == i && segs[i].sps == sps && segs[i].pps == pps
    && (max > 0 ==> Size(segs[i].blocks) <= max || |segs[i].blocks| == 1)
    && (i > 0 ==> max > 0 && segs[i].blocks != [] && Overflows(max, segs[i - 1], segs[i].blocks[0]))
  }

  ghost predicate Overflows(max: int, s: Segment, b: Block) {
    Size(s.blocks) + |b.payload| > max
  }

  ghost predicate SegmentsOk(max: int, sps: seq<byte>, pps: seq<byte>, segs: seq<Segment>, n: nat)
    requires n <= |segs|
  {
    forall i | 0 <= i < n :: SegmentOk(max, sps, pps, segs, i)
  }

  /** The counters agree with what the segments hold. */
  ghost predicate Counted(st: State) {
    && st.active && |st.segments| == st.currentSeq + 1
    && st.curBytes == Size(st.segments[st.currentSeq].blocks)
    && st.bytesWritten == Size(Flat(st.segments))
    && st.framesWritten == |Flat(st.segments)|
  }

  ghost predicate Good(max: int, st: State) {
    Counted(st) && SegmentsOk(max, st.sps, st.pps, st.segments, |st.segments|)
  }

  lemma SizeSnoc(bs: seq<Block>, b: Block)
    ensures Size(bs + [b]) == Size(bs) + |b.payload|
  {
  }

  lemma FlatSnoc(segs: seq<Segment>, s: Segment)
    ensures Flat(segs + [s]) == Flat(segs) + s.blocks
  {
  }

  lemma FlatOfWrite(front: seq<Segment>, s: Segment, b: Block)
    ensures Flat(front + [s.(blocks := s.blocks + [b])]) == Flat(front + [s]) + [b]
  {
  }

  lemma WriteCounts(st: State, b: Block)
    requires Counted(st)
    ensures Counted(WriteBlock(st, b))
    ensures Flat(WriteBlock(st, b).segments) == Flat(st.segments) + [b]
  {
    var front, s := st.segments[..st.currentSeq], st.segments[st.currentSeq];
    assert st.segments == front + [s];
    FlatOfWrite(front, s, b);
    SizeSnoc(s.blocks, b);
    SizeSnoc(Flat(st.segments), b);
  }

  lemma RotateCounts(st: State)
    requires Counted(st)
    ensures Counted(Rotate(st)) && Flat(Rotate(st).segments) == Flat(st.segments)
  {
    var s := Segment(st.currentSeq + 1, st.sps, st.pps, []);
    FlatSnoc(st.segments, s);
    assert Rotate(st).segments == st.segments + [s];
    assert Flat(st.segments) + [] == Flat(st.segments);
  }

  /** Writing to the last segment leaves the ones before it as they were. */
  lemma WriteKeepsOthers(max: int, st: State, b: Block)
    requires st.segments != [] && |st.segments| == st.currentSeq + 1
    requires SegmentsOk(max, st.sps, st.pps, st.segments, st.currentSeq)
    ensures var r := WriteBlock(st, b);
            SegmentsOk(max, st.sps, st.pps, r.segments, st.currentSeq)
  {
    var r := WriteBlock(st, b);
    forall i | 0 <= i < st.currentSeq ensures SegmentOk(max, st.sps, st.pps, r.segments, i) {
      assert SegmentOk(max, st.sps, st.pps, st.segments, i);
    }
  }

  lemma {:induction false} WriteKeepsGood(max: int, st: State, b: Block)
    requires Good(max, st)
    requires max > 0 ==> st.curBytes + |b.payload| <= max
    ensures Good(max, WriteBlock(st, b))
  {
    var n := st.currentSeq;
    var bs := st.segments[n].blocks;
    assert SegmentOk(max, st.sps, st.pps, st.segments, n);
    WriteCounts(st, b);
    WriteKeepsOthers(max, st, b);
    SizeSnoc(bs, b);
    assert n > 0 ==> (bs + [b])[0] == bs[0];
    assert SegmentOk(max, st.sps, st.pps, WriteBlock(st, b).segments, n);
  }

  lemma RotateKeepsOthers(max: int, st: State)
    requires Good(max, st)
    ensures SegmentsOk(max, st.sps, st.pps, Rotate(st).segments, |st.segments|)
  {
    forall i | 0 <= i < |st.segments| ensures SegmentOk(max, st.sps, st.pps, Rotate(st).segments, i) {
      assert SegmentOk(max, st.sps, st.pps, st.segments, i);
    }
  }

  /** A segment opened for a frame that did not fit the one before is in order. */
  lemma FreshSegmentOk(max: int, st: State, b: Block, segs: seq<Segment>)
    requires Counted(st) && max > 0 && st.curBytes + |b.payload| > max
    requires segs == st.segments + [Segment(|st.segments|, st.sps, st.pps, [b])]
    ensures SegmentOk(max, st.sps, st.pps, segs, |st.segments|)
  {
  }

  lemma RotateAndWrite(st: State, b: Block)
    requires Counted(st)
    ensures WriteBlock(Rotate(st), b).segments == st.segments + [Segment(|st.segments|, st.sps, st.pps, [b])]
  {
    assert [] + [b] == [b];
  }

  lemma RotateAndWriteKeepsGood(max: int, st: State, b: Block)
    requires Good(max, st) && max > 0 && st.curBytes + |b.payload| > max
    ensures Good(max, WriteBlock(Rotate(st), b))
  {
    var r := WriteBlock(Rotate(st), b);
    RotateCounts(st);
    WriteCounts(Rotate(st), b);
    RotatedSegmentsOk(max, st, b, r.segments);
  }

  lemma RotatedSegmentsOk(max: int, st: State, b: Block, segs: seq<Segment>)
    requires Good(max, st) && max > 0 && st.curBytes + |b.payload| > max
    requires segs == WriteBlock(Rotate(st), b).segments
    ensures |segs| == |st.segments| + 1 && SegmentsOk(max, st.sps, st.pps, segs, |segs|)
  {
    RotateKeepsOthers(max, st);
    WriteKeepsOthers(max, Rotate(st), b);
    RotateAndWrite(st, b);
    FreshSegmentOk(max, st, b, segs);
  }

  lemma {:induction false} AcceptKeepsGood(max: int, st: State, msg: seq<byte>)
    requires Good(max, st)
    ensures Good(max, Accept(max, st, msg))
    ensures Accept(max, st, msg).sps == st.sps && Accept(max, st, msg).pps == st.pps
  {
    var bs := Blocks(msg);
    if Readable(msg) && bs != [] {
      if max > 0 && st.curBytes + |bs[0].payload| > max {
        RotateAndWriteKeepsGood(max, st, bs[0]);
      } else {
        WriteKeepsGood(max, st, bs[0]);
      }
    }
  }

  lemma {:induction false} AcceptAppends(max: int, st: State, msg: seq<byte>)
    requires Counted(st)
    ensures Counted(Accept(max, st, msg))
    ensures Flat(Accept(max, st, msg).segments) == Flat(st.segments) + Blocks(msg)
  {
    var bs := Blocks(msg);
    if Readable(msg) && bs != [] {
      assert bs == [bs[0]];
      if max > 0 && st.curBytes + |bs[0].payload| > max {
        RotateCounts(st);
        WriteCounts(Rotate(st), bs[0]);
      } else {
        WriteCounts(st, bs[0]);
      }
    }
  }

  lemma {:induction false} OpenRunKeepsGood(max: int, st: State, msgs: seq<seq<byte>>)
    requires Good(max, st)
    ensures Good(max, RunAll(max, st, msgs))
    ensures RunAll(max, st, msgs).sps == st.sps && RunAll(max, st, msgs).pps == st.pps
    decreases |msgs|
  {
    if msgs != [] {
      AcceptKeepsGood(max, st, msgs[0]);
      OpenRunKeepsGood(max, Accept(max, st, msgs[0]), msgs[1..]);
    }
  }

  lemma {:induction false} OpenRunAppends(max: int, st: State, msgs: seq<seq<byte>>)
    requires Counted(st)
    ensures Flat(RunAll(max, st, msgs).segments) == Flat(st.segments) + AllBlocks(msgs)
    decreases |msgs|
  {
    if msgs == [] {
      assert Flat(st.segments) + [] == Flat(st.segments);
    } else {
      var st' := Accept(max, st, msgs[0]);
      assert RunAll(max, st, msgs) == RunAll(max, st', msgs[1..]);
      AcceptAppends(max, st, msgs[0]);
      OpenRunAppends(max, st', msgs[1..]);
      Reassociate(Flat(st.segments), Blocks(msgs[0]), AllBlocks(msgs[1..]));
    }
  }

  /** Nothing happens before the first opening message. */
  lemma {:induction false} IdleRun(max: int, msgs: seq<seq<byte>>)
    ensures RunAll(max, INIT, msgs) == RunAll(max, INIT, FromOpener(msgs))
    decreases |msgs|
  {
    if msgs != [] && !Opens(msgs[0]) {
      IdleRun(max, msgs[1..]);
    }
  }

  /** The first segment of a recording, before any frame. */
  function Begun(msg: seq<byte>): State
    requires Opens(msg)
  {
    OpenSegment(INIT.(sps := Sps(msg).value, pps := Pps(msg).value))
  }

  lemma BegunIsGood(max: int, msg: seq<byte>)
    requires Opens(msg)
    ensures Good(max, Begun(msg)) && Flat(Begun(msg).segments) == []
  {
    assert Begun(msg).segments == [] + [Begun(msg).segments[0]];
    FlatSnoc([], Begun(msg).segments[0]);
  }

  lemma RunFromOpener(max: int, ms: seq<seq<byte>>)
    requires ms != [] && Opens(ms[0]) && |Sps(ms[0]).value| >= 4
    ensures RunAll(max, INIT, ms) == RunAll(max, Begun(ms[0]), ms)
  {
  }

  lemma OpenedRun(max: int, ms: seq<seq<byte>>)
    requires ms != [] && Opens(ms[0]) && |Sps(ms[0]).value| >= 4
    ensures Good(max, RunAll(max, INIT, ms))
    ensures Flat(RunAll(max, INIT, ms).segments) == AllBlocks(ms)
  {
    var st := Begun(ms[0]);
    RunFromOpener(max, ms);
    BegunIsGood(max, ms[0]);
    OpenRunKeepsGood(max, st, ms);
    OpenRunAppends(max, st, ms);
  }

  /** Whatever messages arrive, the segments hold the accepted frames in order, the counters
      are their total size and number, and every segment is well made. */
  lemma {:induction false} RotationConserves(max: int, msgs: seq<seq<byte>>)
    ensures var r := RunAll(max, INIT, msgs);
            && Flat(r.segments) == Accepted(msgs)
            && r.bytesWritten == Size(Accepted(msgs))
            && r.framesWritten == |Accepted(msgs)|
            && SegmentsOk(max, r.sps, r.pps, r.segments, |r.segments|)
  {
    var ms := FromOpener(msgs);
    IdleRun(max, msgs);
    if ms != [] && |Sps(ms[0]).value| >= 4 {
      OpenedRun(max, ms);
    }
  }

  // ---------------------------------------------------------------- the first segment

  lemma OpenerHasBlock(msg: seq<byte>)
    requires Opens(msg)
    ensures Blocks(msg) != []
  {
    var us := Split(msg[12..]);
    assert us != [];
    assert Prefixed(us) != [];
  }

  /** The opening frame goes into the first segment, or is too large and leaves it behind empty. */
  lemma FirstAccept(max: int, msg: seq<byte>)
    requires Opens(msg)
    ensures Blocks(msg) != []
    ensures var st, large := Accept(max, Begun(msg), msg), max > 0 && |Blocks(msg)[0].payload| > max;
            && (st.segments[0].blocks == [] <==> large)
            && (large ==> |st.segments| > 1)
  {
    OpenerHasBlock(msg);
  }

  lemma AcceptKeepsFirst(max: int, st: State, msg: seq<byte>)
    requires st.active && st.segments != [] && (|st.segments| > 1 || st.segments[0].blocks != [])
    ensures var st' := Accept(max, st, msg);
            && |st'.segments| >= |st.segments|
            && (st'.segments[0].blocks == [] <==> st.segments[0].blocks == [])
  {
  }

  lemma {:induction false} RunKeepsFirst(max: int, st: State, msgs: seq<seq<byte>>)
    requires st.active && st.segments != [] && (|st.segments| > 1 || st.segments[0].blocks != [])
    ensures var st' := RunAll(max, st, msgs);
            && st'.segments != []
            && (st'.segments[0].blocks == [] <==> st.segments[0].blocks == [])
    decreases |msgs|
  {
    if msgs != [] {
      AcceptKeepsFirst(max, st, msgs[0]);
      RunKeepsFirst(max, Accept(max, st, msgs[0]), msgs[1..]);
    }
  }

  /** A recording's first segment stays empty exactly when there is a limit and the frame that opens the
      recording is larger; every later segment holds a frame, as SegmentOk says. */
  lemma {:induction false} EmptyFirstSegmentIff(max: int, msgs: seq<seq<byte>>)
    requires var ms := FromOpener(msgs); ms != [] && |Sps(ms[0]).value| >= 4
    ensures var ms, r := FromOpener(msgs), RunAll(max, INIT, msgs);
            && Blocks(ms[0]) != [] && r.segments != []
            && (r.segments[0].blocks == [] <==> max > 0 && |Blocks(ms[0])[0].payload| > max)
  {
    var ms := FromOpener(msgs);
    IdleRun(max, msgs);
    RunFromOpener(max, ms);
    FirstAccept(max, ms[0]);
    RunKeepsFirst(max, Accept(max, Begun(ms[0]), ms[0]), ms[1..]);
  }

  /** A message with the recorder's key frame bit. */
  function KeyMessage(payload: seq<byte>): seq<byte> {
    BE(8, KEY_BIT) + BE(4, |payload|) + payload
  }

  lemma KeyBits(w: nat, n: nat)
    requires w == 8 && n == KEY_BIT
    ensures |BE(w, n)| == 8 && FromBE(BE(w, n)) == n
  {
    assert Pow256(8) == 2 * KEY_BIT;
    BERoundTrip(w, n);
  }

  lemma KeyMessageIsKey(payload: seq<byte>)
    requires payload != []
    ensures var msg := KeyMessage(payload);
            |msg| == 12 + |payload| && msg[12..] == payload && Readable(msg) && IsKeyframe(msg)
  {
    var hdr, size := BE(8, KEY_BIT), BE(4, |payload|);
    KeyBits(8, KEY_BIT);
    KeyLayout(hdr, size, payload);
  }

  lemma KeyLayout(hdr: seq<byte>, size: seq<byte>, payload: seq<byte>)
    requires |hdr| == 8 && |size| == 4 && payload != [] && FromBE(hdr) == KEY_BIT
    ensures var msg := hdr + size + payload;
            |msg| == 12 + |payload| && msg[12..] == payload && Readable(msg) && IsKeyframe(msg)
  {
    assert (hdr + size + payload)[..8] == hdr;
  }

  /** A parameter set of each kind behind short start codes. */
  function TwoSets(sps: seq<byte>, pps: seq<byte>): seq<byte> {
    CODE3 + sps + (CODE3 + pps)
  }

  lemma TwoSetsSplit(sps: seq<byte>, pps: seq<byte>)
    requires Encodable([sps, pps])
    ensures Split(TwoSets(sps, pps)) == [sps, pps]
  {
    var ps := [Piece(CODE3, sps), Piece(CODE3, pps)];
    assert ps[1..] == [Piece(CODE3, pps)] && ps[1..][1..] == [];
    assert Flatten(ps[1..]) == CODE3 + pps + [] == CODE3 + pps;
    assert Flatten(ps) == TwoSets(sps, pps);
    assert UnitList(ps) == [sps, pps];
    SplitOfJoin(ps);
  }

  lemma SetsOfTwo(sps: seq<byte>, pps: seq<byte>)
    requires IsType(sps, SPS_TYPE) && IsType(pps, PPS_TYPE)
    ensures LastOfType([sps, pps], SPS_TYPE) == Some(sps) && LastOfType([sps, pps], PPS_TYPE) == Some(pps)
  {
    assert [sps, pps][..1] == [sps];
  }

  lemma PrefixedTwo(sps: seq<byte>, pps: seq<byte>)
    ensures |Prefixed([sps, pps])| == 8 + |sps| + |pps|
  {
    PrefixedFrom([sps, pps], 0);
    PrefixedFrom([sps, pps], 1);
    assert [sps, pps][0..] == [sps, pps] && [sps, pps][2..] == [];
  }

  /** It does happen: whatever the limit, a recording that opens with two parameter sets which exceed it
      in their AVCC form has an empty first segment. */
  lemma {:induction false} EmptyFirstSegment(max: int, sps: seq<byte>, pps: seq<byte>)
    requires Encodable([sps, pps]) && IsType(sps, SPS_TYPE) && IsType(pps, PPS_TYPE) && |sps| >= 4
    requires 0 < max < 8 + |sps| + |pps|
    ensures var r := RunAll(max, INIT, [KeyMessage(TwoSets(sps, pps))]);
            r.segments != [] && r.segments[0].blocks == []
  {
    var payload := TwoSets(sps, pps);
    KeyMessageIsKey(payload);
    TwoSetsSplit(sps, pps);
    SetsOfTwo(sps, pps);
    PrefixedTwo(sps, pps);
    LoneLargeOpener(max, KeyMessage(payload), payload);
  }

  lemma LoneLargeOpener(max: int, msg: seq<byte>, payload: seq<byte>)
    requires |msg| >= 12 && msg[12..] == payload && Opens(msg) && |Sps(msg).value| >= 4
    requires 0 < max < |Prefixed(Split(payload))|
    ensures RunAll(max, INIT, [msg]).segments != [] && RunAll(max, INIT, [msg]).segments[0].blocks == []
  {
    LonePayload(msg);
    assert FromOpener([msg]) == [msg];
    EmptyFirstSegmentIff(max, [msg]);
  }

  lemma LonePayload(msg: seq<byte>)
    requires Opens(msg)
    ensures Blocks(msg) != [] && Blocks(msg)[0].payload == Prefixed(Split(msg[12..]))
  {
    OpenerHasBlock(msg);
  }

  /** For instance parameter sets of four octets and one octet under a limit of eight. */
  lemma EmptyFirstSegmentExample()
    ensures var r := RunAll(8, INIT, [KeyMessage(TwoSets([0x67, 1, 2, 3], [0x68]))]);
            r.segments != [] && r.segments[0].blocks == []
  {
    var sps: seq<byte>, pps: seq<byte> := [0x67, 1, 2, 3], [0x68];
    EncodableTwo(sps, pps);
    EmptyFirstSegment(8, sps, pps);
  }

  lemma EncodableTwo(sps: seq<byte>, pps: seq<byte>)
    requires sps != [] && pps != [] && 0 !in sps && 0 !in pps
    ensures Encodable([sps, pps])
  {
  }
}
