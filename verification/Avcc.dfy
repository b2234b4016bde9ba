/**
 The AVCC rewrite of the recorder and its decoder configuration record
 (internal/session/recording.go), each beside an independent reader.
 The record is section 5.2.4.1.1 of ISO/IEC 14496-15.
 */
module Avcc {
  import opened Wrappers
  import opened Bytes
  import opened AnnexB
  import Buffers

  const WIDE := 0x1_0000_0000
  const SPS_TYPE := 7
  const PPS_TYPE := 8

  /** Each unit behind its length in four octets. */
  function Prefixed(us: seq<seq<byte>>): seq<byte> {
    if us == [] then [] else BE(4, |us[0]|) + us[0] + Prefixed(us[1..])
  }

  ghost predicate Fits(us: seq<seq<byte>>) {
    forall k | 0 <= k < |us| :: |us[k]| < WIDE
  }

  /** A reader of length-prefixed units; it knows nothing of the writer. */
  function ReadUnits(s: seq<byte>): (r: Option<seq<seq<byte>>>)
    ensures r.Some? ==> Fits(r.value)
  {
    if s == [] then Some([])
    else if |s| < 4 then None else
    var n := FromBE(s[..4]);
    LengthFits(s[..4]);
    if |s| < 4 + n then None else
    match ReadUnits(s[4 + n..])
    case None => None
    case Some(us) => Some([s[4..4 + n]] + us)
  }

  lemma LengthFits(h: seq<byte>)
    requires |h| == 4
    ensures FromBE(h) < WIDE
  {
    assert Pow256(4) == WIDE;
    FromBEBound(h);
  }

  lemma PrefixedFrom(us: seq<seq<byte>>, k: nat)
    requires k < |us|
    ensures Prefixed(us[k..]) == BE(4, |us[k]|) + us[k] + Prefixed(us[k + 1..])
  {
  }

  /** The source's two passes: the total size first, then each unit at a running offset. */
  method AnnexBToAVCC(annexB: seq<byte>) returns (avcc: seq<byte>)
    ensures avcc == Prefixed(Split(annexB))
  {
    var nalus := SplitAnnexB(annexB);
    if |nalus| == 0 {
      return [];
    }
    avcc := Rewrite(nalus);
  }

  method TotalSize(nalus: seq<seq<byte>>) returns (total: nat)
    ensures total == |Prefixed(nalus)|
  {
    total := 0;
    assert nalus[0..] == nalus;
    for k := 0 to |nalus|
      invariant |Prefixed(nalus)| == total + |Prefixed(nalus[k..])|
    {
      PrefixedFrom(nalus, k);
      total := total + 4 + |nalus[k]|;
    }
  }

  method WriteUnit(out: array<byte>, off: nat, u: seq<byte>)
    requires off + 4 + |u| <= out.Length
    modifies out
    ensures out[..off + 4 + |u|] == old(out[..off]) + (BE(4, |u|) + u)
  {
    Buffers.Put(out, off, 4, |u|);
    Buffers.Copy(out, off + 4, u);
  }

  method Rewrite(nalus: seq<seq<byte>>) returns (avcc: seq<byte>)
    ensures avcc == Prefixed(nalus)
  {
    var total := TotalSize(nalus);
    var out := new byte[total](_ => 0);
    var off: nat := 0;
    ghost var left := Prefixed(nalus);
    assert nalus[0..] == nalus;
    for k := 0 to |nalus|
      invariant left == Prefixed(nalus[k..])
      invariant off + |left| == total == out.Length
      invariant Prefixed(nalus) == out[..off] + left
    {
      PrefixedFrom(nalus, k);
      ghost var done, rest := out[..off], Prefixed(nalus[k + 1..]);
      WriteUnit(out, off, nalus[k]);
      Reassociate(done, BE(4, |nalus[k]|) + nalus[k], rest);
      off := off + 4 + |nalus[k]|;
      left := rest;
    }
    avcc := out[..];
  }

  /** The four octets in front of a unit, the heaviest first, are its length. */
  lemma PrefixedOctets(us: seq<seq<byte>>)
    requires us != [] && |us[0]| < 0x1_0000_0000
    ensures var w, n := Prefixed(us), |us[0]|;
            && |w| >= 4 + n && Heavy4(w[0], w[1], w[2], w[3]) == n
            && w[4..4 + n] == us[0] && w[4 + n..] == Prefixed(us[1..])
  {
    var n, rest := BE(4, |us[0]|), Prefixed(us[1..]);
    assert Pow256(4) == 0x1_0000_0000;
    BERoundTrip(4, |us[0]|);
    BE32(n);
    Parts(n, us[0], rest);
    assert (n + us[0] + rest)[..4] == n;
  }

  lemma {:induction false} ReadsBack(us: seq<seq<byte>>)
    requires Fits(us)
    ensures ReadUnits(Prefixed(us)) == Some(us)
  {
    if us != [] {
      var s, u, rest := Prefixed(us), us[0], Prefixed(us[1..]);
      assert Pow256(4) == WIDE;
      BERoundTrip(4, |u|);
      assert s[..4] == BE(4, |u|);
      assert s[4..4 + |u|] == u;
      assert s[4 + |u|..] == rest;
      ReadsBack(us[1..]);
      assert us == [u] + us[1..];
    }
  }

  /** The rewritten payload parses back to the split units exactly when every unit's length
      fits the four-octet prefix; a longer one loses its high bits. */
  lemma AvccParsesBack(annexB: seq<byte>)
    ensures ReadUnits(Prefixed(Split(annexB))) == Some(Split(annexB)) <==>
            Fits(Split(annexB))
  {
    var us := Split(annexB);
    if Fits(us) {
      ReadsBack(us);
    }
  }

  // ---------------------------------------------------------------- parameter sets

  predicate IsType(u: seq<byte>, t: nat) {
    u != [] && u[0] % 32 == t
  }

  /** The last unit of type t. */
  function LastOfType(us: seq<seq<byte>>, t: nat): Option<seq<byte>> {
    if us == [] then None else
    var n := |us| - 1;
    if IsType(us[n], t) then Some(us[n]) else LastOfType(us[..n], t)
  }

  lemma {:induction false} LastOfTypeIs(us: seq<seq<byte>>, t: nat)
    ensures var r := LastOfType(us, t);
            if r.None? then forall k | 0 <= k < |us| :: !IsType(us[k], t)
            else exists k :: 0 <= k < |us| && us[k] == r.value && IsType(us[k], t) &&
                             forall j | k < j < |us| :: !IsType(us[j], t)
    decreases |us|
  {
    if us != [] {
      LastOfTypeIs(us[..|us| - 1], t);
    }
  }

  lemma LastOfTypeSnoc(us: seq<seq<byte>>, k: nat, t: nat)
    requires k < |us|
    ensures LastOfType(us[..k + 1], t) == if IsType(us[k], t) then Some(us[k]) else LastOfType(us[..k], t)
  {
    assert us[..k + 1][..k] == us[..k];
  }

  /** A later parameter set overwrites an earlier one, and one may be found without the other. */
  method ExtractSPSPPS(annexB: seq<byte>) returns (sps: Option<seq<byte>>, pps: Option<seq<byte>>)
    ensures sps == LastOfType(Split(annexB), 7)
    ensures pps == LastOfType(Split(annexB), 8)
  {
    sps, pps := None, None;
    var nalus := SplitAnnexB(annexB);
    for k := 0 to |nalus|
      invariant sps == LastOfType(nalus[..k], SPS_TYPE)
      invariant pps == LastOfType(nalus[..k], PPS_TYPE)
    {
      LastOfTypeSnoc(nalus, k, SPS_TYPE);
      LastOfTypeSnoc(nalus, k, PPS_TYPE);
      if |nalus[k]| == 0 {
        continue;
      }
      var nalType := nalus[k][0] % 32;
      if nalType == SPS_TYPE {
        sps := Some(nalus[k]);
      } else if nalType == PPS_TYPE {
        pps := Some(nalus[k]);
      }
    }
    assert nalus[..|nalus|] == nalus;
  }

  ghost predicate Holds(us: seq<seq<byte>>, t: nat) {
    exists k :: 0 <= k < |us| && IsType(us[k], t)
  }

  /** That both results are missing when one is, as the comment on the function has it, is so exactly
      for inputs that hold both kinds of parameter sets or neither. */
  lemma MissingTogetherIff(annexB: seq<byte>)
    ensures var us := Split(annexB);
            var sps, pps := LastOfType(us, SPS_TYPE), LastOfType(us, PPS_TYPE);
            (sps.None? || pps.None? ==> sps.None? && pps.None?) <==> (Holds(us, SPS_TYPE) <==> Holds(us, PPS_TYPE))
  {
    LastOfTypeIs(Split(annexB), SPS_TYPE);
    LastOfTypeIs(Split(annexB), PPS_TYPE);
  }

  /** A sequence parameter set alone is returned alone. */
  lemma LoneSetIsFound(sps: seq<byte>)
    requires IsType(sps, SPS_TYPE) && Encodable([sps])
    ensures Split(CODE3 + sps) == [sps]
    ensures LastOfType(Split(CODE3 + sps), SPS_TYPE) == Some(sps)
    ensures LastOfType(Split(CODE3 + sps), PPS_TYPE) == None
  {
    var ps := [Piece(CODE3, sps)];
    assert ps[1..] == [] && Flatten(ps) == CODE3 + sps + [];
    assert Flatten(ps) == CODE3 + sps && UnitList(ps) == [sps];
    SplitOfJoin(ps);
  }

  lemma LoneSetExample()
    ensures var us := Split([0, 0, 1, 0x67]);
            LastOfType(us, 7) == Some([0x67]) && LastOfType(us, 8) == None
  {
    LoneSetIsFound([0x67]);
    assert CODE3 + [0x67] == [0, 0, 1, 0x67];
  }

  // ---------------------------------------------------------------- decoder configuration record

  function Record(sps: seq<byte>, pps: seq<byte>): Option<seq<byte>> {
    if |sps| < 4 then None else
    Some([1, sps[1], sps[2], sps[3], 0xff, 0xe1] + BE(2, |sps|) + sps + [1] + BE(2, |pps|) + pps)
  }

  /** A reader of records with one parameter set of each kind and four-octet lengths. */
  function ReadRecord(r: seq<byte>): Option<(seq<byte>, seq<byte>)> {
    if |r| < 8 || r[0] != 1 || r[4] % 4 != 3 || r[5] % 32 != 1 then None else
    var n := FromBE(r[6..8]);
    if |r| < 11 + n || r[8 + n] != 1 then None else
    var m := FromBE(r[9 + n..11 + n]);
    if |r| != 11 + n + m then None else
    Some((r[8..8 + n], r[11 + n..]))
  }

  lemma RecordLayout(sps: seq<byte>, pps: seq<byte>)
    requires |sps| >= 4
    ensures var r, n := Record(sps, pps).value, |sps|;
            && |r| == 11 + n + |pps|
            && r[0] == 1 && r[1..4] == sps[1..4] && r[4] == 0xff && r[5] == 0xe1
            && r[6..8] == BE(2, n) && r[8..8 + n] == sps && r[8 + n] == 1
            && r[9 + n..11 + n] == BE(2, |pps|) && r[11 + n..] == pps
  {
    var head: seq<byte>, n, m := [1, sps[1], sps[2], sps[3], 0xff, 0xe1], BE(2, |sps|), BE(2, |pps|);
    var front := head + n;
    var sets := front + sps + [1];
    Parts(sets, m, pps);
    Parts(front, sps, [1]);
    FrontLayout(sps, head, n, front);
    Inner(sets + m + pps, sets, front, sps);
  }

  lemma FrontLayout(sps: seq<byte>, head: seq<byte>, n: seq<byte>, front: seq<byte>)
    requires |sps| >= 4 && head == [1, sps[1], sps[2], sps[3], 0xff, 0xe1] && |n| == 2 && front == head + n
    ensures |front| == 8 && front[0] == 1 && front[1..4] == sps[1..4] && front[4] == 0xff && front[5] == 0xe1
    ensures front[6..8] == n
  {
  }

  /** What lies in the front of the sets lies there in the record. */
  lemma Inner(r: seq<byte>, sets: seq<byte>, front: seq<byte>, sps: seq<byte>)
    requires |front| == 8 && |sets| == 9 + |sps| <= |r| && r[..|sets|] == sets
    requires sets[..8] == front && sets[8..8 + |sps|] == sps && sets[8 + |sps|..] == [1]
    ensures r[0] == front[0] && r[1..4] == front[1..4] && r[4] == front[4] && r[5] == front[5]
    ensures r[6..8] == front[6..8] && r[8..8 + |sps|] == sps && r[8 + |sps|] == 1
  {
    assert forall i | 0 <= i < |sets| :: r[i] == sets[i];
    assert forall i | 0 <= i < 8 :: r[i] == front[i];
    assert r[8 + |sps|] == sets[8 + |sps|] == sets[8 + |sps|..][0];
  }

  /** The record octet by octet. */
  lemma RecordOctets(sps: seq<byte>, pps: seq<byte>)
    requires 4 <= |sps| < 0x1_0000 && |pps| < 0x1_0000
    ensures Record(sps, pps).Some?
    ensures var r, n := Record(sps, pps).value, |sps|;
            && |r| == 11 + n + |pps|
            && r[..6] == [1, sps[1], sps[2], sps[3], 0xff, 0xe1]
            && Heavy2(r[6], r[7]) == n && r[8..8 + n] == sps
            && r[8 + n] == 1 && Heavy2(r[9 + n], r[10 + n]) == |pps| && r[11 + n..] == pps
  {
    var r, n := Record(sps, pps).value, |sps|;
    RecordLayout(sps, pps);
    assert Pow256(2) == 0x1_0000;
    BERoundTrip(2, n);
    BERoundTrip(2, |pps|);
    BE16(r[6..8]);
    BE16(r[9 + n..11 + n]);
    FirstSix(r, sps);
  }

  lemma FirstSix(r: seq<byte>, sps: seq<byte>)
    requires |r| >= 6 && |sps| >= 4 && r[0] == 1 && r[1..4] == sps[1..4] && r[4] == 0xff && r[5] == 0xe1
    ensures r[..6] == [1, sps[1], sps[2], sps[3], 0xff, 0xe1]
  {
    assert r[1] == r[1..4][0] && r[2] == r[1..4][1] && r[3] == r[1..4][2];
    assert sps[1] == sps[1..4][0] && sps[2] == sps[1..4][1] && sps[3] == sps[1..4][2];
  }

  lemma ReadRecordBounds(r: seq<byte>)
    requires ReadRecord(r).Some?
    ensures |ReadRecord(r).value.0| < 0x1_0000 && |ReadRecord(r).value.1| < 0x1_0000
  {
    assert Pow256(2) == 0x1_0000;
    FromBEBound(r[6..8]);
    var n := FromBE(r[6..8]);
    FromBEBound(r[9 + n..11 + n]);
  }

  /** The record gives the parameter sets back exactly when both lengths fit sixteen bits. */
  lemma RecordParsesBack(sps: seq<byte>, pps: seq<byte>)
    requires |sps| >= 4
    ensures ReadRecord(Record(sps, pps).value) == Some((sps, pps)) <==>
            |sps| < 0x1_0000 && |pps| < 0x1_0000
  {
    var r := Record(sps, pps).value;
    assert Pow256(2) == 0x1_0000;
    RecordLayout(sps, pps);
    if |sps| < 0x1_0000 && |pps| < 0x1_0000 {
      BERoundTrip(2, |sps|);
      BERoundTrip(2, |pps|);
    }
    if ReadRecord(r).Some? {
      ReadRecordBounds(r);
    }
  }
}
