/** Octets and the fixed-width integers that the wire formats are made of. */
module Bytes {
  type byte = x: int | 0 <= x < 256

  function Pow256(w: nat): (p: nat)
    ensures p > 0
  {
    if w == 0 then 1 else 256 * Pow256(w - 1)
  }

  /** The low w octets of n, most significant first; higher bits are lost, as in a Go uintN conversion. */
  function BE(w: nat, n: nat): (s: seq<byte>)
    ensures |s| == w
  {
    if w == 0 then [] else BE(w - 1, n / 256) + [n % 256]
  }

  function FromBE(s: seq<byte>): nat {
    if s == [] then 0 else FromBE(s[..|s| - 1]) * 256 + s[|s| - 1]
  }

  /** The low w octets of n, least significant first. */
  function LE(w: nat, n: nat): (s: seq<byte>)
    ensures |s| == w
  {
    if w == 0 then [] else [n % 256] + LE(w - 1, n / 256)
  }

  function FromLE(s: seq<byte>): nat {
    if s == [] then 0 else s[0] + 256 * FromLE(s[1..])
  }

  lemma {:induction false} FromBEBound(s: seq<byte>)
    ensures FromBE(s) < Pow256(|s|)
  {
    if s != [] {
      FromBEBound(s[..|s| - 1]);
    }
  }

  lemma {:induction false} BERoundTrip(w: nat, n: nat)
    requires n < Pow256(w)
    ensures FromBE(BE(w, n)) == n
  {
    if w != 0 {
      BERoundTrip(w - 1, n / 256);
      assert BE(w, n)[..w - 1] == BE(w - 1, n / 256);
    }
  }

  lemma {:induction false} BEOfFromBE(s: seq<byte>)
    ensures BE(|s|, FromBE(s)) == s
  {
    if s != [] {
      BEOfFromBE(s[..|s| - 1]);
    }
  }

  lemma {:induction false} FromLEBound(s: seq<byte>)
    ensures FromLE(s) < Pow256(|s|)
  {
    if s != [] {
      FromLEBound(s[1..]);
    }
  }

  lemma {:induction false} LERoundTrip(w: nat, n: nat)
    requires n < Pow256(w)
    ensures FromLE(LE(w, n)) == n
  {
    if w != 0 {
      LERoundTrip(w - 1, n / 256);
    }
  }

  lemma {:induction false} LEOfFromLE(s: seq<byte>)
    ensures LE(|s|, FromLE(s)) == s
  {
    if s != [] {
      LEOfFromLE(s[1..]);
      LowOctet(s[0], FromLE(s[1..]));
      assert LE(|s|, FromLE(s)) == [s[0]] + LE(|s| - 1, FromLE(s[1..]));
      assert s == [s[0]] + s[1..];
    }
  }

  lemma LowOctet(low: byte, high: nat)
    ensures (low + 256 * high) % 256 == low && (low + 256 * high) / 256 == high
  {
  }

  // ---------------------------------------------------------------- which octet counts how much

  /** Two and four octets as a number, the heaviest first. */
  function Heavy2(a: nat, b: nat): nat { 0x100 * a + b }

  function Heavy4(a: nat, b: nat, c: nat, d: nat): nat { 0x100_0000 * a + 0x1_0000 * b + 0x100 * c + d }

  lemma BE16(s: seq<byte>)
    requires |s| == 2
    ensures FromBE(s) == Heavy2(s[0], s[1])
  {
    assert s[..1][..0] == [];
    assert FromBE(s[..1]) == s[0];
  }

  lemma BE32(s: seq<byte>)
    requires |s| == 4
    ensures FromBE(s) == Heavy4(s[0], s[1], s[2], s[3])
  {
    assert s[..3][..2] == s[..2];
    BE16(s[..2]);
  }

  /** The first octet counts the most. */
  lemma {:induction false} HeadWeight(s: seq<byte>)
    requires s != []
    ensures FromBE(s) == s[0] * Pow256(|s| - 1) + FromBE(s[1..]) && FromBE(s[1..]) < Pow256(|s| - 1)
    decreases |s|
  {
    FromBEBound(s[1..]);
    var n := |s| - 1;
    if n > 0 {
      HeadWeight(s[..n]);
      assert s[..n][1..] == s[1..][..n - 1];
      assert s[..n][0] * Pow256(n - 1) * 256 == s[0] * Pow256(n);
    }
  }

  lemma LE32(s: seq<byte>)
    requires |s| == 4
    ensures FromLE(s) == Heavy4(s[3], s[2], s[1], s[0])
  {
    assert s[1..][1..] == s[2..] && s[2..][1..] == s[3..] && s[3..][1..] == [];
    assert FromLE(s[3..]) == s[3];
    assert FromLE(s[2..]) == s[2] + 256 * FromLE(s[3..]);
    assert FromLE(s[1..]) == s[1] + 256 * FromLE(s[2..]);
  }

  /** The top bit of eight octets, and what they are without it. */
  lemma TopBit(s: seq<byte>)
    requires |s| == 8
    ensures FromBE(s) / 0x8000_0000_0000_0000 % 2 == 1 <==> s[0] >= 128
    ensures FromBE(s) % 0x8000_0000_0000_0000 == FromBE([s[0] % 128] + s[1..])
  {
    var a: byte, low := s[0] % 128, FromBE(s[1..]);
    EightOctets(s[0], s[1..], s);
    EightOctets(a, s[1..], [a] + s[1..]);
    TopBitOf(s[0], low, FromBE(s), FromBE([a] + s[1..]));
  }

  lemma EightOctets(a: byte, low: seq<byte>, s: seq<byte>)
    requires |low| == 7 && s == [a] + low
    ensures FromBE(s) == 0x100_0000_0000_0000 * a as nat + FromBE(low)
    ensures FromBE(low) < 0x100_0000_0000_0000
  {
    assert Pow256(7) == 0x100_0000_0000_0000;
    HeadWeight(s);
    assert s[1..] == low;
  }

  lemma TopBitOf(a: nat, r: nat, n: nat, m: nat)
    requires a < 256 && r < 0x100_0000_0000_0000
    requires n == 0x100_0000_0000_0000 * a + r && m == 0x100_0000_0000_0000 * (a % 128) + r
    ensures n / 0x8000_0000_0000_0000 % 2 == 1 <==> a >= 128
    ensures n % 0x8000_0000_0000_0000 == m
  {
  }

  lemma {:induction false} ZeroMeansZeros(s: seq<byte>)
    ensures FromBE(s) == 0 <==> forall i | 0 <= i < |s| :: s[i] == 0
    decreases |s|
  {
    if s != [] {
      var n := |s| - 1;
      ZeroMeansZeros(s[..n]);
      assert forall i | 0 <= i < n :: s[..n][i] == s[i];
    }
  }
}
