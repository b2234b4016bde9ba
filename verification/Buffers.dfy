/** In-place big-endian stores and copies into a byte buffer. */
module Buffers {
  import opened Bytes

  /** Stores the low w octets of v at offset off. */
  method Put(buf: array<byte>, off: nat, w: nat, v: nat)
    requires off + w <= buf.Length
    modifies buf
    ensures buf[..off + w] == old(buf[..off]) + BE(w, v)
  {
    var k: nat := w;
    var r: nat := v;
    while k > 0
      invariant k <= w
      invariant BE(w, v) == BE(k, r) + buf[off + k..off + w]
      invariant buf[..off] == old(buf[..off])
    {
      ghost var done := buf[off + k..off + w];
      k := k - 1;
      buf[off + k] := r % 256;
      r := r / 256;
      assert buf[off + k..off + w] == [buf[off + k]] + done;
    }
    assert buf[..off + w] == buf[..off] + buf[off..off + w];
  }

  method Copy(buf: array<byte>, off: nat, src: seq<byte>)
    requires off + |src| <= buf.Length
    modifies buf
    ensures buf[..off + |src|] == old(buf[..off]) + src
  {
    for k := 0 to |src|
      invariant buf[..off + k] == old(buf[..off]) + src[..k]
    {
      buf[off + k] := src[k];
    }
  }
}
