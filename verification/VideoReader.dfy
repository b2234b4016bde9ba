/**
 Reading video frames off the device's stream (internal/scrcpy/video_reader.go) and the loop
 that turns them into frames for the hub (internal/session/supervisor.go).
 */
module VideoReader {
  import opened Wrappers
  import opened Bytes
  import opened Frames

  const HEADER := 12
  const BIT63 := 0x8000_0000_0000_0000
  const BIT62 := 0x4000_0000_0000_0000

  datatype FrameHeader = FrameHeader(configPacket: bool, keyFrame: bool, pts: nat, size: nat, raw: seq<byte>)

  /** Nothing could be read, or less than what was asked for. */
  datatype ReadError = EndOfFile | UnexpectedEndOfFile

  /** The first eight octets as a 64-bit word. */
  function Word(raw: seq<byte>): nat
    requires |raw| == HEADER
  {
    FromBE(raw[..8])
  }

  function ParseHeader(raw: seq<byte>): FrameHeader
    requires |raw| == HEADER
  {
    var rawPts := Word(raw);
    FrameHeader(rawPts / BIT63 % 2 == 1, rawPts / BIT62 % 2 == 1, rawPts % BIT62, FromBE(raw[8..12]), raw)
  }

  function ShortRead(s: seq<byte>): ReadError {
    if s == [] then EndOfFile else UnexpectedEndOfFile
  }

  /** A frame and what follows it, or why there is none. */
  function ReadFrame(s: seq<byte>): (r: Result<(FrameHeader, seq<byte>, seq<byte>), ReadError>)
    ensures r.Ok? ==> |r.value.2| < |s|
  {
    if |s| < HEADER then Err(ShortRead(s)) else
    var h := ParseHeader(s[..HEADER]);
    var rest := s[HEADER..];
    if |rest| < h.size then Err(ShortRead(rest))
    else Ok((h, rest[..h.size], rest[h.size..]))
  }

  function FrameOf(h: FrameHeader, payload: seq<byte>): Frame {
    Frame(h.raw, payload, h.keyFrame, h.configPacket)
  }

  /** The frames of at most turns successful reads, and what is left of the stream. */
  function ReadFrames(s: seq<byte>, turns: nat): (seq<Frame>, seq<byte>)
    decreases turns
  {
    if turns == 0 || ReadFrame(s).Err? then ([], s) else
    var (h, payload, rest) := ReadFrame(s).value;
    var (fs, left) := ReadFrames(rest, turns - 1);
    ([FrameOf(h, payload)] + fs, left)
  }

  /** The reader: a header of twelve octets, then exactly as many as it announces. */
  method ReadVideoFrame(s: seq<byte>) returns (r: Result<(FrameHeader, seq<byte>, seq<byte>), ReadError>)
    ensures r == ReadFrame(s)
    ensures r.Err? <==> |s| < 12 || |s| < 12 + Announced(s)
    ensures r.Ok? ==> r.value.1 == s[12..12 + Announced(s)] && r.value.2 == s[12 + Announced(s)..]
  {
    FailsIffShort(s);
    if ReadFrame(s).Ok? {
      Yields(s);
    }
    if |s| < HEADER {
      return Err(ShortRead(s));
    }
    var h := ParseHeader(s[..HEADER]);
    var rest := s[HEADER..];
    if h.size == 0 {
      assert rest[..0] == [] && rest[0..] == rest;
      return Ok((h, [], rest));
    }
    if |rest| < h.size {
      return Err(ShortRead(rest));
    }
    r := Ok((h, rest[..h.size], rest[h.size..]));
  }

  /** The reader loop; the context is found cancelled after turns rounds. */
  method VideoReaderLoop(s: seq<byte>, turns: nat)
    returns (published: seq<Frame>, left: seq<byte>, err: Option<ReadError>)
    ensures (published, left) == ReadFrames(s, turns)
    ensures err.Some? ==> ReadFrame(left) == Err(err.value)
    ensures err.None? ==> |published| == turns
  {
    published, left := [], s;
    var i := 0;
    assert [] + ReadFrames(s, turns).0 == ReadFrames(s, turns).0;
    while i < turns
      invariant 0 <= i <= turns && |published| == i
      invariant ReadFrames(s, turns) ==
                (published + ReadFrames(left, turns - i).0, ReadFrames(left, turns - i).1)
    {
      var r := ReadVideoFrame(left);
      if r.Err? {
        assert published + [] == published;
        return published, left, Some(r.error);
      }
      var (h, payload, rest) := r.value;
      var f := FrameOf(h, payload);
      Reassociate(published, [f], ReadFrames(rest, turns - i - 1).0);
      published, left := published + [f], rest;
      i := i + 1;
    }
    assert published + [] == published;
    err := None;
  }

  // ---------------------------------------------------------------- transparency

  /** Does the frame say of itself what its header says? */
  predicate Faithful(f: Frame) {
    |f.header| == HEADER
    && var h := ParseHeader(f.header);
       h.size == |f.payload| && h.keyFrame == f.keyFrame && h.configPacket == f.configPacket
  }

  lemma ReadFrameIsSound(s: seq<byte>)
    requires ReadFrame(s).Ok?
    ensures var (h, payload, rest) := ReadFrame(s).value;
            Faithful(FrameOf(h, payload)) && s == WireBytes(FrameOf(h, payload)) + rest
  {
  }

  /** The frames' wire images are the octets that were read: nothing is lost, added or reordered. */
  lemma {:induction false} RelayIsTransparent(s: seq<byte>, turns: nat)
    ensures var (fs, left) := ReadFrames(s, turns);
            && s == Wires(fs) + left
            && (forall f | f in fs :: Faithful(f))
            && (|fs| < turns ==> ReadFrame(left).Err?)
    decreases turns
  {
    StopsAtError(s, turns);
    if turns == 0 || ReadFrame(s).Err? {
      assert s == [] + s;
    } else {
      var (h, payload, rest) := ReadFrame(s).value;
      var f := FrameOf(h, payload);
      var (fs, left) := ReadFrames(rest, turns - 1);
      ReadFrameIsSound(s);
      RelayIsTransparent(rest, turns - 1);
      WiresCons(f, fs, rest, left);
      FaithfulCons(f, fs);
    }
  }

  lemma {:induction false} StopsAtError(s: seq<byte>, turns: nat)
    ensures |ReadFrames(s, turns).0| < turns ==> ReadFrame(ReadFrames(s, turns).1).Err?
    decreases turns
  {
    if turns > 0 && ReadFrame(s).Ok? {
      StopsAtError(ReadFrame(s).value.2, turns - 1);
    }
  }

  lemma FaithfulCons(f: Frame, fs: seq<Frame>)
    requires Faithful(f) && forall g | g in fs :: Faithful(g)
    ensures forall g | g in [f] + fs :: Faithful(g)
  {
  }

  lemma WiresCons(f: Frame, fs: seq<Frame>, rest: seq<byte>, left: seq<byte>)
    requires rest == Wires(fs) + left
    ensures WireBytes(f) + rest == Wires([f] + fs) + left
  {
    assert ([f] + fs)[1..] == fs;
    Reassociate(WireBytes(f), Wires(fs), left);
  }

  lemma ReadOfWire(f: Frame, rest: seq<byte>)
    requires Faithful(f)
    ensures ReadFrame(WireBytes(f) + rest).Ok?
    ensures var (h, payload, left) := ReadFrame(WireBytes(f) + rest).value;
            FrameOf(h, payload) == f && left == rest
  {
    var s := WireBytes(f) + rest;
    assert s[..HEADER] == f.header;
    assert s[HEADER..] == f.payload + rest;
    assert (f.payload + rest)[..|f.payload|] == f.payload;
    assert (f.payload + rest)[|f.payload|..] == rest;
  }

  /** Reading the wire images of frames gives the frames back. */
  lemma {:induction false} ReadsBack(fs: seq<Frame>, rest: seq<byte>)
    requires forall f | f in fs :: Faithful(f)
    ensures ReadFrames(Wires(fs) + rest, |fs|) == (fs, rest)
    decreases |fs|
  {
    if fs == [] {
      assert [] + rest == rest;
    } else {
      var f, more := fs[0], Wires(fs[1..]) + rest;
      ReadsBack(fs[1..], rest);
      ReadOneMore(f, fs[1..], more, rest);
      Reassociate(WireBytes(f), Wires(fs[1..]), rest);
      assert fs == [f] + fs[1..];
    }
  }

  lemma ReadOneMore(f: Frame, fs: seq<Frame>, more: seq<byte>, rest: seq<byte>)
    requires Faithful(f) && ReadFrames(more, |fs|) == (fs, rest)
    ensures ReadFrames(WireBytes(f) + more, |fs| + 1) == ([f] + fs, rest)
  {
    ReadOfWire(f, more);
  }

  /** The two flags and the timestamp make up the header's 64-bit word. */
  lemma FlagsRecombine(raw: seq<byte>)
    requires |raw| == HEADER
    ensures var h := ParseHeader(raw);
            && h.raw == raw && h.pts < BIT62
            && Word(raw) == (if h.configPacket then BIT63 else 0) + (if h.keyFrame then BIT62 else 0) + h.pts
  {
    assert Pow256(8) == 2 * BIT63;
    FromBEBound(raw[..8]);
  }

  // ---------------------------------------------------------------- octet by octet

  /** The length in octets eight to eleven, the first of them the heaviest. */
  function Announced(s: seq<byte>): nat
    requires |s| >= 12
  {
    Heavy4(s[8], s[9], s[10], s[11])
  }

  lemma SizeIsAnnounced(s: seq<byte>)
    requires |s| >= HEADER
    ensures ParseHeader(s[..HEADER]).size == Announced(s)
  {
    assert s[..HEADER][8..12] == s[8..12];
    BE32(s[8..12]);
  }

  lemma TopBits(a: nat, r: nat)
    requires a < 256 && r < 0x100_0000_0000_0000
    ensures var n := 0x100_0000_0000_0000 * a + r;
            && (n / BIT63 % 2 == 1 <==> a >= 128)
            && (n / BIT62 % 2 == 1 <==> a % 128 >= 64)
            && n % BIT62 == 0x100_0000_0000_0000 * (a % 64) + r
  {
  }

  /** The flags are the two top bits of the first octet; the timestamp is the word without them. */
  lemma FlagsAreTopBits(raw: seq<byte>)
    requires |raw| == HEADER
    ensures var h := ParseHeader(raw);
            && (h.configPacket <==> raw[0] >= 128)
            && (h.keyFrame <==> raw[0] % 128 >= 64)
            && h.pts == FromBE([raw[0] % 64] + raw[1..8])
  {
    var top: byte := raw[0] % 64;
    assert raw[..8] == [raw[0]] + raw[1..8];
    EightOctets(raw[0], raw[1..8], raw[..8]);
    EightOctets(top, raw[1..8], [top] + raw[1..8]);
    TopBits(raw[0], FromBE(raw[1..8]));
  }

  /** For a word that was written as a number: bit 63, bit 62 and the rest. */
  lemma FlagsOfNumber(n: nat, size: seq<byte>)
    requires n < 0x1_0000_0000_0000_0000 && |size| == 4
    ensures var h := ParseHeader(BE(8, n) + size);
            && (h.configPacket <==> n / 0x8000_0000_0000_0000 == 1)
            && (h.keyFrame <==> n / 0x4000_0000_0000_0000 % 2 == 1)
            && h.pts == n % 0x4000_0000_0000_0000
  {
    assert Pow256(8) == 2 * BIT63;
    BERoundTrip(8, n);
    assert (BE(8, n) + size)[..8] == BE(8, n);
  }

  /** A stream fails to yield a frame exactly when it is shorter than a header, or than a header and the
      length that this announces; the error says whether anything was there at all. */
  lemma FailsIffShort(s: seq<byte>)
    ensures ReadFrame(s).Err? <==> |s| < 12 || |s| < 12 + Announced(s)
    ensures ReadFrame(s).Err? ==> (ReadFrame(s).error == EndOfFile <==> |s| == 0 || |s| == 12)
  {
    if |s| >= HEADER {
      SizeIsAnnounced(s);
    }
  }

  /** What a stream that is long enough yields. */
  lemma Yields(s: seq<byte>)
    requires |s| >= 12 && |s| >= 12 + Announced(s)
    ensures ReadFrame(s).Ok?
    ensures var (h, payload, rest) := ReadFrame(s).value;
            && payload == s[12..12 + Announced(s)] && rest == s[12 + Announced(s)..]
            && FrameOf(h, payload) == Frame(s[..12], payload, s[0] % 128 >= 64, s[0] >= 128)
  {
    SizeIsAnnounced(s);
    FlagsAreTopBits(s[..HEADER]);
  }

  /** A frame from an encoder that knows nothing of the reader: any word, the payload's length in four
      octets, the payload. It is read back whatever follows. */
  lemma ReadsEncoded(word: seq<byte>, payload: seq<byte>, rest: seq<byte>)
    requires |word| == 8 && |payload| < 0x1_0000_0000
    ensures var s := word + BE(4, |payload|) + payload + rest;
            && ReadFrame(s).Ok? && ReadFrame(s).value.1 == payload && ReadFrame(s).value.2 == rest
            && FrameOf(ReadFrame(s).value.0, payload)
               == Frame(word + BE(4, |payload|), payload, word[0] % 128 >= 64, word[0] >= 128)
  {
    assert Pow256(4) == 0x1_0000_0000;
    BERoundTrip(4, |payload|);
    BE32(BE(4, |payload|));
    YieldsParts(word, BE(4, |payload|), payload, rest);
  }

  lemma YieldsParts(word: seq<byte>, n: seq<byte>, payload: seq<byte>, rest: seq<byte>)
    requires |word| == 8 && |n| == 4 && |payload| == Heavy4(n[0], n[1], n[2], n[3])
    ensures var s := word + n + payload + rest;
            && ReadFrame(s).Ok? && ReadFrame(s).value.1 == payload && ReadFrame(s).value.2 == rest
            && FrameOf(ReadFrame(s).value.0, payload) == Frame(word + n, payload, word[0] % 128 >= 64, word[0] >= 128)
  {
    var s := word + n + payload + rest;
    Parts(word + n, payload, rest);
    EncodedSize(word, n, payload + rest, s);
    Yields(s);
  }

  lemma EncodedSize(word: seq<byte>, n: seq<byte>, more: seq<byte>, s: seq<byte>)
    requires |word| == 8 && |n| == 4 && s == word + n + more
    ensures Announced(s) == Heavy4(n[0], n[1], n[2], n[3])
    ensures s[..12] == word + n && s[0] == word[0]
  {
  }
}
