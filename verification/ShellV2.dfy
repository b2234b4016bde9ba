/**
 The shell-v2 demultiplexer (internal/adb/shell.go): packets of one id octet, a four-octet
 little-endian length and a payload, split into two sinks and an exit code.
 */
module ShellV2 {
  import opened Wrappers
  import opened Bytes

  const STDOUT: byte := 1
  const STDERR: byte := 2
  const EXIT: byte := 3
  const MAX_PACKET := 0x100_0000
  const HEADER := 5

  datatype Packet = Packet(id: byte, payload: seq<byte>)

  /** How a stream stops: inside a header (or before one), at an oversized length, or inside a payload. */
  datatype Tail = ShortHeader | Oversized | ShortPayload(id: byte, partial: seq<byte>)

  datatype Parsed = Parsed(packets: seq<Packet>, tail: Tail)

  datatype Error = NoError | EndOfFile | UnexpectedEndOfFile | PacketTooLarge

  /** All packets of a stream, exit or not. */
  function Parse(s: seq<byte>): Parsed
    decreases |s|
  {
    if |s| < HEADER then Parsed([], ShortHeader) else
    var n := FromLE(s[1..5]);
    if n > MAX_PACKET then Parsed([], Oversized)
    else if |s| < HEADER + n then Parsed([], ShortPayload(s[0], s[5..]))
    else
      var p := Parse(s[HEADER + n..]);
      Parsed([Packet(s[0], s[5..HEADER + n])] + p.packets, p.tail)
  }

  /** The last of the length's four octets counts the most. */
  lemma LengthIs(s: seq<byte>)
    requires |s| >= 5
    ensures FromLE(s[1..5]) == Heavy4(s[4], s[3], s[2], s[1])
  {
    LE32(s[1..5]);
  }

  function BeforeExit(ps: seq<Packet>): (r: seq<Packet>)
    ensures |r| <= |ps| && r == ps[..|r|]
    ensures forall p | p in r :: p.id != EXIT
    ensures |r| < |ps| ==> ps[|r|].id == EXIT
  {
    if ps == [] || ps[0].id == EXIT then [] else [ps[0]] + BeforeExit(ps[1..])
  }

  /** The payloads of the packets with one id, in order. */
  function Payloads(ps: seq<Packet>, id: byte): seq<byte> {
    if ps == [] then [] else (if ps[0].id == id then ps[0].payload else []) + Payloads(ps[1..], id)
  }

  predicate Exits(p: Parsed) {
    |BeforeExit(p.packets)| < |p.packets|
  }

  /** What a sink must receive: the payloads before the exit, and the part of one that was cut short. */
  function SinkOf(p: Parsed, id: byte): seq<byte> {
    Payloads(BeforeExit(p.packets), id)
    + if !Exits(p) && p.tail.ShortPayload? && p.tail.id == id then p.tail.partial else []
  }

  function CodeOf(p: Parsed): int {
    if !Exits(p) then -1 else
    var payload := p.packets[|BeforeExit(p.packets)|].payload;
    if payload == [] then 0 else payload[0]
  }

  function ErrorOf(p: Parsed): Error {
    if Exits(p) || p.tail.ShortHeader? then NoError
    else if p.tail.Oversized? then PacketTooLarge
    else if p.tail.id == EXIT && p.tail.partial != [] then UnexpectedEndOfFile
    else EndOfFile
  }

  class GrowBuffer {
    var buf: seq<byte>

    constructor ()
      ensures buf == []
    {
      buf := [];
    }

    method Write(p: seq<byte>)
      modifies this
      ensures buf == old(buf) + p
    {
      buf := buf + p;
    }
  }

  function Only(id: byte, sink: byte, payload: seq<byte>): seq<byte> {
    if id == sink then payload else []
  }

  /** A packet other than an exit passes its payload on and changes nothing else. */
  lemma Passes(x: Packet, p: Parsed, q: Parsed, sink: byte)
    requires x.id != EXIT && p == Parsed([x] + q.packets, q.tail)
    ensures CodeOf(p) == CodeOf(q) && ErrorOf(p) == ErrorOf(q)
    ensures SinkOf(p, sink) == Only(x.id, sink, x.payload) + SinkOf(q, sink)
  {
    var b := BeforeExit(q.packets);
    assert p.packets[1..] == q.packets;
    assert BeforeExit(p.packets) == [x] + b;
    assert ([x] + b)[1..] == b;
    assert Payloads([x] + b, sink) == Only(x.id, sink, x.payload) + Payloads(b, sink);
    Reassociate(Only(x.id, sink, x.payload), Payloads(b, sink),
                if !Exits(q) && q.tail.ShortPayload? && q.tail.id == sink then q.tail.partial else []);
  }

  lemma ParseStep(s: seq<byte>, n: nat, x: Packet, t: seq<byte>)
    requires |s| >= HEADER && n == FromLE(s[1..5]) <= MAX_PACKET && |s| >= HEADER + n
    requires x == Packet(s[0], s[5..HEADER + n]) && t == s[HEADER + n..]
    ensures Parse(s) == Parsed([x] + Parse(t).packets, Parse(t).tail)
  {
  }

  /** Streams a payload into the matching sink, or discards it. */
  method PassOn(id: byte, payload: seq<byte>, stdout: GrowBuffer, stderr: GrowBuffer)
    requires stdout != stderr
    modifies stdout, stderr
    ensures stdout.buf == old(stdout.buf) + Only(id, STDOUT, payload)
    ensures stderr.buf == old(stderr.buf) + Only(id, STDERR, payload)
  {
    if |payload| == 0 {
      return;
    }
    if id == STDOUT {
      stdout.Write(payload);
    } else if id == STDERR {
      stderr.Write(payload);
    }
  }

  /** The outcome when the stream stops at a packet that does not pass. */
  lemma Stops(s: seq<byte>)
    requires |s| >= HEADER
    ensures FromLE(s[1..5]) > MAX_PACKET ==> Parse(s) == Parsed([], Oversized)
    ensures FromLE(s[1..5]) <= MAX_PACKET && |s| < HEADER + FromLE(s[1..5]) ==>
            Parse(s) == Parsed([], ShortPayload(s[0], s[5..]))
  {
  }

  lemma StopsAtExit(s: seq<byte>, n: nat)
    requires |s| >= HEADER && n == FromLE(s[1..5]) <= MAX_PACKET && |s| >= HEADER + n && s[0] == EXIT
    ensures BeforeExit(Parse(s).packets) == [] && Exits(Parse(s))
    ensures CodeOf(Parse(s)) == if n == 0 then 0 else s[5]
  {
  }

  /** The source's loop; r is what is left of the input. */
  method Demux(input: seq<byte>, stdout: GrowBuffer, stderr: GrowBuffer) returns (code: int, err: Error)
    requires stdout != stderr
    modifies stdout, stderr
    ensures stdout.buf == old(stdout.buf) + SinkOf(Parse(input), 1)
    ensures stderr.buf == old(stderr.buf) + SinkOf(Parse(input), 2)
    ensures code == CodeOf(Parse(input)) && err == ErrorOf(Parse(input))
  {
    var r := input;
    ghost var out, errs := old(stdout.buf) + SinkOf(Parse(r), STDOUT), old(stderr.buf) + SinkOf(Parse(r), STDERR);
    while true
      invariant CodeOf(Parse(input)) == CodeOf(Parse(r)) && ErrorOf(Parse(input)) == ErrorOf(Parse(r))
      invariant out == stdout.buf + SinkOf(Parse(r), STDOUT)
      invariant errs == stderr.buf + SinkOf(Parse(r), STDERR)
      decreases |r|
    {
      if |r| < HEADER {
        return -1, NoError;
      }
      Stops(r);
      var id := r[0];
      var ln := FromLE(r[1..5]);
      if ln > MAX_PACKET {
        return -1, PacketTooLarge;
      }
      if id == EXIT {
        if |r| < HEADER + ln {
          return -1, if |r| == HEADER then EndOfFile else UnexpectedEndOfFile;
        }
        StopsAtExit(r, ln);
        return if ln == 0 then 0 else r[5], NoError;
      }
      if |r| < HEADER + ln {
        PassOn(id, r[5..], stdout, stderr);
        return -1, EndOfFile;
      }
      var x, t := Packet(id, r[5..HEADER + ln]), r[HEADER + ln..];
      ParseStep(r, ln, x, t);
      Passes(x, Parse(r), Parse(t), STDOUT);
      Passes(x, Parse(r), Parse(t), STDERR);
      Reassociate(stdout.buf, Only(id, STDOUT, x.payload), SinkOf(Parse(t), STDOUT));
      Reassociate(stderr.buf, Only(id, STDERR, x.payload), SinkOf(Parse(t), STDERR));
      PassOn(id, x.payload, stdout, stderr);
      r := t;
    }
  }

  // ---------------------------------------------------------------- round trip

  function Encode(p: Packet): seq<byte> {
    [p.id] + LE(4, |p.payload|) + p.payload
  }

  function EncodeAll(ps: seq<Packet>): seq<byte> {
    if ps == [] then [] else Encode(ps[0]) + EncodeAll(ps[1..])
  }

  ghost predicate WithinCap(ps: seq<Packet>) {
    forall p | p in ps :: |p.payload| <= 0x100_0000
  }

  lemma ParseOfEncode(p: Packet, rest: seq<byte>)
    requires |p.payload| <= MAX_PACKET
    ensures Parse(Encode(p) + rest) == Parsed([p] + Parse(rest).packets, Parse(rest).tail)
  {
    var s, n := Encode(p) + rest, |p.payload|;
    assert Pow256(4) == 0x1_0000_0000;
    LERoundTrip(4, n);
    assert s[0] == p.id && s[1..5] == LE(4, n);
    assert s[5..HEADER + n] == p.payload && s[HEADER + n..] == rest;
  }

  /** Any packets within the size cap are read back, whatever follows them. */
  lemma {:induction false} ParseOfEncodeAll(ps: seq<Packet>, rest: seq<byte>)
    requires WithinCap(ps)
    ensures Parse(EncodeAll(ps) + rest) == Parsed(ps + Parse(rest).packets, Parse(rest).tail)
    decreases |ps|
  {
    var q := Parse(rest);
    if ps == [] {
      assert [] + rest == rest && [] + q.packets == q.packets;
    } else {
      var more := EncodeAll(ps[1..]) + rest;
      Reassociate(Encode(ps[0]), EncodeAll(ps[1..]), rest);
      ParseOfEncodeAll(ps[1..], rest);
      ParseOfEncode(ps[0], more);
      Reassociate([ps[0]], ps[1..], q.packets);
      assert ps == [ps[0]] + ps[1..];
    }
  }

  /** What a stream that stops in this way has left. */
  ghost predicate LeftAt(rest: seq<byte>, tail: Tail) {
    match tail
    case ShortHeader => |rest| < 5
    case Oversized => |rest| >= 5 && FromLE(rest[1..5]) > 0x100_0000
    case ShortPayload(id, partial) =>
      && |rest| >= 5 && rest[0] == id && rest[5..] == partial
      && |partial| < FromLE(rest[1..5]) <= 0x100_0000
  }

  /** The parse accounts for every octet: the stream begins with its packets' encodings... */
  lemma {:induction false} ParseIsSound(s: seq<byte>)
    ensures WithinCap(Parse(s).packets)
    ensures EncodeAll(Parse(s).packets) <= s
    decreases |s|
  {
    if |s| >= HEADER && FromLE(s[1..5]) <= MAX_PACKET && |s| >= HEADER + FromLE(s[1..5]) {
      var n := FromLE(s[1..5]);
      var x, t := Packet(s[0], s[5..HEADER + n]), s[HEADER + n..];
      ParseStep(s, n, x, t);
      ParseIsSound(t);
      EncodeCons(x, Parse(t).packets);
      PacketOctets(s, n, x);
      PrefixUnder(s, HEADER + n, EncodeAll(Parse(t).packets));
    }
  }

  /** ... and what is left of it is as the tail says. */
  lemma {:induction false} TailIsSound(s: seq<byte>)
    ensures |EncodeAll(Parse(s).packets)| <= |s|
    ensures LeftAt(s[|EncodeAll(Parse(s).packets)|..], Parse(s).tail)
    decreases |s|
  {
    if |s| >= HEADER && FromLE(s[1..5]) <= MAX_PACKET && |s| >= HEADER + FromLE(s[1..5]) {
      var n := FromLE(s[1..5]);
      var x, t := Packet(s[0], s[5..HEADER + n]), s[HEADER + n..];
      ParseStep(s, n, x, t);
      TailIsSound(t);
      TailStep(s, HEADER + n, x, Parse(t));
    } else {
      assert s[0..] == s;
    }
  }

  lemma TailStep(s: seq<byte>, n: nat, x: Packet, p: Parsed)
    requires n == HEADER + |x.payload| && n + |EncodeAll(p.packets)| <= |s|
    requires LeftAt(s[n..][|EncodeAll(p.packets)|..], p.tail)
    ensures |EncodeAll([x] + p.packets)| == n + |EncodeAll(p.packets)|
    ensures LeftAt(s[|EncodeAll([x] + p.packets)|..], p.tail)
  {
    var m := |EncodeAll(p.packets)|;
    EncodeCons(x, p.packets);
    assert s[n + m..] == s[n..][m..];
  }

  lemma PacketOctets(s: seq<byte>, n: nat, x: Packet)
    requires |s| >= HEADER && n == FromLE(s[1..5]) && |s| >= HEADER + n
    requires x == Packet(s[0], s[5..HEADER + n])
    ensures Encode(x) == s[..HEADER + n]
  {
    LEOfFromLE(s[1..5]);
    assert s[..HEADER + n] == [s[0]] + s[1..5] + s[5..HEADER + n];
  }

  lemma EncodeCons(x: Packet, ps: seq<Packet>)
    ensures EncodeAll([x] + ps) == Encode(x) + EncodeAll(ps)
  {
  }

  lemma PrefixUnder(s: seq<byte>, n: nat, e: seq<byte>)
    requires n <= |s| && e <= s[n..]
    ensures s[..n] + e <= s
  {
  }

  /** What a sink's payloads are: its own packets', in order, and no others. */
  lemma PayloadsOf(ps: seq<Packet>, id: byte, other: byte, payload: seq<byte>)
    requires other != id
    ensures Payloads([], id) == []
    ensures Payloads([Packet(id, payload)] + ps, id) == payload + Payloads(ps, id)
    ensures Payloads([Packet(other, payload)] + ps, id) == Payloads(ps, id)
  {
    var mine, theirs := [Packet(id, payload)] + ps, [Packet(other, payload)] + ps;
    assert mine[1..] == ps && theirs[1..] == ps;
    assert [] + Payloads(ps, id) == Payloads(ps, id);
  }

  ghost predicate NoExit(ps: seq<Packet>) {
    forall p | p in ps :: p.id != 3
  }

  lemma {:induction false} BeforeExitIs(ps: seq<Packet>, k: nat)
    requires k <= |ps| && NoExit(ps[..k]) && (k < |ps| ==> ps[k].id == 3)
    ensures BeforeExit(ps) == ps[..k]
    decreases k
  {
    if k > 0 {
      assert ps[..k][0] == ps[0];
      assert ps[..k] == [ps[0]] + ps[1..][..k - 1];
      BeforeExitIs(ps[1..], k - 1);
    }
  }

  /** Each sink gets its payloads before the first exit, and the code is the first octet of that
      exit's payload, whatever else follows in the stream. */
  lemma DemuxOfExit(ps: seq<Packet>, status: seq<byte>, rest: seq<byte>, id: byte)
    requires WithinCap(ps) && NoExit(ps) && |status| <= 0x100_0000
    ensures var p := Parse(EncodeAll(ps + [Packet(3, status)]) + rest);
            && SinkOf(p, id) == Payloads(ps, id) && ErrorOf(p) == NoError
            && CodeOf(p) == if status == [] then 0 else status[0]
  {
    var all, q := ps + [Packet(3, status)], Parse(rest);
    ParseOfEncodeAll(all, rest);
    assert all[..|ps|] == ps;
    assert (all + q.packets)[..|ps|] == ps && (all + q.packets)[|ps|] == Packet(3, status);
    BeforeExitIs(all + q.packets, |ps|);
    assert Payloads(ps, id) + [] == Payloads(ps, id);
  }

  /** Without an exit, what is left of the stream decides. */
  lemma Unfinished(ps: seq<Packet>, rest: seq<byte>, id: byte)
    requires WithinCap(ps) && NoExit(ps) && Parse(rest).packets == []
    ensures var p := Parse(EncodeAll(ps) + rest);
            && p.tail == Parse(rest).tail && !Exits(p)
            && SinkOf(p, id) == Payloads(ps, id) + SinkOf(Parse(rest), id)
            && CodeOf(p) == -1 && ErrorOf(p) == ErrorOf(Parse(rest))
  {
    ParseOfEncodeAll(ps, rest);
    assert ps + [] == ps && ps[..|ps|] == ps;
    BeforeExitIs(ps, |ps|);
    var part := if Parse(rest).tail.ShortPayload? && Parse(rest).tail.id == id then Parse(rest).tail.partial else [];
    assert [] + part == part;
  }

  /** A stream that ends after whole packets, or inside a header. */
  lemma DemuxOfCutHeader(ps: seq<Packet>, rest: seq<byte>, id: byte)
    requires WithinCap(ps) && NoExit(ps) && |rest| < 5
    ensures var p := Parse(EncodeAll(ps) + rest);
            SinkOf(p, id) == Payloads(ps, id) && CodeOf(p) == -1 && ErrorOf(p) == NoError
  {
    Unfinished(ps, rest, id);
    assert Payloads(ps, id) + [] == Payloads(ps, id);
  }

  /** One that is cut inside a payload: the part that did arrive still goes to its sink. */
  lemma DemuxOfCutPayload(ps: seq<Packet>, cut: byte, n: nat, part: seq<byte>, id: byte)
    requires WithinCap(ps) && NoExit(ps) && |part| < n <= 0x100_0000
    ensures var p := Parse(EncodeAll(ps) + ([cut] + LE(4, n) + part));
            && (cut == id ==> SinkOf(p, id) == Payloads(ps, id) + part)
            && (cut != id ==> SinkOf(p, id) == Payloads(ps, id))
            && CodeOf(p) == -1
            && ErrorOf(p) == if cut == 3 && part != [] then UnexpectedEndOfFile else EndOfFile
  {
    var rest := [cut] + LE(4, n) + part;
    HeaderOf(rest, cut, n, part);
    Stops(rest);
    Unfinished(ps, rest, id);
    CutAlone(cut, part, id);
    assert Payloads(ps, id) + [] == Payloads(ps, id);
  }

  lemma CutAlone(cut: byte, part: seq<byte>, id: byte)
    ensures var p := Parsed([], ShortPayload(cut, part));
            && SinkOf(p, id) == Only(cut, id, part)
            && ErrorOf(p) == if cut == 3 && part != [] then UnexpectedEndOfFile else EndOfFile
  {
    assert [] + part == part;
  }

  /** One with a length above the cap. */
  lemma DemuxOfOversized(ps: seq<Packet>, big: byte, n: nat, more: seq<byte>, id: byte)
    requires WithinCap(ps) && NoExit(ps) && 0x100_0000 < n < 0x1_0000_0000
    ensures var p := Parse(EncodeAll(ps) + ([big] + LE(4, n) + more));
            SinkOf(p, id) == Payloads(ps, id) && CodeOf(p) == -1 && ErrorOf(p) == PacketTooLarge
  {
    var rest := [big] + LE(4, n) + more;
    HeaderOf(rest, big, n, more);
    Unfinished(ps, rest, id);
    assert Payloads(ps, id) + [] == Payloads(ps, id);
  }

  lemma HeaderOf(s: seq<byte>, id: byte, n: nat, more: seq<byte>)
    requires n < 0x1_0000_0000 && s == [id] + LE(4, n) + more
    ensures |s| == 5 + |more| && s[0] == id && FromLE(s[1..5]) == n && s[5..] == more
  {
    assert Pow256(4) == 0x1_0000_0000;
    LERoundTrip(4, n);
    assert s[1..5] == LE(4, n);
  }
}
