/**
 Field lists: the shape shared by all control messages. A field is a fixed-width number or a
 length-prefixed run of octets; a reader that is told the shapes gets the fields back.
 */
module ControlFields {
  import opened Wrappers
  import opened Bytes
  import Buffers

  datatype Field = Num(w: nat, n: nat) | Blob(w: nat, data: seq<byte>)

  datatype Shape = NumShape(w: nat) | BlobShape(w: nat)

  function ShapeOf(f: Field): Shape {
    match f
    case Num(w, _) => NumShape(w)
    case Blob(w, _) => BlobShape(w)
  }

  function Shapes(fs: seq<Field>): seq<Shape> {
    seq(|fs|, k requires 0 <= k < |fs| => ShapeOf(fs[k]))
  }

  ghost predicate Fits(f: Field) {
    match f
    case Num(w, n) => n < Pow256(w)
    case Blob(w, data) => |data| < Pow256(w)
  }

  ghost predicate AllFit(fs: seq<Field>) {
    forall f | f in fs :: Fits(f)
  }

  function Enc(f: Field): seq<byte> {
    match f
    case Num(w, n) => BE(w, n)
    case Blob(w, data) => BE(w, |data|) + data
  }

  function EncAll(fs: seq<Field>): seq<byte> {
    if fs == [] then [] else Enc(fs[0]) + EncAll(fs[1..])
  }

  /** Reads one field; the second component is what is left of the input. */
  function Take(sh: Shape, s: seq<byte>): (r: Option<(Field, seq<byte>)>)
    ensures r.Some? ==> |r.value.1| <= |s|
  {
    if |s| < sh.w then None else
    var n := FromBE(s[..sh.w]);
    if sh.NumShape? then Some((Num(sh.w, n), s[sh.w..]))
    else if |s| < sh.w + n then None
    else Some((Blob(sh.w, s[sh.w..sh.w + n]), s[sh.w + n..]))
  }

  function TakeAll(shs: seq<Shape>, s: seq<byte>): (r: Option<(seq<Field>, seq<byte>)>)
    ensures r.Some? ==> |r.value.0| == |shs| && |r.value.1| <= |s|
  {
    if shs == [] then Some(([], s)) else
    match Take(shs[0], s)
    case None => None
    case Some((f, t)) =>
      match TakeAll(shs[1..], t)
      case None => None
      case Some((fs, rest)) => Some(([f] + fs, rest))
  }

  lemma TakeOfEnc(f: Field, rest: seq<byte>)
    requires Fits(f)
    ensures Take(ShapeOf(f), Enc(f) + rest) == Some((f, rest))
  {
    var s := Enc(f) + rest;
    match f
    case Num(w, n) =>
      BERoundTrip(w, n);
      assert s[..w] == BE(w, n);
      assert s[w..] == rest;
    case Blob(w, data) =>
      BERoundTrip(w, |data|);
      assert s[..w] == BE(w, |data|);
      assert s[w..w + |data|] == data;
      assert s[w + |data|..] == rest;
  }

  lemma TakeIsSound(sh: Shape, s: seq<byte>)
    requires Take(sh, s).Some?
    ensures var (f, t) := Take(sh, s).value;
            ShapeOf(f) == sh && Fits(f) && s == Enc(f) + t
  {
    var h := s[..sh.w];
    FromBEBound(h);
    BEOfFromBE(h);
    var n := FromBE(h);
    if sh.NumShape? {
      assert s == h + s[sh.w..];
    } else {
      assert s == h + s[sh.w..sh.w + n] + s[sh.w + n..];
    }
  }

  lemma {:induction false} TakeAllOfEnc(fs: seq<Field>, rest: seq<byte>)
    requires AllFit(fs)
    ensures TakeAll(Shapes(fs), EncAll(fs) + rest) == Some((fs, rest))
    decreases |fs|
  {
    if fs == [] {
      assert [] + rest == rest;
    } else {
      var f, tail := fs[0], EncAll(fs[1..]) + rest;
      assert fs == [f] + fs[1..];
      TakeOfEnc(f, tail);
      TakeAllOfEnc(fs[1..], rest);
      Reassociate(Enc(f), EncAll(fs[1..]), rest);
      assert Shapes(fs)[1..] == Shapes(fs[1..]);
    }
  }

  lemma EncCons(f: Field, fs: seq<Field>)
    ensures EncAll([f] + fs) == Enc(f) + EncAll(fs)
  {
  }

  lemma ShapesCons(f: Field, fs: seq<Field>)
    ensures Shapes([f] + fs) == [ShapeOf(f)] + Shapes(fs)
  {
  }

  lemma {:induction false} TakeAllIsSound(shs: seq<Shape>, s: seq<byte>)
    requires TakeAll(shs, s).Some?
    ensures var (fs, rest) := TakeAll(shs, s).value;
            Shapes(fs) == shs && AllFit(fs) && s == EncAll(fs) + rest
    decreases |shs|
  {
    if shs != [] {
      var (f, t) := Take(shs[0], s).value;
      TakeIsSound(shs[0], s);
      TakeAllIsSound(shs[1..], t);
      var (fs, rest) := TakeAll(shs[1..], t).value;
      EncCons(f, fs);
      ShapesCons(f, fs);
      Reassociate(Enc(f), EncAll(fs), rest);
    }
  }

  lemma {:induction false} EncSnoc(fs: seq<Field>, f: Field)
    ensures EncAll(fs + [f]) == EncAll(fs) + Enc(f)
    decreases |fs|
  {
    if fs == [] {
      assert [] + [f] == [f] && [f][1..] == [];
    } else {
      EncSnoc(fs[1..], f);
      assert (fs + [f])[1..] == fs[1..] + [f];
      Reassociate(Enc(fs[0]), EncAll(fs[1..]), Enc(f));
    }
  }

  /** Stores a number behind the fields already in the buffer. */
  method PutNum(buf: array<byte>, off: nat, w: nat, n: nat, ghost fs: seq<Field>)
    returns (ghost fs': seq<Field>)
    requires off + w <= buf.Length && buf[..off] == EncAll(fs)
    modifies buf
    ensures fs' == fs + [Num(w, n)] && buf[..off + w] == EncAll(fs')
  {
    fs' := fs + [Num(w, n)];
    EncSnoc(fs, Num(w, n));
    Buffers.Put(buf, off, w, n);
  }

  /** Stores a length and then its octets behind the fields already in the buffer. */
  method PutBlob(buf: array<byte>, off: nat, w: nat, data: seq<byte>, ghost fs: seq<Field>)
    returns (ghost fs': seq<Field>)
    requires off + w + |data| <= buf.Length && buf[..off] == EncAll(fs)
    modifies buf
    ensures fs' == fs + [Blob(w, data)] && buf[..off + w + |data|] == EncAll(fs')
  {
    fs' := fs + [Blob(w, data)];
    EncSnoc(fs, Blob(w, data));
    Reassociate(buf[..off], BE(w, |data|), data);
    Buffers.Put(buf, off, w, |data|);
    Buffers.Copy(buf, off + w, data);
  }
}
