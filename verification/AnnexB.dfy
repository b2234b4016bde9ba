/**
 The Annex-B splitter of the recorder (internal/session/recording.go), and what it means.

 A byte string is read as pieces: a three- or four-octet start code followed by a unit.
 The byte stream format is section B.1 of ITU-T H.264.
 */
module AnnexB {
  import opened Bytes

  const CODE3: seq<byte> := [0, 0, 1]
  const CODE4: seq<byte> := [0, 0, 0, 1]

  predicate Code3At(b: seq<byte>, i: nat) {
    i + 2 < |b| && b[i] == 0 && b[i + 1] == 0 && b[i + 2] == 1
  }

  predicate Code4At(b: seq<byte>, i: nat) {
    i + 3 < |b| && b[i] == 0 && b[i + 1] == 0 && b[i + 2] == 0 && b[i + 3] == 1
  }

  predicate CodeBegins(b: seq<byte>, i: nat) {
    Code3At(b, i) || Code4At(b, i)
  }

  function CodeLen(b: seq<byte>, i: nat): nat
    requires CodeBegins(b, i)
  {
    if Code3At(b, i) then 3 else 4
  }

  /** No start code of b begins at a position in lo..hi. */
  ghost predicate Clean(b: seq<byte>, lo: nat, hi: nat) {
    forall k | lo <= k < hi :: !CodeBegins(b, k)
  }

  /** The least position from i on where a start code begins, or the end of b. */
  function NextCode(b: seq<byte>, i: nat): (n: nat)
    requires i <= |b|
    ensures i <= n <= |b| && Clean(b, i, n)
    ensures n < |b| ==> CodeBegins(b, n)
    decreases |b| - i
  {
    if i == |b| || CodeBegins(b, i) then i else NextCode(b, i + 1)
  }

  /** The units of b when position i follows a start code. */
  function Units(b: seq<byte>, i: nat): seq<seq<byte>>
    requires i <= |b|
    decreases |b| - i
  {
    if i == |b| then [] else
    var n := NextCode(b, i);
    if n == |b| then [b[i..]] else [b[i..n]] + Units(b, n + CodeLen(b, n))
  }

  function Split(b: seq<byte>): seq<seq<byte>> {
    var n := NextCode(b, 0);
    if n == |b| then [] else Units(b, n + CodeLen(b, n))
  }

  lemma NextCodeIs(b: seq<byte>, i: nat, j: nat)
    requires i <= j <= |b| && Clean(b, i, j)
    requires j == |b| || CodeBegins(b, j)
    ensures NextCode(b, i) == j
  {
  }

  /** A scan that stops two octets before the end has missed nothing. */
  lemma NoCodeNearEnd(b: seq<byte>, i: nat, j: nat)
    requires i <= j <= |b| <= j + 2 && Clean(b, i, j)
    ensures NextCode(b, i) == |b|
  {
  }

  /** The scan for the next start code, -1 when there is none; the splitter runs it twice. */
  method ScanCode(b: seq<byte>, i: nat) returns (next: int)
    requires i <= |b|
    ensures next == if NextCode(b, i) == |b| then -1 else NextCode(b, i)
    ensures next != -1 ==> CodeBegins(b, next) && CodeLen(b, next) == if b[next + 2] == 1 then 3 else 4
  {
    next := -1;
    var j: nat := i;
    while j + 2 < |b|
      invariant i <= j <= |b| && Clean(b, i, j)
    {
      if b[j] == 0 && b[j + 1] == 0 {
        if b[j + 2] == 1 {
          NextCodeIs(b, i, j);
          return j;
        }
        if j + 3 < |b| && b[j + 2] == 0 && b[j + 3] == 1 {
          NextCodeIs(b, i, j);
          return j;
        }
      }
      j := j + 1;
    }
    NoCodeNearEnd(b, i, j);
  }

  lemma UnitsTurn(b: seq<byte>, i: nat, n: nat, m: nat)
    requires i < |b| && n == NextCode(b, i) < |b| && m == n + CodeLen(b, n)
    ensures Units(b, i) == [b[i..n]] + Units(b, m)
  {
  }

  /** One turn of the splitter: what is found at i goes to the end of the output. */
  lemma SplitTurn(b: seq<byte>, spec: seq<seq<byte>>, out: seq<seq<byte>>, i: nat, n: nat, m: nat)
    requires i < |b| && spec == out + Units(b, i)
    requires n == NextCode(b, i) < |b| && m == n + CodeLen(b, n)
    ensures spec == out + [b[i..n]] + Units(b, m)
  {
  }

  /** The source's splitter, with its running start index. */
  method SplitAnnexB(b: seq<byte>) returns (out: seq<seq<byte>>)
    ensures out == Split(b)
  {
    out := [];
    var next := ScanCode(b, 0);
    if next == -1 {
      return;
    }
    ghost var spec := Split(b);
    var start: nat := if b[next + 2] == 1 then next + 3 else next + 4;
    assert spec == Units(b, start);
    while start < |b|
      invariant start <= |b|
      invariant spec == out + Units(b, start)
      decreases |b| - start
    {
      next := ScanCode(b, start);
      if next == -1 {
        out := out + [b[start..]];
        return;
      }
      var after := if b[next + 2] == 1 then next + 3 else next + 4;
      SplitTurn(b, spec, out, start, next, after);
      out := out + [b[start..next]];
      start := after;
    }
  }

  // ---------------------------------------------------------------- factorisation

  datatype Piece = Piece(code: seq<byte>, unit: seq<byte>)

  function Flatten(ps: seq<Piece>): seq<byte> {
    if ps == [] then [] else ps[0].code + ps[0].unit + Flatten(ps[1..])
  }

  function UnitList(ps: seq<Piece>): seq<seq<byte>> {
    seq(|ps|, k requires 0 <= k < |ps| => ps[k].unit)
  }

  /** An empty unit at the very end of the input is not emitted; an empty one elsewhere is. */
  function Emitted(us: seq<seq<byte>>): seq<seq<byte>> {
    if us != [] && us[|us| - 1] == [] then us[..|us| - 1] else us
  }

  /** Piece x lies in b at position p and no start code of b begins inside its unit. */
  ghost predicate Lies(b: seq<byte>, p: nat, x: Piece) {
    var s := p + |x.code|;
    && (x.code == CODE3 || x.code == CODE4)
    && s + |x.unit| <= |b|
    && b[p..s] == x.code
    && b[s..s + |x.unit|] == x.unit
    && Clean(b, s, s + |x.unit|)
  }

  /** The pieces lie in b end to end from position p to the end of b. */
  ghost predicate Tiles(b: seq<byte>, p: nat, ps: seq<Piece>)
    decreases |ps|
  {
    if ps == [] then p == |b| else
    Lies(b, p, ps[0]) && Tiles(b, p + |ps[0].code| + |ps[0].unit|, ps[1..])
  }

  lemma TilesCons(b: seq<byte>, p: nat, e: nat, x: Piece, ps: seq<Piece>)
    requires Lies(b, p, x) && e == p + |x.code| + |x.unit| && Tiles(b, e, ps)
    ensures Tiles(b, p, [x] + ps)
  {
  }

  /** The piece of b at a position where a start code begins. */
  function PieceAt(b: seq<byte>, p: nat): Piece
    requires CodeBegins(b, p)
  {
    var s := p + CodeLen(b, p);
    Piece(b[p..s], b[s..NextCode(b, s)])
  }

  function Pieces(b: seq<byte>, p: nat): seq<Piece>
    requires p <= |b| && (p < |b| ==> CodeBegins(b, p))
    decreases |b| - p
  {
    if p == |b| then [] else [PieceAt(b, p)] + Pieces(b, NextCode(b, p + CodeLen(b, p)))
  }

  lemma PieceLies(b: seq<byte>, p: nat)
    requires CodeBegins(b, p)
    ensures Lies(b, p, PieceAt(b, p))
    ensures |PieceAt(b, p).code| == CodeLen(b, p)
    ensures p + |PieceAt(b, p).code| + |PieceAt(b, p).unit| == NextCode(b, p + CodeLen(b, p))
  {
  }

  /** What lies at p begins with the start code that the octets there show. */
  lemma LyingCode(b: seq<byte>, p: nat, x: Piece)
    requires Lies(b, p, x)
    ensures CodeBegins(b, p) && CodeLen(b, p) == |x.code|
  {
    var c := b[p..p + |x.code|];
    assert b[p] == c[0] && b[p + 1] == c[1] && b[p + 2] == c[2];
    assert x.code == CODE4 ==> b[p + 3] == c[3];
  }

  lemma {:induction false} PiecesTile(b: seq<byte>, p: nat)
    requires p <= |b| && (p < |b| ==> CodeBegins(b, p))
    ensures Tiles(b, p, Pieces(b, p))
    decreases |b| - p
  {
    if p < |b| {
      var n := NextCode(b, p + CodeLen(b, p));
      PieceLies(b, p);
      PiecesTile(b, n);
      TilesCons(b, p, n, PieceAt(b, p), Pieces(b, n));
    }
  }

  lemma {:induction false} TilesFlatten(b: seq<byte>, p: nat, ps: seq<Piece>)
    requires p <= |b| && Tiles(b, p, ps)
    ensures b[p..] == Flatten(ps)
    decreases |ps|
  {
    if ps != [] {
      var s := p + |ps[0].code|;
      var e := s + |ps[0].unit|;
      TilesFlatten(b, e, ps[1..]);
      assert b[p..] == b[p..s] + b[s..e] + b[e..];
    }
  }

  lemma UnitsStep(b: seq<byte>, s: nat, e: nat, x: seq<byte>)
    requires s <= e <= |b| && b[s..e] == x && Clean(b, s, e)
    requires e == |b| || CodeBegins(b, e)
    ensures e == |b| ==> Units(b, s) == Emitted([x])
    ensures e < |b| ==> Units(b, s) == [x] + Units(b, e + CodeLen(b, e))
  {
    NextCodeIs(b, s, e);
    assert e == |b| ==> b[s..] == x;
  }

  /** What follows the code of the first piece splits into the units of the pieces. */
  lemma {:induction false} TiledUnits(b: seq<byte>, p: nat, s: nat, ps: seq<Piece>)
    requires ps != [] && Tiles(b, p, ps) && s == p + |ps[0].code|
    ensures CodeBegins(b, p) && CodeLen(b, p) == |ps[0].code|
    ensures Units(b, s) == Emitted(UnitList(ps))
    decreases |ps|
  {
    LyingCode(b, p, ps[0]);
    var e := s + |ps[0].unit|;
    if |ps| == 1 {
      UnitsStep(b, s, e, ps[0].unit);
      assert UnitList(ps) == [ps[0].unit];
    } else {
      var m := e + |ps[1].code|;
      TiledUnits(b, e, m, ps[1..]);
      UnitsOfTwo(b, s, e, m, ps);
    }
  }

  lemma EmittedCons(u: seq<byte>, us: seq<seq<byte>>)
    requires us != []
    ensures Emitted([u] + us) == [u] + Emitted(us)
  {
  }

  lemma UnitListCons(ps: seq<Piece>)
    requires ps != []
    ensures UnitList(ps) == [ps[0].unit] + UnitList(ps[1..])
  {
  }

  lemma {:induction false} UnitsOfTwo(b: seq<byte>, s: nat, e: nat, m: nat, ps: seq<Piece>)
    requires |ps| > 1 && s <= e <= m <= |b| && b[s..e] == ps[0].unit && Clean(b, s, e)
    requires CodeBegins(b, e) && m == e + CodeLen(b, e)
    requires Units(b, m) == Emitted(UnitList(ps[1..]))
    ensures Units(b, s) == Emitted(UnitList(ps))
  {
    NextCodeIs(b, s, e);
    UnitsTurn(b, s, e, m);
    UnitListCons(ps);
    EmittedCons(ps[0].unit, UnitList(ps[1..]));
  }

  /** Every input is a prefix without start codes followed by pieces whose units are the
      output, but for a trailing empty one; no start code begins in the prefix or in a unit. */
  lemma SplitFactorises(b: seq<byte>)
    ensures var n := NextCode(b, 0);
            && Clean(b, 0, n)
            && Tiles(b, n, Pieces(b, n))
            && b == b[..n] + Flatten(Pieces(b, n))
            && Split(b) == Emitted(UnitList(Pieces(b, n)))
  {
    var n := NextCode(b, 0);
    var ps := Pieces(b, n);
    assert Tiles(b, n, ps) by {
      PiecesTile(b, n);
    }
    assert Split(b) == Emitted(UnitList(ps)) by {
      FactorisationUnique(b, n, ps);
    }
    assert b == b[..n] + Flatten(ps) by {
      TilesFlatten(b, n, ps);
      Whole(b, n, Flatten(ps));
    }
  }

  lemma Whole(b: seq<byte>, n: nat, tail: seq<byte>)
    requires n <= |b| && tail == b[n..]
    ensures b == b[..n] + tail
  {
  }

  /** The output is all units of the pieces, or all but the last one if that is empty. */
  lemma OnlyTrailingEmptyIsLeftOut(b: seq<byte>)
    ensures var us := UnitList(Pieces(b, NextCode(b, 0)));
            if us != [] && us[|us| - 1] == [] then Split(b) + [[]] == us else Split(b) == us
  {
    SplitFactorises(b);
    EmittedIs(UnitList(Pieces(b, NextCode(b, 0))), Split(b));
  }

  lemma EmittedIs(us: seq<seq<byte>>, out: seq<seq<byte>>)
    requires out == Emitted(us)
    ensures if us != [] && us[|us| - 1] == [] then out + [[]] == us else out == us
  {
  }

  /** That factorisation is the only one, so it determines the output. */
  lemma FactorisationUnique(b: seq<byte>, p: nat, ps: seq<Piece>)
    requires p <= |b| && Clean(b, 0, p) && Tiles(b, p, ps)
    ensures p == NextCode(b, 0) && Split(b) == Emitted(UnitList(ps))
  {
    if ps != [] {
      TiledUnits(b, p, p + |ps[0].code|, ps);
    }
    NextCodeIs(b, 0, p);
  }

  // ---------------------------------------------------------------- round trip

  ghost predicate NoCodeInside(u: seq<byte>) {
    forall k | 0 <= k < |u| :: !Code3At(u, k)
  }

  /** Units that survive joining with any mix of start codes: none holds 00 00 01, the last
      is not empty, and none of the others ends in 00. */
  ghost predicate Encodable(us: seq<seq<byte>>) {
    && (forall k | 0 <= k < |us| :: NoCodeInside(us[k]))
    && (forall k | 0 <= k < |us| - 1 :: us[k] != [] ==> us[k][|us[k]| - 1] != 0)
    && (us != [] ==> us[|us| - 1] != [])
  }

  ghost predicate Coded(ps: seq<Piece>) {
    forall k | 0 <= k < |ps| :: ps[k].code == CODE3 || ps[k].code == CODE4
  }

  /** No start code of b begins inside a unit that ends b or does not end in 00. */
  lemma UnitIsClean(b: seq<byte>, s: nat, u: seq<byte>)
    requires s + |u| <= |b| && b[s..s + |u|] == u && NoCodeInside(u)
    requires s + |u| == |b| || (u != [] ==> u[|u| - 1] != 0)
    ensures Clean(b, s, s + |u|)
  {
    assert forall k | s <= k < s + |u| :: b[k] == u[k - s];
    forall k | s <= k < s + |u| ensures !CodeBegins(b, k) {
      assert !Code3At(u, k - s);
      assert k + 1 < s + |u| ==> !Code3At(u, k + 1 - s);
    }
  }

  lemma JoinHead(pre: seq<byte>, x: Piece, rest: seq<byte>)
    requires (x.code == CODE3 || x.code == CODE4) && NoCodeInside(x.unit)
    requires rest == [] || (x.unit != [] ==> x.unit[|x.unit| - 1] != 0)
    ensures Lies(pre + x.code + x.unit + rest, |pre|, x)
  {
    var b := pre + x.code + x.unit + rest;
    var s := |pre| + |x.code|;
    assert b[|pre|..s] == x.code;
    assert b[s..s + |x.unit|] == x.unit;
    UnitIsClean(b, s, x.unit);
  }

  lemma {:induction false} JoinTiles(pre: seq<byte>, ps: seq<Piece>)
    requires Coded(ps) && Encodable(UnitList(ps))
    ensures Tiles(pre + Flatten(ps), |pre|, ps)
    decreases |ps|
  {
    if ps == [] {
      assert pre + Flatten(ps) == pre;
    } else {
      var x, rest := ps[0], Flatten(ps[1..]);
      assert UnitList(ps)[0] == x.unit;
      var pre' := pre + x.code + x.unit;
      var b := pre + Flatten(ps);
      assert b == pre' + rest;
      assert Lies(b, |pre|, x) by {
        JoinHead(pre, x, rest);
      }
      assert Tiles(b, |pre'|, ps[1..]) by {
        EncodableTail(ps);
        JoinTiles(pre', ps[1..]);
      }
      TilesCons(b, |pre|, |pre'|, x, ps[1..]);
      assert ps == [x] + ps[1..];
    }
  }

  lemma EncodableTail(ps: seq<Piece>)
    requires ps != [] && Encodable(UnitList(ps))
    ensures Encodable(UnitList(ps[1..]))
  {
    var us := UnitList(ps);
    assert UnitList(ps[1..]) == us[1..];
    assert forall k | 0 <= k < |us| - 1 :: us[1..][k] == us[k + 1];
  }

  /** Joining encodable units with any mix of start codes and splitting gives the units back. */
  lemma SplitOfJoin(ps: seq<Piece>)
    requires Coded(ps) && Encodable(UnitList(ps))
    ensures Split(Flatten(ps)) == UnitList(ps)
  {
    var b := Flatten(ps);
    assert Tiles(b, 0, ps) by {
      JoinTiles([], ps);
      assert [] + Flatten(ps) == b;
    }
    FactorisationUnique(b, 0, ps);
    assert Emitted(UnitList(ps)) == UnitList(ps);
  }

  function Short(us: seq<seq<byte>>): seq<Piece> {
    seq(|us|, k requires 0 <= k < |us| => Piece(CODE3, us[k]))
  }

  /** Three-octet codes give the shortest join, and the only one of that length. */
  lemma {:induction false} ShortIsShortest(qs: seq<Piece>)
    requires Coded(qs)
    ensures |Flatten(Short(UnitList(qs)))| <= |Flatten(qs)|
    ensures |Flatten(Short(UnitList(qs)))| == |Flatten(qs)| ==> qs == Short(UnitList(qs))
    decreases |qs|
  {
    if qs != [] {
      var ss := Short(UnitList(qs));
      assert ss[1..] == Short(UnitList(qs[1..]));
      ShortIsShortest(qs[1..]);
      assert qs == [qs[0]] + qs[1..] && ss == [ss[0]] + ss[1..];
    }
  }

  lemma {:induction false} TilesCoded(b: seq<byte>, p: nat, ps: seq<Piece>)
    requires Tiles(b, p, ps)
    ensures Coded(ps)
    decreases |ps|
  {
    if ps != [] {
      TilesCoded(b, p + |ps[0].code| + |ps[0].unit|, ps[1..]);
      assert forall k | 0 < k < |ps| :: ps[k] == ps[1..][k - 1];
    }
  }

  lemma {:induction false} FlattenLast(ps: seq<Piece>)
    requires ps != []
    ensures |Flatten(ps)| == |Flatten(ps[..|ps| - 1])| + |ps[|ps| - 1].code| + |ps[|ps| - 1].unit|
    decreases |ps|
  {
    if |ps| == 1 {
      assert ps[1..] == [] && ps[..0] == [];
    } else {
      var qs := ps[..|ps| - 1];
      FlattenLast(ps[1..]);
      assert ps[1..][..|ps| - 2] == qs[1..];
      assert qs[0] == ps[0];
    }
  }

  lemma EncodableCons(u: seq<byte>, us: seq<seq<byte>>)
    requires NoCodeInside(u) && Encodable(us)
    requires if us == [] then u != [] else u != [] ==> u[|u| - 1] != 0
    ensures Encodable([u] + us)
  {
  }

  /** A unit in which no start code of b begins holds none itself, and does not end in 00
      if a three-octet code follows it. */
  lemma CleanUnit(b: seq<byte>, s: nat, u: seq<byte>)
    requires s + |u| <= |b| && b[s..s + |u|] == u && Clean(b, s, s + |u|)
    ensures NoCodeInside(u)
    ensures Code3At(b, s + |u|) && u != [] ==> u[|u| - 1] != 0
  {
    assert forall k | s <= k < s + |u| :: b[k] == u[k - s];
    forall k | 0 <= k < |u| ensures !Code3At(u, k) {
      assert !CodeBegins(b, s + k);
    }
    if Code3At(b, s + |u|) && u != [] {
      assert !CodeBegins(b, s + |u| - 1);
    }
  }

  lemma {:induction false} TiledShortIsEncodable(b: seq<byte>, p: nat, us: seq<seq<byte>>)
    requires Tiles(b, p, Short(us))
    requires us != [] ==> us[|us| - 1] != []
    ensures Encodable(us)
    decreases |us|
  {
    if us != [] {
      var ps, u, e := Short(us), us[0], p + 3 + |us[0]|;
      assert ps[1..] == Short(us[1..]);
      TiledShortIsEncodable(b, e, us[1..]);
      if |us| > 1 {
        LyingCode(b, e, ps[1..][0]);
      }
      CleanUnit(b, p + 3, u);
      EncodableCons(u, us[1..]);
      assert us == [u] + us[1..];
    }
  }

  lemma LongerByACode(us: seq<seq<byte>>, qs: seq<Piece>)
    requires Coded(qs) && UnitList(qs) != us == Emitted(UnitList(qs))
    ensures |Flatten(Short(us))| < |Flatten(qs)|
  {
    var rs := qs[..|qs| - 1];
    assert UnitList(rs) == us;
    ShortIsShortest(rs);
    FlattenLast(qs);
  }

  /** Encodable is exactly what the round trip needs: already the three-octet join fails without it. */
  lemma OnlyEncodableSurvives(us: seq<seq<byte>>)
    requires Split(Flatten(Short(us))) == us
    ensures Encodable(us)
  {
    var b := Flatten(Short(us));
    SplitFactorises(b);
    var n := NextCode(b, 0);
    var qs := Pieces(b, n);
    TilesCoded(b, n, qs);
    if UnitList(qs) != us {
      LongerByACode(us, qs);
      assert false;
    }
    ShortIsShortest(qs);
    TiledShortIsEncodable(b, n, us);
  }

  // ---------------------------------------------------------------- in octets

  /** What stands before the first code is left out; codes may have three octets or four. */
  lemma MixedCodesExample()
    ensures Split([9, 0, 0, 0, 1, 0x67, 5, 0, 0, 1, 0x68]) == [[0x67, 5], [0x68]]
  {
    var b := [9, 0, 0, 0, 1, 0x67, 5, 0, 0, 1, 0x68];
    var ps := [Piece([0, 0, 0, 1], [0x67, 5]), Piece([0, 0, 1], [0x68])];
    assert ps[1..] == [Piece([0, 0, 1], [0x68])] && ps[1..][1..] == [];
    assert Lies(b, 1, ps[0]);
    assert Tiles(b, 7, ps[1..]) by {
      assert Lies(b, 7, ps[1]);
    }
    FactorisationUnique(b, 1, ps);
    assert UnitList(ps) == [[0x67, 5], [0x68]];
  }

  /** An empty unit between two codes is emitted. */
  lemma EmptyUnitExample()
    ensures Split([0, 0, 1, 0, 0, 1, 0x68]) == [[], [0x68]]
  {
    var ps := [Piece(CODE3, []), Piece(CODE3, [0x68])];
    assert ps[1..] == [Piece(CODE3, [0x68])] && ps[1..][1..] == [];
    assert Flatten(ps[1..]) == [0, 0, 1, 0x68];
    assert Flatten(ps) == [0, 0, 1, 0, 0, 1, 0x68];
    assert UnitList(ps) == [[], [0x68]];
    SplitOfJoin(ps);
  }

  /** One after the last code is not. */
  lemma TrailingCodeExample()
    ensures Split([0, 0, 1, 0x68, 0, 0, 1]) == [[0x68]]
  {
    var b: seq<byte> := [0, 0, 1, 0x68, 0, 0, 1];
    var ps := [Piece(CODE3, [0x68]), Piece(CODE3, [])];
    assert ps[1..] == [Piece(CODE3, [])] && ps[1..][1..] == [];
    assert Lies(b, 0, ps[0]) && Lies(b, 4, ps[1]);
    assert Tiles(b, 4, ps[1..]);
    FactorisationUnique(b, 0, ps);
    assert UnitList(ps) == [[0x68], []];
  }
}
