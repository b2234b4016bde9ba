/** From the device's socket to a viewer: the reader, the hub and the viewer's channel together. */
module DeviceStream {
  import opened Wrappers
  import opened Bytes
  import opened Frames
  import opened VideoReader
  import opened Fanout
  import opened Hub
  import opened HubDelivery

  /** The octets of the messages. */
  function Octets(ms: seq<Msg>): seq<byte> {
    if ms == [] then [] else ms[0] + Octets(ms[1..])
  }

  lemma {:induction false} OctetsOfBoth(a: seq<Msg>, b: seq<Msg>)
    ensures Octets(a + b) == Octets(a) + Octets(b)
    decreases |a|
  {
    if a == [] {
      assert a + b == b;
    } else {
      assert (a + b)[1..] == a[1..] + b;
      OctetsOfBoth(a[1..], b);
      Reassociate(a[0], Octets(a[1..]), Octets(b));
    }
  }

  lemma {:induction false} WiresOfBoth(a: seq<Frame>, b: seq<Frame>)
    ensures Wires(a + b) == Wires(a) + Wires(b)
    decreases |a|
  {
    if a == [] {
      assert a + b == b;
    } else {
      assert (a + b)[1..] == a[1..] + b;
      WiresOfBoth(a[1..], b);
      Reassociate(WireBytes(a[0]), Wires(a[1..]), Wires(b));
    }
  }

  lemma {:induction false} OctetsOfImages(fs: seq<Frame>)
    ensures Octets(Images(fs)) == Wires(fs)
    decreases |fs|
  {
    if fs != [] {
      assert Images(fs)[1..] == Images(fs[1..]);
      OctetsOfImages(fs[1..]);
    }
  }

  /** A stretch of the frames is a stretch of the octets they were read from. */
  lemma Stretch(s: seq<byte>, all: seq<Frame>, left: seq<byte>, a: nat, b: nat)
    requires s == Wires(all) + left && a <= b <= |all|
    ensures |Wires(all[..a])| <= |Wires(all[..b])| <= |s|
    ensures Wires(all[a..b]) == s[|Wires(all[..a])|..|Wires(all[..b])|]
  {
    assert all == all[..b] + all[b..] && all[..b] == all[..a] + all[a..b];
    WiresOfBoth(all[..b], all[b..]);
    WiresOfBoth(all[..a], all[a..b]);
  }

  /** Messages that are a preload and a stretch of the frames' images. */
  lemma LiveOctets(got: seq<Msg>, before: seq<Msg>, fs: seq<Frame>, s: seq<byte>, all: seq<Frame>, left: seq<byte>,
                   a: nat, b: nat)
    requires s == Wires(all) + left && fs <= all && a <= b <= |fs|
    requires got == before + Images(fs)[a..b]
    ensures |Wires(all[..a])| <= |Wires(all[..b])| <= |s|
    ensures Octets(got) == Octets(before) + s[|Wires(all[..a])|..|Wires(all[..b])|]
  {
    assert Images(fs)[a..b] == Images(all[a..b]);
    OctetsOfBoth(before, Images(all[a..b]));
    OctetsOfImages(all[a..b]);
    Stretch(s, all, left, a, b);
  }

  lemma FannedFirst(cfg: Config, es: seq<Event>)
    ensures Fanned(cfg, es) <= Accepted(cfg, es)
  {
    HubConserves(cfg, es);
  }

  /** What the viewer's reader has received and what is in its channel. */
  function Got(cfg: Config, es: seq<Event>, h: Handle): seq<Msg>
    requires h in Run(cfg, es).pool
  {
    TrailOf(cfg, es, h).taken + Run(cfg, es).pool[h].sub.buf
  }

  /** Up to which fanned-out frame the viewer has been served. */
  function Upto(cfg: Config, es: seq<Event>, h: Handle): int {
    |Fanned(cfg, es)| - Due(Run(cfg, es), h)
  }

  lemma GaplessGot(cfg: Config, es: seq<Event>, h: Handle)
    requires InStage(Run(cfg, es), h, Done)
    requires TrailOf(cfg, es, h).lost == 0 && !TrailOf(cfg, es, h).left
    ensures var t, n := TrailOf(cfg, es, h), Upto(cfg, es, h);
            && t.since <= n <= |Fanned(cfg, es)|
            && Got(cfg, es, h) == Preload(t) + Images(Fanned(cfg, es))[t.since..n]
  {
    GaplessStream(cfg, es, h);
  }

  /** When the hub's queue has taken every frame of the reader, a viewer that lost nothing and did
      not leave has got, after its preload, one unbroken stretch of the device's stream. */
  lemma {:induction false} ViewerSeesTheStream(cfg: Config, es: seq<Event>, h: Handle, s: seq<byte>, turns: nat)
    requires Accepted(cfg, es) == ReadFrames(s, turns).0
    requires InStage(Run(cfg, es), h, Done) && TrailOf(cfg, es, h).lost == 0 && !TrailOf(cfg, es, h).left
    ensures var t, n, all := TrailOf(cfg, es, h), Upto(cfg, es, h), ReadFrames(s, turns).0;
            && t.since <= n <= |all|
            && |Wires(all[..t.since])| <= |Wires(all[..n])| <= |s|
            && Octets(Got(cfg, es, h)) == Octets(Preload(t)) + s[|Wires(all[..t.since])|..|Wires(all[..n])|]
  {
    var t, n := TrailOf(cfg, es, h), Upto(cfg, es, h);
    GaplessGot(cfg, es, h);
    FannedFirst(cfg, es);
    RelayIsTransparent(s, turns);
    LiveOctets(Got(cfg, es, h), Preload(t), Fanned(cfg, es), s, ReadFrames(s, turns).0, ReadFrames(s, turns).1,
               t.since, n);
  }

  // ---------------------------------------------------------------- with losses

  lemma PickOfPick(all: seq<Frame>, at: seq<nat>, fs: seq<Frame>, kept: seq<nat>)
    requires Within(at, 0, |all|) && fs <= Pick(all, at) && Within(kept, 0, |fs|)
    ensures Within(Pick(at, kept), 0, |all|) && Pick(fs, kept) == Pick(all, Pick(at, kept))
  {
  }

  lemma ImagesOfPick(fs: seq<Frame>, kept: seq<nat>)
    requires Within(kept, 0, |fs|)
    ensures Pick(Images(fs), kept) == Images(Pick(fs, kept))
  {
  }

  /** Which of the published frames the viewer has got. */
  function GotAt(cfg: Config, es: seq<Event>, h: Handle): seq<nat>
    requires Within(TrailOf(cfg, es, h).kept, 0, |AcceptedAt(cfg, es)|)
  {
    Pick(AcceptedAt(cfg, es), TrailOf(cfg, es, h).kept)
  }

  lemma WholeFrames(got: seq<Msg>, before: seq<Msg>, fs: seq<Frame>, all: seq<Frame>, at: seq<nat>, kept: seq<nat>)
    requires Within(at, 0, |all|) && fs <= Pick(all, at) && Within(kept, 0, |fs|)
    requires got == before + Pick(Images(fs), kept)
    ensures Within(kept, 0, |at|) && Within(Pick(at, kept), 0, |all|)
    ensures Octets(got) == Octets(before) + Wires(Pick(all, Pick(at, kept)))
  {
    PickOfPick(all, at, fs, kept);
    ImagesOfPick(fs, kept);
    OctetsOfBoth(before, Images(Pick(fs, kept)));
    OctetsOfImages(Pick(fs, kept));
  }

  lemma GotIsPick(cfg: Config, es: seq<Event>, h: Handle)
    requires h in Run(cfg, es).pool
    ensures var t := TrailOf(cfg, es, h);
            && Within(t.kept, 0, |Fanned(cfg, es)|)
            && Got(cfg, es, h) == Preload(t) + Pick(Images(Fanned(cfg, es)), t.kept)
  {
    DeliveredStream(cfg, es, h);
  }

  /** Whatever was dropped in front of the queue or of the channel: when the frames published are those
      read from the device, a viewer has got, after its preload, whole wire images of some of them, in
      order and without repetition. */
  lemma {:induction false} ViewerGetsWholeFrames(cfg: Config, es: seq<Event>, h: Handle, s: seq<byte>, turns: nat)
    requires PublishedFrames(es) == ReadFrames(s, turns).0 && h in Run(cfg, es).pool
    ensures Within(TrailOf(cfg, es, h).kept, 0, |AcceptedAt(cfg, es)|)
    ensures var all := ReadFrames(s, turns).0;
            && Within(GotAt(cfg, es, h), 0, |all|)
            && Octets(Got(cfg, es, h)) == Octets(Preload(TrailOf(cfg, es, h))) + Wires(Pick(all, GotAt(cfg, es, h)))
  {
    GotIsPick(cfg, es, h);
    FannedFirst(cfg, es);
    AcceptedArePublished(cfg, es);
    WholeFrames(Got(cfg, es, h), Preload(TrailOf(cfg, es, h)), Fanned(cfg, es), PublishedFrames(es),
                AcceptedAt(cfg, es), TrailOf(cfg, es, h).kept);
  }
}
