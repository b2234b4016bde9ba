/**
 The control messages octet by octet (internal/scrcpy/control_writer.go): which octets of the wire
 form hold which field. FromBE is the value of octets of which the first counts the most.
 */
module ControlLayout {
  import opened Bytes
  import opened ControlFields
  import opened ControlCodec

  /** A signed field as the unsigned number of the same width. */
  function Unsigned(x: int, width: nat): int {
    if x < 0 then x + width else x
  }

  /** Where field k begins. */
  function Offset(fs: seq<Field>, k: nat): nat
    requires k <= |fs|
  {
    if k == 0 then 0 else Offset(fs, k - 1) + Size(fs[k - 1])
  }

  function Size(f: Field): nat {
    match f
    case Num(w, _) => w
    case Blob(w, data) => w + |data|
  }

  /** Counted from the second field on. */
  lemma {:induction false} OffsetTail(fs: seq<Field>, k: nat)
    requires 0 < k <= |fs|
    ensures Offset(fs, k) == Size(fs[0]) + Offset(fs[1..], k - 1)
  {
    if k > 1 {
      OffsetTail(fs, k - 1);
    }
  }

  /** The octets from i to j are field k. */
  lemma {:induction false} SplitAt(s: seq<byte>, i: nat, j: nat, fs: seq<Field>, k: nat)
    requires k < |fs| && s == EncAll(fs)
    requires i == Offset(fs, k) && j == i + Size(fs[k])
    ensures j <= |s| && s[i..j] == Enc(fs[k])
    decreases k
  {
    EncSize(fs[0]);
    if k == 0 {
      Front(s, Enc(fs[0]), EncAll(fs[1..]), j);
    } else {
      var n := Size(fs[0]);
      OffsetTail(fs, k);
      SplitAt(EncAll(fs[1..]), i - n, j - n, fs[1..], k - 1);
      Shifted(s, Enc(fs[0]), EncAll(fs[1..]), n, i, j);
    }
  }

  lemma EncSize(f: Field)
    ensures |Enc(f)| == Size(f)
  {
  }

  lemma Front(s: seq<byte>, head: seq<byte>, tail: seq<byte>, j: nat)
    requires s == head + tail && j == |head|
    ensures j <= |s| && s[0..j] == head
  {
  }

  lemma Shifted(s: seq<byte>, head: seq<byte>, tail: seq<byte>, n: nat, i: nat, j: nat)
    requires s == head + tail && n == |head| <= i <= j <= n + |tail|
    ensures j <= |s| && s[i..j] == tail[i - n..j - n]
  {
  }

  lemma FitsAt(fs: seq<Field>, k: nat)
    requires k < |fs| && AllFit(fs)
    ensures Fits(fs[k])
  {
    assert fs[k] in fs;
  }

  /** A number's octets have its value. */
  lemma NumAt(s: seq<byte>, i: nat, fs: seq<Field>, k: nat)
    requires k < |fs| && fs[k].Num? && AllFit(fs)
    requires s == EncAll(fs) && i == Offset(fs, k)
    ensures i + fs[k].w <= |s| && FromBE(s[i..i + fs[k].w]) == fs[k].n
    ensures Offset(fs, k + 1) == i + fs[k].w
  {
    FitsAt(fs, k);
    SplitAt(s, i, i + fs[k].w, fs, k);
    NumPart(s, i, i + fs[k].w, fs[k].n);
  }

  lemma NumPart(s: seq<byte>, i: nat, j: nat, n: nat)
    requires i <= j <= |s| && n < Pow256(j - i) && s[i..j] == BE(j - i, n)
    ensures FromBE(s[i..j]) == n
  {
    BERoundTrip(j - i, n);
  }

  /** The length's octets from i to j have its value; the data follows up to l. */
  lemma BlobAt(s: seq<byte>, i: nat, j: nat, l: nat, fs: seq<Field>, k: nat)
    requires k < |fs| && fs[k].Blob? && AllFit(fs)
    requires s == EncAll(fs) && i == Offset(fs, k)
    requires j == i + fs[k].w && l == j + |fs[k].data|
    ensures l <= |s| && FromBE(s[i..j]) == |fs[k].data| && s[j..l] == fs[k].data
    ensures Offset(fs, k + 1) == l
  {
    FitsAt(fs, k);
    SplitAt(s, i, l, fs, k);
    BlobPart(s, i, j, l, fs[k].data);
  }

  lemma BlobPart(s: seq<byte>, i: nat, j: nat, l: nat, data: seq<byte>)
    requires i <= j <= l <= |s| && l == j + |data| && |data| < Pow256(j - i)
    requires s[i..l] == BE(j - i, |data|) + data
    ensures FromBE(s[i..j]) == |data| && s[j..l] == data
  {
    Halves(s, i, j, l, BE(j - i, |data|), data);
    NumPart(s, i, j, |data|);
  }

  lemma Halves(s: seq<byte>, i: nat, j: nat, l: nat, a: seq<byte>, b: seq<byte>)
    requires j == i + |a| && l == j + |b| <= |s| && s[i..l] == a + b
    ensures s[i..j] == a && s[j..l] == b
  {
    var part := s[i..l];
    assert s[i..j] == part[..|a|];
    assert s[j..l] == part[|a|..];
  }

  lemma {:induction false} Length(fs: seq<Field>)
    ensures |EncAll(fs)| == Offset(fs, |fs|)
    decreases |fs|
  {
    if fs != [] {
      Length(fs[1..]);
      OffsetTail(fs, |fs|);
    }
  }

  lemma OctetAt(w: seq<byte>, i: nat)
    requires i < |w|
    ensures FromBE(w[i..i + 1]) == w[i]
  {
    assert w[i..i + 1] == [w[i]] && [w[i]][..0] == [];
  }

  lemma KeycodeLayout(k: Keycode)
    ensures var w := Wire(InjectKeycode(k));
            && |w| == 14
            && w[0] == 0x00
            && w[1] == k.action
            && FromBE(w[2..6]) == k.keycode
            && FromBE(w[6..10]) == k.repeat
            && FromBE(w[10..14]) == k.metaState
  {
    var c := InjectKeycode(k);
    var w, fs := Wire(c), Fields(c);
    FieldsFit(c);
    Length(fs);
    NumAt(w, 0, fs, 0);
    NumAt(w, 1, fs, 1);
    NumAt(w, 2, fs, 2);
    NumAt(w, 6, fs, 3);
    NumAt(w, 10, fs, 4);
    OctetAt(w, 0);
    OctetAt(w, 1);
  }

  lemma TextLayout(text: seq<byte>)
    requires Allowed(InjectText(text))
    ensures var w := Wire(InjectText(text));
            && |w| == 5 + |text|
            && w[0] == 0x01
            && FromBE(w[1..5]) == |text|
            && w[5..5 + |text|] == text
  {
    var c := InjectText(text);
    var w, fs := Wire(c), Fields(c);
    FieldsFit(c);
    Length(fs);
    NumAt(w, 0, fs, 0);
    BlobAt(w, 1, 5, 5 + |text|, fs, 1);
    OctetAt(w, 0);
  }

  lemma TouchLayout(t: Touch)
    ensures var w := Wire(InjectTouch(t));
            && |w| == 32
            && w[0] == 0x02
            && w[1] == t.action
            && FromBE(w[2..10]) == t.pointerId
            && FromBE(w[10..14]) == Unsigned(t.x, 0x1_0000_0000)
            && FromBE(w[14..18]) == Unsigned(t.y, 0x1_0000_0000)
            && FromBE(w[18..20]) == t.width
            && FromBE(w[20..22]) == t.height
            && FromBE(w[22..24]) == t.pressure
            && FromBE(w[24..28]) == t.actionButton
            && FromBE(w[28..32]) == t.buttons
  {
    var c := InjectTouch(t);
    var w, fs := Wire(c), Fields(c);
    FieldsFit(c);
    Length(fs);
    NumAt(w, 0, fs, 0);
    NumAt(w, 1, fs, 1);
    NumAt(w, 2, fs, 2);
    NumAt(w, 10, fs, 3);
    NumAt(w, 14, fs, 4);
    NumAt(w, 18, fs, 5);
    NumAt(w, 20, fs, 6);
    NumAt(w, 22, fs, 7);
    NumAt(w, 24, fs, 8);
    NumAt(w, 28, fs, 9);
    OctetAt(w, 0);
    OctetAt(w, 1);
  }

  lemma ScrollLayout(f: Scroll)
    ensures var w := Wire(InjectScroll(f));
            && |w| == 21
            && w[0] == 0x03
            && FromBE(w[1..5]) == Unsigned(f.x, 0x1_0000_0000)
            && FromBE(w[5..9]) == Unsigned(f.y, 0x1_0000_0000)
            && FromBE(w[9..11]) == f.width
            && FromBE(w[11..13]) == f.height
            && FromBE(w[13..15]) == Unsigned(f.hScroll, 0x1_0000)
            && FromBE(w[15..17]) == Unsigned(f.vScroll, 0x1_0000)
            && FromBE(w[17..21]) == f.buttons
  {
    var c := InjectScroll(f);
    var w, fs := Wire(c), Fields(c);
    FieldsFit(c);
    Length(fs);
    NumAt(w, 0, fs, 0);
    NumAt(w, 1, fs, 1);
    NumAt(w, 5, fs, 2);
    NumAt(w, 9, fs, 3);
    NumAt(w, 11, fs, 4);
    NumAt(w, 13, fs, 5);
    NumAt(w, 15, fs, 6);
    NumAt(w, 17, fs, 7);
    OctetAt(w, 0);
  }

  lemma SetClipboardLayout(clip: Clipboard)
    requires Allowed(SetClipboard(clip))
    ensures var w := Wire(SetClipboard(clip));
            && |w| == 14 + |clip.text|
            && w[0] == 0x09
            && FromBE(w[1..9]) == clip.sequence
            && w[9] == (if clip.paste then 1 else 0)
            && FromBE(w[10..14]) == |clip.text|
            && w[14..14 + |clip.text|] == clip.text
  {
    var c := SetClipboard(clip);
    var w, fs := Wire(c), Fields(c);
    FieldsFit(c);
    Length(fs);
    NumAt(w, 0, fs, 0);
    NumAt(w, 1, fs, 1);
    NumAt(w, 9, fs, 2);
    BlobAt(w, 10, 14, 14 + |clip.text|, fs, 3);
    OctetAt(w, 0);
    OctetAt(w, 9);
  }

  lemma UhidCreateLayout(d: UhidDevice)
    requires Allowed(UhidCreate(d))
    ensures var w := Wire(UhidCreate(d));
            && |w| == 10 + |d.name| + |d.descriptor|
            && w[0] == 0x0c
            && FromBE(w[1..3]) == d.id
            && FromBE(w[3..5]) == d.vendorId
            && FromBE(w[5..7]) == d.productId
            && w[7] == |d.name|
            && w[8..8 + |d.name|] == d.name
            && FromBE(w[8 + |d.name|..10 + |d.name|]) == |d.descriptor|
            && w[10 + |d.name|..10 + |d.name| + |d.descriptor|] == d.descriptor
  {
    var c := UhidCreate(d);
    var w, fs := Wire(c), Fields(c);
    FieldsFit(c);
    Length(fs);
    NumAt(w, 0, fs, 0);
    NumAt(w, 1, fs, 1);
    NumAt(w, 3, fs, 2);
    NumAt(w, 5, fs, 3);
    BlobAt(w, 7, 8, 8 + |d.name|, fs, 4);
    BlobAt(w, 8 + |d.name|, 10 + |d.name|, 10 + |d.name| + |d.descriptor|, fs, 5);
    OctetAt(w, 0);
    OctetAt(w, 7);
  }

  lemma UhidInputLayout(f: UhidData)
    requires Allowed(UhidInput(f))
    ensures var w := Wire(UhidInput(f));
            && |w| == 5 + |f.data|
            && w[0] == 0x0d
            && FromBE(w[1..3]) == f.id
            && FromBE(w[3..5]) == |f.data|
            && w[5..5 + |f.data|] == f.data
  {
    var c := UhidInput(f);
    var w, fs := Wire(c), Fields(c);
    FieldsFit(c);
    Length(fs);
    NumAt(w, 0, fs, 0);
    NumAt(w, 1, fs, 1);
    BlobAt(w, 3, 5, 5 + |f.data|, fs, 2);
    OctetAt(w, 0);
  }

  lemma UhidDestroyLayout(id: u16)
    ensures var w := Wire(UhidDestroy(id));
            && |w| == 3
            && w[0] == 0x0e
            && FromBE(w[1..3]) == id
  {
    var c := UhidDestroy(id);
    var w, fs := Wire(c), Fields(c);
    FieldsFit(c);
    Length(fs);
    NumAt(w, 0, fs, 0);
    NumAt(w, 1, fs, 1);
    OctetAt(w, 0);
  }

  lemma StartAppLayout(name: seq<byte>)
    requires Allowed(StartApp(name))
    ensures var w := Wire(StartApp(name));
            && |w| == 2 + |name|
            && w[0] == 0x10
            && w[1] == |name|
            && w[2..2 + |name|] == name
  {
    var c := StartApp(name);
    var w, fs := Wire(c), Fields(c);
    FieldsFit(c);
    Length(fs);
    NumAt(w, 0, fs, 0);
    BlobAt(w, 1, 2, 2 + |name|, fs, 1);
    OctetAt(w, 0);
    OctetAt(w, 1);
  }

  /** The types without fields. */
  lemma PlainLayouts()
    ensures Wire(ExpandNotificationPanel) == [0x05] && Wire(ExpandSettingsPanel) == [0x06]
    ensures Wire(CollapsePanels) == [0x07] && Wire(RotateDevice) == [0x0b]
    ensures Wire(OpenHardKeyboardSettings) == [0x0f] && Wire(ResetVideo) == [0x11]
  {
    PlainWire(ExpandNotificationPanel, 0x05);
    PlainWire(ExpandSettingsPanel, 0x06);
    PlainWire(CollapsePanels, 0x07);
    PlainWire(RotateDevice, 0x0b);
    PlainWire(OpenHardKeyboardSettings, 0x0f);
    PlainWire(ResetVideo, 0x11);
  }

  /** The types with one octet. */
  lemma ArgLayouts(x: byte)
    ensures Wire(BackOrScreenOn(x)) == [0x04, x] && Wire(GetClipboard(x)) == [0x08, x]
    ensures Wire(SetDisplayPower(x)) == [0x0a, x]
  {
    ArgWire(BackOrScreenOn(x), 0x04, x);
    ArgWire(GetClipboard(x), 0x08, x);
    ArgWire(SetDisplayPower(x), 0x0a, x);
  }
}
