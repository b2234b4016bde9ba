/**
 The control messages of the scrcpy protocol (internal/scrcpy/control_writer.go): the
 envelope, the eighteen encodings, and a decoder that inverts them.
 */
module ControlCodec {
  import opened Wrappers
  import opened Bytes
  import opened ControlFields

  type u16 = x: int | 0 <= x < 0x1_0000
  type u32 = x: int | 0 <= x < 0x1_0000_0000
  type u64 = x: int | 0 <= x < 0x1_0000_0000_0000_0000
  type i16 = x: int | -0x8000 <= x < 0x8000
  type i32 = x: int | -0x8000_0000 <= x < 0x8000_0000

  const MAX_INJECT_TEXT := 300
  const MAX_SET_CLIPBOARD := 262144

  datatype Keycode = Keycode(action: byte, keycode: u32, repeat: u32, metaState: u32)
  datatype Touch = Touch(action: byte, pointerId: u64, x: i32, y: i32, width: u16, height: u16,
                         pressure: u16, actionButton: u32, buttons: u32)
  datatype Scroll = Scroll(x: i32, y: i32, width: u16, height: u16, hScroll: i16, vScroll: i16, buttons: u32)
  datatype Clipboard = Clipboard(sequence: u64, paste: bool, text: seq<byte>)
  datatype UhidDevice = UhidDevice(id: u16, vendorId: u16, productId: u16, name: seq<byte>, descriptor: seq<byte>)
  datatype UhidData = UhidData(id: u16, data: seq<byte>)

  /** The envelope: a type octet and one optional record per type that has fields. */
  datatype ControlMsg = ControlMsg(
    typ: byte, injectKeycode: Option<Keycode>, injectText: Option<seq<byte>>,
    injectTouch: Option<Touch>, injectScroll: Option<Scroll>, backOrScreenOn: Option<byte>,
    getClipboard: Option<byte>, setClipboard: Option<Clipboard>, setDisplayPower: Option<byte>,
    uhidCreate: Option<UhidDevice>, uhidInput: Option<UhidData>, uhidDestroy: Option<u16>,
    startApp: Option<seq<byte>>)

  datatype Error = UnknownType | PayloadTooLarge | PayloadInvalid

  /** What an envelope asks for. */
  datatype Command =
    | InjectKeycode(key: Keycode)
    | InjectText(text: seq<byte>)
    | InjectTouch(touch: Touch)
    | InjectScroll(scroll: Scroll)
    | BackOrScreenOn(action: byte)
    | ExpandNotificationPanel
    | ExpandSettingsPanel
    | CollapsePanels
    | GetClipboard(copyKey: byte)
    | SetClipboard(clip: Clipboard)
    | SetDisplayPower(mode: byte)
    | RotateDevice
    | UhidCreate(device: UhidDevice)
    | UhidInput(input: UhidData)
    | UhidDestroy(id: u16)
    | OpenHardKeyboardSettings
    | StartApp(name: seq<byte>)
    | ResetVideo

  /** The length limits. */
  predicate Allowed(c: Command) {
    match c
    case InjectText(text) => |text| <= MAX_INJECT_TEXT
    case SetClipboard(clip) => |clip.text| <= MAX_SET_CLIPBOARD
    case UhidCreate(device) => |device.name| <= 255 && |device.descriptor| <= 0xFFFF
    case UhidInput(input) => |input.data| <= 0xFFFF
    case StartApp(name) => |name| <= 255
    case _ => true
  }

  function Need<T>(field: Option<T>, make: T -> Command): Result<Command, Error> {
    if field.None? then Err(PayloadInvalid)
    else if Allowed(make(field.value)) then Ok(make(field.value))
    else Err(PayloadTooLarge)
  }

  /** Only the record that the type octet names is looked at. */
  function Meaning(m: ControlMsg): (r: Result<Command, Error>)
    ensures r.Ok? ==> Allowed(r.value)
  {
    match m.typ
    case 0x00 => Need(m.injectKeycode, f => InjectKeycode(f))
    case 0x01 => Need(m.injectText, f => InjectText(f))
    case 0x02 => Need(m.injectTouch, f => InjectTouch(f))
    case 0x03 => Need(m.injectScroll, f => InjectScroll(f))
    case 0x04 => Need(m.backOrScreenOn, f => BackOrScreenOn(f))
    case 0x05 => Ok(ExpandNotificationPanel)
    case 0x06 => Ok(ExpandSettingsPanel)
    case 0x07 => Ok(CollapsePanels)
    case 0x08 => Need(m.getClipboard, f => GetClipboard(f))
    case 0x09 => Need(m.setClipboard, f => SetClipboard(f))
    case 0x0a => Need(m.setDisplayPower, f => SetDisplayPower(f))
    case 0x0b => Ok(RotateDevice)
    case 0x0c => Need(m.uhidCreate, f => UhidCreate(f))
    case 0x0d => Need(m.uhidInput, f => UhidInput(f))
    case 0x0e => Need(m.uhidDestroy, f => UhidDestroy(f))
    case 0x0f => Ok(OpenHardKeyboardSettings)
    case 0x10 => Need(m.startApp, f => StartApp(f))
    case 0x11 => Ok(ResetVideo)
    case _ => Err(UnknownType)
  }

  // ---------------------------------------------------------------- wire form

  /** Two's complement, as a Go conversion to the unsigned type of the same width. */
  function U16(x: i16): u16 { if x < 0 then x + 0x1_0000 else x }

  function U32(x: i32): u32 { if x < 0 then x + 0x1_0000_0000 else x }

  function I16(n: u16): i16 { if n < 0x8000 then n else n - 0x1_0000 }

  function I32(n: u32): i32 { if n < 0x8000_0000 then n else n - 0x1_0000_0000 }

  function Bool(b: bool): nat { if b then 1 else 0 }

  /** The fields of a command in wire order, the type octet first. */
  function Fields(c: Command): seq<Field> {
    match c
    case InjectKeycode(k) => [Num(1, 0x00), Num(1, k.action), Num(4, k.keycode), Num(4, k.repeat), Num(4, k.metaState)]
    case InjectText(text) => [Num(1, 0x01), Blob(4, text)]
    case InjectTouch(t) =>
      [Num(1, 0x02), Num(1, t.action), Num(8, t.pointerId), Num(4, U32(t.x)), Num(4, U32(t.y)), Num(2, t.width),
       Num(2, t.height), Num(2, t.pressure), Num(4, t.actionButton), Num(4, t.buttons)]
    case InjectScroll(s) =>
      [Num(1, 0x03), Num(4, U32(s.x)), Num(4, U32(s.y)), Num(2, s.width), Num(2, s.height),
       Num(2, U16(s.hScroll)), Num(2, U16(s.vScroll)), Num(4, s.buttons)]
    case BackOrScreenOn(action) => [Num(1, 0x04), Num(1, action)]
    case ExpandNotificationPanel => [Num(1, 0x05)]
    case ExpandSettingsPanel => [Num(1, 0x06)]
    case CollapsePanels => [Num(1, 0x07)]
    case GetClipboard(copyKey) => [Num(1, 0x08), Num(1, copyKey)]
    case SetClipboard(clip) => [Num(1, 0x09), Num(8, clip.sequence), Num(1, Bool(clip.paste)), Blob(4, clip.text)]
    case SetDisplayPower(mode) => [Num(1, 0x0a), Num(1, mode)]
    case RotateDevice => [Num(1, 0x0b)]
    case UhidCreate(d) =>
      [Num(1, 0x0c), Num(2, d.id), Num(2, d.vendorId), Num(2, d.productId), Blob(1, d.name), Blob(2, d.descriptor)]
    case UhidInput(input) => [Num(1, 0x0d), Num(2, input.id), Blob(2, input.data)]
    case UhidDestroy(id) => [Num(1, 0x0e), Num(2, id)]
    case OpenHardKeyboardSettings => [Num(1, 0x0f)]
    case StartApp(name) => [Num(1, 0x10), Blob(1, name)]
    case ResetVideo => [Num(1, 0x11)]
  }

  function Wire(c: Command): seq<byte> {
    EncAll(Fields(c))
  }

  // ---------------------------------------------------------------- the marshaller

  method MarshalKeycode(f: Keycode) returns (wire: seq<byte>)
    ensures wire == Wire(InjectKeycode(f))
  {
    var buf := new byte[14](_ => 0);
    ghost var fs := PutNum(buf, 0, 1, 0x00, []);
    fs := PutNum(buf, 1, 1, f.action, fs);
    fs := PutNum(buf, 2, 4, f.keycode, fs);
    fs := PutNum(buf, 6, 4, f.repeat, fs);
    fs := PutNum(buf, 10, 4, f.metaState, fs);
    assert fs == Fields(InjectKeycode(f));
    wire := buf[..];
  }

  method MarshalText(txt: seq<byte>) returns (wire: seq<byte>)
    ensures wire == Wire(InjectText(txt))
  {
    var buf := new byte[5 + |txt|](_ => 0);
    ghost var fs := PutNum(buf, 0, 1, 0x01, []);
    fs := PutBlob(buf, 1, 4, txt, fs);
    assert fs == Fields(InjectText(txt));
    wire := buf[..];
  }

  /** The signed coordinates and the screen size, which touch and scroll events share. */
  method PutPosition(buf: array<byte>, off: nat, x: i32, y: i32, width: u16, height: u16, ghost fs: seq<Field>)
    returns (ghost fs': seq<Field>)
    requires off + 12 <= buf.Length && buf[..off] == EncAll(fs)
    modifies buf
    ensures fs' == fs + [Num(4, U32(x)), Num(4, U32(y)), Num(2, width), Num(2, height)]
    ensures buf[..off + 12] == EncAll(fs')
  {
    fs' := PutNum(buf, off, 4, U32(x), fs);
    fs' := PutNum(buf, off + 4, 4, U32(y), fs');
    fs' := PutNum(buf, off + 8, 2, width, fs');
    fs' := PutNum(buf, off + 10, 2, height, fs');
    FourMore(fs, Num(4, U32(x)), Num(4, U32(y)), Num(2, width), Num(2, height));
  }

  lemma FourMore(fs: seq<Field>, a: Field, b: Field, c: Field, d: Field)
    ensures fs + [a] + [b] + [c] + [d] == fs + [a, b, c, d]
  {
  }

  lemma TouchFields(f: Touch)
    ensures Fields(InjectTouch(f)) ==
            [] + [Num(1, 0x02)] + [Num(1, f.action)] + [Num(8, f.pointerId)]
            + [Num(4, U32(f.x)), Num(4, U32(f.y)), Num(2, f.width), Num(2, f.height)]
            + [Num(2, f.pressure)] + [Num(4, f.actionButton)] + [Num(4, f.buttons)]
  {
  }

  method MarshalTouch(f: Touch) returns (wire: seq<byte>)
    ensures wire == Wire(InjectTouch(f))
  {
    var buf := new byte[32](_ => 0);
    ghost var fs := PutNum(buf, 0, 1, 0x02, []);
    fs := PutNum(buf, 1, 1, f.action, fs);
    fs := PutNum(buf, 2, 8, f.pointerId, fs);
    fs := PutPosition(buf, 10, f.x, f.y, f.width, f.height, fs);
    fs := PutNum(buf, 22, 2, f.pressure, fs);
    fs := PutNum(buf, 24, 4, f.actionButton, fs);
    fs := PutNum(buf, 28, 4, f.buttons, fs);
    TouchFields(f);
    wire := buf[..];
  }

  method MarshalScroll(f: Scroll) returns (wire: seq<byte>)
    ensures wire == Wire(InjectScroll(f))
  {
    var buf := new byte[21](_ => 0);
    ghost var fs := PutNum(buf, 0, 1, 0x03, []);
    fs := PutPosition(buf, 1, f.x, f.y, f.width, f.height, fs);
    fs := PutNum(buf, 13, 2, U16(f.hScroll), fs);
    fs := PutNum(buf, 15, 2, U16(f.vScroll), fs);
    fs := PutNum(buf, 17, 4, f.buttons, fs);
    assert fs == Fields(InjectScroll(f));
    wire := buf[..];
  }

  method MarshalSetClipboard(f: Clipboard) returns (wire: seq<byte>)
    ensures wire == Wire(SetClipboard(f))
  {
    var buf := new byte[14 + |f.text|](_ => 0);
    ghost var fs := PutNum(buf, 0, 1, 0x09, []);
    fs := PutNum(buf, 1, 8, f.sequence, fs);
    fs := PutNum(buf, 9, 1, Bool(f.paste), fs);
    fs := PutBlob(buf, 10, 4, f.text, fs);
    assert fs == Fields(SetClipboard(f));
    wire := buf[..];
  }

  /** The one encoding whose offsets depend on the data, so the source moves an index along. */
  method MarshalUhidCreate(f: UhidDevice) returns (wire: seq<byte>)
    ensures wire == Wire(UhidCreate(f))
  {
    var sz := 1 + 2 + 2 + 2 + 1 + |f.name| + 2 + |f.descriptor|;
    var buf := new byte[sz](_ => 0);
    var i: nat := 0;
    ghost var fs := PutNum(buf, i, 1, 0x0c, []);
    i := i + 1;
    fs := PutNum(buf, i, 2, f.id, fs);
    i := i + 2;
    fs := PutNum(buf, i, 2, f.vendorId, fs);
    i := i + 2;
    fs := PutNum(buf, i, 2, f.productId, fs);
    i := i + 2;
    fs := PutBlob(buf, i, 1, f.name, fs);
    i := i + 1 + |f.name|;
    fs := PutBlob(buf, i, 2, f.descriptor, fs);
    assert fs == Fields(UhidCreate(f));
    wire := buf[..];
  }

  method MarshalUhidInput(f: UhidData) returns (wire: seq<byte>)
    ensures wire == Wire(UhidInput(f))
  {
    var buf := new byte[5 + |f.data|](_ => 0);
    ghost var fs := PutNum(buf, 0, 1, 0x0d, []);
    fs := PutNum(buf, 1, 2, f.id, fs);
    fs := PutBlob(buf, 3, 2, f.data, fs);
    assert fs == Fields(UhidInput(f));
    wire := buf[..];
  }

  method MarshalUhidDestroy(id: u16) returns (wire: seq<byte>)
    ensures wire == Wire(UhidDestroy(id))
  {
    var buf := new byte[3](_ => 0);
    ghost var fs := PutNum(buf, 0, 1, 0x0e, []);
    fs := PutNum(buf, 1, 2, id, fs);
    assert fs == Fields(UhidDestroy(id));
    wire := buf[..];
  }

  method MarshalStartApp(name: seq<byte>) returns (wire: seq<byte>)
    ensures wire == Wire(StartApp(name))
  {
    var buf := new byte[2 + |name|](_ => 0);
    ghost var fs := PutNum(buf, 0, 1, 0x10, []);
    fs := PutBlob(buf, 1, 1, name, fs);
    assert fs == Fields(StartApp(name));
    wire := buf[..];
  }

  lemma PlainWire(c: Command, t: byte)
    requires Fields(c) == [Num(1, t)]
    ensures Wire(c) == [t]
  {
    EncCons(Num(1, t), []);
    assert [Num(1, t)] + [] == [Num(1, t)];
  }

  lemma ArgWire(c: Command, t: byte, arg: byte)
    requires Fields(c) == [Num(1, t), Num(1, arg)]
    ensures Wire(c) == [t, arg]
  {
    EncCons(Num(1, arg), []);
    EncCons(Num(1, t), [Num(1, arg)]);
    assert [Num(1, arg)] + [] == [Num(1, arg)];
    assert [Num(1, t)] + [Num(1, arg)] == [Num(1, t), Num(1, arg)];
  }

  /** The types whose encoding is the type octet alone. */
  method MarshalPlain(m: ControlMsg) returns (wire: seq<byte>)
    requires m.typ in {0x05, 0x06, 0x07, 0x0b, 0x0f, 0x11}
    ensures Meaning(m).Ok? && wire == Wire(Meaning(m).value)
  {
    PlainWire(Meaning(m).value, m.typ);
    wire := [m.typ];
  }

  /** The types with one octet of payload. */
  method MarshalArg(m: ControlMsg, arg: Option<byte>, ghost c: Command) returns (r: Result<seq<byte>, Error>)
    requires arg.Some? ==> Fields(c) == [Num(1, m.typ), Num(1, arg.value)]
    ensures r == if arg.None? then Err(PayloadInvalid) else Ok(Wire(c))
  {
    if arg.None? {
      return Err(PayloadInvalid);
    }
    ArgWire(c, m.typ, arg.value);
    r := Ok([m.typ, arg.value]);
  }

  /** The branch that the type octet selects. */
  method MarshalByType(m: ControlMsg) returns (r: Result<seq<byte>, Error>)
    ensures r == if Meaning(m).Ok? then Ok(Wire(Meaning(m).value)) else Err(Meaning(m).error)
  {
    var wire: seq<byte>;
    match m.typ {
      case 0x00 =>
        if m.injectKeycode.None? { return Err(PayloadInvalid); }
        wire := MarshalKeycode(m.injectKeycode.value);
      case 0x01 =>
        if m.injectText.None? { return Err(PayloadInvalid); }
        if |m.injectText.value| > MAX_INJECT_TEXT { return Err(PayloadTooLarge); }
        wire := MarshalText(m.injectText.value);
      case 0x02 =>
        if m.injectTouch.None? { return Err(PayloadInvalid); }
        wire := MarshalTouch(m.injectTouch.value);
      case 0x03 =>
        if m.injectScroll.None? { return Err(PayloadInvalid); }
        wire := MarshalScroll(m.injectScroll.value);
      case 0x04 =>
        r := MarshalArg(m, m.backOrScreenOn,
                        BackOrScreenOn(if m.backOrScreenOn.None? then 0 else m.backOrScreenOn.value));
        return;
      case 0x08 =>
        r := MarshalArg(m, m.getClipboard, GetClipboard(if m.getClipboard.None? then 0 else m.getClipboard.value));
        return;
      case 0x09 =>
        if m.setClipboard.None? { return Err(PayloadInvalid); }
        if |m.setClipboard.value.text| > MAX_SET_CLIPBOARD { return Err(PayloadTooLarge); }
        wire := MarshalSetClipboard(m.setClipboard.value);
      case 0x0a =>
        r := MarshalArg(m, m.setDisplayPower,
                        SetDisplayPower(if m.setDisplayPower.None? then 0 else m.setDisplayPower.value));
        return;
      case 0x0c =>
        if m.uhidCreate.None? { return Err(PayloadInvalid); }
        if |m.uhidCreate.value.name| > 255 { return Err(PayloadTooLarge); }
        if |m.uhidCreate.value.descriptor| > 0xFFFF { return Err(PayloadTooLarge); }
        wire := MarshalUhidCreate(m.uhidCreate.value);
      case 0x0d =>
        if m.uhidInput.None? { return Err(PayloadInvalid); }
        if |m.uhidInput.value.data| > 0xFFFF { return Err(PayloadTooLarge); }
        wire := MarshalUhidInput(m.uhidInput.value);
      case 0x0e =>
        if m.uhidDestroy.None? { return Err(PayloadInvalid); }
        wire := MarshalUhidDestroy(m.uhidDestroy.value);
      case 0x10 =>
        if m.startApp.None? { return Err(PayloadInvalid); }
        if |m.startApp.value| > 255 { return Err(PayloadTooLarge); }
        wire := MarshalStartApp(m.startApp.value);
      case _ =>
        if m.typ > 0x11 { return Err(UnknownType); }
        wire := MarshalPlain(m);
    }
    r := Ok(wire);
  }

  // ---------------------------------------------------------------- the decoder

  /** The shapes that follow a type octet. */
  function ShapesOf(t: byte): Option<seq<Shape>> {
    match t
    case 0x00 => Some([NumShape(1), NumShape(4), NumShape(4), NumShape(4)])
    case 0x01 => Some([BlobShape(4)])
    case 0x02 => Some([NumShape(1), NumShape(8), NumShape(4), NumShape(4), NumShape(2), NumShape(2), NumShape(2),
                       NumShape(4), NumShape(4)])
    case 0x03 => Some([NumShape(4), NumShape(4), NumShape(2), NumShape(2), NumShape(2), NumShape(2), NumShape(4)])
    case 0x04 => Some([NumShape(1)])
    case 0x05 => Some([])
    case 0x06 => Some([])
    case 0x07 => Some([])
    case 0x08 => Some([NumShape(1)])
    case 0x09 => Some([NumShape(8), NumShape(1), BlobShape(4)])
    case 0x0a => Some([NumShape(1)])
    case 0x0b => Some([])
    case 0x0c => Some([NumShape(2), NumShape(2), NumShape(2), BlobShape(1), BlobShape(2)])
    case 0x0d => Some([NumShape(2), BlobShape(2)])
    case 0x0e => Some([NumShape(2)])
    case 0x0f => Some([])
    case 0x10 => Some([BlobShape(1)])
    case 0x11 => Some([])
    case _ => None
  }

  function Octet(f: Field): byte { if f.Num? && f.n < 0x100 then f.n else 0 }

  function Word(f: Field): u16 { if f.Num? && f.n < 0x1_0000 then f.n else 0 }

  function Long(f: Field): u32 { if f.Num? && f.n < 0x1_0000_0000 then f.n else 0 }

  function Quad(f: Field): u64 { if f.Num? && f.n < 0x1_0000_0000_0000_0000 then f.n else 0 }

  function Data(f: Field): seq<byte> { if f.Blob? then f.data else [] }

  /** The command of type t that these fields suggest. */
  function Build(t: byte, fs: seq<Field>): Command
    requires ShapesOf(t).Some? && |fs| == |ShapesOf(t).value|
  {
    match t
    case 0x00 => InjectKeycode(Keycode(Octet(fs[0]), Long(fs[1]), Long(fs[2]), Long(fs[3])))
    case 0x01 => InjectText(Data(fs[0]))
    case 0x02 => InjectTouch(Touch(Octet(fs[0]), Quad(fs[1]), I32(Long(fs[2])), I32(Long(fs[3])), Word(fs[4]),
                                        Word(fs[5]), Word(fs[6]), Long(fs[7]), Long(fs[8])))
    case 0x03 => InjectScroll(Scroll(I32(Long(fs[0])), I32(Long(fs[1])), Word(fs[2]), Word(fs[3]),
                                          I16(Word(fs[4])), I16(Word(fs[5])), Long(fs[6])))
    case 0x04 => BackOrScreenOn(Octet(fs[0]))
    case 0x05 => ExpandNotificationPanel
    case 0x06 => ExpandSettingsPanel
    case 0x07 => CollapsePanels
    case 0x08 => GetClipboard(Octet(fs[0]))
    case 0x09 => SetClipboard(Clipboard(Quad(fs[0]), Octet(fs[1]) == 1, Data(fs[2])))
    case 0x0a => SetDisplayPower(Octet(fs[0]))
    case 0x0b => RotateDevice
    case 0x0c => UhidCreate(UhidDevice(Word(fs[0]), Word(fs[1]), Word(fs[2]), Data(fs[3]), Data(fs[4])))
    case 0x0d => UhidInput(UhidData(Word(fs[0]), Data(fs[1])))
    case 0x0e => UhidDestroy(Word(fs[0]))
    case 0x0f => OpenHardKeyboardSettings
    case 0x10 => StartApp(Data(fs[0]))
    case 0x11 => ResetVideo
  }

  /** Reads one command and returns what follows it; the fields must be exactly the command's. */
  function Decode(s: seq<byte>): (r: Option<(Command, seq<byte>)>)
    ensures r.Some? ==> Allowed(r.value.0) && |r.value.1| < |s|
  {
    if s == [] || ShapesOf(s[0]).None? then None else
    match TakeAll(ShapesOf(s[0]).value, s[1..])
    case None => None
    case Some((fs, rest)) =>
      var c := Build(s[0], fs);
      if Allowed(c) && Fields(c) == [Num(1, s[0])] + fs then Some((c, rest)) else None
  }

  /** Reads commands while it can; the second component is what cannot be read. */
  function DecodeAll(s: seq<byte>): (seq<Command>, seq<byte>)
    decreases |s|
  {
    match Decode(s)
    case None => ([], s)
    case Some((c, rest)) => var (cs, left) := DecodeAll(rest); ([c] + cs, left)
  }

  // ---------------------------------------------------------------- unique decodability

  function TypeOf(c: Command): byte {
    Octet(Fields(c)[0])
  }

  ghost predicate ReadsAs(c: Command) {
    && Fields(c)[0] == Num(1, TypeOf(c))
    && ShapesOf(TypeOf(c)) == Some(Shapes(Fields(c)[1..]))
    && Build(TypeOf(c), Fields(c)[1..]) == c
  }

  lemma SignedBack(x: i32, y: i16)
    ensures I32(U32(x)) == x && I16(U16(y)) == y
  {
  }

  lemma TouchReadsAs(t: Touch)
    ensures ReadsAs(InjectTouch(t))
  {
    var fs := Fields(InjectTouch(t))[1..];
    assert fs == [Num(1, t.action), Num(8, t.pointerId), Num(4, U32(t.x)), Num(4, U32(t.y)), Num(2, t.width),
                  Num(2, t.height), Num(2, t.pressure), Num(4, t.actionButton), Num(4, t.buttons)];
    assert ShapesOf(0x02).value == Shapes(fs);
    SignedBack(t.x, 0);
    SignedBack(t.y, 0);
  }

  lemma ScrollReadsAs(f: Scroll)
    ensures ReadsAs(InjectScroll(f))
  {
    var fs := Fields(InjectScroll(f))[1..];
    assert fs == [Num(4, U32(f.x)), Num(4, U32(f.y)), Num(2, f.width), Num(2, f.height),
                  Num(2, U16(f.hScroll)), Num(2, U16(f.vScroll)), Num(4, f.buttons)];
    assert ShapesOf(0x03).value == Shapes(fs);
    SignedBack(f.x, f.hScroll);
    SignedBack(f.y, f.vScroll);
  }

  lemma KeycodeReadsAs(k: Keycode)
    ensures ReadsAs(InjectKeycode(k))
  {
    var fs := Fields(InjectKeycode(k))[1..];
    assert fs == [Num(1, k.action), Num(4, k.keycode), Num(4, k.repeat), Num(4, k.metaState)];
    assert ShapesOf(0x00).value == Shapes(fs);
  }

  lemma DataReadsAs(c: Command)
    requires c.InjectText? || c.SetClipboard? || c.UhidCreate? || c.UhidInput? || c.UhidDestroy? || c.StartApp?
    ensures ReadsAs(c)
  {
    assert ShapesOf(TypeOf(c)).value == Shapes(Fields(c)[1..]);
  }

  /** The decoder's tables agree with the encodings. */
  lemma CommandReadsAs(c: Command)
    ensures ReadsAs(c)
  {
    if c.InjectTouch? {
      TouchReadsAs(c.touch);
    } else if c.InjectScroll? {
      ScrollReadsAs(c.scroll);
    } else if c.InjectKeycode? {
      KeycodeReadsAs(c.key);
    } else if c.InjectText? || c.SetClipboard? || c.UhidCreate? || c.UhidInput? || c.UhidDestroy? || c.StartApp? {
      DataReadsAs(c);
    } else {
      assert ShapesOf(TypeOf(c)).value == Shapes(Fields(c)[1..]);
    }
  }

  lemma Widths()
    ensures Pow256(1) == 0x100 && Pow256(2) == 0x1_0000
    ensures Pow256(4) == 0x1_0000_0000 && Pow256(8) == 0x1_0000_0000_0000_0000
  {
  }

  lemma FieldsFit(c: Command)
    requires Allowed(c)
    ensures AllFit(Fields(c))
  {
    Widths();
  }

  lemma TypeFirst(t: byte, fs: seq<Field>)
    ensures EncAll([Num(1, t)] + fs) == [t] + EncAll(fs)
  {
  }

  lemma DecodeParts(c: Command, t: byte, fs: seq<Field>, tail: seq<byte>, rest: seq<byte>)
    requires ShapesOf(t) == Some(Shapes(fs)) && TakeAll(Shapes(fs), tail) == Some((fs, rest))
    requires Build(t, fs) == c && Fields(c) == [Num(1, t)] + fs && Allowed(c)
    ensures Decode([t] + tail) == Some((c, rest))
  {
    var s := [t] + tail;
    assert s[0] == t && s[1..] == tail;
  }

  lemma DecodeOfWire(c: Command, rest: seq<byte>)
    requires Allowed(c)
    ensures Decode(Wire(c) + rest) == Some((c, rest))
  {
    var t, fs := TypeOf(c), Fields(c)[1..];
    CommandReadsAs(c);
    assert Fields(c) == [Num(1, t)] + fs;
    FieldsFit(c);
    TakeAllOfEnc(fs, rest);
    DecodeParts(c, t, fs, EncAll(fs) + rest, rest);
    TypeFirst(t, fs);
    Reassociate([t], EncAll(fs), rest);
  }

  lemma Recoded(s: seq<byte>, t: byte, fs: seq<Field>, rest: seq<byte>)
    requires s != [] && t == s[0] && s[1..] == EncAll(fs) + rest
    ensures s == EncAll([Num(1, t)] + fs) + rest
  {
    TypeFirst(t, fs);
    assert s == [t] + s[1..];
    Reassociate([t], EncAll(fs), rest);
  }

  /** The decoder accepts nothing but wire forms of allowed commands. */
  lemma DecodeIsSound(s: seq<byte>)
    requires Decode(s).Some?
    ensures s == Wire(Decode(s).value.0) + Decode(s).value.1
  {
    var t := s[0];
    var (fs, rest) := TakeAll(ShapesOf(t).value, s[1..]).value;
    TakeAllIsSound(ShapesOf(t).value, s[1..]);
    Recoded(s, t, fs, rest);
  }

  /** No wire form is the beginning of another command's. */
  lemma WireIsPrefixFree(c: Command, d: Command, rest: seq<byte>)
    requires Allowed(c) && Allowed(d) && Wire(c) + rest == Wire(d)
    ensures c == d && rest == []
  {
    DecodeOfWire(c, rest);
    DecodeOfWire(d, []);
    assert Wire(d) + [] == Wire(d);
  }

  lemma Uncut(w: seq<byte>, k: nat, v: seq<byte>, rest: seq<byte>)
    requires k < |w| && w[..k] == v + rest
    ensures v + (rest + w[k..]) == w && rest + w[k..] != []
  {
  }

  /** A wire form that was cut short is not read as anything. */
  lemma CutWireIsUnreadable(c: Command, k: nat)
    requires Allowed(c) && k < |Wire(c)|
    ensures Decode(Wire(c)[..k]) == None
  {
    var s := Wire(c)[..k];
    if Decode(s).Some? {
      var (d, rest) := Decode(s).value;
      DecodeIsSound(s);
      Uncut(Wire(c), k, Wire(d), rest);
      WireIsPrefixFree(d, c, rest + Wire(c)[k..]);
    }
  }

  function WireAll(cs: seq<Command>): seq<byte> {
    if cs == [] then [] else Wire(cs[0]) + WireAll(cs[1..])
  }

  ghost predicate AllAllowed(cs: seq<Command>) {
    forall c | c in cs :: Allowed(c)
  }

  lemma DecodeAllStep(s: seq<byte>, c: Command, rest: seq<byte>, cs: seq<Command>, left: seq<byte>)
    requires Decode(s) == Some((c, rest)) && DecodeAll(rest) == (cs, left)
    ensures DecodeAll(s) == ([c] + cs, left)
  {
  }

  /** A stream of wire forms decodes to exactly its commands, whatever unreadable octets follow. */
  lemma {:induction false} StreamDecodes(cs: seq<Command>, tail: seq<byte>)
    requires AllAllowed(cs) && Decode(tail) == None
    ensures DecodeAll(WireAll(cs) + tail) == (cs, tail)
    decreases |cs|
  {
    if cs == [] {
      assert [] + tail == tail;
    } else {
      var c, rest := cs[0], WireAll(cs[1..]) + tail;
      StreamDecodes(cs[1..], tail);
      DecodeOfWire(c, rest);
      DecodeAllStep(Wire(c) + rest, c, rest, cs[1..], tail);
      Reassociate(Wire(c), WireAll(cs[1..]), tail);
      assert cs == [c] + cs[1..];
    }
  }

  // ---------------------------------------------------------------- envelopes and commands

  /** The command is the envelope's: its type is the type octet, its record the one that belongs to it. */
  predicate Carries(m: ControlMsg, c: Command) {
    match c
    case InjectKeycode(key) => m.typ == 0x00 && m.injectKeycode == Some(key)
    case InjectText(text) => m.typ == 0x01 && m.injectText == Some(text)
    case InjectTouch(touch) => m.typ == 0x02 && m.injectTouch == Some(touch)
    case InjectScroll(scroll) => m.typ == 0x03 && m.injectScroll == Some(scroll)
    case BackOrScreenOn(action) => m.typ == 0x04 && m.backOrScreenOn == Some(action)
    case ExpandNotificationPanel => m.typ == 0x05
    case ExpandSettingsPanel => m.typ == 0x06
    case CollapsePanels => m.typ == 0x07
    case GetClipboard(copyKey) => m.typ == 0x08 && m.getClipboard == Some(copyKey)
    case SetClipboard(clip) => m.typ == 0x09 && m.setClipboard == Some(clip)
    case SetDisplayPower(mode) => m.typ == 0x0a && m.setDisplayPower == Some(mode)
    case RotateDevice => m.typ == 0x0b
    case UhidCreate(device) => m.typ == 0x0c && m.uhidCreate == Some(device)
    case UhidInput(input) => m.typ == 0x0d && m.uhidInput == Some(input)
    case UhidDestroy(id) => m.typ == 0x0e && m.uhidDestroy == Some(id)
    case OpenHardKeyboardSettings => m.typ == 0x0f
    case StartApp(name) => m.typ == 0x10 && m.startApp == Some(name)
    case ResetVideo => m.typ == 0x11
  }

  /** The record that the type octet calls for is missing. */
  predicate Lacks(m: ControlMsg) {
    || (m.typ == 0x00 && m.injectKeycode.None?) || (m.typ == 0x01 && m.injectText.None?)
    || (m.typ == 0x02 && m.injectTouch.None?) || (m.typ == 0x03 && m.injectScroll.None?)
    || (m.typ == 0x04 && m.backOrScreenOn.None?) || (m.typ == 0x08 && m.getClipboard.None?)
    || (m.typ == 0x09 && m.setClipboard.None?) || (m.typ == 0x0a && m.setDisplayPower.None?)
    || (m.typ == 0x0c && m.uhidCreate.None?) || (m.typ == 0x0d && m.uhidInput.None?)
    || (m.typ == 0x0e && m.uhidDestroy.None?) || (m.typ == 0x10 && m.startApp.None?)
  }

  /** It is there, but part of it is longer than the protocol or the gateway allows. */
  predicate TooLong(m: ControlMsg) {
    || (m.typ == 0x01 && m.injectText.Some? && |m.injectText.value| > 300)
    || (m.typ == 0x09 && m.setClipboard.Some? && |m.setClipboard.value.text| > 262144)
    || (m.typ == 0x0c && m.uhidCreate.Some?
          && (|m.uhidCreate.value.name| > 255 || |m.uhidCreate.value.descriptor| > 65535))
    || (m.typ == 0x0d && m.uhidInput.Some? && |m.uhidInput.value.data| > 65535)
    || (m.typ == 0x10 && m.startApp.Some? && |m.startApp.value| > 255)
  }

  predicate Sound(m: ControlMsg) {
    m.typ <= 0x11 && !Lacks(m) && !TooLong(m)
  }

  lemma MeaningCarries(m: ControlMsg)
    ensures Meaning(m).Ok? ==> Carries(m, Meaning(m).value)
  {
  }

  lemma MeaningErrors(m: ControlMsg)
    ensures Meaning(m).Ok? <==> Sound(m)
    ensures Meaning(m) == Err(UnknownType) <==> m.typ > 0x11
    ensures Meaning(m) == Err(PayloadInvalid) <==> Lacks(m)
    ensures Meaning(m) == Err(PayloadTooLarge) <==> TooLong(m)
  {
  }

  /** No envelope carries two commands. */
  lemma CarriesOne(m: ControlMsg, c: Command, d: Command)
    requires Carries(m, c) && Carries(m, d)
    ensures c == d
  {
  }

  /** What Marshal returns decodes to the envelope's own command, of the envelope's type and with the
      envelope's record; each error is returned for exactly one kind of envelope. */
  method Marshal(m: ControlMsg) returns (r: Result<seq<byte>, Error>)
    ensures r == if Meaning(m).Ok? then Ok(Wire(Meaning(m).value)) else Err(Meaning(m).error)
    ensures r.Ok? ==> Decode(r.value).Some? && Decode(r.value).value.1 == [] && Carries(m, Decode(r.value).value.0)
    ensures r == Err(UnknownType) <==> m.typ > 0x11
    ensures r == Err(PayloadInvalid) <==> Lacks(m)
    ensures r == Err(PayloadTooLarge) <==> TooLong(m)
  {
    MeaningErrors(m);
    if Meaning(m).Ok? {
      MeaningCarries(m);
      DecodeOfWire(Meaning(m).value, []);
      assert Wire(Meaning(m).value) + [] == Wire(Meaning(m).value);
    }
    r := MarshalByType(m);
  }
}
