/** The frame that the reader builds and the hub fans out (internal/session/hub.go). */
module Frames {
  import opened Bytes
  import Buffers

  datatype Frame = Frame(header: seq<byte>, payload: seq<byte>, keyFrame: bool, configPacket: bool)

  function WireBytes(f: Frame): seq<byte> {
    f.header + f.payload
  }

  /** The hub's copy of header and payload into one slice. */
  method BuildWireBytes(f: Frame) returns (out: seq<byte>)
    ensures out == WireBytes(f)
  {
    var buf := new byte[|f.header| + |f.payload|](_ => 0);
    Buffers.Copy(buf, 0, f.header);
    Buffers.Copy(buf, |f.header|, f.payload);
    out := buf[..];
  }

  /** The concatenated wire images. */
  function Wires(fs: seq<Frame>): seq<byte> {
    if fs == [] then [] else WireBytes(fs[0]) + Wires(fs[1..])
  }
}
