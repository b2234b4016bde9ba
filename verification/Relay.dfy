/** Where the recorder and the reader look at the same header. */
module Relay {
  import opened Frames
  import opened VideoReader
  import Recording

  /** The recorder tests bit 63, which the reader takes for the config flag; so the recorder's
      keyframes are the reader's exactly when the two flags are equal. */
  lemma RecorderKeyframeIsConfigBit(f: Frame)
    requires Faithful(f)
    ensures Recording.IsKeyframe(WireBytes(f)) == f.configPacket
    ensures Recording.IsKeyframe(WireBytes(f)) == f.keyFrame <==> f.configPacket == f.keyFrame
  {
    assert WireBytes(f)[..8] == f.header[..8];
  }

  /** Every message that the hub relays for a frame of the reader is readable to the recorder. */
  lemma RelayedFramesAreReadable(f: Frame)
    requires Faithful(f)
    ensures Recording.Readable(WireBytes(f))
    ensures WireBytes(f)[12..] == f.payload
  {
    assert WireBytes(f)[8..12] == f.header[8..12];
  }
}
