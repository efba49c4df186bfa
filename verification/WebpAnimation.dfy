/**
 The animated WebP container: what the writer lays out, an independent reader of the layout (section 2.7 of
 RFC 9649), and the frame loop with its running size.
 */
module WebpAnimation {
  import opened Options
  import opened Riff
  import opened WebpStill

  const VP8X: seq<byte> := [86, 80, 56, 88]
  const ANIM: seq<byte> := [65, 78, 73, 77]
  const ANMF: seq<byte> := [65, 78, 77, 70]
  const DISPLAY_MAX_OUTPUT_BYTES := 32 * 1024 * 1024
  const DISPLAY_MAX_TOTAL_PIXELS := 100_000_000

  // ----- The reader

  /** A frame as the container describes it. */
  datatype Frame = Frame(x: nat, y: nat, width: nat, height: nat, delay: nat, blend: bool, dispose: bool, data: seq<byte>)

  datatype Animation = Animation(width: nat, height: nat, alpha: bool, loop: nat, frames: seq<Frame>)

  function ReadFrame(c: Chunk): Option<Frame> {
    var p := c.payload;
    if c.tag != ANMF || |p| < 16 then None
    else
      Some(Frame(2 * FromLittleEndian(p[0..3]), 2 * FromLittleEndian(p[3..6]), FromLittleEndian(p[6..9]) + 1,
                 FromLittleEndian(p[9..12]) + 1, FromLittleEndian(p[12..15]), p[15] / 2 % 2 == 0, p[15] % 2 == 1, p[16..]))
  }

  function ReadFrames(cs: seq<Chunk>): Option<seq<Frame>> {
    if cs == [] then Some([])
    else
      match (ReadFrame(cs[0]), ReadFrames(cs[1..]))
      case (Some(f), Some(fs)) => Some([f] + fs)
      case _ => None
  }

  function ReadChunks(cs: seq<Chunk>): Option<Animation> {
    if |cs| < 2 || cs[0].tag != VP8X || |cs[0].payload| != 10 || cs[1].tag != ANIM || |cs[1].payload| != 6 then None
    else
      var p := cs[0].payload;
      if p[0] / 2 % 2 == 0 then None
      else
        match ReadFrames(cs[2..])
        case None => None
        case Some(fs) =>
          Some(Animation(FromLittleEndian(p[4..7]) + 1, FromLittleEndian(p[7..10]) + 1, p[0] / 16 % 2 == 1,
                         FromLittleEndian(cs[1].payload[4..6]), fs))
  }

  function ReadAnimation(body: seq<byte>): Option<Animation> {
    if |body| < 12 || body[..4] != RIFF || body[8..12] != WEBP || FromLittleEndian(body[4..8]) + 8 != |body| then None
    else
      match Decode(body[12..])
      case None => None
      case Some(cs) => ReadChunks(cs)
  }

  // ----- The layout

  function FrameHeader(width: nat, height: nat, delay: nat): (h: seq<byte>)
    requires width > 0 && height > 0
    ensures |h| == 16
  {
    Zeros(6) + LittleEndian(width - 1, 3) + LittleEndian(height - 1, 3) + LittleEndian(delay, 3) + [2]
  }

  function FrameChunk(width: nat, height: nat, delay: nat, data: seq<byte>): Chunk
    requires width > 0 && height > 0
  {
    Written(ANMF, FrameHeader(width, height, delay) + data)
  }

  function Extended(width: nat, height: nat, alpha: bool): (p: seq<byte>)
    requires width > 0 && height > 0
    ensures |p| == 10
  {
    [if alpha then 18 else 2] + Zeros(3) + LittleEndian(width - 1, 3) + LittleEndian(height - 1, 3)
  }

  function Looping(loop: nat): (p: seq<byte>)
    ensures |p| == 6
  {
    Zeros(4) + LittleEndian(loop, 2)
  }

  function FrameChunks(width: nat, height: nat, delays: seq<nat>, parts: seq<Parts>): (cs: seq<Chunk>)
    requires width > 0 && height > 0 && |delays| >= |parts|
    ensures |cs| == |parts|
  {
    if parts == [] then []
    else [FrameChunk(width, height, delays[0], parts[0].data)] + FrameChunks(width, height, delays[1..], parts[1..])
  }

  predicate AnyPartAlpha(parts: seq<Parts>) { exists p | p in parts :: p.alpha }

  function ContainerChunks(width: nat, height: nat, loop: nat, delays: seq<nat>, parts: seq<Parts>): seq<Chunk>
    requires width > 0 && height > 0 && |delays| >= |parts|
  {
    [Written(VP8X, Extended(width, height, AnyPartAlpha(parts))), Written(ANIM, Looping(loop))] +
    FrameChunks(width, height, delays, parts)
  }

  function Container(width: nat, height: nat, loop: nat, delays: seq<nat>, parts: seq<Parts>): seq<byte>
    requires width > 0 && height > 0 && |delays| >= |parts|
  {
    var chunks := Encode(ContainerChunks(width, height, loop, delays, parts));
    RIFF + LittleEndian(4 + |chunks|, 4) + WEBP + chunks
  }

  // ----- The layout reads back

  /** Each still covers the canvas, replaces what was there, and is shown for its delay. */
  function Shown(width: nat, height: nat, delays: seq<nat>, parts: seq<Parts>): (fs: seq<Frame>)
    requires |delays| >= |parts|
    ensures |fs| == |parts|
    ensures forall i | 0 <= i < |parts| :: fs[i] == Frame(0, 0, width, height, delays[i], false, false, parts[i].data)
  {
    seq(|parts|, i requires 0 <= i < |parts| => Frame(0, 0, width, height, delays[i], false, false, parts[i].data))
  }

  lemma {:induction false} ZerosRead(n: nat)
    ensures FromLittleEndian(Zeros(n)) == 0
  {
    if n > 0 {
      ZerosRead(n - 1);
      assert Zeros(n)[1..] == Zeros(n - 1);
    }
  }

  lemma FrameReads(width: nat, height: nat, delay: nat, data: seq<byte>)
    requires 0 < width <= MAX_UINT24 + 1 && 0 < height <= MAX_UINT24 + 1 && delay <= MAX_UINT24
    ensures ReadFrame(FrameChunk(width, height, delay, data)) == Some(Frame(0, 0, width, height, delay, false, false, data))
  {
    hide LittleEndian, FromLittleEndian, Fits, Zeros;
    var h := FrameHeader(width, height, delay);
    var p := h + data;
    FitsExactly(width - 1);
    FitsExactly(height - 1);
    FitsExactly(delay);
    ReadWritten(width - 1, 3);
    ReadWritten(height - 1, 3);
    ReadWritten(delay, 3);
    ZerosRead(3);
    assert p[0..3] == Zeros(3) && p[3..6] == Zeros(3);
    assert p[6..9] == LittleEndian(width - 1, 3) && p[9..12] == LittleEndian(height - 1, 3);
    assert p[12..15] == LittleEndian(delay, 3) && p[15] == 2 && p[16..] == data;
  }

  lemma {:induction false} FramesRead(width: nat, height: nat, delays: seq<nat>, parts: seq<Parts>)
    requires 0 < width <= MAX_UINT24 + 1 && 0 < height <= MAX_UINT24 + 1
    requires |delays| >= |parts| && forall d | d in delays :: d <= MAX_UINT24
    ensures ReadFrames(FrameChunks(width, height, delays, parts)) == Some(Shown(width, height, delays, parts))
  {
    hide FrameChunk, ReadFrame, Shown;
    if parts == [] {
      assert Shown(width, height, delays, parts) == [];
    } else {
      assert delays[0] in delays && forall d | d in delays[1..] :: d in delays;
      FrameReads(width, height, delays[0], parts[0].data);
      FramesRead(width, height, delays[1..], parts[1..]);
      var cs := FrameChunks(width, height, delays, parts);
      assert cs[1..] == FrameChunks(width, height, delays[1..], parts[1..]);
      assert Shown(width, height, delays, parts)
          == [Frame(0, 0, width, height, delays[0], false, false, parts[0].data)] + Shown(width, height, delays[1..], parts[1..]);
    }
  }

  lemma ChunksRead(width: nat, height: nat, loop: nat, delays: seq<nat>, parts: seq<Parts>)
    requires 0 < width <= MAX_UINT24 + 1 && 0 < height <= MAX_UINT24 + 1 && loop <= MAX_UINT16
    requires |delays| >= |parts| && forall d | d in delays :: d <= MAX_UINT24
    ensures ReadChunks(ContainerChunks(width, height, loop, delays, parts)) ==
            Some(Animation(width, height, AnyPartAlpha(parts), loop, Shown(width, height, delays, parts)))
  {
    hide LittleEndian, FromLittleEndian, Fits, Zeros, AnyPartAlpha, FrameChunks, Shown, ReadFrames;
    var cs := ContainerChunks(width, height, loop, delays, parts);
    FramesRead(width, height, delays, parts);
    FitsExactly(width - 1);
    FitsExactly(height - 1);
    FitsExactly(loop);
    ReadWritten(width - 1, 3);
    ReadWritten(height - 1, 3);
    ReadWritten(loop, 2);
    assert cs[2..] == FrameChunks(width, height, delays, parts);
    var p := cs[0].payload;
    assert p[4..7] == LittleEndian(width - 1, 3) && p[7..10] == LittleEndian(height - 1, 3);
    assert cs[1].payload[4..6] == LittleEndian(loop, 2);
  }

  lemma {:induction false} FrameChunksSize(width: nat, height: nat, delays: seq<nat>, parts: seq<Parts>)
    requires width > 0 && height > 0 && |delays| >= |parts|
    requires forall p | p in parts :: |p.data| + 16 <= MAX_UINT32 && |p.data| % 2 == 0
    ensures AreChunks(FrameChunks(width, height, delays, parts))
    ensures |Encode(FrameChunks(width, height, delays, parts))| == FramesSize(parts)
  {
    hide FrameHeader;
    if parts != [] {
      FrameChunksSize(width, height, delays[1..], parts[1..]);
      var cs := FrameChunks(width, height, delays, parts);
      NotEmpty(cs[0]);
      assert cs[1..] == FrameChunks(width, height, delays[1..], parts[1..]);
    }
  }

  function FramesSize(parts: seq<Parts>): nat {
    if parts == [] then 0 else 24 + |parts[0].data| + FramesSize(parts[1..])
  }

  lemma ChunksSize(width: nat, height: nat, loop: nat, delays: seq<nat>, parts: seq<Parts>)
    requires width > 0 && height > 0 && |delays| >= |parts|
    requires forall p | p in parts :: |p.data| % 2 == 0
    requires 44 + FramesSize(parts) <= DISPLAY_MAX_OUTPUT_BYTES
    ensures var cs := ContainerChunks(width, height, loop, delays, parts);
            AreChunks(cs) && |Encode(cs)| == 32 + FramesSize(parts)
  {
    hide FrameChunks, Extended, Looping, AnyPartAlpha, FramesSize, ChunkBytes, Encode;
    PartsAreSmall(parts);
    FrameChunksSize(width, height, delays, parts);
    var first, second := Written(VP8X, Extended(width, height, AnyPartAlpha(parts))), Written(ANIM, Looping(loop));
    var frames := FrameChunks(width, height, delays, parts);
    assert IsChunk(first) && IsChunk(second);
    NotEmpty(first);
    NotEmpty(second);
    EncodeAppend([first, second], frames);
    TwoChunks(first, second);
  }

  /** A file of chunks: the RIFF size is exact, and the reader gets the chunks back. */
  lemma FileReads(cs: seq<Chunk>)
    requires AreChunks(cs) && |Encode(cs)| + 4 <= MAX_UINT32
    ensures var body := RIFF + LittleEndian(4 + |Encode(cs)|, 4) + WEBP + Encode(cs);
            FromLittleEndian(body[4..8]) + 8 == |body| && ReadAnimation(body) == ReadChunks(cs)
  {
    hide LittleEndian, FromLittleEndian, Fits, ReadChunks, Encode, Decode;
    DecodeEncode(cs);
    var size := 4 + |Encode(cs)|;
    FitsExactly(size);
    ReadWritten(size, 4);
    var body := RIFF + LittleEndian(size, 4) + WEBP + Encode(cs);
    assert body[..4] == RIFF && body[4..8] == LittleEndian(size, 4) && body[8..12] == WEBP && body[12..] == Encode(cs);
  }

  /** The RIFF size is exact, and the reader finds the canvas, the loop count and the frames in order. */
  lemma ContainerReads(width: nat, height: nat, loop: nat, delays: seq<nat>, parts: seq<Parts>)
    requires 0 < width <= MAX_UINT24 + 1 && 0 < height <= MAX_UINT24 + 1 && loop <= MAX_UINT16
    requires |delays| >= |parts| && forall d | d in delays :: d <= MAX_UINT24
    requires forall p | p in parts :: |p.data| % 2 == 0
    requires 44 + FramesSize(parts) <= DISPLAY_MAX_OUTPUT_BYTES
    ensures var body := Container(width, height, loop, delays, parts);
            |body| == 44 + FramesSize(parts) && FromLittleEndian(body[4..8]) + 8 == |body| &&
            ReadAnimation(body) ==
            Some(Animation(width, height, AnyPartAlpha(parts), loop, Shown(width, height, delays, parts)))
  {
    hide LittleEndian, FromLittleEndian, ReadAnimation, ReadChunks, Encode, ContainerChunks, FramesSize, Shown, AnyPartAlpha;
    ChunksSize(width, height, loop, delays, parts);
    FileReads(ContainerChunks(width, height, loop, delays, parts));
    ChunksRead(width, height, loop, delays, parts);
  }

  lemma TwoChunks(a: Chunk, b: Chunk)
    ensures Encode([a, b]) == ChunkBytes(a) + ChunkBytes(b)
  {
    hide ChunkBytes;
    assert [a, b][1..] == [b];
    assert Encode([b]) == ChunkBytes(b) + [] == ChunkBytes(b);
  }

  lemma {:induction false} PartsAreSmall(parts: seq<Parts>)
    ensures forall p | p in parts :: |p.data| + 24 <= FramesSize(parts)
  {
    if parts != [] {
      PartsAreSmall(parts[1..]);
    }
  }
}
