/** What the display encoder accepts and writes, said on the bytes of the files and the numbers it is given. */
module WebpOutcomes {
  import opened Options
  import opened Sequences
  import opened Riff
  import opened WebpStill
  import opened WebpAnimation
  import opened WebpEncoder

  // ----- Numbers

  /** The first byte is the lowest. */
  lemma LowByteFirst(s: seq<byte>)
    ensures |s| == 2 ==> FromLittleEndian(s) == (s[0] as int) + 0x100 * (s[1] as int)
    ensures |s| == 3 ==> FromLittleEndian(s) == (s[0] as int) + 0x100 * (s[1] as int) + 0x1_0000 * (s[2] as int)
    ensures |s| == 4 ==> FromLittleEndian(s) == (s[0] as int) + 0x100 * (s[1] as int) + 0x1_0000 * (s[2] as int) + 0x100_0000 * (s[3] as int)
  {
    if |s| == 2 {
      TwoBytes(s);
    } else if |s| == 3 {
      TwoBytes(s[1..]);
    } else if |s| == 4 {
      TwoBytes(s[1..][1..]);
    }
  }

  lemma TwoBytes(s: seq<byte>)
    requires |s| == 2
    ensures FromLittleEndian(s) == (s[0] as int) + 0x100 * (s[1] as int)
  {
    var rest := s[1..];
    assert rest[1..] == [] && rest[0] == s[1];
    assert FromLittleEndian(rest) == rest[0] + 256 * FromLittleEndian(rest[1..]);
  }

  // ----- The bytes of an animation

  /** The number in `n` bytes from `i` on, the lowest first. */
  ghost function Number(b: seq<byte>, i: nat, n: nat): nat
    requires i + n <= |b|
    decreases n
  {
    if n == 0 then 0 else b[i] + 0x100 * Number(b, i + 1, n - 1)
  }

  ghost predicate Tagged(b: seq<byte>, i: nat, name: string) {
    i + |name| <= |b| && forall k: nat | k < |name| :: b[i + k] == name[k] as int
  }

  ghost predicate Blank(b: seq<byte>, i: nat, n: nat) {
    i + n <= |b| && forall k: nat | i <= k < i + n :: b[k] == 0
  }

  lemma {:induction false} NumberIs(a: seq<byte>, s: seq<byte>, z: seq<byte>)
    ensures Number(a + s + z, |a|, |s|) == FromLittleEndian(s)
    decreases |s|
  {
    if s != [] {
      var b := a + s + z;
      assert b == (a + [s[0]]) + s[1..] + z;
      NumberIs(a + [s[0]], s[1..], z);
    }
  }

  lemma WrittenNumber(a: seq<byte>, n: nat, width: nat, z: seq<byte>)
    requires Fits(n, width)
    ensures Number(a + LittleEndian(n, width) + z, |a|, width) == n
  {
    ReadWritten(n, width);
    NumberIs(a, LittleEndian(n, width), z);
  }

  /** A frame of the size of the canvas, shown for its delay, that replaces what was there: the bytes of its chunk. */
  ghost predicate FrameLaidOut(b: seq<byte>, width: nat, height: nat, delay: nat, data: seq<byte>) {
    |b| == 24 + |data| + |data| % 2 && Tagged(b, 0, "ANMF") && Number(b, 4, 4) == 16 + |data| && Blank(b, 8, 6) &&
    Number(b, 14, 3) == width - 1 && Number(b, 17, 3) == height - 1 && Number(b, 20, 3) == delay && b[23] == 2 &&
    b[24..24 + |data|] == data
  }

  lemma FrameLayout(width: pos, height: pos, delay: nat, data: seq<byte>)
    requires width <= 0x100_0000 && height <= 0x100_0000 && delay < 0x100_0000 && |data| + 16 < 0x1_0000_0000
    ensures FrameLaidOut(ChunkBytes(FrameChunk(width, height, delay, data)), width, height, delay, data)
  {
    hide LittleEndian, Number, Fits, Zeros;
    var c := FrameChunk(width, height, delay, data);
    var b := ChunkBytes(c);
    var size, w, h, d := LittleEndian(16 + |data|, 4), LittleEndian(width - 1, 3), LittleEndian(height - 1, 3), LittleEndian(delay, 3);
    FitsExactly(16 + |data|);
    FitsExactly(width - 1);
    FitsExactly(height - 1);
    FitsExactly(delay);
    var tail := data + c.padding;
    assert b == ANMF + size + (Zeros(6) + w + h + d + [2] + tail);
    WrittenNumber(ANMF, 16 + |data|, 4, Zeros(6) + w + h + d + [2] + tail);
    assert b == (ANMF + size + Zeros(6)) + w + (h + d + [2] + tail);
    WrittenNumber(ANMF + size + Zeros(6), width - 1, 3, h + d + [2] + tail);
    assert b == (ANMF + size + Zeros(6) + w) + h + (d + [2] + tail);
    WrittenNumber(ANMF + size + Zeros(6) + w, height - 1, 3, d + [2] + tail);
    assert b == (ANMF + size + Zeros(6) + w + h) + d + ([2] + tail);
    WrittenNumber(ANMF + size + Zeros(6) + w + h, delay, 3, [2] + tail);
    assert b[24..24 + |data|] == data;
    assert forall k: nat | 8 <= k < 14 :: b[k] == Zeros(6)[k - 8];
  }

  /** The header of a file: its length, the canvas with its flags, the loop count, and then the frames one after the other. */
  ghost predicate FileLaidOut(b: seq<byte>, width: nat, height: nat, alpha: bool, loop: nat, frames: seq<byte>) {
    |b| == 44 + |frames| && Tagged(b, 0, "RIFF") && Number(b, 4, 4) + 8 == |b| && Tagged(b, 8, "WEBP") &&
    Tagged(b, 12, "VP8X") && Number(b, 16, 4) == 10 && b[20] == (if alpha then 18 else 2) && Blank(b, 21, 3) &&
    Number(b, 24, 3) == width - 1 && Number(b, 27, 3) == height - 1 &&
    Tagged(b, 30, "ANIM") && Number(b, 34, 4) == 6 && Blank(b, 38, 4) && Number(b, 42, 2) == loop && b[44..] == frames
  }

  lemma HeadLayout(size: nat, width: pos, height: pos, flags: byte, loop: nat, frames: seq<byte>)
    requires width <= 0x100_0000 && height <= 0x100_0000 && loop < 0x1_0000 && size == 36 + |frames| < 0x1_0000_0000
    requires flags == 18 || flags == 2
    ensures var b := RIFF + LittleEndian(size, 4) + WEBP +
                     (VP8X + LittleEndian(10, 4) + ([flags] + Zeros(3) + LittleEndian(width - 1, 3) + LittleEndian(height - 1, 3)) +
                      (ANIM + LittleEndian(6, 4) + (Zeros(4) + LittleEndian(loop, 2))) + frames);
            FileLaidOut(b, width, height, flags == 18, loop, frames)
  {
    hide LittleEndian, Number, Fits, Zeros;
    var n, ten, w, h, six, l := LittleEndian(size, 4), LittleEndian(10, 4), LittleEndian(width - 1, 3), LittleEndian(height - 1, 3),
      LittleEndian(6, 4), LittleEndian(loop, 2);
    FitsExactly(size);
    FitsExactly(10);
    FitsExactly(width - 1);
    FitsExactly(height - 1);
    FitsExactly(6);
    FitsExactly(loop);
    var anim := ANIM + six + (Zeros(4) + l) + frames;
    var b := RIFF + n + WEBP + (VP8X + ten + ([flags] + Zeros(3) + w + h) + (ANIM + six + (Zeros(4) + l)) + frames);
    Segments(b, n, ten, flags, w, h, six, l, frames);
    var at4, at16, at24, at27, at34, at42 := b[..4], b[..16], b[..24], b[..27], b[..34], b[..42];
    WrittenNumber(at4, size, 4, b[8..]);
    WrittenNumber(at16, 10, 4, b[20..]);
    WrittenNumber(at24, width - 1, 3, b[27..]);
    WrittenNumber(at27, height - 1, 3, b[30..]);
    WrittenNumber(at34, 6, 4, b[38..]);
    WrittenNumber(at42, loop, 2, b[44..]);
  }

  lemma Segments(b: seq<byte>, n: seq<byte>, ten: seq<byte>, flags: byte, w: seq<byte>, h: seq<byte>, six: seq<byte>, l: seq<byte>, frames: seq<byte>)
    requires |n| == 4 && |ten| == 4 && |w| == 3 && |h| == 3 && |six| == 4 && |l| == 2
    requires b == RIFF + n + WEBP + (VP8X + ten + ([flags] + Zeros(3) + w + h) + (ANIM + six + (Zeros(4) + l)) + frames)
    ensures |b| == 44 + |frames| && b[44..] == frames && b[20] == flags
    ensures b == b[..4] + n + b[8..] && b == b[..16] + ten + b[20..] && b == b[..24] + w + b[27..] && b == b[..27] + h + b[30..]
    ensures b == b[..34] + six + b[38..] && b == b[..42] + l + b[44..]
    ensures Tagged(b, 0, "RIFF") && Tagged(b, 8, "WEBP") && Tagged(b, 12, "VP8X") && Tagged(b, 30, "ANIM") && Blank(b, 21, 3) && Blank(b, 38, 4)
  {
    hide *;
    Slices(b, n, ten, flags, w, h, six, l, frames);
    Cut(b, 4, n);
    Cut(b, 16, ten);
    Cut(b, 24, w);
    Cut(b, 27, h);
    Cut(b, 34, six);
    Cut(b, 42, l);
    TagAt(b, 0, RIFF, "RIFF");
    TagAt(b, 8, WEBP, "WEBP");
    TagAt(b, 12, VP8X, "VP8X");
    TagAt(b, 30, ANIM, "ANIM");
    BlankAt(b, 21, 3);
    BlankAt(b, 38, 4);
  }

  lemma Slices(b: seq<byte>, n: seq<byte>, ten: seq<byte>, flags: byte, w: seq<byte>, h: seq<byte>, six: seq<byte>, l: seq<byte>, frames: seq<byte>)
    requires |n| == 4 && |ten| == 4 && |w| == 3 && |h| == 3 && |six| == 4 && |l| == 2
    requires b == RIFF + n + WEBP + (VP8X + ten + ([flags] + Zeros(3) + w + h) + (ANIM + six + (Zeros(4) + l)) + frames)
    ensures |b| == 44 + |frames| && b[44..] == frames && b[20] == flags
    ensures b[4..8] == n && b[16..20] == ten && b[24..27] == w && b[27..30] == h && b[34..38] == six && b[42..44] == l
    ensures b[0..4] == RIFF && b[8..12] == WEBP && b[12..16] == VP8X && b[30..34] == ANIM && b[21..24] == Zeros(3) && b[38..42] == Zeros(4)
  {
    hide Zeros;
  }

  lemma Cut(b: seq<byte>, i: nat, part: seq<byte>)
    requires i + |part| <= |b| && b[i..i + |part|] == part
    ensures b == b[..i] + part + b[i + |part|..]
  {
  }

  lemma TagAt(b: seq<byte>, i: nat, bytes: seq<byte>, name: string)
    requires (bytes == RIFF && name == "RIFF") || (bytes == WEBP && name == "WEBP") || (bytes == VP8X && name == "VP8X") ||
             (bytes == ANIM && name == "ANIM")
    requires i + 4 <= |b| && b[i..i + 4] == bytes
    ensures Tagged(b, i, name)
  {
    assert forall k: nat | k < 4 :: b[i + k] == bytes[k];
  }

  lemma BlankAt(b: seq<byte>, i: nat, n: nat)
    requires i + n <= |b| && b[i..i + n] == Zeros(n)
    ensures Blank(b, i, n)
  {
    assert forall k: nat | i <= k < i + n :: b[k] == Zeros(n)[k - i];
  }

  /** One after the other. */
  ghost function Flat(parts: seq<seq<byte>>): seq<byte> {
    if parts == [] then [] else parts[0] + Flat(parts[1..])
  }

  lemma WrittenEven(tag: seq<byte>, payload: seq<byte>)
    requires |payload| % 2 == 0
    ensures ChunkBytes(Written(tag, payload)) == tag + LittleEndian(|payload|, 4) + payload
  {
    hide LittleEndian;
  }

  /** The bytes of a container: its header, and its frames with their delays and data. */
  ghost predicate LaidOut(b: seq<byte>, width: nat, height: nat, loop: nat, delays: seq<nat>, parts: seq<Parts>, fs: seq<seq<byte>>) {
    |fs| == |parts| == |delays| &&
    FileLaidOut(b, width, height, exists i: nat | i < |parts| :: parts[i].alpha, loop, Flat(fs)) &&
    forall i: nat | i < |fs| :: FrameLaidOut(fs[i], width, height, delays[i], parts[i].data)
  }

  lemma {:induction false} FramesFlat(width: pos, height: pos, delays: seq<nat>, parts: seq<Parts>) returns (fs: seq<seq<byte>>)
    requires |delays| == |parts|
    ensures |fs| == |parts| && Flat(fs) == Encode(FrameChunks(width, height, delays, parts))
    ensures forall i: nat | i < |fs| :: fs[i] == ChunkBytes(FrameChunk(width, height, delays[i], parts[i].data))
  {
    hide FrameChunk, ChunkBytes;
    if parts == [] {
      fs := [];
    } else {
      var rest := FramesFlat(width, height, delays[1..], parts[1..]);
      var first := ChunkBytes(FrameChunk(width, height, delays[0], parts[0].data));
      fs := [first] + rest;
      assert fs[1..] == rest;
      var cs := FrameChunks(width, height, delays, parts);
      assert cs[1..] == FrameChunks(width, height, delays[1..], parts[1..]);
    }
  }

  lemma ContainerLayout(width: pos, height: pos, loop: nat, delays: seq<nat>, parts: seq<Parts>) returns (fs: seq<seq<byte>>)
    requires width <= 0x100_0000 && height <= 0x100_0000 && loop < 0x1_0000 && |delays| == |parts|
    requires (forall i: nat | i < |delays| :: delays[i] < 0x100_0000) && (forall p | p in parts :: |p.data| % 2 == 0)
    requires 44 + FramesSize(parts) <= DISPLAY_MAX_OUTPUT_BYTES
    ensures LaidOut(Container(width, height, loop, delays, parts), width, height, loop, delays, parts, fs)
  {
    hide FrameChunks, FramesSize, LittleEndian, ChunkBytes, FileLaidOut, FrameLaidOut, FrameChunk, Zeros, Encode, AnyPartAlpha, Fits;
    fs := FramesFlat(width, height, delays, parts);
    ContainerReads(width, height, loop, delays, parts);
    HeadIs(width, height, loop, delays, parts);
    var alpha := AnyPartAlpha(parts);
    AlphaAt(parts);
    WrittenEven(VP8X, Extended(width, height, alpha));
    WrittenEven(ANIM, Looping(loop));
    var frames := Encode(FrameChunks(width, height, delays, parts));
    HeadLayout(36 + |frames|, width, height, if alpha then 18 else 2, loop, frames);
    PartsAreSmall(parts);
    forall i: nat | i < |fs|
      ensures FrameLaidOut(fs[i], width, height, delays[i], parts[i].data)
    {
      assert parts[i] in parts;
      FrameLayout(width, height, delays[i], parts[i].data);
    }
  }

  lemma AlphaAt(parts: seq<Parts>)
    ensures AnyPartAlpha(parts) <==> exists i: nat | i < |parts| :: parts[i].alpha
  {
  }

  // ----- Still files

  /** The bytes spell a name, whatever their highest bits. */
  ghost predicate Spells(s: seq<byte>, name: string) {
    |s| == |name| && forall i: nat | i < |s| :: s[i] % 128 == name[i] as int
  }

  ghost predicate Picture(c: Chunk) { Spells(c.tag, "VP8 ") || Spells(c.tag, "VP8L") }

  /** A chunk of transparency, or lossless data whose fifth byte has the flag. */
  ghost predicate Transparent(c: Chunk) {
    Spells(c.tag, "ALPH") || (Spells(c.tag, "VP8L") && |c.payload| >= 5 && c.payload[4] / 16 % 2 == 1)
  }

  /** `r` is what is left of `cs` when only pictures and transparency are kept. */
  ghost predicate Selected(cs: seq<Chunk>, r: seq<Chunk>)
    decreases |cs|
  {
    if |cs| == 0 then r == []
    else if Picture(cs[0]) || Spells(cs[0].tag, "ALPH") then r != [] && r[0] == cs[0] && Selected(cs[1..], r[1..])
    else Selected(cs[1..], r)
  }

  /** A WebP file of these chunks, with the length it states. */
  ghost predicate WebpFile(body: seq<byte>, cs: seq<Chunk>) {
    |body| >= 12 && Spells(body[..4], "RIFF") && Spells(body[8..12], "WEBP") &&
    (body[4] as int) + 0x100 * (body[5] as int) + 0x1_0000 * (body[6] as int) + 0x100_0000 * (body[7] as int) + 8 == |body| &&
    AreChunks(cs) && Encode(cs) == body[12..]
  }

  ghost predicate OnePicture(cs: seq<Chunk>) {
    exists i: nat | i < |cs| :: Picture(cs[i]) && forall j: nat | j < |cs| && j != i :: !Picture(cs[j])
  }

  /** What a still contributes: a well-formed file with exactly one picture and no lossless data that is cut short. */
  ghost predicate Contributes(body: seq<byte>, p: Parts) {
    exists cs: seq<Chunk> :: WebpFile(body, cs) && OnePicture(cs) &&
                 (forall i: nat | i < |cs| && Spells(cs[i].tag, "VP8L") :: |cs[i].payload| >= 5) &&
                 (exists kept :: Selected(cs, kept) && p.data == Encode(kept)) &&
                 (p.alpha <==> exists i: nat | i < |cs| :: Transparent(cs[i]))
  }

  lemma AsciiIs(s: seq<byte>, bytes: seq<byte>, name: string)
    requires |bytes| == |name| && forall i: nat | i < |name| :: bytes[i] == name[i] as int
    ensures Ascii(s) == bytes <==> Spells(s, name)
  {
    if Spells(s, name) { assert forall i: nat | i < |s| :: Ascii(s)[i] == bytes[i]; }
    if Ascii(s) == bytes { assert forall i: nat | i < |s| :: Ascii(s)[i] == s[i] % 128; }
  }

  lemma TagsIff(c: Chunk)
    ensures IsImage(c) <==> Picture(c)
    ensures IsKept(c) <==> Picture(c) || Spells(c.tag, "ALPH")
    ensures HasAlpha(c) <==> Transparent(c)
    ensures TooShort(c) <==> Spells(c.tag, "VP8L") && |c.payload| < 5
  {
    hide Ascii, Spells;
    AsciiIs(c.tag, VP8, "VP8 ");
    AsciiIs(c.tag, VP8L, "VP8L");
    AsciiIs(c.tag, ALPH, "ALPH");
  }

  lemma {:induction false} KeptIff(cs: seq<Chunk>, r: seq<Chunk>)
    ensures Kept(cs) == r <==> Selected(cs, r)
    decreases |cs|
  {
    hide IsKept, Picture, Spells;
    if |cs| > 0 {
      TagsIff(cs[0]);
      if IsKept(cs[0]) {
        if r != [] { KeptIff(cs[1..], r[1..]); HeadAndTail(r, 1); }
        JoinParts([cs[0]], Kept(cs[1..]));
      } else {
        KeptIff(cs[1..], r);
        JoinEmpty(Kept(cs[1..]));
      }
    }
  }

  lemma {:induction false} NoPictures(cs: seq<Chunk>)
    ensures ImageCount(cs) == 0 <==> forall i: nat | i < |cs| :: !Picture(cs[i])
  {
    hide IsImage, Picture;
    if |cs| > 0 {
      TagsIff(cs[0]);
      NoPictures(cs[1..]);
      assert forall i: nat | 0 < i < |cs| :: cs[i] == cs[1..][i - 1];
    }
  }

  lemma FirstPicture(cs: seq<Chunk>)
    requires |cs| > 0
    ensures OnePicture(cs) <==>
            if Picture(cs[0]) then forall i: nat | i < |cs[1..]| :: !Picture(cs[1..][i]) else OnePicture(cs[1..])
  {
    hide Picture;
    var rest := cs[1..];
    if OnePicture(cs) && !Picture(cs[0]) {
      var i: nat :| i < |cs| && Picture(cs[i]) && forall j: nat | j < |cs| && j != i :: !Picture(cs[j]);
      assert rest[i - 1] == cs[i] && forall j: nat | j < |rest| && j != i - 1 :: !Picture(rest[j]);
    }
    if OnePicture(rest) && !Picture(cs[0]) {
      var i: nat :| i < |rest| && Picture(rest[i]) && forall j: nat | j < |rest| && j != i :: !Picture(rest[j]);
      assert Picture(cs[i + 1]);
      forall j: nat | j < |cs| && j != i + 1
        ensures !Picture(cs[j])
      {
        if j > 0 { assert cs[j] == rest[j - 1]; }
      }
    }
    if Picture(cs[0]) && OnePicture(cs) {
      assert forall i: nat | i < |rest| :: rest[i] == cs[i + 1];
    }
    if Picture(cs[0]) && forall i: nat | i < |rest| :: !Picture(rest[i]) {
      assert forall j: nat | 0 < j < |cs| :: cs[j] == rest[j - 1];
    }
  }

  lemma {:induction false} OnePictureIff(cs: seq<Chunk>)
    ensures ImageCount(cs) == 1 <==> OnePicture(cs)
  {
    hide IsImage, Picture, OnePicture;
    if |cs| == 0 {
      NothingThere(cs);
    } else {
      TagsIff(cs[0]);
      NoPictures(cs[1..]);
      OnePictureIff(cs[1..]);
      FirstPicture(cs);
    }
  }

  lemma NothingThere(cs: seq<Chunk>)
    requires |cs| == 0
    ensures !OnePicture(cs)
  {
  }

  lemma FlagsIff(cs: seq<Chunk>)
    ensures AnyAlpha(cs) <==> exists i: nat | i < |cs| :: Transparent(cs[i])
    ensures AnyTooShort(cs) <==> !(forall i: nat | i < |cs| && Spells(cs[i].tag, "VP8L") :: |cs[i].payload| >= 5)
  {
    hide HasAlpha, TooShort, Transparent, Spells;
    forall i: nat | i < |cs|
      ensures HasAlpha(cs[i]) <==> Transparent(cs[i])
      ensures TooShort(cs[i]) <==> Spells(cs[i].tag, "VP8L") && |cs[i].payload| < 5
    {
      TagsIff(cs[i]);
    }
  }

  lemma FileIff(body: seq<byte>, cs: seq<Chunk>)
    ensures WebpFile(body, cs) <==> IsWebp(body) && Decode(body[12..]) == Some(cs)
  {
    hide Ascii, Spells, FromLittleEndian, Decode, Encode;
    if |body| >= 12 {
      AsciiIs(body[..4], RIFF, "RIFF");
      AsciiIs(body[8..12], WEBP, "WEBP");
      LowByteFirst(body[4..8]);
      if AreChunks(cs) && Encode(cs) == body[12..] { DecodeEncode(cs); }
      if Decode(body[12..]) == Some(cs) { EncodeDecode(body[12..]); }
    }
  }

  /** A still is read exactly when its file is in order, and as what it contributes. */
  lemma StillIff(body: seq<byte>, p: Parts)
    ensures StillParts(body) == Ok(p) <==> Contributes(body, p)
    ensures StillParts(body).Err? ==> StillParts(body).error == FrameInvalid
  {
    hide IsWebp, Decode, Encode, Kept, Selected, WebpFile, OnePicture, AnyAlpha, AnyTooShort, ImageCount, Transparent, Spells, Picture;
    if StillParts(body) == Ok(p) {
      assert |body| >= 12 by { WebpLength(body); }
      var cs := Decode(body[12..]).value;
      ReadAs(body, cs);
      assert Selected(cs, Kept(cs));
    }
    if Contributes(body, p) {
      var cs: seq<Chunk> :| WebpFile(body, cs) && OnePicture(cs) &&
                (forall i: nat | i < |cs| && Spells(cs[i].tag, "VP8L") :: |cs[i].payload| >= 5) &&
                (exists kept :: Selected(cs, kept) && p.data == Encode(kept)) &&
                (p.alpha <==> exists i: nat | i < |cs| :: Transparent(cs[i]));
      ReadAs(body, cs);
      var kept :| Selected(cs, kept) && p.data == Encode(kept);
      KeptIff(cs, kept);
    }
  }

  lemma ReadAs(body: seq<byte>, cs: seq<Chunk>)
    ensures WebpFile(body, cs) <==> IsWebp(body) && Decode(body[12..]) == Some(cs)
    ensures ImageCount(cs) == 1 <==> OnePicture(cs)
    ensures AnyAlpha(cs) <==> exists i: nat | i < |cs| :: Transparent(cs[i])
    ensures AnyTooShort(cs) <==> !(forall i: nat | i < |cs| && Spells(cs[i].tag, "VP8L") :: |cs[i].payload| >= 5)
    ensures Selected(cs, Kept(cs))
  {
    hide *;
    FileIff(body, cs);
    OnePictureIff(cs);
    FlagsIff(cs);
    KeptIff(cs, Kept(cs));
  }

  // ----- Options, sides and timeline

  ghost predicate OptionsGood(o: FrameOptions) {
    (o.maxTotalPixels.Some? ==> 1 <= o.maxTotalPixels.value <= 120_000_000) &&
    (o.maxOutputBytes.Some? ==> 1 <= o.maxOutputBytes.value <= 33_554_432) &&
    (o.quality.Some? ==> 1 <= o.quality.value <= 100) &&
    (o.maxEdge.Some? ==> 1 <= o.maxEdge.value <= 2560)
  }

  ghost function PixelLimit(o: FrameOptions): int { if o.maxTotalPixels.Some? then o.maxTotalPixels.value else 100_000_000 }

  ghost function ByteLimit(o: FrameOptions): int { if o.maxOutputBytes.Some? then o.maxOutputBytes.value else 33_554_432 }

  /** A delay of three bytes for every frame of an animation, and a loop count of two. */
  ghost predicate TimelineGood(input: Inspection) {
    input.frameCount > 1 ==>
      |input.frameDelays| == input.frameCount && (forall i: nat | i < |input.frameDelays| :: input.frameDelays[i] < 0x100_0000) &&
      (input.loop.Some? ==> 0 <= input.loop.value < 0x1_0000)
  }

  /** The side itself when nothing is to be scaled down, else the pixel nearest to `side * edge / longest`, and at least one. */
  ghost predicate NearestSide(side: int, longest: int, edge: Option<int>, r: int) {
    if edge.None? || edge.value >= longest then r == side
    else r >= 1 && 2 * side * edge.value <= 2 * longest * r + longest && (r == 1 || 2 * longest * r <= 2 * side * edge.value + longest)
  }

  lemma ScaledIsNearest(side: pos, longest: pos, edge: Option<int>, up: bool)
    requires edge.Some? ==> edge.value >= 1
    ensures NearestSide(side, longest, edge, Scaled(side, longest, edge, up))
  {
    if edge.Some? && edge.value < longest {
      RoundedIsNearest(2 * side * edge.value, longest, up);
    }
  }

  lemma OptionsIff(o: FrameOptions)
    ensures ValidOptions(o) <==> OptionsGood(o)
  {
  }

  lemma LimitsAre(o: FrameOptions)
    requires ValidOptions(o)
    ensures OutputLimit(o) == ByteLimit(o) >= 1
  {
  }

  lemma TimelineIff(input: Inspection)
    ensures ValidTimeline(input) <==> TimelineGood(input)
  {
    var ds := Delays(input);
    assert forall i: nat | i < |ds| :: ds[i] in ds;
    assert (forall d | d in ds :: d <= MAX_UINT24) ==> forall i: nat | i < |ds| :: ds[i] < 0x100_0000;
  }

  // ----- The result

  /** Why a file is refused before it is encoded. */
  lemma RefusedIff(input: Inspection, o: FrameOptions, t: Ties, stills: seq<seq<byte>>)
    requires |stills| == input.frameCount
    ensures Body(input, o, t, stills) == Err(OptionsInvalid) <==> !OptionsGood(o)
    ensures Body(input, o, t, stills) == Err(PixelLimitExceeded) <==> OptionsGood(o) && input.totalFramePixels > PixelLimit(o)
    ensures Body(input, o, t, stills) == Err(TimelineInvalid) <==>
            OptionsGood(o) && input.totalFramePixels <= PixelLimit(o) && !TimelineGood(input)
  {
    hide ValidOptions, OptionsGood, ValidTimeline, TimelineGood, Collect, Container, Scaled;
    OptionsIff(o);
    TimelineIff(input);
    if ValidOptions(o) && input.frameCount > 1 {
      LimitsAre(o);
      CollectErrors(stills, Width(input, o, t), Height(input, o, t), OutputLimit(o), 44);
    }
  }

  lemma {:induction false} CollectErrors(stills: seq<seq<byte>>, width: pos, height: pos, limit: int, bytes: nat)
    requires limit >= 0
    ensures Collect(stills, width, height, limit, bytes).Err? ==>
              Collect(stills, width, height, limit, bytes).error in {FrameInvalid, NumberOutOfRange, OutputLimitExceeded}
  {
    hide StillParts;
    if |stills| > 0 {
      StillIff(stills[0], Parts([], false));
      if StillParts(stills[0]).Ok? { CollectErrors(stills[1..], width, height, limit, bytes + 24 + |StillParts(stills[0]).value.data|); }
    }
  }

  /** The sides of the result are the nearest. */
  lemma SidesAreNearest(input: Inspection, o: FrameOptions, t: Ties)
    requires OptionsGood(o)
    ensures var longest := if input.frameWidth >= input.frameHeight then input.frameWidth else input.frameHeight;
            ValidOptions(o) && NearestSide(input.frameWidth, longest, o.maxEdge, Width(input, o, t)) &&
            NearestSide(input.frameHeight, longest, o.maxEdge, Height(input, o, t))
  {
    hide NearestSide, Scaled;
    OptionsIff(o);
    ScaledIsNearest(input.frameWidth, Longest(input), o.maxEdge, t.width);
    ScaledIsNearest(input.frameHeight, Longest(input), o.maxEdge, t.height);
  }

  /** A single frame is passed on as it is, up to and including the limit. */
  lemma SingleFrame(input: Inspection, o: FrameOptions, t: Ties, stills: seq<seq<byte>>)
    requires |stills| == input.frameCount == 1 && OptionsGood(o) && input.totalFramePixels <= PixelLimit(o)
    ensures Body(input, o, t, stills) == if |stills[0]| <= ByteLimit(o) then Ok(stills[0]) else Err(OutputLimitExceeded)
  {
    hide ValidTimeline, TimelineGood;
    OptionsIff(o);
    TimelineIff(input);
    assert TimelineGood(input) by { OneFrame(input); }
  }

  lemma OneFrame(input: Inspection)
    requires input.frameCount == 1
    ensures TimelineGood(input)
  {
  }

  /**
   An animation is written exactly when every still contributes, both sides fit in three bytes, and the container with
   all frames, up to and including the limit, has room.
   */
  lemma AnimationIff(input: Inspection, o: FrameOptions, t: Ties, stills: seq<seq<byte>>)
    requires |stills| == input.frameCount > 1 && OptionsGood(o) && ValidOptions(o)
    requires input.totalFramePixels <= PixelLimit(o) && TimelineGood(input)
    ensures Body(input, o, t, stills).Ok? <==>
            exists parts: seq<Parts> ::
              |parts| == |stills| && (forall i: nat | i < |stills| :: Contributes(stills[i], parts[i])) &&
              Width(input, o, t) <= 0x100_0000 && Height(input, o, t) <= 0x100_0000 && 44 + FramesSize(parts) <= ByteLimit(o)
  {
    hide ValidOptions, OptionsGood, ValidTimeline, TimelineGood, Collect, Container, Scaled, StillParts, Contributes, FramesSize;
    TimelineIff(input);
    var width, height, limit := Width(input, o, t), Height(input, o, t), OutputLimit(o);
    LimitsAre(o);
    if limit < 44 {
      NoRoom(stills, width, height, limit);
    } else {
      CollectIff(stills, width, height, limit, 44);
      var collected := Collect(stills, width, height, limit, 44);
      if collected.Ok? {
        forall i: nat | i < |stills|
          ensures Contributes(stills[i], collected.value[i])
        {
          StillIff(stills[i], collected.value[i]);
        }
      }
      forall parts: seq<Parts> | |parts| == |stills| && forall i: nat | i < |stills| :: Contributes(stills[i], parts[i])
        ensures (forall s | s in stills :: StillParts(s).Ok?) && StillsSize(stills) == FramesSize(parts)
      {
        AllRead(stills, parts);
      }
    }
  }

  lemma {:induction false} AllRead(stills: seq<seq<byte>>, parts: seq<Parts>)
    requires |parts| == |stills| && forall i: nat | i < |stills| :: Contributes(stills[i], parts[i])
    ensures (forall s | s in stills :: StillParts(s).Ok?) && StillsSize(stills) == FramesSize(parts)
  {
    hide StillParts, Contributes;
    if |stills| > 0 {
      StillIff(stills[0], parts[0]);
      AllRead(stills[1..], parts[1..]);
    }
  }

  /** The transparency flag of the canvas says whether some still has transparent pixels. */
  lemma AlphaIff(input: Inspection, o: FrameOptions, t: Ties, stills: seq<seq<byte>>)
    requires |stills| == input.frameCount > 1 && Body(input, o, t, stills).Ok?
    ensures var r := ReadAnimation(Body(input, o, t, stills).value);
            r.Some? && (r.value.alpha <==> exists s, p :: s in stills && Contributes(s, p) && p.alpha)
  {
    hide Body, StillParts, Contributes, ReadAnimation, StillsSize, IsFrameOf, Width, Height, LoopCount, FromLittleEndian;
    DisplayReads(input, o, t, stills);
    forall s, p
      ensures StillParts(s) == Ok(p) <==> Contributes(s, p)
    {
      StillIff(s, p);
    }
    assert forall s | s in stills && StillParts(s).Ok? :: Contributes(s, StillParts(s).value);
  }

  /** An accepted animation, byte by byte: the header, and for every still, in order, a full frame with its delay and its data. */
  lemma AnimationLayout(input: Inspection, o: FrameOptions, t: Ties, stills: seq<seq<byte>>)
    returns (parts: seq<Parts>, fs: seq<seq<byte>>)
    requires |stills| == input.frameCount > 1 && Body(input, o, t, stills).Ok?
    ensures |parts| == |stills| && forall i: nat | i < |stills| :: Contributes(stills[i], parts[i])
    ensures LoopCount(input) >= 0 &&
            LaidOut(Body(input, o, t, stills).value, Width(input, o, t), Height(input, o, t), LoopCount(input), input.frameDelays, parts, fs)
  {
    hide Collect, Container, Scaled, StillParts, Contributes, FramesSize, LaidOut, StillsSize;
    var width, height, limit := Width(input, o, t), Height(input, o, t), OutputLimit(o);
    LimitsAre(o);
    if limit < 44 { NoRoom(stills, width, height, limit); }
    CollectIff(stills, width, height, limit, 44);
    parts := Collect(stills, width, height, limit, 44).value;
    forall i: nat | i < |stills|
      ensures Contributes(stills[i], parts[i]) && |parts[i].data| % 2 == 0
    {
      StillIff(stills[i], parts[i]);
      EvenData(stills[i]);
    }
    assert forall i: nat | i < |input.frameDelays| :: input.frameDelays[i] in Delays(input);
    fs := ContainerLayout(width, height, LoopCount(input), input.frameDelays, parts);
  }
}
