/** The image data of a still WebP file (sections 2.3 to 2.7 of RFC 9649), as the animation writer extracts it. */
module WebpStill {
  import opened Options
  import opened Sequences
  import opened Riff

  const RIFF: seq<byte> := [82, 73, 70, 70]
  const WEBP: seq<byte> := [87, 69, 66, 80]
  const ALPH: seq<byte> := [65, 76, 80, 72]
  const VP8: seq<byte> := [86, 80, 56, 32]
  const VP8L: seq<byte> := [86, 80, 56, 76]

  datatype Error =
    | OptionsInvalid
    | PixelLimitExceeded
    | TimelineInvalid
    | FrameInvalid
    | NumberOutOfRange
    | OutputLimitExceeded
    | OutputValidationFailed

  /** Decoding bytes as ASCII drops the highest bit of each. */
  function Ascii(s: seq<byte>): (r: seq<byte>)
    ensures |r| == |s|
  {
    seq(|s|, i requires 0 <= i < |s| => s[i] % 128)
  }

  function Tag(c: Chunk): seq<byte> { Ascii(c.tag) }

  predicate IsImage(c: Chunk) { Tag(c) == VP8 || Tag(c) == VP8L }

  predicate IsKept(c: Chunk) { Tag(c) == ALPH || IsImage(c) }

  /** Whether a chunk says that pixels may be transparent: the fifth byte of lossless data carries the flag. */
  predicate HasAlpha(c: Chunk) {
    Tag(c) == ALPH || (Tag(c) == VP8L && |c.payload| >= 5 && c.payload[4] / 16 % 2 == 1)
  }

  predicate TooShort(c: Chunk) { Tag(c) == VP8L && |c.payload| < 5 }

  predicate AnyAlpha(cs: seq<Chunk>) { exists c | c in cs :: HasAlpha(c) }

  predicate AnyTooShort(cs: seq<Chunk>) { exists c | c in cs :: TooShort(c) }

  function Kept(cs: seq<Chunk>): (r: seq<Chunk>)
    ensures forall c | c in r :: c in cs && IsKept(c)
  {
    if cs == [] then [] else (if IsKept(cs[0]) then [cs[0]] else []) + Kept(cs[1..])
  }

  function ImageCount(cs: seq<Chunk>): nat {
    if cs == [] then 0 else (if IsImage(cs[0]) then 1 else 0) + ImageCount(cs[1..])
  }

  predicate IsWebp(body: seq<byte>) {
    |body| >= 12 && Ascii(body[..4]) == RIFF && Ascii(body[8..12]) == WEBP && FromLittleEndian(body[4..8]) + 8 == |body|
  }

  datatype Parts = Parts(data: seq<byte>, alpha: bool)

  /** What a still file contributes to a frame, from the chunks it parses to. */
  function StillParts(body: seq<byte>): Result<Parts, Error> {
    if !IsWebp(body) then Err(FrameInvalid)
    else
      match Decode(body[12..])
      case None => Err(FrameInvalid)
      case Some(cs) =>
        if AnyTooShort(cs) || ImageCount(cs) != 1 then Err(FrameInvalid)
        else Ok(Parts(Encode(Kept(cs)), AnyAlpha(cs)))
  }

  lemma {:induction false} KeptImages(cs: seq<Chunk>)
    ensures ImageCount(Kept(cs)) == ImageCount(cs)
  {
    hide IsImage, Tag, Ascii;
    if cs != [] {
      KeptImages(cs[1..]);
      var kept := Kept(cs);
      if IsKept(cs[0]) {
        assert kept[1..] == Kept(cs[1..]);
      } else {
        assert kept == Kept(cs[1..]);
      }
    }
  }

  /**
   The extracted data is again a sequence of chunks: those of the file that carry the image, in order, exactly one
   of them the image itself. Its length is even, whatever the file.
   */
  lemma ExtractedDataParses(body: seq<byte>)
    requires StillParts(body).Ok?
    ensures var data := StillParts(body).value.data;
            Decode(body[12..]).Some? && Decode(data) == Some(Kept(Decode(body[12..]).value)) &&
            ImageCount(Decode(data).value) == 1 && |data| % 2 == 0 && |data| + 12 <= |body|
  {
    hide ImageCount, Kept, AnyTooShort, AnyAlpha, IsWebp, IsKept;
    assert |body| >= 12 by { WebpLength(body); }
    var cs := Decode(body[12..]).value;
    EncodeDecode(body[12..]);
    KeptAreChunks(cs);
    DecodeEncode(Kept(cs));
    EncodedIsEven(Kept(cs));
    KeptImages(cs);
    KeptIsShorter(cs);
  }

  lemma WebpLength(body: seq<byte>)
    requires IsWebp(body)
    ensures |body| >= 12
  {
  }

  lemma KeptAreChunks(cs: seq<Chunk>)
    requires AreChunks(cs)
    ensures AreChunks(Kept(cs))
  {
  }

  lemma {:induction false} KeptIsShorter(cs: seq<Chunk>)
    ensures |Encode(Kept(cs))| <= |Encode(cs)|
  {
    hide IsKept, ChunkBytes;
    if cs != [] {
      KeptIsShorter(cs[1..]);
      if IsKept(cs[0]) {
        assert Kept(cs)[1..] == Kept(cs[1..]);
      } else {
        assert Kept(cs) == Kept(cs[1..]);
      }
    }
  }

  // ----- The scanner

  lemma ChunkStep(done: seq<Chunk>, s: seq<byte>)
    requires s != []
    ensures ChunkLength(s).None? ==> After(done, Decode(s)).None?
    ensures ChunkLength(s).None? <==>
              |s| < 8 || (var n := FromLittleEndian(s[4..8]); 8 + n + n % 2 > |s|)
    ensures ChunkLength(s).Some? ==>
              After(done, Decode(s)) == After(done + [FirstChunk(s)], Decode(s[ChunkLength(s).value..]))
  {
    hide FirstChunk, FromLittleEndian;
    if ChunkLength(s).Some? && Decode(s[ChunkLength(s).value..]).Some? {
      var rest := Decode(s[ChunkLength(s).value..]).value;
      assert done + ([FirstChunk(s)] + rest) == (done + [FirstChunk(s)]) + rest;
    }
  }

  lemma ScanBegins(s: seq<byte>)
    ensures After([], Decode(s)) == Decode(s) && Kept([]) == [] && Encode([]) == [] && ImageCount([]) == 0
  {
    hide Decode;
    if Decode(s).Some? { assert [] + Decode(s).value == Decode(s).value; }
  }

  lemma ScanEnds(done: seq<Chunk>, s: seq<byte>)
    requires s == []
    ensures After(done, Decode(s)) == Some(done)
  {
    assert done + [] == done;
  }

  lemma {:induction false} KeptStep(done: seq<Chunk>, c: Chunk)
    ensures Kept(done + [c]) == Kept(done) + if IsKept(c) then [c] else []
    ensures ImageCount(done + [c]) == ImageCount(done) + if IsImage(c) then 1 else 0
  {
    hide IsKept, IsImage;
    if done == [] {
      JoinEmpty([c]);
      assert [c][1..] == [];
    } else {
      KeptStep(done[1..], c);
      JoinHead(done, [c]);
      Associate(if IsKept(done[0]) then [done[0]] else [], Kept(done[1..]), if IsKept(c) then [c] else []);
    }
  }

  lemma DataStep(done: seq<Chunk>, c: Chunk)
    ensures Encode(Kept(done + [c])) == Encode(Kept(done)) + if IsKept(c) then ChunkBytes(c) else []
    ensures ImageCount(done + [c]) == ImageCount(done) + if IsImage(c) then 1 else 0
  {
    hide IsKept, IsImage, ChunkBytes, Kept, ImageCount;
    KeptStep(done, c);
    if IsKept(c) {
      EncodeAppend(Kept(done), [c]);
      assert Encode([c]) == ChunkBytes(c) + [] == ChunkBytes(c);
    } else {
      assert Kept(done) + [] == Kept(done) && Encode(Kept(done)) + [] == Encode(Kept(done));
    }
  }

  lemma TooShortFails(done: seq<Chunk>, c: Chunk, rest: Option<seq<Chunk>>)
    requires TooShort(c)
    ensures var all := After(done + [c], rest); all.Some? ==> AnyTooShort(all.value)
  {
    if rest.Some? {
      var all := (done + [c]) + rest.value;
      assert all[|done|] == c && c in all;
    }
  }

  /** The pieces collected so far, joined. */
  function Concat(parts: seq<seq<byte>>): seq<byte> {
    if parts == [] then [] else Concat(parts[..|parts| - 1]) + parts[|parts| - 1]
  }

  lemma ConcatStep(parts: seq<seq<byte>>, part: seq<byte>)
    ensures Concat(parts + [part]) == Concat(parts) + part
  {
    assert (parts + [part])[..|parts|] == parts;
  }

  lemma TagFacts(done: seq<Chunk>, c: Chunk)
    ensures IsKept(c) <==> Tag(c) == ALPH || Tag(c) == VP8 || Tag(c) == VP8L
    ensures IsImage(c) <==> IsKept(c) && Tag(c) != ALPH
    ensures TooShort(c) <==> Tag(c) == VP8L && |c.payload| < 5
    ensures AnyAlpha(done + [c]) <==>
              AnyAlpha(done) || Tag(c) == ALPH || (Tag(c) == VP8L && |c.payload| >= 5 && c.payload[4] / 16 % 2 == 1)
    ensures AnyTooShort(done + [c]) <==> AnyTooShort(done) || TooShort(c)
    ensures Tag(c) == Ascii(c.tag)
  {
    hide Ascii;
    assert forall d | d in done + [c] :: d in done || d == c;
    assert c in done + [c] && forall d | d in done :: d in done + [c];
  }

  /** The checks of the source against the specification, one by one. */
  lemma Unfold(body: seq<byte>)
    ensures IsWebp(body) <==>
              |body| >= 12 && Ascii(body[..4]) == RIFF && Ascii(body[8..12]) == WEBP &&
              FromLittleEndian(body[4..8]) + 8 == |body|
    ensures !IsWebp(body) ==> StillParts(body) == Err(FrameInvalid)
    ensures IsWebp(body) ==>
              StillParts(body) ==
              match Decode(body[12..])
              case None => Err(FrameInvalid)
              case Some(cs) =>
                if AnyTooShort(cs) || ImageCount(cs) != 1 then Err(FrameInvalid)
                else Ok(Parts(Encode(Kept(cs)), AnyAlpha(cs)))
  {
    hide Decode, Ascii, FromLittleEndian, AnyTooShort, ImageCount, Kept, AnyAlpha;
  }

  method StillFrameChunks(body: seq<byte>) returns (r: Result<Parts, Error>)
    ensures r == StillParts(body)
  {
    hide *;
    Unfold(body);
    if |body| < 12 || Ascii(body[..4]) != RIFF || Ascii(body[8..12]) != WEBP ||
       FromLittleEndian(body[4..8]) + 8 != |body| {
      return Err(FrameInvalid);
    }
    var chunks: seq<seq<byte>> := [];
    var imageCount, alpha := 0, false;
    ghost var done: seq<Chunk> := [];
    var offset := 12;
    ScanBegins(body[12..]);
    NoParts();
    while offset < |body|
      invariant 12 <= offset <= |body|
      invariant Decode(body[12..]) == After(done, Decode(body[offset..]))
      invariant Concat(chunks) == Encode(Kept(done)) && imageCount == ImageCount(done)
      invariant alpha == AnyAlpha(done) && !AnyTooShort(done)
    {
      ghost var rest := body[offset..];
      ChunkStep(done, rest);
      if offset + 8 > |body| {
        return Err(FrameInvalid);
      }
      assert rest[4..8] == body[offset + 4..offset + 8];
      var length := FromLittleEndian(body[offset + 4..offset + 8]);
      var end := offset + 8 + length + length % 2;
      if end > |body| {
        return Err(FrameInvalid);
      }
      ghost var c := FirstChunk(rest);
      ChunkAt(body, offset);
      var tag := Ascii(body[offset..offset + 4]);
      if tag == ALPH {
        alpha := true;
      }
      if tag == VP8L {
        if length < 5 {
          TagFacts(done, c);
          TooShortFails(done, c, Decode(rest[ChunkLength(rest).value..]));
          return Err(FrameInvalid);
        }
        alpha := alpha || body[offset + 12] / 16 % 2 == 1;
      }
      DataStep(done, c);
      TagFacts(done, c);
      if tag == ALPH || tag == VP8 || tag == VP8L {
        ConcatStep(chunks, body[offset..end]);
        chunks := chunks + [body[offset..end]];
        if tag != ALPH {
          imageCount := imageCount + 1;
        }
      }
      done := done + [c];
      offset := end;
    }
    ScanEnds(done, body[offset..]);
    if imageCount != 1 {
      return Err(FrameInvalid);
    }
    return Ok(Parts(Concat(chunks), alpha));
  }

  lemma NoParts()
    ensures Concat([]) == [] && !AnyAlpha([]) && !AnyTooShort([])
  {
  }

  /** The chunk at an offset, in terms of the file. */
  lemma ChunkAt(body: seq<byte>, offset: nat)
    requires offset + 8 <= |body|
    requires var length := FromLittleEndian(body[offset + 4..offset + 8]); offset + 8 + length + length % 2 <= |body|
    ensures var length := FromLittleEndian(body[offset + 4..offset + 8]);
            var end := offset + 8 + length + length % 2;
            ChunkLength(body[offset..]) == Some(end - offset) && body[offset..][end - offset..] == body[end..] &&
            var c := FirstChunk(body[offset..]);
            c.tag == body[offset..offset + 4] && |c.payload| == length && ChunkBytes(c) == body[offset..end] &&
            (length >= 5 ==> c.payload[4] == body[offset + 12])
  {
    hide FromLittleEndian, ChunkBytes;
    var rest := body[offset..];
    assert rest[4..8] == body[offset + 4..offset + 8];
    FirstChunkBytes(rest);
  }
}
