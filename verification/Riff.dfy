/** Little-endian numbers and RIFF chunks (section 2.3 of RFC 9649): the byte form, a parser, and their inverse laws. */
module Riff {
  import opened Options
  import opened Sequences

  type byte = x: int | 0 <= x < 256

  const MAX_UINT16 := 0xffff
  const MAX_UINT24 := 0xff_ffff
  const MAX_UINT32 := 0xffff_ffff

  function LittleEndian(n: nat, width: nat): (s: seq<byte>)
    ensures |s| == width
  {
    if width == 0 then [] else [n % 256] + LittleEndian(n / 256, width - 1)
  }

  function FromLittleEndian(s: seq<byte>): nat {
    if s == [] then 0 else s[0] + 256 * FromLittleEndian(s[1..])
  }

  predicate Fits(n: nat, width: nat) {
    if width == 0 then n == 0 else Fits(n / 256, width - 1)
  }

  lemma FitsByte(n: nat)
    ensures Fits(n, 1) <==> n <= 0xff
  {
  }

  lemma FitsExactly(n: nat)
    ensures Fits(n, 2) <==> n <= MAX_UINT16
    ensures Fits(n, 3) <==> n <= MAX_UINT24
    ensures Fits(n, 4) <==> n <= MAX_UINT32
  {
    FitsByte(n / 0x100);
    FitsByte(n / 0x100 / 0x100);
    FitsByte(n / 0x100 / 0x100 / 0x100);
    assert Fits(n, 3) <==> Fits(n / 0x100 / 0x100, 1);
    assert Fits(n, 4) <==> Fits(n / 0x100, 3);
    assert Fits(n / 0x100, 3) <==> Fits(n / 0x100 / 0x100, 2);
  }

  lemma {:induction false} ReadWritten(n: nat, width: nat)
    requires Fits(n, width)
    ensures FromLittleEndian(LittleEndian(n, width)) == n
  {
    if width > 0 {
      ReadWritten(n / 256, width - 1);
      assert LittleEndian(n, width)[1..] == LittleEndian(n / 256, width - 1);
    }
  }

  lemma {:induction false} WrittenRead(s: seq<byte>)
    ensures Fits(FromLittleEndian(s), |s|) && LittleEndian(FromLittleEndian(s), |s|) == s
  {
    if s != [] {
      WrittenRead(s[1..]);
      var rest := FromLittleEndian(s[1..]);
      assert (s[0] + 256 * rest) % 256 == s[0] && (s[0] + 256 * rest) / 256 == rest;
      assert s == [s[0]] + s[1..];
    }
  }

  // ----- Chunks

  datatype Chunk = Chunk(tag: seq<byte>, payload: seq<byte>, padding: seq<byte>)

  predicate IsChunk(c: Chunk) {
    |c.tag| == 4 && |c.payload| <= MAX_UINT32 && |c.padding| == |c.payload| % 2
  }

  predicate AreChunks(cs: seq<Chunk>) {
    forall c | c in cs :: IsChunk(c)
  }

  function ChunkBytes(c: Chunk): seq<byte> {
    c.tag + LittleEndian(|c.payload|, 4) + c.payload + c.padding
  }

  function Encode(cs: seq<Chunk>): seq<byte> {
    if cs == [] then [] else ChunkBytes(cs[0]) + Encode(cs[1..])
  }

  /** The length of the chunk `s` starts with, when it lies within `s`. */
  function ChunkLength(s: seq<byte>): (r: Option<nat>)
    ensures r.Some? ==> 8 <= r.value <= |s|
  {
    if |s| < 8 then None
    else
      var n := FromLittleEndian(s[4..8]);
      if 8 + n + n % 2 > |s| then None else Some(8 + n + n % 2)
  }

  function FirstChunk(s: seq<byte>): (c: Chunk)
    requires ChunkLength(s).Some?
  {
    var n := FromLittleEndian(s[4..8]);
    Chunk(s[..4], s[8..8 + n], s[8 + n..8 + n + n % 2])
  }

  function Decode(s: seq<byte>): Option<seq<Chunk>> {
    if s == [] then Some([])
    else
      match ChunkLength(s)
      case None => None
      case Some(n) => Prepend(FirstChunk(s), Decode(s[n..]))
  }

  lemma FirstChunkBytes(s: seq<byte>)
    requires ChunkLength(s).Some?
    ensures IsChunk(FirstChunk(s)) && ChunkBytes(FirstChunk(s)) == s[..ChunkLength(s).value]
  {
    hide FromLittleEndian, LittleEndian, Fits;
    var n := FromLittleEndian(s[4..8]);
    WrittenRead(s[4..8]);
    FitsExactly(n);
    assert s[..8 + n + n % 2] == s[..4] + s[4..8] + s[8..8 + n] + s[8 + n..8 + n + n % 2];
  }

  lemma FirstOfEncoded(c: Chunk, rest: seq<byte>)
    requires IsChunk(c)
    ensures ChunkLength(ChunkBytes(c) + rest) == Some(|ChunkBytes(c)|)
    ensures FirstChunk(ChunkBytes(c) + rest) == c
  {
    hide FromLittleEndian, LittleEndian, Fits;
    var s := ChunkBytes(c) + rest;
    var n := |c.payload|;
    FitsExactly(n);
    ReadWritten(n, 4);
    assert s[4..8] == LittleEndian(n, 4);
    assert s[..4] == c.tag && s[8..8 + n] == c.payload && s[8 + n..8 + n + n % 2] == c.padding;
  }

  lemma {:induction false} DecodeEncode(cs: seq<Chunk>)
    requires AreChunks(cs)
    ensures Decode(Encode(cs)) == Some(cs)
  {
    hide ChunkLength, FirstChunk, ChunkBytes, IsChunk;
    if cs != [] {
      var s := Encode(cs);
      FirstOfEncoded(cs[0], Encode(cs[1..]));
      DecodeEncode(cs[1..]);
      assert s[|ChunkBytes(cs[0])|..] == Encode(cs[1..]);
      assert [cs[0]] + cs[1..] == cs;
      assert s != [] by { NotEmpty(cs[0]); }
    }
  }

  lemma NotEmpty(c: Chunk)
    requires IsChunk(c)
    ensures |ChunkBytes(c)| == 8 + |c.payload| + |c.payload| % 2
  {
  }

  lemma {:induction false} EncodeDecode(s: seq<byte>)
    requires Decode(s).Some?
    ensures AreChunks(Decode(s).value) && Encode(Decode(s).value) == s
    decreases |s|
  {
    hide ChunkLength, FirstChunk, ChunkBytes, IsChunk;
    if s != [] {
      var n := ChunkLength(s).value;
      FirstChunkBytes(s);
      EncodeDecode(s[n..]);
      assert Decode(s).value[1..] == Decode(s[n..]).value;
    }
  }

  lemma {:induction false} EncodeAppend(a: seq<Chunk>, b: seq<Chunk>)
    ensures Encode(a + b) == Encode(a) + Encode(b)
  {
    hide ChunkBytes;
    if a == [] {
      JoinEmpty(b);
    } else {
      EncodeAppend(a[1..], b);
      JoinHead(a, b);
      Associate(ChunkBytes(a[0]), Encode(a[1..]), Encode(b));
    }
  }

  /** Padding makes every chunk, and so every sequence of chunks, even in length. */
  lemma {:induction false} EncodedIsEven(cs: seq<Chunk>)
    requires AreChunks(cs)
    ensures |Encode(cs)| % 2 == 0
  {
    hide ChunkBytes, IsChunk;
    if cs != [] {
      NotEmpty(cs[0]);
      var n := |cs[0].payload|;
      assert (8 + n + n % 2) % 2 == 0;
      EncodedIsEven(cs[1..]);
    }
  }

  // ----- Writing into buffers

  method WriteUIntLE(a: array<byte>, value: nat, offset: nat, width: nat)
    requires Fits(value, width) && offset + width <= a.Length
    modifies a
    ensures a[..] == old(a[..offset]) + LittleEndian(value, width) + old(a[offset + width..])
  {
    hide LittleEndian, Fits;
    ghost var was := a[..];
    var rest, i := value, 0;
    assert LittleEndian(rest, 0) == [] by { NoBytes(rest); }
    while i < width
      invariant 0 <= i <= width
      invariant LittleEndian(value, width) == a[offset..offset + i] + LittleEndian(rest, width - i)
      invariant a[..offset] == was[..offset] && a[offset + i..] == was[offset + i..]
    {
      OneByte(rest, width - i);
      ghost var before := a[offset..offset + i];
      a[offset + i] := rest % 256;
      assert a[offset..offset + i] == before;
      assert a[offset..offset + i + 1] == before + [rest % 256];
      assert before + ([rest % 256] + LittleEndian(rest / 256, width - i - 1))
          == (before + [rest % 256]) + LittleEndian(rest / 256, width - i - 1);
      rest := rest / 256;
      i := i + 1;
    }
    NoBytes(rest);
    assert a[..] == a[..offset] + a[offset..offset + width] + a[offset + width..];
  }

  lemma NoBytes(n: nat)
    ensures LittleEndian(n, 0) == []
  {
  }

  lemma OneByte(n: nat, width: nat)
    requires width > 0
    ensures LittleEndian(n, width) == [n % 256] + LittleEndian(n / 256, width - 1)
  {
  }

  function Zeros(n: nat): (s: seq<byte>)
    ensures |s| == n && forall i | 0 <= i < n :: s[i] == 0
  {
    seq(n, _ => 0)
  }

  /** A chunk as the writer lays it out: tag, length, payload, and a zero byte after an odd payload. */
  function Written(tag: seq<byte>, payload: seq<byte>): Chunk {
    Chunk(tag, payload, Zeros(|payload| % 2))
  }

  method MakeChunk(tag: seq<byte>, payload: seq<byte>) returns (result: array<byte>)
    requires |tag| == 4 && |payload| <= MAX_UINT32
    ensures fresh(result) && result[..] == ChunkBytes(Written(tag, payload))
  {
    hide LittleEndian, Fits;
    var n := |payload|;
    result := new byte[8 + n + n % 2](_ => 0);
    FitsExactly(n);
    forall i | 0 <= i < 4 {
      result[i] := tag[i];
    }
    ghost var head, tail := result[..4], result[8..];
    assert head == tag && tail == Zeros(n + n % 2);
    WriteUIntLE(result, n, 4, 4);
    ghost var framed := result[..];
    assert framed == head + LittleEndian(n, 4) + tail;
    assert framed[..8] == head + LittleEndian(n, 4) && framed[8..] == tail;
    assert forall i | 8 <= i < |framed| :: framed[i] == framed[8..][i - 8] == 0;
    forall i | 0 <= i < n {
      result[8 + i] := payload[i];
    }
    assert result[..8] == framed[..8] == tag + LittleEndian(n, 4);
    assert result[8..8 + n] == payload;
    assert result[8 + n..] == Zeros(n % 2);
    assert result[..] == result[..8] + result[8..8 + n] + result[8 + n..];
  }
}
