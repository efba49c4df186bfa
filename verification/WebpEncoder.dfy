/** The display encoder around the container: options, timeline, the frame loop with its running size, and the result. */
module WebpEncoder {
  import opened Options
  import opened Riff
  import opened WebpStill
  import opened WebpAnimation

  type pos = n: int | n > 0 witness 1

  datatype Inspection = Inspection(
    format: string, frameWidth: pos, frameHeight: pos, frameCount: pos, totalFramePixels: nat, durationMs: nat,
    frameDelays: seq<nat>, loop: Option<int>)

  datatype FrameOptions = FrameOptions(
    maxEdge: Option<int>, quality: Option<int>, maxOutputBytes: Option<int>, maxTotalPixels: Option<int>)

  datatype Encoded = Encoded(
    body: seq<byte>, width: pos, height: pos, frameCount: pos, durationMs: nat, loopCount: int)

  function OrElse(o: Option<int>, n: int): int {
    match o
    case Some(m) => m
    case None => n
  }

  predicate ValidOptions(o: FrameOptions) {
    1 <= OrElse(o.maxTotalPixels, DISPLAY_MAX_TOTAL_PIXELS) <= 120_000_000 &&
    1 <= OrElse(o.maxOutputBytes, DISPLAY_MAX_OUTPUT_BYTES) <= DISPLAY_MAX_OUTPUT_BYTES &&
    1 <= OrElse(o.quality, 80) <= 100 &&
    1 <= OrElse(o.maxEdge, 1) <= 2560
  }

  /**
   The scale is a double, so a side that lies exactly between two pixels may be rounded either way; any other side is
   farther from the middle than the rounding error reaches. `up` says which way it falls.
   */
  datatype Ties = Ties(width: bool, height: bool)

  /** Half of `twice` over `longest`, to the nearest integer. */
  function Rounded(twice: nat, longest: pos, up: bool): nat {
    if up then (twice + longest) / (2 * longest) else (twice + longest - 1) / (2 * longest)
  }

  /** A side scaled down so that the longest side fits the edge, rounded to the nearest pixel, and at least one. */
  function Scaled(side: pos, longest: pos, edge: Option<int>, up: bool): pos
    requires edge.Some? ==> edge.value >= 1
  {
    if edge.None? || edge.value >= longest then side
    else
      var rounded := Rounded(2 * side * edge.value, longest, up);
      if rounded < 1 then 1 else rounded
  }

  /** Nearest, with ties up or down as said. */
  lemma RoundedIsNearest(twice: nat, longest: pos, up: bool)
    ensures var r := Rounded(twice, longest, up);
            2 * longest * r <= twice + longest && twice <= 2 * longest * r + longest &&
            (up ==> twice < 2 * longest * r + longest) && (!up ==> 2 * longest * r < twice + longest)
  {
    var n, whole := if up then twice + longest else twice + longest - 1, 2 * longest;
    assert n == whole * (n / whole) + n % whole;
  }

  /** The only result that close. */
  lemma RoundedIsUnique(twice: nat, longest: pos, up: bool, r: nat)
    requires 2 * longest * r < twice + longest && twice < 2 * longest * r + longest
    ensures Rounded(twice, longest, up) == r
  {
    RoundedIsNearest(twice, longest, up);
    var q := Rounded(twice, longest, up);
    if q < r { LessByOne(2 * longest, q, r); }
    if r < q { LessByOne(2 * longest, r, q); }
  }

  lemma {:induction false} LessByOne(whole: nat, a: nat, b: nat)
    requires a < b
    ensures whole * a + whole <= whole * b
  {
    if a + 1 < b { LessByOne(whole, a, b - 1); }
  }

  /** The longest side becomes the edge, and no side becomes longer than it. */
  lemma ScaledFits(side: pos, longest: pos, edge: int, up: bool)
    requires 1 <= edge < longest && side <= longest
    ensures Scaled(side, longest, Some(edge), up) <= edge
    ensures side == longest ==> Scaled(side, longest, Some(edge), up) == edge
  {
    var twice := 2 * side * edge;
    if side == longest {
      assert twice == 2 * longest * edge;
      RoundedIsUnique(twice, longest, up, edge);
    } else {
      RoundedIsNearest(twice, longest, up);
      var r := Rounded(twice, longest, up);
      assert twice <= 2 * longest * edge by { Times(2 * edge, side, longest); }
      if r > edge { LessByOne(2 * longest, edge, r); }
    }
  }

  lemma Times(k: nat, a: nat, b: nat)
    requires a <= b
    ensures k * a <= k * b
  {
    if a < b { LessByOne(k, a, b); }
  }

  function Longest(input: Inspection): pos {
    if input.frameWidth > input.frameHeight then input.frameWidth else input.frameHeight
  }

  function Width(input: Inspection, o: FrameOptions, t: Ties): pos
    requires ValidOptions(o)
  {
    Scaled(input.frameWidth, Longest(input), o.maxEdge, t.width)
  }

  function Height(input: Inspection, o: FrameOptions, t: Ties): pos
    requires ValidOptions(o)
  {
    Scaled(input.frameHeight, Longest(input), o.maxEdge, t.height)
  }

  function Delays(input: Inspection): seq<nat> {
    if input.frameCount > 1 then input.frameDelays else [0]
  }

  function LoopCount(input: Inspection): int {
    if input.frameCount > 1 then OrElse(input.loop, 1) else 1
  }

  predicate ValidTimeline(input: Inspection) {
    |Delays(input)| == input.frameCount && (forall d | d in Delays(input) :: d <= MAX_UINT24) &&
    0 <= LoopCount(input) <= MAX_UINT16
  }

  /** The parts of all stills, or the first failure; `bytes` is the size of the container so far. */
  function Collect(stills: seq<seq<byte>>, width: pos, height: pos, limit: nat, bytes: nat): (r: Result<seq<Parts>, Error>)
    ensures r.Ok? ==> |r.value| == |stills|
  {
    if stills == [] then Ok([])
    else
      match StillParts(stills[0])
      case Err(e) => Err(e)
      case Ok(p) =>
        if width - 1 > MAX_UINT24 || height - 1 > MAX_UINT24 then Err(NumberOutOfRange)
        else if bytes + 24 + |p.data| > limit then Err(OutputLimitExceeded)
        else After([p], Collect(stills[1..], width, height, limit, bytes + 24 + |p.data|))
  }

  function After(parts: seq<Parts>, rest: Result<seq<Parts>, Error>): Result<seq<Parts>, Error> {
    match rest
    case Err(e) => Err(e)
    case Ok(ps) => Ok(parts + ps)
  }

  function OutputLimit(o: FrameOptions): int { OrElse(o.maxOutputBytes, DISPLAY_MAX_OUTPUT_BYTES) }

  /** The file before the final check of what a decoder sees in it. */
  function Body(input: Inspection, o: FrameOptions, t: Ties, stills: seq<seq<byte>>): Result<seq<byte>, Error>
    requires |stills| == input.frameCount
  {
    if !ValidOptions(o) then Err(OptionsInvalid)
    else if input.totalFramePixels > OrElse(o.maxTotalPixels, DISPLAY_MAX_TOTAL_PIXELS) then Err(PixelLimitExceeded)
    else if !ValidTimeline(input) then Err(TimelineInvalid)
    else if input.frameCount == 1 then
      if |stills[0]| > OutputLimit(o) then Err(OutputLimitExceeded) else Ok(stills[0])
    else
      match Collect(stills, Width(input, o, t), Height(input, o, t), OutputLimit(o), 44)
      case Err(e) => Err(e)
      case Ok(parts) => Ok(Container(Width(input, o, t), Height(input, o, t), LoopCount(input), Delays(input), parts))
  }

  /** Whether a decoder reports the canvas, frames and timing that were asked for. */
  predicate Matches(input: Inspection, o: FrameOptions, t: Ties, output: Inspection)
    requires ValidOptions(o)
  {
    output.format == "webp" && output.frameWidth == Width(input, o, t) && output.frameHeight == Height(input, o, t) &&
    output.frameCount == input.frameCount &&
    (input.frameCount > 1 ==>
       output.frameDelays == input.frameDelays && OrElse(output.loop, 1) == LoopCount(input))
  }

  /** What a decoder has to report: the canvas, every frame, and for an animation its timing. Without a loop count it is one. */
  ghost predicate Reports(output: Inspection, width: int, height: int, input: Inspection, loop: int) {
    output.format == "webp" && output.frameWidth == width && output.frameHeight == height && output.frameCount == input.frameCount &&
    (input.frameCount > 1 ==>
       output.frameDelays == input.frameDelays && (output.loop == Some(loop) || (output.loop == None && loop == 1)))
  }

  // ----- What the loop collects

  /** With every still readable and the canvas in range, exactly the size of the whole container decides. */
  lemma {:induction false} CollectIff(stills: seq<seq<byte>>, width: pos, height: pos, limit: nat, bytes: nat)
    requires bytes <= limit
    ensures Collect(stills, width, height, limit, bytes).Ok? <==>
              (forall s | s in stills :: StillParts(s).Ok?) &&
              (stills != [] ==> width - 1 <= MAX_UINT24 && height - 1 <= MAX_UINT24) &&
              bytes + StillsSize(stills) <= limit
    ensures Collect(stills, width, height, limit, bytes).Ok? ==>
              var parts := Collect(stills, width, height, limit, bytes).value;
              (forall i | 0 <= i < |stills| :: StillParts(stills[i]) == Ok(parts[i])) &&
              FramesSize(parts) == StillsSize(stills)
  {
    hide StillParts;
    if stills != [] && StillParts(stills[0]).Ok? {
      var p := StillParts(stills[0]).value;
      var more := bytes + 24 + |p.data|;
      if more <= limit {
        CollectIff(stills[1..], width, height, limit, more);
        assert forall s | s in stills :: s == stills[0] || s in stills[1..];
        if Collect(stills, width, height, limit, bytes).Ok? {
          assert Collect(stills, width, height, limit, bytes).value[1..] == Collect(stills[1..], width, height, limit, more).value;
        }
      }
    }
  }

  /** The room the stills take in the container. */
  function StillsSize(stills: seq<seq<byte>>): nat {
    if stills == [] then 0
    else (match StillParts(stills[0]) case Ok(p) => 24 + |p.data| case Err(_) => 0) + StillsSize(stills[1..])
  }

  /** What an animated display file holds, in terms of the stills it was made from. */
  ghost predicate HoldsFrames(body: seq<byte>, width: pos, height: pos, loop: int, delays: seq<nat>, stills: seq<seq<byte>>) {
    var r := ReadAnimation(body);
    r.Some? && r.value.width == width && r.value.height == height && r.value.loop == loop &&
    |r.value.frames| == |stills| == |delays| &&
    (forall i | 0 <= i < |stills| :: IsFrameOf(r.value.frames[i], width, height, delays[i], stills[i])) &&
    (r.value.alpha <==> exists s | s in stills :: StillParts(s).Ok? && StillParts(s).value.alpha)
  }

  /** A frame that covers the canvas and replaces it, with the image chunks of one still file. */
  ghost predicate IsFrameOf(f: Frame, width: pos, height: pos, delay: nat, still: seq<byte>) {
    f == Frame(0, 0, width, height, delay, false, false, f.data) && StillParts(still).Ok? &&
    Decode(still[12..]).Some? && Decode(f.data) == Some(Kept(Decode(still[12..]).value)) && ImageCount(Decode(f.data).value) == 1
  }

  lemma PartsAlpha(stills: seq<seq<byte>>, parts: seq<Parts>)
    requires |stills| == |parts| && forall i | 0 <= i < |stills| :: StillParts(stills[i]) == Ok(parts[i])
    ensures AnyPartAlpha(parts) <==> exists s | s in stills :: StillParts(s).Ok? && StillParts(s).value.alpha
  {
    hide StillParts;
    if AnyPartAlpha(parts) {
      var i :| 0 <= i < |parts| && parts[i].alpha;
      assert stills[i] in stills && StillParts(stills[i]).value.alpha;
    }
    if s :| s in stills && StillParts(s).Ok? && StillParts(s).value.alpha {
      var i :| 0 <= i < |stills| && stills[i] == s;
      assert parts[i] in parts && parts[i].alpha;
    }
  }

  /**
   An accepted animated file never exceeds the output limit, its RIFF size is exact, and reading it back gives the
   canvas, the loop count, and one full frame for every still, in order, with its delay and its image data.
   */
  lemma DisplayReads(input: Inspection, o: FrameOptions, t: Ties, stills: seq<seq<byte>>)
    requires |stills| == input.frameCount > 1 && Body(input, o, t, stills).Ok?
    ensures var body := Body(input, o, t, stills).value;
            |body| <= OutputLimit(o) <= DISPLAY_MAX_OUTPUT_BYTES && |body| == 44 + StillsSize(stills) &&
            FromLittleEndian(body[4..8]) + 8 == |body| &&
            HoldsFrames(body, Width(input, o, t), Height(input, o, t), LoopCount(input), input.frameDelays, stills)
  {
    hide Collect, StillParts, StillsSize, Container, ReadAnimation, Decode, Kept, ImageCount, FromLittleEndian, AnyPartAlpha,
      Scaled, FramesSize;
    var width, height, limit := Width(input, o, t), Height(input, o, t), OutputLimit(o);
    assert 44 <= limit by { if limit < 44 { NoRoom(stills, width, height, limit); } }
    CollectIff(stills, width, height, limit, 44);
    var parts := Collect(stills, width, height, limit, 44).value;
    forall i | 0 <= i < |stills|
      ensures |stills[i]| >= 12 && |parts[i].data| % 2 == 0 && Decode(stills[i][12..]).Some? &&
              Decode(parts[i].data) == Some(Kept(Decode(stills[i][12..]).value)) && ImageCount(Decode(parts[i].data).value) == 1
    {
      assert |stills[i]| >= 12 by { StillLength(stills[i]); }
      ExtractedDataParses(stills[i]);
    }
    ContainerReads(width, height, LoopCount(input), input.frameDelays, parts);
    PartsAlpha(stills, parts);
  }

  lemma StillLength(s: seq<byte>)
    requires StillParts(s).Ok?
    ensures |s| >= 12
  {
  }

  lemma NoRoom(stills: seq<seq<byte>>, width: pos, height: pos, limit: nat)
    requires limit < 44 && stills != []
    ensures Collect(stills, width, height, limit, 44).Err?
  {
    hide StillParts;
  }

  // ----- The encoder

  lemma CollectStep(parts: seq<Parts>, stills: seq<seq<byte>>, width: pos, height: pos, limit: nat, bytes: nat)
    requires stills != []
    ensures var all := After(parts, Collect(stills, width, height, limit, bytes));
            match StillParts(stills[0])
            case Err(e) => all == Err(e)
            case Ok(p) =>
              if width - 1 > MAX_UINT24 || height - 1 > MAX_UINT24 then all == Err(NumberOutOfRange)
              else if bytes + 24 + |p.data| > limit then all == Err(OutputLimitExceeded)
              else all == After(parts + [p], Collect(stills[1..], width, height, limit, bytes + 24 + |p.data|))
  {
    hide StillParts;
    if StillParts(stills[0]).Ok? {
      var p := StillParts(stills[0]).value;
      if bytes + 24 + |p.data| <= limit && Collect(stills[1..], width, height, limit, bytes + 24 + |p.data|).Ok? {
        var rest := Collect(stills[1..], width, height, limit, bytes + 24 + |p.data|).value;
        assert parts + ([p] + rest) == (parts + [p]) + rest;
      }
    }
  }

  lemma CollectEnds(parts: seq<Parts>, stills: seq<seq<byte>>, width: pos, height: pos, limit: nat, bytes: nat)
    ensures stills == [] ==> After(parts, Collect(stills, width, height, limit, bytes)) == Ok(parts)
    ensures parts == [] ==>
              After(parts, Collect(stills, width, height, limit, bytes)) == Collect(stills, width, height, limit, bytes)
  {
    assert parts + [] == parts;
    var r := Collect(stills, width, height, limit, bytes);
    if r.Ok? { assert [] + r.value == r.value; }
  }

  lemma {:induction false} FrameChunksStep(width: pos, height: pos, delays: seq<nat>, parts: seq<Parts>, p: Parts)
    requires |delays| > |parts|
    ensures FrameChunks(width, height, delays, parts + [p])
         == FrameChunks(width, height, delays, parts) + [FrameChunk(width, height, delays[|parts|], p.data)]
  {
    hide FrameChunk;
    if parts == [] {
      assert [p][1..] == [];
    } else {
      FrameChunksStep(width, height, delays[1..], parts[1..], p);
      assert (parts + [p])[0] == parts[0] && (parts + [p])[1..] == parts[1..] + [p];
    }
  }

  /** One more frame: the bytes so far are still the frame chunks so far, and the running size is still theirs. */
  lemma FrameStep(width: pos, height: pos, delays: seq<nat>, parts: seq<Parts>, p: Parts)
    requires |delays| > |parts| && |p.data| % 2 == 0
    ensures Encode(FrameChunks(width, height, delays, parts + [p])) ==
            Encode(FrameChunks(width, height, delays, parts)) + ChunkBytes(FrameChunk(width, height, delays[|parts|], p.data))
    ensures |ChunkBytes(FrameChunk(width, height, delays[|parts|], p.data))| == 24 + |p.data|
    ensures AnyPartAlpha(parts + [p]) <==> AnyPartAlpha(parts) || p.alpha
  {
    hide FrameChunks, FrameHeader, LittleEndian;
    var c := FrameChunk(width, height, delays[|parts|], p.data);
    FrameChunksStep(width, height, delays, parts, p);
    EncodeAppend(FrameChunks(width, height, delays, parts), [c]);
    assert Encode([c]) == ChunkBytes(c) + [] == ChunkBytes(c);
    assert p in parts + [p] && (forall q | q in parts :: q in parts + [p]) && forall q | q in parts + [p] :: q in parts || q == p;
  }

  method MakeFrameHeader(width: pos, height: pos, delay: nat) returns (header: array<byte>)
    requires width - 1 <= MAX_UINT24 && height - 1 <= MAX_UINT24 && delay <= MAX_UINT24
    ensures fresh(header) && header[..] == FrameHeader(width, height, delay)
  {
    hide LittleEndian, Fits;
    FitsExactly(width - 1);
    FitsExactly(height - 1);
    FitsExactly(delay);
    header := new byte[16](_ => 0);
    WriteUIntLE(header, width - 1, 6, 3);
    WriteUIntLE(header, height - 1, 9, 3);
    assert header[..9] == Zeros(6) + LittleEndian(width - 1, 3);
    WriteUIntLE(header, delay, 12, 3);
    assert header[..12] == Zeros(6) + LittleEndian(width - 1, 3) + LittleEndian(height - 1, 3);
    header[15] := 2;
    assert header[..15] == Zeros(6) + LittleEndian(width - 1, 3) + LittleEndian(height - 1, 3) + LittleEndian(delay, 3);
    assert header[..] == header[..15] + [header[15]];
  }

  method MakeExtended(width: pos, height: pos, alpha: bool) returns (extended: array<byte>)
    requires width - 1 <= MAX_UINT24 && height - 1 <= MAX_UINT24
    ensures fresh(extended) && extended[..] == Extended(width, height, alpha)
  {
    hide LittleEndian, Fits;
    FitsExactly(width - 1);
    FitsExactly(height - 1);
    extended := new byte[10](_ => 0);
    extended[0] := if alpha then 18 else 2;
    assert extended[..4] == [if alpha then 18 else 2] + Zeros(3);
    WriteUIntLE(extended, width - 1, 4, 3);
    assert extended[..7] == [if alpha then 18 else 2] + Zeros(3) + LittleEndian(width - 1, 3);
    WriteUIntLE(extended, height - 1, 7, 3);
  }

  /** The frame loop: the chunks of every still, with the size checked before a frame is kept. */
  method EncodeFrames(stills: seq<seq<byte>>, width: pos, height: pos, delays: seq<nat>, limit: nat)
    returns (r: Result<(seq<seq<byte>>, nat, bool), Error>)
    requires |delays| == |stills| && forall d | d in delays :: d <= MAX_UINT24
    requires limit <= DISPLAY_MAX_OUTPUT_BYTES
    ensures r.Ok? <==> Collect(stills, width, height, limit, 44).Ok?
    ensures r.Err? ==> r.error == Collect(stills, width, height, limit, 44).error
    ensures r.Ok? ==>
              var kept := Collect(stills, width, height, limit, 44).value;
              |kept| == |delays| && Concat(r.value.0) == Encode(FrameChunks(width, height, delays, kept)) &&
              r.value.1 == 44 + |Concat(r.value.0)| && r.value.2 == AnyPartAlpha(kept)
    ensures r.Ok? && stills != [] ==> r.value.1 <= limit && width - 1 <= MAX_UINT24 && height - 1 <= MAX_UINT24
  {
    hide *;
    var frames: seq<seq<byte>> := [];
    var outputBytes: nat, alpha, page := 44, false, 0;
    ghost var parts: seq<Parts> := [];
    NothingYet(width, height, delays);
    CollectEnds(parts, stills, width, height, limit, outputBytes);
    assert stills[0..] == stills;
    while page < |stills|
      invariant 0 <= page <= |stills| && |parts| == page
      invariant After(parts, Collect(stills[page..], width, height, limit, outputBytes)) == Collect(stills, width, height, limit, 44)
      invariant Concat(frames) == Encode(FrameChunks(width, height, delays, parts))
      invariant outputBytes == 44 + |Concat(frames)| && alpha == AnyPartAlpha(parts)
      invariant page > 0 ==> outputBytes <= limit && width - 1 <= MAX_UINT24 && height - 1 <= MAX_UINT24
    {
      var still := stills[page];
      assert stills[page..][0] == still && stills[page..][1..] == stills[page + 1..];
      CollectStep(parts, stills[page..], width, height, limit, outputBytes);
      var extracted := StillFrameChunks(still);
      if extracted.Err? {
        return Err(extracted.error);
      }
      var p := extracted.value;
      alpha := alpha || p.alpha;
      if width - 1 > MAX_UINT24 || height - 1 > MAX_UINT24 {
        return Err(NumberOutOfRange);
      }
      assert delays[page] in delays;
      var header := MakeFrameHeader(width, height, delays[page]);
      var frameBytes := 8 + header.Length + |p.data|;
      HeaderLength(width, height, delays[page], header[..]);
      if outputBytes + frameBytes > limit {
        return Err(OutputLimitExceeded);
      }
      EvenData(still);
      FrameStep(width, height, delays, parts, p);
      var frame := MakeChunk(ANMF, header[..] + p.data);
      FrameIs(width, height, delays[page], p.data);
      ConcatStep(frames, frame[..]);
      outputBytes := outputBytes + frame.Length;
      frames := frames + [frame[..]];
      parts := parts + [p];
      page := page + 1;
    }
    CollectEnds(parts, stills[page..], width, height, limit, outputBytes);
    return Ok((frames, outputBytes, alpha));
  }

  lemma NothingYet(width: pos, height: pos, delays: seq<nat>)
    ensures Concat([]) == [] && Encode(FrameChunks(width, height, delays, [])) == [] && !AnyPartAlpha([])
    ensures MAX_UINT24 <= MAX_UINT32 && |ANMF| == 4 && DISPLAY_MAX_OUTPUT_BYTES <= MAX_UINT32
  {
  }

  lemma HeaderLength(width: pos, height: pos, delay: nat, header: seq<byte>)
    requires header == FrameHeader(width, height, delay)
    ensures |header| == 16
  {
  }

  lemma FrameIs(width: pos, height: pos, delay: nat, data: seq<byte>)
    ensures Written(ANMF, FrameHeader(width, height, delay) + data) == FrameChunk(width, height, delay, data)
  {
  }

  lemma EvenData(still: seq<byte>)
    requires StillParts(still).Ok?
    ensures |StillParts(still).value.data| % 2 == 0
  {
    StillLength(still);
    ExtractedDataParses(still);
  }

  /**
   The whole encoder. The still files are what the image library returns for the pages of the source, and `output`
   is what it reports about the finished file.
   */
  method EncodeDisplayFrames(input: Inspection, o: FrameOptions, t: Ties, stills: seq<seq<byte>>, output: Inspection)
    returns (r: Result<Encoded, Error>)
    requires |stills| == input.frameCount
    ensures r.Ok? <==> Body(input, o, t, stills).Ok? && Matches(input, o, t, output)
    ensures r.Ok? ==>
              r.value.body == Body(input, o, t, stills).value && r.value.width == Width(input, o, t) &&
              r.value.height == Height(input, o, t) && r.value.frameCount == input.frameCount &&
              r.value.durationMs == (if input.frameCount > 1 then input.durationMs else 0) &&
              r.value.loopCount == LoopCount(input)
    ensures r.Ok? ==> Reports(output, r.value.width, r.value.height, input, r.value.loopCount)
    ensures r.Ok? ==>
              r.value.loopCount == if input.frameCount == 1 || input.loop == None then 1 else input.loop.value
    ensures Body(input, o, t, stills).Ok? && Reports(output, Width(input, o, t), Height(input, o, t), input, LoopCount(input)) ==> r.Ok?
    ensures Body(input, o, t, stills).Err? ==> r == Err(Body(input, o, t, stills).error)
    ensures Body(input, o, t, stills).Ok? && r.Err? ==> r == Err(OutputValidationFailed)
  {
    hide Collect, StillParts, Scaled, Container, LittleEndian, Encode, FrameChunks, Concat, Fits, FromLittleEndian, AnyPartAlpha;
    if !ValidOptions(o) {
      return Err(OptionsInvalid);
    }
    var outputLimit := OutputLimit(o);
    if input.totalFramePixels > OrElse(o.maxTotalPixels, DISPLAY_MAX_TOTAL_PIXELS) {
      return Err(PixelLimitExceeded);
    }
    var width, height := Width(input, o, t), Height(input, o, t);
    var delays, loopCount := Delays(input), LoopCount(input);
    if !ValidTimeline(input) {
      return Err(TimelineInvalid);
    }
    var body: seq<byte>;
    if input.frameCount == 1 {
      if |stills[0]| > outputLimit {
        return Err(OutputLimitExceeded);
      }
      body := stills[0];
    } else {
      var collected := EncodeFrames(stills, width, height, delays, outputLimit);
      if collected.Err? {
        return Err(collected.error);
      }
      ghost var parts := Collect(stills, width, height, outputLimit, 44).value;
      body := Assemble(width, height, loopCount, delays, collected.value.0, collected.value.1, collected.value.2, parts);
    }
    assert |body| <= outputLimit by {
      if input.frameCount > 1 { DisplayReads(input, o, t, stills); }
    }
    if |body| > outputLimit || !Matches(input, o, t, output) {
      return Err(OutputValidationFailed);
    }
    return Ok(Encoded(body, width, height, input.frameCount, if input.frameCount > 1 then input.durationMs else 0, loopCount));
  }

  method MakeLooping(loop: nat) returns (animation: array<byte>)
    requires loop <= MAX_UINT16
    ensures fresh(animation) && animation[..] == Looping(loop)
  {
    hide LittleEndian, Fits;
    FitsExactly(loop);
    animation := new byte[6](_ => 0);
    WriteUIntLE(animation, loop, 4, 2);
  }

  method MakeRiffHeader(size: nat) returns (riff: array<byte>)
    requires size <= MAX_UINT32
    ensures fresh(riff) && riff[..] == RIFF + LittleEndian(size, 4) + WEBP
  {
    hide LittleEndian, Fits;
    FitsExactly(size);
    riff := new byte[12](_ => 0);
    riff[0], riff[1], riff[2], riff[3] := 82, 73, 70, 70;
    assert riff[..4] == RIFF;
    WriteUIntLE(riff, size, 4, 4);
    assert riff[..8] == RIFF + LittleEndian(size, 4);
    riff[8], riff[9], riff[10], riff[11] := 87, 69, 66, 80;
    assert riff[8..] == WEBP && riff[..] == riff[..8] + riff[8..];
  }

  /** The file header, with the running size as the RIFF size, in front of the frames. */
  method Assemble(width: pos, height: pos, loop: nat, delays: seq<nat>, frames: seq<seq<byte>>, outputBytes: nat, alpha: bool,
                  ghost parts: seq<Parts>)
    returns (body: seq<byte>)
    requires width - 1 <= MAX_UINT24 && height - 1 <= MAX_UINT24 && loop <= MAX_UINT16 && |delays| >= |parts|
    requires Concat(frames) == Encode(FrameChunks(width, height, delays, parts)) && alpha == AnyPartAlpha(parts)
    requires outputBytes == 44 + |Concat(frames)| <= MAX_UINT32
    ensures body == Container(width, height, loop, delays, parts) && |body| == outputBytes
  {
    hide *;
    HeadIs(width, height, loop, delays, parts);
    var extended := MakeExtended(width, height, alpha);
    var animation := MakeLooping(loop);
    var riff := MakeRiffHeader(outputBytes - 8);
    var vp8x := MakeChunk(VP8X, extended[..]);
    var anim := MakeChunk(ANIM, animation[..]);
    body := riff[..] + vp8x[..] + anim[..] + Concat(frames);
    assert body == riff[..] + (vp8x[..] + anim[..] + Concat(frames));
  }

  lemma HeadIs(width: pos, height: pos, loop: nat, delays: seq<nat>, parts: seq<Parts>)
    requires |delays| >= |parts|
    ensures var vp8x := ChunkBytes(Written(VP8X, Extended(width, height, AnyPartAlpha(parts))));
            var anim := ChunkBytes(Written(ANIM, Looping(loop)));
            Encode(ContainerChunks(width, height, loop, delays, parts)) ==
            vp8x + anim + Encode(FrameChunks(width, height, delays, parts)) && |vp8x| == 18 && |anim| == 14
    ensures var chunks := Encode(ContainerChunks(width, height, loop, delays, parts));
            Container(width, height, loop, delays, parts) == RIFF + LittleEndian(4 + |chunks|, 4) + WEBP + chunks
    ensures 16 <= MAX_UINT32 && |RIFF| == 4 && |WEBP| == 4 && |VP8X| == 4 && |ANIM| == 4
    ensures |Extended(width, height, AnyPartAlpha(parts))| == 10 && |Looping(loop)| == 6
  {
    hide FrameChunks, Extended, Looping, AnyPartAlpha, LittleEndian;
    var first, second := Written(VP8X, Extended(width, height, AnyPartAlpha(parts))), Written(ANIM, Looping(loop));
    TwoChunks(first, second);
    EncodeAppend([first, second], FrameChunks(width, height, delays, parts));
  }
}
