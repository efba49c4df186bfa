/**
 What a text with dice means, as a grammar on its characters: markers, escapes, code spans and fences. The scanner
 accepts exactly the texts of this grammar and finds exactly the pieces it names.
 */
module DiceReading {
  import opened Options
  import opened Sequences
  import opened Text
  import opened DiceScanner
  import opened DiceContent
  import N = DiceNotation
  import G = DiceGrammar
  import W = DiceRewriting

  // ----- Markers

  ghost predicate OpensMarker(s: string) {
    |s| >= 10 && forall i: nat | i < 10 :: Lower(s[i]) == "[[dice:v1:"[i]
  }

  predicate HexDigit(c: char) { '0' <= c <= '9' || 'a' <= c <= 'f' || 'A' <= c <= 'F' }

  /** Groups of 8, 4, 4, 4 and 12 hexadecimal digits; the third starts with `4`, the fourth with `8`, `9`, `a` or `b`. */
  ghost predicate UuidForm(s: string) {
    |s| == 36 && s[8] == '-' && s[13] == '-' && s[18] == '-' && s[23] == '-' && s[14] == '4' &&
    (s[19] == '8' || s[19] == '9' || s[19] == 'a' || s[19] == 'b' || s[19] == 'A' || s[19] == 'B') &&
    forall i: nat | i < 36 && i != 8 && i != 13 && i != 18 && i != 23 :: HexDigit(s[i])
  }

  datatype MarkerParts = MarkerParts(start: string, id: string, body: string)

  function MarkerText(p: MarkerParts): string { p.start + (p.id + (":" + (p.body + "]]"))) }

  ghost predicate WellFormed(p: MarkerParts) {
    |p.start| == 10 && OpensMarker(p.start) && UuidForm(p.id) && 1 <= |p.body| <= 32 &&
    forall i: nat | i < |p.body| :: p.body[i] != ']' && p.body[i] != '\r' && p.body[i] != '\n'
  }

  ghost predicate Allowed(n: N.Notation) {
    1 <= n.quantity <= 100 && 2 <= n.sides <= 1000 && -10_000 <= n.modifier <= 10_000
  }

  /** `s` starts with the marker `m`: its identifier in lower case, the notation it denotes, and its own text. */
  ghost predicate MarkerAt(s: string, m: Marker) {
    exists p :: WellFormed(p) && MarkerText(p) == m.raw && m.raw <= s && G.Denotes(p.body, m.notation) && Allowed(m.notation) &&
                |m.id| == 36 && forall i: nat | i < 36 :: m.id[i] == Lower(p.id[i])
  }

  lemma OpensIff(s: string)
    ensures StartsMarker(s) <==> OpensMarker(s)
  {
    if |s| >= 10 {
      var low := LowerAll(s[..10]);
      assert forall i: nat | i < 10 :: low[i] == Lower(s[i]);
      if OpensMarker(s) { assert low == PREFIX; }
    }
  }

  lemma HexIff(c: char)
    ensures IsHex(c) <==> HexDigit(c)
    ensures Lower(c) in {'8', '9', 'a', 'b'} <==> c in {'8', '9', 'a', 'b', 'A', 'B'}
  {
  }

  lemma UuidIff(s: string)
    ensures IsUuid(s) <==> UuidForm(s)
  {
    hide IsHex, HexDigit, Lower;
    forall c: char
      ensures IsHex(c) <==> HexDigit(c)
    {
      HexIff(c);
    }
    if |s| == 36 { HexIff(s[19]); }
  }

  lemma AllowedNotation(s: string, n: N.Notation)
    ensures N.Parse(s) == Some(n) <==> G.Denotes(s, n) && Allowed(n)
  {
    hide G.Denotes, N.Parse;
    G.ParseIff(s, n);
  }

  lemma LoweredIs(s: string, t: string)
    ensures t == LowerAll(s) <==> |t| == |s| && forall i: nat | i < |s| :: t[i] == Lower(s[i])
  {
    hide Lower;
  }

  /** Where the parts of a marker lie, whatever follows it. */
  lemma PartsLie(p: MarkerParts, z: string)
    requires |p.start| == 10 && |p.id| == 36
    ensures var s := MarkerText(p) + z;
            var rest := s[10..];
            s[..10] == p.start && |rest| > 36 && rest[..36] == p.id && rest[36] == ':' &&
            rest[37..] == p.body + "]" + ("]" + z) && rest[37 + |p.body|..] == "]]" + z &&
            s[..10 + 36 + 1 + |p.body| + 2] == MarkerText(p) && |MarkerText(p)| == 10 + 36 + 1 + |p.body| + 2
  {
    var raw := MarkerText(p);
    var tail := p.body + "]]";
    assert raw + z == p.start + (p.id + (":" + (tail + z)));
    JoinParts(p.start, p.id + (":" + (tail + z)));
    JoinParts(p.id, ":" + (tail + z));
    JoinParts(p.id + ":", tail + z);
    Associate(p.id, ":", tail + z);
    assert tail + z == p.body + "]" + ("]" + z);
    Associate(p.id + ":", p.body, "]]" + z);
    JoinParts(p.id + ":" + p.body, "]]" + z);
    assert tail + z == p.body + ("]]" + z);
    JoinParts(raw, z);
  }

  lemma WellFormedReads(s: string, p: MarkerParts, n: N.Notation)
    requires WellFormed(p) && MarkerText(p) <= s && N.Parse(p.body) == Some(n)
    ensures StartsMarker(s) && ReadMarker(s) == Some(Marker(LowerAll(p.id), n, MarkerText(p)))
  {
    hide N.Parse, LowerAll, TakeBody, IsUuid, UuidForm, MarkerText;
    var z := s[|MarkerText(p)|..];
    assert s == MarkerText(p) + z;
    assert |p.id| == 36 by { UuidIff(p.id); assert UuidForm(p.id); LongEnough(p.id); }
    PartsLie(p, z);
    OpensIff(s);
    OpensIff(p.start);
    assert p.start[..10] == p.start;
    UuidIff(p.id);
    W.TakeBodyAppend(p.body, "]" + z);
    assert "]]" <= "]]" + z;
  }

  lemma LongEnough(id: string)
    requires UuidForm(id)
    ensures |id| == 36
  {
  }

  /** A marker is read exactly when one is there, and as what it says. */
  lemma MarkerIff(s: string, m: Marker)
    requires OpensMarker(s)
    ensures StartsMarker(s) && (ReadMarker(s) == Some(m) <==> MarkerAt(s, m))
  {
    hide ReadMarker, StartsMarker, MarkerText, G.Denotes, N.Parse, OpensMarker, IsUuid, LowerAll, Lower, Allowed;
    OpensIff(s);
    if ReadMarker(s) == Some(m) {
      var start, id, body := W.ReadMarkerParts(s);
      var p := MarkerParts(start, id, body);
      assert MarkerText(p) == m.raw by { Assembled(p); }
      UuidIff(id);
      LongEnough(id);
      AllowedNotation(body, m.notation);
      LoweredIs(id, m.id);
      StartOpens(s);
      assert forall i: nat | i < |body| :: body[i] in body;
      assert WellFormed(p);
    }
    if MarkerAt(s, m) {
      var p :| WellFormed(p) && MarkerText(p) == m.raw && m.raw <= s && G.Denotes(p.body, m.notation) && Allowed(m.notation) &&
               |m.id| == 36 && forall i: nat | i < 36 :: m.id[i] == Lower(p.id[i]);
      LongEnough(p.id);
      AllowedNotation(p.body, m.notation);
      LoweredIs(p.id, m.id);
      WellFormedReads(s, p, m.notation);
    }
  }

  lemma Assembled(p: MarkerParts)
    ensures MarkerText(p) == p.start + p.id + ":" + p.body + "]]"
  {
  }

  lemma StartOpens(s: string)
    requires OpensMarker(s)
    ensures OpensMarker(s[..10])
  {
  }

  // ----- Code spans

  ghost predicate TicksAt(s: string, i: nat, n: nat) {
    i + n <= |s| && forall j: nat | i <= j < i + n :: s[j] == '`'
  }

  /** A run of exactly `k` backticks opens at the start; `close` is the first later place with as many. */
  ghost predicate SpanAt(s: string, k: nat, close: nat) {
    0 < k <= close && TicksAt(s, 0, k) && (k < |s| ==> s[k] != '`') && TicksAt(s, close, k) &&
    forall j: nat | k <= j < close :: !TicksAt(s, j, k)
  }

  ghost predicate IsCodeSpan(s: string, n: nat) {
    exists k: nat, close: nat :: SpanAt(s, k, close) && n == close + k
  }

  lemma TicksShift(s: string, k: nat, j: nat, n: nat)
    requires k <= |s|
    ensures TicksAt(s[k..], j, n) <==> TicksAt(s, k + j, n)
  {
    if TicksAt(s[k..], j, n) {
      assert forall i: nat | k + j <= i < k + j + n :: s[i] == s[k..][i - k];
    }
  }

  lemma RunIff(s: string, n: nat)
    ensures RunLength(s) >= n <==> TicksAt(s, 0, n)
  {
    hide RunLength;
  }

  lemma {:induction false} FindTicksIff(s: string, n: nat, i: nat)
    requires n > 0
    ensures FindTicks(s, n) == Some(i) <==> TicksAt(s, i, n) && forall j: nat | j < i :: !TicksAt(s, j, n)
  {
    hide TicksAt, RunLength;
    RunIff(s, n);
    if s == "" {
      NoTicksAt(s, i, n);
    } else if RunLength(s) < n {
      if i > 0 {
        FindTicksIff(s[1..], n, i - 1);
        TicksShift(s, 1, i - 1, n);
        if forall j: nat | j < i :: !TicksAt(s, j, n) {
          forall j: nat | j < i - 1
            ensures !TicksAt(s[1..], j, n)
          {
            TicksShift(s, 1, j, n);
          }
        }
        if forall j: nat | j < i - 1 :: !TicksAt(s[1..], j, n) {
          forall j: nat | j < i
            ensures !TicksAt(s, j, n)
          {
            if j > 0 { TicksShift(s, 1, j - 1, n); }
          }
        }
      }
    }
  }

  lemma NoTicksAt(s: string, i: nat, n: nat)
    requires s == "" && n > 0
    ensures !TicksAt(s, i, n)
  {
  }

  /** A code span is found exactly when the first closing run is there. */
  lemma SpanIff(s: string, n: nat)
    requires s != "" && s[0] == '`'
    ensures CodeSpan(s) == Some(n) <==> IsCodeSpan(s, n)
  {
    hide TicksAt, RunLength, FindTicks;
    var k := RunLength(s);
    assert k > 0 by { RunIff(s, 1); FirstTick(s); }
    RunIff(s, k);
    if CodeSpan(s) == Some(n) {
      FoundSpan(s, k, n - k - k);
      assert SpanAt(s, k, n - k);
    }
    if IsCodeSpan(s, n) {
      var k', close: nat :| SpanAt(s, k', close) && n == close + k';
      OneRun(s, k');
      SpanFound(s, k, close - k);
    }
  }

  lemma FirstTick(s: string)
    requires s != "" && s[0] == '`'
    ensures TicksAt(s, 0, 1)
  {
  }

  lemma OneRun(s: string, k: nat)
    requires TicksAt(s, 0, k) && (k < |s| ==> s[k] != '`')
    ensures k == RunLength(s)
  {
    hide RunLength;
  }

  lemma FoundSpan(s: string, k: nat, i: nat)
    requires k == RunLength(s) > 0 && FindTicks(s[k..], k) == Some(i)
    ensures SpanAt(s, k, k + i)
  {
    hide TicksAt, RunLength, FindTicks;
    FindTicksIff(s[k..], k, i);
    TicksShift(s, k, i, k);
    RunIff(s, k);
    forall j: nat | k <= j < k + i
      ensures !TicksAt(s, j, k)
    {
      TicksShift(s, k, j - k, k);
    }
  }

  lemma SpanFound(s: string, k: nat, i: nat)
    requires k == RunLength(s) && SpanAt(s, k, k + i)
    ensures FindTicks(s[k..], k) == Some(i)
  {
    hide TicksAt, RunLength, FindTicks;
    FindTicksIff(s[k..], k, i);
    TicksShift(s, k, i, k);
    forall j: nat | j < i
      ensures !TicksAt(s[k..], j, k)
    {
      TicksShift(s, k, j, k);
    }
  }

  // ----- One line

  /**
   The first `n` characters of `s` are the piece `p`. A backslash takes the next character with it; a code span is text
   up to its end; a marker is a node; anything else is text.
   */
  ghost predicate Reads(s: string, p: Piece, n: nat) {
    0 < n <= |s| &&
    if s[0] == '\\' then p == Piece.Text(s[..n]) && n == (if |s| == 1 then 1 else 2)
    else if exists m: nat :: IsCodeSpan(s, m) then p == Piece.Text(s[..n]) && IsCodeSpan(s, n)
    else if OpensMarker(s) then p.Node? && MarkerAt(s, p.marker) && n == |p.marker.raw|
    else p == Piece.Text(s[..n]) && n == 1
  }

  ghost predicate LineReads(s: string, ps: seq<Piece>)
    decreases |ps|
  {
    if |ps| == 0 then s == "" else exists n: nat :: n <= |s| && Reads(s, ps[0], n) && LineReads(s[n..], ps[1..])
  }

  lemma SpanStartsWithTick(s: string, n: nat)
    requires IsCodeSpan(s, n)
    ensures s != "" && s[0] == '`' && 0 < n <= |s|
  {
  }

  lemma SpansIff(s: string)
    requires s != ""
    ensures (exists m: nat :: IsCodeSpan(s, m)) <==> s[0] == '`' && CodeSpan(s).Some?
  {
    hide IsCodeSpan, CodeSpan;
    if m: nat :| IsCodeSpan(s, m) {
      SpanStartsWithTick(s, m);
      SpanIff(s, m);
    }
    if s[0] == '`' && CodeSpan(s).Some? { SpanIff(s, CodeSpan(s).value); }
  }

  lemma MarkerIsNotEmpty(s: string, m: Marker)
    requires MarkerAt(s, m)
    ensures 0 < |m.raw| <= |s|
  {
  }

  lemma PieceRead(s: string, p: Piece, n: nat)
    requires Reads(s, p, n)
    ensures ScanLine(s) == Prepend(p, ScanLine(s[n..]))
  {
    hide IsCodeSpan, CodeSpan, OpensMarker, StartsMarker, ReadMarker, MarkerAt;
    SpansIff(s);
    OpensIff(s);
    if s[0] == '\\' {
    } else if s[0] == '`' && CodeSpan(s).Some? {
      SpanIff(s, n);
    } else if OpensMarker(s) {
      MarkerIff(s, p.marker);
    } else {
      assert s[..1] == [s[0]];
    }
  }

  lemma FirstPiece(s: string) returns (p: Piece, n: nat)
    requires s != "" && ScanLine(s).Some?
    ensures n <= |s| && Reads(s, p, n) && ScanLine(s[n..]).Some? && ScanLine(s).value == [p] + ScanLine(s[n..]).value
  {
    hide IsCodeSpan, CodeSpan, OpensMarker, StartsMarker, ReadMarker, MarkerAt;
    SpansIff(s);
    OpensIff(s);
    if s[0] == '\\' {
      n := if |s| == 1 then 1 else 2;
      p := Piece.Text(s[..n]);
    } else if s[0] == '`' && CodeSpan(s).Some? {
      n := CodeSpan(s).value;
      SpanIff(s, n);
      SpanStartsWithTick(s, n);
      p := Piece.Text(s[..n]);
    } else if StartsMarker(s) {
      var m := ReadMarker(s).value;
      MarkerIff(s, m);
      MarkerIsNotEmpty(s, m);
      p, n := Piece.Node(m), |m.raw|;
    } else {
      p, n := Piece.Text([s[0]]), 1;
      assert s[..1] == [s[0]];
    }
  }

  /** A line outside fences is accepted exactly when it reads as pieces, and as those. */
  lemma {:induction false} LineIff(s: string, ps: seq<Piece>)
    ensures ScanLine(s) == Some(ps) <==> LineReads(s, ps)
    decreases |ps|
  {
    hide ScanLine, Reads;
    if ScanLine(s) == Some(ps) { ScanReads(s, ps); }
    if LineReads(s, ps) {
      if |ps| == 0 {
        EmptyLine(ps);
      } else {
        var n: nat :| n <= |s| && Reads(s, ps[0], n) && LineReads(s[n..], ps[1..]);
        LineIff(s[n..], ps[1..]);
        PieceRead(s, ps[0], n);
        HeadAndTail(ps, 1);
        assert ps[..1] == [ps[0]];
      }
    }
  }

  lemma {:induction false} ScanReads(s: string, ps: seq<Piece>)
    requires ScanLine(s) == Some(ps)
    ensures LineReads(s, ps)
    decreases |ps|
  {
    hide ScanLine, Reads;
    if s == "" {
      EmptyLine([]);
    } else {
      var p, n := FirstPiece(s);
      assert ps[0] == p && ps[1..] == ScanLine(s[n..]).value;
      ScanReads(s[n..], ps[1..]);
    }
  }

  lemma EmptyLine(ps: seq<Piece>)
    requires |ps| == 0
    ensures ScanLine("") == Some(ps)
  {
  }

  // ----- Fences

  /** At most three spaces, then exactly `n` fence characters, at least three. */
  ghost predicate FenceAt(line: string, c: char, i: nat, n: nat) {
    (c == '`' || c == '~') && i <= 3 && n >= 3 && i + n <= |line| && (forall k: nat | k < i :: line[k] == ' ') &&
    (forall k: nat | i <= k < i + n :: line[k] == c) && (i + n < |line| ==> line[i + n] != c)
  }

  ghost predicate OpensFence(line: string, f: Fence) {
    exists i: nat :: FenceAt(line, f.marker, i, f.length)
  }

  /** As many of the same characters or more, and after them only tabs and spaces. */
  ghost predicate ClosesFence(line: string, f: Fence) {
    exists i: nat, n: nat :: FenceAt(line, f.marker, i, n) && n >= f.length &&
                             forall k: nat | i + n <= k < |line| :: line[k] == '\t' || line[k] == ' '
  }

  /** The length of a run of one character. */
  ghost predicate IsRun(s: string, c: char, n: nat) {
    n <= |s| && (forall k: nat | k < n :: s[k] == c) && (n < |s| ==> s[n] != c)
  }

  lemma {:induction false} RunOf(s: string, c: char)
    ensures IsRun(s, c, CharRun(s, c))
  {
    if |s| > 0 && s[0] == c {
      RunOf(s[1..], c);
      assert forall k: nat | 0 < k < |s| :: s[k] == s[1..][k - 1];
    }
  }

  lemma RunIs(s: string, c: char, n: nat)
    requires IsRun(s, c, n)
    ensures CharRun(s, c) == n
  {
    hide CharRun;
    RunOf(s, c);
  }

  lemma RunInside(line: string, c: char, i: nat, n: nat)
    requires i <= |line|
    ensures IsRun(line[i..], c, n) <==> i + n <= |line| && (forall k: nat | i <= k < i + n :: line[k] == c) && (i + n < |line| ==> line[i + n] != c)
  {
    if IsRun(line[i..], c, n) {
      assert forall k: nat | i <= k < i + n :: line[k] == line[i..][k - i];
    }
  }

  lemma FenceIs(line: string, c: char, i: nat, n: nat)
    requires FenceAt(line, c, i, n)
    ensures CharRun(line, ' ') == i && FenceToken(line) == Some(Fence(c, n))
  {
    hide CharRun;
    assert IsRun(line, ' ', i);
    RunIs(line, ' ', i);
    RunInside(line, c, i, n);
    RunIs(line[i..], c, n);
  }

  lemma TokenIs(line: string)
    requires FenceToken(line).Some?
    ensures var f := FenceToken(line).value; FenceAt(line, f.marker, CharRun(line, ' '), f.length)
  {
    hide CharRun;
    RunOf(line, ' ');
    var n := CharRun(line, ' ');
    RunOf(line[n..], line[n]);
    RunInside(line, line[n], n, CharRun(line[n..], line[n]));
  }

  lemma OpensFenceIff(line: string, f: Fence)
    ensures FenceToken(line) == Some(f) <==> OpensFence(line, f)
  {
    hide FenceToken, FenceAt;
    if FenceToken(line) == Some(f) { TokenIs(line); }
    if OpensFence(line, f) {
      var i: nat :| FenceAt(line, f.marker, i, f.length);
      FenceIs(line, f.marker, i, f.length);
    }
  }

  lemma BlankIff(line: string, k: nat)
    requires k <= |line|
    ensures Blank(line[k..]) <==> forall j: nat | k <= j < |line| :: line[j] == '\t' || line[j] == ' '
  {
    if Blank(line[k..]) {
      forall j: nat | k <= j < |line|
        ensures line[j] == '\t' || line[j] == ' '
      {
        assert line[k..][j - k] == line[j] && line[j] in line[k..];
      }
    }
  }

  lemma ClosesFenceIff(f: Fence, line: string)
    ensures Closes(f, line) <==> ClosesFence(line, f)
  {
    hide FenceToken, FenceAt, Blank, CharRun;
    if FenceToken(line).Some? {
      var t := FenceToken(line).value;
      TokenIs(line);
      BlankIff(line, CharRun(line, ' ') + t.length);
    }
    if ClosesFence(line, f) {
      var i: nat, n: nat :| FenceAt(line, f.marker, i, n) && n >= f.length &&
                            forall k: nat | i + n <= k < |line| :: line[k] == '\t' || line[k] == ' ';
      FenceIs(line, f.marker, i, n);
      BlankIff(line, i + n);
    }
  }

  // ----- The whole text

  /** Fence lines and the lines between them are kept as they are; the others are read. */
  ghost predicate LineRule(before: Option<Fence>, line: string, after: Option<Fence>, ps: seq<Piece>) {
    match before
    case Some(f) => ps == [Piece.Text(line)] && after == (if ClosesFence(line, f) then None else before)
    case None =>
      if exists f :: OpensFence(line, f) then ps == [Piece.Text(line)] && after.Some? && OpensFence(line, after.value)
      else after == None && LineReads(line, ps)
  }

  ghost predicate LinesRead(lines: seq<string>, fence: Option<Fence>, pss: seq<seq<Piece>>)
    decreases |lines|
  {
    |pss| == |lines| &&
    (|lines| > 0 ==> exists after :: LineRule(fence, lines[0], after, pss[0]) && LinesRead(lines[1..], after, pss[1..]))
  }

  lemma LineRuleIff(before: Option<Fence>, line: string, after: Option<Fence>, ps: seq<Piece>)
    ensures LineRule(before, line, after, ps) <==> ScanOne(before, line) == Some(ps) && after == NextFence(before, line)
  {
    hide FenceToken, OpensFence, Closes, ClosesFence, ScanLine, LineReads;
    match before
    case Some(f) => ClosesFenceIff(f, line);
    case None =>
      forall f: Fence
        ensures FenceToken(line) == Some(f) <==> OpensFence(line, f)
      {
        OpensFenceIff(line, f);
      }
      LineIff(line, ps);
  }

  /** The lines are accepted exactly when they read as pieces, and as those. */
  lemma {:induction false} LinesIff(lines: seq<string>, fence: Option<Fence>, pss: seq<seq<Piece>>)
    ensures ScanLines(lines, fence) == Some(pss) <==> LinesRead(lines, fence, pss)
    decreases |lines|
  {
    hide LineRule, ScanOne, NextFence;
    if |lines| == |pss| > 0 {
      var after := NextFence(fence, lines[0]);
      HeadAndTail(pss, 1);
      assert pss[..1] == [pss[0]];
      LinesIff(lines[1..], after, pss[1..]);
      LineRuleIff(fence, lines[0], after, pss[0]);
      if LinesRead(lines, fence, pss) {
        var next :| LineRule(fence, lines[0], next, pss[0]) && LinesRead(lines[1..], next, pss[1..]);
        LineRuleIff(fence, lines[0], next, pss[0]);
      }
      if ScanLines(lines, fence) == Some(pss) { FirstLine(lines, fence, pss); }
    }
  }

  lemma FirstLine(lines: seq<string>, fence: Option<Fence>, pss: seq<seq<Piece>>)
    requires |lines| > 0 && ScanLines(lines, fence) == Some(pss)
    ensures ScanOne(fence, lines[0]) == Some(pss[0]) && ScanLines(lines[1..], NextFence(fence, lines[0])) == Some(pss[1..])
  {
    hide ScanOne, NextFence;
  }

  ghost predicate Distinct(pss: seq<seq<Piece>>) {
    var nodes := AllNodes(pss);
    forall i: nat, j: nat | i < j < |nodes| :: nodes[i].id != nodes[j].id
  }

  /**
   The verdict on a text. It is refused as invalid exactly when it does not read as pieces or repeats an identifier,
   for too many rolls exactly when it reads with more than twenty, and otherwise gives the nodes it reads with.
   */
  lemma ContentIff(markdown: string, nodes: seq<DiceNode>)
    ensures ContentOf(markdown) == Err(InvalidNotation) <==>
            !exists pss :: LinesRead(Split(markdown), None, pss) && Distinct(pss)
    ensures ContentOf(markdown) == Err(RollLimitExceeded) <==>
            exists pss :: LinesRead(Split(markdown), None, pss) && Distinct(pss) && |AllNodes(pss)| > 20
    ensures ContentOf(markdown).Ok? && ContentOf(markdown).value.nodes == nodes <==>
            exists pss :: LinesRead(Split(markdown), None, pss) && Distinct(pss) && |AllNodes(pss)| <= 20 && nodes == AllNodes(pss)
  {
    hide LinesRead, ScanLines, AllNodes, Contents, Withouts, Distinct, DistinctIds;
    var lines := Split(markdown);
    var scan := ScanLines(lines, None);
    if scan.Some? { LinesIff(lines, None, scan.value); }
    forall pss | LinesRead(lines, None, pss)
      ensures scan == Some(pss)
    {
      LinesIff(lines, None, pss);
    }
    forall pss
      ensures Distinct(pss) <==> DistinctIds(AllNodes(pss))
    {
      DistinctIff(pss);
    }
  }

  lemma DistinctIff(pss: seq<seq<Piece>>)
    ensures Distinct(pss) <==> DistinctIds(AllNodes(pss))
  {
    hide AllNodes;
  }
}
