/** Rewriting the markers of a line in canonical form leaves every other scanning decision as it was. */
module DiceRewriting {
  import opened Options
  import opened Sequences
  import opened Text
  import opened DiceScanner
  import N = DiceNotation

  // ----- The first characters

  /** The two texts look alike, up to case, as far as the scanner looks ahead for a marker. */
  ghost predicate Alike(c: string, s: string) {
    (|s| < |PREFIX| ==> c == s) &&
    (|s| >= |PREFIX| ==> |c| >= |PREFIX| && forall i | 0 <= i < |PREFIX| :: Lower(c[i]) == Lower(s[i]))
  }

  lemma AlikeAppend(x: string, c: string, s: string)
    requires Alike(c, s)
    ensures Alike(x + c, x + s)
  {
    if |s| >= |PREFIX| {
      forall i | 0 <= i < |PREFIX|
        ensures Lower((x + c)[i]) == Lower((x + s)[i])
      {
        if i >= |x| { assert (x + c)[i] == c[i - |x|] && (x + s)[i] == s[i - |x|]; }
      }
    }
  }

  lemma AlikeMarkers(c: string, s: string)
    requires Alike(c, s)
    ensures StartsMarker(c) <==> StartsMarker(s)
  {
    if |s| >= |PREFIX| {
      assert LowerAll(c[..|PREFIX|]) == LowerAll(s[..|PREFIX|]);
    }
  }

  lemma MarkerHead(s: string)
    requires StartsMarker(s)
    ensures s[0] == '['
    ensures forall i | 0 <= i < |PREFIX| :: Lower(s[i]) == PREFIX[i]
  {
    forall i | 0 <= i < |PREFIX|
      ensures Lower(s[i]) == PREFIX[i]
    {
      assert LowerAll(s[..|PREFIX|])[i] == Lower(s[..|PREFIX|][i]);
    }
    assert Lower(s[0]) == '[';
  }

  lemma SerializeHead(m: Marker, rest: string)
    ensures StartsMarker(Serialize(m.id, m.notation) + rest)
  {
    var c := Serialize(m.id, m.notation) + rest;
    assert c[..|PREFIX|] == PREFIX;
    forall i | 0 <= i < |PREFIX|
      ensures Lower(PREFIX[i]) == PREFIX[i]
    {
    }
    assert LowerAll(PREFIX) == PREFIX;
  }

  lemma AlikeMarker(m: Marker, rest: string, s: string)
    requires StartsMarker(s)
    ensures Alike(Serialize(m.id, m.notation) + rest, s)
  {
    SerializeHead(m, rest);
    MarkerHead(s);
    MarkerHead(Serialize(m.id, m.notation) + rest);
  }

  lemma {:induction false} ContentAlike(s: string)
    requires ScanLine(s).Some?
    ensures Alike(Content(ScanLine(s).value), s)
    decreases |s|
  {
    hide Alike, StartsMarker, ReadMarker, CodeSpan, Serialize;
    if s == "" {
      EmptyAlike();
    } else if s[0] == '\\' {
      TextStepAlike(s, if |s| < 2 then |s| else 2);
    } else if s[0] == '`' && CodeSpan(s).Some? {
      TextStepAlike(s, CodeSpan(s).value);
    } else if StartsMarker(s) {
      var m := ReadMarker(s).value;
      AlikeMarker(m, Content(ScanLine(s[|m.raw|..]).value), s);
    } else {
      assert s[..1] == [s[0]];
      TextStepAlike(s, 1);
    }
  }

  lemma EmptyAlike()
    ensures Alike("", "")
  {
  }

  lemma {:induction false} TextStepAlike(s: string, n: nat)
    requires 0 < n <= |s| && ScanLine(s[n..]).Some?
    ensures Alike(s[..n] + Content(ScanLine(s[n..]).value), s)
    decreases |s|, 0
  {
    ContentAlike(s[n..]);
    AlikeAppend(s[..n], Content(ScanLine(s[n..]).value), s[n..]);
    assert s[..n] + s[n..] == s;
  }

  // ----- Runs of backticks

  /** The longest run of backticks in `s`, when `carry` backticks come right before it. */
  function Longest(s: string, carry: nat): (n: nat)
    ensures carry <= n
  {
    if s == "" then carry
    else if s[0] == '`' then Longest(s[1..], carry + 1)
    else
      var rest := Longest(s[1..], 0);
      if rest < carry then carry else rest
  }

  lemma {:induction false} LongestRun(s: string, carry: nat)
    ensures Longest(s, carry) >= carry + RunLength(s)
    ensures Longest(s, carry) == if Longest(s[RunLength(s)..], 0) < carry + RunLength(s) then carry + RunLength(s)
                                 else Longest(s[RunLength(s)..], 0)
  {
    if s == "" {
    } else if s[0] == '`' {
      LongestRun(s[1..], carry + 1);
      assert s[1..][RunLength(s[1..])..] == s[RunLength(s)..];
    } else {
      assert s[0..] == s;
    }
  }

  lemma {:induction false} FindTicksIffLongest(s: string, n: nat)
    requires n > 0
    ensures FindTicks(s, n).Some? <==> Longest(s, 0) >= n
  {
    if s == "" {
    } else if RunLength(s) >= n {
      LongestRun(s, 0);
    } else {
      FindTicksIffLongest(s[1..], n);
      if s[0] == '`' {
        LongestRun(s, 0);
        LongestRun(s[1..], 0);
        assert s[1..][RunLength(s[1..])..] == s[RunLength(s)..];
      }
    }
  }

  predicate NoTicks(s: string) {
    forall c | c in s :: c != '`'
  }

  lemma {:induction false} LongestAfterPlain(x: string, y: string, carry: nat)
    requires x != "" && NoTicks(x)
    ensures Longest(x + y, carry) == if Longest(y, 0) < carry then carry else Longest(y, 0)
    decreases |x|
  {
    assert (x + y)[0] == x[0] && x[0] in x && (x + y)[1..] == x[1..] + y;
    assert forall c | c in x[1..] :: c in x;
    if |x| == 1 {
      assert x[1..] + y == y;
    } else {
      LongestAfterPlain(x[1..], y, 0);
    }
  }

  ghost predicate SameRuns(c: string, s: string) {
    forall carry: nat :: Longest(c, carry) == Longest(s, carry)
  }

  lemma {:induction false} SameRunsAppend(x: string, c: string, s: string)
    requires SameRuns(c, s)
    ensures SameRuns(x + c, x + s)
    decreases |x|
  {
    if x == "" {
      assert x + c == c && x + s == s;
    } else {
      SameRunsAppend(x[1..], c, s);
      assert (x + c)[1..] == x[1..] + c && (x + s)[1..] == x[1..] + s;
    }
  }

  lemma SameRunsMarkers(x1: string, x2: string, c: string, s: string)
    requires x1 != "" && x2 != "" && NoTicks(x1) && NoTicks(x2) && SameRuns(c, s)
    ensures SameRuns(x1 + c, x2 + s)
  {
    forall carry: nat
      ensures Longest(x1 + c, carry) == Longest(x2 + s, carry)
    {
      LongestAfterPlain(x1, c, carry);
      LongestAfterPlain(x2, s, carry);
    }
  }

  lemma NoTicksJoin(x: string, y: string)
    requires NoTicks(x) && NoTicks(y)
    ensures NoTicks(x + y)
  {
  }

  lemma {:induction false} SkippedHasNoTicks(s: string)
    ensures NoTicks(SkipSpaces(s)) ==> NoTicks(s)
    decreases |s|
  {
    if s != "" && IsSpace(s[0]) {
      SkippedHasNoTicks(s[1..]);
      assert s == [s[0]] + s[1..];
    }
  }

  lemma DigitsThenNoTicks(s: string)
    requires NoTicks(s[|TakeDigits(s)|..])
    ensures NoTicks(s)
  {
    var d := TakeDigits(s);
    forall c | c in d
      ensures c != '`'
    {
      assert IsDigit(c);
    }
    assert s == d + s[|d|..];
  }

  /** Accepted dice notation contains no backtick. */
  lemma NotationHasNoTicks(s: string)
    requires N.Parse(s).Some?
    ensures NoTicks(s)
  {
    hide SkipSpaces, TakeDigits, ParseNat, IsSpace, IsDigit, N.ParseDie;
    var t := SkipSpaces(s);
    var digits := TakeDigits(t);
    DieHasNoTicks(if digits == "" then 1 else ParseNat(digits), t[|digits|..]);
    DigitsThenNoTicks(t);
    SkippedHasNoTicks(s);
  }

  lemma DieHasNoTicks(quantity: nat, s: string)
    requires N.ParseDie(quantity, s).Some?
    ensures NoTicks(s)
  {
    hide SkipSpaces, N.ParseSides;
    var t := SkipSpaces(s);
    SidesHaveNoTicks(quantity, t[1..]);
    assert t == [t[0]] + t[1..];
    SkippedHasNoTicks(s);
  }

  lemma SidesHaveNoTicks(quantity: nat, s: string)
    requires N.ParseSides(quantity, s).Some?
    ensures NoTicks(s)
  {
    hide SkipSpaces, TakeDigits, ParseNat, IsSpace, IsDigit;
    var t := SkipSpaces(s);
    ModifierHasNoTicks(t[|TakeDigits(t)|..]);
    DigitsThenNoTicks(t);
    SkippedHasNoTicks(s);
  }

  lemma MagnitudeHasNoTicks(s: string)
    requires N.ParseMagnitude(s).Some?
    ensures NoTicks(s)
  {
    hide SkipSpaces, TakeDigits, ParseNat;
    SkippedHasNoTicks(s[|TakeDigits(s)|..]);
    DigitsThenNoTicks(s);
  }

  lemma ModifierHasNoTicks(s: string)
    requires N.ParseModifier(s).Some?
    ensures NoTicks(s)
  {
    hide SkipSpaces, NoTicks, N.ParseMagnitude;
    var t := SkipSpaces(s);
    assert NoTicks(t) by {
      if t == "" {
        PlainSign("");
      } else {
        MagnitudeHasNoTicks(SkipSpaces(t[1..]));
        SkippedHasNoTicks(t[1..]);
        PlainSign([t[0]]);
        NoTicksJoin([t[0]], t[1..]);
        assert t == [t[0]] + t[1..];
      }
    }
    SkippedHasNoTicks(s);
  }

  lemma PlainSign(s: string)
    requires s == "" || s == "+" || s == "-"
    ensures NoTicks(s)
  {
  }

  /** The parts of a well-formed marker. */
  lemma ReadMarkerParts(s: string) returns (head: string, id: string, body: string)
    requires StartsMarker(s) && ReadMarker(s).Some?
    ensures var m := ReadMarker(s).value;
            m.raw == head + id + ":" + body + "]]" && head == s[..|PREFIX|] && IsUuid(id) && m.id == LowerAll(id) &&
            N.Parse(body) == Some(m.notation)
    ensures 1 <= |body| <= MAX_NOTATION && forall c | c in body :: c != ']' && c != '\r' && c != '\n'
  {
    hide IsUuid, LowerAll, N.Parse, TakeBody;
    var rest := s[|PREFIX|..];
    head, id, body := s[..|PREFIX|], rest[..UUID_LENGTH], TakeBody(rest[UUID_LENGTH + 1..]);
    var tail := rest[UUID_LENGTH + 1 + |body|..];
    assert tail[..2] == "]]";
    assert rest[UUID_LENGTH + 1..] == body + tail;
    assert s == head + id + ":" + body + tail;
    assert (head + id + ":" + body + tail)[..|PREFIX| + UUID_LENGTH + 1 + |body| + 2] == head + id + ":" + body + tail[..2];
  }

  lemma HeadHasNoTicks(s: string)
    requires StartsMarker(s)
    ensures NoTicks(s[..|PREFIX|])
  {
    MarkerHead(s);
    forall c | c in s[..|PREFIX|]
      ensures c != '`'
    {
      var i :| 0 <= i < |PREFIX| && s[i] == c;
      assert Lower(s[i]) == PREFIX[i] && Lower('`') == '`';
    }
  }

  lemma UuidFacts(id: string)
    requires IsUuid(id)
    ensures |id| == UUID_LENGTH && NoTicks(id) && IsUuid(LowerAll(id)) && LowerAll(LowerAll(id)) == LowerAll(id)
  {
    var low := LowerAll(id);
    forall c: char
      ensures Lower(Lower(c)) == Lower(c) && (IsHex(c) ==> IsHex(Lower(c)))
    {
    }
    assert low[8] == '-' && low[13] == '-' && low[18] == '-' && low[23] == '-' && low[14] == '4';
  }

  lemma ReadMarkerFacts(s: string)
    requires StartsMarker(s) && ReadMarker(s).Some?
    ensures var m := ReadMarker(s).value;
            m.raw != "" && NoTicks(m.raw) && IsUuid(m.id) && LowerAll(m.id) == m.id && N.InRange(m.notation)
  {
    hide ReadMarker, StartsMarker, IsUuid, LowerAll, N.Parse;
    var head, id, body := ReadMarkerParts(s);
    HeadHasNoTicks(s);
    UuidFacts(id);
    NotationHasNoTicks(body);
  }

  lemma SerializeHasNoTicks(m: Marker)
    requires IsUuid(m.id) && N.InRange(m.notation)
    ensures NoTicks(Serialize(m.id, m.notation)) && Serialize(m.id, m.notation) != ""
  {
    UuidFacts(m.id);
    N.PrintFits(m.notation);
    assert NoTicks(PREFIX);
    assert NoTicks(N.Print(m.notation));
  }

  lemma {:induction false} ContentRuns(s: string)
    requires ScanLine(s).Some?
    ensures SameRuns(Content(ScanLine(s).value), s)
    decreases |s|, 1
  {
    hide SameRuns, StartsMarker, ReadMarker, CodeSpan, Serialize;
    if s == "" {
      EmptyRuns();
    } else if s[0] == '\\' {
      TextStepRuns(s, if |s| < 2 then |s| else 2);
    } else if s[0] == '`' && CodeSpan(s).Some? {
      TextStepRuns(s, CodeSpan(s).value);
    } else if StartsMarker(s) {
      var m := ReadMarker(s).value;
      var rest := s[|m.raw|..];
      ContentRuns(rest);
      ReadMarkerFacts(s);
      SerializeHasNoTicks(m);
      SameRunsMarkers(Serialize(m.id, m.notation), m.raw, Content(ScanLine(rest).value), rest);
      assert m.raw + rest == s;
    } else {
      assert s[..1] == [s[0]];
      TextStepRuns(s, 1);
    }
  }

  lemma EmptyRuns()
    ensures SameRuns("", "")
  {
  }

  lemma {:induction false} TextStepRuns(s: string, n: nat)
    requires 0 < n <= |s| && ScanLine(s[n..]).Some?
    ensures SameRuns(s[..n] + Content(ScanLine(s[n..]).value), s)
    decreases |s|, 0
  {
    ContentRuns(s[n..]);
    SameRunsAppend(s[..n], Content(ScanLine(s[n..]).value), s[n..]);
    assert s[..n] + s[n..] == s;
  }

  /** Two texts start with the same run of backticks, and what follows it has equally long runs. */
  ghost predicate SameStart(c: string, s: string) {
    RunLength(c) == RunLength(s) && Longest(c[RunLength(c)..], 0) == Longest(s[RunLength(s)..], 0)
  }

  lemma {:induction false} RunLengthAppend(x: string, y: string)
    requires RunLength(x) < |x|
    ensures RunLength(x + y) == RunLength(x)
    decreases |x|
  {
    assert (x + y)[0] == x[0] && (x + y)[1..] == x[1..] + y;
    if x[0] == '`' { RunLengthAppend(x[1..], y); }
  }

  lemma EqualRuns(c: string, s: string)
    requires SameRuns(c, s)
    ensures Longest(c, 0) == Longest(s, 0)
  {
  }

  lemma SameStartAt(c: string, s: string, n: nat)
    requires RunLength(c) == n && RunLength(s) == n && Longest(c[n..], 0) == Longest(s[n..], 0)
    ensures SameStart(c, s)
  {
  }

  lemma SameStartAppend(x: string, c: string, s: string)
    requires RunLength(x) < |x| && SameRuns(c, s)
    ensures SameStart(x + c, x + s)
  {
    hide RunLength, Longest, SameRuns, SameStart;
    var n := RunLength(x);
    var xc, xs := x + c, x + s;
    assert xc[n..] == x[n..] + c && xs[n..] == x[n..] + s;
    RunLengthAppend(x, c);
    RunLengthAppend(x, s);
    SameRunsAppend(x[n..], c, s);
    EqualRuns(xc[n..], xs[n..]);
    SameStartAt(xc, xs, n);
  }

  lemma SameStartPlain(c: string, s: string)
    requires SameRuns(c, s) && (c == "" || c[0] != '`') && (s == "" || s[0] != '`')
    ensures SameStart(c, s)
  {
    assert c[0..] == c && s[0..] == s;
  }

  lemma SameStartTick(c: string, s: string)
    requires SameStart(c, s)
    ensures SameStart("`" + c, "`" + s)
  {
    var c', s' := "`" + c, "`" + s;
    assert c'[1..] == c && s'[1..] == s;
    assert c'[RunLength(c')..] == c[RunLength(c)..] && s'[RunLength(s')..] == s[RunLength(s)..];
  }

  lemma {:induction false} ContentStart(s: string)
    requires ScanLine(s).Some?
    ensures SameStart(Content(ScanLine(s).value), s)
    decreases |s|
  {
    hide SameStart, SameRuns, Alike, Serialize, ReadMarker, RunLength, FindTicks, StartsMarker;
    var c := Content(ScanLine(s).value);
    if s == "" || s[0] != '`' {
      ContentRuns(s);
      ContentAlike(s);
      AlikeTick(c, s);
      SameStartPlain(c, s);
    } else if CodeSpan(s).Some? {
      var n := CodeSpan(s).value;
      ContentRuns(s[n..]);
      SpanPrefix(s);
      SameStartAppend(s[..n], Content(ScanLine(s[n..]).value), s[n..]);
      assert s[..n] + s[n..] == s;
    } else {
      TickStartsNoMarker(s);
      assert ScanLine(s) == Prepend(Piece.Text([s[0]]), ScanLine(s[1..]));
      ContentStart(s[1..]);
      SameStartTick(Content(ScanLine(s[1..]).value), s[1..]);
      assert "`" + s[1..] == s && [s[0]] == "`";
    }
  }

  lemma TickStartsNoMarker(s: string)
    requires s != "" && s[0] == '`'
    ensures !StartsMarker(s)
  {
    if StartsMarker(s) { MarkerHead(s); }
  }

  lemma AlikeTick(c: string, s: string)
    requires Alike(c, s) && (s == "" || s[0] != '`')
    ensures c == "" || c[0] != '`'
  {
    if |s| >= |PREFIX| { assert Lower(c[0]) == Lower(s[0]); }
  }

  /** A code span reaches beyond the run that opens it. */
  lemma SpanPrefix(s: string)
    requires s != "" && s[0] == '`' && CodeSpan(s).Some?
    ensures var n := CodeSpan(s).value; RunLength(s[..n]) == RunLength(s) < n
  {
    RunLengthPrefix(s, CodeSpan(s).value);
  }

  lemma {:induction false} RunLengthPrefix(s: string, n: nat)
    requires RunLength(s) < n <= |s|
    ensures RunLength(s[..n]) == RunLength(s)
    decreases |s|
  {
    if s[0] == '`' {
      RunLengthPrefix(s[1..], n - 1);
      assert s[..n][1..] == s[1..][..n - 1];
    }
  }

  // ----- Scanning the rewritten line

  lemma RunsAgree(p: string, y: string, z: string, n: nat)
    requires n <= |p| && RunLength(p + y) >= n
    ensures RunLength(p + z) >= n
  {
    assert forall i | 0 <= i < n :: (p + z)[i] == p[i] && (p + y)[i] == p[i];
    RunAtLeast(p + z, n);
  }

  /** A code span is found again when the text after it changes. */
  lemma {:induction false} FindTicksPrefix(p: string, y: string, z: string, n: nat)
    requires n > 0 && n <= |p| && FindTicks(p + y, n) == Some(|p| - n)
    ensures FindTicks(p + z, n) == Some(|p| - n)
    decreases |p|
  {
    var s, t := p + y, p + z;
    if |p| == n {
      RunsAgree(p, y, z, n);
    } else {
      if RunLength(t) >= n { RunsAgree(p, z, y, n); }
      assert s[0] == p[0] && t[0] == p[0] && s[1..] == p[1..] + y && t[1..] == p[1..] + z;
      FindTicksPrefix(p[1..], y, z, n);
    }
  }

  lemma {:induction false} RunAtLeast(s: string, n: nat)
    requires n <= |s| && forall i | 0 <= i < n :: s[i] == '`'
    ensures RunLength(s) >= n
  {
    if n > 0 { RunAtLeast(s[1..], n - 1); }
  }

  lemma CodeSpanPrefix(x: string, y: string, z: string)
    requires x != "" && x[0] == '`' && CodeSpan(x + y) == Some(|x|)
    ensures CodeSpan(x + z) == Some(|x|)
  {
    hide RunLength, FindTicks;
    JoinHead(x, y);
    JoinHead(x, z);
    JoinParts(x, y);
    var n := RunLength(x + y);
    SpanPrefix(x + y);
    assert RunLength(x) == n < |x|;
    RunLengthAppend(x, z);
    assert (x + y)[n..] == x[n..] + y && (x + z)[n..] == x[n..] + z;
    SpanTicks(x + y, n);
    FindTicksPrefix(x[n..], y, z, n);
  }

  lemma SpanTicks(s: string, n: nat)
    requires s != "" && s[0] == '`' && n == RunLength(s) && CodeSpan(s).Some?
    ensures n > 0 && FindTicks(s[n..], n) == Some(CodeSpan(s).value - n - n)
  {
    hide FindTicks;
  }

  /** An unclosed run stays unclosed when the markers after it are rewritten. */
  lemma NoSpanKept(c: string, s: string)
    requires c != "" && s != "" && c[0] == '`' && s[0] == '`' && SameStart(c, s) && CodeSpan(s).None?
    ensures CodeSpan(c).None?
  {
    var n := RunLength(s);
    FindTicksIffLongest(s[n..], n);
    FindTicksIffLongest(c[n..], n);
  }

  lemma TakeBodyAppend(body: string, rest: string)
    requires forall c | c in body :: c != ']' && c != '\r' && c != '\n'
    ensures TakeBody(body + "]" + rest) == body
    decreases |body|
  {
    var s := body + "]" + rest;
    if body != "" {
      assert forall c | c in body[1..] :: c in body;
      assert s[0] == body[0] && body[0] in body && s[1..] == body[1..] + "]" + rest;
      TakeBodyAppend(body[1..], rest);
    }
  }

  /** A canonical marker is read back as itself. */
  lemma ReadSerialized(m: Marker, rest: string)
    requires IsUuid(m.id) && LowerAll(m.id) == m.id && N.InRange(m.notation)
    ensures var s := Serialize(m.id, m.notation) + rest;
            StartsMarker(s) && ReadMarker(s) == Some(CanonMarker(m))
  {
    hide IsUuid, LowerAll, N.Parse, N.Print, TakeBody, N.InRange, StartsMarker;
    var raw := Serialize(m.id, m.notation);
    var s := raw + rest;
    var body := N.Print(m.notation);
    SerializeHead(m, rest);
    UuidFacts(m.id);
    N.PrintFits(m.notation);
    SignsAreNoBrackets(body);
    N.ParsePrint(m.notation);
    var r := s[|PREFIX|..];
    assert r == m.id + ":" + body + "]]" + rest;
    assert r[UUID_LENGTH + 1..] == body + "]" + ("]" + rest);
    TakeBodyAppend(body, "]" + rest);
    assert r[..UUID_LENGTH] == m.id;
    assert r[UUID_LENGTH + 1 + |body|..] == "]]" + rest;
    assert s[..|raw|] == raw;
  }

  lemma SignsAreNoBrackets(body: string)
    requires forall c | c in body :: IsDigit(c) || c == 'd' || c == '+' || c == '-'
    ensures forall c | c in body :: c != ']' && c != '\r' && c != '\n'
  {
  }

  /** Scanning the rewritten line finds the same pieces, with the markers now canonical. */
  lemma {:induction false} ScanContent(s: string)
    requires ScanLine(s).Some?
    ensures ScanLine(Content(ScanLine(s).value)) == Some(Canon(ScanLine(s).value))
    decreases |s|
  {
    hide StartsMarker, ReadMarker, CodeSpan, Serialize, SameStart, Alike;
    var c := Content(ScanLine(s).value);
    if s == "" {
    } else if s[0] == '\\' {
      var n := if |s| < 2 then |s| else 2;
      ScanContent(s[n..]);
      var rest := Content(ScanLine(s[n..]).value);
      assert c == s[..n] + rest;
      assert c[..n] == s[..n] && c[n..] == rest;
      if |s| < 2 { assert s[n..] == "" && rest == ""; }
    } else if s[0] == '`' && CodeSpan(s).Some? {
      var n := CodeSpan(s).value;
      ScanContent(s[n..]);
      var rest := Content(ScanLine(s[n..]).value);
      assert c == s[..n] + rest && s == s[..n] + s[n..];
      CodeSpanPrefix(s[..n], s[n..], rest);
      assert c[..n] == s[..n] && c[n..] == rest;
    } else if StartsMarker(s) {
      var m := ReadMarker(s).value;
      ScanContent(s[|m.raw|..]);
      var rest := Content(ScanLine(s[|m.raw|..]).value);
      ReadMarkerFacts(s);
      ReadSerialized(m, rest);
      ScanMarker(Serialize(m.id, m.notation), rest, CanonMarker(m));
    } else {
      ScanContent(s[1..]);
      var rest := Content(ScanLine(s[1..]).value);
      assert c == [s[0]] + rest && c[1..] == rest;
      ContentAlike(s);
      AlikeMarkers(c, s);
      if s[0] == '`' {
        ContentStart(s);
        NoSpanKept(c, s);
      }
    }
  }

  lemma ScanMarker(raw: string, rest: string, m: Marker)
    requires StartsMarker(raw + rest) && ReadMarker(raw + rest) == Some(m) && m.raw == raw
    ensures ScanLine(raw + rest) == Prepend(Node(m), ScanLine(rest))
  {
    hide CodeSpan, ReadMarker, StartsMarker;
    MarkerHead(raw + rest);
    assert (raw + rest)[|raw|..] == rest;
  }
}
