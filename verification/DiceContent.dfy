/** Dice markers in a whole text: fenced code blocks, the parsing method, and what its result means. */
module DiceContent {
  import opened Options
  import opened Sequences
  import opened Text
  import opened DiceScanner
  import opened DiceRewriting
  import N = DiceNotation

  const MAX_DICE_ROLLS_PER_POST := 20

  // ----- Fences

  datatype Fence = Fence(marker: char, length: nat)

  function CharRun(s: string, c: char): (n: nat)
    ensures n <= |s|
  {
    if s != "" && s[0] == c then 1 + CharRun(s[1..], c) else 0
  }

  /** Up to three spaces, then three or more backticks or tildes. */
  function FenceToken(line: string): (r: Option<Fence>)
    ensures r.Some? ==> CharRun(line, ' ') + r.value.length <= |line|
  {
    var n := CharRun(line, ' ');
    if n > 3 || n == |line| || (line[n] != '`' && line[n] != '~') || CharRun(line[n..], line[n]) < 3 then None
    else Some(Fence(line[n], CharRun(line[n..], line[n])))
  }

  predicate Blank(s: string) {
    forall c | c in s :: c == '\t' || c == ' '
  }

  predicate Closes(fence: Fence, line: string) {
    match FenceToken(line)
    case None => false
    case Some(t) =>
      t.marker == fence.marker && t.length >= fence.length && Blank(line[CharRun(line, ' ') + t.length..])
  }

  /** The fence in force after a line. */
  function NextFence(fence: Option<Fence>, line: string): Option<Fence> {
    match fence
    case Some(f) => if Closes(f, line) then None else fence
    case None => FenceToken(line)
  }

  /** Fence lines and the lines between them are kept verbatim; the others are scanned. */
  function ScanOne(fence: Option<Fence>, line: string): Option<seq<Piece>> {
    if fence.Some? || FenceToken(line).Some? then Some([Piece.Text(line)]) else ScanLine(line)
  }

  function ScanLines(lines: seq<string>, fence: Option<Fence>): (r: Option<seq<seq<Piece>>>)
    ensures r.Some? ==> |r.value| == |lines|
  {
    if lines == [] then Some([])
    else
      var first := ScanOne(fence, lines[0]);
      var rest := ScanLines(lines[1..], NextFence(fence, lines[0]));
      if first.None? || rest.None? then None else Some([first.value] + rest.value)
  }

  // ----- The result

  datatype DiceNode = DiceNode(id: string, notation: N.Notation)

  datatype ParsedContent = ParsedContent(content: string, contentWithoutDice: string, nodes: seq<DiceNode>)

  datatype Error = InvalidNotation | RollLimitExceeded

  function ToNode(m: Marker): DiceNode { DiceNode(m.id, m.notation) }

  function ToNodes(ms: seq<Marker>): (r: seq<DiceNode>)
    ensures |r| == |ms| && forall i | 0 <= i < |ms| :: r[i] == ToNode(ms[i])
  {
    if ms == [] then [] else [ToNode(ms[0])] + ToNodes(ms[1..])
  }

  predicate DistinctIds(nodes: seq<DiceNode>) {
    forall i, j | 0 <= i < j < |nodes| :: nodes[i].id != nodes[j].id
  }

  function Contents(pss: seq<seq<Piece>>): (r: seq<string>)
    ensures |r| == |pss| && forall i | 0 <= i < |pss| :: r[i] == Content(pss[i])
  {
    if pss == [] then [] else [Content(pss[0])] + Contents(pss[1..])
  }

  function Withouts(pss: seq<seq<Piece>>): (r: seq<string>)
    ensures |r| == |pss|
  {
    if pss == [] then [] else [WithoutNodes(pss[0])] + Withouts(pss[1..])
  }

  function AllNodes(pss: seq<seq<Piece>>): seq<DiceNode> {
    if pss == [] then [] else ToNodes(Nodes(pss[0])) + AllNodes(pss[1..])
  }

  function Canons(pss: seq<seq<Piece>>): (r: seq<seq<Piece>>)
    ensures |r| == |pss|
  {
    if pss == [] then [] else [Canon(pss[0])] + Canons(pss[1..])
  }

  function Finish(scan: Option<seq<seq<Piece>>>): Result<ParsedContent, Error>
    requires scan.Some? ==> scan.value != []
  {
    match scan
    case None => Err(InvalidNotation)
    case Some(pss) =>
      var nodes := AllNodes(pss);
      if !DistinctIds(nodes) then Err(InvalidNotation)
      else if |nodes| > MAX_DICE_ROLLS_PER_POST then Err(RollLimitExceeded)
      else Ok(ParsedContent(Join(Contents(pss)), Join(Withouts(pss)), nodes))
  }

  function ContentOf(markdown: string): (r: Result<ParsedContent, Error>)
    ensures r.Ok? ==> |r.value.nodes| <= MAX_DICE_ROLLS_PER_POST && DistinctIds(r.value.nodes)
  {
    Finish(ScanLines(Split(markdown), None))
  }

  // ----- Canonical text parses to itself

  lemma {:induction false} CanonSameParts(ps: seq<Piece>)
    ensures Content(Canon(ps)) == Content(ps) && WithoutNodes(Canon(ps)) == WithoutNodes(ps)
    ensures ToNodes(Nodes(Canon(ps))) == ToNodes(Nodes(ps))
  {
    hide Serialize;
    if ps != [] {
      CanonSameParts(ps[1..]);
      var c := Canon(ps);
      assert c[0] == CanonPiece(ps[0]) && c[1..] == Canon(ps[1..]);
      if ps[0].Node? {
        assert Nodes(c)[0] == CanonMarker(ps[0].marker) && Nodes(c)[1..] == Nodes(c[1..]);
        assert Nodes(ps)[1..] == Nodes(ps[1..]);
      }
    }
  }

  lemma {:induction false} CanonsSameParts(pss: seq<seq<Piece>>)
    ensures Contents(Canons(pss)) == Contents(pss) && Withouts(Canons(pss)) == Withouts(pss)
    ensures AllNodes(Canons(pss)) == AllNodes(pss)
  {
    if pss != [] {
      CanonSameParts(pss[0]);
      CanonsSameParts(pss[1..]);
      assert Canons(pss)[1..] == Canons(pss[1..]);
    }
  }

  lemma {:induction false} CharRunAt(s: string, c: char, i: nat)
    requires i < CharRun(s, c)
    ensures s[i] == c
  {
    if i > 0 { CharRunAt(s[1..], c, i - 1); }
  }

  lemma {:induction false} CharRunAtLeast(s: string, c: char, n: nat)
    requires n <= |s| && forall i | 0 <= i < n :: s[i] == c
    ensures CharRun(s, c) >= n && (n < |s| && s[n] != c ==> CharRun(s, c) == n)
  {
    if n > 0 { CharRunAtLeast(s[1..], c, n - 1); }
  }

  /** Where a fence token starts: at most three spaces, then three equal fence characters. */
  ghost predicate TokenAt(s: string, i: nat) {
    i <= 3 && i + 3 <= |s| && (forall k | 0 <= k < i :: s[k] == ' ') &&
    (s[i] == '`' || s[i] == '~') && s[i + 1] == s[i] && s[i + 2] == s[i]
  }

  lemma FenceTokenIff(s: string)
    ensures FenceToken(s).Some? <==> exists i: nat :: TokenAt(s, i)
  {
    if FenceToken(s).Some? {
      var n := CharRun(s, ' ');
      forall k | 0 <= k < n
        ensures s[k] == ' '
      {
        CharRunAt(s, ' ', k);
      }
      CharRunAt(s[n..], s[n], 1);
      CharRunAt(s[n..], s[n], 2);
      assert TokenAt(s, n);
    }
    if i: nat :| TokenAt(s, i) {
      CharRunAtLeast(s, ' ', i);
      assert forall k | 0 <= k < 3 :: s[i..][k] == s[i];
      CharRunAtLeast(s[i..], s[i], 3);
    }
  }

  lemma TokensKept(c: string, s: string)
    requires Alike(c, s)
    ensures forall i: nat | TokenAt(c, i) :: TokenAt(s, i)
  {
    forall i: nat | TokenAt(c, i)
      ensures TokenAt(s, i)
    {
      if |s| >= |PREFIX| {
        assert forall k | 0 <= k < |PREFIX| :: Lower(c[k]) == Lower(s[k]);
      }
    }
  }

  /** Rewriting the markers of a line does not make it a fence line. */
  lemma FenceTokenKept(c: string, s: string)
    requires Alike(c, s) && FenceToken(s).None?
    ensures FenceToken(c).None?
  {
    hide FenceToken, TokenAt;
    TokensKept(c, s);
    FenceTokenIff(s);
    FenceTokenIff(c);
  }

  lemma ScanOneContent(fence: Option<Fence>, line: string)
    requires ScanOne(fence, line).Some?
    ensures var c := Content(ScanOne(fence, line).value);
            ScanOne(fence, c) == Some(Canon(ScanOne(fence, line).value)) && NextFence(fence, c) == NextFence(fence, line)
  {
    hide ScanLine, Alike, FenceToken;
    if fence.Some? || FenceToken(line).Some? {
      assert Content([Piece.Text(line)]) == line + "" == line;
      assert Canon([Piece.Text(line)]) == [Piece.Text(line)];
    } else {
      ScanContent(line);
      ContentAlike(line);
      FenceTokenKept(Content(ScanLine(line).value), line);
    }
  }

  lemma {:induction false} ScanLinesContent(lines: seq<string>, fence: Option<Fence>)
    requires ScanLines(lines, fence).Some?
    ensures ScanLines(Contents(ScanLines(lines, fence).value), fence) == Some(Canons(ScanLines(lines, fence).value))
  {
    hide ScanOne, NextFence;
    if lines != [] {
      var pss := ScanLines(lines, fence).value;
      ScanOneContent(fence, lines[0]);
      ScanLinesContent(lines[1..], NextFence(fence, lines[0]));
      assert pss[1..] == ScanLines(lines[1..], NextFence(fence, lines[0])).value;
      assert Contents(pss)[1..] == Contents(pss[1..]);
    }
  }

  predicate NoNewline(s: string) {
    forall c | c in s :: c != '\n'
  }

  lemma NoNewlinePart(s: string, n: nat)
    requires NoNewline(s) && n <= |s|
    ensures NoNewline(s[..n]) && NoNewline(s[n..])
  {
    assert forall c | c in s[..n] :: c in s;
    assert forall c | c in s[n..] :: c in s;
  }

  lemma SerializeNoNewline(m: Marker)
    requires IsUuid(m.id) && N.InRange(m.notation)
    ensures NoNewline(Serialize(m.id, m.notation))
  {
    N.PrintFits(m.notation);
    assert NoNewline(N.Print(m.notation));
    assert NoNewline(m.id);
    assert NoNewline(PREFIX);
  }

  lemma JoinNoNewline(x: string, y: string)
    requires NoNewline(x) && NoNewline(y)
    ensures NoNewline(x + y)
  {
  }

  lemma {:induction false} ContentNoNewline(s: string)
    requires NoNewline(s) && ScanLine(s).Some?
    ensures NoNewline(Content(ScanLine(s).value))
    decreases |s|
  {
    hide StartsMarker, ReadMarker, CodeSpan, Serialize, NoNewline;
    if s == "" {
      assert NoNewline("") by { NoLine(); }
    } else if s[0] != '\\' && !(s[0] == '`' && CodeSpan(s).Some?) && StartsMarker(s) {
      var m := ReadMarker(s).value;
      NoNewlinePart(s, |m.raw|);
      ContentNoNewline(s[|m.raw|..]);
      ReadMarkerFacts(s);
      SerializeNoNewline(m);
      JoinNoNewline(Serialize(m.id, m.notation), Content(ScanLine(s[|m.raw|..]).value));
    } else {
      var n := if s[0] == '\\' then (if |s| < 2 then |s| else 2)
        else if s[0] == '`' && CodeSpan(s).Some? then CodeSpan(s).value else 1;
      NoNewlinePart(s, n);
      ContentNoNewline(s[n..]);
      assert s[..1] == [s[0]];
      JoinNoNewline(s[..n], Content(ScanLine(s[n..]).value));
    }
  }

  lemma NoLine()
    ensures NoNewline("")
  {
  }

  lemma {:induction false} ContentsNoNewline(lines: seq<string>, fence: Option<Fence>)
    requires ScanLines(lines, fence).Some? && forall l | l in lines :: '\n' !in l
    ensures forall l | l in Contents(ScanLines(lines, fence).value) :: '\n' !in l
  {
    if lines != [] {
      var pss := ScanLines(lines, fence).value;
      ContentsNoNewline(lines[1..], NextFence(fence, lines[0]));
      assert pss[1..] == ScanLines(lines[1..], NextFence(fence, lines[0])).value;
      assert Contents(pss)[1..] == Contents(pss[1..]);
      if fence.Some? || FenceToken(lines[0]).Some? {
        assert Content([Piece.Text(lines[0])]) == lines[0] + "" == lines[0];
      } else {
        ContentNoNewline(lines[0]);
      }
    }
  }

  /** Parsing is idempotent: the canonical content is accepted and gives the same content and the same nodes. */
  lemma ParseContentIdempotent(markdown: string)
    requires ContentOf(markdown).Ok?
    ensures ContentOf(ContentOf(markdown).value.content) == ContentOf(markdown)
  {
    hide ScanLine, FenceToken, NextFence;
    var lines := Split(markdown);
    var pss := ScanLines(lines, None).value;
    ContentsNoNewline(lines, None);
    SplitJoin(Contents(pss));
    ScanLinesContent(lines, None);
    CanonsSameParts(pss);
  }

  // ----- The text around the markers

  lemma {:induction false} NoNodesContent(ps: seq<Piece>)
    requires Nodes(ps) == []
    ensures Content(ps) == Raw(ps) && WithoutNodes(ps) == Raw(ps)
  {
    if ps != [] {
      assert ps[0].Text?;
      NoNodesContent(ps[1..]);
    }
  }

  lemma {:induction false} NoNodesLines(lines: seq<string>, fence: Option<Fence>)
    requires ScanLines(lines, fence).Some? && AllNodes(ScanLines(lines, fence).value) == []
    ensures Contents(ScanLines(lines, fence).value) == lines && Withouts(ScanLines(lines, fence).value) == lines
  {
    hide ScanLine;
    if lines != [] {
      var pss := ScanLines(lines, fence).value;
      assert pss[1..] == ScanLines(lines[1..], NextFence(fence, lines[0])).value;
      assert ToNodes(Nodes(pss[0])) == [] && Nodes(pss[0]) == [];
      NoNodesLines(lines[1..], NextFence(fence, lines[0]));
      NoNodesContent(pss[0]);
      if fence.Some? || FenceToken(lines[0]).Some? {
        assert Raw([Piece.Text(lines[0])]) == lines[0] + "" == lines[0];
      } else {
        ScanKeepsText(lines[0]);
      }
    }
  }

  /** Text without dice is returned as it was. */
  lemma NoNodesUnchanged(markdown: string)
    requires ContentOf(markdown).Ok? && ContentOf(markdown).value.nodes == []
    ensures ContentOf(markdown).value == ParsedContent(markdown, markdown, [])
  {
    NoNodesLines(Split(markdown), None);
    JoinSplit(markdown);
  }

  /** `texts[0] + marks[0] + texts[1] + ... + texts[|marks|]`. */
  function Weave(texts: seq<string>, marks: seq<string>): string
    requires |texts| == |marks| + 1
  {
    if marks == [] then texts[0] else texts[0] + marks[0] + Weave(texts[1..], marks[1..])
  }

  function Concat(texts: seq<string>): string {
    if texts == [] then "" else texts[0] + Concat(texts[1..])
  }

  function RawMarks(ms: seq<Marker>): (r: seq<string>)
    ensures |r| == |ms| && forall i | 0 <= i < |ms| :: r[i] == ms[i].raw
  {
    if ms == [] then [] else [ms[0].raw] + RawMarks(ms[1..])
  }

  function NodeMarks(nodes: seq<DiceNode>): (r: seq<string>)
    ensures |r| == |nodes| && forall i | 0 <= i < |nodes| :: r[i] == Serialize(nodes[i].id, nodes[i].notation)
  {
    if nodes == [] then [] else [Serialize(nodes[0].id, nodes[0].notation)] + NodeMarks(nodes[1..])
  }

  /** The texts between the markers. */
  function Texts(ps: seq<Piece>): (r: seq<string>)
    ensures |r| == |Nodes(ps)| + 1
  {
    if ps == [] then [""]
    else
      var rest := Texts(ps[1..]);
      if ps[0].Text? then [ps[0].text + rest[0]] + rest[1..] else [""] + rest
  }

  lemma WeaveFirst(x: string, texts: seq<string>, marks: seq<string>)
    requires |texts| == |marks| + 1
    ensures Weave([x + texts[0]] + texts[1..], marks) == x + Weave(texts, marks)
  {
    var t := [x + texts[0]] + texts[1..];
    assert t[1..] == texts[1..];
  }

  lemma ConcatFirst(x: string, texts: seq<string>)
    requires texts != []
    ensures Concat([x + texts[0]] + texts[1..]) == x + Concat(texts)
  {
    var t := [x + texts[0]] + texts[1..];
    assert t[1..] == texts[1..];
  }

  lemma TextWeave(text: string, ps: seq<Piece>)
    ensures Texts([Piece.Text(text)] + ps) == [text + Texts(ps)[0]] + Texts(ps)[1..]
    ensures Nodes([Piece.Text(text)] + ps) == Nodes(ps)
  {
    var all := [Piece.Text(text)] + ps;
    assert all[1..] == ps;
    assert [] + Nodes(ps) == Nodes(ps);
  }

  lemma NodeWeave(m: Marker, ps: seq<Piece>)
    ensures Texts([Piece.Node(m)] + ps) == [""] + Texts(ps)
    ensures Nodes([Piece.Node(m)] + ps) == [m] + Nodes(ps)
    ensures RawMarks([m] + Nodes(ps)) == [m.raw] + RawMarks(Nodes(ps))
    ensures NodeMarks(ToNodes([m] + Nodes(ps))) == [Serialize(m.id, m.notation)] + NodeMarks(ToNodes(Nodes(ps)))
  {
    hide Serialize;
    var all := [Piece.Node(m)] + ps;
    assert all[1..] == ps;
    var ms := [m] + Nodes(ps);
    assert ms[1..] == Nodes(ps);
    assert ToNodes(ms)[1..] == ToNodes(ms[1..]);
  }

  /** What a sequence of pieces was written as, what it becomes, and what is left without its nodes. */
  lemma {:induction false} PiecesWeave(ps: seq<Piece>)
    ensures Content(ps) == Weave(Texts(ps), NodeMarks(ToNodes(Nodes(ps))))
    ensures Raw(ps) == Weave(Texts(ps), RawMarks(Nodes(ps)))
    ensures WithoutNodes(ps) == Concat(Texts(ps))
  {
    hide Serialize, Texts, Nodes, RawMarks, NodeMarks, ToNodes;
    if ps == [] {
      assert Nodes(ps) == [] && Texts(ps) == [""] by { NoPieces(); }
    } else {
      PiecesWeave(ps[1..]);
      assert ps == [ps[0]] + ps[1..];
      match ps[0]
      case Text(text) =>
        TextWeave(text, ps[1..]);
        WeaveFirst(text, Texts(ps[1..]), NodeMarks(ToNodes(Nodes(ps[1..]))));
        WeaveFirst(text, Texts(ps[1..]), RawMarks(Nodes(ps[1..])));
        ConcatFirst(text, Texts(ps[1..]));
      case Node(m) =>
        NodeWeave(m, ps[1..]);
        NodeStep(Serialize(m.id, m.notation), Texts(ps[1..]), NodeMarks(ToNodes(Nodes(ps[1..]))));
        NodeStep(m.raw, Texts(ps[1..]), RawMarks(Nodes(ps[1..])));
    }
  }

  lemma NoPieces()
    ensures Nodes([]) == [] && Texts([]) == [""]
  {
  }

  lemma NodeStep(mark: string, texts: seq<string>, marks: seq<string>)
    requires |texts| == |marks| + 1
    ensures Weave([""] + texts, [mark] + marks) == mark + Weave(texts, marks)
    ensures Concat([""] + texts) == Concat(texts)
  {
    WeaveHead("", texts, mark, marks);
    JoinEmpty(mark);
    ConcatHead("", texts);
    JoinEmpty(Concat(texts));
  }

  lemma WeaveHead(text: string, texts: seq<string>, mark: string, marks: seq<string>)
    requires |texts| == |marks| + 1
    ensures Weave([text] + texts, [mark] + marks) == text + mark + Weave(texts, marks)
  {
    JoinHead([text], texts);
    JoinHead([mark], marks);
    JoinEmpty(texts);
    JoinEmpty(marks);
  }

  lemma ConcatHead(text: string, texts: seq<string>)
    ensures Concat([text] + texts) == text + Concat(texts)
  {
    JoinHead([text], texts);
    JoinEmpty(texts);
  }
}
