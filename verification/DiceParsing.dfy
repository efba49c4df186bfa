/** The parser itself, and what its result is in terms of the text around the markers. */
module DiceParsing {
  import opened Options
  import opened Sequences
  import opened Text
  import opened DiceScanner
  import opened DiceRewriting
  import opened DiceContent
  import N = DiceNotation

  // ----- A whole text as one sequence of pieces

  /** The pieces of all lines, with the line breaks between them. */
  function Flat(pss: seq<seq<Piece>>): seq<Piece>
    requires pss != []
  {
    if |pss| == 1 then pss[0] else pss[0] + [Piece.Text("\n")] + Flat(pss[1..])
  }

  lemma {:induction false} ContentAppend(a: seq<Piece>, b: seq<Piece>)
    ensures Content(a + b) == Content(a) + Content(b)
  {
    hide PieceContent;
    if a == [] {
      JoinEmpty(b);
    } else {
      ContentAppend(a[1..], b);
      JoinHead(a, b);
      Associate(PieceContent(a[0]), Content(a[1..]), Content(b));
    }
  }

  lemma {:induction false} WithoutNodesAppend(a: seq<Piece>, b: seq<Piece>)
    ensures WithoutNodes(a + b) == WithoutNodes(a) + WithoutNodes(b)
  {
    hide PieceText;
    if a == [] {
      JoinEmpty(b);
    } else {
      WithoutNodesAppend(a[1..], b);
      JoinHead(a, b);
      Associate(PieceText(a[0]), WithoutNodes(a[1..]), WithoutNodes(b));
    }
  }

  lemma {:induction false} RawAppend(a: seq<Piece>, b: seq<Piece>)
    ensures Raw(a + b) == Raw(a) + Raw(b)
  {
    hide PieceRaw;
    if a == [] {
      JoinEmpty(b);
    } else {
      RawAppend(a[1..], b);
      JoinHead(a, b);
      Associate(PieceRaw(a[0]), Raw(a[1..]), Raw(b));
    }
  }

  lemma {:induction false} NodesAppend(a: seq<Piece>, b: seq<Piece>)
    ensures Nodes(a + b) == Nodes(a) + Nodes(b)
  {
    hide PieceMarkers;
    if a == [] {
      JoinEmpty(b);
    } else {
      NodesAppend(a[1..], b);
      JoinHead(a, b);
      Associate(PieceMarkers(a[0]), Nodes(a[1..]), Nodes(b));
    }
  }

  lemma PiecesAppend(a: seq<Piece>, b: seq<Piece>)
    ensures Content(a + b) == Content(a) + Content(b) && WithoutNodes(a + b) == WithoutNodes(a) + WithoutNodes(b)
    ensures Raw(a + b) == Raw(a) + Raw(b) && Nodes(a + b) == Nodes(a) + Nodes(b)
  {
    hide *;
    ContentAppend(a, b);
    WithoutNodesAppend(a, b);
    RawAppend(a, b);
    NodesAppend(a, b);
  }

  lemma {:induction false} ToNodesAppend(a: seq<Marker>, b: seq<Marker>)
    ensures ToNodes(a + b) == ToNodes(a) + ToNodes(b)
  {
  }

  lemma OneText(text: string)
    ensures Content([Piece.Text(text)]) == text && WithoutNodes([Piece.Text(text)]) == text
    ensures Raw([Piece.Text(text)]) == text && Nodes([Piece.Text(text)]) == []
  {
    assert text + "" == text;
  }

  lemma OneNode(m: Marker)
    ensures Content([Piece.Node(m)]) == Serialize(m.id, m.notation) && WithoutNodes([Piece.Node(m)]) == ""
    ensures Raw([Piece.Node(m)]) == m.raw && Nodes([Piece.Node(m)]) == [m]
  {
    hide Serialize;
    assert Serialize(m.id, m.notation) + "" == Serialize(m.id, m.notation) && m.raw + "" == m.raw;
  }

  function Raws(pss: seq<seq<Piece>>): (r: seq<string>)
    ensures |r| == |pss|
  {
    if pss == [] then [] else [Raw(pss[0])] + Raws(pss[1..])
  }

  lemma {:induction false} FlatParts(pss: seq<seq<Piece>>)
    requires pss != []
    ensures Content(Flat(pss)) == Join(Contents(pss)) && WithoutNodes(Flat(pss)) == Join(Withouts(pss))
    ensures Raw(Flat(pss)) == Join(Raws(pss)) && ToNodes(Nodes(Flat(pss))) == AllNodes(pss)
  {
    hide Content, WithoutNodes, Raw, Nodes, ToNodes;
    if |pss| == 1 {
      assert Contents(pss)[1..] == [] && Withouts(pss)[1..] == [] && Raws(pss)[1..] == [];
      assert AllNodes(pss) == ToNodes(Nodes(pss[0])) + [];
    } else {
      FlatParts(pss[1..]);
      PiecesAppend(pss[0], [Piece.Text("\n")]);
      PiecesAppend(pss[0] + [Piece.Text("\n")], Flat(pss[1..]));
      OneText("\n");
      ToNodesAppend(Nodes(pss[0]), Nodes(Flat(pss[1..])));
      assert Nodes(pss[0]) + [] == Nodes(pss[0]);
      assert Contents(pss)[1..] == Contents(pss[1..]) && Withouts(pss)[1..] == Withouts(pss[1..]);
      assert Raws(pss)[1..] == Raws(pss[1..]);
    }
  }

  /** The markers of a text as they were written: each reads as the node in its place. */
  ghost predicate MarkersOf(raws: seq<string>, nodes: seq<DiceNode>) {
    |raws| == |nodes| &&
    forall i | 0 <= i < |raws| :: IsMarker(raws[i], nodes[i])
  }

  ghost predicate IsMarker(raw: string, node: DiceNode) {
    StartsMarker(raw) && ReadMarker(raw) == Some(Marker(node.id, node.notation, raw)) &&
    IsUuid(node.id) && LowerAll(node.id) == node.id && N.InRange(node.notation)
  }

  ghost predicate GoodMarkers(ps: seq<Piece>) {
    forall p | p in ps && p.Node? :: IsMarker(p.marker.raw, ToNode(p.marker))
  }

  lemma RawIsMarker(s: string)
    requires StartsMarker(s) && ReadMarker(s).Some?
    ensures IsMarker(ReadMarker(s).value.raw, ToNode(ReadMarker(s).value))
  {
    hide N.Parse, N.InRange, IsUuid, LowerAll, TakeBody, StartsMarker;
    var m := ReadMarker(s).value;
    ReadMarkerFacts(s);
    RawReads(s);
  }

  /** Where the parts of a marker lie. */
  lemma PartsLie(head: string, id: string, body: string)
    requires |head| == |PREFIX| && |id| == UUID_LENGTH
    ensures var rest := id + (":" + (body + "]]"));
            var raw := head + rest;
            raw[..|PREFIX|] == head && raw[|PREFIX|..] == rest && rest[..UUID_LENGTH] == id && rest[UUID_LENGTH] == ':' &&
            rest[UUID_LENGTH + 1..] == body + "]]" && rest[UUID_LENGTH + 1 + |body|..] == "]]" &&
            |raw| == |PREFIX| + UUID_LENGTH + 1 + |body| + 2
  {
    var tail := body + "]]";
    JoinParts(head, id + (":" + tail));
    JoinParts(id, ":" + tail);
    JoinParts(id + ":", tail);
    Associate(id, ":", tail);
    JoinParts(id + ":" + body, "]]");
    Associate(id + ":", body, "]]");
  }

  /** A marker put together from its parts reads as them. */
  lemma PartsRead(head: string, id: string, body: string, notation: N.Notation)
    requires StartsMarker(head) && |head| == |PREFIX| && IsUuid(id) && N.Parse(body) == Some(notation)
    requires 1 <= |body| <= MAX_NOTATION && forall c | c in body :: c != ']' && c != '\r' && c != '\n'
    ensures var raw := head + (id + (":" + (body + "]]")));
            StartsMarker(raw) && ReadMarker(raw) == Some(Marker(LowerAll(id), notation, raw))
  {
    hide N.Parse, LowerAll, TakeBody, IsUuid;
    var raw := head + (id + (":" + (body + "]]")));
    UuidFacts(id);
    PartsLie(head, id, body);
    TakeBodyAppend(body, "]");
    assert body + "]" + "]" == body + "]]" && head[..|PREFIX|] == head && raw[..|raw|] == raw;
  }

  /** Only the marker itself decides how it reads. */
  lemma RawReads(s: string)
    requires StartsMarker(s) && ReadMarker(s).Some?
    ensures var m := ReadMarker(s).value; StartsMarker(m.raw) && ReadMarker(m.raw) == Some(m)
  {
    hide N.Parse, IsUuid, LowerAll, TakeBody, ReadMarker;
    var m := ReadMarker(s).value;
    var head, id, body := ReadMarkerParts(s);
    assert m.raw == head + (id + (":" + (body + "]]")));
    assert head[..|PREFIX|] == head;
    PartsRead(head, id, body, m.notation);
  }

  lemma {:induction false} ScannedMarkersAreGood(s: string)
    requires ScanLine(s).Some?
    ensures GoodMarkers(ScanLine(s).value)
    decreases |s|
  {
    hide StartsMarker, ReadMarker, CodeSpan, IsMarker;
    if s == "" {
    } else if s[0] != '\\' && !(s[0] == '`' && CodeSpan(s).Some?) && StartsMarker(s) {
      ScannedMarkersAreGood(s[|ReadMarker(s).value.raw|..]);
      RawIsMarker(s);
    } else {
      var n := if s[0] == '\\' then (if |s| < 2 then |s| else 2)
        else if s[0] == '`' && CodeSpan(s).Some? then CodeSpan(s).value else 1;
      ScannedMarkersAreGood(s[n..]);
    }
  }

  lemma {:induction false} ScannedLines(lines: seq<string>, fence: Option<Fence>)
    requires lines != [] && ScanLines(lines, fence).Some?
    ensures Raws(ScanLines(lines, fence).value) == lines && GoodMarkers(Flat(ScanLines(lines, fence).value))
  {
    hide ScanLine, IsMarker, Raw, FenceToken, NextFence;
    var pss := ScanLines(lines, fence).value;
    assert pss[1..] == ScanLines(lines[1..], NextFence(fence, lines[0])).value;
    assert Raw(pss[0]) == lines[0] && GoodMarkers(pss[0]) by {
      if fence.Some? || FenceToken(lines[0]).Some? {
        OneText(lines[0]);
      } else {
        ScanKeepsText(lines[0]);
        ScannedMarkersAreGood(lines[0]);
      }
    }
    if |lines| > 1 {
      ScannedLines(lines[1..], NextFence(fence, lines[0]));
    }
  }

  lemma MarkerAdded(m: Marker, raws: seq<string>, nodes: seq<DiceNode>)
    requires MarkersOf(raws, nodes) && IsMarker(m.raw, ToNode(m))
    ensures MarkersOf([m.raw] + raws, [ToNode(m)] + nodes)
  {
    hide IsMarker;
  }

  lemma {:induction false} NodesOfGoodMarkers(ps: seq<Piece>)
    requires GoodMarkers(ps)
    ensures MarkersOf(RawMarks(Nodes(ps)), ToNodes(Nodes(ps)))
  {
    hide IsMarker, MarkersOf, RawMarks, ToNodes, Texts, NodeMarks;
    if ps == [] {
      NoMarkers();
    } else {
      NodesOfGoodMarkers(ps[1..]);
      HeadAndTail(ps, 1);
      assert ps[..1] == [ps[0]];
      match ps[0]
      case Text(text) => TextWeave(text, ps[1..]);
      case Node(m) =>
        NodeWeave(m, ps[1..]);
        NodesOfMarkers(m, Nodes(ps[1..]));
        MarkerAdded(m, RawMarks(Nodes(ps[1..])), ToNodes(Nodes(ps[1..])));
    }
  }

  lemma NodesOfMarkers(m: Marker, ms: seq<Marker>)
    ensures ToNodes([m] + ms) == [ToNode(m)] + ToNodes(ms)
  {
    JoinHead([m], ms);
    JoinEmpty(ms);
  }

  lemma NoMarkers()
    ensures MarkersOf(RawMarks(Nodes([])), ToNodes(Nodes([])))
  {
  }

  /**
   An accepted text is text woven with markers. The content is the same text woven with the serialized nodes in
   the same order, and the content without dice is that text alone.
   */
  lemma ContentIsWoven(markdown: string) returns (texts: seq<string>, raws: seq<string>)
    requires ContentOf(markdown).Ok?
    ensures var r := ContentOf(markdown).value;
            |texts| == |r.nodes| + 1 && MarkersOf(raws, r.nodes) &&
            markdown == Weave(texts, raws) &&
            r.content == Weave(texts, NodeMarks(r.nodes)) &&
            r.contentWithoutDice == Concat(texts)
  {
    hide ScanLines, Weave, Concat, NodeMarks, MarkersOf;
    var pss := ScanLines(Split(markdown), None).value;
    var ps := Flat(pss);
    FlatParts(pss);
    PiecesWeave(ps);
    ScannedLines(Split(markdown), None);
    JoinSplit(markdown);
    NodesOfGoodMarkers(ps);
    texts, raws := Texts(ps), RawMarks(Nodes(ps));
  }

  // ----- The parser

  ghost function Ids(nodes: seq<DiceNode>): set<string> {
    set n | n in nodes :: n.id
  }

  lemma AfterPiece(done: seq<Piece>, p: Piece, scan: Option<seq<Piece>>)
    ensures After(done, Prepend(p, scan)) == After(done + [p], scan)
  {
    if scan.Some? { assert done + ([p] + scan.value) == (done + [p]) + scan.value; }
  }

  /** The nodes a scan adds to the nodes before the line. */
  ghost function NodesWith(before: seq<DiceNode>, ps: seq<Piece>): seq<DiceNode> {
    before + ToNodes(Nodes(ps))
  }

  lemma RepeatedId(before: seq<DiceNode>, done: seq<Piece>, m: Marker, rest: seq<Piece>)
    requires m.id in Ids(NodesWith(before, done))
    ensures !DistinctIds(NodesWith(before, done + ([Piece.Node(m)] + rest)))
  {
    hide Content, WithoutNodes, Raw, Nodes, ToNodes, Serialize, Ids, DistinctIds;
    OneNode(m);
    PiecesAppend([Piece.Node(m)], rest);
    PiecesAppend(done, [Piece.Node(m)] + rest);
    ToNodesAppend([m], Nodes(rest));
    ToNodesAppend(Nodes(done), [m] + Nodes(rest));
    assert ToNodes([m]) == [ToNode(m)];
    assert NodesWith(before, done) + ([ToNode(m)] + ToNodes(Nodes(rest)))
        == before + (ToNodes(Nodes(done)) + ([ToNode(m)] + ToNodes(Nodes(rest))));
    Repeats(NodesWith(before, done), m, ToNodes(Nodes(rest)));
  }

  lemma Repeats(nodes: seq<DiceNode>, m: Marker, rest: seq<DiceNode>)
    requires m.id in Ids(nodes)
    ensures !DistinctIds(nodes + ([ToNode(m)] + rest))
  {
    var i :| 0 <= i < |nodes| && nodes[i].id == m.id;
    var all := nodes + ([ToNode(m)] + rest);
    assert all[i] == nodes[i] && all[|nodes|] == ToNode(m);
  }

  /** A piece of text moves from the unread part of a line to the pieces done. */
  lemma StepText(before: seq<DiceNode>, done: seq<Piece>, rest: string, n: nat)
    requires n <= |rest| && ScanLine(rest) == Prepend(Piece.Text(rest[..n]), ScanLine(rest[n..]))
    ensures After(done, ScanLine(rest)) == After(done + [Piece.Text(rest[..n])], ScanLine(rest[n..]))
    ensures Content(done + [Piece.Text(rest[..n])]) == Content(done) + rest[..n]
    ensures WithoutNodes(done + [Piece.Text(rest[..n])]) == WithoutNodes(done) + rest[..n]
    ensures NodesWith(before, done + [Piece.Text(rest[..n])]) == NodesWith(before, done)
  {
    hide Content, WithoutNodes, Raw, Nodes, ToNodes, ScanLine;
    AfterPiece(done, Piece.Text(rest[..n]), ScanLine(rest[n..]));
    OneText(rest[..n]);
    PiecesAppend(done, [Piece.Text(rest[..n])]);
    assert Nodes(done) + [] == Nodes(done);
  }

  /** So does a marker; one that repeats an identifier spoils the line whatever follows. */
  lemma StepNode(before: seq<DiceNode>, done: seq<Piece>, m: Marker, scan: Option<seq<Piece>>)
    ensures After(done, Prepend(Piece.Node(m), scan)) == After(done + [Piece.Node(m)], scan)
    ensures Content(done + [Piece.Node(m)]) == Content(done) + Serialize(m.id, m.notation)
    ensures WithoutNodes(done + [Piece.Node(m)]) == WithoutNodes(done)
    ensures NodesWith(before, done + [Piece.Node(m)]) == NodesWith(before, done) + [ToNode(m)]
  {
    hide Content, WithoutNodes, Raw, Nodes, ToNodes, Serialize, Ids, DistinctIds;
    AfterPiece(done, Piece.Node(m), scan);
    OneNode(m);
    PiecesAppend(done, [Piece.Node(m)]);
    ToNodesAppend(Nodes(done), [m]);
    assert ToNodes([m]) == [ToNode(m)];
    assert WithoutNodes(done) + "" == WithoutNodes(done);
  }

  lemma FreshId(nodes: seq<DiceNode>, m: Marker)
    requires DistinctIds(nodes) && m.id !in Ids(nodes)
    ensures DistinctIds(nodes + [ToNode(m)]) && Ids(nodes + [ToNode(m)]) == Ids(nodes) + {m.id}
  {
    var n := ToNode(m);
    var all := nodes + [n];
    forall i, j | 0 <= i < j < |all|
      ensures all[i].id != all[j].id
    {
      assert all[i] == nodes[i] && nodes[i] in nodes;
    }
    assert forall m | m in all :: m in nodes || m == n;
    assert all[|nodes|] == n && forall m | m in nodes :: m in all;
  }

  method MeasureRun(s: string) returns (length: nat)
    requires s != "" && s[0] == '`'
    ensures length == RunLength(s) && length > 0
  {
    length := 1;
    while length < |s| && s[length] == '`'
      invariant length <= |s| && RunLength(s) == length + RunLength(s[length..])
    {
      assert s[length..][1..] == s[length + 1..];
      length := length + 1;
    }
  }

  lemma Beginning(before: seq<DiceNode>)
    ensures Content([]) == "" && WithoutNodes([]) == "" && NodesWith(before, []) == before
    ensures forall scan: Option<seq<Piece>> :: After([], scan) == scan
  {
    forall scan: Option<seq<Piece>>
      ensures After([], scan) == scan
    {
      if scan.Some? { assert [] + scan.value == scan.value; }
    }
  }

  lemma Finished(done: seq<Piece>, rest: string)
    requires rest == ""
    ensures After(done, ScanLine(rest)) == Some(done)
  {
    assert done + [] == done;
  }

  lemma Spoiled(before: seq<DiceNode>, done: seq<Piece>, m: Marker, scan: Option<seq<Piece>>)
    requires m.id in Ids(NodesWith(before, done))
    ensures var all := After(done, Prepend(Piece.Node(m), scan)); all.Some? ==> !DistinctIds(NodesWith(before, all.value))
  {
    hide NodesWith, DistinctIds, Ids;
    if scan.Some? { RepeatedId(before, done, m, scan.value); }
  }

  lemma AfterIsSome(done: seq<Piece>, scan: Option<seq<Piece>>)
    ensures After(done, scan).Some? <==> scan.Some?
    ensures scan.Some? ==> After(done, scan).value == done + scan.value
  {
  }

  lemma EscapeStep(s: string, n: nat)
    requires s != "" && s[0] == '\\' && n == if |s| < 2 then |s| else 2
    ensures ScanLine(s) == Prepend(Piece.Text(s[..n]), ScanLine(s[n..]))
  {
  }

  lemma CodeStep(s: string, length: nat)
    requires s != "" && s[0] == '`' && length == RunLength(s) > 0
    ensures var closing := FindTicks(s[length..], length);
            match closing
            case None => CodeSpan(s).None?
            case Some(i) => var n := length + i + length; ScanLine(s) == Prepend(Piece.Text(s[..n]), ScanLine(s[n..]))
  {
  }

  lemma MarkerStep(s: string)
    requires s != "" && s[0] != '\\' && (s[0] == '`' ==> CodeSpan(s).None?)
    ensures !StartsMarker(s) ==> ScanLine(s) == Prepend(Piece.Text([s[0]]), ScanLine(s[1..]))
    ensures StartsMarker(s) ==>
              match ReadMarker(s)
              case None => ScanLine(s).None?
              case Some(m) => m.raw != "" && ScanLine(s) == Prepend(Piece.Node(m), ScanLine(s[|m.raw|..]))
  {
  }

  /** One line outside fences, continuing with the nodes and identifiers of the lines before it. */
  method ScanText(line: string, before: seq<DiceNode>, seen: set<string>)
    returns (ok: bool, canonical: string, withoutDice: string, nodes: seq<DiceNode>, nodeIds: set<string>)
    requires DistinctIds(before) && seen == Ids(before)
    ensures ok <==> ScanLine(line).Some? && DistinctIds(NodesWith(before, ScanLine(line).value))
    ensures ok ==> canonical == Content(ScanLine(line).value) && withoutDice == WithoutNodes(ScanLine(line).value)
    ensures ok ==> nodes == NodesWith(before, ScanLine(line).value) && nodeIds == Ids(nodes)
  {
    hide *;
    canonical, withoutDice, nodes, nodeIds := "", "", before, seen;
    ghost var done: seq<Piece> := [];
    var index := 0;
    Beginning(before);
    assert line[0..] == line;
    while index < |line|
      invariant 0 <= index <= |line|
      invariant ScanLine(line) == After(done, ScanLine(line[index..]))
      invariant canonical == Content(done) && withoutDice == WithoutNodes(done)
      invariant nodes == NodesWith(before, done) && nodeIds == Ids(nodes) && DistinctIds(nodes)
    {
      var rest := line[index..];
      if line[index] == '\\' {
        var escaped := line[index..if index + 2 < |line| then index + 2 else |line|];
        assert escaped == rest[..|escaped|] && rest[|escaped|..] == line[index + |escaped|..];
        EscapeStep(rest, |escaped|);
        StepText(before, done, rest, |escaped|);
        done := done + [Piece.Text(escaped)];
        canonical := canonical + escaped;
        withoutDice := withoutDice + escaped;
        index := index + |escaped|;
        continue;
      }
      if line[index] == '`' {
        var length := MeasureRun(rest);
        CodeStep(rest, length);
        var closing := FindTicks(rest[length..], length);
        if closing.Some? {
          var code := rest[..length + closing.value + length];
          assert rest[|code|..] == line[index + |code|..];
          StepText(before, done, rest, |code|);
          done := done + [Piece.Text(code)];
          canonical := canonical + code;
          withoutDice := withoutDice + code;
          index := index + |code|;
          continue;
        }
      }
      MarkerStep(rest);
      if StartsMarker(rest) {
        var read := ReadMarker(rest);
        if read.None? {
          AfterIsSome(done, ScanLine(rest));
          ok := false;
          return;
        }
        var m := read.value;
        assert rest[|m.raw|..] == line[index + |m.raw|..];
        StepNode(before, done, m, ScanLine(rest[|m.raw|..]));
        if m.id in nodeIds {
          Spoiled(before, done, m, ScanLine(rest[|m.raw|..]));
          ok := false;
          return;
        }
        done := done + [Piece.Node(m)];
        FreshId(nodes, m);
        nodeIds := nodeIds + {m.id};
        nodes := nodes + [ToNode(m)];
        canonical := canonical + Serialize(m.id, m.notation);
        index := index + |m.raw|;
        continue;
      }
      assert rest[1..] == line[index + 1..] && rest[..1] == [line[index]];
      StepText(before, done, rest, 1);
      done := done + [Piece.Text([line[index]])];
      canonical := canonical + [line[index]];
      withoutDice := withoutDice + [line[index]];
      index := index + 1;
    }
    ok := true;
    Finished(done, line[index..]);
  }

  // ----- All lines

  lemma {:induction false} AllNodesAppend(a: seq<seq<Piece>>, b: seq<seq<Piece>>)
    ensures AllNodes(a + b) == AllNodes(a) + AllNodes(b)
  {
    hide ToNodes, Nodes;
    if a == [] {
      JoinEmpty(b);
    } else {
      AllNodesAppend(a[1..], b);
      JoinHead(a, b);
      Associate(ToNodes(Nodes(a[0])), AllNodes(a[1..]), AllNodes(b));
    }
  }

  lemma {:induction false} LinesAppend(a: seq<seq<Piece>>, ps: seq<Piece>)
    ensures Contents(a + [ps]) == Contents(a) + [Content(ps)]
    ensures Withouts(a + [ps]) == Withouts(a) + [WithoutNodes(ps)]
    ensures AllNodes(a + [ps]) == NodesWith(AllNodes(a), ps)
  {
    hide Content, WithoutNodes, Nodes, ToNodes;
    if a == [] {
      JoinEmpty(ToNodes(Nodes(ps)));
      assert [ps][1..] == [];
    } else {
      LinesAppend(a[1..], ps);
      JoinHead(a, [ps]);
      Associate([Content(a[0])], Contents(a[1..]), [Content(ps)]);
      Associate([WithoutNodes(a[0])], Withouts(a[1..]), [WithoutNodes(ps)]);
      Associate(ToNodes(Nodes(a[0])), AllNodes(a[1..]), ToNodes(Nodes(ps)));
    }
  }

  lemma PrefixRepeats(a: seq<DiceNode>, b: seq<DiceNode>)
    requires DistinctIds(a + b)
    ensures DistinctIds(a)
  {
    forall i, j | 0 <= i < j < |a|
      ensures a[i].id != a[j].id
    {
      assert (a + b)[i] == a[i] && (a + b)[j] == a[j];
    }
  }

  /** A line whose own scan or identifiers fail makes the whole text fail. */
  lemma LineFails(done: seq<seq<Piece>>, lines: seq<string>, fence: Option<Fence>)
    requires lines != []
    requires var ps := ScanOne(fence, lines[0]); ps.None? || !DistinctIds(NodesWith(AllNodes(done), ps.value))
    ensures var all := After(done, ScanLines(lines, fence)); all.None? || !DistinctIds(AllNodes(all.value))
  {
    hide ScanOne, NodesWith, DistinctIds, AllNodes, NextFence;
    var scan := ScanLines(lines, fence);
    if scan.Some? {
      var ps := scan.value[0];
      LinesAppend(done, ps);
      assert done + scan.value == (done + [ps]) + scan.value[1..];
      AllNodesAppend(done + [ps], scan.value[1..]);
      if DistinctIds(AllNodes(done + scan.value)) {
        PrefixRepeats(AllNodes(done + [ps]), AllNodes(scan.value[1..]));
      }
    }
  }

  lemma LineStep(done: seq<seq<Piece>>, lines: seq<string>, fence: Option<Fence>)
    requires lines != [] && ScanOne(fence, lines[0]).Some?
    ensures After(done, ScanLines(lines, fence))
         == After(done + [ScanOne(fence, lines[0]).value], ScanLines(lines[1..], NextFence(fence, lines[0])))
  {
    hide ScanOne, NextFence;
    var rest := ScanLines(lines[1..], NextFence(fence, lines[0]));
    if rest.Some? {
      var ps := ScanOne(fence, lines[0]).value;
      assert done + ([ps] + rest.value) == (done + [ps]) + rest.value;
    }
  }

  lemma VerbatimLine(before: seq<DiceNode>, line: string)
    ensures NodesWith(before, [Piece.Text(line)]) == before
    ensures Content([Piece.Text(line)]) == line && WithoutNodes([Piece.Text(line)]) == line
  {
    OneText(line);
    assert before + [] == before;
  }

  lemma LinesBegin(lines: seq<string>)
    ensures After([], ScanLines(lines, None)) == ScanLines(lines, None)
    ensures Contents([]) == [] && Withouts([]) == [] && AllNodes([]) == [] && DistinctIds([]) && Ids([]) == {}
  {
    hide ScanLines;
    var scan := ScanLines(lines, None);
    if scan.Some? { assert [] + scan.value == scan.value; }
  }

  lemma LinesEnd(done: seq<seq<Piece>>, lines: seq<string>, fence: Option<Fence>)
    requires lines == []
    ensures After(done, ScanLines(lines, fence)) == Some(done)
  {
    assert done + [] == done;
  }

  method ParseContent(markdown: string) returns (r: Result<ParsedContent, Error>)
    ensures r == ContentOf(markdown)
  {
    hide ScanLines, After, AllNodes, Contents, Withouts, DistinctIds, Ids, NodesWith, FenceToken, Closes, ScanLine;
    var lines := Split(markdown);
    var canonicalLines: seq<string>, withoutDiceLines: seq<string> := [], [];
    var nodes: seq<DiceNode>, nodeIds: set<string> := [], {};
    var fence: Option<Fence> := None;
    ghost var done: seq<seq<Piece>> := [];
    LinesBegin(lines);
    assert lines[0..] == lines;
    var i := 0;
    while i < |lines|
      invariant 0 <= i <= |lines| && |done| == i
      invariant ScanLines(lines, None) == After(done, ScanLines(lines[i..], fence))
      invariant canonicalLines == Contents(done) && withoutDiceLines == Withouts(done)
      invariant nodes == AllNodes(done) && nodeIds == Ids(nodes) && DistinctIds(nodes)
    {
      var line := lines[i];
      assert lines[i..][0] == line && lines[i..][1..] == lines[i + 1..];
      if fence.Some? {
        VerbatimLine(nodes, line);
        LineStep(done, lines[i..], fence);
        LinesAppend(done, [Piece.Text(line)]);
        done := done + [[Piece.Text(line)]];
        canonicalLines := canonicalLines + [line];
        withoutDiceLines := withoutDiceLines + [line];
        if Closes(fence.value, line) {
          fence := None;
        }
        i := i + 1;
        continue;
      }
      var token := FenceToken(line);
      if token.Some? {
        VerbatimLine(nodes, line);
        LineStep(done, lines[i..], fence);
        LinesAppend(done, [Piece.Text(line)]);
        done := done + [[Piece.Text(line)]];
        fence := token;
        canonicalLines := canonicalLines + [line];
        withoutDiceLines := withoutDiceLines + [line];
        i := i + 1;
        continue;
      }
      var ok, canonical, withoutDice, newNodes, newIds := ScanText(line, nodes, nodeIds);
      if !ok {
        LineFails(done, lines[i..], fence);
        return Err(InvalidNotation);
      }
      LineStep(done, lines[i..], fence);
      ghost var ps := ScanLine(line).value;
      LinesAppend(done, ps);
      done := done + [ps];
      nodes, nodeIds := newNodes, newIds;
      canonicalLines := canonicalLines + [canonical];
      withoutDiceLines := withoutDiceLines + [withoutDice];
      i := i + 1;
    }
    LinesEnd(done, lines[i..], fence);
    if |nodes| > MAX_DICE_ROLLS_PER_POST {
      return Err(RollLimitExceeded);
    }
    return Ok(ParsedContent(Join(canonicalLines), Join(withoutDiceLines), nodes));
  }
}
