/**
 Dice markers in one line of text: where code spans, escapes and markers begin and end, and why rewriting the
 markers in canonical form moves none of these boundaries.
 */
module DiceScanner {
  import opened Options
  import opened Sequences
  import opened Text
  import N = DiceNotation

  const PREFIX := "[[dice:v1:"
  const UUID_LENGTH := 36
  const MAX_NOTATION := 32

  // ----- Markers

  predicate IsHex(c: char) {
    '0' <= c <= '9' || 'a' <= Lower(c) <= 'f'
  }

  /** A version 4 UUID, in either case. */
  predicate IsUuid(s: string) {
    |s| == UUID_LENGTH &&
    (forall i | 0 <= i < UUID_LENGTH :: if i == 8 || i == 13 || i == 18 || i == 23 then s[i] == '-' else IsHex(s[i])) &&
    s[14] == '4' && Lower(s[19]) in {'8', '9', 'a', 'b'}
  }

  predicate StartsMarker(s: string) {
    |s| >= |PREFIX| && LowerAll(s[..|PREFIX|]) == PREFIX
  }

  /** The longest prefix without a closing bracket or a line break. */
  function TakeBody(s: string): (r: string)
    ensures |r| <= |s| && r == s[..|r|]
    ensures forall c | c in r :: c != ']' && c != '\r' && c != '\n'
  {
    if s != "" && s[0] != ']' && s[0] != '\r' && s[0] != '\n' then [s[0]] + TakeBody(s[1..]) else ""
  }

  datatype Marker = Marker(id: string, notation: N.Notation, raw: string)

  function Serialize(id: string, notation: N.Notation): string {
    PREFIX + id + ":" + N.Print(notation) + "]]"
  }

  /** The marker `s` starts with; `None` when it is malformed. */
  function ReadMarker(s: string): (r: Option<Marker>)
    requires StartsMarker(s)
    ensures r.Some? ==> r.value.raw <= s && |r.value.raw| >= |PREFIX|
  {
    var rest := s[|PREFIX|..];
    if |rest| <= UUID_LENGTH || !IsUuid(rest[..UUID_LENGTH]) || rest[UUID_LENGTH] != ':' then None
    else
      var body := TakeBody(rest[UUID_LENGTH + 1..]);
      var tail := rest[UUID_LENGTH + 1 + |body|..];
      if !(1 <= |body| <= MAX_NOTATION) || !("]]" <= tail) then None
      else
        match N.Parse(body)
        case None => None
        case Some(notation) =>
          Some(Marker(LowerAll(rest[..UUID_LENGTH]), notation, s[..|PREFIX| + UUID_LENGTH + 1 + |body| + 2]))
  }

  // ----- Code spans

  /** The first place where `n` consecutive backticks start. */
  function FindTicks(s: string, n: nat): (r: Option<nat>)
    requires n > 0
    ensures r.Some? ==> r.value + n <= |s|
  {
    if s == "" then None
    else if RunLength(s) >= n then Some(0)
    else
      match FindTicks(s[1..], n)
      case None => None
      case Some(i) => Some(i + 1)
  }

  /** The length of the code span `s` starts with. */
  function CodeSpan(s: string): (r: Option<nat>)
    requires s != "" && s[0] == '`'
    ensures r.Some? ==> RunLength(s) < r.value <= |s|
  {
    var n := RunLength(s);
    match FindTicks(s[n..], n)
    case None => None
    case Some(i) => Some(n + i + n)
  }

  // ----- Scanning

  datatype Piece = Text(text: string) | Node(marker: Marker)

  /** The pieces of a line outside fences; `None` when a marker is malformed. */
  function ScanLine(s: string): Option<seq<Piece>>
    decreases |s|
  {
    if s == "" then Some([])
    else if s[0] == '\\' then
      var n := if |s| < 2 then |s| else 2;
      Prepend(Text(s[..n]), ScanLine(s[n..]))
    else if s[0] == '`' && CodeSpan(s).Some? then
      var n := CodeSpan(s).value;
      Prepend(Text(s[..n]), ScanLine(s[n..]))
    else if StartsMarker(s) then
      match ReadMarker(s)
      case None => None
      case Some(m) => Prepend(Node(m), ScanLine(s[|m.raw|..]))
    else Prepend(Text([s[0]]), ScanLine(s[1..]))
  }

  function PieceContent(p: Piece): string {
    match p
    case Text(text) => text
    case Node(m) => Serialize(m.id, m.notation)
  }

  /** The text with every marker in canonical form. */
  function Content(ps: seq<Piece>): string {
    if ps == [] then "" else PieceContent(ps[0]) + Content(ps[1..])
  }

  function PieceText(p: Piece): string { if p.Text? then p.text else "" }

  function PieceRaw(p: Piece): string { if p.Text? then p.text else p.marker.raw }

  function PieceMarkers(p: Piece): seq<Marker> { if p.Node? then [p.marker] else [] }

  /** The text with every marker left out. */
  function WithoutNodes(ps: seq<Piece>): string {
    if ps == [] then "" else PieceText(ps[0]) + WithoutNodes(ps[1..])
  }

  /** The text as it was written. */
  function Raw(ps: seq<Piece>): string {
    if ps == [] then "" else PieceRaw(ps[0]) + Raw(ps[1..])
  }

  function Nodes(ps: seq<Piece>): seq<Marker> {
    if ps == [] then [] else PieceMarkers(ps[0]) + Nodes(ps[1..])
  }

  function CanonMarker(m: Marker): Marker {
    m.(raw := Serialize(m.id, m.notation))
  }

  function CanonPiece(p: Piece): Piece {
    match p
    case Text(_) => p
    case Node(m) => Node(CanonMarker(m))
  }

  function Canon(ps: seq<Piece>): (r: seq<Piece>)
    ensures |r| == |ps|
  {
    if ps == [] then [] else [CanonPiece(ps[0])] + Canon(ps[1..])
  }

  lemma PrependedRaw(p: Piece, ps: seq<Piece>)
    ensures Raw([p] + ps) == PieceRaw(p) + Raw(ps)
  {
    assert ([p] + ps)[1..] == ps;
  }

  /** The scan accounts for every character of the line. */
  lemma {:induction false} ScanKeepsText(s: string)
    requires ScanLine(s).Some?
    ensures Raw(ScanLine(s).value) == s
    decreases |s|
  {
    hide Raw, StartsMarker, ReadMarker, CodeSpan;
    if s == "" {
      NoPiecesRaw();
    } else if s[0] != '\\' && !(s[0] == '`' && CodeSpan(s).Some?) && StartsMarker(s) {
      var m := ReadMarker(s).value;
      ScanKeepsText(s[|m.raw|..]);
      PrependedRaw(Node(m), ScanLine(s[|m.raw|..]).value);
      HeadAndTail(s, |m.raw|);
    } else {
      var n := if s[0] == '\\' then (if |s| < 2 then |s| else 2)
        else if s[0] == '`' && CodeSpan(s).Some? then CodeSpan(s).value else 1;
      ScanKeepsText(s[n..]);
      assert s[..1] == [s[0]];
      PrependedRaw(Piece.Text(s[..n]), ScanLine(s[n..]).value);
      HeadAndTail(s, n);
    }
  }

  lemma NoPiecesRaw()
    ensures Raw([]) == ""
  {
  }
}
