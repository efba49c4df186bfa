/** Link labels, the Markdown form of a reference, and the plain text that previews show instead of references. */
module ReferenceLabels {
  import opened Options
  import opened Sequences
  import opened Text
  import opened InternalReference

  const DEFAULT_LABEL := "\U{4F20}\U{9001}\U{95E8}"

  // ----- Escaping

  /** Every `c` replaced by a backslash and `c`. */
  function Replace(s: string, c: char): string {
    if s == "" then "" else ReplaceChar(s[0], c) + Replace(s[1..], c)
  }

  function ReplaceChar(d: char, c: char): string { if d == c then ['\\', c] else [d] }

  /** The three passes: backslashes first, so that the ones the other passes add stay single. */
  function Escape(name: string): string {
    Replace(Replace(Replace(name, '\\'), '['), ']')
  }

  predicate IsSpecial(c: char) { c == '\\' || c == '[' || c == ']' }

  function Decode(s: string): string {
    if s == "" then ""
    else if s[0] == '\\' && |s| > 1 && IsSpecial(s[1]) then [s[1]] + Decode(s[2..])
    else [s[0]] + Decode(s[1..])
  }

  lemma {:induction false} ReplaceAppend(x: string, y: string, c: char)
    ensures Replace(x + y, c) == Replace(x, c) + Replace(y, c)
  {
    hide ReplaceChar;
    if x == "" {
      JoinEmpty(y);
    } else {
      ReplaceAppend(x[1..], y, c);
      JoinHead(x, y);
      Associate(ReplaceChar(x[0], c), Replace(x[1..], c), Replace(y, c));
    }
  }

  function EscapedChar(c: char): string { if IsSpecial(c) then ['\\', c] else [c] }

  lemma ReplaceOne(c: char, d: char)
    ensures Replace([c], d) == if c == d then ['\\', d] else [c]
  {
    assert [c][1..] == "";
  }

  lemma ReplaceTwo(c: char, d: char, e: char)
    ensures Replace([c, d], e) == (if c == e then ['\\', e] else [c]) + if d == e then ['\\', e] else [d]
  {
    ReplaceOne(d, e);
    assert [c, d][1..] == [d];
  }

  lemma EscapeOne(c: char)
    ensures Escape([c]) == EscapedChar(c)
  {
    hide Replace;
    ReplaceOne(c, '\\');
    assert ['\\'] + ['\\'] == ['\\', '\\'] && ['\\'] + ['['] == ['\\', '['];
    if c == '\\' {
      ReplaceTwo('\\', '\\', '[');
      ReplaceTwo('\\', '\\', ']');
    } else {
      ReplaceOne(c, '[');
      ReplaceOne(c, ']');
      ReplaceTwo('\\', '[', ']');
    }
  }

  /** The three passes together escape each character on its own. */
  lemma EscapeStep(c: char, rest: string)
    ensures Escape([c] + rest) == EscapedChar(c) + Escape(rest)
  {
    hide Replace;
    ReplaceAppend([c], rest, '\\');
    ReplaceAppend(Replace([c], '\\'), Replace(rest, '\\'), '[');
    ReplaceAppend(Replace(Replace([c], '\\'), '['), Replace(Replace(rest, '\\'), '['), ']');
    EscapeOne(c);
  }

  /** Decoding undoes the three-pass escape, for every label. */
  lemma {:induction false} DecodeEscape(name: string)
    ensures Decode(Escape(name)) == name
  {
    hide Escape;
    if name == "" {
      assert Escape("") == "" by { EscapeNothing(); }
    } else {
      var c, rest := name[0], name[1..];
      assert name == [c] + rest;
      EscapeStep(c, rest);
      DecodeEscape(rest);
      var s := EscapedChar(c) + Escape(rest);
      if IsSpecial(c) {
        assert s[2..] == Escape(rest);
      } else {
        assert s[1..] == Escape(rest);
      }
    }
  }

  lemma EscapeNothing()
    ensures Escape("") == ""
  {
  }

  lemma DecodeStep(value: string, index: nat)
    requires index < |value|
    ensures if value[index] == '\\' && index + 1 < |value| && IsSpecial(value[index + 1])
            then Decode(value[index..]) == [value[index + 1]] + Decode(value[index + 2..])
            else Decode(value[index..]) == [value[index]] + Decode(value[index + 1..])
  {
    var s := value[index..];
    assert s[1..] == value[index + 1..];
    if |s| > 1 { assert s[2..] == value[index + 2..]; }
  }

  method DecodeInternalReferenceLabel(value: string) returns (output: string)
    ensures output == Decode(value)
  {
    hide Decode;
    output := "";
    var index := 0;
    assert value[0..] == value;
    while index < |value|
      invariant index <= |value| && Decode(value) == output + Decode(value[index..])
    {
      DecodeStep(value, index);
      var character := value[index];
      if character == '\\' && index + 1 < |value| && IsSpecial(value[index + 1]) {
        Associate(output, [value[index + 1]], Decode(value[index + 2..]));
        output := output + [value[index + 1]];
        index := index + 1;
      } else {
        Associate(output, [character], Decode(value[index + 1..]));
        output := output + [character];
      }
      index := index + 1;
    }
    DecodeNothing(value[index..]);
  }

  lemma DecodeNothing(s: string)
    requires s == ""
    ensures Decode(s) == ""
  {
  }

  // ----- serializeInternalReference

  predicate OneLine(s: string) {
    forall c | c in s :: c != '\r' && c != '\n'
  }

  function Link(name: string, r: Reference): string {
    "[" + Escape(name) + "](" + Href(r) + ")"
  }

  function Serialize(web: Web, name: string, href: string): Option<string> {
    match Parse(web, href)
    case None => None
    case Some(r) => if Trim(name) == "" || !OneLine(Trim(name)) then None else Some(Link(Trim(name), r))
  }

  // ----- Candidates

  predicate IsLineEnd(c: char) {
    c == '\n' || c == '\r' || c == '\U{2028}' || c == '\U{2029}'
  }

  /** The length of the longest label: escaped pairs, and characters other than brackets that close and line breaks. */
  function LabelLength(s: string): (n: nat)
    ensures n <= |s|
  {
    if s == "" || s[0] == ']' || s[0] == '\r' || s[0] == '\n' then 0
    else if s[0] != '\\' then 1 + LabelLength(s[1..])
    else if |s| > 1 && !IsLineEnd(s[1]) then 2 + LabelLength(s[2..])
    else 0
  }

  function TargetLength(s: string): (n: nat)
    ensures n <= |s|
  {
    if s == "" || s[0] == ')' || s[0] == '\r' || s[0] == '\n' then 0 else 1 + TargetLength(s[1..])
  }

  datatype Candidate = Markdown(name: string, href: string, length: nat) | Bare(length: nat)

  function MarkdownCandidate(s: string): (r: Option<Candidate>)
    ensures r.Some? ==> r.value.Markdown? && 0 < r.value.length <= |s|
  {
    if s == "" || s[0] != '[' then None
    else
      var n := LabelLength(s[1..]);
      if n == 0 || !("](" <= s[1 + n..]) then None
      else
        var m := TargetLength(s[3 + n..]);
        if m == 0 || 3 + n + m == |s| || s[3 + n + m] != ')' then None
        else Some(Markdown(s[1..1 + n], s[3 + n..3 + n + m], 4 + n + m))
  }

  /** Case-insensitive equality with a lower-case letter; two further characters fold to `s` and `k`. */
  predicate Folds(letter: char, c: char) {
    Lower(c) == letter || (letter == 's' && c == '\U{017F}') || (letter == 'k' && c == '\U{212A}')
  }

  predicate StartsWith(s: string, literal: string) {
    |literal| <= |s| && forall i | 0 <= i < |literal| :: Folds(literal[i], s[i])
  }

  function WordLength(s: string): (n: nat)
    ensures n <= |s|
  {
    if s != "" && (IsWordChar(s[0]) || s[0] == '\U{017F}' || s[0] == '\U{212A}') then 1 + WordLength(s[1..]) else 0
  }

  const WIDE_PUNCTUATION: set<char> :=
    {'\U{FF0C}', '\U{3002}', '\U{FF01}', '\U{FF1F}', '\U{FF1B}', '\U{FF1A}', '\U{3001}'}

  predicate EndsQuery(c: char) {
    IsSpace(c) || c in {'<', '>', ']', ')', '}', '.', ',', '!', ';', ':'} || c in WIDE_PUNCTUATION
  }

  function QueryLength(s: string): (n: nat)
    ensures n <= |s|
  {
    if s != "" && !EndsQuery(s[0]) then 1 + QueryLength(s[1..]) else 0
  }

  /** A word after a literal; 0 when there is none. */
  function PartLength(s: string, literal: string): (n: nat)
    ensures n <= |s|
  {
    if StartsWith(s, literal) && WordLength(s[|literal|..]) > 0 then |literal| + WordLength(s[|literal|..]) else 0
  }

  function DiscussionLength(s: string): (n: nat)
    ensures n <= |s|
  {
    var n := PartLength(s, "/posts/");
    if n > 0 && StartsWith(s[n..], "/replies") then n + |"/replies"| else 0
  }

  function PathLength(s: string): (n: nat)
    ensures n <= |s|
  {
    var t := PartLength(s, "/threads/");
    if t > 0 then t + DiscussionLength(s[t..]) else PartLength(s, "/join/")
  }

  function OriginLength(s: string): (n: nat)
    ensures n <= |s|
  {
    if StartsWith(s, "https://www.wenyou.site") then |"https://www.wenyou.site"|
    else if StartsWith(s, "https://wenyou.site") then |"https://wenyou.site"|
    else 0
  }

  function BareCandidate(s: string): (r: Option<Candidate>)
    ensures r.Some? ==> r.value.Bare? && 0 < r.value.length <= |s|
  {
    var origin := OriginLength(s);
    var path := PathLength(s[origin..]);
    if path == 0 then None
    else
      var end := origin + path;
      var query := if end < |s| && s[end] == '?' then QueryLength(s[end + 1..]) else 0;
      Some(Bare(if query > 0 then end + 1 + query else end))
  }

  function FindCandidate(s: string): (r: Option<Candidate>)
    ensures r.Some? ==> 0 < r.value.length <= |s|
  {
    if MarkdownCandidate(s).Some? then MarkdownCandidate(s) else BareCandidate(s)
  }

  // ----- formatInternalReferencePreview

  predicate LeftBoundary(c: char) {
    IsSpace(c) || c in {'(', '[', '{', '"', '\''} || c in WIDE_PUNCTUATION
  }

  predicate RightBoundary(c: char) {
    IsSpace(c) || c in {')', ']', '}', '"', '\'', '.', ',', '!', '?', ';', ':'} || c in WIDE_PUNCTUATION
  }

  predicate IsPunctuation(c: char) {
    c in {'.', ',', '!', '?', ';', ':'} || c in WIDE_PUNCTUATION
  }

  function WithoutPunctuation(s: string): (r: string)
    ensures |r| <= |s| && r == s[..|r|]
  {
    if s != "" && IsPunctuation(s[|s| - 1]) then WithoutPunctuation(s[..|s| - 1]) else s
  }

  /** What stands for a candidate between the characters before and after it. */
  function Shown(web: Web, text: string, candidate: Candidate, before: Option<char>, after: Option<char>): string {
    match candidate
    case Markdown(name, href, _) =>
      if Parse(web, Trim(href)).None? then text
      else if Trim(Decode(name)) == "" then DEFAULT_LABEL
      else Trim(Decode(name))
    case Bare(_) =>
      if (before.Some? && !LeftBoundary(before.value)) || (after.Some? && !RightBoundary(after.value)) then text
      else
        var href := WithoutPunctuation(text);
        if Parse(web, href).None? then text else DEFAULT_LABEL + text[|href|..]
  }

  /** The leftmost candidates are replaced, one after the other. */
  function FormatFrom(web: Web, s: string, before: Option<char>): string {
    if s == "" then ""
    else
      match FindCandidate(s)
      case None => [s[0]] + FormatFrom(web, s[1..], Some(s[0]))
      case Some(c) =>
        Shown(web, s[..c.length], c, before, if c.length < |s| then Some(s[c.length]) else None) +
        FormatFrom(web, s[c.length..], Some(s[c.length - 1]))
  }

  function Format(web: Web, value: string): string { FormatFrom(web, value, None) }

  // ----- Printing and showing undo each other

  lemma {:induction false} EscapedLabelLength(name: string, rest: string)
    requires OneLine(name)
    ensures LabelLength(Escape(name) + "]" + rest) == |Escape(name)|
  {
    hide Escape;
    var tail := "]" + rest;
    if name == "" {
      EscapeNothing();
      assert "" + "]" + rest == tail;
    } else {
      var c, more := name[0], name[1..];
      assert name == [c] + more && c in name && forall d | d in more :: d in name;
      EscapeStep(c, more);
      EscapedLabelLength(more, rest);
      var s := Escape(name) + "]" + rest;
      assert s[|EscapedChar(c)|..] == Escape(more) + "]" + rest;
      assert s[0] == EscapedChar(c)[0];
      if IsSpecial(c) { assert s[1] == c; }
    }
  }

  lemma {:induction false} PlainTargetLength(href: string, rest: string)
    requires forall c | c in href :: c != ')' && c != '\r' && c != '\n'
    ensures TargetLength(href + ")" + rest) == |href|
  {
    var s := href + ")" + rest;
    if href != "" {
      assert s[0] == href[0] && href[0] in href && s[1..] == href[1..] + ")" + rest;
      assert forall c | c in href[1..] :: c in href;
      PlainTargetLength(href[1..], rest);
    }
  }

  lemma MarkdownAt(s: string, n: nat, m: nat)
    requires 3 + n + m < |s| && s[0] == '[' && s[1 + n] == ']' && s[2 + n] == '(' && s[3 + n + m] == ')'
    requires LabelLength(s[1..]) == n > 0 && TargetLength(s[3 + n..]) == m > 0
    ensures FindCandidate(s) == Some(Markdown(s[1..1 + n], s[3 + n..3 + n + m], 4 + n + m))
  {
    hide LabelLength, TargetLength, BareCandidate;
    assert s[1 + n..][0] == ']' && s[1 + n..][1] == '(';
  }

  lemma LinkParts(e: string, h: string, rest: string)
    ensures var s, n, m := "[" + e + "](" + h + ")" + rest, |e|, |h|;
            |s| > 3 + n + m && s[0] == '[' && s[1 + n] == ']' && s[2 + n] == '(' && s[3 + n + m] == ')' &&
            s[1..] == e + "]" + ("(" + h + ")" + rest) && s[3 + n..] == h + ")" + rest &&
            s[1..1 + n] == e && s[3 + n..3 + n + m] == h
  {
  }

  lemma LinkForm(name: string, r: Reference, rest: string)
    ensures Link(name, r) + rest == "[" + Escape(name) + "](" + Href(r) + ")" + rest
    ensures |Link(name, r)| == 4 + |Escape(name)| + |Href(r)|
  {
    hide Escape, Href;
  }

  lemma HrefIsTarget(web: Web, r: Reference)
    requires Faithful(web) && ValidReference(r)
    ensures Href(r) != "" && forall c | c in Href(r) :: c != ')' && c != '\r' && c != '\n'
  {
    hide Href, Faithful, ValidReference, Trimmed;
    HrefIsPlain(web, r);
  }

  /** A link, whatever follows it, is one candidate with its escaped label and its target. */
  lemma LinkIsCandidate(web: Web, name: string, r: Reference, rest: string)
    requires Faithful(web) && ValidReference(r) && OneLine(name) && name != ""
    ensures FindCandidate(Link(name, r) + rest) == Some(Markdown(Escape(name), Href(r), |Link(name, r)|))
  {
    hide *;
    var e, h := Escape(name), Href(r);
    LinkForm(name, r, rest);
    HrefIsTarget(web, r);
    EscapeNonEmpty(name);
    EscapedLabelLength(name, "(" + h + ")" + rest);
    PlainTargetLength(h, rest);
    LinkParts(e, h, rest);
    MarkdownAt("[" + e + "](" + h + ")" + rest, |e|, |h|);
  }

  lemma EscapeNonEmpty(name: string)
    requires name != ""
    ensures Escape(name) != ""
  {
    hide Escape;
    assert name == [name[0]] + name[1..];
    EscapeStep(name[0], name[1..]);
  }

  /**
   A serialized reference is shown as its trimmed label, and the text after it as if it stood alone behind it.
   */
  lemma SerializedShowsLabel(web: Web, name: string, href: string, rest: string)
    requires Faithful(web) && Serialize(web, name, href).Some?
    ensures Format(web, Serialize(web, name, href).value + rest) == Trim(name) + FormatFrom(web, rest, Some(')'))
  {
    hide Faithful, Parse, Trim, Escape, Decode, Href, FindCandidate;
    var r := Parse(web, href).value;
    var link := Serialize(web, name, href).value;
    ParsedIsValid(web, href);
    LinkIsCandidate(web, Trim(name), r, rest);
    HrefTrims(web, r);
    CanonicalHrefParses(web, r);
    DecodeEscape(Trim(name));
    TrimTrims(name);
    TrimTrims(Trim(name));
    var s := link + rest;
    assert s[|link|..] == rest && s[|link| - 1] == ')';
  }

  lemma HrefTrims(web: Web, r: Reference)
    requires Faithful(web) && ValidReference(r)
    ensures Trim(Href(r)) == Href(r)
  {
    hide Faithful, Href, Trim, Trimmed;
    HrefIsPlain(web, r);
    TrimTrims(Href(r));
  }

  /** Alone, it is shown as exactly its trimmed label. */
  lemma FormatSerialized(web: Web, name: string, href: string)
    requires Faithful(web) && Serialize(web, name, href).Some?
    ensures Format(web, Serialize(web, name, href).value) == Trim(name)
  {
    hide Faithful, Serialize, Format;
    SerializedShowsLabel(web, name, href, "");
    assert Serialize(web, name, href).value + "" == Serialize(web, name, href).value;
    assert FormatFrom(web, "", Some(')')) == "";
    assert Trim(name) + "" == Trim(name);
  }
}
