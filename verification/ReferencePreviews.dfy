/** What is written for a reference, and what previews show for references and for other text, by their characters. */
module ReferencePreviews {
  import opened Options
  import opened Sequences
  import opened Text
  import opened Spacing
  import opened InternalReference
  import opened InternalReferenceReading
  import opened ReferenceLabels

  // ----- Writing a reference

  /** `e` is `name` with a backslash before every backslash and every square bracket. */
  ghost predicate Escapes(name: string, e: string)
    decreases |name|
  {
    if name == "" then e == ""
    else if name[0] == '\\' || name[0] == '[' || name[0] == ']' then
      |e| >= 2 && e[0] == '\\' && e[1] == name[0] && Escapes(name[1..], e[2..])
    else |e| >= 1 && e[0] == name[0] && Escapes(name[1..], e[1..])
  }

  lemma {:induction false} EscapeIff(name: string, e: string)
    ensures Escape(name) == e <==> Escapes(name, e)
    decreases |name|
  {
    hide Escape;
    if name == "" {
      EscapeNothing();
    } else {
      assert name == [name[0]] + name[1..];
      EscapeStep(name[0], name[1..]);
      var head := EscapedChar(name[0]);
      JoinParts(head, Escape(name[1..]));
      if |e| >= |head| {
        HeadAndTail(e, |head|);
        EscapeIff(name[1..], e[|head|..]);
        if IsSpecial(name[0]) { assert e[..2] == [e[0], e[1]]; } else { assert e[..1] == [e[0]]; }
      }
    }
  }

  /** A name on one line in brackets, escaped, and the canonical link in parentheses. */
  ghost predicate Writes(web: Web, name: string, href: string, out: string) {
    exists r, text, e :: Recognised(web, href, r) && IsTrimmed(name, text) && text != "" &&
                         (forall i: nat | i < |text| :: text[i] != '\r' && text[i] != '\n') && Escapes(text, e) &&
                         out == "[" + e + "](" + Href(r) + ")"
  }

  /** A reference is written exactly for a recognised link and a name that is neither blank nor broken over lines. */
  lemma SerializeIff(web: Web, name: string, href: string, out: string)
    ensures Serialize(web, name, href) == Some(out) <==> Writes(web, name, href, out)
  {
    hide Parse, Recognised, Trim, IsTrimmed, Escape, Escapes, Href;
    var text := Trim(name);
    assert forall i: nat | i < |text| :: text[i] in text;
    if text != "" { TrimIff(name, text); }
    EscapeIff(text, Escape(text));
    if Parse(web, href).Some? { ParseIff(web, href, Parse(web, href).value); }
    if Writes(web, name, href, out) {
      var r, u, e :| Recognised(web, href, r) && IsTrimmed(name, u) && u != "" &&
                     (forall i: nat | i < |u| :: u[i] != '\r' && u[i] != '\n') && Escapes(u, e) &&
                     out == "[" + e + "](" + Href(r) + ")";
      ParseIff(web, href, r);
      TrimIff(name, u);
      EscapeIff(u, e);
    }
  }

  // ----- Other text

  /** A character that starts neither a Markdown link nor a path nor an origin stays, and the rest is read after it. */
  lemma PlainKept(web: Web, c: char, rest: string, before: Option<char>)
    requires c != '[' && c != '/' && c != 'h' && c != 'H'
    ensures FormatFrom(web, [c] + rest, before) == [c] + FormatFrom(web, rest, Some(c))
  {
    hide WordLength, QueryLength, LabelLength, TargetLength, DiscussionLength;
    var s := [c] + rest;
    assert s[1..] == rest && s[0..] == s;
    assert OriginLength(s) == 0 && PathLength(s) == 0 by { NoStart(s); }
  }

  lemma NoStart(s: string)
    requires s != "" && s[0] != '/' && s[0] != 'h' && s[0] != 'H'
    ensures OriginLength(s) == 0 && PathLength(s) == 0
  {
    hide WordLength, DiscussionLength;
    assert "https://www.wenyou.site"[0] == 'h' && "https://wenyou.site"[0] == 'h' && "/threads/"[0] == '/' && "/join/"[0] == '/';
    FirstFolds(s, "https://www.wenyou.site");
    FirstFolds(s, "https://wenyou.site");
    FirstFolds(s, "/threads/");
    FirstFolds(s, "/join/");
  }

  lemma FirstFolds(s: string, literal: string)
    requires s != "" && literal != ""
    ensures StartsWith(s, literal) ==> Folds(literal[0], s[0])
  {
  }

  /** Which link a candidate has. */
  ghost function TargetOf(c: Candidate, text: string): string {
    match c
    case Markdown(_, href, _) => Trim(href)
    case Bare(_) => WithoutPunctuation(text)
  }

  /** A candidate whose link is not recognised stays as it is written, whatever its label. */
  lemma UnrecognisedKept(web: Web, s: string, before: Option<char>)
    requires s != "" && FindCandidate(s).Some?
    requires var c := FindCandidate(s).value; forall r :: !Recognised(web, TargetOf(c, s[..c.length]), r)
    ensures var n := FindCandidate(s).value.length; FormatFrom(web, s, before) == s[..n] + FormatFrom(web, s[n..], Some(s[n - 1]))
  {
    hide Recognised, Parse, FindCandidate, Trim, WithoutPunctuation, Decode, LeftBoundary, RightBoundary;
    var c := FindCandidate(s).value;
    var link := TargetOf(c, s[..c.length]);
    if Parse(web, link).Some? { ParseIff(web, link, Parse(web, link).value); }
  }

  // ----- Bare links

  /** The text ends here, or white space follows. */
  ghost predicate Apart(rest: string) { rest == "" || IsSpace(rest[0]) }

  ghost predicate NoWord(s: string) { s == "" || !(IsWordChar(s[0]) || s[0] == '\U{017F}' || s[0] == '\U{212A}') }

  lemma {:induction false} WordOf(w: string, s: string)
    requires PlainWord(w) || w == ""
    requires NoWord(s)
    ensures WordLength(w + s) == |w|
  {
    if w == "" {
      assert w + s == s;
    } else {
      assert w[0] in w && forall c | c in w[1..] :: c in w;
      JoinHead(w, s);
      WordOf(w[1..], s);
    }
  }

  lemma {:induction false} QueryOf(q: string, s: string)
    requires (forall i: nat | i < |q| :: IsWordChar(q[i]) || q[i] == '=') && Apart(s)
    ensures QueryLength(q + s) == |q|
  {
    if q == "" {
      assert q + s == s;
    } else {
      assert !EndsQuery(q[0]) by { WordStays(q[0]); }
      JoinHead(q, s);
      QueryOf(q[1..], s);
    }
  }

  lemma WordStays(c: char)
    requires IsWordChar(c) || c == '='
    ensures !EndsQuery(c)
  {
  }

  lemma SameLetter(c: char)
    requires 'a' <= c <= 'z' || c == '/'
    ensures Folds(c, c)
  {
  }

  lemma LiteralStarts(literal: string, s: string)
    requires forall i: nat | i < |literal| :: 'a' <= literal[i] <= 'z' || literal[i] == '/'
    ensures StartsWith(literal + s, literal) && (literal + s)[|literal|..] == s
  {
    hide Folds;
    forall i | 0 <= i < |literal|
      ensures Folds(literal[i], (literal + s)[i])
    {
      SameLetter(literal[i]);
    }
    JoinParts(literal, s);
  }

  lemma PartOf(literal: string, w: string, s: string)
    requires PlainWord(w) && NoWord(s) && forall i: nat | i < |literal| :: 'a' <= literal[i] <= 'z' || literal[i] == '/'
    ensures PartLength(literal + (w + s), literal) == |literal| + |w|
    ensures (literal + (w + s))[|literal| + |w|..] == s
  {
    hide WordLength, StartsWith, NoWord, PlainWord;
    LiteralStarts(literal, w + s);
    WordOf(w, s);
    WordIsThere(w);
    Associate(literal, w, s);
    JoinParts(literal + w, s);
  }

  lemma WordIsThere(w: string)
    requires PlainWord(w)
    ensures |w| > 0
  {
  }

  lemma NotLiteral(s: string, literal: string)
    requires |s| > 1 && |literal| > 1 && !Folds(literal[1], s[1])
    ensures !StartsWith(s, literal) && PartLength(s, literal) == 0
  {
    hide Folds, WordLength;
  }

  lemma NoOrigin(s: string)
    requires s != "" && s[0] == '/'
    ensures OriginLength(s) == 0 && MarkdownCandidate(s).None?
  {
    hide LabelLength, TargetLength;
    FirstFolds(s, "https://www.wenyou.site");
    FirstFolds(s, "https://wenyou.site");
  }

  /** What may follow the path of a link: nothing more, or a query. */
  ghost predicate AfterPath(s: string) { s == "" || IsSpace(s[0]) || s[0] == '?' }

  lemma AfterPathEnds(s: string)
    requires AfterPath(s)
    ensures NoWord(s) && PartLength(s, "/posts/") == 0
  {
    hide WordLength;
    if s != "" { FirstFolds(s, "/posts/"); }
  }

  lemma ThreadPathOf(t: string, s: string)
    requires PlainWord(t) && AfterPath(s)
    ensures PathLength("/threads/" + (t + s)) == |"/threads/" + t|
  {
    hide WordLength, PartLength, NoWord, PlainWord, AfterPath;
    AfterPathEnds(s);
    PartOf("/threads/", t, s);
  }

  lemma InvitePathOf(t: string, s: string)
    requires PlainWord(t) && AfterPath(s)
    ensures PathLength("/join/" + (t + s)) == |"/join/" + t|
  {
    hide WordLength, PartLength, NoWord, PlainWord, AfterPath;
    AfterPathEnds(s);
    PartOf("/join/", t, s);
    var path := "/join/" + (t + s);
    assert path[1] == 'j' && "/threads/"[1] == 't';
    NotLiteral(path, "/threads/");
  }

  lemma DiscussionPathOf(t: string, f: string, s: string)
    requires PlainWord(t) && PlainWord(f) && AfterPath(s)
    ensures PathLength("/threads/" + (t + ("/posts/" + (f + ("/replies" + s))))) == |"/threads/" + t + "/posts/" + f + "/replies"|
  {
    hide WordLength, PartLength, StartsWith, PlainWord, AfterPath;
    var tail := "/replies" + s;
    assert tail[0] == '/' && NoWord(tail);
    var posts := "/posts/" + (f + tail);
    assert posts[0] == '/' && NoWord(posts);
    PartOf("/threads/", t, posts);
    PartOf("/posts/", f, tail);
    LiteralStarts("/replies", s);
  }

  /** A path and what follows it make one bare candidate, with the query if there is one. */
  lemma BareOf(path: string, query: string, rest: string)
    requires |path| > 0 && path[0] == '/' && PathLength(path + (query + rest)) == |path| && Apart(rest)
    requires query == "" || (|query| > 1 && query[0] == '?' && forall i: nat | 0 < i < |query| :: IsWordChar(query[i]) || query[i] == '=')
    ensures FindCandidate(path + (query + rest)) == Some(Bare(|path + query|))
  {
    hide PathLength, QueryLength, OriginLength, MarkdownCandidate, IsWordChar;
    var s := path + (query + rest);
    assert s[0] == '/' && s[0..] == s;
    NoOrigin(s);
    JoinParts(path, query + rest);
    if query == "" {
      JoinEmpty(rest);
      if rest != "" { assert s[|path|] == rest[0]; SpaceIsNoQuery(rest[0]); }
    } else {
      assert s[|path|] == '?' && s[|path| + 1..] == query[1..] + rest;
      QueryOf(query[1..], rest);
    }
  }

  lemma SpaceIsNoQuery(c: char)
    requires IsSpace(c)
    ensures c != '?' && RightBoundary(c)
  {
  }

  function QueryOfReference(r: Reference): string {
    if ParamsOf(r) == [] then "" else "?" + ParamsOf(r)[0].0 + "=" + ParamsOf(r)[0].1
  }

  lemma WordHasNoEnd(w: string)
    requires PlainWord(w)
    ensures |w| > 0 && forall i: nat | i < |w| :: IsWordChar(w[i])
  {
    assert forall i: nat | i < |w| :: w[i] in w;
  }

  lemma QueryForm(r: Reference)
    requires ValidReference(r)
    ensures var query := QueryOfReference(r);
            (query == "" || (|query| > 1 && query[0] == '?' && forall i: nat | 0 < i < |query| :: IsWordChar(query[i]) || query[i] == '=')) &&
            Href(r) == PathOf(r) + query
  {
    hide IsWordChar, ValidId, ValidToken, PlainWord, PathOf;
    Keywords();
    match r
    case Subthread(_, s) => IdsArePlain(s); QueryChars("subthread", s); Associated(PathOf(r), "subthread", s);
    case Floor(_, p) => IdsArePlain(p); QueryChars("post", p); Associated(PathOf(r), "post", p);
    case Reply(_, _, p) => IdsArePlain(p); QueryChars("post", p); Associated(PathOf(r), "post", p);
    case _ => JoinEmpty(PathOf(r));
  }

  lemma QueryChars(key: string, value: string)
    requires PlainWord(key) && PlainWord(value)
    ensures var query := "?" + key + "=" + value;
            |query| > 1 && query[0] == '?' && forall i: nat | 0 < i < |query| :: IsWordChar(query[i]) || query[i] == '='
  {
    hide IsWordChar, PlainWord;
    WordHasNoEnd(key);
    WordHasNoEnd(value);
  }

  lemma Associated(path: string, key: string, value: string)
    ensures WithQuery(path, key, value) == path + ("?" + key + "=" + value)
  {
  }

  lemma PathLengthOf(r: Reference, s: string)
    requires ValidReference(r) && AfterPath(s)
    ensures PathLength(PathOf(r) + s) == |PathOf(r)| && |PathOf(r)| > 0 && PathOf(r)[0] == '/'
  {
    hide PathLength, ValidId, ValidToken, PlainWord, AfterPath;
    match r
    case Thread(t) => ThreadLength(t, s);
    case Subthread(t, _) => ThreadLength(t, s);
    case Floor(t, _) => ThreadLength(t, s);
    case Discussion(t, f) => DiscussionLengthOf(t, f, s);
    case Reply(t, f, _) => DiscussionLengthOf(t, f, s);
    case Invite(token) =>
      IdsArePlain(token);
      InvitePathOf(token, s);
      Associate("/join/", token, s);
  }

  lemma ThreadLength(t: string, s: string)
    requires ValidId(t) && AfterPath(s)
    ensures PathLength(ThreadPath(t) + s) == |ThreadPath(t)|
  {
    hide PathLength, ValidId, PlainWord, AfterPath;
    IdsArePlain(t);
    ThreadPathOf(t, s);
    Associate("/threads/", t, s);
  }

  lemma DiscussionLengthOf(t: string, f: string, s: string)
    requires ValidId(t) && ValidId(f) && AfterPath(s)
    ensures PathLength(DiscussionPath(t, f) + s) == |DiscussionPath(t, f)|
  {
    hide PathLength, ValidId, PlainWord, AfterPath;
    IdsArePlain(t);
    IdsArePlain(f);
    DiscussionPathOf(t, f, s);
    assert "/threads/" + t + "/posts/" + f + "/replies" + s == "/threads/" + (t + ("/posts/" + (f + ("/replies" + s))));
  }

  lemma HrefEnd(web: Web, r: Reference)
    requires Faithful(web) && ValidReference(r)
    ensures Href(r) != "" && WithoutPunctuation(Href(r)) == Href(r)
  {
    hide Faithful, ValidId, ValidToken, PlainWord, PathOf;
    HrefIsTarget(web, r);
    var h := Href(r);
    var c := h[|h| - 1];
    assert IsWordChar(c) by { LastIsWord(r); }
    assert !IsPunctuation(c);
  }

  lemma LastIsWord(r: Reference)
    requires ValidReference(r)
    ensures Href(r) != "" && IsWordChar(Href(r)[|Href(r)| - 1])
  {
    hide IsWordChar, ValidId, ValidToken, PlainWord;
    assert IsWordChar('s') by { LetterS(); }
    match r
    case Thread(t) => IdsArePlain(t); WordHasNoEnd(t);
    case Subthread(t, s) => IdsArePlain(s); WordHasNoEnd(s);
    case Floor(t, p) => IdsArePlain(p); WordHasNoEnd(p);
    case Discussion(t, f) =>
    case Reply(t, f, p) => IdsArePlain(p); WordHasNoEnd(p);
    case Invite(token) => IdsArePlain(token); WordHasNoEnd(token);
  }

  lemma LetterS()
    ensures IsWordChar('s')
  {
  }

  /** A canonical link that stands apart is shown as the default label; the text after it is read on. */
  lemma BareLinkShown(web: Web, r: Reference, rest: string, before: Option<char>)
    requires Faithful(web) && ValidReference(r) && Apart(rest) && (before.Some? ==> LeftBoundary(before.value))
    ensures FormatFrom(web, Href(r) + rest, before) == DEFAULT_LABEL + FormatFrom(web, rest, Some(Href(r)[|Href(r)| - 1]))
  {
    hide *;
    var path, query := PathOf(r), QueryOfReference(r);
    QueryForm(r);
    Follows(query, rest);
    PathLengthOf(r, query + rest);
    BareOf(path, query, rest);
    Associate(path, query, rest);
    HrefEnd(web, r);
    CanonicalHrefParses(web, r);
    ShownAt(web, r, rest, before);
  }

  lemma Follows(query: string, rest: string)
    requires Apart(rest) && (query == "" || query[0] == '?')
    ensures AfterPath(query + rest)
  {
    JoinEmpty(rest);
  }

  lemma CandidateReplaced(web: Web, s: string, before: Option<char>, c: Candidate)
    requires s != "" && FindCandidate(s) == Some(c)
    ensures 0 < c.length <= |s|
    ensures FormatFrom(web, s, before) ==
            Shown(web, s[..c.length], c, before, if c.length < |s| then Some(s[c.length]) else None) +
            FormatFrom(web, s[c.length..], Some(s[c.length - 1]))
  {
    hide FindCandidate, Shown;
  }

  lemma BareShown(web: Web, text: string, n: nat, before: Option<char>, after: Option<char>)
    requires (before.Some? ==> LeftBoundary(before.value)) && (after.Some? ==> RightBoundary(after.value))
    requires WithoutPunctuation(text) == text && Parse(web, text).Some?
    ensures Shown(web, text, Bare(n), before, after) == DEFAULT_LABEL
  {
    hide Parse, WithoutPunctuation, LeftBoundary, RightBoundary;
    assert text[|text|..] == "";
    JoinEmpty(DEFAULT_LABEL);
  }

  lemma ShownAt(web: Web, r: Reference, rest: string, before: Option<char>)
    requires FindCandidate(Href(r) + rest) == Some(Bare(|Href(r)|)) && Href(r) != "" && WithoutPunctuation(Href(r)) == Href(r)
    requires Parse(web, Href(r)) == Some(r) && Apart(rest) && (before.Some? ==> LeftBoundary(before.value))
    ensures FormatFrom(web, Href(r) + rest, before) == DEFAULT_LABEL + FormatFrom(web, rest, Some(Href(r)[|Href(r)| - 1]))
  {
    hide *;
    var h := Href(r);
    var s := h + rest;
    JoinParts(h, rest);
    CandidateReplaced(web, s, before, Bare(|h|));
    AfterIsBoundary(rest);
    BareShown(web, h, |h|, before, if |h| < |s| then Some(s[|h|]) else None);
  }

  lemma AfterIsBoundary(rest: string)
    requires Apart(rest)
    ensures rest != "" ==> RightBoundary(rest[0])
  {
    if rest != "" { SpaceIsNoQuery(rest[0]); }
  }

  /** Alone, it is shown as the default label only. */
  lemma BareLinkAlone(web: Web, r: Reference)
    requires Faithful(web) && ValidReference(r)
    ensures Format(web, Href(r)) == DEFAULT_LABEL
  {
    hide Href, Faithful, ValidReference;
    BareLinkShown(web, r, "", None);
    JoinEmpty(Href(r));
    JoinEmpty(DEFAULT_LABEL);
    assert forall b: Option<char> :: FormatFrom(web, "", b) == "";
  }
}
