/**
 References to places inside the site: recognising and normalising a link, writing it as Markdown, and showing it as
 plain text. The general URL parser and percent-decoder are parameters; what is used of them is `Faithful`.
 */
module InternalReference {
  import opened Options
  import opened Text

  // ----- URLs

  /** The parts of a parsed URL that are looked at. */
  datatype Url = Url(
    https: bool, hostname: string, port: string, username: string, password: string, pathname: string,
    params: seq<(string, string)>)

  /** `url` resolves a text against the production origin; `decode` is percent-decoding. Both can fail. */
  datatype Web = Web(url: string -> Option<Url>, decode: string -> Option<string>)

  const PRODUCTION_HOST := "wenyou.site"

  predicate IsWordChar(c: char) {
    'a' <= c <= 'z' || 'A' <= c <= 'Z' || '0' <= c <= '9' || c == '_' || c == '-'
  }

  predicate PlainWord(s: string) {
    s != "" && forall c | c in s :: IsWordChar(c)
  }

  predicate PlainPath(s: string) {
    |s| > 1 && s[0] == '/' && s[1] != '/' && forall c | c in s :: IsWordChar(c) || c == '/'
  }

  function WithQuery(path: string, key: string, value: string): string {
    path + "?" + key + "=" + value
  }

  function LocalUrl(path: string, params: seq<(string, string)>): Url {
    Url(true, PRODUCTION_HOST, "", "", "", path, params)
  }

  /** On plain paths, with no query or one plain parameter, nothing needs decoding or resolving. */
  ghost predicate Faithful(web: Web) {
    (forall word | PlainWord(word) :: web.decode(word) == Some(word)) &&
    (forall path | PlainPath(path) :: web.url(path) == Some(LocalUrl(path, []))) &&
    forall path, key, value | PlainPath(path) && PlainWord(key) && PlainWord(value) ::
      web.url(WithQuery(path, key, value)) == Some(LocalUrl(path, [(key, value)]))
  }

  // ----- References

  datatype Reference =
    | Thread(threadId: string)
    | Subthread(threadId: string, subthreadId: string)
    | Floor(threadId: string, postId: string)
    | Discussion(threadId: string, floorPostId: string)
    | Reply(threadId: string, floorPostId: string, postId: string)
    | Invite(token: string)

  predicate ValidId(s: string) {
    20 <= |s| <= 32 && forall c | c in s :: 'a' <= c <= 'z' || '0' <= c <= '9'
  }

  predicate ValidToken(s: string) {
    |s| == 16 && forall c | c in s :: IsWordChar(c)
  }

  predicate ValidReference(r: Reference) {
    match r
    case Thread(t) => ValidId(t)
    case Subthread(t, s) => ValidId(t) && ValidId(s)
    case Floor(t, p) => ValidId(t) && ValidId(p)
    case Discussion(t, f) => ValidId(t) && ValidId(f)
    case Reply(t, f, p) => ValidId(t) && ValidId(f) && ValidId(p)
    case Invite(token) => ValidToken(token)
  }

  function ThreadPath(t: string): string { "/threads/" + t }

  function DiscussionPath(t: string, f: string): string { "/threads/" + t + "/posts/" + f + "/replies" }

  function PathOf(r: Reference): string {
    match r
    case Thread(t) => ThreadPath(t)
    case Subthread(t, _) => ThreadPath(t)
    case Floor(t, _) => ThreadPath(t)
    case Discussion(t, f) => DiscussionPath(t, f)
    case Reply(t, f, _) => DiscussionPath(t, f)
    case Invite(token) => "/join/" + token
  }

  function ParamsOf(r: Reference): seq<(string, string)> {
    match r
    case Subthread(_, s) => [("subthread", s)]
    case Floor(_, p) => [("post", p)]
    case Reply(_, _, p) => [("post", p)]
    case _ => []
  }

  /** The canonical link. */
  function Href(r: Reference): string {
    if ParamsOf(r) == [] then PathOf(r) else WithQuery(PathOf(r), ParamsOf(r)[0].0, ParamsOf(r)[0].1)
  }

  // ----- parseInternalReference

  /** What precedes the first slash. */
  function UpToSlash(s: string): (r: string)
    ensures |r| <= |s| && r == s[..|r|] && '/' !in r
    ensures |r| < |s| ==> s[|r|] == '/'
  {
    if s == "" || s[0] == '/' then "" else [s[0]] + UpToSlash(s[1..])
  }

  function StripPrefix(prefix: string, s: string): Option<string> {
    if prefix <= s then Some(s[|prefix|..]) else None
  }

  /** The single segment after a prefix. */
  function SegmentAfter(prefix: string, path: string): Option<string> {
    match StripPrefix(prefix, path)
    case None => None
    case Some(rest) => if rest != "" && '/' !in rest then Some(rest) else None
  }

  function DiscussionRoute(path: string): Option<(string, string)> {
    match StripPrefix("/threads/", path)
    case None => None
    case Some(rest) =>
      var t := UpToSlash(rest);
      match StripPrefix("/posts/", rest[|t|..])
      case None => None
      case Some(tail) =>
        var f := UpToSlash(tail);
        if t != "" && f != "" && tail[|f|..] == "/replies" then Some((t, f)) else None
  }

  function Get(params: seq<(string, string)>, key: string): Option<string> {
    if params == [] then None else if params[0].0 == key then Some(params[0].1) else Get(params[1..], key)
  }

  function Count(params: seq<(string, string)>, key: string): nat {
    if params == [] then 0 else (if params[0].0 == key then 1 else 0) + Count(params[1..], key)
  }

  predicate OnlyQuery(params: seq<(string, string)>, allowed: Option<string>) {
    match allowed
    case None => params == []
    case Some(key) => |params| == 1 && params[0].0 == key
  }

  /** `post`, perhaps together with `subthread`, each once, and nothing else. */
  predicate ThreadCoordinate(params: seq<(string, string)>) {
    Count(params, "post") == 1 && Count(params, "subthread") <= 1 &&
    forall p | p in params :: p.0 == "post" || p.0 == "subthread"
  }

  function ThreadReference(t: string, params: seq<(string, string)>): Option<Reference> {
    if !ValidId(t) then None
    else
      match (Get(params, "post"), Get(params, "subthread"))
      case (Some(p), _) => if ValidId(p) && ThreadCoordinate(params) then Some(Floor(t, p)) else None
      case (None, Some(s)) => if ValidId(s) && OnlyQuery(params, Some("subthread")) then Some(Subthread(t, s)) else None
      case (None, None) => if OnlyQuery(params, None) then Some(Thread(t)) else None
  }

  function DiscussionReference(t: string, f: string, params: seq<(string, string)>): Option<Reference> {
    if !ValidId(t) || !ValidId(f) then None
    else
      match Get(params, "post")
      case Some(p) => if ValidId(p) && OnlyQuery(params, Some("post")) then Some(Reply(t, f, p)) else None
      case None => if OnlyQuery(params, None) then Some(Discussion(t, f)) else None
  }

  function InviteReference(token: string, params: seq<(string, string)>): Option<Reference> {
    if ValidToken(token) && OnlyQuery(params, None) then Some(Invite(token)) else None
  }

  function Route(web: Web, path: string, params: seq<(string, string)>): Option<Reference> {
    match (SegmentAfter("/threads/", path), SegmentAfter("/join/", path), DiscussionRoute(path))
    case (Some(t), _, _) => (match web.decode(t) case None => None case Some(id) => ThreadReference(id, params))
    case (None, Some(token), _) => (match web.decode(token) case None => None case Some(id) => InviteReference(id, params))
    case (None, None, Some((t, f))) =>
      (match (web.decode(t), web.decode(f))
       case (Some(id), Some(floor)) => DiscussionReference(id, floor, params)
       case _ => None)
    case (None, None, None) => None
  }

  predicate ProductionHost(hostname: string) {
    LowerAll(hostname) == PRODUCTION_HOST || LowerAll(hostname) == "www." + PRODUCTION_HOST
  }

  function Parse(web: Web, input: string): Option<Reference> {
    var trimmed := Trim(input);
    if trimmed == "" || '#' in trimmed then None
    else
      var relative := trimmed[0] == '/' && !("//" <= trimmed);
      match web.url(trimmed)
      case None => None
      case Some(url) =>
        if !relative && (!url.https || !ProductionHost(url.hostname) || url.port != "") then None
        else if url.username != "" || url.password != "" then None
        else Route(web, url.pathname, url.params)
  }

  lemma ParsedIsValid(web: Web, input: string)
    requires Parse(web, input).Some?
    ensures ValidReference(Parse(web, input).value)
  {
    hide SegmentAfter, DiscussionRoute, ProductionHost, Trim, ValidId, ValidToken, ThreadCoordinate, Get;
  }

  // ----- Canonical links

  lemma IdsArePlain(s: string)
    requires ValidId(s) || ValidToken(s)
    ensures PlainWord(s) && '/' !in s
  {
    assert s[0] in s;
    assert forall c | c in s :: IsWordChar(c);
  }

  /** Nothing in a plain link is trimmed, ends it early, or makes it something else. */
  ghost predicate PlainText(s: string) {
    Trimmed(s) && |s| > 1 && '#' !in s && s[0] == '/' && s[1] != '/' && forall c | c in s :: c != ')' && c != '\r' && c != '\n'
  }

  lemma PlainPathText(path: string)
    requires PlainPath(path)
    ensures PlainText(path)
  {
    assert path[|path| - 1] in path;
  }

  lemma PlainQueryText(path: string, key: string, value: string)
    requires PlainPath(path) && PlainWord(key) && PlainWord(value)
    ensures PlainText(WithQuery(path, key, value))
  {
    var s := WithQuery(path, key, value);
    assert s[0] == path[0] && s[1] == path[1];
    assert s[|s| - 1] == value[|value| - 1] && value[|value| - 1] in value;
    forall c | c in s
      ensures IsWordChar(c) || c == '/' || c == '?' || c == '='
    {
      assert c in path || c in "?" || c in key || c in "=" || c in value;
    }
  }

  lemma ThreadPathRoutes(t: string)
    requires ValidId(t)
    ensures PlainPath(ThreadPath(t)) && SegmentAfter("/threads/", ThreadPath(t)) == Some(t)
  {
    IdsArePlain(t);
    var path := ThreadPath(t);
    assert path[|"/threads/"|..] == t;
    assert forall c | c in path :: c in "/threads/" || c in t;
  }

  lemma InvitePathRoutes(token: string)
    requires ValidToken(token)
    ensures PlainPath("/join/" + token) && SegmentAfter("/join/", "/join/" + token) == Some(token)
    ensures SegmentAfter("/threads/", "/join/" + token).None?
  {
    IdsArePlain(token);
    var path := "/join/" + token;
    assert path[|"/join/"|..] == token;
    assert path[1] == 'j' && "/threads/"[1] == 't';
    assert forall c | c in path :: c in "/join/" || c in token;
  }

  lemma {:induction false} UpToSlashJoin(s: string, rest: string)
    requires '/' !in s && (rest == "" || rest[0] == '/')
    ensures UpToSlash(s + rest) == s
  {
    if s == "" {
      assert s + rest == rest;
    } else {
      assert (s + rest)[0] == s[0] && s[0] in s && (s + rest)[1..] == s[1..] + rest;
      UpToSlashJoin(s[1..], rest);
    }
  }

  lemma StripPrefixJoin(prefix: string, s: string)
    ensures StripPrefix(prefix, prefix + s) == Some(s)
  {
    assert (prefix + s)[|prefix|..] == s;
  }

  lemma SplitAtSlash(s: string, rest: string)
    requires '/' !in s && (rest == "" || rest[0] == '/')
    ensures UpToSlash(s + rest) == s && (s + rest)[|s|..] == rest
  {
    UpToSlashJoin(s, rest);
  }

  lemma PlainParts(t: string, f: string)
    requires PlainWord(t) && PlainWord(f)
    ensures PlainPath(DiscussionPath(t, f))
  {
    hide PlainWord;
    var path := DiscussionPath(t, f);
    assert path[0] == '/' && path[1] == 't';
    forall c | c in path
      ensures IsWordChar(c) || c == '/'
    {
      assert c in "/threads/" || c in t || c in "/posts/" || c in f || c in "/replies";
      WordCharsOf(t);
      WordCharsOf(f);
    }
  }

  lemma WordCharsOf(s: string)
    requires PlainWord(s)
    ensures forall c | c in s :: IsWordChar(c)
  {
  }

  lemma NotOneSegment(t: string, rest: string)
    requires rest != "" && rest[0] == '/'
    ensures SegmentAfter("/threads/", "/threads/" + (t + rest)).None? && SegmentAfter("/join/", "/threads/" + (t + rest)).None?
  {
    StripPrefixJoin("/threads/", t + rest);
    assert (t + rest)[|t|] == '/';
    assert ("/threads/" + (t + rest))[1] == 't' && "/join/"[1] == 'j';
  }

  lemma DiscussionPathRoutes(t: string, f: string)
    requires ValidId(t) && ValidId(f)
    ensures PlainPath(DiscussionPath(t, f)) && DiscussionRoute(DiscussionPath(t, f)) == Some((t, f))
    ensures SegmentAfter("/threads/", DiscussionPath(t, f)).None? && SegmentAfter("/join/", DiscussionPath(t, f)).None?
  {
    hide ValidId, PlainWord, PlainPath, UpToSlash, SegmentAfter, StripPrefix;
    IdsArePlain(t);
    IdsArePlain(f);
    PlainParts(t, f);
    var tail := f + "/replies";
    var rest := "/posts/" + tail;
    assert DiscussionPath(t, f) == "/threads/" + (t + rest);
    NotOneSegment(t, rest);
    StripPrefixJoin("/threads/", t + rest);
    SplitAtSlash(t, rest);
    StripPrefixJoin("/posts/", tail);
    SplitAtSlash(f, "/replies");
    assert t != "" && f != "" by { NotEmpty(t); NotEmpty(f); }
  }

  lemma NotEmpty(s: string)
    requires PlainWord(s)
    ensures s != ""
  {
  }

  /** What the query decides, for the three shapes a canonical link has. */
  lemma OneParameter(key: string, value: string)
    ensures Get([(key, value)], key) == Some(value) && Count([(key, value)], key) == 1
    ensures forall other | other != key :: Get([(key, value)], other) == None && Count([(key, value)], other) == 0
  {
    assert [(key, value)][1..] == [];
  }

  ghost predicate PlainParams(params: seq<(string, string)>) {
    |params| <= 1 && forall p | p in params :: PlainWord(p.0) && PlainWord(p.1)
  }

  lemma RouteCanonical(web: Web, r: Reference)
    requires Faithful(web) && ValidReference(r)
    ensures PlainPath(PathOf(r)) && PlainParams(ParamsOf(r)) && Route(web, PathOf(r), ParamsOf(r)) == Some(r)
  {
    hide PlainWord, PlainPath, ValidId, ValidToken, SegmentAfter, DiscussionRoute, ThreadPath, DiscussionPath, Get, Count;
    Keywords();
    match r
    case Thread(t) =>
      ThreadPathRoutes(t);
      IdsArePlain(t);
      NoParameter();
    case Subthread(t, s) =>
      ThreadPathRoutes(t);
      IdsArePlain(t);
      IdsArePlain(s);
      OneParameter("subthread", s);
    case Floor(t, p) =>
      ThreadPathRoutes(t);
      IdsArePlain(t);
      IdsArePlain(p);
      OneParameter("post", p);
    case Discussion(t, f) =>
      DiscussionPathRoutes(t, f);
      IdsArePlain(t);
      IdsArePlain(f);
      NoParameter();
    case Reply(t, f, p) =>
      DiscussionPathRoutes(t, f);
      IdsArePlain(t);
      IdsArePlain(f);
      IdsArePlain(p);
      OneParameter("post", p);
    case Invite(token) =>
      InvitePathRoutes(token);
      IdsArePlain(token);
  }

  lemma NoParameter()
    ensures forall key :: Get([], key) == None
  {
  }

  lemma Keywords()
    ensures PlainWord("post") && PlainWord("subthread") && "post" != "subthread"
  {
    assert "post"[0] == 'p' && "subthread"[0] == 's';
  }

  lemma HrefIsPlain(web: Web, r: Reference)
    requires Faithful(web) && ValidReference(r)
    ensures PlainText(Href(r)) && web.url(Href(r)) == Some(LocalUrl(PathOf(r), ParamsOf(r)))
  {
    hide Route, PlainPath, PlainWord, ValidReference, PathOf, ParamsOf, PlainText, WithQuery;
    RouteCanonical(web, r);
    if ParamsOf(r) == [] {
      PlainPathText(PathOf(r));
    } else {
      var p := ParamsOf(r)[0];
      assert p in ParamsOf(r) && ParamsOf(r) == [(p.0, p.1)];
      PlainQueryText(PathOf(r), p.0, p.1);
    }
  }

  /** Every canonical link, of all six kinds, parses to the reference it was made from. */
  lemma CanonicalHrefParses(web: Web, r: Reference)
    requires Faithful(web) && ValidReference(r)
    ensures Parse(web, Href(r)) == Some(r)
  {
    hide Href, Route, Faithful, ValidReference, Trim, PathOf, ParamsOf;
    HrefIsPlain(web, r);
    TrimTrims(Href(r));
    RouteCanonical(web, r);
  }

  /** Normalising is idempotent: the link of what was recognised is recognised as the same. */
  lemma NormalisingIsIdempotent(web: Web, input: string)
    requires Faithful(web) && Parse(web, input).Some?
    ensures Parse(web, Href(Parse(web, input).value)) == Parse(web, input)
  {
    ParsedIsValid(web, input);
    CanonicalHrefParses(web, Parse(web, input).value);
  }
}
