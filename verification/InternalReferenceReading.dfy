/** Which links are recognised as internal references, said on the parts of the link and of the parsed URL. */
module InternalReferenceReading {
  import opened Options
  import opened Sequences
  import opened Text
  import opened Spacing
  import opened InternalReference

  type Params = seq<(string, string)>

  /** One path segment. */
  ghost predicate Segment(s: string) {
    s != "" && forall i: nat | i < |s| :: s[i] != '/'
  }

  /** 20 to 32 small letters and digits. */
  ghost predicate IdForm(s: string) {
    20 <= |s| <= 32 && forall i: nat | i < |s| :: 'a' <= s[i] <= 'z' || '0' <= s[i] <= '9'
  }

  ghost predicate TokenForm(s: string) {
    |s| == 16 && forall i: nat | i < |s| ::
      'a' <= s[i] <= 'z' || 'A' <= s[i] <= 'Z' || '0' <= s[i] <= '9' || s[i] == '_' || s[i] == '-'
  }

  /** `path` is a prefix and one more segment, which decodes to `id`. */
  ghost predicate LeadsTo(web: Web, prefix: string, path: string, id: string) {
    exists seg :: Segment(seg) && path == prefix + seg && web.decode(seg) == Some(id)
  }

  ghost predicate LeadsToReplies(web: Web, path: string, t: string, f: string) {
    exists a, b :: Segment(a) && Segment(b) && path == "/threads/" + (a + ("/posts/" + (b + "/replies"))) &&
                   web.decode(a) == Some(t) && web.decode(b) == Some(f)
  }

  /** The parameter `post`, alone or with one `subthread` beside it. */
  ghost predicate NamesPost(params: Params, p: string) {
    params == [("post", p)] ||
    exists s :: params == [("post", p), ("subthread", s)] || params == [("subthread", s), ("post", p)]
  }

  /** A path and query name a reference of one of the six kinds. */
  ghost predicate Names(web: Web, path: string, params: Params, r: Reference) {
    match r
    case Thread(t) => LeadsTo(web, "/threads/", path, t) && IdForm(t) && params == []
    case Subthread(t, s) => LeadsTo(web, "/threads/", path, t) && IdForm(t) && IdForm(s) && params == [("subthread", s)]
    case Floor(t, p) => LeadsTo(web, "/threads/", path, t) && IdForm(t) && IdForm(p) && NamesPost(params, p)
    case Discussion(t, f) => LeadsToReplies(web, path, t, f) && IdForm(t) && IdForm(f) && params == []
    case Reply(t, f, p) => LeadsToReplies(web, path, t, f) && IdForm(t) && IdForm(f) && IdForm(p) && params == [("post", p)]
    case Invite(token) => LeadsTo(web, "/join/", path, token) && TokenForm(token) && params == []
  }

  /** `wenyou.site` or `www.wenyou.site`, in any case. */
  ghost predicate SiteHost(h: string) {
    (|h| == 11 && forall i: nat | i < 11 :: Lower(h[i]) == "wenyou.site"[i]) ||
    (|h| == 15 && forall i: nat | i < 15 :: Lower(h[i]) == "www.wenyou.site"[i])
  }

  /** Starts with exactly one slash. */
  ghost predicate Relative(s: string) {
    s != "" && s[0] == '/' && (|s| > 1 ==> s[1] != '/')
  }

  /**
   The link, without the white space around it, has no fragment; it is relative, or absolute with https, a host of the
   site and no port; it carries no user and no password; and its path and query name the reference.
   */
  ghost predicate Recognised(web: Web, input: string, r: Reference) {
    exists link :: IsTrimmed(input, link) && link != "" && (forall i: nat | i < |link| :: link[i] != '#') &&
                   exists url :: web.url(link) == Some(url) &&
                                 (Relative(link) || (url.https && SiteHost(url.hostname) && url.port == "")) &&
                                 url.username == "" && url.password == "" && Names(web, url.pathname, url.params, r)
  }

  lemma FormsIff(s: string)
    ensures ValidId(s) <==> IdForm(s)
    ensures ValidToken(s) <==> TokenForm(s)
    ensures s != "" && '/' !in s <==> Segment(s)
  {
    assert forall i: nat | i < |s| :: s[i] in s;
  }

  lemma HostIs(h: string, host: string)
    ensures LowerAll(h) == host <==> |h| == |host| && forall i: nat | i < |h| :: Lower(h[i]) == host[i]
  {
    hide Lower;
  }

  lemma HostIff(h: string)
    ensures ProductionHost(h) <==> SiteHost(h)
  {
    hide Lower;
    HostIs(h, "wenyou.site");
    HostIs(h, "www.wenyou.site");
    assert "www." + PRODUCTION_HOST == "www.wenyou.site";
  }

  // ----- Paths

  lemma SegmentIff(prefix: string, path: string, seg: string)
    ensures SegmentAfter(prefix, path) == Some(seg) <==> Segment(seg) && path == prefix + seg
  {
    hide Segment;
    FormsIff(seg);
    if prefix <= path { HeadAndTail(path, |prefix|); }
    JoinParts(prefix, seg);
  }

  lemma RepliesIff(path: string, a: string, b: string)
    ensures DiscussionRoute(path) == Some((a, b)) <==>
            Segment(a) && Segment(b) && path == "/threads/" + (a + ("/posts/" + (b + "/replies")))
  {
    hide UpToSlash, Segment;
    FormsIff(a);
    FormsIff(b);
    if DiscussionRoute(path) == Some((a, b)) { RouteParts(path, a, b); }
    if Segment(a) && Segment(b) && path == "/threads/" + (a + ("/posts/" + (b + "/replies"))) { PartsRoute(a, b); }
  }

  lemma RouteParts(path: string, a: string, b: string)
    requires DiscussionRoute(path) == Some((a, b))
    ensures path == "/threads/" + (a + ("/posts/" + (b + "/replies"))) && a != "" && b != "" && '/' !in a && '/' !in b
  {
    hide UpToSlash;
    var rest := path[|"/threads/"|..];
    var tail := rest[|a|..][|"/posts/"|..];
    assert a == UpToSlash(rest) && b == UpToSlash(tail) && tail[|b|..] == "/replies";
    HeadAndTail(path, |"/threads/"|);
    HeadAndTail(rest, |a|);
    HeadAndTail(rest[|a|..], |"/posts/"|);
    HeadAndTail(tail, |b|);
  }

  lemma PartsRoute(a: string, b: string)
    requires a != "" && b != "" && '/' !in a && '/' !in b
    ensures DiscussionRoute("/threads/" + (a + ("/posts/" + (b + "/replies")))) == Some((a, b))
  {
    hide UpToSlash, StripPrefix;
    var tail := b + "/replies";
    var rest := "/posts/" + tail;
    StripPrefixJoin("/threads/", a + rest);
    SplitAtSlash(a, rest);
    StripPrefixJoin("/posts/", tail);
    SplitAtSlash(b, "/replies");
  }

  /** The three kinds of paths exclude each other. */
  lemma PathsDiffer(a: string, rest: string, seg: string)
    requires rest != "" && rest[0] == '/' && Segment(seg)
    ensures "/threads/" + (a + rest) != "/threads/" + seg && "/threads/" + (a + rest) != "/join/" + seg && "/threads/" + a != "/join/" + seg
  {
    var path := "/threads/" + (a + rest);
    assert path[|"/threads/"| + |a|] == '/';
    assert path[1] == 't' && ("/join/" + seg)[1] == 'j' && ("/threads/" + a)[1] == 't';
  }

  // ----- Queries

  lemma {:induction false} CountsAdd(params: Params)
    requires forall p | p in params :: p.0 == "post" || p.0 == "subthread"
    ensures |params| == Count(params, "post") + Count(params, "subthread")
  {
    if params != [] {
      assert params[0] in params;
      assert "post"[0] == 'p' && "subthread"[0] == 's';
      CountsAdd(params[1..]);
    }
  }

  lemma KeysDiffer()
    ensures "post" != "subthread"
  {
    assert "post"[0] == 'p' && "subthread"[0] == 's';
  }

  lemma GetOf(params: Params, key: string)
    ensures |params| == 0 ==> Get(params, key) == None && Count(params, key) == 0
    ensures |params| == 1 ==> Get(params, key) == (if params[0].0 == key then Some(params[0].1) else None) &&
                              Count(params, key) == (if params[0].0 == key then 1 else 0)
    ensures |params| == 2 ==> Get(params, key) == (if params[0].0 == key then Some(params[0].1)
                                                   else if params[1].0 == key then Some(params[1].1) else None) &&
                              Count(params, key) == (if params[0].0 == key then 1 else 0) + (if params[1].0 == key then 1 else 0)
  {
    if |params| == 2 {
      var rest := params[1..];
      assert |rest[1..]| == 0;
    } else if |params| == 1 {
      assert |params[1..]| == 0;
    }
  }

  lemma PostIff(params: Params, p: string)
    ensures Get(params, "post") == Some(p) && ThreadCoordinate(params) <==> NamesPost(params, p)
  {
    hide Get, Count;
    KeysDiffer();
    GetOf(params, "post");
    GetOf(params, "subthread");
    if ThreadCoordinate(params) { CountsAdd(params); }
    if ThreadCoordinate(params) && Get(params, "post") == Some(p) {
      assert 1 <= |params| <= 2;
      assert params[0] in params;
      if |params| == 1 {
        assert params == [("post", p)];
      } else {
        assert params[1] in params;
        assert params == [params[0], params[1]];
        var s := if params[0].0 == "post" then params[1].1 else params[0].1;
        assert params == [("post", p), ("subthread", s)] || params == [("subthread", s), ("post", p)];
      }
    }
  }

  lemma OneParamIff(params: Params, key: string, value: string)
    ensures Get(params, key) == Some(value) && OnlyQuery(params, Some(key)) <==> params == [(key, value)]
  {
    hide Get, Count;
    GetOf(params, key);
    if |params| == 1 { assert params == [params[0]]; }
  }

  // ----- References

  ghost predicate ThreadNames(t: string, params: Params, r: Reference) {
    IdForm(t) &&
    match r
    case Thread(u) => u == t && params == []
    case Subthread(u, s) => u == t && IdForm(s) && params == [("subthread", s)]
    case Floor(u, p) => u == t && IdForm(p) && NamesPost(params, p)
    case _ => false
  }

  ghost predicate DiscussionNames(t: string, f: string, params: Params, r: Reference) {
    IdForm(t) && IdForm(f) &&
    match r
    case Discussion(u, g) => u == t && g == f && params == []
    case Reply(u, g, p) => u == t && g == f && IdForm(p) && params == [("post", p)]
    case _ => false
  }

  lemma NoParams(params: Params, key: string)
    requires params == []
    ensures Get(params, key) == None
  {
  }

  lemma PostIsThere(params: Params, p: string)
    requires NamesPost(params, p)
    ensures params != [] && forall s :: params != [("subthread", s)]
  {
    KeysDiffer();
    assert params[0].0 == "subthread" ==> |params| == 2;
  }

  lemma ThreadIff(t: string, params: Params, r: Reference)
    ensures ThreadReference(t, params) == Some(r) <==> ThreadNames(t, params, r)
  {
    hide Get, Count, ValidId, IdForm, ThreadCoordinate, NamesPost;
    KeysDiffer();
    FormsIff(t);
    GetOf(params, "post");
    match r
    case Thread(_) =>
      if params == [] { NoParams(params, "subthread"); }
    case Subthread(_, s) =>
      FormsIff(s);
      OneParamIff(params, "subthread", s);
    case Floor(_, p) =>
      FormsIff(p);
      PostIff(params, p);
    case _ =>
  }

  lemma DiscussionIff(t: string, f: string, params: Params, r: Reference)
    ensures DiscussionReference(t, f, params) == Some(r) <==> DiscussionNames(t, f, params, r)
  {
    hide Get, Count, ValidId, IdForm;
    FormsIff(t);
    FormsIff(f);
    GetOf(params, "post");
    if r.Reply? {
      FormsIff(r.postId);
      OneParamIff(params, "post", r.postId);
    }
  }

  lemma InviteIff(token: string, params: Params, r: Reference)
    ensures InviteReference(token, params) == Some(r) <==> r == Invite(token) && TokenForm(token) && params == []
  {
    hide ValidToken, TokenForm;
    FormsIff(token);
  }

  lemma LeadsIff(web: Web, prefix: string, path: string, id: string)
    ensures LeadsTo(web, prefix, path, id) <==>
            SegmentAfter(prefix, path).Some? && web.decode(SegmentAfter(prefix, path).value) == Some(id)
  {
    hide Segment, SegmentAfter;
    if LeadsTo(web, prefix, path, id) {
      var seg :| Segment(seg) && path == prefix + seg && web.decode(seg) == Some(id);
      SegmentIff(prefix, path, seg);
    }
    if SegmentAfter(prefix, path).Some? { SegmentIff(prefix, path, SegmentAfter(prefix, path).value); }
  }

  lemma LeadsToRepliesIff(web: Web, path: string, t: string, f: string)
    ensures LeadsToReplies(web, path, t, f) <==>
            DiscussionRoute(path).Some? && web.decode(DiscussionRoute(path).value.0) == Some(t) &&
            web.decode(DiscussionRoute(path).value.1) == Some(f)
  {
    hide Segment, DiscussionRoute;
    if LeadsToReplies(web, path, t, f) {
      var a, b :| Segment(a) && Segment(b) && path == "/threads/" + (a + ("/posts/" + (b + "/replies"))) &&
                  web.decode(a) == Some(t) && web.decode(b) == Some(f);
      RepliesIff(path, a, b);
    }
    if DiscussionRoute(path).Some? {
      var (a, b) := DiscussionRoute(path).value;
      RepliesIff(path, a, b);
    }
  }

  lemma PathIsOneKind(path: string)
    ensures SegmentAfter("/threads/", path).Some? ==> SegmentAfter("/join/", path).None? && DiscussionRoute(path).None?
    ensures SegmentAfter("/join/", path).Some? ==> DiscussionRoute(path).None?
  {
    hide Segment, SegmentAfter, DiscussionRoute;
    var thread, join, replies := SegmentAfter("/threads/", path), SegmentAfter("/join/", path), DiscussionRoute(path);
    if thread.Some? { SegmentIff("/threads/", path, thread.value); }
    if join.Some? { SegmentIff("/join/", path, join.value); }
    if replies.Some? {
      var (a, b) := replies.value;
      RepliesIff(path, a, b);
      if thread.Some? { PathsDiffer(a, "/posts/" + (b + "/replies"), thread.value); }
      if join.Some? { PathsDiffer(a, "/posts/" + (b + "/replies"), join.value); }
    }
    if thread.Some? && join.Some? { PathsDiffer(thread.value, "/", join.value); }
  }

  lemma NamesByPath(web: Web, path: string, params: Params, r: Reference)
    ensures Names(web, path, params, r) <==>
            match (SegmentAfter("/threads/", path), SegmentAfter("/join/", path), DiscussionRoute(path))
            case (Some(seg), _, _) => web.decode(seg).Some? && ThreadNames(web.decode(seg).value, params, r)
            case (None, Some(seg), _) => web.decode(seg).Some? && r == Invite(web.decode(seg).value) && TokenForm(web.decode(seg).value) && params == []
            case (None, None, Some((a, b))) =>
              web.decode(a).Some? && web.decode(b).Some? && DiscussionNames(web.decode(a).value, web.decode(b).value, params, r)
            case _ => false
  {
    hide SegmentAfter, DiscussionRoute, LeadsTo, LeadsToReplies, IdForm, TokenForm, NamesPost;
    PathIsOneKind(path);
    match r
    case Thread(t) => LeadsIff(web, "/threads/", path, t);
    case Subthread(t, _) => LeadsIff(web, "/threads/", path, t);
    case Floor(t, _) => LeadsIff(web, "/threads/", path, t);
    case Discussion(t, f) => LeadsToRepliesIff(web, path, t, f);
    case Reply(t, f, _) => LeadsToRepliesIff(web, path, t, f);
    case Invite(token) => LeadsIff(web, "/join/", path, token);
  }

  lemma RouteIff(web: Web, path: string, params: Params, r: Reference)
    ensures Route(web, path, params) == Some(r) <==> Names(web, path, params, r)
  {
    hide SegmentAfter, DiscussionRoute, ThreadReference, DiscussionReference, InviteReference, Names, ThreadNames, DiscussionNames, TokenForm;
    NamesByPath(web, path, params, r);
    match (SegmentAfter("/threads/", path), SegmentAfter("/join/", path), DiscussionRoute(path))
    case (Some(seg), _, _) => if web.decode(seg).Some? { ThreadIff(web.decode(seg).value, params, r); }
    case (None, Some(seg), _) => if web.decode(seg).Some? { InviteIff(web.decode(seg).value, params, r); }
    case (None, None, Some((a, b))) =>
      if web.decode(a).Some? && web.decode(b).Some? { DiscussionIff(web.decode(a).value, web.decode(b).value, params, r); }
    case _ =>
  }

  lemma RelativeIff(s: string)
    requires s != ""
    ensures Relative(s) <==> s[0] == '/' && !("//" <= s)
  {
    if |s| > 1 && s[0] == '/' && s[1] == '/' { assert s[..2] == "//"; }
  }

  lemma ParseAt(web: Web, input: string, link: string, url: Url, r: Reference)
    requires Trim(input) == link != "" && web.url(link) == Some(url)
    ensures Parse(web, input) == Some(r) <==>
            (forall i: nat | i < |link| :: link[i] != '#') &&
            (Relative(link) || (url.https && SiteHost(url.hostname) && url.port == "")) &&
            url.username == "" && url.password == "" && Names(web, url.pathname, url.params, r)
  {
    hide Trim, Route, Names, Relative, ProductionHost, SiteHost;
    RelativeIff(link);
    HostIff(url.hostname);
    RouteIff(web, url.pathname, url.params, r);
    assert forall i: nat | i < |link| :: link[i] in link;
  }

  /** A link is recognised exactly when its parts are right, and as what its path and query name. */
  lemma ParseIff(web: Web, input: string, r: Reference)
    ensures Parse(web, input) == Some(r) <==> Recognised(web, input, r)
  {
    hide Trim, IsTrimmed, Route, Names, Relative, SiteHost, ProductionHost;
    if Parse(web, input) == Some(r) {
      var link := Trim(input);
      TrimIff(input, link);
      ParseAt(web, input, link, web.url(link).value, r);
    }
    if Recognised(web, input, r) {
      var link :| IsTrimmed(input, link) && link != "" && (forall i: nat | i < |link| :: link[i] != '#') &&
                  exists url :: web.url(link) == Some(url) &&
                                (Relative(link) || (url.https && SiteHost(url.hostname) && url.port == "")) &&
                                url.username == "" && url.password == "" && Names(web, url.pathname, url.params, r);
      TrimIff(input, link);
      ParseAt(web, input, link, web.url(link).value, r);
    }
  }

  /** An absolute link is recognised only with https, on the site's own host and without a port. */
  lemma AbsoluteOnlyOnSite(web: Web, input: string, link: string)
    requires IsTrimmed(input, link) && link != "" && !Relative(link)
    ensures Parse(web, input).Some? ==>
              web.url(link).Some? && web.url(link).value.https && SiteHost(web.url(link).value.hostname) && web.url(link).value.port == ""
  {
    hide Trim, IsTrimmed, Route, Names, Relative, SiteHost, ProductionHost, Parse;
    TrimIff(input, link);
    if Parse(web, input).Some? {
      ParsedAt(web, input);
      ParseAt(web, input, link, web.url(link).value, Parse(web, input).value);
    }
  }

  lemma ParsedAt(web: Web, input: string)
    requires Parse(web, input).Some?
    ensures web.url(Trim(input)).Some?
  {
    hide Trim, Route, ProductionHost;
  }
}
