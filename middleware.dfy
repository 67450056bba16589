/**
 * The session gate of `middleware.ts`: a request for a protected page without a
 * `session` cookie is redirected to `/login`; everything else goes through.
 */
module Middleware {
  import opened Text

  /** `protectedPaths`, in the order the source lists them. */
  const ProtectedPaths: seq<string> := [
    "/", "/customers", "/vendors", "/mechanics", "/inventory", "/parts", "/orders",
    "/jobs", "/services", "/service-history", "/feedback", "/support", "/settings", "/reports"
  ]

  /** `NextResponse.next()` or `NextResponse.redirect(...)`. */
  datatype Decision = Next | Redirect(location: string)

  /** One entry of the list matches: the whole path, or the entry followed by `/`. */
  predicate Covers(pathname: string, path: string) {
    pathname == path || StartsWith(pathname, path + "/")
  }

  /** `paths.some(path => Covers(pathname, path))` */
  predicate SomeCovers(pathname: string, paths: seq<string>)
    decreases |paths|
  {
    |paths| > 0 && (Covers(pathname, paths[0]) || SomeCovers(pathname, paths[1..]))
  }

  predicate IsProtected(pathname: string) {
    SomeCovers(pathname, ProtectedPaths)
  }

  /** The login page and the API namespace bypass the gate. */
  predicate IsExempt(pathname: string) {
    pathname == "/login" || StartsWith(pathname, "/api/")
  }

  /** `middleware(request)`, with the request reduced to its path and whether it carries a
      `session` cookie; the cookie's value is never looked at. */
  function Decide(pathname: string, hasSession: bool): (d: Decision)
    ensures IsExempt(pathname) ==> d == Next
    ensures hasSession ==> d == Next
    ensures d == Next || d == Redirect("/login")
    ensures d == Redirect("/login") <==> !IsExempt(pathname) && IsProtected(pathname) && !hasSession
  {
    if IsExempt(pathname) then Next
    else if IsProtected(pathname) && !hasSession then Redirect("/login")
    else Next
  }

  // `config.matcher`: the paths the middleware runs on at all. The pattern is
  // `/((?!_next/static|_next/image|favicon.ico|grid.svg|.*\.png$).*)`, matched against the
  // whole path; its unescaped dots stand for any one character.

  /** `a.b` read as a pattern at the start of `s`: `a`, any one character, then `b`. */
  predicate StartsWithDotted(s: string, a: string, b: string) {
    |a| + 1 + |b| <= |s| && s[..|a|] == a && s[|a| + 1..|a| + 1 + |b|] == b
  }

  /** The negative lookahead after the leading `/`. */
  predicate Excluded(rest: string) {
    StartsWith(rest, "_next/static") || StartsWith(rest, "_next/image")
    || StartsWithDotted(rest, "favicon", "ico") || StartsWithDotted(rest, "grid", "svg")
    || EndsWith(rest, ".png")
  }

  predicate Matched(pathname: string) {
    StartsWith(pathname, "/") && !Excluded(pathname[1..])
  }

  /** What a request meets: paths outside the matcher never reach `middleware` and go through. */
  function Gate(pathname: string, hasSession: bool): (d: Decision)
    ensures !Matched(pathname) ==> d == Next
    ensures Matched(pathname) ==> d == Decide(pathname, hasSession)
    ensures d == Redirect("/login") <==> Matched(pathname) && !IsExempt(pathname) && IsProtected(pathname) && !hasSession
  {
    if Matched(pathname) then Decide(pathname, hasSession) else Next
  }

  // An independent description of the protected paths: by their first segment.

  predicate NoSlash(s: string) {
    forall i :: 0 <= i < |s| ==> s[i] != '/'
  }

  /** The text of `s` up to its first `/`. */
  function Segment(s: string): (seg: string)
    ensures NoSlash(seg) && StartsWith(s, seg)
    ensures |seg| < |s| ==> s[|seg|] == '/'
  {
    if s == [] || s[0] == '/' then [] else [s[0]] + Segment(s[1..])
  }

  /** The first path segments the list protects; the root entry `/` stands for the empty one. */
  const ProtectedSegments: seq<string> := [
    "", "customers", "vendors", "mechanics", "inventory", "parts", "orders",
    "jobs", "services", "service-history", "feedback", "support", "settings", "reports"
  ]

  lemma {:induction false} SegmentOf(name: string, rest: string)
    requires NoSlash(name)
    requires rest == [] || rest[0] == '/'
    ensures Segment(name + rest) == name
  {
    if name == [] {
      assert name + rest == rest;
    } else {
      assert (name + rest)[1..] == name[1..] + rest;
      SegmentOf(name[1..], rest);
    }
  }

  /** An entry `/name` covers exactly the paths whose first segment is `name`. */
  lemma CoversEntry(pathname: string, name: string)
    requires NoSlash(name)
    ensures Covers(pathname, "/" + name) <==> StartsWith(pathname, "/") && Segment(pathname[1..]) == name
  {
    if Covers(pathname, "/" + name) {
      if pathname == "/" + name {
        assert pathname[1..] == name + [];
        SegmentOf(name, []);
      } else {
        var rest := pathname[|name| + 1..];
        assert pathname[1..] == name + rest;
        SegmentOf(name, rest);
      }
    }
    if StartsWith(pathname, "/") && Segment(pathname[1..]) == name {
      var s := pathname[1..];
      if |name| == |s| {
        assert s == name;
        assert pathname == "/" + name;
      } else {
        assert s[|name|] == '/';
        assert pathname[..|name| + 2] == "/" + name + "/";
      }
    }
  }

  predicate IsEntry(path: string) {
    |path| > 0 && path[0] == '/' && NoSlash(path[1..])
  }

  lemma {:induction false} SomeCoversEntries(pathname: string, paths: seq<string>)
    requires forall i :: 0 <= i < |paths| ==> IsEntry(paths[i])
    ensures SomeCovers(pathname, paths) <==> StartsWith(pathname, "/") && "/" + Segment(pathname[1..]) in paths
    decreases |paths|
  {
    if paths != [] {
      SomeCoversEntries(pathname, paths[1..]);
      var name := paths[0][1..];
      assert paths[0] == "/" + name;
      CoversEntry(pathname, name);
      assert forall x :: x in paths <==> x == paths[0] || x in paths[1..];
      if StartsWith(pathname, "/") {
        var seg := Segment(pathname[1..]);
        assert ("/" + seg)[1..] == seg;
        assert "/" + seg == paths[0] <==> seg == name;
      }
    }
  }

  lemma EntriesAreSlashSegments()
    ensures |ProtectedPaths| == |ProtectedSegments|
    ensures forall i :: 0 <= i < |ProtectedPaths| ==> ProtectedPaths[i] == "/" + ProtectedSegments[i]
  {
  }

  lemma EntryInList(seg: string)
    ensures "/" + seg in ProtectedPaths <==> seg in ProtectedSegments
  {
    EntriesAreSlashSegments();
    assert ("/" + seg)[1..] == seg;
    if "/" + seg in ProtectedPaths {
      var i :| 0 <= i < |ProtectedPaths| && ProtectedPaths[i] == "/" + seg;
      assert ProtectedPaths[i][1..] == ProtectedSegments[i];
    }
    if seg in ProtectedSegments {
      var i :| 0 <= i < |ProtectedSegments| && ProtectedSegments[i] == seg;
      assert ProtectedPaths[i] == "/" + seg;
    }
  }

  /** Neither `/login` nor a path under `/api/` has a protected first segment. */
  lemma ExemptSegments(pathname: string)
    requires IsExempt(pathname)
    ensures !(StartsWith(pathname, "/") && Segment(pathname[1..]) in ProtectedSegments)
  {
    if pathname == "/login" {
      assert pathname[1..] == "login" + [];
      SegmentOf("login", []);
    } else {
      assert pathname[1..] == "api" + pathname[4..];
      SegmentOf("api", pathname[4..]);
    }
  }

  /** Prefix matching with `path + '/'` is matching on the first segment. */
  lemma ProtectedIffFirstSegment(pathname: string)
    ensures IsProtected(pathname) <==> StartsWith(pathname, "/") && Segment(pathname[1..]) in ProtectedSegments
  {
    forall i | 0 <= i < |ProtectedPaths| ensures IsEntry(ProtectedPaths[i]) {
    }
    SomeCoversEntries(pathname, ProtectedPaths);
    if StartsWith(pathname, "/") {
      EntryInList(Segment(pathname[1..]));
    }
  }

  /** The whole gate in one rule: redirect exactly when there is no cookie and the path's first
      segment is protected. The exemptions never change a decision, since neither `login` nor
      `api` is a protected segment. */
  lemma RedirectIffFirstSegment(pathname: string, hasSession: bool)
    ensures Decide(pathname, hasSession) == Redirect("/login")
        <==> !hasSession && StartsWith(pathname, "/") && Segment(pathname[1..]) in ProtectedSegments
  {
    ProtectedIffFirstSegment(pathname);
    if IsExempt(pathname) {
      ExemptSegments(pathname);
    }
  }

  /** Everything a request meets in one rule: it is redirected exactly when it has no cookie, its
      first segment is protected and the matcher does not exclude it. */
  lemma GateIffFirstSegment(pathname: string, hasSession: bool)
    ensures Gate(pathname, hasSession) == Redirect("/login")
        <==> !hasSession && StartsWith(pathname, "/") && Segment(pathname[1..]) in ProtectedSegments
             && !Excluded(pathname[1..])
  {
    RedirectIffFirstSegment(pathname, hasSession);
  }

  /** A path whose first segment is listed is protected. */
  lemma ListedSegmentIsProtected(pathname: string, name: string, rest: string)
    requires pathname == "/" + name + rest
    requires NoSlash(name) && (rest == [] || rest[0] == '/')
    requires name in ProtectedSegments
    ensures IsProtected(pathname)
  {
    assert pathname[1..] == name + rest;
    SegmentOf(name, rest);
    ProtectedIffFirstSegment(pathname);
  }

  /** An image under a protected page never reaches the middleware and goes through without a cookie. */
  lemma ProtectedImagePasses()
    ensures IsProtected("/customers/logo.png")
    ensures Decide("/customers/logo.png", false) == Redirect("/login")
    ensures Gate("/customers/logo.png", false) == Next
  {
    var p := "/customers/logo.png";
    ListedSegmentIsProtected(p, "customers", "/logo.png");
    assert p[1] != "/api/"[1];
    assert p[1..][|p[1..]| - 4..] == ".png";
  }

  /** A path part that starts with none of `_`, `f` and `g` and does not end in `.png` is not excluded. */
  lemma NotExcluded(rest: string)
    requires |rest| > 0 && rest[0] != '_' && rest[0] != 'f' && rest[0] != 'g' && !EndsWith(rest, ".png")
    ensures !Excluded(rest)
  {
  }

  /** The pattern's dot matches any character: `/faviconXico` is excluded like `/favicon.ico`. */
  lemma FaviconDotIsAnyCharacter()
    ensures !Matched("/favicon.ico") && !Matched("/faviconXico")
  {
    assert "/favicon.ico"[1..][..7] == "favicon" && "/favicon.ico"[1..][8..11] == "ico";
    assert "/faviconXico"[1..][..7] == "favicon" && "/faviconXico"[1..][8..11] == "ico";
  }

  /** The root entry protects `/` and paths starting `//`, and no other path. */
  lemma RootEntryCovers(pathname: string)
    ensures Covers(pathname, "/") <==> pathname == "/" || StartsWith(pathname, "//")
  {
  }

  lemma NestedCustomerPageIsGated()
    ensures Gate("/customers/5", false) == Redirect("/login")
    ensures Gate("/customers/5", true) == Next
  {
    var p := "/customers/5";
    ListedSegmentIsProtected(p, "customers", "/5");
    assert p[1] != "/api/"[1];
    assert !EndsWith(p[1..], ".png") by { assert p[1..][|p[1..]| - 1] == '5'; }
    NotExcluded(p[1..]);
  }

  lemma RootIsGated()
    ensures Gate("/", false) == Redirect("/login")
  {
    GateIffFirstSegment("/", false);
    assert "/"[1..] == "" + "";
    assert !Excluded("/"[1..]);
  }

  /** A path whose first segment is not listed is never redirected, cookie or not. */
  lemma UnlistedSegmentPasses(pathname: string, name: string, rest: string, hasSession: bool)
    requires pathname == "/" + name + rest
    requires NoSlash(name) && (rest == [] || rest[0] == '/')
    requires name !in ProtectedSegments
    ensures !IsProtected(pathname)
    ensures Decide(pathname, hasSession) == Next
  {
    assert pathname[1..] == name + rest;
    SegmentOf(name, rest);
    ProtectedIffFirstSegment(pathname);
  }

  lemma LongerNameIsNotGated()
    ensures !IsProtected("/customersX")
  {
    UnlistedSegmentPasses("/customersX", "customersX", "", false);
  }

  lemma AppointmentsPagePasses()
    ensures Decide("/appointments", false) == Next
  {
    UnlistedSegmentPasses("/appointments", "appointments", "", false);
  }

  /** Only `/login` itself is exempt; a page below it passes because it is not protected. */
  lemma BelowLoginPasses()
    ensures !IsExempt("/login/x") && !IsProtected("/login/x")
    ensures Decide("/login/x", false) == Next
  {
    assert "/login/x"[1] != "/api/"[1];
    UnlistedSegmentPasses("/login/x", "login", "/x", false);
  }

  lemma ApiPasses()
    ensures Decide("/api/customers", false) == Next
  {
  }
}
