/** app_routes.py and app_shell.py: longest-prefix routing, the bus write guard, and prefix stripping. */
module Router {
  import opened Wrappers
  import opened PathAlgebra

  datatype Route = Route(prefix: string, port: nat)

  /** app_routes.ROUTES, in source order. */
  const ROUTES: seq<Route> := [
    Route("/api/submit", 8780), Route("/api/decision", 8780), Route("/api/submission", 8780),
    Route("/api/audit", 8780), Route("/api", 8790), Route("/v1", 8781), Route("/bus", 8772),
    Route("/build", 8795), Route("/svc8781", 8781), Route("/svc8773", 8773), Route("/attest", 8780),
    Route("/v1/bulk", 8784), Route("/servers", 8779), Route("/override", 8776), Route("/dashboard", 8785),
    Route("/risks", 8786), Route("/audit", 8788), Route("/svc8775", 8775)]

  /** The keys of a dictionary are distinct. */
  ghost predicate IsTable(routes: seq<Route>) {
    forall i, j | 0 <= i < j < |routes| :: routes[i].prefix != routes[j].prefix
  }

  predicate Matches(path: string, prefix: string) {
    path == prefix || prefix + "/" <= path
  }

  function Best(routes: seq<Route>, path: string): Option<Route> {
    if routes == [] then None else
      var best, r := Best(routes[..|routes| - 1], path), routes[|routes| - 1];
      if Matches(path, r.prefix) && (best.None? || |r.prefix| > |best.value.prefix|) then Some(r) else best
  }

  /** A prefix matches on whole pieces only: exactly when the path, split at its slashes, begins with the pieces of the
      prefix. */
  lemma MatchesIff(path: string, prefix: string)
    ensures Matches(path, prefix) <==> Split(prefix) <= Split(path)
  {
    if prefix + "/" <= path {
      var rest := path[|prefix| + 1..];
      assert path == prefix + "/" + rest;
      SplitAtSlash(prefix, rest);
    }
    if Split(prefix) <= Split(path) {
      PiecesMatch(path, prefix, Split(path)[|Split(prefix)|..]);
    }
  }

  lemma PiecesMatch(path: string, prefix: string, rest: seq<string>)
    requires Split(path) == Split(prefix) + rest
    ensures Matches(path, prefix)
  {
    JoinSplit(path);
    JoinSplit(prefix);
    if rest == [] {
      assert Split(path) == Split(prefix);
    } else {
      JoinSlashConcat(Split(prefix), rest);
      assert path == prefix + "/" + JoinSlash(rest);
    }
  }

  method PrefixForPath(routes: seq<Route>, path: string) returns (best: Option<Route>)
    ensures best == Best(routes, path)
  {
    best := None;
    for i := 0 to |routes|
      invariant best == Best(routes[..i], path)
    {
      assert routes[..i + 1][..i] == routes[..i];
      var r := routes[i];
      if path == r.prefix || r.prefix + "/" <= path {
        if best == None || |r.prefix| > |best.value.prefix| {
          best := Some(r);
        }
      }
    }
    assert routes[..|routes|] == routes;
  }

  /** The route whose prefix is the longest of those that match, if any does. */
  ghost predicate IsLongest(routes: seq<Route>, path: string, best: Option<Route>) {
    match best
    case None => forall r | r in routes :: !Matches(path, r.prefix)
    case Some(b) =>
      && b in routes && Matches(path, b.prefix)
      && forall r | r in routes && Matches(path, r.prefix) :: |r.prefix| <= |b.prefix|
  }

  lemma {:induction false} BestIsLongest(routes: seq<Route>, path: string)
    ensures IsLongest(routes, path, Best(routes, path))
  {
    if routes != [] {
      BestIsLongest(routes[..|routes| - 1], path);
      assert routes == routes[..|routes| - 1] + [routes[|routes| - 1]];
    }
  }

  lemma MatchIsPrefix(path: string, prefix: string)
    requires Matches(path, prefix)
    ensures |prefix| <= |path| && path[..|prefix|] == prefix
  {
    if path != prefix {
      assert path[..|prefix|] == (prefix + "/")[..|prefix|];
    }
  }

  /** There is only one such route, so nothing depends on the order of the table. */
  lemma LongestIsUnique(routes: seq<Route>, routes': seq<Route>, path: string, a: Option<Route>, b: Option<Route>)
    requires IsTable(routes)
    requires forall r :: r in routes <==> r in routes'
    requires IsLongest(routes, path, a) && IsLongest(routes', path, b)
    ensures a == b
  {
    if a.Some? && b.Some? {
      MatchIsPrefix(path, a.value.prefix);
      MatchIsPrefix(path, b.value.prefix);
      var i :| 0 <= i < |routes| && routes[i] == a.value;
      var j :| 0 <= j < |routes| && routes[j] == b.value;
      assert routes[i].prefix == routes[j].prefix;
    }
  }

  lemma TableOrderIrrelevant(routes: seq<Route>, routes': seq<Route>, path: string)
    requires IsTable(routes) && forall r :: r in routes <==> r in routes'
    ensures Best(routes, path) == Best(routes', path)
  {
    BestIsLongest(routes, path);
    BestIsLongest(routes', path);
    LongestIsUnique(routes, routes', path, Best(routes, path), Best(routes', path));
  }

  /** A new route takes exactly the paths at or below it that had no match as long. */
  function Overriding(r: Route, path: string, had: Option<Route>): Option<Route> {
    if Matches(path, r.prefix) && (had.None? || |had.value.prefix| < |r.prefix|) then Some(r) else had
  }

  /** This holds wherever in the table the route is inserted; every other path keeps its upstream. */
  lemma AddingARoute(before: seq<Route>, r: Route, after: seq<Route>, path: string)
    requires IsTable(before + [r] + after)
    ensures Best(before + [r] + after, path) == Overriding(r, path, Best(before + after, path))
  {
    var table, had := before + [r] + after, Best(before + after, path);
    BestIsLongest(before + after, path);
    BestIsLongest(table, path);
    assert forall q :: q in table <==> q == r || q in before + after;
    if Matches(path, r.prefix) && had.Some? && |had.value.prefix| == |r.prefix| {
      MatchIsPrefix(path, r.prefix);
      MatchIsPrefix(path, had.value.prefix);
      SamePrefixSameRoute(table, r, had.value);
    }
    LongestIsUnique(table, table, path, Best(table, path), Overriding(r, path, had));
  }

  lemma SamePrefixSameRoute(routes: seq<Route>, a: Route, b: Route)
    requires IsTable(routes) && a in routes && b in routes && a.prefix == b.prefix
    ensures a == b
  {
    var i :| 0 <= i < |routes| && routes[i] == a;
    var j :| 0 <= j < |routes| && routes[j] == b;
  }

  // ----- the table of the source -----

  /** Length and last character tell the prefixes of the table apart. */
  function Place(prefix: string): nat
    requires prefix != ""
  {
    var n, last := |prefix|, prefix[|prefix| - 1];
    if n == 11 then 0 else if n == 13 then 1 else if n == 15 then 2
    else if n == 10 then if last == 't' then 3 else 14
    else if n == 4 then if last == 'i' then 4 else 6
    else if n == 3 then 5
    else if n == 6 then if last == 'd' then 7 else if last == 's' then 15 else 16
    else if n == 8 then
      if last == '1' then 8 else if last == '3' then 9 else if last == 'k' then 11 else if last == 's' then 12 else 17
    else if n == 7 then 10 else 13
  }

  lemma FirstPlaces(i: nat)
    requires i < 9
    ensures ROUTES[i].prefix != "" && Place(ROUTES[i].prefix) == i
  {
    assert |"/api/submit"| == 11 && |"/api/decision"| == 13 && |"/api/submission"| == 15;
    assert |"/api/audit"| == 10 && |"/api"| == 4 && |"/v1"| == 3 && |"/bus"| == 4 && |"/build"| == 6;
  }

  lemma LastPlaces(i: nat)
    requires 9 <= i < 18
    ensures ROUTES[i].prefix != "" && Place(ROUTES[i].prefix) == i
  {
    assert |"/attest"| == 7 && |"/v1/bulk"| == 8 && |"/servers"| == 8 && |"/override"| == 9;
    assert |"/dashboard"| == 10 && |"/risks"| == 6 && |"/audit"| == 6;
  }

  lemma RoutesAreATable()
    ensures IsTable(ROUTES)
  {
    forall i, j | 0 <= i < j < |ROUTES| ensures ROUTES[i].prefix != ROUTES[j].prefix {
      if i < 9 { FirstPlaces(i); } else { LastPlaces(i); }
      if j < 9 { FirstPlaces(j); } else { LastPlaces(j); }
    }
  }

  /** So the routes of the source send every path to the one longest match, in whatever order they are listed. */
  lemma RoutesInAnyOrder(routes: seq<Route>, path: string)
    requires forall r :: r in ROUTES <==> r in routes
    ensures Best(routes, path) == Best(ROUTES, path) && IsLongest(ROUTES, path, Best(routes, path))
  {
    RoutesAreATable();
    TableOrderIrrelevant(ROUTES, routes, path);
    BestIsLongest(ROUTES, path);
  }

  // ----- the proxy -----

  /** `request.url.path[len(prefix):] or "/"`. */
  function Rest(path: string, prefix: string): string
    requires |prefix| <= |path|
  {
    var tail := path[|prefix|..];
    if tail == "" then "/" else tail
  }

  /** The upstream sees a rooted path that carries exactly the segments after the prefix. */
  lemma RestIsTheRemainder(path: string, prefix: string)
    requires Matches(path, prefix)
    ensures |prefix| <= |path| && "/" <= Rest(path, prefix)
    ensures path != prefix ==> prefix + Rest(path, prefix) == path
    ensures Segments(path) == Segments(prefix) + Segments(Rest(path, prefix))
  {
    MatchIsPrefix(path, prefix);
    SegmentsAtSlash("", "");
    assert "" + "/" + "" == "/" && Segments("") == [];
    if path != prefix {
      var below := path[|prefix| + 1..];
      assert path == prefix + "/" + below && Rest(path, prefix) == "" + "/" + below;
      SegmentsAtSlash(prefix, below);
      SegmentsAtSlash("", below);
    }
  }

  predicate EndsWith(s: string, suffix: string) {
    |suffix| <= |s| && s[|s| - |suffix|..] == suffix
  }

  predicate WriteBlocked(prefix: string, path: string, allowWrites: bool) {
    prefix == "/bus" && !allowWrites && (EndsWith(RStrip(path), "/execute") || EndsWith(RStrip(path), "/write"))
  }

  datatype Outcome = NoRoute | Forbidden | Proxied(prefix: string, port: nat, rest: string)

  method Gateway(routes: seq<Route>, fullPath: string, allowWrites: bool) returns (o: Outcome)
    ensures var path := "/" + fullPath; var best := Best(routes, path);
            match o
            case NoRoute => best.None?
            case Forbidden => best.Some? && WriteBlocked(best.value.prefix, path, allowWrites)
            case Proxied(prefix, port, rest) =>
              && best == Some(Route(prefix, port)) && !WriteBlocked(prefix, path, allowWrites)
              && |prefix| <= |path| && rest == Rest(path, prefix)
  {
    var path := "/" + fullPath;
    var match' := PrefixForPath(routes, path);
    if match' == None {
      return NoRoute;
    }
    var prefix, port := match'.value.prefix, match'.value.port;
    if prefix == "/bus" && !allowWrites && (EndsWith(RStrip(path), "/execute") || EndsWith(RStrip(path), "/write")) {
      return Forbidden;
    }
    BestIsLongest(routes, path);
    MatchIsPrefix(path, prefix);
    o := Proxied(prefix, port, Rest(path, prefix));
  }

  lemma {:induction false} RStripShape(s: string)
    ensures |RStrip(s)| <= |s| && RStrip(s) == s[..|RStrip(s)|]
    ensures RStrip(s) == "" || RStrip(s)[|RStrip(s)| - 1] != '/'
  {
    if s != "" && s[|s| - 1] == '/' {
      RStripShape(s[..|s| - 1]);
      assert s[..|s| - 1][..|RStrip(s)|] == s[..|RStrip(s)|];
    }
  }

  /** What follows the last slash. */
  function AfterLastSlash(s: string): string {
    if s == "" || s[|s| - 1] == '/' then "" else AfterLastSlash(s[..|s| - 1]) + [s[|s| - 1]]
  }

  lemma {:induction false} AfterSlash(a: string, b: string)
    requires '/' !in b
    ensures AfterLastSlash(a + "/" + b) == b
  {
    var t := a + "/" + b;
    if b == "" {
      assert t == a + "/";
    } else {
      var b' := b[..|b| - 1];
      AfterSlash(a, b');
      assert t[..|t| - 1] == a + "/" + b';
    }
  }

  lemma {:induction false} BeforeLastSlash(s: string) returns (a: string)
    requires '/' in s
    ensures s == a + "/" + AfterLastSlash(s) && '/' !in AfterLastSlash(s)
  {
    var n := |s| - 1;
    if s[n] == '/' {
      a := s[..n];
    } else {
      assert s == s[..n] + [s[n]];
      a := BeforeLastSlash(s[..n]);
      assert s == a + "/" + (AfterLastSlash(s[..n]) + [s[n]]);
    }
  }

  /** A rooted path without trailing slash ends in its last segment. */
  lemma LastSegment(t: string)
    requires "/" <= t && t[|t| - 1] != '/'
    ensures IsSegment(AfterLastSlash(t)) && Segments(t) != []
    ensures Segments(t)[|Segments(t)| - 1] == AfterLastSlash(t)
  {
    assert t[0] == '/';
    var a := BeforeLastSlash(t);
    var b := AfterLastSlash(t);
    OneSegment(b);
    SegmentsAtSlash(a, b);
  }

  lemma EndsWithLast(a: string, s: string, b: string)
    ensures EndsWith(a + s + b, s + b)
  {
    assert a + s + b == a + (s + b);
  }

  lemma EndsAfterLastSlash(t: string)
    requires '/' in t
    ensures EndsWith(t, "/" + AfterLastSlash(t))
  {
    var a := BeforeLastSlash(t);
    EndsWithLast(a, "/", AfterLastSlash(t));
  }

  lemma EndsWithIff(t: string, w: string)
    requires '/' in t && IsSegment(w)
    ensures EndsWith(t, "/" + w) <==> AfterLastSlash(t) == w
  {
    EndsAfterLastSlash(t);
    if EndsWith(t, "/" + w) {
      var front := t[..|t| - |w| - 1];
      assert t == front + ("/" + w) == front + "/" + w;
      AfterSlash(front, w);
    }
  }

  predicate EndsInSegment(path: string, w: string) {
    Segments(path) != [] && Segments(path)[|Segments(path)| - 1] == w
  }

  /** For a rooted path the textual test is a test of the last segment, trailing slashes or not. */
  lemma EndsWithIsLastSegment(path: string, w: string)
    requires "/" <= path && IsSegment(w)
    ensures EndsWith(RStrip(path), "/" + w) <==> EndsInSegment(path, w)
  {
    var t := RStrip(path);
    RStripKeepsSegments(path);
    RStripShape(path);
    if t == "" {
      assert Segments("") == [];
    } else {
      LastSegment(t);
      EndsWithIff(t, w);
    }
  }

  /** With bus writes disabled a request under /bus is refused exactly when its last segment is
      `execute` or `write`; no other request is refused by the guard. */
  lemma GuardIff(path: string, prefix: string, allowWrites: bool)
    requires "/" <= path
    ensures WriteBlocked(prefix, path, allowWrites)
       <==> prefix == "/bus" && !allowWrites && (EndsInSegment(path, "execute") || EndsInSegment(path, "write"))
  {
    assert "/" + "execute" == "/execute" && "/" + "write" == "/write";
    EndsWithIsLastSegment(path, "execute");
    EndsWithIsLastSegment(path, "write");
  }
}
