/** app_surface_kl.py: URL paths as strings, and the segments they denote. */
module PathAlgebra {

  function LStrip(s: string): string {
    if s != "" && s[0] == '/' then LStrip(s[1..]) else s
  }

  function RStrip(s: string): string {
    if s != "" && s[|s| - 1] == '/' then RStrip(s[..|s| - 1]) else s
  }

  /** `_join`; an absent prefix or path is the empty string. */
  function JoinPath(prefix: string, path: string): string {
    if prefix == "" then
      if path == "" then "/" else path
    else
      var joined := RStrip(RStrip(prefix) + "/" + LStrip(path));
      if joined == "" then "/" else joined
  }

  /** Python's s.split("/"). */
  function Split(s: string): (pieces: seq<string>)
    ensures pieces != []
  {
    if s == "" then [""]
    else if s[0] == '/' then [""] + Split(s[1..])
    else var rest := Split(s[1..]); [[s[0]] + rest[0]] + rest[1..]
  }

  function NonEmpty(pieces: seq<string>): seq<string> {
    if pieces == [] then []
    else if pieces[0] == "" then NonEmpty(pieces[1..])
    else [pieces[0]] + NonEmpty(pieces[1..])
  }

  function Segments(s: string): seq<string> {
    NonEmpty(Split(s))
  }

  predicate IsParameter(segment: string) {
    segment != "" && segment[0] == '{'
  }

  /** The segments before the first parameter. */
  function Static(segments: seq<string>): seq<string> {
    if segments == [] || IsParameter(segments[0]) then [] else [segments[0]] + Static(segments[1..])
  }

  predicate HasParameter(segments: seq<string>) {
    exists i | 0 <= i < |segments| :: IsParameter(segments[i])
  }

  /** Python's "/".join(segments). */
  function JoinSlash(segments: seq<string>): string {
    if segments == [] then ""
    else if |segments| == 1 then segments[0]
    else segments[0] + "/" + JoinSlash(segments[1..])
  }

  function Rooted(segments: seq<string>): string {
    if segments == [] then "/" else "/" + JoinSlash(segments)
  }

  function StaticStem(path: string): string {
    Rooted(Static(Segments(path)))
  }

  lemma OnePiece(pieces: seq<string>, i: nat)
    requires i < |pieces|
    ensures var rest := NonEmpty(pieces[i + 1..]);
            && (pieces[i] == "" ==> NonEmpty(pieces[i..]) == rest)
            && (pieces[i] != "" && pieces[i][0] == '{' ==> Static(NonEmpty(pieces[i..])) == [])
            && (pieces[i] != "" && pieces[i][0] != '{' ==> Static(NonEmpty(pieces[i..])) == [pieces[i]] + Static(rest))
  {
    assert pieces[i..][1..] == pieces[i + 1..];
    var rest := NonEmpty(pieces[i + 1..]);
    if pieces[i] != "" {
      assert ([pieces[i]] + rest)[1..] == rest;
    }
  }

  /** `static_stem` as the source writes it: skip empty pieces, stop at a parameter. */
  method ComputeStaticStem(path: string) returns (stem: string)
    ensures stem == StaticStem(path)
  {
    var pieces := Split(path);
    var out: seq<string> := [];
    assert pieces[0..] == pieces;
    for i := 0 to |pieces|
      invariant out + Static(NonEmpty(pieces[i..])) == Static(Segments(path))
    {
      var seg := pieces[i];
      OnePiece(pieces, i);
      if seg == "" {
        continue;
      }
      if seg[0] == '{' {
        assert out + [] == out;
        return if out == [] then "/" else "/" + JoinSlash(out);
      }
      out := out + [seg];
    }
    assert pieces[|pieces|..] == [] && out + [] == out;
    stem := if out == [] then "/" else "/" + JoinSlash(out);
  }

  // ----- segments -----

  lemma NonEmptyFirst(x: string, rest: seq<string>)
    ensures NonEmpty([x] + rest) == if x == "" then NonEmpty(rest) else [x] + NonEmpty(rest)
  {
    assert ([x] + rest)[1..] == rest;
  }

  lemma FirstApart<T>(a: seq<T>, b: seq<T>)
    requires a != []
    ensures a == [a[0]] + a[1..] && a + b == [a[0]] + (a[1..] + b)
  {
  }

  lemma Regroup<T>(x: T, rest: seq<T>, c: seq<T>)
    ensures [x] + (rest + c) == [x] + rest + c
    ensures ([x] + rest)[0] == x && ([x] + rest)[1..] == rest
  {
  }

  lemma {:induction false} NonEmptyConcat(a: seq<string>, b: seq<string>)
    ensures NonEmpty(a + b) == NonEmpty(a) + NonEmpty(b)
  {
    if a == [] {
      assert a + b == b;
    } else {
      var rest := a[1..];
      NonEmptyConcat(rest, b);
      NonEmptyFirst(a[0], rest);
      NonEmptyFirst(a[0], rest + b);
      FirstApart(a, b);
      Regroup(a[0], NonEmpty(rest), NonEmpty(b));
    }
  }

  lemma SplitFirst(c: char, s: string)
    ensures Split([c] + s) == if c == '/' then [""] + Split(s) else [[c] + Split(s)[0]] + Split(s)[1..]
  {
    assert ([c] + s)[1..] == s;
  }

  /** Putting a character in front of the first piece, or an empty piece first, leaves later pieces alone. */
  lemma FirstPieceOnly(c: char, p: seq<string>, q: seq<string>)
    requires p != []
    ensures [[c] + (p + q)[0]] + (p + q)[1..] == [[c] + p[0]] + p[1..] + q
    ensures [""] + (p + q) == [""] + p + q
  {
    assert (p + q)[1..] == p[1..] + q;
  }

  lemma Associate(a: string, b: string, c: string)
    ensures a + b + c == a + (b + c)
  {
  }

  lemma {:induction false} SplitAtSlash(a: string, b: string)
    ensures Split(a + "/" + b) == Split(a) + Split(b)
  {
    if a == "" {
      SplitFirst('/', b);
      assert a + "/" + b == ['/'] + b;
    } else {
      var rest := a[1..];
      SplitAtSlash(rest, b);
      FirstApart(a, "/" + b);
      Associate(a, "/", b);
      Associate(rest, "/", b);
      SplitFirst(a[0], rest);
      SplitFirst(a[0], rest + "/" + b);
      FirstPieceOnly(a[0], Split(rest), Split(b));
    }
  }

  lemma SegmentsAtSlash(a: string, b: string)
    ensures Segments(a + "/" + b) == Segments(a) + Segments(b)
  {
    SplitAtSlash(a, b);
    NonEmptyConcat(Split(a), Split(b));
  }

  lemma {:induction false} RStripKeepsSegments(s: string)
    ensures Segments(RStrip(s)) == Segments(s)
  {
    if s != "" && s[|s| - 1] == '/' {
      RStripKeepsSegments(s[..|s| - 1]);
      SegmentsAtSlash(s[..|s| - 1], "");
      assert s == s[..|s| - 1] + "/" + "";
    }
  }

  lemma {:induction false} LStripKeepsSegments(s: string)
    ensures Segments(LStrip(s)) == Segments(s)
  {
    if s != "" && s[0] == '/' {
      LStripKeepsSegments(s[1..]);
      SegmentsAtSlash("", s[1..]);
      assert s == "" + "/" + s[1..];
    }
  }

  /** Joining paths joins their segments, for all strings. */
  lemma JoinPathSegments(prefix: string, path: string)
    ensures Segments(JoinPath(prefix, path)) == Segments(prefix) + Segments(path)
  {
    assert Segments("") == [];
    SegmentsAtSlash("", "");
    assert "" + "/" + "" == "/";
    if prefix != "" {
      var joined := RStrip(prefix) + "/" + LStrip(path);
      RStripKeepsSegments(joined);
      SegmentsAtSlash(RStrip(prefix), LStrip(path));
      RStripKeepsSegments(prefix);
      LStripKeepsSegments(path);
    }
  }

  lemma LStripSlash(s: string)
    ensures LStrip("/" + s) == LStrip(s)
  {
    assert ("/" + s)[1..] == s;
  }

  lemma RStripSlash(s: string)
    ensures RStrip(s + "/") == RStrip(s)
  {
    assert (s + "/")[..|s|] == s;
  }

  lemma {:induction false} LStripSlashLast(s: string)
    ensures LStrip(s + "/") == if LStrip(s) == "" then "" else LStrip(s) + "/"
  {
    if s == "" {
      LStripSlash("");
      assert s + "/" == "/" + "";
    } else if s[0] == '/' {
      LStripSlashLast(s[1..]);
      assert (s + "/")[1..] == s[1..] + "/";
    }
  }

  /** Slashes at the seam and at the end do not matter to a join ... */
  lemma JoinPathIgnoresSlashes(prefix: string, path: string)
    requires prefix != ""
    ensures JoinPath(prefix + "/", path) == JoinPath(prefix, path)
    ensures JoinPath(prefix, "/" + path) == JoinPath(prefix, path)
    ensures JoinPath(prefix, path + "/") == JoinPath(prefix, path)
  {
    RStripSlash(prefix);
    LStripSlash(path);
    LStripSlashLast(path);
    if LStrip(path) != "" {
      var joined := RStrip(prefix) + "/" + LStrip(path);
      RStripSlash(joined);
      assert RStrip(prefix) + "/" + (LStrip(path) + "/") == joined + "/";
    }
  }

  /** ... and without them it puts one slash between two texts that are not empty. */
  lemma JoinPathPlain(prefix: string, path: string)
    requires prefix != "" ==> prefix[|prefix| - 1] != '/'
    requires path != "" ==> path[0] != '/' && path[|path| - 1] != '/'
    ensures JoinPath(prefix, path)
         == if prefix == "" then if path == "" then "/" else path
            else if path == "" then prefix else prefix + "/" + path
    ensures prefix == "" ==> JoinPath(prefix, path + "/") == path + "/" && JoinPath(prefix, "/" + path) == "/" + path
    ensures JoinPath("/", path) == "/" + path
  {
    RStripSlash("");
    assert "" + "/" == "/" && "/" + "" == "/" && "" + "/" + path == "/" + path;
    if path == "" {
      RStripSlash(prefix);
      assert prefix + "/" + "" == prefix + "/";
    } else {
      var joined := prefix + "/" + path;
      assert joined[|joined| - 1] == path[|path| - 1];
    }
  }

  /** Splitting loses nothing. */
  lemma {:induction false} JoinSplit(s: string)
    ensures JoinSlash(Split(s)) == s
  {
    if s != "" {
      var rest := Split(s[1..]);
      JoinSplit(s[1..]);
      assert s == [s[0]] + s[1..];
      if s[0] == '/' {
        assert ([""] + rest)[1..] == rest;
      } else {
        assert ([[s[0]] + rest[0]] + rest[1..])[1..] == rest[1..];
      }
    }
  }

  lemma {:induction false} JoinSlashConcat(a: seq<string>, b: seq<string>)
    requires a != [] && b != []
    ensures JoinSlash(a + b) == JoinSlash(a) + "/" + JoinSlash(b)
  {
    assert (a + b)[1..] == a[1..] + b;
    if |a| > 1 {
      JoinSlashConcat(a[1..], b);
    }
  }

  /** What a segment can be. */
  predicate IsSegment(s: string) {
    s != "" && '/' !in s
  }

  lemma {:induction false} PiecesHaveNoSlash(s: string)
    ensures forall p | p in Split(s) :: '/' !in p
  {
    if s != "" {
      PiecesHaveNoSlash(s[1..]);
      var rest := Split(s[1..]);
      assert rest[0] in rest;
      assert forall p | p in rest[1..] :: p in rest;
    }
  }

  lemma {:induction false} NonEmptyPieces(pieces: seq<string>)
    ensures forall p | p in NonEmpty(pieces) :: p != "" && p in pieces
  {
    if pieces != [] {
      NonEmptyPieces(pieces[1..]);
    }
  }

  lemma {:induction false} StaticIsPrefix(segments: seq<string>)
    ensures Static(segments) <= segments
    ensures forall s | s in Static(segments) :: s in segments && !IsParameter(s)
  {
    if segments != [] && !IsParameter(segments[0]) {
      StaticIsPrefix(segments[1..]);
    }
  }

  lemma StaticSegmentsAreSegments(path: string)
    ensures forall s | s in Static(Segments(path)) :: IsSegment(s) && !IsParameter(s)
  {
    PiecesHaveNoSlash(path);
    NonEmptyPieces(Split(path));
    StaticIsPrefix(Segments(path));
  }

  lemma {:induction false} SplitSegment(s: string)
    requires '/' !in s
    ensures Split(s) == [s]
  {
    if s != "" {
      SplitSegment(s[1..]);
      assert s == [s[0]] + s[1..];
    }
  }

  lemma OneSegment(s: string)
    requires IsSegment(s)
    ensures Segments(s) == [s]
  {
    SplitSegment(s);
    assert NonEmpty([s]) == [s] + NonEmpty([]);
  }

  lemma {:induction false} JoinSlashSegments(segments: seq<string>)
    requires forall s | s in segments :: IsSegment(s)
    ensures Segments(JoinSlash(segments)) == segments
  {
    if segments != [] {
      assert segments[0] in segments && forall s | s in segments[1..] :: s in segments;
      OneSegment(segments[0]);
      assert segments == [segments[0]] + segments[1..];
      if |segments| > 1 {
        JoinSlashSegments(segments[1..]);
        SegmentsAtSlash(segments[0], JoinSlash(segments[1..]));
      }
    }
  }

  lemma RootedSegments(segments: seq<string>)
    requires forall s | s in segments :: IsSegment(s)
    ensures Segments(Rooted(segments)) == segments
  {
    JoinSlashSegments(segments);
    SegmentsAtSlash("", JoinSlash(segments));
    assert "" + "/" + JoinSlash(segments) == "/" + JoinSlash(segments);
    assert Segments("") == [];
    SegmentsAtSlash("", "");
    assert "" + "/" + "" == "/";
  }

  lemma {:induction false} StaticFixpoint(segments: seq<string>)
    requires forall s | s in segments :: !IsParameter(s)
    ensures Static(segments) == segments
  {
    if segments != [] {
      StaticFixpoint(segments[1..]);
    }
  }

  /** The stem begins with a slash and denotes exactly the leading static segments, ... */
  lemma StemSegments(path: string)
    ensures "/" <= StaticStem(path)
    ensures Segments(StaticStem(path)) == Static(Segments(path))
  {
    StaticSegmentsAreSegments(path);
    RootedSegments(Static(Segments(path)));
  }

  /** ... so taking it twice changes nothing, ... */
  lemma StemIdempotent(path: string)
    ensures StaticStem(StaticStem(path)) == StaticStem(path)
  {
    StemSegments(path);
    StaticSegmentsAreSegments(path);
    StaticFixpoint(Static(Segments(path)));
  }

  /** ... and comparing stems is comparing leading static segments. */
  lemma SameStemIff(p: string, q: string)
    ensures StaticStem(p) == StaticStem(q) <==> Static(Segments(p)) == Static(Segments(q))
  {
    StemSegments(p);
    StemSegments(q);
  }

  lemma ParameterLater(a: seq<string>)
    requires a != [] && !IsParameter(a[0])
    ensures HasParameter(a) == HasParameter(a[1..])
  {
    if HasParameter(a) {
      var i :| 0 <= i < |a| && IsParameter(a[i]);
      assert IsParameter(a[1..][i - 1]);
    }
    if HasParameter(a[1..]) {
      var i :| 0 <= i < |a[1..]| && IsParameter(a[1..][i]);
      assert IsParameter(a[i + 1]);
    }
  }

  lemma StaticFirst(x: string, rest: seq<string>)
    ensures Static([x] + rest) == if IsParameter(x) then [] else [x] + Static(rest)
  {
    assert ([x] + rest)[1..] == rest;
  }

  lemma StaticConcatStep(x: string, rest: seq<string>, b: seq<string>)
    requires Static(rest + b) == if HasParameter(rest) then Static(rest) else rest + Static(b)
    ensures var a := [x] + rest; Static(a + b) == if HasParameter(a) then Static(a) else a + Static(b)
  {
    var a := [x] + rest;
    StaticFirst(x, rest);
    StaticFirst(x, rest + b);
    Regroup(x, rest, b);
    Regroup(x, rest, Static(b));
    if IsParameter(x) {
      assert IsParameter(a[0]);
    } else {
      ParameterLater(a);
    }
  }

  lemma {:induction false} StaticConcat(a: seq<string>, b: seq<string>)
    ensures Static(a + b) == if HasParameter(a) then Static(a) else a + Static(b)
  {
    if a == [] {
      assert a + b == b;
    } else {
      var rest := a[1..];
      StaticConcat(rest, b);
      FirstApart(a, b);
      StaticConcatStep(a[0], rest, b);
    }
  }

  /** The stem of a joined path: the prefix's own stem once it has a parameter, else all of the prefix
      followed by the static part of the path. */
  lemma StemOfJoin(prefix: string, path: string)
    ensures StaticStem(JoinPath(prefix, path))
         == if HasParameter(Segments(prefix)) then StaticStem(prefix)
            else Rooted(Segments(prefix) + Static(Segments(path)))
  {
    JoinPathSegments(prefix, path);
    StaticConcat(Segments(prefix), Segments(path));
  }
}
