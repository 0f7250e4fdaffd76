/** Which paths are pages: the middleware matcher and the per-request predicate. */
module Routing {
  import opened Basics
  import opened Regex

  /** An asset extension pattern such as `png`, `jpe?g` or `woff2?`: letters, an optional
      letter, more letters. */
  datatype Extension = Extension(stem: string, maybe: string, rest: string)

  function Simple(stem: string): Extension { Extension(stem, "", "") }

  const NON_PAGE_SEGMENTS: seq<string> := [
    "api", "auth", "authorize", "callback", "mcp", "signin-with-chatgpt", "signout-with-chatgpt",
    "start", "token", "_next"]

  const ASSET_EXTENSIONS: seq<Extension> := [
    Simple("avif"), Simple("bin"), Simple("css"), Simple("csv"), Simple("gif"), Simple("gz"), Simple("htm"),
    Simple("html"), Simple("ico"), Extension("jp", "e", "g"), Simple("js"), Simple("json"), Simple("map"),
    Simple("md"), Simple("mjs"), Simple("mp3"), Simple("mp4"), Simple("otf"), Simple("pdf"), Simple("png"),
    Simple("svg"), Simple("ttf"), Simple("txt"), Simple("wasm"), Simple("wav"), Simple("webm"),
    Simple("webmanifest"), Simple("webp"), Extension("woff", "2", ""), Simple("xml"), Simple("zip")]

  // ----- The matcher -----------------------------------------------------------------------

  function ExtensionPattern(e: Extension): Regex {
    Then(Literal(e.stem), Then(Optional(Literal(e.maybe)), Literal(e.rest)))
  }

  function Mapped<A, B>(s: seq<A>, f: A -> B): seq<B> {
    seq(|s|, i requires 0 <= i < |s| => f(s[i]))
  }

  function Segments(segments: seq<string>): Regex {
    Alternation(Mapped(segments, (segment: string) => Literal(segment)))
  }

  function Extensions(extensions: seq<Extension>): Regex {
    Alternation(Mapped(extensions, ExtensionPattern))
  }

  /** `matcherExclusion`. */
  function MatcherExclusion(segments: seq<string>, extensions: seq<Extension>): Regex {
    AnyOf([
      Then(Segments(segments), AnyOf([Literal("/"), EndOfInput])),
      Then(Literal("."), NotSlashStar),
      Then(DotStar, Then(Literal("/."), NotSlashStar)),
      Then(DotStar, Then(Literal("."), Then(Extensions(extensions), EndOfInput)))])
  }

  /** `middlewareMatcher`, to be matched against a whole path. */
  function MiddlewareMatcher(segments: seq<string>, extensions: seq<Extension>): Regex {
    Then(Literal("/"), Then(NotAhead(MatcherExclusion(segments, extensions)), DotStar))
  }

  ghost predicate MiddlewareRuns(segments: seq<string>, extensions: seq<Extension>, path: string) {
    Matches(MiddlewareMatcher(segments, extensions), path, 0, |path|)
  }

  // ----- The predicate -----------------------------------------------------------------------

  function Lower(c: char): char {
    if 'A' <= c <= 'Z' then (c as int + 32) as char else c
  }

  function Lowered(s: string): string {
    seq(|s|, i requires 0 <= i < |s| => Lower(s[i]))
  }

  function LoweredExtension(e: Extension): Extension {
    Extension(Lowered(e.stem), Lowered(e.maybe), Lowered(e.rest))
  }

  /** `path` ends in a dot and one of the two spellings of the extension. */
  predicate HasExtension(path: string, e: Extension) {
    EndsWith(path, "." + e.stem + e.rest) || EndsWith(path, "." + e.stem + e.maybe + e.rest)
  }

  predicate IsAsset(extensions: seq<Extension>, path: string) {
    exists k | 0 <= k < |extensions| :: HasExtension(path, extensions[k])
  }

  /** `assetPathPattern`, which carries the `i` flag. */
  predicate IsAssetIgnoringCase(extensions: seq<Extension>, path: string) {
    exists k | 0 <= k < |extensions| :: HasExtension(Lowered(path), LoweredExtension(extensions[k]))
  }

  /** `split("/")`. */
  function Split(path: string): (segments: seq<string>)
    ensures segments != []
    ensures segments[|segments| - 1] == "" <==> path == "" || path[|path| - 1] == '/'
  {
    if path == "" then [""]
    else
      var before := Split(path[..|path| - 1]);
      var c := path[|path| - 1];
      if c == '/' then before + [""] else before[|before| - 1 := before[|before| - 1] + [c]]
  }

  predicate HasDotSegment(path: string) {
    exists k | 0 <= k < |Split(path)| :: StartsWith(Split(path)[k], ".")
  }

  /** The first segment of `path` is `segment`. */
  predicate IsSegment(path: string, segment: string) {
    path == "/" + segment || StartsWith(path, "/" + segment + "/")
  }

  predicate InSegment(segments: seq<string>, path: string) {
    exists k | 0 <= k < |segments| :: IsSegment(path, segments[k])
  }

  /** `isNonPagePath`. */
  predicate IsNonPagePath(segments: seq<string>, extensions: seq<Extension>, path: string) {
    IsAssetIgnoringCase(extensions, path) || HasDotSegment(path) || InSegment(segments, path)
  }

  // ----- What each alternative of the exclusion means ----------------------------------------------

  lemma {:induction false} SegmentsMean(segments: seq<string>, path: string, m: nat)
    requires |segments| > 0 && path != ""
    ensures Matches(Segments(segments), path, 1, m)
       <==> exists k | 0 <= k < |segments| :: 1 <= m <= |path| && path[1..m] == segments[k]
  {
    var list := Mapped(segments, (segment: string) => Literal(segment));
    forall k | 0 <= k < |segments|
      ensures Matches(list[k], path, 1, m) <==> 1 <= m <= |path| && path[1..m] == segments[k]
    {
      LiteralMeans(segments[k], path, 1, m);
    }
    assert Matches(AnyOf(list), path, 1, m) <==> exists k | 0 <= k < |list| :: Matches(list[k], path, 1, m);
  }

  const STOP := AnyOf([Literal("/"), EndOfInput])

  lemma {:induction false} StopMeans(path: string, m: nat, j: nat)
    requires m <= |path|
    ensures Matches(STOP, path, m, j) <==> (m < |path| && path[m] == '/' && j == m + 1) || (m == j == |path|)
  {
    var list := [Literal("/"), EndOfInput];
    LiteralMeans("/", path, m, j);
    assert Matches(list[0], path, m, j) <==> m < |path| && path[m] == '/' && j == m + 1;
    assert Matches(list[1], path, m, j) <==> m == j == |path|;
    assert Matches(AnyOf(list), path, m, j) <==> Matches(list[0], path, m, j) || Matches(list[1], path, m, j);
  }

  lemma {:induction false} SegmentAlone(path: string, segment: string)
    ensures path == "/" + segment <==> |path| == 1 + |segment| && path[0] == '/' && path[1..] == segment
  {
    if |path| == 1 + |segment| && path[0] == '/' && path[1..] == segment {
      assert path == [path[0]] + path[1..];
    }
  }

  lemma {:induction false} SegmentThenSlash(path: string, segment: string)
    ensures StartsWith(path, "/" + segment + "/")
       <==> var m := 1 + |segment|; m < |path| && path[0] == '/' && path[1..m] == segment && path[m] == '/'
  {
    var m, opening := 1 + |segment|, "/" + segment + "/";
    if StartsWith(path, opening) {
      assert path[0] == path[..m + 1][0] && path[m] == path[..m + 1][m];
      forall k | 0 <= k < |segment|
        ensures path[1..m][k] == segment[k]
      {
        assert path[..m + 1][k + 1] == opening[k + 1];
      }
    }
    if m < |path| && path[0] == '/' && path[1..m] == segment && path[m] == '/' {
      forall k | 0 <= k < m + 1
        ensures path[..m + 1][k] == opening[k]
      {
        assert 0 < k < m ==> path[1..m][k - 1] == segment[k - 1];
      }
    }
  }

  lemma {:induction false} SegmentEnds(path: string, segment: string)
    requires StartsWith(path, "/")
    ensures IsSegment(path, segment)
       <==> var m := 1 + |segment|; m <= |path| && path[1..m] == segment && (m == |path| || path[m] == '/')
  {
    assert path[0] == path[..1][0] == '/';
    SegmentAlone(path, segment);
    SegmentThenSlash(path, segment);
    assert |path| == 1 + |segment| ==> path[1..1 + |segment|] == path[1..];
  }

  lemma {:induction false} StopFrom(path: string, m: nat)
    requires m <= |path|
    ensures MatchesFrom(STOP, path, m) <==> m == |path| || path[m] == '/'
  {
    if MatchesFrom(STOP, path, m) {
      var j :| m <= j <= |path| && Matches(STOP, path, m, j);
      StopMeans(path, m, j);
    }
    if m == |path| || path[m] == '/' {
      StopMeans(path, m, if m == |path| then m else m + 1);
    }
  }

  lemma {:induction false} SegmentAlternative(segments: seq<string>, path: string)
    requires |segments| > 0 && StartsWith(path, "/")
    ensures MatchesFrom(Then(Segments(segments), STOP), path, 1) <==> InSegment(segments, path)
  {
    ThenFrom(Segments(segments), STOP, path, 1);
    if m :| 1 <= m <= |path| && Matches(Segments(segments), path, 1, m) && MatchesFrom(STOP, path, m) {
      SegmentsMean(segments, path, m);
      StopFrom(path, m);
      var k :| 0 <= k < |segments| && path[1..m] == segments[k];
      SegmentEnds(path, segments[k]);
    }
    if InSegment(segments, path) {
      var k :| 0 <= k < |segments| && IsSegment(path, segments[k]);
      SegmentEnds(path, segments[k]);
      var m := 1 + |segments[k]|;
      SegmentsMean(segments, path, m);
      StopFrom(path, m);
    }
  }

  /** A segment after position `i` starts with a dot. */
  predicate SlashDotAt(path: string, i: nat) {
    i + 1 < |path| && path[i] == '/' && path[i + 1] == '.'
  }

  ghost predicate NoLineTerminator(path: string) {
    forall k | 0 <= k < |path| :: !LineTerminator(path[k])
  }

  lemma {:induction false} FirstDotAlternative(path: string)
    requires StartsWith(path, "/")
    ensures MatchesFrom(Then(Literal("."), NotSlashStar), path, 1) <==> SlashDotAt(path, 0)
  {
    assert path[0] == '/';
    ThenFrom(Literal("."), NotSlashStar, path, 1);
    if m :| 1 <= m <= |path| && Matches(Literal("."), path, 1, m) && MatchesFrom(NotSlashStar, path, m) {
      LiteralMeans(".", path, 1, m);
      assert path[1..m][0] == '.';
    }
    if SlashDotAt(path, 0) {
      LiteralMeans(".", path, 1, 2);
      assert Matches(NotSlashStar, path, 2, 2);
    }
  }

  lemma {:induction false} SlashDotFrom(path: string, i: nat)
    requires i <= |path|
    ensures MatchesFrom(Then(Literal("/."), NotSlashStar), path, i) <==> SlashDotAt(path, i)
  {
    ThenFrom(Literal("/."), NotSlashStar, path, i);
    if m :| i <= m <= |path| && Matches(Literal("/."), path, i, m) && MatchesFrom(NotSlashStar, path, m) {
      LiteralMeans("/.", path, i, m);
      assert path[i..m][0] == '/' && path[i..m][1] == '.';
    }
    if SlashDotAt(path, i) {
      assert path[i..i + 2] == "/.";
      LiteralMeans("/.", path, i, i + 2);
      assert Matches(NotSlashStar, path, i + 2, i + 2);
    }
  }

  lemma {:induction false} LaterDotAlternative(path: string)
    requires path != "" && NoLineTerminator(path)
    ensures MatchesFrom(Then(DotStar, Then(Literal("/."), NotSlashStar)), path, 1)
        <==> exists i: nat | 1 <= i :: SlashDotAt(path, i)
  {
    var later := Then(Literal("/."), NotSlashStar);
    ThenFrom(DotStar, later, path, 1);
    if m :| 1 <= m <= |path| && Matches(DotStar, path, 1, m) && MatchesFrom(later, path, m) {
      SlashDotFrom(path, m);
      assert SlashDotAt(path, m);
    }
    if i: nat :| 1 <= i && SlashDotAt(path, i) {
      SlashDotFrom(path, i);
      assert Matches(DotStar, path, 1, i);
    }
  }

  lemma {:induction false} PiecesJoin(path: string, m: nat, k: nat, o: nat)
    requires m <= k <= o <= |path|
    ensures path[m..] == path[m..k] + path[k..o] + path[o..|path|]
  {
  }

  lemma {:induction false} MatchesExtension(e: Extension, path: string, m: nat)
    requires m <= |path| && Matches(ExtensionPattern(e), path, m, |path|)
    ensures path[m..] == e.stem + e.rest || path[m..] == e.stem + e.maybe + e.rest
  {
    var tail := Then(Optional(Literal(e.maybe)), Literal(e.rest));
    var k := ThenSplits(Literal(e.stem), tail, path, m, |path|);
    var o := ThenSplits(Optional(Literal(e.maybe)), Literal(e.rest), path, k, |path|);
    LiteralMeans(e.stem, path, m, k);
    LiteralMeans(e.maybe, path, k, o);
    LiteralMeans(e.rest, path, o, |path|);
    PiecesJoin(path, m, k, o);
  }

  lemma {:induction false} ExtensionMeans(e: Extension, path: string, m: nat)
    requires m <= |path|
    ensures Matches(ExtensionPattern(e), path, m, |path|)
       <==> path[m..] == e.stem + e.rest || path[m..] == e.stem + e.maybe + e.rest
  {
    if Matches(ExtensionPattern(e), path, m, |path|) {
      MatchesExtension(e, path, m);
    }
    if path[m..] == e.stem + e.rest {
      ExtensionMatches(e, path, m, "");
    }
    if path[m..] == e.stem + e.maybe + e.rest {
      ExtensionMatches(e, path, m, e.maybe);
    }
  }

  lemma {:induction false} TwoPieces(path: string, m: nat, a: string, b: string)
    requires m <= |path| && path[m..] == a + b
    ensures m + |a| <= |path| && path[m..m + |a|] == a && path[m + |a|..] == b
  {
    var rest := path[m..];
    assert |rest| == |path| - m == |a| + |b|;
    assert path[m..m + |a|] == rest[..|a|];
    assert path[m + |a|..] == rest[|a|..];
    assert rest[..|a|] == a && rest[|a|..] == b;
  }

  lemma {:induction false} ThreePieces(path: string, m: nat, a: string, b: string, c: string)
    requires m <= |path| && path[m..] == a + b + c
    ensures
      var k, o := m + |a|, m + |a| + |b|;
      o + |c| == |path| && path[m..k] == a && path[k..o] == b && path[o..|path|] == c
  {
    assert a + b + c == a + (b + c);
    TwoPieces(path, m, a, b + c);
    TwoPieces(path, m + |a|, b, c);
    assert path[m + |a| + |b|..|path|] == path[m + |a| + |b|..] == c;
  }

  lemma {:induction false} ExtensionMatches(e: Extension, path: string, m: nat, maybe: string)
    requires m <= |path|
    requires maybe == "" || maybe == e.maybe
    requires path[m..] == e.stem + maybe + e.rest
    ensures Matches(ExtensionPattern(e), path, m, |path|)
  {
    var k := m + |e.stem|;
    var o := k + |maybe|;
    ThreePieces(path, m, e.stem, maybe, e.rest);
    LiteralMeans(e.stem, path, m, k);
    LiteralMeans(e.maybe, path, k, o);
    LiteralMeans(e.rest, path, o, |path|);
    ThenJoins(Optional(Literal(e.maybe)), Literal(e.rest), path, k, o, |path|);
    ThenJoins(Literal(e.stem), Then(Optional(Literal(e.maybe)), Literal(e.rest)), path, m, k, |path|);
  }

  lemma {:induction false} ExtensionsMean(extensions: seq<Extension>, path: string, m: nat)
    requires |extensions| > 0 && m <= |path|
    ensures Matches(Extensions(extensions), path, m, |path|)
       <==> exists k | 0 <= k < |extensions| :: Matches(ExtensionPattern(extensions[k]), path, m, |path|)
  {
    var list := Mapped(extensions, ExtensionPattern);
    assert forall k | 0 <= k < |extensions| :: list[k] == ExtensionPattern(extensions[k]);
    assert Matches(AnyOf(list), path, m, |path|) <==> exists k | 0 <= k < |list| :: Matches(list[k], path, m, |path|);
  }

  /** What follows the dot at `d` is the extension. */
  predicate ExtensionAt(path: string, d: nat, e: Extension) {
    d < |path| && path[d] == '.' && (path[d + 1..] == e.stem + e.rest || path[d + 1..] == e.stem + e.maybe + e.rest)
  }

  lemma {:induction false} EndsWithDot(path: string, suffix: string)
    ensures EndsWith(path, "." + suffix)
        <==> var d := |path| - |suffix| - 1; d >= 0 && path[d] == '.' && path[d + 1..] == suffix
  {
  }

  lemma {:induction false} SpelledAt(path: string, spelling: string)
    ensures EndsWith(path, "." + spelling)
       <==> exists d: nat :: d < |path| && path[d] == '.' && path[d + 1..] == spelling
  {
    EndsWithDot(path, spelling);
    if EndsWith(path, "." + spelling) {
      var d: nat := |path| - |spelling| - 1;
      assert d < |path| && path[d] == '.' && path[d + 1..] == spelling;
    }
    if d: nat :| d < |path| && path[d] == '.' && path[d + 1..] == spelling {
      assert |path[d + 1..]| == |path| - d - 1;
    }
  }

  lemma {:induction false} HasExtensionAt(path: string, e: Extension)
    ensures HasExtension(path, e) <==> exists d: nat :: ExtensionAt(path, d, e)
  {
    SpelledAt(path, e.stem + e.rest);
    SpelledAt(path, e.stem + e.maybe + e.rest);
    assert "." + e.stem + e.rest == "." + (e.stem + e.rest);
    assert "." + e.stem + e.maybe + e.rest == "." + (e.stem + e.maybe + e.rest);
    if HasExtension(path, e) {
      var spelling := if EndsWith(path, "." + e.stem + e.rest) then e.stem + e.rest else e.stem + e.maybe + e.rest;
      var d: nat :| d < |path| && path[d] == '.' && path[d + 1..] == spelling;
      assert ExtensionAt(path, d, e);
    }
  }

  lemma {:induction false} EndingFrom(extensions: seq<Extension>, path: string, m: nat)
    requires |extensions| > 0 && m <= |path|
    ensures MatchesFrom(Then(Extensions(extensions), EndOfInput), path, m)
       <==> exists k | 0 <= k < |extensions| :: Matches(ExtensionPattern(extensions[k]), path, m, |path|)
  {
    ThenFrom(Extensions(extensions), EndOfInput, path, m);
    ExtensionsMean(extensions, path, m);
    assert Matches(EndOfInput, path, |path|, |path|);
    assert forall n: nat | n <= |path| :: MatchesFrom(EndOfInput, path, n) ==> n == |path|;
  }

  lemma {:induction false} AssetFrom(extensions: seq<Extension>, path: string, d: nat)
    requires |extensions| > 0 && d <= |path|
    ensures MatchesFrom(Then(Literal("."), Then(Extensions(extensions), EndOfInput)), path, d)
       <==> exists k | 0 <= k < |extensions| :: ExtensionAt(path, d, extensions[k])
  {
    var ending := Then(Extensions(extensions), EndOfInput);
    ThenFrom(Literal("."), ending, path, d);
    if m :| d <= m <= |path| && Matches(Literal("."), path, d, m) && MatchesFrom(ending, path, m) {
      LiteralMeans(".", path, d, m);
      assert path[d..m][0] == '.';
      EndingFrom(extensions, path, m);
      var k :| 0 <= k < |extensions| && Matches(ExtensionPattern(extensions[k]), path, m, |path|);
      ExtensionMeans(extensions[k], path, m);
      assert ExtensionAt(path, d, extensions[k]);
    }
    if k :| 0 <= k < |extensions| && ExtensionAt(path, d, extensions[k]) {
      LiteralMeans(".", path, d, d + 1);
      ExtensionMeans(extensions[k], path, d + 1);
      EndingFrom(extensions, path, d + 1);
    }
  }

  ghost predicate SomeExtensionAt(extensions: seq<Extension>, path: string, d: nat) {
    exists k | 0 <= k < |extensions| :: ExtensionAt(path, d, extensions[k])
  }

  lemma {:induction false} AssetSomewhere(extensions: seq<Extension>, path: string)
    ensures IsAsset(extensions, path) <==> exists d: nat :: SomeExtensionAt(extensions, path, d)
  {
    if IsAsset(extensions, path) {
      var k :| 0 <= k < |extensions| && HasExtension(path, extensions[k]);
      HasExtensionAt(path, extensions[k]);
      var d: nat :| ExtensionAt(path, d, extensions[k]);
      assert SomeExtensionAt(extensions, path, d);
    }
    if d: nat :| SomeExtensionAt(extensions, path, d) {
      var k :| 0 <= k < |extensions| && ExtensionAt(path, d, extensions[k]);
      HasExtensionAt(path, extensions[k]);
    }
  }

  lemma {:induction false} AssetAlternative(extensions: seq<Extension>, path: string)
    requires |extensions| > 0 && StartsWith(path, "/") && NoLineTerminator(path)
    ensures MatchesFrom(Then(DotStar, Then(Literal("."), Then(Extensions(extensions), EndOfInput))), path, 1)
       <==> IsAsset(extensions, path)
  {
    var dotted := Then(Literal("."), Then(Extensions(extensions), EndOfInput));
    AssetSomewhere(extensions, path);
    ThenFrom(DotStar, dotted, path, 1);
    if d :| 1 <= d <= |path| && Matches(DotStar, path, 1, d) && MatchesFrom(dotted, path, d) {
      AssetFrom(extensions, path, d);
      assert SomeExtensionAt(extensions, path, d);
    }
    if d: nat :| SomeExtensionAt(extensions, path, d) {
      assert path[0] == '/';
      AssetFrom(extensions, path, d);
      assert Matches(DotStar, path, 1, d);
    }
  }

  // ----- Segments that start with a dot -----------------------------------------------------------------

  ghost predicate SomeSlashDot(path: string) {
    exists i: nat :: SlashDotAt(path, i)
  }

  lemma {:induction false} SlashDotGrows(before: string, c: char)
    ensures SomeSlashDot(before + [c])
        <==> SomeSlashDot(before) || (before != "" && before[|before| - 1] == '/' && c == '.')
  {
    var path := before + [c];
    if i: nat :| SlashDotAt(path, i) {
      assert i + 1 < |before| ==> SlashDotAt(before, i);
    }
    if i: nat :| SlashDotAt(before, i) {
      assert SlashDotAt(path, i);
    }
    if before != "" && before[|before| - 1] == '/' && c == '.' {
      assert SlashDotAt(path, |before| - 1);
    }
  }

  /** A segment starts with a dot exactly when the path does or contains "/.". */
  lemma {:induction false} DotSegments(path: string)
    ensures HasDotSegment(path) <==> StartsWith(path, ".") || SomeSlashDot(path)
  {
    if path == "" {
      assert Split(path) == [""];
    } else {
      var before, c := path[..|path| - 1], path[|path| - 1];
      DotSegments(before);
      assert path == before + [c];
      SlashDotGrows(before, c);
      LastSegmentGrows(before, c);
    }
  }

  lemma {:induction false} LastSegmentGrows(before: string, c: char)
    ensures HasDotSegment(before + [c])
       <==> HasDotSegment(before) || (c == '.' && (before == "" || before[|before| - 1] == '/'))
  {
    var path := before + [c];
    assert path[..|path| - 1] == before;
    var old', new' := Split(before), Split(path);
    var last := |old'| - 1;
    assert forall k | 0 <= k < last :: new'[k] == old'[k];
    if c == '/' {
      assert new'[last] == old'[last] && new'[last + 1] == "";
    } else {
      assert new'[last] == old'[last] + [c];
    }
    if HasDotSegment(before) {
      var k :| 0 <= k < |old'| && StartsWith(old'[k], ".");
      assert StartsWith(new'[k], ".");
    }
    if HasDotSegment(path) {
      var k :| 0 <= k < |new'| && StartsWith(new'[k], ".");
      assert k <= last;
      if k < last || old'[last] != "" {
        assert StartsWith(old'[k], ".");
      } else {
        assert new'[k] == [c];
      }
    }
    if c == '.' && old'[last] == "" {
      assert new'[last] == ".";
    }
  }

  // ----- The matcher and the predicate agree --------------------------------------------------------------

  lemma {:induction false} ExclusionMeans(segments: seq<string>, extensions: seq<Extension>, path: string)
    requires |segments| > 0 && |extensions| > 0
    requires StartsWith(path, "/") && NoLineTerminator(path)
    ensures MatchesFrom(MatcherExclusion(segments, extensions), path, 1)
       <==> IsAsset(extensions, path) || HasDotSegment(path) || InSegment(segments, path)
  {
    SegmentAlternative(segments, path);
    FirstDotAlternative(path);
    LaterDotAlternative(path);
    AssetAlternative(extensions, path);
    DotSegments(path);
    assert path[0] == '/';
    ExclusionAlternatives(segments, extensions, path);
  }

  lemma {:induction false} ExclusionAlternatives(segments: seq<string>, extensions: seq<Extension>, path: string)
    requires path != ""
    ensures MatchesFrom(MatcherExclusion(segments, extensions), path, 1)
       <==> || MatchesFrom(Then(Segments(segments), STOP), path, 1)
            || MatchesFrom(Then(Literal("."), NotSlashStar), path, 1)
            || MatchesFrom(Then(DotStar, Then(Literal("/."), NotSlashStar)), path, 1)
            || MatchesFrom(Then(DotStar, Then(Literal("."), Then(Extensions(extensions), EndOfInput))), path, 1)
  {
    var list := [
      Then(Segments(segments), STOP),
      Then(Literal("."), NotSlashStar),
      Then(DotStar, Then(Literal("/."), NotSlashStar)),
      Then(DotStar, Then(Literal("."), Then(Extensions(extensions), EndOfInput)))];
    assert MatcherExclusion(segments, extensions) == AnyOf(list);
    AnyOfFrom(list, path, 1);
    assert list[0] == Then(Segments(segments), STOP);
    assert list[1] == Then(Literal("."), NotSlashStar);
    assert list[2] == Then(DotStar, Then(Literal("/."), NotSlashStar));
    assert list[3] == Then(DotStar, Then(Literal("."), Then(Extensions(extensions), EndOfInput)));
  }

  /** For any non-empty lists, the middleware skips exactly the paths that are assets as spelled, have a dot segment
      or lie in a non-page segment. */
  lemma {:induction false} MatcherMeans(segments: seq<string>, extensions: seq<Extension>, path: string)
    requires |segments| > 0 && |extensions| > 0
    requires StartsWith(path, "/") && NoLineTerminator(path)
    ensures MiddlewareRuns(segments, extensions, path)
       <==> !(IsAsset(extensions, path) || HasDotSegment(path) || InSegment(segments, path))
  {
    var exclusion := MatcherExclusion(segments, extensions);
    ExclusionMeans(segments, extensions, path);
    assert path[0..1] == "/";
    LiteralMeans("/", path, 0, 1);
    if MiddlewareRuns(segments, extensions, path) {
      var m := ThenSplits(Literal("/"), Then(NotAhead(exclusion), DotStar), path, 0, |path|);
      LiteralMeans("/", path, 0, m);
      var n := ThenSplits(NotAhead(exclusion), DotStar, path, m, |path|);
    } else if !MatchesFrom(exclusion, path, 1) {
      ThenJoins(NotAhead(exclusion), DotStar, path, 1, 1, |path|);
      ThenJoins(Literal("/"), Then(NotAhead(exclusion), DotStar), path, 0, 1, |path|);
    }
  }

  // ----- Case ---------------------------------------------------------------------------------------------

  /** Two letters are the same in lower case exactly if they are the same letter of ASCII. */
  lemma {:induction false} LowerFolds(c: char, d: char)
    ensures Lower(c) == Lower(d)
       <==> || c == d
            || (65 <= c as int <= 90 && d as int == c as int + 32)
            || (65 <= d as int <= 90 && c as int == d as int + 32)
  {
  }

  /** An extension without an optional letter is spelled one way. */
  lemma {:induction false} SimpleMeans(path: string, stem: string)
    ensures HasExtension(path, Simple(stem)) <==> EndsWith(path, "." + stem)
  {
    assert "." + stem + "" + "" == "." + stem;
  }

  lemma {:induction false} LoweredExtensionAt(path: string, d: nat, e: Extension)
    requires ExtensionAt(path, d, e)
    ensures ExtensionAt(Lowered(path), d, LoweredExtension(e))
  {
  }

  /** An asset as spelled is an asset whatever the case. */
  lemma {:induction false} AssetIgnoringCase(extensions: seq<Extension>, path: string)
    requires IsAsset(extensions, path)
    ensures IsAssetIgnoringCase(extensions, path)
  {
    var k :| 0 <= k < |extensions| && HasExtension(path, extensions[k]);
    HasExtensionAt(path, extensions[k]);
    var d: nat :| ExtensionAt(path, d, extensions[k]);
    LoweredExtensionAt(path, d, extensions[k]);
    HasExtensionAt(Lowered(path), LoweredExtension(extensions[k]));
  }

  /** The path names an asset only if the case of its letters is ignored. */
  predicate OddlySpelledAsset(extensions: seq<Extension>, path: string) {
    IsAssetIgnoringCase(extensions, path) && !IsAsset(extensions, path)
  }

  /** The matcher and the predicate disagree on a path exactly when it names an asset in
      unusual case and nothing else about it rules it out: the matcher has no `i` flag. */
  lemma {:induction false} MatcherAgreesUnlessOddlySpelled(
    segments: seq<string>, extensions: seq<Extension>, path: string
  )
    requires |segments| > 0 && |extensions| > 0
    requires StartsWith(path, "/") && NoLineTerminator(path)
    ensures !MiddlewareRuns(segments, extensions, path) ==> IsNonPagePath(segments, extensions, path)
    ensures (MiddlewareRuns(segments, extensions, path) <==> !IsNonPagePath(segments, extensions, path))
       <==> !OddlySpelledAsset(extensions, path) || HasDotSegment(path) || InSegment(segments, path)
  {
    MatcherMeans(segments, extensions, path);
    if IsAsset(extensions, path) {
      AssetIgnoringCase(extensions, path);
    }
  }

  /** On lower-case paths they always agree, for any lists of segments and lower-case extensions. */
  lemma {:induction false} MatcherAgreesOnLowerCase(segments: seq<string>, extensions: seq<Extension>, path: string)
    requires |segments| > 0 && |extensions| > 0
    requires forall k | 0 <= k < |extensions| :: LoweredExtension(extensions[k]) == extensions[k]
    requires StartsWith(path, "/") && NoLineTerminator(path)
    requires Lowered(path) == path
    ensures MiddlewareRuns(segments, extensions, path) <==> !IsNonPagePath(segments, extensions, path)
  {
    MatcherAgreesUnlessOddlySpelled(segments, extensions, path);
  }

  predicate LowerCase(s: string) {
    forall i | 0 <= i < |s| :: Lower(s[i]) == s[i]
  }

  predicate LowerCaseExtension(e: Extension) {
    LowerCase(e.stem) && LowerCase(e.maybe) && LowerCase(e.rest)
  }

  lemma {:induction false} ShippedExtensionsAreLowerCase()
    ensures forall k | 0 <= k < |ASSET_EXTENSIONS| :: LowerCaseExtension(ASSET_EXTENSIONS[k])
  {
  }

  /** A path that ends in a capital has no extension in lower case. */
  lemma {:induction false} CapitalEndsNoExtension(path: string, e: Extension)
    requires path != "" && Lower(path[|path| - 1]) != path[|path| - 1] && LowerCaseExtension(e)
    ensures !HasExtension(path, e)
  {
    LowerCaseEnd(path, "." + e.stem + e.rest);
    LowerCaseEnd(path, "." + e.stem + e.maybe + e.rest);
  }

  lemma {:induction false} LowerCaseEnd(path: string, suffix: string)
    requires path != "" && Lower(path[|path| - 1]) != path[|path| - 1] && suffix != "" && LowerCase(suffix)
    ensures !EndsWith(path, suffix)
  {
    assert |suffix| <= |path| ==> path[|path| - |suffix|..][|suffix| - 1] == path[|path| - 1];
  }

  /** In lower case the path has the extension `e`. */
  lemma {:induction false} PngIgnoringCase(e: Extension)
    requires e == Simple("png")
    ensures HasExtension(Lowered("/A.PNG"), LoweredExtension(e))
  {
    assert Lowered("/A.PNG") == "/a.png";
    assert Lowered("png") == "png";
    assert "." + "png" + "" == ".png" && "/a.png"[2..] == ".png";
  }

  lemma {:induction false} UpperCasePng(extensions: seq<Extension>, path: string)
    requires extensions == ASSET_EXTENSIONS && path == "/A.PNG"
    ensures OddlySpelledAsset(extensions, path)
  {
    PngIgnoringCase(extensions[19]);
    ShippedExtensionsAreLowerCase();
    forall k | 0 <= k < |extensions|
      ensures !HasExtension(path, extensions[k])
    {
      CapitalEndsNoExtension(path, extensions[k]);
    }
  }

  lemma {:induction false} UpperCaseIsNoSegment(segments: seq<string>, path: string)
    requires segments == NON_PAGE_SEGMENTS && path == "/A.PNG"
    ensures !InSegment(segments, path) && !HasDotSegment(path)
  {
    DotSegments(path);
    assert path[1] == 'A';
    forall k | 0 <= k < |segments|
      ensures !IsSegment(path, segments[k])
    {
      SegmentEnds(path, segments[k]);
      assert segments[k][0] != 'A';
    }
  }

  lemma {:induction false} ShippedListsApply(segments: seq<string>, extensions: seq<Extension>, path: string)
    requires segments == NON_PAGE_SEGMENTS && extensions == ASSET_EXTENSIONS && path == "/A.PNG"
    ensures |segments| > 0 && |extensions| > 0 && StartsWith(path, "/") && NoLineTerminator(path)
  {
  }

  lemma {:induction false} OddlySpelledDisagrees(segments: seq<string>, extensions: seq<Extension>, path: string)
    requires |segments| > 0 && |extensions| > 0
    requires StartsWith(path, "/") && NoLineTerminator(path)
    requires OddlySpelledAsset(extensions, path) && !HasDotSegment(path) && !InSegment(segments, path)
    ensures MiddlewareRuns(segments, extensions, path) && IsNonPagePath(segments, extensions, path)
  {
    MatcherMeans(segments, extensions, path);
  }

  /** The disagreement is real, with the lists as shipped: the middleware is entered for
      "/A.PNG", which is not a page. */
  lemma {:induction false} UpperCaseAssetDisagrees(segments: seq<string>, extensions: seq<Extension>, path: string)
    requires segments == NON_PAGE_SEGMENTS && extensions == ASSET_EXTENSIONS && path == "/A.PNG"
    ensures MiddlewareRuns(segments, extensions, path) && IsNonPagePath(segments, extensions, path)
  {
    UpperCasePng(extensions, path);
    UpperCaseIsNoSegment(segments, path);
    ShippedListsApply(segments, extensions, path);
    OddlySpelledDisagrees(segments, extensions, path);
  }
}
