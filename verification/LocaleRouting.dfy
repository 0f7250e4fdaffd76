/** Locale prefixes, the middleware as a step from request to response, and the canonical
    and alternate addresses a page announces. */
module LocaleRouting {
  import opened Basics
  import opened Negotiation
  import opened Routing

  const ZH_PREFIX := "/zh-CN"

  function PathForLocale(pathname: string, locale: Locale): string {
    var normalized := if StartsWith(pathname, "/") then pathname else "/" + pathname;
    match locale
    case En => normalized
    case ZhCN => if normalized == "/" then ZH_PREFIX else ZH_PREFIX + normalized
  }

  predicate Prefixed(pathname: string) {
    pathname == ZH_PREFIX || StartsWith(pathname, ZH_PREFIX + "/")
  }

  function StripLocalePrefix(pathname: string): string {
    if pathname == ZH_PREFIX then "/"
    else if StartsWith(pathname, ZH_PREFIX + "/") then pathname[|ZH_PREFIX|..]
    else pathname
  }

  // ----- The middleware ---------------------------------------------------------------------

  /** A navigation: its path and HTTP method, the locale its cookie names, if any, and its
      Accept-Language entries. */
  datatype Request = Request(path: string, verb: string, cookie: Option<Locale>, accept: Option<seq<Entry>>)

  /** What the middleware makes of it. `locale` and `pathname` are the request headers the
      page sees; a rewrite and a redirect also set the locale cookie. */
  datatype Response =
    | Untouched
    | Rewrite(route: string, locale: Locale, pathname: string)
    | Redirect(location: string, cookie: Locale)
    | Serve(locale: Locale, pathname: string)

  predicate NonPage(path: string) {
    IsNonPagePath(NON_PAGE_SEGMENTS, ASSET_EXTENSIONS, path)
  }

  /** What the visitor prefers: the cookie's locale, or else the negotiated one. */
  function Preferred(r: Request): Locale {
    if r.cookie.Some? then r.cookie.value else NegotiateLocale(r.accept)
  }

  function Middleware(r: Request): Response {
    if NonPage(r.path) then Untouched
    else if Prefixed(r.path) then
      var rest := StripLocalePrefix(r.path);
      Rewrite(rest, ZhCN, ZH_PREFIX + (if rest == "/" then "" else rest))
    else
      var preferred := Preferred(r);
      if preferred != DEFAULT_LOCALE && (r.verb == "GET" || r.verb == "HEAD") then
        Redirect(PathForLocale(r.path, preferred), preferred)
      else Serve(preferred, r.path)
  }

  /** With the matcher in front: paths it excludes never reach the middleware. */
  ghost function Handle(r: Request): Response {
    if MiddlewareRuns(NON_PAGE_SEGMENTS, ASSET_EXTENSIONS, r.path) then Middleware(r) else Untouched
  }

  /** The request a client sends after a redirect. */
  function Followed(r: Request, response: Response): Request
    requires response.Redirect?
  {
    r.(path := response.location, cookie := Some(response.cookie))
  }

  // ----- Prefix arithmetic --------------------------------------------------------------------

  lemma {:induction false} StripUndoesPrefix(path: string)
    requires StartsWith(path, "/")
    ensures StripLocalePrefix(PathForLocale(path, ZhCN)) == path
    ensures Prefixed(PathForLocale(path, ZhCN))
    ensures PathForLocale(StripLocalePrefix(PathForLocale(path, ZhCN)), ZhCN) == PathForLocale(path, ZhCN)
    ensures StripLocalePrefix(PathForLocale(path, En)) == path <==> !Prefixed(path)
  {
  }

  /** A missing slash in front is put there. */
  lemma {:induction false} SlashIsAdded(path: string, locale: Locale)
    requires !StartsWith(path, "/")
    ensures PathForLocale(path, locale) == PathForLocale("/" + path, locale)
    ensures PathForLocale(path, En) == "/" + path
  {
  }

  lemma {:induction false} PrefixUndoesStrip(path: string)
    requires Prefixed(path)
    ensures StartsWith(StripLocalePrefix(path), "/")
    ensures PathForLocale(StripLocalePrefix(path), ZhCN) == if path == ZH_PREFIX + "/" then ZH_PREFIX else path
  {
    if path != ZH_PREFIX {
      var rest := StripLocalePrefix(path);
      assert path[..|ZH_PREFIX| + 1] == ZH_PREFIX + "/";
      assert path[|ZH_PREFIX|] == '/' && rest[0] == '/';
      assert rest[..1] == "/";
      assert path == path[..|ZH_PREFIX|] + rest;
      assert path[..|ZH_PREFIX|] == path[..|ZH_PREFIX| + 1][..|ZH_PREFIX|];
    }
  }

  // ----- What the middleware answers -----------------------------------------------------------------

  /** The path is the Chinese root or lies below it. */
  predicate BelowChinese(path: string) {
    |path| >= 6 && path[..6] == "/zh-CN" && (|path| == 6 || path[6] == '/')
  }

  lemma {:induction false} PrefixedIsBelow(path: string)
    ensures Prefixed(path) <==> BelowChinese(path)
    ensures Prefixed(path) ==> StripLocalePrefix(path) == if |path| == 6 then "/" else path[6..]
  {
    if |path| > 6 {
      assert path[..7][..6] == path[..6] && path[..7][6] == path[6];
      assert path[..7] == path[..6] + [path[6]];
      if path[..7] == ZH_PREFIX + "/" {
        assert path[..6] == "/zh-CN" && path[6] == '/';
      }
    } else if |path| == 6 {
      assert path[..6] == path;
    }
  }

  /** The visitor reads Chinese: their cookie says so, or there is none and the header does. */
  predicate ReadsChinese(r: Request) {
    r.cookie == Some(ZhCN) || (r.cookie == None && NegotiateLocale(r.accept) == ZhCN)
  }

  /** Every answer: assets and service paths pass untouched; a Chinese address is rewritten to
      its route; any other page is redirected to its Chinese address exactly when it is read,
      by GET or HEAD, by somebody who reads Chinese, and otherwise served in their language. */
  lemma {:induction false} MiddlewareAnswers(r: Request)
    requires StartsWith(r.path, "/")
    ensures
      Middleware(r)
      == if IsNonPagePath(NON_PAGE_SEGMENTS, ASSET_EXTENSIONS, r.path) then Untouched
         else if BelowChinese(r.path) then
           if |r.path| <= 7 then Rewrite("/", ZhCN, "/zh-CN") else Rewrite(r.path[6..], ZhCN, r.path)
         else if ReadsChinese(r) && r.verb in {"GET", "HEAD"} then
           Redirect(if |r.path| == 1 then "/zh-CN" else "/zh-CN" + r.path, ZhCN)
         else Serve(if ReadsChinese(r) then ZhCN else En, r.path)
  {
    PrefixedIsBelow(r.path);
    if BelowChinese(r.path) && |r.path| >= 7 {
      var rest := r.path[6..];
      assert rest[0] == '/' && r.path == r.path[..6] + rest;
      assert |rest| == 1 ==> rest == [rest[0]];
    }
    assert |r.path| == 1 ==> r.path == "/";
  }

  // ----- A prefixed page is still a page ---------------------------------------------------------

  /** No non-page segment contains a slash or is the locale prefix. */
  predicate OrdinarySegments(segments: seq<string>) {
    forall k | 0 <= k < |segments| :: '/' !in segments[k] && segments[k] != ZH_PREFIX[1..]
  }

  lemma {:induction false} ShippedSegmentsAreOrdinary()
    ensures OrdinarySegments(NON_PAGE_SEGMENTS)
  {
  }

  /** Positions before 6 lie in the prefix, which has no dot; the rest is the path. */
  lemma {:induction false} PrefixedAt(path: string)
    ensures |ZH_PREFIX + path| == 6 + |path|
    ensures forall i | 0 <= i < 6 :: (ZH_PREFIX + path)[i] != '.'
    ensures forall i | 1 <= i < 6 :: (ZH_PREFIX + path)[i] != '/'
    ensures forall i | 6 <= i < 6 + |path| :: (ZH_PREFIX + path)[i] == path[i - 6]
    ensures forall i | 6 <= i <= 6 + |path| :: (ZH_PREFIX + path)[i..] == path[i - 6..]
  {
  }

  lemma {:induction false} PrefixAddsNoAsset(extensions: seq<Extension>, path: string)
    requires IsAssetIgnoringCase(extensions, ZH_PREFIX + path)
    ensures IsAssetIgnoringCase(extensions, path)
  {
    var k :| 0 <= k < |extensions| && HasExtension(Lowered(ZH_PREFIX + path), LoweredExtension(extensions[k]));
    LoweredPrefix(path, LoweredExtension(extensions[k]));
  }

  lemma {:induction false} ExtensionFurtherOn(whole: string, rest: string, d: nat, e: Extension)
    requires |whole| >= 6 && whole[6..] == rest && d >= 6 && ExtensionAt(whole, d, e)
    ensures ExtensionAt(rest, d - 6, e)
  {
    assert whole[d + 1..] == rest[d - 6 + 1..];
  }

  lemma {:induction false} LoweredPrefix(path: string, e: Extension)
    requires HasExtension(Lowered(ZH_PREFIX + path), e)
    ensures HasExtension(Lowered(path), e)
  {
    var whole := Lowered(ZH_PREFIX + path);
    PrefixedAt(path);
    HasExtensionAt(whole, e);
    var d: nat :| ExtensionAt(whole, d, e);
    assert d >= 6;
    ExtensionFurtherOn(whole, Lowered(path), d, e);
    HasExtensionAt(Lowered(path), e);
  }

  lemma {:induction false} PrefixAddsNoDotSegment(path: string)
    requires HasDotSegment(ZH_PREFIX + path)
    ensures HasDotSegment(path)
  {
    var whole := ZH_PREFIX + path;
    PrefixedAt(path);
    DotSegments(whole);
    DotSegments(path);
    assert whole[..1][0] == whole[0];
    assert SomeSlashDot(whole);
    var i: nat :| SlashDotAt(whole, i);
    assert whole[i] == '/' && whole[i + 1] == '.';
    assert i + 1 >= 6 && i != 5;
    assert SlashDotAt(path, i - 6);
  }

  lemma {:induction false} PrefixIsOwnSegment(segments: seq<string>, path: string)
    requires OrdinarySegments(segments)
    requires path == "" || path[0] == '/'
    ensures !InSegment(segments, ZH_PREFIX + path)
  {
    var whole := ZH_PREFIX + path;
    PrefixedAt(path);
    assert whole[..1] == "/";
    assert whole[1..6] == ZH_PREFIX[1..];
    forall k | 0 <= k < |segments|
      ensures !IsSegment(whole, segments[k])
    {
      SegmentEnds(whole, segments[k]);
      var m := 1 + |segments[k]|;
      if 6 < m <= |whole| {
        assert whole[1..m][5] == '/';
      }
    }
  }

  /** A page path stays a page when prefixed, so the matcher lets it in and the rewrite branch takes it. */
  lemma {:induction false} PrefixedPageIsPage(segments: seq<string>, extensions: seq<Extension>, path: string)
    requires OrdinarySegments(segments)
    requires StartsWith(path, "/")
    requires !IsNonPagePath(segments, extensions, path)
    ensures !IsNonPagePath(segments, extensions, PathForLocale(path, ZhCN))
  {
    assert path[0] == '/';
    var rest := if path == "/" then "" else path;
    assert PathForLocale(path, ZhCN) == ZH_PREFIX + rest;
    if rest == "" {
      EmptyRestIsPage(extensions);
    }
    if IsAssetIgnoringCase(extensions, ZH_PREFIX + rest) {
      PrefixAddsNoAsset(extensions, rest);
    }
    if HasDotSegment(ZH_PREFIX + rest) {
      PrefixAddsNoDotSegment(rest);
    }
    PrefixIsOwnSegment(segments, rest);
  }

  lemma {:induction false} EmptyRestIsPage(extensions: seq<Extension>)
    ensures !IsAssetIgnoringCase(extensions, "") && !HasDotSegment("")
  {
  }

  // ----- Following redirects ------------------------------------------------------------------------

  /** Putting the matcher in front changes no response. */
  lemma {:induction false} MatcherOnlySkipsUntouched(r: Request)
    requires StartsWith(r.path, "/") && NoLineTerminator(r.path)
    ensures Handle(r) == Middleware(r)
  {
    MatcherAgreesUnlessOddlySpelled(NON_PAGE_SEGMENTS, ASSET_EXTENSIONS, r.path);
  }

  /** From any request at most one redirect is followed: its target is rewritten, in
      Chinese, onto the very route that was asked for. */
  lemma {:induction false} AtMostOneRedirect(r: Request)
    requires StartsWith(r.path, "/")
    requires Middleware(r).Redirect?
    ensures !Prefixed(r.path) && Middleware(r).location == PathForLocale(r.path, ZhCN)
    ensures Middleware(Followed(r, Middleware(r))) == Rewrite(r.path, ZhCN, Middleware(r).location)
  {
    ShippedSegmentsAreOrdinary();
    PrefixedPageIsPage(NON_PAGE_SEGMENTS, ASSET_EXTENSIONS, r.path);
    StripUndoesPrefix(r.path);
  }

  // ----- Canonical and alternate addresses -------------------------------------------------------------

  datatype Addresses = Addresses(canonical: string, en: string, zh: string, fallback: string)

  /** `generateMetadata`, from the locale and pathname headers the middleware set. */
  function Metadata(locale: Locale, pathname: Option<string>): Addresses {
    var path := if pathname.Some? then pathname.value else "/";
    var canonical := PathForLocale(StripLocalePrefix(path), locale);
    var bare := StripLocalePrefix(canonical);
    Addresses(canonical, PathForLocale(bare, En), PathForLocale(bare, ZhCN), PathForLocale(bare, En))
  }

  /** Without the header a page announces the start page. */
  lemma {:induction false} HeaderlessIsStartPage(locale: Locale)
    ensures Metadata(locale, None) == Addresses(if locale == En then "/" else "/zh-CN", "/", "/zh-CN", "/")
  {
  }

  /** What a client that follows redirects is told by the page it ends up on. */
  function Announced(r: Request): Option<Addresses>
    requires StartsWith(r.path, "/")
  {
    var first := Middleware(r);
    var response := if first.Redirect? then Middleware(Followed(r, first)) else first;
    match response
    case Rewrite(_, locale, pathname) => Some(Metadata(locale, Some(pathname)))
    case Serve(locale, pathname) => Some(Metadata(locale, Some(pathname)))
    case _ => None
  }

  /** An unprefixed page announces itself and its Chinese form, whichever of the two was
      asked for and whatever the visitor prefers; its canonical address is the Chinese form
      exactly when that was asked for or Chinese is preferred. */
  lemma {:induction false} AlternatesAgree(r: Request, path: string)
    requires StartsWith(path, "/")
    requires !NonPage(path) && !Prefixed(path)
    requires r.path == path || r.path == PathForLocale(path, ZhCN)
    ensures
      var zh := PathForLocale(path, ZhCN);
      && StartsWith(r.path, "/")
      && Announced(r).Some?
      && Announced(r).value.en == path && Announced(r).value.zh == zh && Announced(r).value.fallback == path
      && Announced(r).value.canonical == if r.path == zh || Preferred(r) == ZhCN then zh else path
  {
    var zh := PathForLocale(path, ZhCN);
    assert zh[..1] == "/";
    ShippedSegmentsAreOrdinary();
    PrefixedPageIsPage(NON_PAGE_SEGMENTS, ASSET_EXTENSIONS, path);
    StripUndoesPrefix(path);
    if Middleware(r).Redirect? {
      AtMostOneRedirect(r);
    }
  }

  predicate SameAlternates(a: Addresses, b: Addresses) {
    a.en == b.en && a.zh == b.zh && a.fallback == b.fallback
  }

  /** The condition is exact: a page path and its Chinese form announce the same alternates
      unless the path itself starts with the prefix, and then no alternate is the same. */
  lemma {:induction false} AlternatesAgreeIffUnprefixed(r: Request, path: string)
    requires StartsWith(path, "/")
    requires !NonPage(path)
    ensures
      var zh := PathForLocale(path, ZhCN);
      && StartsWith(zh, "/")
      && Announced(r.(path := path)).Some? && Announced(r.(path := zh)).Some?
      && var a, b := Announced(r.(path := path)).value, Announced(r.(path := zh)).value;
         && (SameAlternates(a, b) <==> !Prefixed(path))
         && (Prefixed(path) ==> a.en != b.en && a.zh != b.zh && a.fallback != b.fallback)
  {
    var zh := PathForLocale(path, ZhCN);
    assert zh[..1] == "/";
    if Prefixed(path) {
      PrefixedAnnounces(r, path);
    } else {
      StripUndoesPrefix(path);
      AlternatesAgree(r.(path := path), path);
      AlternatesAgree(r.(path := zh), path);
    }
  }

  lemma {:induction false} PrefixedAnnounces(r: Request, path: string)
    requires StartsWith(path, "/") && !NonPage(path) && Prefixed(path)
    ensures
      var zh := PathForLocale(path, ZhCN);
      && StartsWith(zh, "/")
      && Announced(r.(path := path)).Some? && Announced(r.(path := zh)).Some?
      && var a, b := Announced(r.(path := path)).value, Announced(r.(path := zh)).value;
         && |a.en| < |path| && a.fallback == a.en && |a.zh| <= |path|
         && b.en == path && b.zh == zh && b.fallback == path && |path| < |zh|
  {
    var zh := PathForLocale(path, ZhCN);
    assert zh[..1] == "/";
    ShippedSegmentsAreOrdinary();
    PrefixedPageIsPage(NON_PAGE_SEGMENTS, ASSET_EXTENSIONS, path);
    StripUndoesPrefix(path);
    PrefixUndoesStrip(path);
    var rest := StripLocalePrefix(path);
    StripUndoesPrefix(rest);
    assert |rest| < |path|;
  }

  lemma {:induction false} NoDotNoAsset(path: string)
    requires '.' !in path
    ensures !IsAssetIgnoringCase(ASSET_EXTENSIONS, path) && !HasDotSegment(path)
  {
    forall k | 0 <= k < |ASSET_EXTENSIONS|
      ensures !HasExtension(Lowered(path), LoweredExtension(ASSET_EXTENSIONS[k]))
    {
      HasExtensionAt(Lowered(path), LoweredExtension(ASSET_EXTENSIONS[k]));
    }
    DotSegments(path);
    assert path != "" ==> path[..1][0] == path[0];
  }

  lemma {:induction false} GuideIsAPage()
    ensures !NonPage(ZH_PREFIX + "/guide")
  {
    NoDotNoAsset(ZH_PREFIX + "/guide");
    ShippedSegmentsAreOrdinary();
    PrefixIsOwnSegment(NON_PAGE_SEGMENTS, "/guide");
  }

  /** The page "/zh-CN/guide" announces "/guide" as its English address, and its own Chinese
      form announces "/zh-CN/guide". */
  lemma {:induction false} PrefixedGuide(r: Request)
    ensures
      var path := ZH_PREFIX + "/guide";
      var zh := PathForLocale(path, ZhCN);
      && StartsWith(path, "/") && StartsWith(zh, "/")
      && Announced(r.(path := path)).Some? && Announced(r.(path := zh)).Some?
      && Announced(r.(path := path)).value.en != Announced(r.(path := zh)).value.en
  {
    var path := ZH_PREFIX + "/guide";
    GuideIsAPage();
    assert path[..1] == "/" && path[..7] == ZH_PREFIX + "/";
    assert Prefixed(path);
    AlternatesAgreeIffUnprefixed(r, path);
  }
}
