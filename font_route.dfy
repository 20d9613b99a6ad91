/**
 * app/api/font/route.ts: serves the application's font, but only to a browser (a
 * user-agent containing `Mozilla`) coming from one of the site's pages (the same
 * referer allow-list as Middleware). The font file is WOFF2 when the request accepts
 * it and WOFF otherwise. Reading the file is not modelled: the response names it.
 */
module FontRoute {
  import opened Wrappers
  import opened Strings
  import Middleware

  const CacheControl: string := "public, max-age=31536000"

  /** One year in seconds, the lifetime the font response grants caches. */
  const OneYear: nat := 365 * 24 * 60 * 60

  datatype FontResponse =
    | Forbidden
    | Font(file: string, contentType: string, cacheControl: string)

  function Status(r: FontResponse): nat {
    if r.Forbidden? then 403 else 200
  }

  /** `GET`. */
  function Get(referer: Option<string>, userAgent: Option<string>, accept: Option<string>,
               siteUrl: Option<string>): (r: FontResponse)
    ensures r.Forbidden? <==>
      !Contains(Middleware.OrEmpty(userAgent), "Mozilla")
      || !Middleware.FromSite(Middleware.OrEmpty(referer), siteUrl)
    ensures r.Font? ==>
      && (r.file == "YekanBakh-VF.woff2" <==> Contains(Middleware.OrEmpty(accept), "font/woff2"))
      && (r.file == "YekanBakh-VF.woff" <==> !Contains(Middleware.OrEmpty(accept), "font/woff2"))
      && r.contentType == (if r.file == "YekanBakh-VF.woff2" then "font/woff2" else "font/woff")
      && r.cacheControl == CacheControl
  {
    var isBrowser := Contains(Middleware.OrEmpty(userAgent), "Mozilla");
    var isFromSite := Middleware.FromSite(Middleware.OrEmpty(referer), siteUrl);
    if !isBrowser || !isFromSite then Forbidden
    else
      var prefersWoff2 := Contains(Middleware.OrEmpty(accept), "font/woff2");
      var fontFile := if prefersWoff2 then "YekanBakh-VF.woff2" else "YekanBakh-VF.woff";
      var contentType := if prefersWoff2 then "font/woff2" else "font/woff";
      Font(fontFile, contentType, CacheControl)
  }

  /** The cache lifetime of a served font is one year, written in seconds. */
  lemma CacheForOneYear()
    ensures CacheControl == "public, max-age=" + NatToString(OneYear)
  {
    assert OneYear == 31536000;
    assert NatToString(3) == "3";
    assert NatToString(31) == "31";
    assert NatToString(315) == "315";
    assert NatToString(3153) == "3153";
    assert NatToString(31536) == "31536";
    assert NatToString(315360) == "315360";
    assert NatToString(3153600) == "3153600";
    assert NatToString(31536000) == "31536000";
  }

  /**
   * The route is stricter than the middleware in front of it: whatever it serves, the
   * middleware lets through, and a referer the middleware refuses the route refuses too.
   */
  lemma RouteWithinMiddleware(referer: Option<string>, userAgent: Option<string>, accept: Option<string>,
                              siteUrl: Option<string>)
    ensures Get(referer, userAgent, accept, siteUrl).Font? ==>
      Middleware.Gate("/api/font", referer, siteUrl) == Middleware.Next
    ensures Middleware.Gate("/api/font", referer, siteUrl) == Middleware.Forbidden ==>
      Get(referer, userAgent, accept, siteUrl) == Forbidden
  {
    assert StartsWith("/api/font", "/api/font");
  }
}
