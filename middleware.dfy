/**
 * middleware.ts: requests to `/api/font` are refused unless their referer starts with
 * the site's own origin or its `www.` twin. The site origin comes from the environment
 * variable NEXT_PUBLIC_SITE_URL, a parameter here (`None` when unset); headers are
 * `None` when the request does not carry them.
 */
module Middleware {
  import opened Wrappers
  import opened Strings

  /** `h || ''` for a header or variable that may be missing. */
  function OrEmpty(h: Option<string>): string {
    if h.Some? then h.value else ""
  }

  /**
   * `wwwVersion`: an origin with `www.` loses its first `www.`; any other origin gets
   * `www.` after its first `https://` (and stays as it is without one). IndexOf gives
   * the first occurrence.
   */
  function WwwVariant(origin: string): (v: string)
    ensures Contains(origin, "www.") ==>
      var i := IndexOf(origin, "www.").value;
      v == origin[..i] + origin[i + 4..]
    ensures !Contains(origin, "www.") && Contains(origin, "https://") ==>
      var j := IndexOf(origin, "https://").value;
      v == origin[..j + 8] + "www." + origin[j + 8..]
    ensures !Contains(origin, "www.") && !Contains(origin, "https://") ==> v == origin
  {
    if Contains(origin, "www.") then ReplaceFirst(origin, "www.", "")
    else
      assert Contains(origin, "https://") ==>
        var j := IndexOf(origin, "https://").value;
        origin[..j + 8] == origin[..j] + "https://";
      ReplaceFirst(origin, "https://", "https://www.")
  }

  /**
   * `allowedOrigins`: the site URL and its `www.` variant, both empty when the URL is unset.
   * Gate states what they admit, UnsetSiteAcceptsAll the unset case and WwwToggle the pair.
   */
  function AllowedOrigins(siteUrl: Option<string>): seq<string> {
    [OrEmpty(siteUrl), WwwVariant(OrEmpty(siteUrl))]
  }

  /** `origins.some(origin => referer.startsWith(origin))`. */
  predicate SomePrefix(referer: string, origins: seq<string>) {
    |origins| > 0 && (StartsWith(referer, origins[0]) || SomePrefix(referer, origins[1..]))
  }

  predicate FromSite(referer: string, siteUrl: Option<string>) {
    SomePrefix(referer, AllowedOrigins(siteUrl))
  }

  datatype Verdict = Next | Forbidden

  function Status(v: Verdict): nat {
    if v.Forbidden? then 403 else 200
  }

  /** `middleware`: only the font path is gated, and only by the referer. */
  function Gate(pathname: string, referer: Option<string>, siteUrl: Option<string>): (v: Verdict)
    ensures !StartsWith(pathname, "/api/font") ==> v == Next
    ensures StartsWith(pathname, "/api/font") ==>
      (v == Forbidden <==>
        !StartsWith(OrEmpty(referer), OrEmpty(siteUrl))
        && !StartsWith(OrEmpty(referer), WwwVariant(OrEmpty(siteUrl))))
  {
    var origins := AllowedOrigins(siteUrl);
    assert FromSite(OrEmpty(referer), siteUrl) <==>
      StartsWith(OrEmpty(referer), origins[0]) || StartsWith(OrEmpty(referer), origins[1])
    by {
      assert origins[1..][0] == origins[1] && origins[1..][1..] == [];
      assert !SomePrefix(OrEmpty(referer), origins[1..][1..]);
      assert SomePrefix(OrEmpty(referer), origins[1..]) <==> StartsWith(OrEmpty(referer), origins[1]);
    }
    if StartsWith(pathname, "/api/font") && !FromSite(OrEmpty(referer), siteUrl) then Forbidden
    else Next
  }

  /** With NEXT_PUBLIC_SITE_URL unset both origins are empty, so every referer passes. */
  lemma UnsetSiteAcceptsAll(pathname: string, referer: Option<string>)
    ensures AllowedOrigins(None) == ["", ""]
    ensures Gate(pathname, referer, None) == Next
  {
    assert !Contains("", "https://") by {
      assert IndexOf("", "https://").None?;
    }
    assert StartsWith(OrEmpty(referer), "");
  }

  /** `www.` cannot start inside a prefix with no `w`, so it occurs after it or not at all. */
  lemma NoWwwAfter(scheme: string, host: string)
    requires forall i :: 0 <= i < |scheme| ==> scheme[i] != 'w'
    requires !Contains(host, "www.")
    ensures !Contains(scheme + host, "www.")
  {
    var s := scheme + host;
    if IndexOf(s, "www.").Some? {
      var k := IndexOf(s, "www.").value;
      assert s[k] == "www."[0];
      if k < |scheme| {
        assert false;
      }
      assert s[k..k + 4] == host[k - |scheme|..k - |scheme| + 4];
      assert OccursAt(host, "www.", k - |scheme|);
      assert false;
    }
  }

  /**
   * For a site `https://<host>` whose host has no `www.`, the twin is
   * `https://www.<host>`, and the twin's twin is the site again.
   */
  lemma WwwToggle(host: string)
    requires !Contains(host, "www.")
    ensures WwwVariant("https://" + host) == "https://www." + host
    ensures WwwVariant("https://www." + host) == "https://" + host
  {
    var bare := "https://" + host;
    var www := "https://www." + host;
    NoWwwAfter("https://", host);
    assert StartsWith(bare, "https://");
    assert IndexOf(bare, "https://") == Some(0);
    assert bare[8..] == host;
    assert OccursAt(www, "www.", 8);
    forall k | 0 <= k < 8 ensures !OccursAt(www, "www.", k) {
      assert www[k] == "https://"[k];
    }
    assert IndexOf(www, "www.") == Some(8);
    assert www[..8] == "https://" && www[12..] == host;
  }

  /**
   * On a site `https://<host>`, a font request whose referer is a page of the site, with
   * or without `www.`, passes the middleware.
   */
  lemma SitePagesPass(host: string, page: string, withWww: bool)
    requires !Contains(host, "www.")
    ensures var referer := (if withWww then "https://www." else "https://") + host + page;
      Gate("/api/font", Some(referer), Some("https://" + host)) == Next
  {
    WwwToggle(host);
    var referer := (if withWww then "https://www." else "https://") + host + page;
    var origin := (if withWww then "https://www." else "https://") + host;
    assert referer[..|origin|] == origin;
    assert StartsWith("/api/font", "/api/font");
  }
}
