/**
 * pkg/support/helper/app_url.go: absolute URLs from paths and back. The
 * application's base URL comes from configuration in the source and is a
 * parameter here.
 */
module AppUrl {
  import opened GoStrings

  /** WithAppUrl: the base, "/", and the path without its leading slashes. */
  function WithAppUrl(base: string, url: string): (r: string)
    ensures HasPrefix(r, base + "/")
    ensures r[|base| + 1..] == TrimLeft(url, "/")
  {
    base + "/" + TrimLeft(url, "/")
  }

  /** WithoutAppUrl: the first occurrence of the base removed, then leading slashes too when `noTrailing`. */
  function WithoutAppUrl(base: string, url: string, noTrailing: bool): (r: string)
    ensures Index(url, base) < 0 ==> r == (if noTrailing then TrimLeft(url, "/") else url)
    ensures Index(url, base) >= 0 && !noTrailing ==>
      r == url[..Index(url, base)] + url[Index(url, base) + |base|..]
  {
    var str := ReplaceFirst(url, base, "");
    if noTrailing then TrimLeft(str, "/") else str
  }

  /** The base at the front of a URL is the occurrence ReplaceFirst removes. */
  lemma RemoveLeadingBase(base: string, rest: string)
    ensures ReplaceFirst(base + rest, base, "") == rest
  {
    var full := base + rest;
    assert full[..|base|] == base && full[|base|..] == rest;
    ReplaceFirstAtStart(full, base, "");
  }

  /** Removing the base from a URL built with it leaves "/" and the path without leading slashes. */
  lemma AppUrlRoundTripKeepsSlash(base: string, url: string)
    ensures WithoutAppUrl(base, WithAppUrl(base, url), false) == "/" + TrimLeft(url, "/")
  {
    var t := TrimLeft(url, "/");
    assert WithAppUrl(base, url) == base + "/" + t;
    RemoveBaseBeforeSlash(base, t);
  }

  lemma RemoveBaseBeforeSlash(base: string, t: string)
    ensures WithoutAppUrl(base, base + "/" + t, false) == "/" + t
  {
    assert base + "/" + t == base + ("/" + t);
    RemoveLeadingBase(base, "/" + t);
  }

  /** With `noTrailing` the round trip gives back the path without its leading slashes. */
  lemma AppUrlRoundTrip(base: string, url: string)
    ensures WithoutAppUrl(base, WithAppUrl(base, url), true) == TrimLeft(url, "/")
  {
    var t := TrimLeft(url, "/");
    assert ReplaceFirst(WithAppUrl(base, url), base, "") == "/" + t by {
      AppUrlRoundTripKeepsSlash(base, url);
    }
    TrimLeftSkips("/", t, "/");
    TrimLeftNoop(t, "/");
  }

  /** Only the first occurrence goes: a base that occurs twice leaves its second copy. */
  lemma RemovesFirstOnly()
    ensures WithoutAppUrl("ab", "abab", false) == "ab"
  {
    assert OccursAt("abab", "ab", 0);
  }
}
