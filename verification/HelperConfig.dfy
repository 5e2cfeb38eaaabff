/** Selection of the credential helper for a URI from the configuration file. */
module HelperConfig {
  import opened Glob
  import opened Text
  import opened Wrappers

  datatype UrlConfig = UrlConfig(scheme: string, host: string, path: string, helper: string, config: string)

  datatype ConfigError = Unparsable | NoHelpersConfigured | HelperRequired | UnknownHelper(name: string)

  /** A selected helper is `None` only where the registry has no `null` helper (a Go nil). */
  datatype Selection<H> = Selected(helper: Option<H>, config: string) | Failed(error: ConfigError)

  /** Empty fields match everything; a scheme is compared, host and path are globs. */
  ghost predicate EntryMatches(e: UrlConfig, u: Url) {
    && (e.scheme != "" ==> e.scheme == u.scheme)
    && (e.host != "" ==> Matches(e.host, u.host))
    && (e.path != "" ==> Matches(e.path, u.path))
  }

  ghost predicate NoMatchBefore(urls: seq<UrlConfig>, u: Url, i: nat)
    requires i <= |urls|
  {
    forall j :: 0 <= j < i ==> !EntryMatches(urls[j], u)
  }

  ghost predicate FirstMatch(urls: seq<UrlConfig>, u: Url, i: nat) {
    i < |urls| && EntryMatches(urls[i], u) && NoMatchBefore(urls, u, i)
  }

  /** An entry without a helper name, at or before the first match. */
  ghost predicate NamelessNoLater(urls: seq<UrlConfig>, u: Url, i: nat) {
    i < |urls| && urls[i].helper == "" && NoMatchBefore(urls, u, i)
  }

  predicate NamedBefore(urls: seq<UrlConfig>, n: nat)
    requires n <= |urls|
  {
    forall i :: 0 <= i < n ==> urls[i].helper != ""
  }

  method FindHelper<H>(urls: seq<UrlConfig>, requested: Option<Url>, registry: map<string, H>)
    returns (r: Selection<H>)
    ensures requested.None? ==> r == Failed(Unparsable)
    ensures requested.Some? && urls == [] ==> r == Failed(NoHelpersConfigured)
    // the least matching entry decides, unless a nameless entry comes no later
    ensures requested.Some? && urls != [] ==>
              forall i: nat :: FirstMatch(urls, requested.value, i) && NamedBefore(urls, i + 1) ==>
                r == if urls[i].helper in registry
                     then Selected(Some(registry[urls[i].helper]), urls[i].config)
                     else Failed(UnknownHelper(urls[i].helper))
    ensures requested.Some? && urls != [] ==>
              (r == Failed(HelperRequired) <==> exists i: nat :: NamelessNoLater(urls, requested.value, i))
    ensures requested.Some? && urls != [] ==>
              (r.Failed? <==> || (exists i: nat :: NamelessNoLater(urls, requested.value, i))
                              || (exists i: nat :: FirstMatch(urls, requested.value, i)
                                              && urls[i].helper !in registry))
    // nothing matches: the null helper without configuration
    ensures requested.Some? && urls != [] && NoMatchBefore(urls, requested.value, |urls|)
            && NamedBefore(urls, |urls|) ==>
              r == Selected(if "null" in registry then Some(registry["null"]) else None, "")
  {
    if requested.None? { return Failed(Unparsable); }
    if |urls| == 0 { return Failed(NoHelpersConfigured); }
    var u := requested.value;
    for n := 0 to |urls|
      invariant NoMatchBefore(urls, u, n)
      invariant NamedBefore(urls, n)
    {
      var e := urls[n];
      if |e.helper| == 0 {
        assert NamelessNoLater(urls, u, n);
        return Failed(HelperRequired);
      }
      if |e.scheme| > 0 && e.scheme != u.scheme { continue; }
      if |e.host| > 0 {
        var hostMatches, _ := GlobMatch(e.host, u.host);
        if !hostMatches { continue; }
      }
      if |e.path| > 0 {
        var pathMatches, _ := GlobMatch(e.path, u.path);
        if !pathMatches { continue; }
      }
      assert FirstMatch(urls, u, n);
      if e.helper in registry {
        return Selected(Some(registry[e.helper]), e.config);
      }
      return Failed(UnknownHelper(e.helper));
    }
    return Selected(if "null" in registry then Some(registry["null"]) else None, "");
  }
}
