/**
  * URL handling of the contact crawler: `convert_subdomain_to_www` and the
  * internal-link filter of `get_all_internal_links`. `urlparse`,
  * `urlunparse`, `urljoin` and `tldextract` are library code and are given
  * as functions; the two that can raise `ValueError` return `None` then.
  */
module Urls {
  import opened Wrappers
  import opened Text

  /** The six components `urlparse` returns. */
  datatype Url = Url(scheme: string, netloc: string, path: string, params: string, query: string, fragment: string)

  /** What `tldextract.extract` splits a host into. */
  datatype HostParts = HostParts(subdomain: string, domain: string, suffix: string)

  datatype UrlLib = UrlLib(
    parse: string -> Option<Url>,            // urlparse
    unparse: Url -> string,                  // urlunparse
    join: (string, string) -> Option<string>, // urljoin(base, href)
    split: string -> HostParts)              // tldextract.extract

  predicate HasWebScheme(u: string)
  {
    StartsWith(u, "http://") || StartsWith(u, "https://")
  }

  /** A URL without `http://` or `https://` gets `http://` in front. */
  function WithScheme(u: string): (r: string)
    ensures HasWebScheme(r)
    ensures r == u <==> HasWebScheme(u)
  {
    if HasWebScheme(u) then u
    else
      var r := "http://" + u;
      assert r[..7] == "http://";
      r
  }

  /** The host `convert_subdomain_to_www` substitutes. */
  function WwwHost(h: HostParts): string
  {
    "www." + h.domain + "." + h.suffix
  }

  /**
    * `convert_subdomain_to_www`: an empty URL stays empty; otherwise the URL
    * gets a scheme, and when its host has a subdomain other than `www`, the
    * host is replaced by `www.<domain>.<suffix>` with every other component
    * kept. `None` when `urlparse` raises.
    */
  function ConvertSubdomainToWww(url: string, lib: UrlLib): (r: Option<string>)
    ensures url == "" ==> r == Some("")
    ensures r.None? <==> url != "" && lib.parse(WithScheme(url)).None?
    ensures r.Some? && url != "" && lib.split(WithScheme(url)).subdomain in {"", "www"} ==>
      r.value == WithScheme(url) && HasWebScheme(r.value)
    ensures r.Some? && url != "" && lib.split(WithScheme(url)).subdomain !in {"", "www"} ==>
      var p := lib.parse(WithScheme(url)).value;
      r.value == lib.unparse(p.(netloc := WwwHost(lib.split(WithScheme(url)))))
  {
    if url == "" then Some("")
    else
      var u := WithScheme(url);
      match lib.parse(u)
      case None => None
      case Some(parsed) =>
        var ext := lib.split(u);
        if ext.subdomain != "" && ext.subdomain != "www" then
          Some(lib.unparse(parsed.(netloc := WwwHost(ext))))
        else Some(u)
  }

  /** A URL that already has a scheme and a `www` (or no) subdomain is left exactly as it is. */
  lemma ConvertKeepsWwwUrl(url: string, lib: UrlLib)
    requires HasWebScheme(url)
    requires lib.parse(url).Some?
    requires lib.split(url).subdomain == "www" || lib.split(url).subdomain == ""
    ensures ConvertSubdomainToWww(url, lib) == Some(url)
  {
  }

  /** Anchors whose target is not a page. */
  predicate IsNonPageHref(href: string)
  {
    var l := Lower(href);
    StartsWith(l, "mailto:") || StartsWith(l, "javascript:") || StartsWith(l, "tel:")
  }

  /** What one anchor contributes to the internal links. */
  datatype LinkOutcome = Skip | Keep(url: string) | Raise

  /**
    * One step of `get_all_internal_links`: strip the href, skip non-page
    * schemes, resolve it against the root, keep it when it is http(s) on the
    * root's host.
    */
  function LinkOf(rootUrl: string, baseHost: string, href: string, lib: UrlLib): (r: LinkOutcome)
    ensures r.Keep? ==> lib.parse(r.url).Some? && lib.parse(r.url).value.netloc == baseHost
    ensures r.Keep? ==> lib.parse(r.url).value.scheme in {"http", "https"}
  {
    var h := Strip(href);
    if IsNonPageHref(h) then Skip
    else match lib.join(rootUrl, h)
      case None => Raise
      case Some(full) =>
        match lib.parse(full)
        case None => Raise
        case Some(p) =>
          if p.scheme in {"http", "https"} && p.netloc == baseHost then Keep(full) else Skip
  }

  /** What each anchor contributes, in document order. */
  function Outcomes(rootUrl: string, baseHost: string, hrefs: seq<string>, lib: UrlLib): (r: seq<LinkOutcome>)
    ensures |r| == |hrefs|
    ensures forall k :: 0 <= k < |hrefs| ==> r[k] == LinkOf(rootUrl, baseHost, hrefs[k], lib)
  {
    seq(|hrefs|, k requires 0 <= k < |hrefs| => LinkOf(rootUrl, baseHost, hrefs[k], lib))
  }

  /** The links kept by a run of outcomes, or `None` once one of them raised. */
  function Collect(outs: seq<LinkOutcome>): Option<set<string>>
  {
    if outs == [] then Some({})
    else match Collect(outs[..|outs| - 1])
      case None => None
      case Some(acc) =>
        match outs[|outs| - 1]
        case Raise => None
        case Skip => Some(acc)
        case Keep(u) => Some(acc + {u})
  }

  /** Once an anchor has raised, later anchors cannot bring the result back. */
  lemma {:induction false} CollectRaiseSticks(outs: seq<LinkOutcome>, n: nat)
    requires n <= |outs|
    requires Collect(outs[..n]).None?
    ensures Collect(outs).None?
    decreases |outs| - n
  {
    if n < |outs| {
      assert outs[..n + 1][..n] == outs[..n];
      CollectRaiseSticks(outs, n + 1);
    } else {
      assert outs[..n] == outs;
    }
  }

  /** When nothing raised, the links are exactly the kept ones. */
  lemma {:induction false} CollectExactly(outs: seq<LinkOutcome>, u: string)
    requires Collect(outs).Some?
    ensures u in Collect(outs).value <==> Keep(u) in outs
  {
    if outs != [] {
      var init := outs[..|outs| - 1];
      CollectExactly(init, u);
      assert outs == init + [outs[|outs| - 1]];
    }
  }

  /** `get_all_internal_links` over the anchors `hrefs` of the root page. */
  function InternalLinks(rootUrl: string, baseHost: string, hrefs: seq<string>, lib: UrlLib): Option<set<string>>
  {
    Collect(Outcomes(rootUrl, baseHost, hrefs, lib))
  }

  /**
    * Every link found is an http(s) URL on the root's host, and it is found
    * because some anchor resolves to it.
    */
  lemma InternalLinksSameHost(rootUrl: string, baseHost: string, hrefs: seq<string>, lib: UrlLib, u: string)
    requires InternalLinks(rootUrl, baseHost, hrefs, lib).Some?
    requires u in InternalLinks(rootUrl, baseHost, hrefs, lib).value
    ensures lib.parse(u).Some? && lib.parse(u).value.netloc == baseHost
    ensures lib.parse(u).value.scheme in {"http", "https"}
    ensures exists k :: 0 <= k < |hrefs| && LinkOf(rootUrl, baseHost, hrefs[k], lib) == Keep(u)
  {
    var outs := Outcomes(rootUrl, baseHost, hrefs, lib);
    CollectExactly(outs, u);
    var k :| 0 <= k < |outs| && outs[k] == Keep(u);
    assert LinkOf(rootUrl, baseHost, hrefs[k], lib) == Keep(u);
  }

  /** Every anchor that resolves to a page on the root's host is found. */
  lemma InternalLinksComplete(rootUrl: string, baseHost: string, hrefs: seq<string>, lib: UrlLib, k: nat)
    requires InternalLinks(rootUrl, baseHost, hrefs, lib).Some?
    requires k < |hrefs| && LinkOf(rootUrl, baseHost, hrefs[k], lib).Keep?
    ensures LinkOf(rootUrl, baseHost, hrefs[k], lib).url in InternalLinks(rootUrl, baseHost, hrefs, lib).value
  {
    var outs := Outcomes(rootUrl, baseHost, hrefs, lib);
    assert outs[k] in outs;
    CollectExactly(outs, LinkOf(rootUrl, baseHost, hrefs[k], lib).url);
  }

  /** One more outcome extends the collected links, or stops them at a raise. */
  lemma CollectStep(outs: seq<LinkOutcome>, i: nat)
    requires i < |outs|
    ensures Collect(outs[..i + 1]) == match Collect(outs[..i])
      case None => None
      case Some(acc) =>
        match outs[i]
        case Raise => None
        case Skip => Some(acc)
        case Keep(u) => Some(acc + {u})
  {
    assert outs[..i + 1][..i] == outs[..i];
  }

  /** The handling of one anchor in `get_all_internal_links`. */
  method ResolveAnchor(rootUrl: string, baseHost: string, href: string, lib: UrlLib) returns (o: LinkOutcome)
    ensures o == LinkOf(rootUrl, baseHost, href, lib)
  {
    var h := Strip(href);
    if IsNonPageHref(h) {
      return Skip;
    }
    var full := lib.join(rootUrl, h);
    if full.None? {
      return Raise;
    }
    var parsed := lib.parse(full.value);
    if parsed.None? {
      return Raise;
    }
    if parsed.value.scheme in {"http", "https"} && parsed.value.netloc == baseHost {
      o := Keep(full.value);
    } else {
      o := Skip;
    }
  }

  /**
    * `get_all_internal_links`: the anchors of the root page, resolved and
    * kept when they stay on the root's host. `None` when a library call
    * raised (the crawler then falls back to its empty result).
    */
  method GetAllInternalLinks(rootUrl: string, hrefs: seq<string>, lib: UrlLib) returns (r: Option<set<string>>)
    ensures lib.parse(rootUrl).None? ==> r.None?
    ensures lib.parse(rootUrl).Some? ==> r == InternalLinks(rootUrl, lib.parse(rootUrl).value.netloc, hrefs, lib)
  {
    var parsedRoot := lib.parse(rootUrl);
    if parsedRoot.None? {
      return None;
    }
    var baseHost := parsedRoot.value.netloc;
    ghost var outs := Outcomes(rootUrl, baseHost, hrefs, lib);
    var links: set<string> := {};
    for i := 0 to |hrefs|
      invariant Collect(outs[..i]) == Some(links)
    {
      var o := ResolveAnchor(rootUrl, baseHost, hrefs[i], lib);
      CollectStep(outs, i);
      match o
      case Raise =>
        CollectRaiseSticks(outs, i + 1);
        return None;
      case Skip =>
      case Keep(u) =>
        links := links + {u};
    }
    assert outs[..|hrefs|] == outs;
    r := Some(links);
  }
}
