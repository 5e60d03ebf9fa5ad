/**
 * Domain and URL predicates of the extension (js/modules/urlUtils.js):
 * hostname extraction with a fallback, dot-suffix domain matching and the
 * filter for browser-internal URLs.
 */
module UrlUtils {
  import opened Wrappers

  predicate StartsWith(s: string, prefix: string) {
    |prefix| <= |s| && s[..|prefix|] == prefix
  }

  predicate EndsWith(s: string, suffix: string) {
    |suffix| <= |s| && s[|s| - |suffix|..] == suffix
  }

  /**
   * The hostname of `url`. `parseHost` stands for `new URL(url).hostname`:
   * `None` is the parser throwing, in which case the raw input is the domain.
   */
  function ExtractDomain(url: string, parseHost: string -> Option<string>): (domain: string)
    ensures parseHost(url).Some? ==> domain == parseHost(url).value
    ensures parseHost(url).None? ==> domain == url
  {
    match parseHost(url)
    case Some(host) => host
    case None => url
  }

  /** A hostname matches a blocked domain when it is that domain or a subdomain of it. */
  predicate DomainMatches(domain: string, blockedDomain: string) {
    domain == blockedDomain || EndsWith(domain, "." + blockedDomain)
  }

  /** Matching, stated without `endsWith`: the host is the rule, or some labels, a dot, then the rule. */
  lemma DomainMatchesIff(domain: string, blockedDomain: string)
    ensures DomainMatches(domain, blockedDomain) <==>
            domain == blockedDomain || exists labels :: domain == labels + "." + blockedDomain
  {
    if EndsWith(domain, "." + blockedDomain) {
      var labels := domain[..|domain| - |blockedDomain| - 1];
      assert domain == labels + "." + blockedDomain;
    }
    if exists labels :: domain == labels + "." + blockedDomain {
      var labels :| domain == labels + "." + blockedDomain;
      assert domain[|domain| - |blockedDomain| - 1..] == "." + blockedDomain;
    }
  }

  /** Every domain matches itself. */
  lemma DomainMatchesReflexive(domain: string)
    ensures DomainMatches(domain, domain)
  {
  }

  /** A subdomain of a subdomain is a subdomain: matching is transitive. */
  lemma DomainMatchesTransitive(a: string, b: string, c: string)
    requires DomainMatches(a, b) && DomainMatches(b, c)
    ensures DomainMatches(a, c)
  {
    if a != b && b != c {
      var la := a[..|a| - |b| - 1];
      var lb := b[..|b| - |c| - 1];
      assert a == la + "." + lb + "." + c by {
        assert a == la + "." + b;
        assert b == lb + "." + c;
      }
      assert a[|a| - |c| - 1..] == "." + c;
    }
  }

  /** Putting one more label in front of a matching host keeps it matching. */
  lemma PrefixLabelPreservesMatch(sub: string, domain: string, blockedDomain: string)
    requires DomainMatches(domain, blockedDomain)
    ensures DomainMatches(sub + "." + domain, blockedDomain)
  {
    var host := sub + "." + domain;
    assert DomainMatches(host, domain) by {
      assert host[|host| - |domain| - 1..] == "." + domain;
    }
    DomainMatchesTransitive(host, domain, blockedDomain);
  }

  /** A host that only shares a textual suffix with the rule, without the dot, does not match. */
  lemma NoMatchWithoutDot()
    ensures !DomainMatches("notexample.com", "example.com")
    ensures DomainMatches("www.example.com", "example.com")
  {
    assert "notexample.com"[2] != "."[0];
    assert "www.example.com"[3..] == ".example.com";
  }

  /** A URL the blocker never inspects: empty, or an about:, moz-extension: or chrome-extension: page. */
  predicate IsInternalUrl(url: string) {
    url == "" ||
    StartsWith(url, "about:") ||
    StartsWith(url, "moz-extension:") ||
    StartsWith(url, "chrome-extension:")
  }

  /** Web pages are never internal: an http(s) URL is always inspected. */
  lemma WebUrlsAreNotInternal(url: string)
    requires StartsWith(url, "http://") || StartsWith(url, "https://")
    ensures !IsInternalUrl(url)
  {
    assert url[0] == 'h';
  }
}
