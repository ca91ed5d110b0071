/**
 * filterCredentialsByUrl: which saved credentials belong to the page the user is on.
 *
 * Both URLs are given an "http://" scheme unless they already start with "http",
 * then parsed by the WHATWG URL parser (URL Standard, section 4.4 "URL parsing"),
 * which this model takes as a parameter: a partial function giving the `hostname`
 * and `port` getters of the URL class (URL Standard, section 6.1). The parser
 * elides a special scheme's default port, so "https://example.com:443" has an
 * empty port. When either parse fails, a prefix test on the URLs stripped of
 * scheme and "www." decides.
 */
module UrlMatch {
  import opened Wrappers
  import opened CredentialJson

  /** The `hostname` and `port` of a parsed URL; `port` is "" for the scheme's default port. */
  datatype UrlParts = UrlParts(hostname: string, port: string)

  /** `new URL(s)`: the parsed parts, or None where the constructor throws a TypeError. */
  type UrlParser = string -> Option<UrlParts>

  /** The `host` getter: the hostname, followed by ":" and the port when there is one. */
  function Host(u: UrlParts): string
  {
    if u.port == "" then u.hostname else u.hostname + ":" + u.port
  }

  predicate StartsWith(s: string, prefix: string)
  {
    |prefix| <= |s| && s[..|prefix|] == prefix
  }

  predicate EndsWith(s: string, suffix: string)
  {
    |suffix| <= |s| && s[|s| - |suffix|..] == suffix
  }

  /** `s.startsWith('http') ? s : 'http://' + s`. */
  function WithScheme(s: string): string
  {
    if StartsWith(s, "http") then s else "http://" + s
  }

  /** `s.replace(/^(https?:\/\/)?(www\.)?/, '')`: drop a leading scheme, then a leading "www.". */
  function StripSchemeAndWww(s: string): (r: string)
    ensures EndsWith(s, r)
    ensures !StartsWith(s, "http://") && !StartsWith(s, "https://") && !StartsWith(s, "www.") ==> r == s
  {
    var rest := if StartsWith(s, "http://") then s[7..] else if StartsWith(s, "https://") then s[8..] else s;
    if StartsWith(rest, "www.") then rest[4..] else rest
  }

  /** The filter predicate: does a credential saved for `savedUrl` belong to the page at `url`? */
  predicate UrlMatches(parse: UrlParser, url: string, savedUrl: string)
  {
    match (parse(WithScheme(url)), parse(WithScheme(savedUrl)))
    case (Some(page), Some(saved)) =>
      Host(page) == Host(saved) || (page.port == saved.port && EndsWith(page.hostname, "." + saved.hostname))
    case _ =>
      StartsWith(StripSchemeAndWww(url), StripSchemeAndWww(savedUrl))
  }

  /** `credentials.filter(...)`: the credentials whose website_url matches the page, in their original order. */
  function FilterCredentialsByUrl(credentials: seq<Credential>, url: string, parse: UrlParser): seq<Credential>
  {
    if credentials == [] then []
    else
      var rest := FilterCredentialsByUrl(credentials[1..], url, parse);
      if UrlMatches(parse, url, credentials[0].websiteUrl) then [credentials[0]] + rest else rest
  }

  /** `a` is obtained from `b` by deleting elements, without reordering. */
  predicate IsSubsequence<T(==)>(a: seq<T>, b: seq<T>)
    decreases |b|
  {
    a == [] || (b != [] && ((a[0] == b[0] && IsSubsequence(a[1..], b[1..])) || IsSubsequence(a, b[1..])))
  }

  /** The filter keeps an order-preserving subsequence of the cached credentials. */
  lemma {:induction false} FilterIsSubsequence(credentials: seq<Credential>, url: string, parse: UrlParser)
    ensures IsSubsequence(FilterCredentialsByUrl(credentials, url, parse), credentials)
  {
    if credentials != [] {
      FilterIsSubsequence(credentials[1..], url, parse);
    }
  }

  /** A credential is in the result exactly when it is in the input and its website_url matches. */
  lemma {:induction false} FilterMembership(credentials: seq<Credential>, url: string, parse: UrlParser, c: Credential)
    ensures c in FilterCredentialsByUrl(credentials, url, parse) <==>
            c in credentials && UrlMatches(parse, url, c.websiteUrl)
  {
    if credentials != [] {
      FilterMembership(credentials[1..], url, parse, c);
      assert credentials == [credentials[0]] + credentials[1..];
    }
  }

  /** Filtering a concatenation filters each part: each credential is judged on its own. */
  lemma {:induction false} FilterAppend(a: seq<Credential>, b: seq<Credential>, url: string, parse: UrlParser)
    ensures FilterCredentialsByUrl(a + b, url, parse) ==
            FilterCredentialsByUrl(a, url, parse) + FilterCredentialsByUrl(b, url, parse)
  {
    if a != [] {
      assert (a + b)[1..] == a[1..] + b;
      FilterAppend(a[1..], b, url, parse);
    } else {
      assert a + b == b;
    }
  }

  /**
   * When both URLs parse, the page matches exactly when it has the saved host
   * (port included), or has the saved port and a hostname made of some labels,
   * a dot and the saved hostname: a strict subdomain.
   */
  lemma ParsedMatchIsSameHostOrSubdomain(parse: UrlParser, url: string, savedUrl: string, page: UrlParts, saved: UrlParts)
    requires parse(WithScheme(url)) == Some(page) && parse(WithScheme(savedUrl)) == Some(saved)
    ensures UrlMatches(parse, url, savedUrl) <==>
            Host(page) == Host(saved) ||
            (page.port == saved.port && exists lead :: page.hostname == lead + "." + saved.hostname)
  {
    var h, n, m := page.hostname, |page.hostname|, |saved.hostname|;
    if UrlMatches(parse, url, savedUrl) && Host(page) != Host(saved) {
      var lead := h[..n - m - 1];
      assert h == lead + h[n - m - 1..];
      assert h == lead + "." + saved.hostname;
    }
    if page.port == saved.port && exists lead :: h == lead + "." + saved.hostname {
      var lead :| h == lead + "." + saved.hostname;
      assert h == lead + ("." + saved.hostname);
      assert EndsWith(h, "." + saved.hostname);
    }
  }

  /** When both URLs parse and match on the subdomain rule, the saved hostname is preceded by a dot. */
  lemma SubdomainRuleAtDot(parse: UrlParser, url: string, savedUrl: string, page: UrlParts, saved: UrlParts)
    requires parse(WithScheme(url)) == Some(page) && parse(WithScheme(savedUrl)) == Some(saved)
    ensures UrlMatches(parse, url, savedUrl) && Host(page) != Host(saved) ==>
              |saved.hostname| < |page.hostname| &&
              page.hostname[|page.hostname| - |saved.hostname| - 1] == '.'
  {
    var n, m := |page.hostname|, |saved.hostname|;
    if UrlMatches(parse, url, savedUrl) && Host(page) != Host(saved) {
      var tail := page.hostname[n - m - 1..];
      assert tail == "." + saved.hostname;
      assert tail[0] == page.hostname[n - m - 1];
    }
  }

  /** A page on a subdomain of the saved hostname, on the same port, matches. */
  lemma SubdomainMatches(parse: UrlParser, url: string, savedUrl: string, saved: UrlParts, lead: string)
    requires parse(WithScheme(savedUrl)) == Some(saved)
    requires parse(WithScheme(url)) == Some(UrlParts(lead + "." + saved.hostname, saved.port))
    ensures UrlMatches(parse, url, savedUrl)
  {
  }

  /**
   * A hostname that merely ends in the saved hostname, without a dot before it
   * ("evil-example.com" against "example.com"), does not match unless the hosts
   * are equal.
   */
  lemma SuffixWithoutDotDoesNotMatch(parse: UrlParser, url: string, savedUrl: string, page: UrlParts, saved: UrlParts, lead: string)
    requires parse(WithScheme(url)) == Some(page) && parse(WithScheme(savedUrl)) == Some(saved)
    requires page.hostname == lead + saved.hostname
    requires lead != [] && lead[|lead| - 1] != '.'
    requires Host(page) != Host(saved)
    ensures !UrlMatches(parse, url, savedUrl)
  {
    SubdomainRuleAtDot(parse, url, savedUrl, page, saved);
    assert page.hostname[|lead| - 1] == lead[|lead| - 1];
  }

  /** When either URL fails to parse, the match is the prefix test on the stripped URLs. */
  lemma UnparsableFallsBackToPrefix(parse: UrlParser, url: string, savedUrl: string)
    requires parse(WithScheme(url)).None? || parse(WithScheme(savedUrl)).None?
    ensures UrlMatches(parse, url, savedUrl) <==> StartsWith(StripSchemeAndWww(url), StripSchemeAndWww(savedUrl))
  {
  }

  /** A URL that already starts with "http" is parsed as it is. */
  lemma HttpUrlKept(s: string)
    requires |s| >= 4 && s[0] == 'h' && s[1] == 't' && s[2] == 't' && s[3] == 'p'
    ensures WithScheme(s) == s
  {
  }

  /*
   * Destination scenarios, under what the WHATWG parser returns for these
   * inputs (443 is the default port of https, so it is elided).
   */

  /** A credential saved for https://example.com:443 is offered on https://app.example.com. */
  lemma SubdomainScenario(parse: UrlParser)
    requires parse("https://example.com:443") == Some(UrlParts("example.com", ""))
    requires parse("https://app.example.com") == Some(UrlParts("app.example.com", ""))
    ensures UrlMatches(parse, "https://app.example.com", "https://example.com:443")
  {
    HttpUrlKept("https://example.com:443");
    HttpUrlKept("https://app.example.com");
    assert "app" + "." + "example.com" == "app.example.com";
    SubdomainMatches(parse, "https://app.example.com", "https://example.com:443", UrlParts("example.com", ""), "app");
  }

  /** A credential saved for https://example.com:443 is offered on https://example.com. */
  lemma SameHostScenario(parse: UrlParser)
    requires parse("https://example.com:443") == Some(UrlParts("example.com", ""))
    requires parse("https://example.com") == Some(UrlParts("example.com", ""))
    ensures UrlMatches(parse, "https://example.com", "https://example.com:443")
  {
  }

  /** A credential saved for https://example.com:443 is not offered on https://evil-example.com. */
  lemma {:induction false} LookalikeScenario(parse: UrlParser)
    requires parse("https://example.com:443") == Some(UrlParts("example.com", ""))
    requires parse("https://evil-example.com") == Some(UrlParts("evil-example.com", ""))
    ensures !UrlMatches(parse, "https://evil-example.com", "https://example.com:443")
  {
    HttpUrlKept("https://example.com:443");
    HttpUrlKept("https://evil-example.com");
    assert "evil-example.com" == "evil-" + "example.com";
    assert "evil-example.com" != "example.com" by {
      assert |"evil-example.com"| != |"example.com"|;
    }
    SuffixWithoutDotDoesNotMatch(parse, "https://evil-example.com", "https://example.com:443",
      UrlParts("evil-example.com", ""), UrlParts("example.com", ""), "evil-");
  }

  /** A URL that starts with neither "h" nor "w" gets the "http://" scheme and loses nothing to stripping. */
  lemma PlainUrl(s: string)
    requires s != [] && s[0] != 'h' && s[0] != 'w'
    ensures WithScheme(s) == "http://" + s
    ensures StripSchemeAndWww(s) == s
  {
    if |s| >= 4 { assert s[..4][0] == s[0]; }
    if |s| >= 7 { assert s[..7][0] == s[0]; }
    if |s| >= 8 { assert s[..8][0] == s[0]; }
  }

  /** Two URLs that parse to the same parts match. */
  lemma SameHostMatches(parse: UrlParser, url: string, savedUrl: string, parts: UrlParts)
    requires parse(WithScheme(url)) == Some(parts) && parse(WithScheme(savedUrl)) == Some(parts)
    ensures UrlMatches(parse, url, savedUrl)
  {
  }

  /** A non-empty URL without scheme or "www." that the parser rejects matches every page that extends it. */
  lemma PlainPrefixMatches(parse: UrlParser, savedUrl: string, rest: string)
    requires savedUrl != [] && savedUrl[0] != 'h' && savedUrl[0] != 'w'
    requires parse("http://" + savedUrl).None?
    ensures UrlMatches(parse, savedUrl + rest, savedUrl)
  {
    var url := savedUrl + rest;
    PlainUrl(savedUrl);
    assert url[0] == savedUrl[0];
    PlainUrl(url);
    assert url[..|savedUrl|] == savedUrl;
    UnparsableFallsBackToPrefix(parse, url, savedUrl);
  }

  /** A credential saved as "notaurl" is offered on the page "notaurl/login": both parse, with equal hosts. */
  lemma {:induction false} NotAUrlScenario(parse: UrlParser)
    requires parse("http://notaurl") == Some(UrlParts("notaurl", ""))
    requires parse("http://notaurl/login") == Some(UrlParts("notaurl", ""))
    ensures UrlMatches(parse, "notaurl/login", "notaurl")
  {
    var saved, page := "notaurl", "notaurl/login";
    PlainUrl(saved);
    PlainUrl(page);
    assert WithScheme(saved) == "http://notaurl";
    assert WithScheme(page) == "http://notaurl/login";
    SameHostMatches(parse, page, saved, UrlParts("notaurl", ""));
  }

  /**
   * A saved URL the parser rejects (port 99999 is out of range, URL Standard,
   * section 4.4) still matches a page that extends it, by the prefix test.
   */
  lemma {:induction false} UnparsablePortScenario(parse: UrlParser)
    requires parse("http://example.com:99999").None?
    ensures UrlMatches(parse, "example.com:99999/login", "example.com:99999")
  {
    var saved := "example.com:99999";
    assert "http://" + saved == "http://example.com:99999";
    assert "example.com:99999/login" == saved + "/login";
    PlainPrefixMatches(parse, saved, "/login");
  }
}
