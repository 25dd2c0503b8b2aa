/** Domain extraction from website URLs (models crate utilities). */
module ModelsUtils {
  import opened Wrappers
  import opened Text

  /** Drops `p` from the front of `s` when `s` starts with it. */
  function DropPrefix(s: string, p: string): (r: string)
    ensures StartsWith(s, p) ==> s == p + r
    ensures !StartsWith(s, p) ==> r == s
  {
    if StartsWith(s, p) then s[|p|..] else s
  }

  /** The host part: "http://", then "https://", then "www." dropped when present, then cut at '/'. */
  function Host(url: string): string {
    var afterHttp := DropPrefix(url, "http://");
    var afterHttps := DropPrefix(afterHttp, "https://");
    var afterWww := DropPrefix(afterHttps, "www.");
    BeforeFirst(afterWww, '/')
  }

  /** `extract_domain_from_url`: the host, lower-cased. */
  function ExtractDomainFromUrl(url: string): string {
    ToLower(Host(url))
  }

  /**
   * `extract_domain_from_str`: the same prefix dropping, remembering whether
   * any prefix was present; only then is the lower-cased host returned.
   */
  function ExtractDomainFromStr(s: string): Option<string> {
    var (s1, url1) := if StartsWith(s, "http://") then (s[7..], true) else (s, false);
    var (s2, url2) := if StartsWith(s1, "https://") then (s1[8..], true) else (s1, url1);
    var (s3, url3) := if StartsWith(s2, "www.") then (s2[4..], true) else (s2, url2);
    if url3 then Some(ToLower(BeforeFirst(s3, '/'))) else None
  }

  /** The domain is lower-case, has no '/', and is the lower-cased start of what follows the prefixes. */
  lemma ExtractDomainFromUrlShape(url: string)
    ensures '/' !in ExtractDomainFromUrl(url)
    ensures IsLower(ExtractDomainFromUrl(url))
    ensures exists rest :: DropPrefix(DropPrefix(DropPrefix(url, "http://"), "https://"), "www.")
                           == Host(url) + rest && (rest == [] || rest[0] == '/')
  {
    NoSlashInDomain(url);
    ToLowerIdempotent(Host(url));
    HostThenRest(url);
  }

  lemma NoSlashInDomain(url: string)
    ensures '/' !in ExtractDomainFromUrl(url)
  {
    var h := Host(url);
    var d := ToLower(h);
    forall i | 0 <= i < |d| ensures d[i] != '/' {
      assert h[i] in h;
    }
  }

  lemma HostThenRest(url: string)
    ensures exists rest :: DropPrefix(DropPrefix(DropPrefix(url, "http://"), "https://"), "www.")
                           == Host(url) + rest && (rest == [] || rest[0] == '/')
  {
    var afterWww := DropPrefix(DropPrefix(DropPrefix(url, "http://"), "https://"), "www.");
    var rest := BeforeFirstRest(afterWww, '/');
    assert Host(url) == BeforeFirst(afterWww, '/');
  }

  /** What follows the part before the first `sep` is empty or starts with `sep`. */
  lemma BeforeFirstRest(s: string, sep: char) returns (rest: string)
    ensures s == BeforeFirst(s, sep) + rest && (rest == [] || rest[0] == sep)
  {
    var h := BeforeFirst(s, sep);
    rest := s[|h|..];
    assert s == s[..|h|] + rest;
  }

  /** `extract_domain_from_str` answers exactly for texts starting with "http://", "https://" or "www.". */
  lemma ExtractDomainFromStrSome(s: string)
    ensures ExtractDomainFromStr(s).Some? <==>
      StartsWith(s, "http://") || StartsWith(s, "https://") || StartsWith(s, "www.")
  {
    if !StartsWith(s, "http://") {
      assert DropPrefix(s, "http://") == s;
      if !StartsWith(s, "https://") {
        assert DropPrefix(s, "https://") == s;
      }
    }
  }

  /** Whenever `extract_domain_from_str` gives a domain, it is the one `extract_domain_from_url` gives. */
  lemma ExtractDomainFromStrAgrees(s: string)
    ensures ExtractDomainFromStr(s).Some? ==> ExtractDomainFromStr(s).value == ExtractDomainFromUrl(s)
  {
  }

  lemma NotStartsWithAt(s: string, p: string, i: nat)
    requires i < |p| && (i >= |s| || s[i] != p[i])
    ensures !StartsWith(s, p)
  {
    if |p| <= |s| { assert s[..|p|][i] == s[i]; }
  }

  lemma BeforeFirstOfHost(host: string, path: string)
    requires '/' !in host && (path == [] || path[0] == '/')
    ensures BeforeFirst(host + path, '/') == host
  {
    if host == [] {
      assert host + path == path;
    } else {
      assert (host + path)[1..] == host[1..] + path;
      BeforeFirstOfHost(host[1..], path);
    }
  }

  /** A host without ':' or '/' followed by a path cannot start with a scheme. */
  lemma NoScheme(host: string, path: string)
    requires ':' !in host && '/' !in host
    requires path == [] || path[0] == '/'
    ensures !StartsWith(host + path, "http://") && !StartsWith(host + path, "https://")
  {
    var hp := host + path;
    // either the host reaches the scheme's ':' position, or the path's '/' comes first
    if |host| >= 5 {
      assert hp[4] == host[4];
      assert host[4] != ':' by { assert host[4] in host; }
      NotStartsWithAt(hp, "http://", 4);
    } else if path == [] {
      assert |hp| < 7;
    } else {
      assert hp[|host|] == '/';
      NotStartsWithAt(hp, "http://", |host|);
    }
    if |host| >= 6 {
      assert hp[5] == host[5];
      assert host[5] != ':' by { assert host[5] in host; }
      NotStartsWithAt(hp, "https://", 5);
    } else if path == [] {
      assert |hp| < 8;
    } else {
      assert hp[|host|] == '/';
      NotStartsWithAt(hp, "https://", |host|);
    }
  }

  /** What follows an optional "www." in front of such a host. */
  lemma AfterWww(www: bool, host: string, path: string)
    requires ':' !in host && '/' !in host && !StartsWith(host, "www.")
    requires path == [] || path[0] == '/'
    ensures var rest := (if www then "www." else "") + host + path;
      && !StartsWith(rest, "http://") && !StartsWith(rest, "https://")
      && StartsWith(rest, "www.") == www
      && DropPrefix(rest, "www.") == host + path
  {
    var hp := host + path;
    NoScheme(host, path);
    if www {
      var rest := "www." + host + path;
      assert rest == "www." + hp;
      NotStartsWithAt(rest, "http://", 0);
      NotStartsWithAt(rest, "https://", 0);
      assert rest[..4] == "www.";
      assert rest[4..] == hp;
    } else {
      assert "" + host + path == hp;
      if |host| >= 4 {
        assert hp[..4] == host[..4];
      } else {
        NotStartsWithAt(hp, "www.", |host|);
      }
    }
  }

  /**
   * The shape of the unit tests' inputs: an optional "http://" or "https://",
   * an optional "www.", a host without ':' or '/', and a path starting with
   * '/'. The domain is then the lower-cased host, and `extract_domain_from_str`
   * recognises the text exactly when some prefix was written.
   */
  lemma DomainOfParts(scheme: string, www: bool, host: string, path: string)
    requires scheme == "" || scheme == "http://" || scheme == "https://"
    requires ':' !in host && '/' !in host && !StartsWith(host, "www.")
    requires path == [] || path[0] == '/'
    ensures ExtractDomainFromUrl(scheme + (if www then "www." else "") + host + path) == ToLower(host)
    ensures ExtractDomainFromStr(scheme + (if www then "www." else "") + host + path).Some? <==> scheme != "" || www
  {
    var rest := (if www then "www." else "") + host + path;
    var url := scheme + (if www then "www." else "") + host + path;
    assert url == scheme + rest;
    AfterWww(www, host, path);
    SchemeDropped(scheme, rest);
    BeforeFirstOfHost(host, path);
    ExtractDomainFromStrSome(url);
  }

  /** An optional scheme in front of a text that has none is exactly what the first two drops remove. */
  lemma SchemeDropped(scheme: string, rest: string)
    requires scheme == "" || scheme == "http://" || scheme == "https://"
    requires !StartsWith(rest, "http://") && !StartsWith(rest, "https://")
    ensures DropPrefix(DropPrefix(scheme + rest, "http://"), "https://") == rest
    ensures StartsWith(scheme + rest, "http://") || StartsWith(scheme + rest, "https://") <==> scheme != ""
    ensures scheme == "" ==> scheme + rest == rest
  {
    var url := scheme + rest;
    assert url[|scheme|..] == rest;
    if scheme == "http://" {
      assert url[..7] == scheme;
    } else if scheme == "https://" {
      NotStartsWithAt(url, "http://", 4);
      assert url[..8] == scheme;
    } else {
      assert url == rest;
    }
  }

  /** The domains of the given URLs. */
  function DomainsOf(urls: seq<string>): set<string> {
    set u | u in urls :: ExtractDomainFromUrl(u)
  }

  /**
   * `extract_domains_from_urls`: the set of domains of all the given URLs,
   * so URLs that differ only in prefix, case or path collapse to one entry.
   */
  method ExtractDomainsFromUrls(websites: seq<string>) returns (result: set<string>)
    ensures result == DomainsOf(websites)
    ensures forall w :: w in websites ==> ExtractDomainFromUrl(w) in result
    ensures forall d :: d in result ==> '/' !in d && IsLower(d)
  {
    result := {};
    var i := 0;
    while i < |websites|
      invariant 0 <= i <= |websites|
      invariant result == DomainsOf(websites[..i])
    {
      assert websites[..i + 1] == websites[..i] + [websites[i]];
      result := result + {ExtractDomainFromUrl(websites[i])};
      i := i + 1;
    }
    assert websites[..i] == websites;
    forall d | d in result ensures '/' !in d && IsLower(d) {
      var u :| u in websites && d == ExtractDomainFromUrl(u);
      ExtractDomainFromUrlShape(u);
    }
  }

}
