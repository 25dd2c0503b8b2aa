/** The condenser's own copy of the URL-to-domain helper. */
module CondenserUtils {
  import opened Wrappers
  import opened Text
  import ModelsUtils

  /** `str::split_once`: the text before and after the first `sep`, if any. */
  function SplitOnce(s: string, sep: char): (r: Option<(string, string)>)
    ensures r.None? <==> sep !in s
    ensures r.Some? ==> s == r.value.0 + [sep] + r.value.1 && sep !in r.value.0
  {
    if s == [] then None
    else if s[0] == sep then Some(([], s[1..]))
    else match SplitOnce(s[1..], sep)
      case None => None
      case Some((host, path)) => Some(([s[0]] + host, path))
  }

  /** `extract_domain_from_url`, written as the crate writes it: rebinding a slice. */
  function ExtractDomainFromUrl(url: string): string {
    var d1 := if StartsWith(url, "http://") then url[7..] else url;
    var d2 := if StartsWith(d1, "https://") then d1[8..] else d1;
    var d3 := if StartsWith(d2, "www.") then d2[4..] else d2;
    var d4 := match SplitOnce(d3, '/') case Some((host, _)) => host case None => d3;
    ToLower(d4)
  }

  lemma {:induction false} SplitOnceHost(s: string, sep: char)
    ensures (match SplitOnce(s, sep) case Some((host, _)) => host case None => s) == BeforeFirst(s, sep)
  {
    if s != [] && s[0] != sep {
      SplitOnceHost(s[1..], sep);
    }
  }

  /** Both crates extract the same domain from every URL. */
  lemma AgreesWithModels(url: string)
    ensures ExtractDomainFromUrl(url) == ModelsUtils.ExtractDomainFromUrl(url)
  {
    var d1 := if StartsWith(url, "http://") then url[7..] else url;
    var d2 := if StartsWith(d1, "https://") then d1[8..] else d1;
    var d3 := if StartsWith(d2, "www.") then d2[4..] else d2;
    SplitOnceHost(d3, '/');
  }

  /** The result has no '/' and no upper-case letter. */
  lemma ExtractDomainFromUrlShape(url: string)
    ensures '/' !in ExtractDomainFromUrl(url) && IsLower(ExtractDomainFromUrl(url))
  {
    AgreesWithModels(url);
    ModelsUtils.ExtractDomainFromUrlShape(url);
  }
}
