/**
 * The condenser's advisors: the set of BCorp company domains, and the
 * advisor of the internal data set, which holds nothing yet.
 */
module CondenserAdvisors {
  import opened Wrappers
  import U = CondenserUtils

  /** The field of a BCorp record the condenser reads. */
  datatype BCorpRecord = BCorpRecord(website: string)

  /** `BCorpAdvisor`: the domains of BCorp companies. */
  datatype BCorpAdvisor = BCorpAdvisor(domains: set<string>)

  function RecordDomain(r: BCorpRecord): string {
    U.ExtractDomainFromUrl(r.website)
  }

  /** The set of the values `f` takes on the elements. */
  function Image<T(==)>(s: seq<T>, f: T -> string): set<string> {
    set x | x in s :: f(x)
  }

  lemma ImageSpec<T>(s: seq<T>, f: T -> string, d: string)
    ensures d in Image(s, f) <==> exists i :: 0 <= i < |s| && f(s[i]) == d
  {
    if d in Image(s, f) {
      var x :| x in s && f(x) == d;
      var i :| 0 <= i < |s| && s[i] == x;
    }
  }

  /** `BCorpAdvisor::new`: the domain of every record's website. */
  function BCorpAdvisorNew(records: seq<BCorpRecord>): BCorpAdvisor {
    BCorpAdvisor(Image(records, RecordDomain))
  }

  /** The advisor knows exactly the domains of the records' websites. */
  lemma BCorpAdvisorNewSpec(records: seq<BCorpRecord>, d: string)
    ensures d in BCorpAdvisorNew(records).domains <==> exists i :: 0 <= i < |records| && RecordDomain(records[i]) == d
  {
    ImageSpec(records, RecordDomain, d);
  }

  /** `BCorpAdvisor::has_domains`: some passed domain is a BCorp domain; never for no domains. */
  method HasDomains(advisor: BCorpAdvisor, domains: set<string>) returns (r: bool)
    ensures r <==> exists d :: d in domains && d in advisor.domains
    ensures domains == {} ==> !r
  {
    var todo := domains;
    while todo != {}
      invariant todo <= domains
      invariant forall d :: d in domains - todo ==> d !in advisor.domains
      decreases todo
    {
      var d :| d in todo;
      if d in advisor.domains {
        return true;
      }
      todo := todo - {d};
    }
    return false;
  }

  /** `ConsumersAdvisor`: holds no data. */
  datatype ConsumersAdvisor = ConsumersAdvisor

  /** `ConsumersAdvisor::load`: succeeds whatever the path, without reading it. */
  function ConsumersAdvisorLoad(path: string): (r: Result<ConsumersAdvisor, ()>)
    ensures r == Ok(ConsumersAdvisor)
  {
    Ok(ConsumersAdvisor)
  }
}
