/**
 * The advisors the condensing step consults: BCorp companies by website
 * domain, TCO-certified companies and Fashion Transparency Index entries by
 * Wikidata id, and the names matched to Wikidata ids. They are built once
 * from parsed source data and then only queried. Reading the files is not
 * part of this model; the record types and the table builders shared with
 * the lab's advisors are used from there.
 */
module CondensingAdvisors {
  import opened Wrappers
  import opened Ordering
  import opened ModelsIds
  import A = LabAdvisors
  import L = LabCondensing
  import K = CondensingKnowledge

  // ---------------------------------------------------------------------
  // BCorp

  /** `BCorpAdvisor`: company names by the domain of their website. */
  datatype BCorpAdvisor = BCorpAdvisor(domainToName: map<string, string>)

  /** `BCorpAdvisor::new`: the domain of each record's website; a later record of a domain wins. */
  function BCorpAdvisorNew(records: seq<A.BCorpRecord>): BCorpAdvisor {
    BCorpAdvisor(IndexLast(records, A.RecordDomain, A.RecordName))
  }

  /** The advisor knows exactly the records' domains, each with the name of its last record. */
  lemma BCorpAdvisorNewSpec(records: seq<A.BCorpRecord>, d: string)
    ensures d in BCorpAdvisorNew(records).domainToName <==> exists i :: 0 <= i < |records| && A.RecordDomain(records[i]) == d
    ensures d in BCorpAdvisorNew(records).domainToName ==>
      exists i :: 0 <= i < |records| && A.RecordDomain(records[i]) == d
        && BCorpAdvisorNew(records).domainToName[d] == records[i].companyName
        && forall j :: i < j < |records| ==> A.RecordDomain(records[j]) != d
  {
    IndexLastSpec(records, A.RecordDomain, A.RecordName, d);
  }

  /** Some of the domains belongs to a BCorp company. */
  predicate KnowsDomain(advisor: BCorpAdvisor, domains: set<string>) {
    exists d :: d in domains && d in advisor.domainToName
  }

  /** `BCorpAdvisor::has_domains`. */
  method HasDomains(advisor: BCorpAdvisor, domains: set<string>) returns (r: bool)
    ensures r <==> KnowsDomain(advisor, domains)
  {
    var todo := domains;
    while todo != {}
      invariant todo <= domains
      invariant forall d :: d in domains - todo ==> d !in advisor.domainToName
      decreases todo
    {
      var d :| d in todo;
      if d in advisor.domainToName {
        return true;
      }
      todo := todo - {d};
    }
    return false;
  }

  /**
   * `BCorpAdvisor::get_cert_from_domains`: a certificate exactly when
   * `has_domains` holds on the same set, naming the link id guessed from the
   * name of one of the known domains.
   */
  method GetCertFromDomains(advisor: BCorpAdvisor, domains: set<string>) returns (r: Option<K.BCorpCert>)
    ensures r.Some? <==> KnowsDomain(advisor, domains)
    ensures r.Some? ==> exists d :: d in domains && d in advisor.domainToName
                                    && r.value == K.BCorpCert(L.LinkSlug(advisor.domainToName[d]))
  {
    var todo := domains;
    while todo != {}
      invariant todo <= domains
      invariant forall d :: d in domains - todo ==> d !in advisor.domainToName
      decreases todo
    {
      var d :| d in todo;
      if d in advisor.domainToName {
        return Some(K.BCorpCert(L.LinkSlug(advisor.domainToName[d])));
      }
      todo := todo - {d};
    }
    return None;
  }

  // ---------------------------------------------------------------------
  // TCO

  /** `TcoAdvisor`: brand names of certified companies by Wikidata id. */
  datatype TcoAdvisor = TcoAdvisor(companies: map<WikiId, string>)

  function EntryId(e: A.TcoEntry): WikiId { e.wikidataId }
  function EntryName(e: A.TcoEntry): string { e.companyName }

  /** `TcoAdvisor::new`: a later entry of a company wins. */
  function TcoAdvisorNew(entries: seq<A.TcoEntry>): TcoAdvisor {
    TcoAdvisor(IndexLast(entries, EntryId, EntryName))
  }

  /** `TcoAdvisor::has_company`. */
  predicate TcoHasCompany(advisor: TcoAdvisor, id: WikiId) {
    id in advisor.companies
  }

  /** `TcoAdvisor::get_company_cert`: the certificate carries the stored brand name. */
  function GetCompanyCert(advisor: TcoAdvisor, id: WikiId): (r: Option<K.TcoCert>)
    ensures r.Some? <==> TcoHasCompany(advisor, id)
    ensures r.Some? ==> r.value.brandName == advisor.companies[id]
  {
    if id in advisor.companies then Some(K.TcoCert(advisor.companies[id])) else None
  }

  /**
   * A company gets a TCO certificate exactly when some entry names it, which
   * is when the lab's TCO advisor knows it too; the brand is the name of its
   * last entry.
   */
  lemma TcoCertSpec(entries: seq<A.TcoEntry>, id: WikiId)
    ensures GetCompanyCert(TcoAdvisorNew(entries), id).Some? <==> A.TcoHasCompany(entries, id)
    ensures GetCompanyCert(TcoAdvisorNew(entries), id).Some? ==>
      exists i :: 0 <= i < |entries| && entries[i].wikidataId == id
        && GetCompanyCert(TcoAdvisorNew(entries), id).value.brandName == entries[i].companyName
        && forall j :: i < j < |entries| ==> entries[j].wikidataId != id
  {
    IndexLastSpec(entries, EntryId, EntryName, id);
  }

  // ---------------------------------------------------------------------
  // Fashion Transparency Index

  /** `FtiCert` as the advisor hands it out: the entry's score. */
  datatype FtiCert = FtiCert(score: int)

  /** `FashionTransparencyIndexAdvisor::has_company`. */
  predicate FtiHasCompany(entries: map<WikiId, A.FtiEntry>, id: WikiId) {
    id in entries
  }

  /** `FashionTransparencyIndexAdvisor::get_cert`. */
  function FtiGetCert(entries: map<WikiId, A.FtiEntry>, id: WikiId): (r: Option<FtiCert>)
    ensures r.Some? <==> FtiHasCompany(entries, id)
    ensures r.Some? ==> r.value.score == entries[id].score
  {
    if id in entries then Some(FtiCert(entries[id].score)) else None
  }

  /**
   * Once `FashionTransparencyIndexAdvisor::new` has accepted the entries, a
   * company has a score exactly when some entry names it, and the score is
   * that entry's.
   */
  method FtiCertOfSource(source: seq<A.FtiEntry>, id: WikiId) returns (r: Result<Option<FtiCert>, set<WikiId>>)
    ensures r.Err? <==> exists x :: A.Repeated(source, |source|, x)
    ensures r.Err? ==> forall x :: x in r.error <==> A.Repeated(source, |source|, x)
    ensures r.Ok? ==> (r.value.Some? <==> exists i :: 0 <= i < |source| && source[i].wikidataId == Some(id))
    ensures r.Ok? ==> forall i :: 0 <= i < |source| && source[i].wikidataId == Some(id) ==>
      r.value == Some(FtiCert(source[i].score))
  {
    var advisor := A.FtiAdvisorNew(source);
    match advisor
    case Err(repeated) =>
      r := Err(repeated);
    case Ok(entries) =>
      r := Ok(FtiGetCert(entries, id));
  }
}
