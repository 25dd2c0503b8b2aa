/**
 * The advisors of the lab crate: lookup tables built once from the source
 * data sets and the Transpaer library, then queried while condensing and
 * filtering. Reading the files is not modelled; the advisors are built from
 * their parsed contents.
 */
module LabAdvisors {
  import opened Wrappers
  import opened Ordering
  import opened ModelsIds
  import opened ModelsUtils
  import CT = CollectingTranspaer
  import EU = CollectingEuEcolabel
  import W = LabWikidata

  // ---------------------------------------------------------------------
  // Country and category tables of the library

  /**
   * The country table of `assemble`, filled from `acc` on: entries without
   * regions are skipped, and a tag that does not make a key or regions that
   * do not convert abort the construction.
   */
  function CountryMapFrom<K, R, E>(entries: seq<CT.CountryEntry>, acc: map<K, R>,
                                   key: string -> Result<K, E>, convert: CT.Regions -> Result<R, E>): Result<map<K, R>, E>
    decreases |entries|
  {
    if entries == [] then Ok(acc)
    else
      var e := entries[0];
      if e.regions.None? then CountryMapFrom(entries[1..], acc, key, convert)
      else
        match key(e.tag)
        case Err(err) => Err(err)
        case Ok(k) =>
          match convert(e.regions.value)
          case Err(err) => Err(err)
          case Ok(r) => CountryMapFrom(entries[1..], acc[k := r], key, convert)
  }

  /** The entries `assemble` keeps: those with regions. */
  predicate HasRegions(e: CT.CountryEntry) {
    e.regions.Some?
  }

  /**
   * A key is in the table iff it was there before or an entry with regions
   * has a tag that makes it; and every entry with regions converted.
   */
  lemma {:induction false} CountryMapFromSpec<K, R, E>(entries: seq<CT.CountryEntry>, acc: map<K, R>,
                                                       key: string -> Result<K, E>, convert: CT.Regions -> Result<R, E>, k: K)
    requires CountryMapFrom(entries, acc, key, convert).Ok?
    ensures k in CountryMapFrom(entries, acc, key, convert).value <==>
      k in acc || exists i :: 0 <= i < |entries| && HasRegions(entries[i]) && key(entries[i].tag) == Ok(k)
    ensures forall i :: 0 <= i < |entries| && HasRegions(entries[i]) ==>
      key(entries[i].tag).Ok? && convert(entries[i].regions.value).Ok?
    decreases |entries|
  {
    if entries != [] {
      var e := entries[0];
      var rest := entries[1..];
      var acc' := if e.regions.Some? then acc[key(e.tag).value := convert(e.regions.value).value] else acc;
      CountryMapFromSpec(rest, acc', key, convert, k);
      if exists i :: 0 <= i < |rest| && HasRegions(rest[i]) && key(rest[i].tag) == Ok(k) {
        var i :| 0 <= i < |rest| && HasRegions(rest[i]) && key(rest[i].tag) == Ok(k);
        assert entries[i + 1] == rest[i];
      }
      if exists i :: 0 <= i < |entries| && HasRegions(entries[i]) && key(entries[i].tag) == Ok(k) {
        var i :| 0 <= i < |entries| && HasRegions(entries[i]) && key(entries[i].tag) == Ok(k);
        if i > 0 { assert rest[i - 1] == entries[i]; }
      }
      forall i | 0 <= i < |entries| && HasRegions(entries[i])
        ensures key(entries[i].tag).Ok? && convert(entries[i].regions.value).Ok?
      {
        if i > 0 { assert rest[i - 1] == entries[i]; }
      }
    }
  }

  /** Fills a country table entry by entry, as the `assemble` functions do. */
  method AssembleCountries<K, R, E>(entries: seq<CT.CountryEntry>, key: string -> Result<K, E>,
                                    convert: CT.Regions -> Result<R, E>) returns (r: Result<map<K, R>, E>)
    ensures r == CountryMapFrom(entries, map[], key, convert)
  {
    var m: map<K, R> := map[];
    var i := 0;
    while i < |entries|
      invariant 0 <= i <= |entries|
      invariant CountryMapFrom(entries[i..], m, key, convert) == CountryMapFrom(entries, map[], key, convert)
    {
      assert entries[i..][1..] == entries[i + 1..];
      var entry := entries[i];
      if entry.regions.Some? {
        var k := key(entry.tag);
        if k.Err? {
          return Err(k.error);
        }
        var regions := convert(entry.regions.value);
        if regions.Err? {
          return Err(regions.error);
        }
        m := m[k.value := regions.value];
      }
      i := i + 1;
    }
    return Ok(m);
  }

  /** The entries a category table keeps: not marked for deletion, and with categories. */
  predicate KeptCategory(e: CT.CategoryEntry) {
    e.delete != Some(true) && e.categories.Some?
  }

  /** The category table of `assemble`, filled from `acc` on. */
  function CategoryMapFrom<K, E>(entries: seq<CT.CategoryEntry>, acc: map<K, set<string>>,
                                 key: string -> Result<K, E>): Result<map<K, set<string>>, E>
    decreases |entries|
  {
    if entries == [] then Ok(acc)
    else
      var e := entries[0];
      if !KeptCategory(e) then CategoryMapFrom(entries[1..], acc, key)
      else
        match key(e.tag)
        case Err(err) => Err(err)
        case Ok(k) =>
          var categories := set c | c in e.categories.value;
          CategoryMapFrom(entries[1..], acc[k := categories], key)
  }

  /** Entries marked for deletion or without categories never reach the table. */
  lemma {:induction false} CategoryMapFromSpec<K, E>(entries: seq<CT.CategoryEntry>, acc: map<K, set<string>>,
                                                     key: string -> Result<K, E>, k: K)
    requires CategoryMapFrom(entries, acc, key).Ok?
    ensures k in CategoryMapFrom(entries, acc, key).value <==>
      k in acc || exists i :: 0 <= i < |entries| && KeptCategory(entries[i]) && key(entries[i].tag) == Ok(k)
    decreases |entries|
  {
    if entries != [] {
      var e := entries[0];
      var rest := entries[1..];
      var acc' := if KeptCategory(e) then acc[key(e.tag).value := set c | c in e.categories.value] else acc;
      CategoryMapFromSpec(rest, acc', key, k);
      if exists i :: 0 <= i < |rest| && KeptCategory(rest[i]) && key(rest[i].tag) == Ok(k) {
        var i :| 0 <= i < |rest| && KeptCategory(rest[i]) && key(rest[i].tag) == Ok(k);
        assert entries[i + 1] == rest[i];
      }
      if exists i :: 0 <= i < |entries| && KeptCategory(entries[i]) && key(entries[i].tag) == Ok(k) {
        var i :| 0 <= i < |entries| && KeptCategory(entries[i]) && key(entries[i].tag) == Ok(k);
        if i > 0 { assert rest[i - 1] == entries[i]; }
      }
    }
  }

  /** Fills a category table entry by entry. */
  method AssembleCategories<K, E>(entries: seq<CT.CategoryEntry>, key: string -> Result<K, E>)
    returns (r: Result<map<K, set<string>>, E>)
    ensures r == CategoryMapFrom(entries, map[], key)
  {
    var m: map<K, set<string>> := map[];
    var i := 0;
    while i < |entries|
      invariant 0 <= i <= |entries|
      invariant CategoryMapFrom(entries[i..], m, key) == CategoryMapFrom(entries, map[], key)
    {
      assert entries[i..][1..] == entries[i + 1..];
      var entry := entries[i];
      if entry.delete != Some(true) && entry.categories.Some? {
        var k := key(entry.tag);
        if k.Err? {
          return Err(k.error);
        }
        m := m[k.value := set c | c in entry.categories.value];
      }
      i := i + 1;
    }
    return Ok(m);
  }

  // ---------------------------------------------------------------------
  // BCorp

  /** The fields of a BCorp record that the lab reads. */
  datatype BCorpRecord = BCorpRecord(
    companyId: string,
    companyName: string,
    dateCertified: string,
    description: string,
    country: string,
    website: string,
    isCertified: bool)

  function RecordDomain(r: BCorpRecord): string { ExtractDomainFromUrl(r.website) }
  function RecordName(r: BCorpRecord): string { r.companyName }

  /** `BCorpAdvisor`: company names by website domain, and regions by country name. */
  datatype BCorpAdvisor = BCorpAdvisor(domainToName: map<string, string>, countryToRegions: map<string, CT.Regions>)

  /** The domain table of `BCorpAdvisor::assemble`: a later record of a domain replaces an earlier one. */
  function BCorpDomains(records: Option<seq<BCorpRecord>>): map<string, string> {
    match records
    case None => map[]
    case Some(rs) => IndexLast(rs, RecordDomain, RecordName)
  }

  /** Exactly the domains of the records' websites are known. */
  lemma BCorpDomainsSpec(records: seq<BCorpRecord>, d: string)
    ensures d in BCorpDomains(Some(records)) <==> exists i :: 0 <= i < |records| && RecordDomain(records[i]) == d
  {
    IndexLastSpec(records, RecordDomain, RecordName, d);
  }

  /** `BCorpAdvisor::has_domains`: some passed domain is a known BCorp domain. */
  method HasDomains(advisor: BCorpAdvisor, domains: set<string>) returns (r: bool)
    ensures r <==> exists d :: d in domains && d in advisor.domainToName
  {
    var todo := domains;
    while todo != {}
      invariant todo <= domains
      invariant forall d :: d in domains - todo ==> d !in advisor.domainToName
      decreases todo
    {
      var d :| d in todo;
      if d in advisor.domainToName {
        return true;
      }
      todo := todo - {d};
    }
    return false;
  }

  // ---------------------------------------------------------------------
  // Name matchings

  /** The names matched well enough, with their matches, filled from `acc` on. */
  function MatchesFrom(map_: seq<CT.NameMatching>, acc: map<string, CT.Match>): map<string, CT.Match>
    decreases |map_|
  {
    if map_ == [] then acc
    else
      match CT.Matched(map_[0])
      case None => MatchesFrom(map_[1..], acc)
      case Some(m) => MatchesFrom(map_[1..], acc[map_[0].name := m])
  }

  /** A name is kept iff one of its matchings is accepted, and then holds an accepted match of that name. */
  lemma {:induction false} MatchesFromSpec(map_: seq<CT.NameMatching>, acc: map<string, CT.Match>, name: string)
    ensures name in MatchesFrom(map_, acc) <==>
      name in acc || exists i :: 0 <= i < |map_| && map_[i].name == name && CT.Matched(map_[i]).Some?
    ensures name in MatchesFrom(map_, acc) ==>
      (name in acc && MatchesFrom(map_, acc)[name] == acc[name])
      || exists i :: 0 <= i < |map_| && map_[i].name == name && CT.Matched(map_[i]) == Some(MatchesFrom(map_, acc)[name])
    decreases |map_|
  {
    if map_ != [] {
      var rest := map_[1..];
      var acc' := if CT.Matched(map_[0]).Some? then acc[map_[0].name := CT.Matched(map_[0]).value] else acc;
      MatchesFromSpec(rest, acc', name);
      if exists i :: 0 <= i < |rest| && rest[i].name == name && CT.Matched(rest[i]).Some? {
        var i :| 0 <= i < |rest| && rest[i].name == name && CT.Matched(rest[i]).Some?;
        assert map_[i + 1] == rest[i];
      }
      if exists i :: 0 <= i < |map_| && map_[i].name == name && CT.Matched(map_[i]).Some? {
        var i :| 0 <= i < |map_| && map_[i].name == name && CT.Matched(map_[i]).Some?;
        if i > 0 { assert rest[i - 1] == map_[i]; }
      }
      var r := MatchesFrom(map_, acc);
      if name in r && !(name in acc && r[name] == acc[name]) {
        if name in acc' && r[name] == acc'[name] {
          assert CT.Matched(map_[0]) == Some(r[name]);
        } else {
          var i :| 0 <= i < |rest| && rest[i].name == name && CT.Matched(rest[i]) == Some(r[name]);
          assert map_[i + 1] == rest[i];
        }
      }
    }
  }

  /** `SustainityMatchesAdvisor::new`: the Wikidata id of every name with an accepted matching. */
  method MatchesAdvisorNew(map_: seq<CT.NameMatching>) returns (nameToWiki: map<string, WikiId>)
    ensures nameToWiki.Keys == MatchesFrom(map_, map[]).Keys
    ensures forall name :: name in nameToWiki ==> nameToWiki[name] == WikiId(MatchesFrom(map_, map[])[name].wikiId)
  {
    var matches: map<string, CT.Match> := map[];
    nameToWiki := map[];
    var i := 0;
    while i < |map_|
      invariant 0 <= i <= |map_|
      invariant MatchesFrom(map_[i..], matches) == MatchesFrom(map_, map[])
      invariant nameToWiki.Keys == matches.Keys
      invariant forall name :: name in nameToWiki ==> nameToWiki[name] == WikiId(matches[name].wikiId)
    {
      assert map_[i..][1..] == map_[i + 1..];
      var matched := CT.Matched(map_[i]);
      if matched.Some? {
        matches := matches[map_[i].name := matched.value];
        nameToWiki := nameToWiki[map_[i].name := WikiId(matched.value.wikiId)];
      }
      i := i + 1;
    }
  }

  // ---------------------------------------------------------------------
  // EU Ecolabel

  /** An EU Ecolabel record: the fields of its VAT number and the name of its product or service. */
  datatype EcolabelRecord = EcolabelRecord(vat: EU.Record, productOrServiceName: string)

  /** `EuEcolabelAdvisor::new` from the record at the head of `records` on. */
  function VatToWikiFrom(records: seq<EcolabelRecord>, names: map<string, CT.Match>, acc: map<VatId, CT.Match>)
    : Result<map<VatId, CT.Match>, ParseIdError>
    decreases |records|
  {
    if records == [] then Ok(acc)
    else
      var r := records[0];
      match EU.PrepareVatNumber(r.vat)
      case None => VatToWikiFrom(records[1..], names, acc)
      case Some(number) =>
        match VatIdTryFrom(number)
        case Err(e) => Err(e)
        case Ok(vat) =>
          if r.productOrServiceName in names
          then VatToWikiFrom(records[1..], names, acc[vat := names[r.productOrServiceName]])
          else VatToWikiFrom(records[1..], names, acc)
  }

  /**
   * A VAT id is mapped only when its record's name has an accepted match,
   * and then to that match.
   */
  lemma {:induction false} VatToWikiFromSpec(records: seq<EcolabelRecord>, names: map<string, CT.Match>,
                                             acc: map<VatId, CT.Match>, vat: VatId)
    requires VatToWikiFrom(records, names, acc).Ok?
    requires vat in VatToWikiFrom(records, names, acc).value
    ensures (vat in acc && VatToWikiFrom(records, names, acc).value[vat] == acc[vat])
      || exists i :: 0 <= i < |records| && records[i].productOrServiceName in names
           && EU.PrepareVatNumber(records[i].vat).Some?
           && VatIdTryFrom(EU.PrepareVatNumber(records[i].vat).value) == Ok(vat)
           && VatToWikiFrom(records, names, acc).value[vat] == names[records[i].productOrServiceName]
    decreases |records|
  {
    if records != [] {
      var r := records[0];
      var rest := records[1..];
      var number := EU.PrepareVatNumber(r.vat);
      var acc' := if number.Some? && VatIdTryFrom(number.value).Ok? && r.productOrServiceName in names
                  then acc[VatIdTryFrom(number.value).value := names[r.productOrServiceName]] else acc;
      VatToWikiFromSpec(rest, names, acc', vat);
      var result := VatToWikiFrom(records, names, acc).value;
      if !(vat in acc' && result[vat] == acc'[vat]) {
        var i :| 0 <= i < |rest| && rest[i].productOrServiceName in names
                 && EU.PrepareVatNumber(rest[i].vat).Some?
                 && VatIdTryFrom(EU.PrepareVatNumber(rest[i].vat).value) == Ok(vat)
                 && result[vat] == names[rest[i].productOrServiceName];
        assert records[i + 1] == rest[i];
      }
    }
  }

  /** An unparsable VAT number aborts the construction, whatever the record's name. */
  lemma VatToWikiAborts(r: EcolabelRecord, records: seq<EcolabelRecord>, names: map<string, CT.Match>, acc: map<VatId, CT.Match>)
    requires EU.PrepareVatNumber(r.vat).Some? && VatIdTryFrom(EU.PrepareVatNumber(r.vat).value).Err?
    ensures VatToWikiFrom([r] + records, names, acc) == Err(VatIdTryFrom(EU.PrepareVatNumber(r.vat).value).error)
  {
  }

  /** `EuEcolabelAdvisor::new`: accepted matches by name, then the VAT ids of records with a matched name. */
  method EuEcolabelAdvisorNew(records: seq<EcolabelRecord>, map_: seq<CT.NameMatching>)
    returns (r: Result<map<VatId, CT.Match>, ParseIdError>)
    ensures r == VatToWikiFrom(records, MatchesFrom(map_, map[]), map[])
  {
    var names: map<string, CT.Match> := map[];
    var i := 0;
    while i < |map_|
      invariant 0 <= i <= |map_|
      invariant MatchesFrom(map_[i..], names) == MatchesFrom(map_, map[])
    {
      assert map_[i..][1..] == map_[i + 1..];
      var matched := CT.Matched(map_[i]);
      if matched.Some? {
        names := names[map_[i].name := matched.value];
      }
      i := i + 1;
    }
    var vatToWiki: map<VatId, CT.Match> := map[];
    var j := 0;
    while j < |records|
      invariant 0 <= j <= |records|
      invariant VatToWikiFrom(records[j..], names, vatToWiki) == VatToWikiFrom(records, names, map[])
    {
      assert records[j..][1..] == records[j + 1..];
      var number := EU.PrepareVatNumber(records[j].vat);
      if number.Some? {
        var vat := VatIdTryFrom(number.value);
        if vat.Err? {
          return Err(vat.error);
        }
        if records[j].productOrServiceName in names {
          vatToWiki := vatToWiki[vat.value := names[records[j].productOrServiceName]];
        }
      }
      j := j + 1;
    }
    return Ok(vatToWiki);
  }

  // ---------------------------------------------------------------------
  // TCO and the Fashion Transparency Index

  datatype TcoEntry = TcoEntry(wikidataId: WikiId, companyName: string)

  /** `TcoAdvisor::has_company`: some entry names the company. */
  function TcoHasCompany(entries: seq<TcoEntry>, id: WikiId): (r: bool)
    ensures r <==> exists i :: 0 <= i < |entries| && entries[i].wikidataId == id
  {
    id in (set e | e in entries :: e.wikidataId)
  }

  datatype FtiEntry = FtiEntry(name: string, wikidataId: Option<WikiId>, score: int)

  /** The id occurs among the first `n` entries. */
  ghost predicate Occurs(source: seq<FtiEntry>, n: nat, id: WikiId)
    requires n <= |source|
  {
    exists j :: 0 <= j < n && source[j].wikidataId == Some(id)
  }

  /** The id occurs in two of the first `n` entries. */
  ghost predicate Repeated(source: seq<FtiEntry>, n: nat, id: WikiId)
    requires n <= |source|
  {
    exists j, k :: 0 <= j < k < n && source[j].wikidataId == Some(id) && source[k].wikidataId == Some(id)
  }

  lemma OccursStep(source: seq<FtiEntry>, n: nat, id: WikiId)
    requires n < |source|
    ensures Occurs(source, n + 1, id) <==> Occurs(source, n, id) || source[n].wikidataId == Some(id)
  {
    if Occurs(source, n + 1, id) && source[n].wikidataId != Some(id) {
      var j :| 0 <= j < n + 1 && source[j].wikidataId == Some(id);
    }
  }

  lemma RepeatedStep(source: seq<FtiEntry>, n: nat, id: WikiId)
    requires n < |source|
    ensures Repeated(source, n + 1, id) <==> Repeated(source, n, id) || (source[n].wikidataId == Some(id) && Occurs(source, n, id))
  {
    if Repeated(source, n + 1, id) && !Repeated(source, n, id) {
      var j, k :| 0 <= j < k < n + 1 && source[j].wikidataId == Some(id) && source[k].wikidataId == Some(id);
      assert k == n;
    }
    if source[n].wikidataId == Some(id) && Occurs(source, n, id) {
      var j :| 0 <= j < n && source[j].wikidataId == Some(id);
      assert Repeated(source, n + 1, id);
    }
  }

  /**
   * After the first `n` entries: `entries` holds each id met so far with its
   * first entry, and `repeated` the ids met twice.
   */
  ghost predicate FtiScanned(source: seq<FtiEntry>, n: nat, entries: map<WikiId, FtiEntry>, repeated: set<WikiId>)
    requires n <= |source|
  {
    && (forall id :: id in entries <==> Occurs(source, n, id))
    && (forall id :: id in repeated <==> Repeated(source, n, id))
    && (forall j :: 0 <= j < n && source[j].wikidataId.Some? && source[j].wikidataId.value !in repeated
          ==> source[j].wikidataId.value in entries && entries[source[j].wikidataId.value] == source[j])
  }

  /** How one entry changes the two tables. */
  predicate FtiUpdate(entry: FtiEntry, entries: map<WikiId, FtiEntry>, repeated: set<WikiId>,
                      entries': map<WikiId, FtiEntry>, repeated': set<WikiId>)
  {
    match entry.wikidataId
    case None => entries' == entries && repeated' == repeated
    case Some(id) =>
      if id !in entries then entries' == entries[id := entry] && repeated' == repeated
      else entries' == entries && repeated' == repeated + {id}
  }

  lemma FtiStepEntries(source: seq<FtiEntry>, n: nat, entries: map<WikiId, FtiEntry>, repeated: set<WikiId>,
                       entries': map<WikiId, FtiEntry>, repeated': set<WikiId>)
    requires n < |source| && FtiUpdate(source[n], entries, repeated, entries', repeated')
    requires forall id :: id in entries <==> Occurs(source, n, id)
    ensures forall id :: id in entries' <==> Occurs(source, n + 1, id)
  {
    forall x ensures x in entries' <==> Occurs(source, n + 1, x) {
      OccursStep(source, n, x);
    }
  }

  lemma FtiStepRepeated(source: seq<FtiEntry>, n: nat, entries: map<WikiId, FtiEntry>, repeated: set<WikiId>,
                        entries': map<WikiId, FtiEntry>, repeated': set<WikiId>)
    requires n < |source| && FtiUpdate(source[n], entries, repeated, entries', repeated')
    requires forall id :: id in entries <==> Occurs(source, n, id)
    requires forall id :: id in repeated <==> Repeated(source, n, id)
    ensures forall id :: id in repeated' <==> Repeated(source, n + 1, id)
  {
    forall x ensures x in repeated' <==> Repeated(source, n + 1, x) {
      RepeatedStep(source, n, x);
    }
  }

  lemma FtiStepFirst(source: seq<FtiEntry>, n: nat, entries: map<WikiId, FtiEntry>, repeated: set<WikiId>,
                     entries': map<WikiId, FtiEntry>, repeated': set<WikiId>)
    requires n < |source| && FtiUpdate(source[n], entries, repeated, entries', repeated')
    requires forall id :: id in entries <==> Occurs(source, n, id)
    requires forall j :: 0 <= j < n && source[j].wikidataId.Some? && source[j].wikidataId.value !in repeated
               ==> source[j].wikidataId.value in entries && entries[source[j].wikidataId.value] == source[j]
    ensures forall j :: 0 <= j < n + 1 && source[j].wikidataId.Some? && source[j].wikidataId.value !in repeated'
               ==> source[j].wikidataId.value in entries' && entries'[source[j].wikidataId.value] == source[j]
  {
    forall j | 0 <= j < n + 1 && source[j].wikidataId.Some? && source[j].wikidataId.value !in repeated'
      ensures source[j].wikidataId.value in entries' && entries'[source[j].wikidataId.value] == source[j]
    {
      var id := source[j].wikidataId.value;
      if j < n {
        assert Occurs(source, n, id);
      }
    }
  }

  /** One step of the scan: a new id is stored, a known one is recorded as repeated. */
  lemma FtiStep(source: seq<FtiEntry>, n: nat, entries: map<WikiId, FtiEntry>, repeated: set<WikiId>,
                entries': map<WikiId, FtiEntry>, repeated': set<WikiId>)
    requires n < |source| && FtiScanned(source, n, entries, repeated)
    requires FtiUpdate(source[n], entries, repeated, entries', repeated')
    ensures FtiScanned(source, n + 1, entries', repeated')
  {
    FtiStepEntries(source, n, entries, repeated, entries', repeated');
    FtiStepRepeated(source, n, entries, repeated, entries', repeated');
    FtiStepFirst(source, n, entries, repeated, entries', repeated');
  }

  /**
   * `FashionTransparencyIndexAdvisor::new`: fails with exactly the ids that
   * occur more than once; otherwise maps every id to its one entry. Entries
   * without an id are ignored.
   */
  method FtiAdvisorNew(source: seq<FtiEntry>) returns (r: Result<map<WikiId, FtiEntry>, set<WikiId>>)
    ensures r.Err? ==> r.error != {} && forall id :: id in r.error <==> Repeated(source, |source|, id)
    ensures r.Ok? <==> forall id :: !Repeated(source, |source|, id)
    ensures r.Ok? ==> forall id :: id in r.value <==> Occurs(source, |source|, id)
    ensures r.Ok? ==> forall i :: 0 <= i < |source| && source[i].wikidataId.Some? ==>
      source[i].wikidataId.value in r.value && r.value[source[i].wikidataId.value] == source[i]
  {
    var repeated: set<WikiId> := {};
    var entries: map<WikiId, FtiEntry> := map[];
    var i := 0;
    while i < |source|
      invariant 0 <= i <= |source|
      invariant FtiScanned(source, i, entries, repeated)
    {
      var entry := source[i];
      ghost var entries0, repeated0 := entries, repeated;
      if entry.wikidataId.Some? {
        var id := entry.wikidataId.value;
        if id !in entries {
          entries := entries[id := entry];
        } else {
          repeated := repeated + {id};
        }
      }
      FtiStep(source, i, entries0, repeated0, entries, repeated);
      i := i + 1;
    }
    if repeated == {} {
      r := Ok(entries);
    } else {
      r := Err(repeated);
    }
  }

  // ---------------------------------------------------------------------
  // Wikidata

  /** `WikidataAdvisor`: known manufacturers, and regions and categories by Wikidata id. */
  datatype WikidataAdvisor = WikidataAdvisor(
    manufacturerIds: set<WikiId>,
    countryToRegions: map<WikiId, CT.Regions>,
    classToCategories: map<WikiId, set<string>>)

  /** `WikidataAdvisor::is_organisation`: never a product; an organisation by its claims or as a known manufacturer. */
  predicate WikidataIsOrganisation(advisor: WikidataAdvisor, item: W.Item, toNumId: string -> Option<nat>) {
    if W.IsProduct(item) then false
    else if W.IsOrganisationItem(item, toNumId) then true
    else item.id in advisor.manufacturerIds
  }

  /** Products are never organisations, and otherwise either rule suffices. */
  lemma WikidataIsOrganisationSpec(advisor: WikidataAdvisor, item: W.Item, toNumId: string -> Option<nat>)
    ensures W.IsProduct(item) ==> !WikidataIsOrganisation(advisor, item, toNumId)
    ensures !W.IsProduct(item) ==>
      (WikidataIsOrganisation(advisor, item, toNumId) <==> W.IsOrganisationItem(item, toNumId) || item.id in advisor.manufacturerIds)
  {
  }

  // ---------------------------------------------------------------------
  // Substrates

  datatype ProducerIds = ProducerIds(wiki: Option<seq<string>>, domains: Option<seq<string>>)
  datatype ProductIds = ProductIds(wiki: Option<seq<string>>)

  /** An entry of a substrate file; reviewer entries carry no ids. */
  datatype Entry = ProducerEntry(producer: ProducerIds) | ProductEntry(product: ProductIds) | ReviewerEntry

  /** A substrate: its name and its entries. */
  datatype SubstrateData = SubstrateData(name: string, entries: seq<Entry>)

  /** The entries of the substrates not excluded, one substrate after another. */
  function IncludedEntries(substrates: seq<SubstrateData>, exclude: set<string>): seq<Entry>
    decreases |substrates|
  {
    if substrates == [] then []
    else
      var last := substrates[|substrates| - 1];
      IncludedEntries(substrates[..|substrates| - 1], exclude) + (if last.name in exclude then [] else last.entries)
  }

  /** The wiki texts of a producer entry (`producers`) or of a product entry. */
  function EntryWiki(entry: Entry, producers: bool): seq<string> {
    if producers && entry.ProducerEntry? && entry.producer.wiki.Some? then entry.producer.wiki.value
    else if !producers && entry.ProductEntry? && entry.product.wiki.Some? then entry.product.wiki.value
    else []
  }

  /** The domains of a producer entry. */
  function EntryDomains(entry: Entry): seq<string> {
    if entry.ProducerEntry? && entry.producer.domains.Some? then entry.producer.domains.value else []
  }

  /** The wiki texts of the producer entries, or of the product entries. */
  function WikiTexts(entries: seq<Entry>, producers: bool): seq<string>
    decreases |entries|
  {
    if entries == [] then []
    else WikiTexts(entries[..|entries| - 1], producers) + EntryWiki(entries[|entries| - 1], producers)
  }

  /** The domains of the producer entries. */
  function DomainTexts(entries: seq<Entry>): seq<string>
    decreases |entries|
  {
    if entries == [] then []
    else DomainTexts(entries[..|entries| - 1]) + EntryDomains(entries[|entries| - 1])
  }

  /** An entry is included iff a substrate that is not excluded has it. */
  lemma {:induction false} IncludedEntriesSpec(substrates: seq<SubstrateData>, exclude: set<string>, e: Entry)
    ensures e in IncludedEntries(substrates, exclude) <==>
      exists k :: 0 <= k < |substrates| && substrates[k].name !in exclude && e in substrates[k].entries
    decreases |substrates|
  {
    if substrates != [] {
      var n := |substrates| - 1;
      IncludedEntriesSpec(substrates[..n], exclude, e);
      if exists k :: 0 <= k < n && substrates[..n][k].name !in exclude && e in substrates[..n][k].entries {
        var k :| 0 <= k < n && substrates[..n][k].name !in exclude && e in substrates[..n][k].entries;
        assert substrates[k] == substrates[..n][k];
      }
      if exists k :: 0 <= k < |substrates| && substrates[k].name !in exclude && e in substrates[k].entries {
        var k :| 0 <= k < |substrates| && substrates[k].name !in exclude && e in substrates[k].entries;
        if k < n { assert substrates[..n][k] == substrates[k]; }
      }
    }
  }

  lemma ParsedSetConcat(a: seq<string>, b: seq<string>)
    ensures ParsedSet(a + b, WikiIdTryFrom) == ParsedSet(a, WikiIdTryFrom) + ParsedSet(b, WikiIdTryFrom)
    ensures AllParse(a + b, WikiIdTryFrom) <==> AllParse(a, WikiIdTryFrom) && AllParse(b, WikiIdTryFrom)
  {
    var ab := a + b;
    forall x | x in ParsedSet(ab, WikiIdTryFrom) ensures x in ParsedSet(a, WikiIdTryFrom) + ParsedSet(b, WikiIdTryFrom) {
      var i :| 0 <= i < |ab| && WikiIdTryFrom(ab[i]).Ok? && WikiIdTryFrom(ab[i]).value == x;
      if i >= |a| { assert b[i - |a|] == ab[i]; }
    }
    forall x | x in ParsedSet(a, WikiIdTryFrom) ensures x in ParsedSet(ab, WikiIdTryFrom) {
      var i :| 0 <= i < |a| && WikiIdTryFrom(a[i]).Ok? && WikiIdTryFrom(a[i]).value == x;
      assert ab[i] == a[i];
    }
    forall x | x in ParsedSet(b, WikiIdTryFrom) ensures x in ParsedSet(ab, WikiIdTryFrom) {
      var i :| 0 <= i < |b| && WikiIdTryFrom(b[i]).Ok? && WikiIdTryFrom(b[i]).value == x;
      assert ab[|a| + i] == b[i];
    }
    if AllParse(a, WikiIdTryFrom) && AllParse(b, WikiIdTryFrom) {
      forall i | 0 <= i < |ab| ensures WikiIdTryFrom(ab[i]).Ok? {
        if i >= |a| { assert ab[i] == b[i - |a|]; }
      }
    }
    if AllParse(ab, WikiIdTryFrom) {
      forall i | 0 <= i < |a| ensures WikiIdTryFrom(a[i]).Ok? {
        assert ab[i] == a[i];
      }
      forall i | 0 <= i < |b| ensures WikiIdTryFrom(b[i]).Ok? {
        assert ab[|a| + i] == b[i];
      }
    }
  }

  /** `SubstrateAdvisor`: the wiki ids and domains the substrates know. */
  class SubstrateAdvisor {
    var producerWikiIds: set<WikiId>
    var productWikiIds: set<WikiId>
    var domains: set<string>

    constructor Empty()
      ensures producerWikiIds == {} && productWikiIds == {} && domains == {}
    {
      producerWikiIds := {};
      productWikiIds := {};
      domains := {};
    }

    /** Parses the texts into `ids`, stopping at the first that does not parse. */
    static method ParseInto(ids0: set<WikiId>, texts: seq<string>) returns (ids: set<WikiId>, err: Option<ParseIdError>)
      ensures err.None? <==> AllParse(texts, WikiIdTryFrom)
      ensures err.None? ==> ids == ids0 + ParsedSet(texts, WikiIdTryFrom)
      ensures err.Some? ==> FirstFailure(texts, WikiIdTryFrom, err.value)
    {
      ids := ids0;
      var i := 0;
      while i < |texts|
        invariant 0 <= i <= |texts|
        invariant forall j :: 0 <= j < i ==> WikiIdTryFrom(texts[j]).Ok?
        invariant ids == ids0 + ParsedSet(texts[..i], WikiIdTryFrom)
      {
        var parsed := WikiIdTryFrom(texts[i]);
        if parsed.Err? {
          return ids, Some(parsed.error);
        }
        ParsedSetStep(texts, i, WikiIdTryFrom);
        ids := ids + {parsed.value};
        i := i + 1;
      }
      assert texts[..i] == texts;
      return ids, None;
    }

    /** `process_producer_ids` or `process_product_ids`, as the entry calls for. */
    method ProcessEntry(entry: Entry) returns (err: Option<ParseIdError>)
      modifies this
      ensures err.None? <==> AllParse(EntryWiki(entry, true), WikiIdTryFrom) && AllParse(EntryWiki(entry, false), WikiIdTryFrom)
      ensures err.None? ==> producerWikiIds == old(producerWikiIds) + ParsedSet(EntryWiki(entry, true), WikiIdTryFrom)
      ensures err.None? ==> productWikiIds == old(productWikiIds) + ParsedSet(EntryWiki(entry, false), WikiIdTryFrom)
      ensures err.None? ==> domains == old(domains) + Elements(EntryDomains(entry))
      ensures err.Some? ==> FirstFailure(EntryWiki(entry, true) + EntryWiki(entry, false), WikiIdTryFrom, err.value)
    {
      err := None;
      match entry
      case ProducerEntry(ids) =>
        if ids.wiki.Some? {
          producerWikiIds, err := ParseInto(producerWikiIds, ids.wiki.value);
          if err.Some? {
            assert EntryWiki(entry, true) + EntryWiki(entry, false) == ids.wiki.value;
            return;
          }
        }
        if ids.domains.Some? {
          domains := domains + Elements(ids.domains.value);
        }
      case ProductEntry(ids) =>
        if ids.wiki.Some? {
          productWikiIds, err := ParseInto(productWikiIds, ids.wiki.value);
          assert EntryWiki(entry, true) + EntryWiki(entry, false) == ids.wiki.value;
        }
      case ReviewerEntry =>
    }

    /** `SubstrateAdvisor::has_domains`: some listed domain is known. */
    method HasDomains(list: seq<string>) returns (r: bool)
      ensures r <==> exists i :: 0 <= i < |list| && list[i] in domains
    {
      var i := 0;
      while i < |list|
        invariant 0 <= i <= |list|
        invariant forall j :: 0 <= j < i ==> list[j] !in domains
      {
        if list[i] in domains {
          return true;
        }
        i := i + 1;
      }
      return false;
    }

    /** The texts of a list, as a set. */
    static function Elements(texts: seq<string>): set<string> {
      set d | d in texts
    }

    /** The ids and domains gathered from `entries`, all of whose wiki texts parse. */
    static ghost predicate GatheredValues(producers: set<WikiId>, products: set<WikiId>, domains: set<string>, entries: seq<Entry>) {
      && AllParse(WikiTexts(entries, true), WikiIdTryFrom)
      && AllParse(WikiTexts(entries, false), WikiIdTryFrom)
      && producers == ParsedSet(WikiTexts(entries, true), WikiIdTryFrom)
      && products == ParsedSet(WikiTexts(entries, false), WikiIdTryFrom)
      && domains == Elements(DomainTexts(entries))
    }

    ghost predicate Gathered(entries: seq<Entry>)
      reads this
    {
      GatheredValues(producerWikiIds, productWikiIds, domains, entries)
    }

    /** After one more entry, the gathered ids and domains extend by that entry's. */
    static lemma GatheredStep(done: seq<Entry>, entry: Entry,
                              producers: set<WikiId>, products: set<WikiId>, domains: set<string>,
                              producers': set<WikiId>, products': set<WikiId>, domains': set<string>)
      requires GatheredValues(producers, products, domains, done)
      requires AllParse(EntryWiki(entry, true), WikiIdTryFrom) && AllParse(EntryWiki(entry, false), WikiIdTryFrom)
      requires producers' == producers + ParsedSet(EntryWiki(entry, true), WikiIdTryFrom)
      requires products' == products + ParsedSet(EntryWiki(entry, false), WikiIdTryFrom)
      requires domains' == domains + Elements(EntryDomains(entry))
      ensures GatheredValues(producers', products', domains', done + [entry])
    {
      assert (done + [entry])[..|done|] == done;
      ParsedSetConcat(WikiTexts(done, true), EntryWiki(entry, true));
      ParsedSetConcat(WikiTexts(done, false), EntryWiki(entry, false));
      var all := DomainTexts(done + [entry]);
      assert all == DomainTexts(done) + EntryDomains(entry);
      assert Elements(all) == Elements(DomainTexts(done)) + Elements(EntryDomains(entry));
    }

    static lemma IncludedStep(substrates: seq<SubstrateData>, i: nat, exclude: set<string>)
      requires i < |substrates|
      ensures IncludedEntries(substrates[..i + 1], exclude)
                == IncludedEntries(substrates[..i], exclude) + (if substrates[i].name in exclude then [] else substrates[i].entries)
    {
      assert substrates[..i + 1][..i] == substrates[..i];
    }

    /** `GatheredStep` for the entry at `j` of a list that follows `prefix`. */
    static lemma GatheredNext(prefix: seq<Entry>, entries: seq<Entry>, j: nat,
                              producers: set<WikiId>, products: set<WikiId>, domains: set<string>,
                              producers': set<WikiId>, products': set<WikiId>, domains': set<string>)
      requires j < |entries|
      requires GatheredValues(producers, products, domains, prefix + entries[..j])
      requires AllParse(EntryWiki(entries[j], true), WikiIdTryFrom) && AllParse(EntryWiki(entries[j], false), WikiIdTryFrom)
      requires producers' == producers + ParsedSet(EntryWiki(entries[j], true), WikiIdTryFrom)
      requires products' == products + ParsedSet(EntryWiki(entries[j], false), WikiIdTryFrom)
      requires domains' == domains + Elements(EntryDomains(entries[j]))
      ensures GatheredValues(producers', products', domains', prefix + entries[..j + 1])
    {
      GatheredStep(prefix + entries[..j], entries[j], producers, products, domains, producers', products', domains');
      assert prefix + entries[..j + 1] == prefix + entries[..j] + [entries[j]];
    }

    /** The entries of one substrate, processed in order. */
    method Gather(entries: seq<Entry>, ghost prefix: seq<Entry>) returns (err: Option<ParseIdError>)
      requires Gathered(prefix)
      modifies this
      ensures err.None? ==> Gathered(prefix + entries)
      ensures err.Some? ==> exists e :: e in entries && FirstFailure(EntryWiki(e, true) + EntryWiki(e, false), WikiIdTryFrom, err.value)
    {
      var j := 0;
      assert prefix + entries[..j] == prefix;
      while j < |entries|
        invariant 0 <= j <= |entries|
        invariant Gathered(prefix + entries[..j])
      {
        ghost var producers, products, domains0 := producerWikiIds, productWikiIds, domains;
        err := ProcessEntry(entries[j]);
        if err.Some? {
          assert entries[j] in entries;
          return;
        }
        GatheredNext(prefix, entries, j, producers, products, domains0, producerWikiIds, productWikiIds, domains);
        j := j + 1;
      }
      assert entries[..j] == entries;
      return None;
    }

    /**
     * `SubstrateAdvisor::load` on the parsed substrates: skips the excluded
     * ones and gathers the ids of every entry of the others, failing at the
     * first wiki id that does not parse.
     */
    static method Load(substrates: seq<SubstrateData>, exclude: set<string>) returns (r: Result<SubstrateAdvisor, ParseIdError>)
      ensures r.Ok? ==> fresh(r.value) && r.value.Gathered(IncludedEntries(substrates, exclude))
      ensures r.Err? ==>
        exists k :: 0 <= k < |substrates| && substrates[k].name !in exclude &&
          (exists e :: e in substrates[k].entries && FirstFailure(EntryWiki(e, true) + EntryWiki(e, false), WikiIdTryFrom, r.error))
    {
      var me := new SubstrateAdvisor.Empty();
      var i := 0;
      while i < |substrates|
        invariant 0 <= i <= |substrates|
        invariant fresh(me)
        invariant me.Gathered(IncludedEntries(substrates[..i], exclude))
      {
        var substrate := substrates[i];
        ghost var prefix := IncludedEntries(substrates[..i], exclude);
        IncludedStep(substrates, i, exclude);
        if substrate.name !in exclude {
          var err := me.Gather(substrate.entries, prefix);
          if err.Some? {
            return Err(err.value);
          }
        } else {
          assert prefix + [] == prefix;
        }
        i := i + 1;
      }
      assert substrates[..i] == substrates;
      return Ok(me);
    }
  }
}
