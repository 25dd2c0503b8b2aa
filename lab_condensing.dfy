/**
 * Condensation in the lab crate: deciding what a Wikidata item is, the
 * collectors that gather producers and products for a substrate, the BCorp
 * record deduplication and link guessing, and the Open Food Facts helpers
 * that derive producer ids and regions from a record.
 */
module LabCondensing {
  import opened Wrappers
  import opened Text
  import opened Ordering
  import opened ModelsIds
  import opened ModelsUtils
  import opened LabUtils
  import MM = ModelsModels
  import OFF = CollectingOpenFoodFacts
  import W = LabWikidata
  import A = LabAdvisors

  // ---------------------------------------------------------------------
  // Products and organisations

  /** The advisors `is_organisation` consults. */
  datatype Sources = Sources(
    wikidata: A.WikidataAdvisor,
    bcorp: A.BCorpAdvisor,
    tco: seq<A.TcoEntry>,
    fti: map<WikiId, A.FtiEntry>)

  /** What `CondensationSources::is_organisation` decides, rule by rule. */
  predicate SourcesIsOrganisation(src: Sources, item: W.Item, toNumId: string -> Option<nat>) {
    if W.IsProduct(item) then false
    else if W.IsOrganisationItem(item, toNumId) then true
    else if item.id in src.wikidata.manufacturerIds then true
    else if item.id in src.fti || A.TcoHasCompany(src.tco, item.id) then true
    else
      match W.OfficialWebsites(item)
      case None => false
      case Some(websites) => exists d :: d in DomainsOf(websites) && d in src.bcorp.domainToName
  }

  /** `CondensationSources::is_organisation`. */
  method IsOrganisation(src: Sources, item: W.Item, toNumId: string -> Option<nat>) returns (r: bool)
    ensures r == SourcesIsOrganisation(src, item, toNumId)
  {
    if W.IsProduct(item) {
      return false;
    }
    var organisation := W.IsOrganisation(item, toNumId);
    if organisation {
      return true;
    }
    if item.id in src.wikidata.manufacturerIds {
      return true;
    }
    if item.id in src.fti || A.TcoHasCompany(src.tco, item.id) {
      return true;
    }
    var websites := W.GetStrings(item, W.OFFICIAL_WEBSITE);
    if websites.Some? {
      var domains := ExtractDomainsFromUrls(websites.value);
      r := A.HasDomains(src.bcorp, domains);
      return;
    }
    return false;
  }

  /**
   * Products are never organisations, and every item the Wikidata advisor
   * takes for an organisation is one here too: the other sources only add.
   */
  lemma SourcesIsOrganisationSpec(src: Sources, item: W.Item, toNumId: string -> Option<nat>)
    ensures W.IsProduct(item) ==> !SourcesIsOrganisation(src, item, toNumId)
    ensures A.WikidataIsOrganisation(src.wikidata, item, toNumId) ==> SourcesIsOrganisation(src, item, toNumId)
    ensures !W.IsProduct(item) && (item.id in src.fti || A.TcoHasCompany(src.tco, item.id)) ==>
      SourcesIsOrganisation(src, item, toNumId)
  {
  }

  // ---------------------------------------------------------------------
  // Collectors

  /**
   * `CatalogerCollector` and `ReviewerCollector`, which differ only in their
   * record types: producers by id, and products in arrival order.
   */
  class Collector<P(==,!new), Q(==,!new)> {
    var producers: map<string, P>
    var products: seq<Q>

    constructor ()
      ensures producers == map[] && products == []
    {
      producers := map[];
      products := [];
    }

    /** Every producer is stored under its own id. */
    ghost predicate KeyedBy(producerId: P -> string)
      reads this
    {
      forall k :: k in producers ==> producerId(producers[k]) == k
    }

    /** `insert_producer`: a new id is inserted, a known one merged with the stored producer. */
    method InsertProducer(producer: P, producerId: P -> string, merge: (P, P) -> P)
      modifies this
      ensures producers == old(producers)[producerId(producer) :=
        if producerId(producer) in old(producers) then merge(old(producers)[producerId(producer)], producer) else producer]
      ensures products == old(products)
    {
      var id := producerId(producer);
      if id in producers {
        producers := producers[id := merge(producers[id], producer)];
      } else {
        producers := producers[id := producer];
      }
    }

    /** `add_product`. */
    method AddProduct(product: Q)
      modifies this
      ensures products == old(products) + [product]
      ensures producers == old(producers)
    {
      products := products + [product];
    }

    /** `Collector::merge`: producers merged key by key, the other's products appended. */
    method Merge(other: Collector<P, Q>, merge: (P, P) -> P)
      requires other != this
      modifies this
      ensures producers == MergedWith(old(producers), other.producers, merge)
      ensures products == old(products) + other.products
    {
      producers := MergeHashmapsWith(producers, other.producers, merge);
      products := products + other.products;
    }

    /** `build_substrate`: the producers and the products, each sorted by id. */
    method BuildSubstrate(producerId: P -> string, productId: Q -> string) returns (ps: seq<P>, qs: seq<Q>)
      ensures Sorted(ps, ByKey(producerId)) && Sorted(qs, ByKey(productId))
      ensures Lists(producers, ps)
      ensures multiset(qs) == multiset(products)
    {
      var keys := Elements(producers.Keys);
      var values: seq<P> := [];
      var i := 0;
      while i < |keys|
        invariant 0 <= i <= |keys|
        invariant |values| == i
        invariant forall j :: 0 <= j < i ==> values[j] == producers[keys[j]]
      {
        values := values + [producers[keys[i]]];
        i := i + 1;
      }
      assert Lists(producers, values) by {
        forall k | k in producers ensures producers[k] in values {
          var j :| 0 <= j < |keys| && keys[j] == k;
        }
      }
      ps := Sort(values, ByKey(producerId));
      qs := Sort(products, ByKey(productId));
      ByKeyIsStrictWeakOrder(producerId);
      ByKeyIsStrictWeakOrder(productId);
      SortSorted(values, ByKey(producerId));
      SortSorted(products, ByKey(productId));
      PermutationLists(producers, values, ps);
    }
  }

  /** `s` holds the values of `m`, one element per key. */
  ghost predicate Lists<K, V>(m: map<K, V>, s: seq<V>) {
    && |s| == |m|
    && (forall k :: k in m ==> m[k] in s)
    && (forall v :: v in s ==> exists k :: k in m && m[k] == v)
  }

  lemma PermutationLists<K, V>(m: map<K, V>, s: seq<V>, t: seq<V>)
    requires Lists(m, s) && multiset(t) == multiset(s)
    ensures Lists(m, t)
  {
    assert |multiset(t)| == |multiset(s)|;
    forall v ensures v in t <==> v in s {
      assert v in t <==> v in multiset(t);
      assert v in s <==> v in multiset(s);
    }
  }

  /** Inserting and merging keep every producer under its own id, when merging keeps ids. */
  lemma InsertKeepsKeys<P>(producers: map<string, P>, producer: P, producerId: P -> string, merge: (P, P) -> P)
    requires forall k :: k in producers ==> producerId(producers[k]) == k
    requires forall a, b :: producerId(a) == producerId(b) ==> producerId(merge(a, b)) == producerId(a)
    ensures var id := producerId(producer);
      var m := producers[id := if id in producers then merge(producers[id], producer) else producer];
      forall k :: k in m ==> producerId(m[k]) == k
  {
  }

  lemma MergeKeepsKeys<P>(m1: map<string, P>, m2: map<string, P>, producerId: P -> string, merge: (P, P) -> P)
    requires forall k :: k in m1 ==> producerId(m1[k]) == k
    requires forall k :: k in m2 ==> producerId(m2[k]) == k
    requires forall a, b :: producerId(a) == producerId(b) ==> producerId(merge(a, b)) == producerId(a)
    ensures forall k :: k in MergedWith(m1, m2, merge) ==> producerId(MergedWith(m1, m2, merge)[k]) == k
  {
  }

  // ---------------------------------------------------------------------
  // BCorp

  /** The prefix of the links to company profiles on the BCorp web page. */
  const BCORP_COMPANY_PREFIX: string := "https://www.bcorporation.net/en-us/find-a-b-corp/company/"

  /** The company name lower-cased, without '.', with '-' for ' '. */
  function LinkSlug(name: string): (r: string)
    ensures |r| <= |name|
    ensures '.' !in r && ' ' !in r
    ensures IsLower(r)
  {
    var lower := ToLower(name);
    ToLowerIdempotent(name);
    var dropped := RemoveChars(lower, {'.'});
    assert IsLower(dropped) by {
      forall i | 0 <= i < |dropped| ensures !IsAsciiUpper(dropped[i]) {
        assert dropped[i] in lower;
      }
    }
    var r := ReplaceChar(dropped, ' ', '-');
    assert forall i :: 0 <= i < |r| ==> r[i] != ' ' && r[i] != '.' && !IsAsciiUpper(r[i]);
    r
  }

  /** `guess_link_id_from_company_name`: the fixed prefix, the slug, and a closing '/'. */
  function GuessLinkIdFromCompanyName(name: string): (r: string)
    ensures |r| == |BCORP_COMPANY_PREFIX| + |LinkSlug(name)| + 1
    ensures StartsWith(r, BCORP_COMPANY_PREFIX)
    ensures r[|r| - 1] == '/'
    ensures r[|BCORP_COMPANY_PREFIX|..|r| - 1] == LinkSlug(name)
  {
    var r := BCORP_COMPANY_PREFIX + LinkSlug(name) + "/";
    assert r[..|BCORP_COMPANY_PREFIX|] == BCORP_COMPANY_PREFIX;
    assert r[|BCORP_COMPANY_PREFIX|..|r| - 1] == LinkSlug(name);
    r
  }

  /** Names differing only in case give the same link. */
  lemma GuessLinkIgnoresCase(name: string)
    ensures GuessLinkIdFromCompanyName(ToLower(name)) == GuessLinkIdFromCompanyName(name)
  {
    ToLowerIdempotent(name);
  }

  /** The `i`-th record is kept for its company among the first `n`: later than all before, no earlier than all after. */
  ghost predicate Latest(records: seq<A.BCorpRecord>, n: nat, i: int)
    requires n <= |records|
  {
    && 0 <= i < n
    && (forall j :: 0 <= j < i && records[j].companyId == records[i].companyId ==>
          LexLess(records[j].dateCertified, records[i].dateCertified))
    && (forall j :: i < j < n && records[j].companyId == records[i].companyId ==>
          !LexLess(records[i].dateCertified, records[j].dateCertified))
  }

  /** `r` is the record kept for company `c` among the first `n`. */
  ghost predicate KeptLatest(records: seq<A.BCorpRecord>, n: nat, c: string, r: A.BCorpRecord)
    requires n <= |records|
  {
    exists i :: Latest(records, n, i) && records[i] == r && r.companyId == c
  }

  /** After the first `n` records, each company maps to its latest record, the earliest of ties. */
  ghost predicate Filtered(records: seq<A.BCorpRecord>, n: nat, filtered: map<string, A.BCorpRecord>)
    requires n <= |records|
  {
    && (forall c :: c in filtered <==> exists j :: 0 <= j < n && records[j].companyId == c)
    && (forall c :: c in filtered ==> KeptLatest(records, n, c, filtered[c]))
  }

  /** The first record of a company is its latest so far. */
  lemma LatestFirst(records: seq<A.BCorpRecord>, n: nat)
    requires n < |records|
    requires forall j :: 0 <= j < n ==> records[j].companyId != records[n].companyId
    ensures Latest(records, n + 1, n)
  {
  }

  /** A strictly later date replaces the kept record. */
  lemma LatestReplaced(records: seq<A.BCorpRecord>, n: nat, i: int)
    requires n < |records| && Latest(records, n, i)
    requires records[i].companyId == records[n].companyId
    requires LexLess(records[i].dateCertified, records[n].dateCertified)
    ensures Latest(records, n + 1, n)
  {
    var c := records[n].companyId;
    var d := records[n].dateCertified;
    forall j | 0 <= j < n && records[j].companyId == c ensures LexLess(records[j].dateCertified, d) {
      var dj := records[j].dateCertified;
      var di := records[i].dateCertified;
      if j < i {
        LexLessTransitive(dj, di, d);
      } else if j > i {
        LexLessTotal(dj, di);
        if LexLess(dj, di) {
          LexLessTransitive(dj, di, d);
        }
      }
    }
  }

  /** Any other record leaves the kept record in place. */
  lemma LatestKept(records: seq<A.BCorpRecord>, n: nat, i: int)
    requires n < |records| && Latest(records, n, i)
    requires records[i].companyId != records[n].companyId
      || !LexLess(records[i].dateCertified, records[n].dateCertified)
    ensures Latest(records, n + 1, i)
  {
  }

  lemma FilteredStep(records: seq<A.BCorpRecord>, n: nat, filtered: map<string, A.BCorpRecord>, filtered': map<string, A.BCorpRecord>)
    requires n < |records| && Filtered(records, n, filtered)
    requires var r := records[n];
      filtered' == if r.companyId !in filtered || LexLess(filtered[r.companyId].dateCertified, r.dateCertified)
                   then filtered[r.companyId := r] else filtered
    ensures Filtered(records, n + 1, filtered')
  {
    var c := records[n].companyId;
    forall d | d in filtered' ensures KeptLatest(records, n + 1, d, filtered'[d]) {
      KeptStep(records, n, filtered, filtered', d);
    }
    forall d ensures d in filtered' <==> exists j :: 0 <= j < n + 1 && records[j].companyId == d {
      if d in filtered' && d != c {
        assert d in filtered;
      }
    }
  }

  lemma KeptStep(records: seq<A.BCorpRecord>, n: nat, filtered: map<string, A.BCorpRecord>, filtered': map<string, A.BCorpRecord>, d: string)
    requires n < |records| && Filtered(records, n, filtered)
    requires var r := records[n];
      filtered' == if r.companyId !in filtered || LexLess(filtered[r.companyId].dateCertified, r.dateCertified)
                   then filtered[r.companyId := r] else filtered
    requires d in filtered'
    ensures KeptLatest(records, n + 1, d, filtered'[d])
  {
    var r := records[n];
    var c := r.companyId;
    if d == c && c !in filtered {
      LatestFirst(records, n);
    } else {
      assert KeptLatest(records, n, d, filtered[d]);
      var i :| Latest(records, n, i) && records[i] == filtered[d] && filtered[d].companyId == d;
      if d == c && LexLess(filtered[c].dateCertified, r.dateCertified) {
        LatestReplaced(records, n, i);
      } else {
        LatestKept(records, n, i);
      }
    }
  }

  /**
   * The deduplication of the BCorp condenser: one record per company id,
   * the one with the greatest `date_certified`, the earlier one on a tie.
   */
  method FilterLatest(records: seq<A.BCorpRecord>) returns (filtered: map<string, A.BCorpRecord>)
    ensures Filtered(records, |records|, filtered)
  {
    filtered := map[];
    var n := 0;
    while n < |records|
      invariant 0 <= n <= |records|
      invariant Filtered(records, n, filtered)
    {
      var record := records[n];
      ghost var before := filtered;
      if record.companyId in filtered {
        if LexLess(filtered[record.companyId].dateCertified, record.dateCertified) {
          filtered := filtered[record.companyId := record];
        }
      } else {
        filtered := filtered[record.companyId := record];
      }
      FilteredStep(records, n, before, filtered);
      n := n + 1;
    }
  }

  /** Every company is kept, with a record of its own whose date no other record of it exceeds. */
  lemma FilteredIsLatest(records: seq<A.BCorpRecord>, filtered: map<string, A.BCorpRecord>, c: string, j: nat)
    requires Filtered(records, |records|, filtered)
    requires j < |records| && records[j].companyId == c
    ensures c in filtered && filtered[c].companyId == c && filtered[c] in records
    ensures !LexLess(filtered[c].dateCertified, records[j].dateCertified)
  {
    assert KeptLatest(records, |records|, c, filtered[c]);
    var i :| Latest(records, |records|, i) && records[i] == filtered[c] && filtered[c].companyId == c;
    if j < i {
      var dj := records[j].dateCertified;
      var di := records[i].dateCertified;
      if LexLess(di, dj) {
        LexLessTransitive(di, dj, di);
        LexLessIrreflexive(di);
      }
    } else if j == i {
      LexLessIrreflexive(records[i].dateCertified);
    }
  }

  // ---------------------------------------------------------------------
  // Open Food Facts

  /** `get_producer_id`: the brand owner, disambiguated, unless that is empty. */
  function GetProducerId(record: OFF.Record): (r: Option<string>)
    ensures r.None? <==> DisambiguateName(record.brandOwner) == []
    ensures r.Some? ==> r.value == DisambiguateName(record.brandOwner) && IsLower(r.value)
  {
    var id := DisambiguateName(record.brandOwner);
    if id == [] then None else Some(id)
  }

  /** A brand owner made only of whitespace gives no producer id. */
  lemma BlankOwnerHasNoId(record: OFF.Record)
    requires forall i :: 0 <= i < |record.brandOwner| ==> IsWhitespace(record.brandOwner[i])
    ensures GetProducerId(record).None?
  {
    BlankTrims(record.brandOwner);
  }

  lemma {:induction false} BlankTrims(s: string)
    requires forall i :: 0 <= i < |s| ==> IsWhitespace(s[i])
    ensures TrimStart(s) == []
  {
    if s != [] {
      BlankTrims(s[1..]);
    }
  }

  /** The Wikidata ids the disambiguated brand labels are matched to. */
  function BrandMatches(record: OFF.Record, nameToWiki: map<string, WikiId>): set<WikiId> {
    set l | l in OFF.BrandLabels(record) && DisambiguateName(l) in nameToWiki :: nameToWiki[DisambiguateName(l)]
  }

  /**
   * `guess_producer_wiki_id`: the match of the producer id itself, or else
   * the one id the brand labels match, if they match exactly one.
   */
  method GuessProducerWikiId(record: OFF.Record, nameToWiki: map<string, WikiId>) returns (r: Option<WikiId>)
    ensures GetProducerId(record).None? ==> r.None?
    ensures GetProducerId(record).Some? && GetProducerId(record).value in nameToWiki ==>
      r == Some(nameToWiki[GetProducerId(record).value])
    ensures GetProducerId(record).Some? && GetProducerId(record).value !in nameToWiki ==>
      (r.Some? <==> |BrandMatches(record, nameToWiki)| == 1) && (r.Some? ==> BrandMatches(record, nameToWiki) == {r.value})
  {
    var name := GetProducerId(record);
    if name.None? {
      return None;
    }
    if name.value in nameToWiki {
      return Some(nameToWiki[name.value]);
    }
    var labels := OFF.ExtractBrandLabels(record);
    var matches := MatchLabels(labels, nameToWiki);
    var brandMatches := BrandMatches(record, nameToWiki);
    forall id ensures id in matches <==> id in brandMatches {
      MatchedIdsSpec(labels, nameToWiki, id);
      if id in brandMatches {
        var l :| l in OFF.BrandLabels(record) && DisambiguateName(l) in nameToWiki && nameToWiki[DisambiguateName(l)] == id;
        assert l in labels;
      }
    }
    assert matches == brandMatches;
    if |matches| == 1 {
      var id :| id in matches;
      OnlyElement(matches, id);
      return Some(id);
    }
    return None;
  }

  /** The ids the disambiguated `labels` are mapped to. */
  function MatchedIds(labels: seq<string>, nameToWiki: map<string, WikiId>): set<WikiId>
    decreases |labels|
  {
    if labels == [] then {}
    else MatchedIds(labels[..|labels| - 1], nameToWiki) + MatchOf(labels[|labels| - 1], nameToWiki)
  }

  /** The id one label's disambiguated name is mapped to, if any. */
  function MatchOf(brand: string, nameToWiki: map<string, WikiId>): set<WikiId> {
    var name := DisambiguateName(brand);
    if name in nameToWiki then {nameToWiki[name]} else {}
  }

  lemma {:induction false} MatchedIdsSpec(labels: seq<string>, nameToWiki: map<string, WikiId>, id: WikiId)
    ensures id in MatchedIds(labels, nameToWiki) <==>
      exists l :: l in labels && DisambiguateName(l) in nameToWiki && nameToWiki[DisambiguateName(l)] == id
    decreases |labels|
  {
    if labels != [] {
      var init := labels[..|labels| - 1];
      MatchedIdsSpec(init, nameToWiki, id);
      assert labels == init + [labels[|labels| - 1]];
    }
  }

  /** The matching loop of `guess_producer_wiki_id`. */
  method MatchLabels(labels: seq<string>, nameToWiki: map<string, WikiId>) returns (matches: set<WikiId>)
    ensures matches == MatchedIds(labels, nameToWiki)
  {
    matches := {};
    var i := 0;
    while i < |labels|
      invariant 0 <= i <= |labels|
      invariant matches == MatchedIds(labels[..i], nameToWiki)
    {
      assert labels[..i + 1][..i] == labels[..i];
      matches := matches + MatchOf(labels[i], nameToWiki);
      i := i + 1;
    }
    assert labels[..i] == labels;
  }

  lemma OnlyElement<T>(s: set<T>, x: T)
    requires |s| == 1 && x in s
    ensures s == {x}
  {
    var rest := s - {x};
    assert |rest| == 0;
  }

  /** `vec`: no element for the empty text, the text itself otherwise. */
  function Vec(s: string): (r: seq<string>)
    ensures r == [] <==> s == []
    ensures |r| <= 1 && forall x :: x in r ==> x == s
  {
    if s == [] then [] else [s]
  }

  /** The regions of a substrate: every region, unknown, or a list of countries. */
  datatype SchemaRegions = All | UnknownRegions | RegionList(codes: set<MM.Country>)

  /** The countries one tag maps to: none unless it maps to a list. */
  function CodesHere(tag: string, countries: map<string, MM.Regions>): set<MM.Country> {
    if tag in countries && countries[tag].List? then set c | c in countries[tag].codes else {}
  }

  /** The countries the listed tags map to. */
  function CodesOf(tags: seq<string>, countries: map<string, MM.Regions>): set<MM.Country>
    decreases |tags|
  {
    if tags == [] then {}
    else
      CodesHere(tags[0], countries) + CodesOf(tags[1..], countries)
  }

  /** Some tag maps to the whole world. */
  predicate AnyWorld(tags: seq<string>, countries: map<string, MM.Regions>) {
    exists i :: 0 <= i < |tags| && tags[i] in countries && countries[tags[i]] == MM.World
  }

  /** What sell-region extraction yields from `tags`, with `acc` already found. */
  function SellRegionsFrom(tags: seq<string>, countries: map<string, MM.Regions>, acc: set<MM.Country>): SchemaRegions
    decreases |tags|
  {
    if tags == [] then (if acc == {} then UnknownRegions else RegionList(acc))
    else if tags[0] in countries && countries[tags[0]] == MM.World then All
    else
      SellRegionsFrom(tags[1..], countries, acc + CodesHere(tags[0], countries))
  }

  /** All as soon as a tag maps to the world; otherwise unknown without codes, and the codes otherwise. */
  lemma {:induction false} SellRegionsSpec(tags: seq<string>, countries: map<string, MM.Regions>, acc: set<MM.Country>)
    ensures SellRegionsFrom(tags, countries, acc) == All <==> AnyWorld(tags, countries)
    ensures !AnyWorld(tags, countries) ==>
      SellRegionsFrom(tags, countries, acc)
        == if acc + CodesOf(tags, countries) == {} then UnknownRegions else RegionList(acc + CodesOf(tags, countries))
    decreases |tags|
  {
    if tags != [] {
      SellRegionsSpec(tags[1..], countries, acc + CodesHere(tags[0], countries));
      if AnyWorld(tags[1..], countries) {
        var i :| 0 <= i < |tags[1..]| && tags[1..][i] in countries && countries[tags[1..][i]] == MM.World;
        assert tags[i + 1] == tags[1..][i];
      }
      if AnyWorld(tags, countries) && !(tags[0] in countries && countries[tags[0]] == MM.World) {
        var i :| 0 <= i < |tags| && tags[i] in countries && countries[tags[i]] == MM.World;
        assert tags[1..][i - 1] == tags[i];
      }
    }
  }

  /** `extract_open_food_facts_sell_regions`. */
  method ExtractSellRegions(record: OFF.Record, countries: map<string, MM.Regions>) returns (r: SchemaRegions)
    ensures r == SellRegionsFrom(OFF.ExtractSellCountries(record), countries, {})
  {
    var tags := OFF.ExtractSellCountries(record);
    var result: set<MM.Country> := {};
    var i := 0;
    while i < |tags|
      invariant 0 <= i <= |tags|
      invariant SellRegionsFrom(tags[i..], countries, result) == SellRegionsFrom(tags, countries, {})
    {
      assert tags[i..][1..] == tags[i + 1..];
      var tag := tags[i];
      if tag in countries && countries[tag] == MM.World {
        return All;
      }
      result := result + CodesHere(tag, countries);
      i := i + 1;
    }
    if result == {} {
      return UnknownRegions;
    }
    return RegionList(result);
  }

  /** The production regions the tags give: their countries, or None when there are none. */
  function RegionsOfTags(tags: seq<string>, countries: map<string, MM.Regions>): Option<set<MM.Country>> {
    var codes := CodesOf(tags, countries);
    if codes == {} then None else Some(codes)
  }

  /** A country is found exactly when some tag maps to a list holding it. */
  lemma {:induction false} CodesOfSpec(tags: seq<string>, countries: map<string, MM.Regions>, c: MM.Country)
    ensures c in CodesOf(tags, countries) <==>
      exists i :: 0 <= i < |tags| && tags[i] in countries && countries[tags[i]].List? && c in countries[tags[i]].codes
    decreases |tags|
  {
    if tags != [] {
      CodesOfSpec(tags[1..], countries, c);
      if c in CodesOf(tags[1..], countries) {
        var i :| 0 <= i < |tags[1..]| && tags[1..][i] in countries && countries[tags[1..][i]].List? && c in countries[tags[1..][i]].codes;
        assert tags[i + 1] == tags[1..][i];
      }
      if exists i :: 0 <= i < |tags| && tags[i] in countries && countries[tags[i]].List? && c in countries[tags[i]].codes {
        var i :| 0 <= i < |tags| && tags[i] in countries && countries[tags[i]].List? && c in countries[tags[i]].codes;
        if i > 0 {
          assert tags[1..][i - 1] == tags[i];
        }
      }
    }
  }

  /** The loop shared by both versions of production-region extraction. */
  method CollectRegions(tags: seq<string>, countries: map<string, MM.Regions>) returns (r: Option<set<MM.Country>>)
    ensures r == RegionsOfTags(tags, countries)
  {
    var result: set<MM.Country> := {};
    var i := 0;
    while i < |tags|
      invariant 0 <= i <= |tags|
      invariant result + CodesOf(tags[i..], countries) == CodesOf(tags, countries)
    {
      assert tags[i..][1..] == tags[i + 1..];
      result := result + CodesHere(tags[i], countries);
      i := i + 1;
    }
    if result == {} {
      return None;
    }
    return Some(result);
  }

  /**
   * `extract_open_food_facts_production_regions` as written: it reads the
   * record's sell-country tags, not its manufacturing places.
   */
  method ExtractProductionRegionsAsWritten(record: OFF.Record, countries: map<string, MM.Regions>) returns (r: Option<set<MM.Country>>)
    ensures r == RegionsOfTags(OFF.ExtractSellCountries(record), countries)
  {
    r := CollectRegions(OFF.ExtractSellCountries(record), countries);
  }

  /**
   * Production regions from the manufacturing-place tags, as the name and
   * the updater (which maps production tags too) intend.
   */
  method ExtractProductionRegions(record: OFF.Record, countries: map<string, MM.Regions>) returns (r: Option<set<MM.Country>>)
    ensures r == RegionsOfTags(OFF.ExtractProductionCountries(record), countries)
  {
    r := CollectRegions(OFF.ExtractProductionCountries(record), countries);
  }

  /** A product made in France and sold nowhere gets no production region as written. */
  lemma ProductionRegionsIgnoreManufacturing()
    ensures var record := OFF.Record("", "", "fr", "", "");
      var countries := map["fr" := MM.List([MM.Country(250)])];
      && RegionsOfTags(OFF.ExtractSellCountries(record), countries) == None
      && RegionsOfTags(OFF.ExtractProductionCountries(record), countries) == Some({MM.Country(250)})
  {
    var record := OFF.Record("", "", "fr", "", "");
    var countries := map["fr" := MM.List([MM.Country(250)])];
    var tags := OFF.ExtractProductionCountries(record);
    assert Count("fr", ',') == 0;
    assert |tags| == 1 && Join(tags, ',') == tags[0];
    assert tags == ["fr"];
    assert CodesHere("fr", countries) == {MM.Country(250)};
    assert CodesOf(tags, countries) == {MM.Country(250)} by {
      assert tags[1..] == [];
    }
  }
}
