/** The Transpaer library data: name matchings, and the country and category mappings. */
module CollectingTranspaer {
  import opened Wrappers
  import opened Ordering

  /** A confirmed match of a name to one Wikidata id. */
  datatype Match = Match(wikiId: nat, matchAccuracy: real)

  /** A tentative match of a name to Wikidata ids, with its similarity. */
  datatype NameMatching = NameMatching(name: string, ids: seq<nat>, similarity: real)

  const MATCH_THRESHOLD: real := 0.85

  /** `NameMatching::matched`: a match only when it is similar enough and unambiguous. */
  function Matched(m: NameMatching): (r: Option<Match>)
    ensures r.Some? <==> m.similarity > MATCH_THRESHOLD && |m.ids| == 1
    ensures r.Some? ==> r.value == Match(m.ids[0], m.similarity)
  {
    if m.similarity > MATCH_THRESHOLD && |m.ids| == 1 then Some(Match(m.ids[0], m.similarity)) else None
  }

  /** The regions of the Transpaer data, with country codes as text. */
  datatype Regions = World | Unknown | List(codes: seq<string>)

  datatype CountryEntry = CountryEntry(tag: string, description: Option<string>, regions: Option<Regions>, count: nat)

  datatype CategoryEntry = CategoryEntry(
    tag: string,
    description: Option<string>,
    categories: Option<seq<string>>,
    count: nat,
    delete: Option<bool>)

  /** Fills a map from the entries in order, as the `from_*` constructors do. */
  method FillMap<E, V>(entries: seq<E>, key: E -> string, value: E -> V) returns (m: map<string, V>)
    ensures m == IndexLast(entries, key, value)
  {
    m := map[];
    var i := 0;
    while i < |entries|
      invariant 0 <= i <= |entries|
      invariant m == IndexLast(entries[..i], key, value)
    {
      assert entries[..i + 1][..i] == entries[..i];
      m := m[key(entries[i]) := value(entries[i])];
      i := i + 1;
    }
    assert entries[..i] == entries;
  }

  /** `RegionMap`: the regions of each country tag. */
  datatype RegionMap = RegionMap(entries: map<string, Option<Regions>>)

  function CountryTag(c: CountryEntry): string { c.tag }
  function CountryRegions(c: CountryEntry): Option<Regions> { c.regions }

  /** `RegionMap::from_countries`. */
  method FromCountries(countries: seq<CountryEntry>) returns (rm: RegionMap)
    ensures rm.entries == IndexLast(countries, CountryTag, CountryRegions)
  {
    var m := FillMap(countries, CountryTag, CountryRegions);
    rm := RegionMap(m);
  }

  /** `RegionMap::contains_tag`. */
  function RegionMapContainsTag(rm: RegionMap, tag: string): bool {
    tag in rm.entries
  }

  /** `RegionMap::get_regions`: the regions of the tag, if the tag is known and has any. */
  function GetRegions(rm: RegionMap, tag: string): (r: Option<Regions>)
    ensures r.Some? ==> tag in rm.entries
  {
    if tag in rm.entries then rm.entries[tag] else None
  }

  /**
   * For a map built from a list of countries: a tag is known iff some entry
   * carries it, and its regions are those of the last such entry.
   */
  lemma RegionMapSpec(countries: seq<CountryEntry>, tag: string)
    ensures var rm := RegionMap(IndexLast(countries, CountryTag, CountryRegions));
      && (RegionMapContainsTag(rm, tag) <==> exists i :: 0 <= i < |countries| && countries[i].tag == tag)
      && (RegionMapContainsTag(rm, tag) ==>
            exists i :: 0 <= i < |countries| && countries[i].tag == tag
              && GetRegions(rm, tag) == countries[i].regions
              && forall j :: i < j < |countries| ==> countries[j].tag != tag)
      && (!RegionMapContainsTag(rm, tag) ==> GetRegions(rm, tag).None?)
  {
    IndexLastSpec(countries, CountryTag, CountryRegions, tag);
  }

  /** What `CategoryMap` keeps of a category entry. */
  datatype CategoryMapEntry = CategoryMapEntry(description: Option<string>, categories: Option<seq<string>>, delete: Option<bool>)

  /** `CategoryMap`: the mapping of each source category tag. */
  datatype CategoryMap = CategoryMap(entries: map<string, CategoryMapEntry>)

  function CategoryTag(c: CategoryEntry): string { c.tag }
  function CategoryData(c: CategoryEntry): CategoryMapEntry { CategoryMapEntry(c.description, c.categories, c.delete) }

  /** `CategoryMap::from_categories`. */
  method FromCategories(categories: seq<CategoryEntry>) returns (cm: CategoryMap)
    ensures cm.entries == IndexLast(categories, CategoryTag, CategoryData)
  {
    var m := FillMap(categories, CategoryTag, CategoryData);
    cm := CategoryMap(m);
  }

  /** `CategoryMap::contains_tag`. */
  function CategoryMapContainsTag(cm: CategoryMap, tag: string): bool {
    tag in cm.entries
  }

  /** `CategoryMap::get`. */
  function CategoryMapGet(cm: CategoryMap, tag: string): (r: Option<CategoryMapEntry>)
    ensures r.Some? <==> CategoryMapContainsTag(cm, tag)
  {
    if tag in cm.entries then Some(cm.entries[tag]) else None
  }

  /** For a map built from a list of categories, `get` gives the data of the last entry with the tag. */
  lemma CategoryMapSpec(categories: seq<CategoryEntry>, tag: string)
    ensures var cm := CategoryMap(IndexLast(categories, CategoryTag, CategoryData));
      && (CategoryMapGet(cm, tag).Some? <==> exists i :: 0 <= i < |categories| && categories[i].tag == tag)
      && (CategoryMapGet(cm, tag).Some? ==>
            exists i :: 0 <= i < |categories| && categories[i].tag == tag
              && CategoryMapGet(cm, tag).value
                 == CategoryMapEntry(categories[i].description, categories[i].categories, categories[i].delete)
              && forall j :: i < j < |categories| ==> categories[j].tag != tag)
  {
    IndexLastSpec(categories, CategoryTag, CategoryData, tag);
  }
}
