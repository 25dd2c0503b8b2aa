/**
 * Updating the mapping files in the lab crate: counting the country and
 * category tags the sources use, combining the counts of parallel workers,
 * and summarising them, most used first, with the share of uses the old
 * mappings already assign.
 */
module LabUpdating {
  import opened Wrappers
  import opened Ordering
  import opened ModelsIds
  import opened LabUtils
  import T = CollectingTranspaer
  import OFF = CollectingOpenFoodFacts
  import W = LabWikidata
  import A = LabAdvisors

  // ---------------------------------------------------------------------
  // Order of the summaries

  datatype Cmp = Less | Equal | Greater

  lemma LexLessAsymmetric(a: string, b: string)
    requires LexLess(a, b)
    ensures !LexLess(b, a)
  {
    if LexLess(b, a) {
      LexLessTransitive(a, b, a);
      LexLessIrreflexive(a);
    }
  }

  /** `Ord::cmp` on strings. */
  function CompareStrings(a: string, b: string): (r: Cmp)
    ensures r == Less <==> LexLess(a, b)
    ensures r == Greater <==> LexLess(b, a)
    ensures r == Equal <==> a == b
  {
    LexLessTotal(a, b);
    LexLessIrreflexive(a);
    if LexLess(a, b) then
      LexLessAsymmetric(a, b);
      Less
    else if a == b then Equal
    else Greater
  }

  /** The order of the summaries: larger counts first, equal counts by tag. */
  predicate ItemLess(a: (string, nat), b: (string, nat)) {
    a.1 > b.1 || (a.1 == b.1 && LexLess(a.0, b.0))
  }

  /** `compare_items`: counts compared in reverse, ties broken by the tags. */
  function CompareItems(c1: (string, nat), c2: (string, nat)): (r: Cmp)
    ensures r == Less <==> ItemLess(c1, c2)
    ensures r == Greater <==> ItemLess(c2, c1)
    ensures r == Equal <==> c1 == c2
  {
    if c2.1 < c1.1 then Less
    else if c2.1 > c1.1 then Greater
    else CompareStrings(c1.0, c2.0)
  }

  lemma ItemLessIsStrictTotalOrder()
    ensures IsStrictTotalOrder(ItemLess)
  {
    forall a: (string, nat) ensures !ItemLess(a, a) {
      LexLessIrreflexive(a.0);
    }
    forall a: (string, nat), b: (string, nat), c: (string, nat) | ItemLess(a, b) && ItemLess(b, c)
      ensures ItemLess(a, c)
    {
      if a.1 == b.1 == c.1 {
        LexLessTransitive(a.0, b.0, c.0);
      }
    }
    forall a: (string, nat), b: (string, nat) ensures a == b || ItemLess(a, b) || ItemLess(b, a) {
      LexLessTotal(a.0, b.0);
    }
  }

  // ---------------------------------------------------------------------
  // Counting tags

  /** The count of a tag, zero when the tag was never seen. */
  function Count(m: map<string, nat>, t: string): nat {
    if t in m then m[t] else 0
  }

  /** `entry(tag).and_modify(|n| *n += 1).or_insert(1)`. */
  function AddTag(m: map<string, nat>, t: string): map<string, nat> {
    m[t := Count(m, t) + 1]
  }

  /** Every tag counted once more, in order. */
  function AddTags(m: map<string, nat>, tags: seq<string>): map<string, nat>
    decreases |tags|
  {
    if tags == [] then m else AddTags(AddTag(m, tags[0]), tags[1..])
  }

  /** Counting adds each tag's number of occurrences to its count, and knows exactly the tags seen. */
  lemma {:induction false} AddTagsSpec(m: map<string, nat>, tags: seq<string>, t: string)
    ensures Count(AddTags(m, tags), t) == Count(m, t) + multiset(tags)[t]
    ensures t in AddTags(m, tags) <==> t in m || t in tags
    decreases |tags|
  {
    if tags != [] {
      AddTagsSpec(AddTag(m, tags[0]), tags[1..], t);
      assert tags == [tags[0]] + tags[1..];
    }
  }

  /** The counting loop of the workers. */
  method CountTags(m: map<string, nat>, tags: seq<string>) returns (r: map<string, nat>)
    ensures r == AddTags(m, tags)
  {
    r := m;
    var i := 0;
    while i < |tags|
      invariant 0 <= i <= |tags|
      invariant AddTags(r, tags[i..]) == AddTags(m, tags)
    {
      assert tags[i..][1..] == tags[i + 1..];
      r := AddTag(r, tags[i]);
      i := i + 1;
    }
  }

  // ---------------------------------------------------------------------
  // Summaries

  /** `items` lists the entries of `m`, one per tag. */
  ghost predicate ItemsOf(m: map<string, nat>, items: seq<(string, nat)>) {
    && |items| == |m|
    && (forall i :: 0 <= i < |items| ==> items[i].0 in m && m[items[i].0] == items[i].1)
    && (forall k :: k in m ==> (k, m[k]) in items)
  }

  /** The gathered counts drained into a vector and sorted with `compare_items`. */
  method SortedItems(m: map<string, nat>) returns (items: seq<(string, nat)>)
    ensures ItemsOf(m, items) && Sorted(items, ItemLess)
  {
    var keys := Elements(m.Keys);
    var drained := seq(|keys|, i requires 0 <= i < |keys| => (keys[i], m[keys[i]]));
    DrainedItems(m, keys, drained);
    items := Sort(drained, ItemLess);
    ItemLessIsStrictTotalOrder();
    TotalIsWeak(ItemLess);
    SortSorted(drained, ItemLess);
    PermutationItems(m, drained, items);
  }

  lemma DrainedItems(m: map<string, nat>, keys: seq<string>, drained: seq<(string, nat)>)
    requires |keys| == |m| && forall k :: k in keys <==> k in m
    requires |drained| == |keys| && forall i :: 0 <= i < |keys| ==> drained[i] == (keys[i], m[keys[i]])
    ensures ItemsOf(m, drained)
  {
    forall k | k in m ensures (k, m[k]) in drained {
      var i :| 0 <= i < |keys| && keys[i] == k;
      assert drained[i] == (k, m[k]);
    }
  }

  lemma PermutationItems(m: map<string, nat>, s: seq<(string, nat)>, t: seq<(string, nat)>)
    requires ItemsOf(m, s) && multiset(t) == multiset(s)
    ensures ItemsOf(m, t)
  {
    assert |multiset(t)| == |multiset(s)|;
    forall x ensures x in t <==> x in s {
      assert x in t <==> x in multiset(t);
      assert x in s <==> x in multiset(s);
    }
    forall i | 0 <= i < |t| ensures t[i].0 in m && m[t[i].0] == t[i].1 {
      assert t[i] in s;
    }
  }

  /** The sum of the counts of the kept entries. */
  function SumWhere<E>(s: seq<E>, count: E -> nat, keep: E -> bool): nat
    decreases |s|
  {
    if s == [] then 0
    else SumWhere(s[..|s| - 1], count, keep) + (if keep(s[|s| - 1]) then count(s[|s| - 1]) else 0)
  }

  /** The sum of all counts. */
  function SumAll<E>(s: seq<E>, count: E -> nat): nat
    decreases |s|
  {
    if s == [] then 0 else SumAll(s[..|s| - 1], count) + count(s[|s| - 1])
  }

  /** One more element adds its count to the sums that keep it. */
  lemma SumsAppend<E>(s: seq<E>, e: E, count: E -> nat, keep: E -> bool)
    ensures SumWhere(s + [e], count, keep) == SumWhere(s, count, keep) + (if keep(e) then count(e) else 0)
    ensures SumAll(s + [e], count) == SumAll(s, count) + count(e)
  {
    assert (s + [e])[..|s|] == s;
  }

  lemma {:induction false} SumWhereAtMost<E>(s: seq<E>, count: E -> nat, keep: E -> bool)
    ensures SumWhere(s, count, keep) <= SumAll(s, count)
    decreases |s|
  {
    if s != [] {
      SumWhereAtMost(s[..|s| - 1], count, keep);
    }
  }

  /** `100 * part / all`; None stands for the division by zero on no uses at all. */
  function Percentage(part: nat, all: nat): (r: Option<nat>)
    ensures r.None? <==> all == 0
    ensures r.Some? ==> r.value * all <= 100 * part < (r.value + 1) * all
  {
    if all == 0 then None else Some(100 * part / all)
  }

  /** A share of a whole is at most a hundred percent. */
  lemma PercentageAtMost100(part: nat, all: nat)
    requires part <= all
    ensures Percentage(part, all).Some? ==> Percentage(part, all).value <= 100
  {
  }

  function Lookup(m: map<string, string>, k: string): Option<string> {
    if k in m then Some(m[k]) else None
  }

  /** The country entry written for a tag: its description and its old regions, if any. */
  function CountryEntryOf(tag: string, count: nat, descriptions: map<string, string>, oldRegions: T.RegionMap): T.CountryEntry {
    T.CountryEntry(tag, Lookup(descriptions, tag), T.GetRegions(oldRegions, tag), count)
  }

  function CountryCount(e: T.CountryEntry): nat { e.count }
  predicate CountryAssigned(e: T.CountryEntry) { e.regions.Some? }
  predicate CountryLess(a: T.CountryEntry, b: T.CountryEntry) { ItemLess((a.tag, a.count), (b.tag, b.count)) }

  /**
   * `summarize_countries`: one entry per gathered tag, most used first, and
   * the share of uses whose tag already has regions.
   */
  method SummarizeCountries(gathered: map<string, nat>, descriptions: map<string, string>, oldRegions: T.RegionMap)
    returns (countries: seq<T.CountryEntry>, percentage: Option<nat>)
    ensures |countries| == |gathered|
    ensures forall i :: 0 <= i < |countries| ==>
      countries[i].tag in gathered
      && countries[i] == CountryEntryOf(countries[i].tag, gathered[countries[i].tag], descriptions, oldRegions)
    ensures forall t :: t in gathered ==> exists i :: 0 <= i < |countries| && countries[i].tag == t
    ensures Sorted(countries, CountryLess)
    ensures percentage == Percentage(SumWhere(countries, CountryCount, CountryAssigned), SumAll(countries, CountryCount))
  {
    var items := SortedItems(gathered);
    var assignedRefs, all;
    countries, assignedRefs, all := CountryRows(items, descriptions, oldRegions);
    CountryRowsFollowItems(gathered, items, countries, descriptions, oldRegions);
    percentage := Percentage(assignedRefs, all);
  }

  /** The loop of `summarize_countries`: one entry per item, and the two sums. */
  method CountryRows(items: seq<(string, nat)>, descriptions: map<string, string>, oldRegions: T.RegionMap)
    returns (countries: seq<T.CountryEntry>, assignedRefs: nat, all: nat)
    ensures |countries| == |items|
    ensures forall j :: 0 <= j < |items| ==> countries[j] == CountryEntryOf(items[j].0, items[j].1, descriptions, oldRegions)
    ensures assignedRefs == SumWhere(countries, CountryCount, CountryAssigned)
    ensures all == SumAll(countries, CountryCount)
  {
    countries := [];
    assignedRefs := 0;
    all := 0;
    var i := 0;
    while i < |items|
      invariant 0 <= i <= |items|
      invariant |countries| == i
      invariant forall j :: 0 <= j < i ==> countries[j] == CountryEntryOf(items[j].0, items[j].1, descriptions, oldRegions)
      invariant assignedRefs == SumWhere(countries, CountryCount, CountryAssigned)
      invariant all == SumAll(countries, CountryCount)
    {
      var (tag, count) := items[i];
      var regions := T.GetRegions(oldRegions, tag);
      if regions.Some? {
        assignedRefs := assignedRefs + count;
      }
      all := all + count;
      var entry := T.CountryEntry(tag, Lookup(descriptions, tag), regions, count);
      assert (countries + [entry])[..i] == countries;
      countries := countries + [entry];
      i := i + 1;
    }
  }

  lemma CountryRowsFollowItems(
    gathered: map<string, nat>, items: seq<(string, nat)>, countries: seq<T.CountryEntry>,
    descriptions: map<string, string>, oldRegions: T.RegionMap)
    requires ItemsOf(gathered, items) && Sorted(items, ItemLess)
    requires |countries| == |items|
    requires forall j :: 0 <= j < |items| ==> countries[j] == CountryEntryOf(items[j].0, items[j].1, descriptions, oldRegions)
    ensures forall i :: 0 <= i < |countries| ==>
      countries[i].tag in gathered
      && countries[i] == CountryEntryOf(countries[i].tag, gathered[countries[i].tag], descriptions, oldRegions)
    ensures forall t :: t in gathered ==> exists i :: 0 <= i < |countries| && countries[i].tag == t
    ensures Sorted(countries, CountryLess)
  {
    forall t | t in gathered ensures exists i :: 0 <= i < |countries| && countries[i].tag == t {
      var j :| 0 <= j < |items| && items[j] == (t, gathered[t]);
      assert countries[j].tag == t;
    }
    forall i, j | 0 <= i < j < |countries| ensures !CountryLess(countries[j], countries[i]) {
      assert (countries[i].tag, countries[i].count) == items[i];
      assert (countries[j].tag, countries[j].count) == items[j];
    }
  }

  /** The category entry written for a tag: the old mapping when there is one, none otherwise. */
  function CategoryEntryOf(tag: string, count: nat, descriptions: map<string, string>, oldCategories: T.CategoryMap): (r: T.CategoryEntry)
    ensures r.tag == tag && r.count == count
  {
    match T.CategoryMapGet(oldCategories, tag)
    case Some(e) => T.CategoryEntry(tag, Lookup(descriptions, tag), e.categories, count, e.delete)
    case None => T.CategoryEntry(tag, Lookup(descriptions, tag), None, count, None)
  }

  function CategoryCount(e: T.CategoryEntry): nat { e.count }
  predicate CategoryAssigned(e: T.CategoryEntry) { e.categories.Some? && e.categories.value != [] }
  predicate CategoryDeleted(e: T.CategoryEntry) { e.delete == Some(true) }
  predicate CategoryLess(a: T.CategoryEntry, b: T.CategoryEntry) { ItemLess((a.tag, a.count), (b.tag, b.count)) }

  /**
   * `summarize_classes`: one entry per gathered tag, most used first, and the
   * shares of uses that are assigned categories and that are marked deleted.
   */
  method SummarizeClasses(gathered: map<string, nat>, descriptions: map<string, string>, oldCategories: T.CategoryMap)
    returns (categories: seq<T.CategoryEntry>, assignedPercentage: Option<nat>, deletedPercentage: Option<nat>)
    ensures |categories| == |gathered|
    ensures forall i :: 0 <= i < |categories| ==>
      categories[i].tag in gathered
      && categories[i] == CategoryEntryOf(categories[i].tag, gathered[categories[i].tag], descriptions, oldCategories)
    ensures forall t :: t in gathered ==> exists i :: 0 <= i < |categories| && categories[i].tag == t
    ensures Sorted(categories, CategoryLess)
    ensures assignedPercentage
      == Percentage(SumWhere(categories, CategoryCount, CategoryAssigned), SumAll(categories, CategoryCount))
    ensures deletedPercentage
      == Percentage(SumWhere(categories, CategoryCount, CategoryDeleted), SumAll(categories, CategoryCount))
  {
    var items := SortedItems(gathered);
    var assignedRefs, deletedRefs, all;
    categories, assignedRefs, deletedRefs, all := CategoryRows(items, descriptions, oldCategories);
    CategoryRowsFollowItems(gathered, items, categories, descriptions, oldCategories);
    assignedPercentage := Percentage(assignedRefs, all);
    deletedPercentage := Percentage(deletedRefs, all);
  }

  /** The loop of `summarize_classes`: one entry per item, and the three sums. */
  method CategoryRows(items: seq<(string, nat)>, descriptions: map<string, string>, oldCategories: T.CategoryMap)
    returns (categories: seq<T.CategoryEntry>, assignedRefs: nat, deletedRefs: nat, all: nat)
    ensures |categories| == |items|
    ensures forall j :: 0 <= j < |items| ==> categories[j] == CategoryEntryOf(items[j].0, items[j].1, descriptions, oldCategories)
    ensures assignedRefs == SumWhere(categories, CategoryCount, CategoryAssigned)
    ensures deletedRefs == SumWhere(categories, CategoryCount, CategoryDeleted)
    ensures all == SumAll(categories, CategoryCount)
  {
    categories := [];
    assignedRefs := 0;
    deletedRefs := 0;
    all := 0;
    var i := 0;
    while i < |items|
      invariant 0 <= i <= |items|
      invariant |categories| == i
      invariant forall j :: 0 <= j < i ==> categories[j] == CategoryEntryOf(items[j].0, items[j].1, descriptions, oldCategories)
      invariant assignedRefs == SumWhere(categories, CategoryCount, CategoryAssigned)
      invariant deletedRefs == SumWhere(categories, CategoryCount, CategoryDeleted)
      invariant all == SumAll(categories, CategoryCount)
    {
      var (tag, count) := items[i];
      all := all + count;
      var known := T.CategoryMapGet(oldCategories, tag);
      var entry;
      if known.Some? {
        var e := known.value;
        if e.categories.Some? && e.categories.value != [] {
          assignedRefs := assignedRefs + count;
        }
        if e.delete == Some(true) {
          deletedRefs := deletedRefs + count;
        }
        entry := T.CategoryEntry(tag, Lookup(descriptions, tag), e.categories, count, e.delete);
      } else {
        entry := T.CategoryEntry(tag, Lookup(descriptions, tag), None, count, None);
      }
      assert entry == CategoryEntryOf(items[i].0, items[i].1, descriptions, oldCategories);
      SumsAppend(categories, entry, CategoryCount, CategoryAssigned);
      SumsAppend(categories, entry, CategoryCount, CategoryDeleted);
      categories := categories + [entry];
      i := i + 1;
    }
  }

  lemma CategoryRowsFollowItems(
    gathered: map<string, nat>, items: seq<(string, nat)>, categories: seq<T.CategoryEntry>,
    descriptions: map<string, string>, oldCategories: T.CategoryMap)
    requires ItemsOf(gathered, items) && Sorted(items, ItemLess)
    requires |categories| == |items|
    requires forall j :: 0 <= j < |items| ==> categories[j] == CategoryEntryOf(items[j].0, items[j].1, descriptions, oldCategories)
    ensures forall i :: 0 <= i < |categories| ==>
      categories[i].tag in gathered
      && categories[i] == CategoryEntryOf(categories[i].tag, gathered[categories[i].tag], descriptions, oldCategories)
    ensures forall t :: t in gathered ==> exists i :: 0 <= i < |categories| && categories[i].tag == t
    ensures Sorted(categories, CategoryLess)
  {
    forall i | 0 <= i < |categories|
      ensures categories[i].tag in gathered
        && categories[i] == CategoryEntryOf(categories[i].tag, gathered[categories[i].tag], descriptions, oldCategories)
    {
      assert categories[i].tag == items[i].0 && categories[i].count == items[i].1;
    }
    forall t | t in gathered ensures exists i :: 0 <= i < |categories| && categories[i].tag == t {
      var j :| 0 <= j < |items| && items[j] == (t, gathered[t]);
      assert categories[j].tag == t;
    }
    forall i, j | 0 <= i < j < |categories| ensures !CategoryLess(categories[j], categories[i]) {
      assert (categories[i].tag, categories[i].count) == items[i];
      assert (categories[j].tag, categories[j].count) == items[j];
    }
  }

  // ---------------------------------------------------------------------
  // Open Food Facts

  datatype OffCollector = OffCollector(
    countries: map<string, nat>,
    categories: map<string, nat>,
    records: nat,
    emptySellCount: nat,
    emptyProductionCount: nat,
    emptyCategoryCount: nat)

  function Add(a: nat, b: nat): nat { a + b }

  /** Merging counts adds them tag by tag. */
  lemma MergedCounts(m1: map<string, nat>, m2: map<string, nat>, t: string)
    ensures Count(MergedWith(m1, m2, Add), t) == Count(m1, t) + Count(m2, t)
  {
  }

  /** `OpenFoodFactsCollector::combine`. */
  function OffCombined(o1: OffCollector, o2: OffCollector): OffCollector {
    OffCollector(
      MergedWith(o1.countries, o2.countries, Add),
      MergedWith(o1.categories, o2.categories, Add),
      o1.records + o2.records,
      o1.emptySellCount + o2.emptySellCount,
      o1.emptyProductionCount + o2.emptyProductionCount,
      o1.emptyCategoryCount + o2.emptyCategoryCount)
  }

  /** Combining adds the counts tag by tag, and adds every counter. */
  lemma OffCombinedSpec(o1: OffCollector, o2: OffCollector, t: string)
    ensures var r := OffCombined(o1, o2);
      && Count(r.countries, t) == Count(o1.countries, t) + Count(o2.countries, t)
      && Count(r.categories, t) == Count(o1.categories, t) + Count(o2.categories, t)
      && r.records == o1.records + o2.records
      && r.emptySellCount == o1.emptySellCount + o2.emptySellCount
      && r.emptyProductionCount == o1.emptyProductionCount + o2.emptyProductionCount
      && r.emptyCategoryCount == o1.emptyCategoryCount + o2.emptyCategoryCount
  {
    MergedCounts(o1.countries, o2.countries, t);
    MergedCounts(o1.categories, o2.categories, t);
  }

  method OffCombine(o1: OffCollector, o2: OffCollector) returns (r: OffCollector)
    ensures r == OffCombined(o1, o2)
  {
    var countries := MergeHashmapsWith(o1.countries, o2.countries, Add);
    var categories := MergeHashmapsWith(o1.categories, o2.categories, Add);
    r := OffCollector(
      countries,
      categories,
      o1.records + o2.records,
      o1.emptySellCount + o2.emptySellCount,
      o1.emptyProductionCount + o2.emptyProductionCount,
      o1.emptyCategoryCount + o2.emptyCategoryCount);
  }

  /** The order of combining does not matter. */
  lemma OffCombinedCommutes(o1: OffCollector, o2: OffCollector)
    ensures OffCombined(o1, o2) == OffCombined(o2, o1)
  {
    assert MergedWith(o1.countries, o2.countries, Add) == MergedWith(o2.countries, o1.countries, Add);
    assert MergedWith(o1.categories, o2.categories, Add) == MergedWith(o2.categories, o1.categories, Add);
  }

  /** A record counted: its sell and production tags, its categories, and each empty field. */
  function OffProcessed(c: OffCollector, record: OFF.Record): OffCollector {
    OffTallied(c, OFF.ExtractSellCountries(record), OFF.ExtractProductionCountries(record), OFF.ExtractCategories(record))
  }

  /** The counts after a record with these sell countries, production countries and categories. */
  function OffTallied(c: OffCollector, sell: seq<string>, production: seq<string>, categories: seq<string>): OffCollector {
    OffCollector(
      AddTags(AddTags(c.countries, sell), production),
      AddTags(c.categories, categories),
      c.records + 1,
      c.emptySellCount + (if sell == [] then 1 else 0),
      c.emptyProductionCount + (if production == [] then 1 else 0),
      c.emptyCategoryCount + (if categories == [] then 1 else 0))
  }

  /**
   * A record counts once; each of its sell and production tags adds one to
   * the tag's country count, each category tag one to its category count,
   * and an empty field adds one to its own counter.
   */
  lemma OffProcessedSpec(c: OffCollector, record: OFF.Record, t: string)
    ensures var r := OffProcessed(c, record);
      && r.records == c.records + 1
      && r.emptySellCount == c.emptySellCount + (if OFF.ExtractSellCountries(record) == [] then 1 else 0)
      && r.emptyProductionCount == c.emptyProductionCount + (if OFF.ExtractProductionCountries(record) == [] then 1 else 0)
      && r.emptyCategoryCount == c.emptyCategoryCount + (if OFF.ExtractCategories(record) == [] then 1 else 0)
      && Count(r.countries, t) == Count(c.countries, t)
           + multiset(OFF.ExtractSellCountries(record))[t] + multiset(OFF.ExtractProductionCountries(record))[t]
      && Count(r.categories, t) == Count(c.categories, t) + multiset(OFF.ExtractCategories(record))[t]
  {
    var sell := OFF.ExtractSellCountries(record);
    AddTagsSpec(c.countries, sell, t);
    AddTagsSpec(AddTags(c.countries, sell), OFF.ExtractProductionCountries(record), t);
    AddTagsSpec(c.categories, OFF.ExtractCategories(record), t);
  }

  /** `OpenFoodFactsWorker`: counts the records it is given. */
  class OffWorker {
    var collector: OffCollector

    constructor ()
      ensures collector == OffCollector(map[], map[], 0, 0, 0, 0)
    {
      collector := OffCollector(map[], map[], 0, 0, 0, 0);
    }

    /** `process`. */
    method Process(record: OFF.Record)
      modifies this
      ensures collector == OffProcessed(old(collector), record)
    {
      collector := Tally(collector, OFF.ExtractSellCountries(record), OFF.ExtractProductionCountries(record),
                         OFF.ExtractCategories(record));
    }

    /** The counting part of `process`, on the three extracted lists. */
    static method Tally(c: OffCollector, sell: seq<string>, production: seq<string>, tags: seq<string>)
      returns (c': OffCollector)
      ensures c' == OffTallied(c, sell, production, tags)
    {
      var countries := c.countries;
      var emptySell := c.emptySellCount;
      if sell == [] {
        emptySell := emptySell + 1;
      } else {
        countries := CountTags(countries, sell);
      }
      var emptyProduction := c.emptyProductionCount;
      if production == [] {
        emptyProduction := emptyProduction + 1;
      } else {
        countries := CountTags(countries, production);
      }
      var categories := c.categories;
      var emptyCategory := c.emptyCategoryCount;
      if tags == [] {
        emptyCategory := emptyCategory + 1;
      } else {
        categories := CountTags(categories, tags);
      }
      c' := OffCollector(countries, categories, c.records + 1, emptySell, emptyProduction, emptyCategory);
    }
  }

  // ---------------------------------------------------------------------
  // Stashes

  /** The inputs combined from left to right. */
  function Folded<C>(inputs: seq<C>, combine: (C, C) -> C): C
    requires inputs != []
    decreases |inputs|
  {
    if |inputs| == 1 then inputs[0]
    else combine(Folded(inputs[..|inputs| - 1], combine), inputs[|inputs| - 1])
  }

  /** Stashed Open Food Facts counts add up over every stashed collector. */
  lemma {:induction false} OffFoldedCounts(inputs: seq<OffCollector>, t: string)
    requires inputs != []
    ensures Count(Folded(inputs, OffCombined).countries, t) == SumAll(inputs, (c: OffCollector) => Count(c.countries, t))
    ensures Folded(inputs, OffCombined).records == SumAll(inputs, (c: OffCollector) => c.records)
    decreases |inputs|
  {
    if |inputs| > 1 {
      OffFoldedCounts(inputs[..|inputs| - 1], t);
    } else {
      assert inputs[..0] == [];
    }
  }

  /**
   * `OpenFoodFactsStash` and `WikidataStash`: the first input is stored and
   * every later one combined into it.
   */
  class Stash<C> {
    const combine: (C, C) -> C
    var collector: Option<C>
    ghost var stashed: seq<C>

    ghost predicate Valid()
      reads this
    {
      collector == if stashed == [] then None else Some(Folded(stashed, combine))
    }

    constructor (combine: (C, C) -> C)
      ensures this.combine == combine && collector == None && stashed == [] && Valid()
    {
      this.combine := combine;
      collector := None;
      stashed := [];
    }

    /** `stash`. */
    method Stash(input: C)
      requires Valid()
      modifies this
      ensures stashed == old(stashed) + [input] && Valid()
      ensures collector == Some(if old(collector).Some? then combine(old(collector).value, input) else input)
    {
      if collector.Some? {
        collector := Some(combine(collector.value, input));
      } else {
        collector := Some(input);
      }
      stashed := stashed + [input];
      assert stashed[..|stashed| - 1] == old(stashed);
    }
  }

  // ---------------------------------------------------------------------
  // Wikidata

  datatype WikidataCollector = WikidataCollector(
    countries: map<string, nat>,
    countryDescriptions: map<string, string>,
    classes: map<string, nat>,
    classDescriptions: map<string, string>,
    entries: nat,
    organisations: nat,
    products: nat)

  function KeepFirst(a: string, b: string): string { a }

  /** `WikidataCollector::combine`. */
  function WikidataCombined(o1: WikidataCollector, o2: WikidataCollector): WikidataCollector {
    WikidataCollector(
      MergedWith(o1.countries, o2.countries, Add),
      MergedWith(o1.countryDescriptions, o2.countryDescriptions, KeepFirst),
      MergedWith(o1.classes, o2.classes, Add),
      MergedWith(o1.classDescriptions, o2.classDescriptions, KeepFirst),
      o1.entries + o2.entries,
      o1.organisations + o2.organisations,
      o1.products + o2.products)
  }

  /** Combining adds counts and counters; a description on both sides keeps the left one. */
  lemma WikidataCombinedSpec(o1: WikidataCollector, o2: WikidataCollector, t: string)
    ensures var r := WikidataCombined(o1, o2);
      && Count(r.countries, t) == Count(o1.countries, t) + Count(o2.countries, t)
      && Count(r.classes, t) == Count(o1.classes, t) + Count(o2.classes, t)
      && (t in r.countryDescriptions <==> t in o1.countryDescriptions || t in o2.countryDescriptions)
      && (t in r.countryDescriptions ==>
            r.countryDescriptions[t]
              == if t in o1.countryDescriptions then o1.countryDescriptions[t] else o2.countryDescriptions[t])
      && (t in r.classDescriptions <==> t in o1.classDescriptions || t in o2.classDescriptions)
      && (t in r.classDescriptions ==>
            r.classDescriptions[t]
              == if t in o1.classDescriptions then o1.classDescriptions[t] else o2.classDescriptions[t])
      && r.entries == o1.entries + o2.entries
      && r.organisations == o1.organisations + o2.organisations
      && r.products == o1.products + o2.products
  {
    MergedCounts(o1.countries, o2.countries, t);
    MergedCounts(o1.classes, o2.classes, t);
  }

  method WikidataCombine(o1: WikidataCollector, o2: WikidataCollector) returns (r: WikidataCollector)
    ensures r == WikidataCombined(o1, o2)
  {
    var countries := MergeHashmapsWith(o1.countries, o2.countries, Add);
    var classes := MergeHashmapsWith(o1.classes, o2.classes, Add);
    var countryDescriptions := MergeHashmapsWith(o1.countryDescriptions, o2.countryDescriptions, KeepFirst);
    var classDescriptions := MergeHashmapsWith(o1.classDescriptions, o2.classDescriptions, KeepFirst);
    r := WikidataCollector(
      countries, countryDescriptions, classes, classDescriptions,
      o1.entries + o2.entries, o1.organisations + o2.organisations, o1.products + o2.products);
  }

  /** The tags of an optional list of ids. */
  function OptTags(ids: Option<seq<nat>>, toStrId: nat -> string): seq<string> {
    if ids.None? then [] else seq(|ids.value|, i requires 0 <= i < |ids.value| => toStrId(ids.value[i]))
  }

  /** `process_countries`. */
  function WithCountries(c: WikidataCollector, item: W.Item, toNumId: string -> Option<nat>, toStrId: nat -> string)
    : Result<WikidataCollector, string>
  {
    match W.Countries(item, toNumId)
    case Err(e) => Err(e)
    case Ok(ids) => Ok(c.(countries := AddTags(c.countries, OptTags(ids, toStrId))))
  }

  /** `process_categories`: the classes, then the superclasses. */
  function WithClasses(c: WikidataCollector, item: W.Item, toNumId: string -> Option<nat>, toStrId: nat -> string)
    : Result<WikidataCollector, string>
  {
    match W.Classes(item, toNumId)
    case Err(e) => Err(e)
    case Ok(classes) =>
      match W.Superclasses(item, toNumId)
      case Err(e) => Err(e)
      case Ok(superclasses) =>
        Ok(c.(classes := AddTags(AddTags(c.classes, OptTags(classes, toStrId)), OptTags(superclasses, toStrId))))
  }

  /** `process_countries`, counting with a loop. */
  method ProcessCountries(c: WikidataCollector, item: W.Item, toNumId: string -> Option<nat>, toStrId: nat -> string)
    returns (r: Result<WikidataCollector, string>)
    ensures r == WithCountries(c, item, toNumId, toStrId)
  {
    var countries := W.GetEntityIds(item, W.COUNTRY, toNumId);
    if countries.Err? {
      return Err(countries.error);
    }
    var counted := CountTags(c.countries, OptTags(countries.value, toStrId));
    return Ok(c.(countries := counted));
  }

  /** `process_categories`, counting with a loop. */
  method ProcessCategories(c: WikidataCollector, item: W.Item, toNumId: string -> Option<nat>, toStrId: nat -> string)
    returns (r: Result<WikidataCollector, string>)
    ensures r == WithClasses(c, item, toNumId, toStrId)
  {
    var classes := W.GetEntityIds(item, W.INSTANCE_OF, toNumId);
    if classes.Err? {
      return Err(classes.error);
    }
    var superclasses := W.GetEntityIds(item, W.SUBCLASS_OF, toNumId);
    if superclasses.Err? {
      return Err(superclasses.error);
    }
    var counted := CountTags(c.classes, OptTags(classes.value, toStrId));
    counted := CountTags(counted, OptTags(superclasses.value, toStrId));
    return Ok(c.(classes := counted));
  }

  /** `process_country` and `process_class`: the English label describes a known tag. */
  function WithDescriptions(c: WikidataCollector, tag: string, item: W.Item, regions: T.RegionMap, categories: T.CategoryMap)
    : WikidataCollector
  {
    var english := W.GetLabel(item, W.LANG_EN);
    var c1 := if T.RegionMapContainsTag(regions, tag) && english.Some?
      then c.(countryDescriptions := c.countryDescriptions[tag := english.value]) else c;
    if T.CategoryMapContainsTag(categories, tag) && english.Some?
    then c1.(classDescriptions := c1.classDescriptions[tag := english.value]) else c1
  }

  /** The producer part of `process`: an organisation counted, with its countries. */
  function ProducerStep(c: WikidataCollector, item: W.Item, producerIds: set<WikiId>, toNumId: string -> Option<nat>, toStrId: nat -> string)
    : Result<WikidataCollector, string>
  {
    if item.id in producerIds then WithCountries(c.(organisations := c.organisations + 1), item, toNumId, toStrId) else Ok(c)
  }

  /** The product part of `process`: a product counted, with its classes. */
  function ProductStep(c: WikidataCollector, item: W.Item, productIds: set<WikiId>, toNumId: string -> Option<nat>, toStrId: nat -> string)
    : Result<WikidataCollector, string>
  {
    if item.id in productIds then WithClasses(c.(products := c.products + 1), item, toNumId, toStrId) else Ok(c)
  }

  /** What `process` does with an item, after counting the entry. */
  function ItemProcessed(
    c: WikidataCollector, item: W.Item, producerIds: set<WikiId>, productIds: set<WikiId>,
    regions: T.RegionMap, categories: T.CategoryMap, toNumId: string -> Option<nat>, toStrId: nat -> string)
    : Result<WikidataCollector, string>
  {
    match ProducerStep(c, item, producerIds, toNumId, toStrId)
    case Err(e) => Err(e)
    case Ok(c1) =>
      match ProductStep(c1, item, productIds, toNumId, toStrId)
      case Err(e) => Err(e)
      case Ok(c2) => Ok(WithDescriptions(c2, toStrId(item.id.value), item, regions, categories))
  }

  lemma ProducerStepSpec(c: WikidataCollector, item: W.Item, producerIds: set<WikiId>, toNumId: string -> Option<nat>, toStrId: nat -> string, t: string)
    requires ProducerStep(c, item, producerIds, toNumId, toStrId).Ok?
    ensures var r := ProducerStep(c, item, producerIds, toNumId, toStrId).value;
      && r.organisations == c.organisations + (if item.id in producerIds then 1 else 0)
      && r.entries == c.entries && r.products == c.products && r.classes == c.classes
      && Count(r.countries, t) == Count(c.countries, t)
           + (if item.id in producerIds then multiset(OptTags(W.Countries(item, toNumId).value, toStrId))[t] else 0)
  {
    if item.id in producerIds {
      AddTagsSpec(c.countries, OptTags(W.Countries(item, toNumId).value, toStrId), t);
    }
  }

  lemma ProductStepSpec(c: WikidataCollector, item: W.Item, productIds: set<WikiId>, toNumId: string -> Option<nat>, toStrId: nat -> string)
    requires ProductStep(c, item, productIds, toNumId, toStrId).Ok?
    ensures var r := ProductStep(c, item, productIds, toNumId, toStrId).value;
      && r.products == c.products + (if item.id in productIds then 1 else 0)
      && r.entries == c.entries && r.organisations == c.organisations && r.countries == c.countries
      && (item.id !in productIds ==> r.classes == c.classes)
  {
  }

  /**
   * Producers count as organisations and have their countries counted,
   * products count as products and have their classes counted; the other
   * counters do not move.
   */
  lemma ItemProcessedCounts(
    c: WikidataCollector, item: W.Item, producerIds: set<WikiId>, productIds: set<WikiId>,
    regions: T.RegionMap, categories: T.CategoryMap, toNumId: string -> Option<nat>, toStrId: nat -> string, t: string)
    requires ItemProcessed(c, item, producerIds, productIds, regions, categories, toNumId, toStrId).Ok?
    ensures var r := ItemProcessed(c, item, producerIds, productIds, regions, categories, toNumId, toStrId).value;
      && r.entries == c.entries
      && r.organisations == c.organisations + (if item.id in producerIds then 1 else 0)
      && r.products == c.products + (if item.id in productIds then 1 else 0)
      && Count(r.countries, t) == Count(c.countries, t)
           + (if item.id in producerIds then multiset(OptTags(W.Countries(item, toNumId).value, toStrId))[t] else 0)
      && (item.id !in productIds ==> r.classes == c.classes)
  {
    var c1 := ProducerStep(c, item, producerIds, toNumId, toStrId).value;
    ProducerStepSpec(c, item, producerIds, toNumId, toStrId, t);
    ProductStepSpec(c1, item, productIds, toNumId, toStrId);
  }

  /** `WikidataWorker`: counts the entities it is given. */
  class WikidataWorker {
    var collector: WikidataCollector
    const producerIds: set<WikiId>
    const productIds: set<WikiId>
    const regions: T.RegionMap
    const categories: T.CategoryMap

    constructor (substrates: A.SubstrateAdvisor, regions: T.RegionMap, categories: T.CategoryMap)
      ensures collector == WikidataCollector(map[], map[], map[], map[], 0, 0, 0)
      ensures producerIds == substrates.producerWikiIds && productIds == substrates.productWikiIds
      ensures this.regions == regions && this.categories == categories
    {
      collector := WikidataCollector(map[], map[], map[], map[], 0, 0, 0);
      producerIds := substrates.producerWikiIds;
      productIds := substrates.productWikiIds;
      this.regions := regions;
      this.categories := categories;
    }

    /** `process`: an entity is counted; an item is processed, a property ignored. */
    method Process(entity: Option<W.Item>, toNumId: string -> Option<nat>, toStrId: nat -> string)
      returns (r: Result<(), string>)
      modifies this
      ensures var counted := old(collector).(entries := old(collector).entries + 1);
        match entity
        case None => r == Ok(()) && collector == counted
        case Some(item) =>
          var processed := ItemProcessed(counted, item, producerIds, productIds, regions, categories, toNumId, toStrId);
          && (r.Ok? <==> processed.Ok?)
          && (r.Err? ==> r.error == processed.error)
          && (r.Ok? ==> collector == processed.value)
    {
      var counted := collector.(entries := collector.entries + 1);
      collector := counted;
      if entity.None? {
        return Ok(());
      }
      var item := entity.value;
      var c1 := ProcessProducer(counted, item, producerIds, toNumId, toStrId);
      if c1.Err? {
        return Err(c1.error);
      }
      var c2 := ProcessProduct(c1.value, item, productIds, toNumId, toStrId);
      if c2.Err? {
        return Err(c2.error);
      }
      collector := WithDescriptions(c2.value, toStrId(item.id.value), item, regions, categories);
      return Ok(());
    }
  }

  /** The producer branch of `process`, run only for known producers. */
  method ProcessProducer(c: WikidataCollector, item: W.Item, producerIds: set<WikiId>,
                         toNumId: string -> Option<nat>, toStrId: nat -> string)
    returns (r: Result<WikidataCollector, string>)
    ensures r == ProducerStep(c, item, producerIds, toNumId, toStrId)
  {
    if item.id in producerIds {
      r := ProcessCountries(c.(organisations := c.organisations + 1), item, toNumId, toStrId);
    } else {
      r := Ok(c);
    }
  }

  /** The product branch of `process`, run only for known products. */
  method ProcessProduct(c: WikidataCollector, item: W.Item, productIds: set<WikiId>,
                        toNumId: string -> Option<nat>, toStrId: nat -> string)
    returns (r: Result<WikidataCollector, string>)
    ensures r == ProductStep(c, item, productIds, toNumId, toStrId)
  {
    if item.id in productIds {
      r := ProcessCategories(c.(products := c.products + 1), item, toNumId, toStrId);
    } else {
      r := Ok(c);
    }
  }

  // ---------------------------------------------------------------------
  // BCorp

  function RecordCountry(r: A.BCorpRecord): string { r.country }

  /** The country counts of `BCorpsWorker::process`. */
  method CountBCorpCountries(records: seq<A.BCorpRecord>) returns (gathered: map<string, nat>)
    ensures gathered == AddTags(map[], seq(|records|, i requires 0 <= i < |records| => records[i].country))
  {
    var countries := seq(|records|, i requires 0 <= i < |records| => records[i].country);
    gathered := CountTags(map[], countries);
  }
}
