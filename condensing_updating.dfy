/**
 * Updating the Open Food Facts country file in the condensing crate:
 * parallel collectors count how often each sell-country tag is used and how
 * many records have none, their counts are merged, and the result is listed
 * most used first with the regions the current mapping gives each tag.
 * Writing the file and printing the summary are not part of this model; the
 * printed percentage is returned instead.
 */
module CondensingUpdating {
  import opened Wrappers
  import opened Ordering
  import opened LabUtils
  import MM = ModelsModels
  import OFF = CollectingOpenFoodFacts
  import U = LabUpdating

  /** `UpdateCollector`: uses per country tag, and records without any. */
  class UpdateCollector {
    var countries: map<string, nat>
    var emptyCount: nat

    /** `UpdateCollector::default`. */
    constructor ()
      ensures countries == map[] && emptyCount == 0
    {
      countries := map[];
      emptyCount := 0;
    }

    /** `merge`: the counts are added tag by tag, and the empty counts added. */
    method Merge(other: UpdateCollector)
      requires other != this
      modifies this
      ensures countries == MergedWith(old(countries), other.countries, U.Add)
      ensures emptyCount == old(emptyCount) + other.emptyCount
    {
      countries := MergeHashmapsWith(countries, other.countries, U.Add);
      emptyCount := emptyCount + other.emptyCount;
    }

    /**
     * `process_open_food_facts_record`: a record without sell countries adds
     * one to the empty count; otherwise each of its tags adds one to its count.
     */
    method ProcessRecord(record: OFF.Record)
      modifies this
      ensures var tags := OFF.ExtractSellCountries(record);
        && emptyCount == old(emptyCount) + (if tags == [] then 1 else 0)
        && countries == U.AddTags(old(countries), tags)
    {
      var tags := OFF.ExtractSellCountries(record);
      if tags == [] {
        emptyCount := emptyCount + 1;
      } else {
        countries := U.CountTags(countries, tags);
      }
    }
  }

  /** Merging adds the counts of every tag, whichever side has it. */
  lemma MergedCountsSpec(m1: map<string, nat>, m2: map<string, nat>, t: string)
    ensures U.Count(MergedWith(m1, m2, U.Add), t) == U.Count(m1, t) + U.Count(m2, t)
    ensures t in MergedWith(m1, m2, U.Add) <==> t in m1 || t in m2
    ensures MergedWith(m1, m2, U.Add) == MergedWith(m2, m1, U.Add)
  {
    U.MergedCounts(m1, m2, t);
  }

  /** A processed record counts every occurrence of each of its sell tags, and nothing else. */
  lemma ProcessedCountsSpec(m: map<string, nat>, record: OFF.Record, t: string)
    ensures U.Count(U.AddTags(m, OFF.ExtractSellCountries(record)), t) == U.Count(m, t) + multiset(OFF.ExtractSellCountries(record))[t]
    ensures t in U.AddTags(m, OFF.ExtractSellCountries(record)) <==> t in m || t in OFF.ExtractSellCountries(record)
  {
    U.AddTagsSpec(m, OFF.ExtractSellCountries(record), t);
  }

  // ---------------------------------------------------------------------
  // Finalizing

  /** `open_food_facts::data::CountryEntry`. */
  datatype CountryEntry = CountryEntry(tag: string, regions: Option<MM.Regions>, count: nat)

  /** `sort_by(|a, b| b.1.cmp(&a.1))`: more uses first; equal counts are incomparable. */
  predicate MoreUsed(a: (string, nat), b: (string, nat)) {
    a.1 > b.1
  }

  lemma MoreUsedIsStrictWeakOrder()
    ensures IsStrictWeakOrder(MoreUsed)
  {
  }

  function EntryCount(e: CountryEntry): nat { e.count }
  predicate EntryAssigned(e: CountryEntry) { e.regions.Some? }

  /** The entry of a tag: the regions the Open Food Facts advisor gives it, if any. */
  function EntryOf(tag: string, count: nat, countryToRegions: map<string, MM.Regions>): CountryEntry {
    CountryEntry(tag, if tag in countryToRegions then Some(countryToRegions[tag]) else None, count)
  }

  /**
   * `finalize`: one entry per counted tag, with its count, most used first,
   * and the percentage of uses whose tag the advisor maps; that percentage
   * is undefined when nothing was counted.
   */
  method Finalize(collector: UpdateCollector, countryToRegions: map<string, MM.Regions>)
    returns (countries: seq<CountryEntry>, percentage: Option<nat>)
    ensures |countries| == |collector.countries|
    ensures forall i :: 0 <= i < |countries| ==>
      countries[i].tag in collector.countries
      && countries[i] == EntryOf(countries[i].tag, collector.countries[countries[i].tag], countryToRegions)
    ensures forall t :: t in collector.countries ==> exists i :: 0 <= i < |countries| && countries[i].tag == t
    ensures forall i, j :: 0 <= i < j < |countries| ==> countries[i].count >= countries[j].count
    ensures percentage == U.Percentage(U.SumWhere(countries, EntryCount, EntryAssigned), U.SumAll(countries, EntryCount))
    ensures percentage.Some? ==> percentage.value <= 100
  {
    var items := SortedByUse(collector.countries);
    var assignedUses, all;
    countries, assignedUses, all := CountryRows(items, countryToRegions);
    RowsFollowItems(collector.countries, items, countries, countryToRegions);
    percentage := U.Percentage(assignedUses, all);
    U.SumWhereAtMost(countries, EntryCount, EntryAssigned);
    U.PercentageAtMost100(assignedUses, all);
  }

  /** The counts drained into a vector and sorted by `MoreUsed`. */
  method SortedByUse(m: map<string, nat>) returns (items: seq<(string, nat)>)
    ensures U.ItemsOf(m, items) && Sorted(items, MoreUsed)
  {
    var keys := Elements(m.Keys);
    var drained := seq(|keys|, i requires 0 <= i < |keys| => (keys[i], m[keys[i]]));
    U.DrainedItems(m, keys, drained);
    items := Sort(drained, MoreUsed);
    MoreUsedIsStrictWeakOrder();
    SortSorted(drained, MoreUsed);
    U.PermutationItems(m, drained, items);
  }

  lemma RowsFollowItems(m: map<string, nat>, items: seq<(string, nat)>, countries: seq<CountryEntry>,
                        countryToRegions: map<string, MM.Regions>)
    requires U.ItemsOf(m, items) && Sorted(items, MoreUsed)
    requires |countries| == |items|
    requires forall j :: 0 <= j < |items| ==> countries[j] == EntryOf(items[j].0, items[j].1, countryToRegions)
    ensures |countries| == |m|
    ensures forall i :: 0 <= i < |countries| ==>
      countries[i].tag in m && countries[i] == EntryOf(countries[i].tag, m[countries[i].tag], countryToRegions)
    ensures forall t :: t in m ==> exists i :: 0 <= i < |countries| && countries[i].tag == t
    ensures forall i, j :: 0 <= i < j < |countries| ==> countries[i].count >= countries[j].count
  {
    forall t | t in m ensures exists i :: 0 <= i < |countries| && countries[i].tag == t {
      var j :| 0 <= j < |items| && items[j] == (t, m[t]);
      assert countries[j].tag == t;
    }
    forall i, j | 0 <= i < j < |countries| ensures countries[i].count >= countries[j].count {
      assert !MoreUsed(items[j], items[i]);
    }
  }

  /** The loop of `finalize`: one entry per item, and the sums of assignedUses and of all uses. */
  method CountryRows(items: seq<(string, nat)>, countryToRegions: map<string, MM.Regions>)
    returns (countries: seq<CountryEntry>, assignedUses: nat, all: nat)
    ensures |countries| == |items|
    ensures forall j :: 0 <= j < |items| ==> countries[j] == EntryOf(items[j].0, items[j].1, countryToRegions)
    ensures assignedUses == U.SumWhere(countries, EntryCount, EntryAssigned)
    ensures all == U.SumAll(countries, EntryCount)
  {
    countries := [];
    assignedUses := 0;
    all := 0;
    var i := 0;
    while i < |items|
      invariant 0 <= i <= |items|
      invariant |countries| == i
      invariant forall j :: 0 <= j < i ==> countries[j] == EntryOf(items[j].0, items[j].1, countryToRegions)
      invariant assignedUses == U.SumWhere(countries, EntryCount, EntryAssigned)
      invariant all == U.SumAll(countries, EntryCount)
    {
      var (tag, count) := items[i];
      var regions := if tag in countryToRegions then Some(countryToRegions[tag]) else None;
      if regions.Some? {
        assignedUses := assignedUses + count;
      }
      all := all + count;
      var entry := CountryEntry(tag, regions, count);
      assert (countries + [entry])[..i] == countries;
      countries := countries + [entry];
      i := i + 1;
    }
  }
}
