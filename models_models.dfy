/**
 * Records of the models crate: data sources, multi-maps from ids to the
 * sources that mention them, regions, certifications and category paths.
 */
module ModelsModels {
  import opened Wrappers
  import opened Text
  import opened Ordering
  import opened ModelsCombine

  // ---------------------------------------------------------------------
  // Source

  /** A source of data; the ones without special processing are `Other`. */
  datatype Source =
    | Transpaer | BCorp | EuEcolabel | Fti | OpenFoodFacts | OpenFoodRepo
    | Tco | Wikidata | SimpleEnvironmentalist | Other

  /** The stems that name a source with special processing. */
  const KnownStems: set<string> := {
    "transpaer", "bcorp", "eu_ecolabel", "fti", "open_food_facts",
    "open_food_repo", "tco", "wikidata", "simple_environmentalist"
  }

  /** `Source::from_stem`. */
  function FromStem(stem: string): (r: Source)
    ensures r.Other? <==> stem !in KnownStems
  {
    match stem
    case "transpaer" => Transpaer
    case "bcorp" => BCorp
    case "eu_ecolabel" => EuEcolabel
    case "fti" => Fti
    case "open_food_facts" => OpenFoodFacts
    case "open_food_repo" => OpenFoodRepo
    case "tco" => Tco
    case "wikidata" => Wikidata
    case "simple_environmentalist" => SimpleEnvironmentalist
    case _ => Other
  }

  /** `Source::to_label`: reading the label back with `from_stem` gives the same source. */
  function ToLabel(s: Source): (r: string)
    ensures FromStem(r) == s
    ensures r in KnownStems <==> !s.Other?
  {
    match s
    case Transpaer => "transpaer"
    case BCorp => "bcorp"
    case EuEcolabel => "eu_ecolabel"
    case Fti => "fti"
    case OpenFoodFacts => "open_food_facts"
    case OpenFoodRepo => "open_food_repo"
    case Tco => "tco"
    case Wikidata => "wikidata"
    case SimpleEnvironmentalist => "simple_environmentalist"
    case Other => "other"
  }

  /** Every known stem names the source whose label it is. */
  lemma ToLabelFromStem(stem: string)
    requires stem in KnownStems
    ensures ToLabel(FromStem(stem)) == stem
  {
  }

  /** The position of a source in its declaration, which the derived `Ord` follows. */
  function SourceRank(s: Source): (r: nat)
    ensures r < 10
    ensures s.Other? <==> r == 9
  {
    match s
    case Transpaer => 0
    case BCorp => 1
    case EuEcolabel => 2
    case Fti => 3
    case OpenFoodFacts => 4
    case OpenFoodRepo => 5
    case Tco => 6
    case Wikidata => 7
    case SimpleEnvironmentalist => 8
    case Other => 9
  }

  predicate SourceLess(a: Source, b: Source) {
    SourceRank(a) < SourceRank(b)
  }

  /** All sources in declaration order. */
  const AllSources: seq<Source> := [
    Transpaer, BCorp, EuEcolabel, Fti, OpenFoodFacts, OpenFoodRepo,
    Tco, Wikidata, SimpleEnvironmentalist, Other
  ]

  lemma AllSourcesOrdered()
    ensures StrictlySorted(AllSources, SourceLess)
    ensures forall s :: s in AllSources
    ensures forall i :: 0 <= i < |AllSources| ==> SourceRank(AllSources[i]) == i
  {
    AllSourcesRanks();
    forall s ensures s in AllSources {
      SourceAtRank(s);
    }
  }

  lemma AllSourcesRanks()
    ensures |AllSources| == 10
    ensures forall i :: 0 <= i < |AllSources| ==> SourceRank(AllSources[i]) == i
  {
  }

  lemma SourceAtRank(s: Source)
    ensures SourceRank(s) < |AllSources| && AllSources[SourceRank(s)] == s
  {
  }

  // ---------------------------------------------------------------------
  // MultiMap

  /** The set stored under `k`, or the empty set when `k` is absent. */
  function Get<K, V>(m: map<K, set<V>>, k: K): set<V> {
    if k in m then m[k] else {}
  }

  /** The key-wise union of two maps of sets. */
  function Union<K, V>(m1: map<K, set<V>>, m2: map<K, set<V>>): map<K, set<V>> {
    map k | k in m1.Keys + m2.Keys :: Get(m1, k) + Get(m2, k)
  }

  /** What `insert` leaves behind: `value` added to the set under `key`. */
  function Inserted<K, V>(m: map<K, set<V>>, key: K, value: V): map<K, set<V>> {
    m[key := Get(m, key) + {value}]
  }

  lemma GetUnion<K, V>(m1: map<K, set<V>>, m2: map<K, set<V>>, k: K)
    ensures Get(Union(m1, m2), k) == Get(m1, k) + Get(m2, k)
  {
  }

  lemma UnionCommutative<K, V>(m1: map<K, set<V>>, m2: map<K, set<V>>)
    ensures Union(m1, m2) == Union(m2, m1)
  {
    var l := Union(m1, m2);
    var r := Union(m2, m1);
    assert l.Keys == r.Keys;
    forall k | k in l ensures l[k] == r[k] { }
  }

  /** The empty multi-map changes nothing, and neither does combining a map with itself. */
  lemma UnionIdentity<K, V>(m: map<K, set<V>>)
    ensures Union(m, map[]) == m && Union(map[], m) == m
    ensures Union(m, m) == m
  {
    UnionWithEmpty(m);
    UnionCommutative(m, map[]);
    UnionWithSelf(m);
  }

  lemma UnionWithEmpty<K, V>(m: map<K, set<V>>)
    ensures Union(m, map[]) == m
  {
    var a := Union(m, map[]);
    assert a.Keys == m.Keys;
    forall k | k in m ensures a[k] == m[k] { }
  }

  lemma UnionWithSelf<K, V>(m: map<K, set<V>>)
    ensures Union(m, m) == m
  {
    var c := Union(m, m);
    assert c.Keys == m.Keys;
    forall k | k in m ensures c[k] == m[k] { }
  }

  /** Inserting one value is combining with a one-entry multi-map. */
  lemma InsertedIsUnion<K, V>(m: map<K, set<V>>, key: K, value: V)
    ensures Inserted(m, key, value) == Union(m, map[key := {value}])
  {
    var l, r := Inserted(m, key, value), Union(m, map[key := {value}]);
    assert l.Keys == r.Keys;
    forall k | k in l ensures l[k] == r[k] { }
  }

  /** `MultiMap`: a map from keys to non-empty-on-insert sets of values. */
  class MultiMap<K(==), V(==)> {
    var entries: map<K, set<V>>

    /** `MultiMap::new_empty`. */
    constructor Empty()
      ensures entries == map[]
    {
      entries := map[];
    }

    /** `MultiMap::new_from_map`. */
    constructor FromMap(m: map<K, set<V>>)
      ensures entries == m
    {
      entries := m;
    }

    /** `MultiMap::insert`: `value` joins the set under `key`; the other keys keep their sets. */
    method Insert(key: K, value: V)
      modifies this
      ensures entries == Inserted(old(entries), key, value)
      ensures key in entries && value in entries[key]
      ensures forall k :: k in old(entries) && k != key ==> k in entries && entries[k] == old(entries)[k]
      ensures entries.Keys == old(entries).Keys + {key}
    {
      if key in entries {
        entries := entries[key := entries[key] + {value}];
      } else {
        assert Get(entries, key) + {value} == {value};
        entries := entries[key := {value}];
      }
    }

    /** `Combine for MultiMap`: every entry of `other` is merged into this one, key by key. */
    method Combine(other: MultiMap<K, V>)
      requires other != this
      modifies this
      ensures entries == Union(old(entries), other.entries)
    {
      var m := entries;
      var o := other.entries;
      ghost var m0 := m;
      var todo := o.Keys;
      ghost var done: set<K> := {};
      while todo != {}
        invariant done + todo == o.Keys && done !! todo
        invariant m.Keys == m0.Keys + done
        invariant forall k :: k in m ==> m[k] == Get(m0, k) + (if k in done then o[k] else {})
        decreases todo
      {
        var key :| key in todo;
        if key in m {
          m := m[key := m[key] + o[key]];
        } else {
          m := m[key := o[key]];
        }
        todo := todo - {key};
        done := done + {key};
      }
      UnionIs(m0, o, m);
      entries := m;
    }
  }

  /** A map with the keys of both sides holding both sides' sets is their union. */
  lemma UnionIs<K, V>(m1: map<K, set<V>>, m2: map<K, set<V>>, m: map<K, set<V>>)
    requires m.Keys == m1.Keys + m2.Keys
    requires forall k :: k in m ==> m[k] == Get(m1, k) + (if k in m2 then m2[k] else {})
    ensures m == Union(m1, m2)
  {
    var u := Union(m1, m2);
    assert m.Keys == u.Keys;
    forall k | k in m ensures m[k] == u[k] { }
  }

  /** The values stored under any key. */
  ghost function AllValues<K, V>(m: map<K, set<V>>): set<V> {
    set k, v | k in m && v in m[k] :: v
  }

  /**
   * `collect_sources`: every source mentioned under any key, once each, in
   * the declaration order of `Source`.
   */
  method CollectSources<K(==)>(mm: MultiMap<K, Source>) returns (r: seq<Source>)
    ensures StrictlySorted(r, SourceLess)
    ensures forall s :: s in r <==> s in AllValues(mm.entries)
  {
    var found: set<Source> := {};
    var todo := mm.entries.Keys;
    while todo != {}
      invariant todo <= mm.entries.Keys
      invariant found == set k, v | k in mm.entries.Keys - todo && v in mm.entries[k] :: v
      decreases todo
    {
      var key :| key in todo;
      found := found + mm.entries[key];
      todo := todo - {key};
    }
    assert found == AllValues(mm.entries);
    r := [];
    var i := 0;
    while i < |AllSources|
      invariant 0 <= i <= |AllSources|
      invariant StrictlySorted(r, SourceLess)
      invariant forall j :: 0 <= j < |r| ==> SourceRank(r[j]) < i
      invariant forall s :: s in r <==> s in found && SourceRank(s) < i
    {
      AllSourcesOrdered();
      if AllSources[i] in found {
        r := r + [AllSources[i]];
      }
      i := i + 1;
    }
    AllSourcesOrdered();
  }

  // ---------------------------------------------------------------------
  // Regions

  /** An ISO 3166-1 country code, kept abstract: only its position in the code list matters. */
  datatype Country = Country(rank: nat)

  predicate CountryLess(a: Country, b: Country) {
    a.rank < b.rank
  }

  lemma CountryLessIsStrictTotalOrder()
    ensures IsStrictTotalOrder(CountryLess)
  {
  }

  datatype Regions = World | Unknown | List(codes: seq<Country>)

  /** `Combine for Regions`. */
  function CombineRegions(o1: Regions, o2: Regions): Regions {
    match o2
    case World => o2
    case Unknown => o1
    case List(list2) =>
      match o1
      case World => o1
      case Unknown => o2
      case List(list1) => List(SortDedup(list1 + list2, CountryLess))
  }

  /** World absorbs anything and Unknown changes nothing, on either side. */
  lemma CombineRegionsWorldUnknown(r: Regions)
    ensures CombineRegions(World, r) == World && CombineRegions(r, World) == World
    ensures CombineRegions(Unknown, r) == r && CombineRegions(r, Unknown) == r
  {
  }

  /** Two lists give the strictly ordered union of their codes. */
  lemma CombineRegionsLists(l1: seq<Country>, l2: seq<Country>)
    ensures CombineRegions(List(l1), List(l2)).List?
    ensures StrictlySorted(CombineRegions(List(l1), List(l2)).codes, CountryLess)
    ensures forall c :: c in CombineRegions(List(l1), List(l2)).codes <==> c in l1 || c in l2
  {
    CountryLessIsStrictTotalOrder();
    SortDedupSpec(l1 + l2, CountryLess);
  }

  lemma CombineRegionsCommutative(r1: Regions, r2: Regions)
    ensures CombineRegions(r1, r2) == CombineRegions(r2, r1)
  {
    if r1.List? && r2.List? {
      CombineListsCommutative(r1.codes, r2.codes);
    }
  }

  lemma CombineListsCommutative(l1: seq<Country>, l2: seq<Country>)
    ensures CombineRegions(List(l1), List(l2)) == CombineRegions(List(l2), List(l1))
  {
    CombineRegionsLists(l1, l2);
    CombineRegionsLists(l2, l1);
    var a, b := SortDedup(l1 + l2, CountryLess), SortDedup(l2 + l1, CountryLess);
    assert CombineRegions(List(l1), List(l2)) == List(a);
    assert CombineRegions(List(l2), List(l1)) == List(b);
    StrictlySortedUnique(a, b, CountryLess);
  }

  // ---------------------------------------------------------------------
  // Certifications

  datatype BCorpCert = BCorpCert(id: string, reportUrl: string)
  datatype EuEcolabelCert = EuEcolabelCert
  datatype FtiCert = FtiCert(score: int)
  datatype TcoCert = TcoCert(brandName: string)

  datatype Certifications = Certifications(
    bcorp: Option<BCorpCert>,
    euEcolabel: Option<EuEcolabelCert>,
    fti: Option<FtiCert>,
    tco: Option<TcoCert>)

  /** The names of the certifications present. */
  function PresentCertifications(c: Certifications): set<string> {
    (if c.bcorp.Some? then {"bcorp"} else {})
    + (if c.euEcolabel.Some? then {"eu_ecolabel"} else {})
    + (if c.fti.Some? then {"fti"} else {})
    + (if c.tco.Some? then {"tco"} else {})
  }

  /** `get_num`: how many certifications are present. */
  function GetNum(c: Certifications): (r: nat)
    ensures r == |PresentCertifications(c)|
    ensures r <= 4
    ensures r == 0 <==> c.bcorp.None? && c.euEcolabel.None? && c.fti.None? && c.tco.None?
  {
    (if c.bcorp.Some? then 1 else 0) + (if c.euEcolabel.Some? then 1 else 0)
    + (if c.fti.Some? then 1 else 0) + (if c.tco.Some? then 1 else 0)
  }

  /**
   * `inherit`: the new value of `self` after copying bcorp, fti and tco from
   * `other` where `other` has them. EU Ecolabel is never inherited.
   */
  function Inherit(self: Certifications, other: Certifications): (r: Certifications)
    ensures r.euEcolabel == self.euEcolabel
    ensures r.bcorp == (if other.bcorp.Some? then other.bcorp else self.bcorp)
    ensures r.fti == (if other.fti.Some? then other.fti else self.fti)
    ensures r.tco == (if other.tco.Some? then other.tco else self.tco)
  {
    var c1 := if other.bcorp.Some? then self.(bcorp := other.bcorp) else self;
    var c2 := if other.fti.Some? then c1.(fti := other.fti) else c1;
    if other.tco.Some? then c2.(tco := other.tco) else c2
  }

  /** `Combine for Certifications`: field by field, the left one wins. */
  function CombineCertifications(c1: Certifications, c2: Certifications): Certifications {
    Certifications(
      CombineOption(c1.bcorp, c2.bcorp),
      CombineOption(c1.euEcolabel, c2.euEcolabel),
      CombineOption(c1.fti, c2.fti),
      CombineOption(c1.tco, c2.tco))
  }

  /** Inheriting never loses a certification, and inheriting twice is inheriting once. */
  lemma InheritMonotone(self: Certifications, other: Certifications)
    ensures PresentCertifications(self) <= PresentCertifications(Inherit(self, other))
    ensures GetNum(self) <= GetNum(Inherit(self, other))
    ensures Inherit(Inherit(self, other), other) == Inherit(self, other)
  {
    var r := Inherit(self, other);
    assert PresentCertifications(self) <= PresentCertifications(r);
    assert |PresentCertifications(self)| <= |PresentCertifications(r)| by {
      SubsetCard(PresentCertifications(self), PresentCertifications(r));
    }
  }

  lemma {:induction false} SubsetCard<T>(a: set<T>, b: set<T>)
    requires a <= b
    ensures |a| <= |b|
  {
    if a != {} {
      var x :| x in a;
      SubsetCard(a - {x}, b - {x});
    }
  }

  /** The combination holds every certification either side holds, left one first. */
  lemma CombineCertificationsSpec(c1: Certifications, c2: Certifications)
    ensures PresentCertifications(CombineCertifications(c1, c2))
            == PresentCertifications(c1) + PresentCertifications(c2)
    ensures CombineCertifications(c1, c1) == c1
    ensures CombineCertifications(c1, Certifications(None, None, None, None)) == c1
    ensures Inherit(c1, c2).bcorp == CombineCertifications(c2, c1).bcorp
  {
    PresentOfCombined(c1, c2);
  }

  lemma PresentOfCombined(c1: Certifications, c2: Certifications)
    ensures PresentCertifications(CombineCertifications(c1, c2))
            == PresentCertifications(c1) + PresentCertifications(c2)
  {
    var r := CombineCertifications(c1, c2);
    assert r.bcorp.Some? == (c1.bcorp.Some? || c2.bcorp.Some?);
    assert r.euEcolabel.Some? == (c1.euEcolabel.Some? || c2.euEcolabel.Some?);
    assert r.fti.Some? == (c1.fti.Some? || c2.fti.Some?);
    assert r.tco.Some? == (c1.tco.Some? || c2.tco.Some?);
  }

  // ---------------------------------------------------------------------
  // Category paths

  /** The buffer of `all_categories` after a first part and any later one. */
  function Extend(buffer: string, part: string, sep: char): string {
    (if buffer == [] then [] else buffer + [sep]) + part
  }

  /** The buffer of `all_categories` after the first `i` parts of a category. */
  function Buffer(parts: seq<string>, i: nat, sep: char): string
    requires i <= |parts|
  {
    if i == 0 then [] else Extend(Buffer(parts, i - 1, sep), parts[i - 1], sep)
  }

  /** The buffers after each of the first `j` parts. */
  function BuffersUpTo(parts: seq<string>, j: nat, sep: char): set<string>
    requires j <= |parts|
  {
    set i | 1 <= i <= j :: Buffer(parts, i, sep)
  }

  lemma BuffersUpToStep(parts: seq<string>, j: nat, sep: char)
    requires j < |parts|
    ensures BuffersUpTo(parts, j + 1, sep) == BuffersUpTo(parts, j, sep) + {Buffer(parts, j + 1, sep)}
  {
    var l := BuffersUpTo(parts, j + 1, sep);
    var r := BuffersUpTo(parts, j, sep) + {Buffer(parts, j + 1, sep)};
    forall p | p in l ensures p in r {
      var i :| 1 <= i <= j + 1 && p == Buffer(parts, i, sep);
    }
  }

  /** The paths `all_categories` inserts for one category. */
  function PathsOf(c: string, sep: char): set<string> {
    BuffersUpTo(Split(c, sep), |Split(c, sep)|, sep)
  }

  /** The category paths `all_categories` inserts for the given keys. */
  ghost function CategoryPaths(keys: set<string>, sep: char): set<string> {
    set c, p | c in keys && p in PathsOf(c, sep) :: p
  }

  /** `GatherProduct::all_categories`: every buffer state, for every category key. */
  method AllCategories(keys: set<string>, sep: char) returns (result: set<string>)
    ensures result == CategoryPaths(keys, sep)
  {
    result := {};
    var todo := keys;
    while todo != {}
      invariant todo <= keys
      invariant result == CategoryPaths(keys - todo, sep)
      decreases todo
    {
      var category :| category in todo;
      ghost var doneBefore := keys - todo;
      var paths := PathsOfCategory(category, sep);
      result := result + paths;
      todo := todo - {category};
      assert keys - todo == doneBefore + {category};
      CategoryPathsAdd(doneBefore, category, sep);
    }
  }

  /** The inner loop of `all_categories`: the buffer after each part of one category. */
  method PathsOfCategory(category: string, sep: char) returns (paths: set<string>)
    ensures paths == PathsOf(category, sep)
  {
    var parts := Split(category, sep);
    var buffer := "";
    paths := {};
    var j := 0;
    while j < |parts|
      invariant 0 <= j <= |parts|
      invariant buffer == Buffer(parts, j, sep)
      invariant paths == BuffersUpTo(parts, j, sep)
    {
      BuffersUpToStep(parts, j, sep);
      if buffer != [] {
        buffer := buffer + [sep];
      }
      buffer := buffer + parts[j];
      paths := paths + {buffer};
      j := j + 1;
    }
  }

  lemma CategoryPathsAdd(done: set<string>, c: string, sep: char)
    ensures CategoryPaths(done + {c}, sep) == CategoryPaths(done, sep) + PathsOf(c, sep)
  {
    var l := CategoryPaths(done + {c}, sep);
    var r := CategoryPaths(done, sep) + PathsOf(c, sep);
    forall p | p in r ensures p in l {
      if p !in CategoryPaths(done, sep) {
        assert c in done + {c};
      }
    }
  }

  /** When the first part is not empty, each buffer is the first parts joined by the separator. */
  lemma {:induction false} BufferIsJoin(parts: seq<string>, i: nat, sep: char)
    requires 1 <= i <= |parts| && parts[0] != []
    ensures Buffer(parts, i, sep) != []
    ensures Buffer(parts, i, sep) == Join(parts[..i], sep)
  {
    if i > 1 {
      BufferIsJoin(parts, i - 1, sep);
      JoinAppend(parts[..i - 1], [parts[i - 1]], sep);
      assert parts[..i - 1] + [parts[i - 1]] == parts[..i];
    }
  }

  /**
   * For a category that does not start with the separator, the paths are
   * exactly its ancestors: the prefixes that end just before a separator, and
   * the category itself. Every such prefix is a path, and nothing else is.
   */
  lemma CategoryPathsOfOne(c: string, sep: char)
    requires c == [] || c[0] != sep
    ensures c in PathsOf(c, sep)
    ensures forall p :: p in PathsOf(c, sep) <==>
      StartsWith(c, p) && (|p| == |c| || c[|p|] == sep)
  {
    PathsAreAncestors(c, sep);
    AncestorsArePaths(c, sep);
  }

  lemma PathsAreAncestors(c: string, sep: char)
    requires c == [] || c[0] != sep
    ensures c in PathsOf(c, sep)
    ensures forall p :: p in PathsOf(c, sep) ==> StartsWith(c, p) && (|p| == |c| || c[|p|] == sep)
  {
    var parts := Split(c, sep);
    JoinSplit(c, sep);
    BuffersAreJoins(c, sep);
    assert Buffer(parts, |parts|, sep) in BuffersUpTo(parts, |parts|, sep);
    forall p | p in PathsOf(c, sep)
      ensures StartsWith(c, p) && (|p| == |c| || c[|p|] == sep)
    {
      var i :| 1 <= i <= |parts| && p == Buffer(parts, i, sep);
      if i < |parts| {
        JoinPrefix(parts, i, sep);
      }
    }
  }

  lemma AncestorsArePaths(c: string, sep: char)
    requires c == [] || c[0] != sep
    ensures forall p :: StartsWith(c, p) && (|p| == |c| || c[|p|] == sep) ==> p in PathsOf(c, sep)
  {
    var parts := Split(c, sep);
    JoinSplit(c, sep);
    BuffersAreJoins(c, sep);
    forall p | StartsWith(c, p) && (|p| == |c| || c[|p|] == sep)
      ensures p in PathsOf(c, sep)
    {
      JoinCut(parts, |p|, sep);
      var i :| 1 <= i <= |parts| && Join(parts[..i], sep) == c[..|p|];
      assert Buffer(parts, i, sep) == p;
    }
  }

  /** The paths gathered for several categories are exactly the ancestors of any of them. */
  lemma CategoryPathsAreAncestors(keys: set<string>, sep: char, p: string)
    requires forall c :: c in keys ==> c == [] || c[0] != sep
    ensures p in CategoryPaths(keys, sep) <==>
      exists c :: c in keys && StartsWith(c, p) && (|p| == |c| || c[|p|] == sep)
  {
    if p in CategoryPaths(keys, sep) {
      var c :| c in keys && p in PathsOf(c, sep);
      CategoryPathsOfOne(c, sep);
    }
    if exists c :: c in keys && StartsWith(c, p) && (|p| == |c| || c[|p|] == sep) {
      var c :| c in keys && StartsWith(c, p) && (|p| == |c| || c[|p|] == sep);
      CategoryPathsOfOne(c, sep);
    }
  }

  /** Every buffer of a category's parts is the first parts joined, and the last one is the category. */
  lemma BuffersAreJoins(c: string, sep: char)
    requires c == [] || c[0] != sep
    ensures forall i :: 1 <= i <= |Split(c, sep)| ==> Buffer(Split(c, sep), i, sep) == Join(Split(c, sep)[..i], sep)
    ensures Buffer(Split(c, sep), |Split(c, sep)|, sep) == c
  {
    var parts := Split(c, sep);
    JoinSplit(c, sep);
    if c != [] {
      assert parts[0] != [] by {
        assert c == Join(parts, sep);
        if |parts| > 1 { assert c == parts[0] + [sep] + Join(parts[1..], sep); }
      }
    }
    forall i | 1 <= i <= |parts|
      ensures Buffer(parts, i, sep) == Join(parts[..i], sep)
    {
      if c == [] { SplitNoSep(c, sep); } else { BufferIsJoin(parts, i, sep); }
    }
    assert parts[..|parts|] == parts;
  }

  /** Joining the first `i` parts gives a prefix of the whole join that a separator follows. */
  lemma JoinPrefix(parts: seq<string>, i: nat, sep: char)
    requires 1 <= i < |parts|
    ensures StartsWith(Join(parts, sep), Join(parts[..i], sep))
    ensures |Join(parts[..i], sep)| < |Join(parts, sep)| && Join(parts, sep)[|Join(parts[..i], sep)|] == sep
  {
    var p := Join(parts[..i], sep);
    JoinAppend(parts[..i], parts[i..], sep);
    assert parts[..i] + parts[i..] == parts;
    assert Join(parts, sep) == p + [sep] + Join(parts[i..], sep);
    assert Join(parts, sep)[..|p|] == p;
  }
}
