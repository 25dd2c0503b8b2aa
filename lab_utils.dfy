/**
 * Small helpers of the lab crate: name disambiguation and merging one hash
 * map into another.
 */
module LabUtils {
  import opened Text

  /** `disambiguate_name`: the name trimmed and lower-cased. */
  function DisambiguateName(name: string): (r: string)
    ensures IsLower(r)
    ensures r == [] || (!IsWhitespace(r[0]) && !IsWhitespace(r[|r| - 1]))
  {
    var t := Trim(name);
    ToLowerIdempotent(t);
    ToLower(t)
  }

  /** Disambiguating a disambiguated name changes nothing. */
  lemma DisambiguateIdempotent(name: string)
    ensures DisambiguateName(DisambiguateName(name)) == DisambiguateName(name)
  {
    var t := Trim(name);
    TrimToLower(t);
    TrimIdempotent(name);
    ToLowerIdempotent(t);
  }

  /** Names differing only in case or surrounding whitespace are the same name. */
  lemma DisambiguateIgnoresCase(name: string)
    ensures DisambiguateName(ToLower(name)) == DisambiguateName(name)
  {
    TrimToLower(name);
    ToLowerIdempotent(Trim(name));
  }

  /**
   * The merged map: the union of the keys, a shared key holding `m(v1, v2)`
   * and every other key its own value.
   */
  function MergedWith<K, V>(m1: map<K, V>, m2: map<K, V>, m: (V, V) -> V): map<K, V> {
    map k | k in m1.Keys + m2.Keys ::
      if k in m1 && k in m2 then m(m1[k], m2[k]) else if k in m1 then m1[k] else m2[k]
  }

  /**
   * `merge_hashmaps_with` (and `merge_hashmaps`, whose merge is `Merge::merge`):
   * every entry of `m2` is merged into `m1`, key by key.
   */
  method MergeHashmapsWith<K, V>(m1: map<K, V>, m2: map<K, V>, m: (V, V) -> V) returns (r: map<K, V>)
    ensures r == MergedWith(m1, m2, m)
  {
    r := m1;
    var todo := m2.Keys;
    while todo != {}
      invariant todo <= m2.Keys
      invariant r == MergedWith(m1, m2 - todo, m)
      decreases todo
    {
      var key :| key in todo;
      var value2 := m2[key];
      if key in r {
        r := r[key := m(r[key], value2)];
      } else {
        r := r[key := value2];
      }
      todo := todo - {key};
    }
    assert m2 - {} == m2;
  }

  /** The keys, the values of keys on one side only, and of shared keys. */
  lemma MergedWithSpec<K, V>(m1: map<K, V>, m2: map<K, V>, m: (V, V) -> V)
    ensures MergedWith(m1, m2, m).Keys == m1.Keys + m2.Keys
    ensures forall k :: k in m1 && k !in m2 ==> MergedWith(m1, m2, m)[k] == m1[k]
    ensures forall k :: k in m2 && k !in m1 ==> MergedWith(m1, m2, m)[k] == m2[k]
    ensures forall k :: k in m1 && k in m2 ==> MergedWith(m1, m2, m)[k] == m(m1[k], m2[k])
  {
  }

  /** Merging in an empty map leaves the map unchanged. */
  lemma MergedWithEmpty<K, V>(m1: map<K, V>, m: (V, V) -> V)
    ensures MergedWith(m1, map[], m) == m1
  {
  }

  /** The example of the crate's test: adding counts under shared keys. */
  lemma MergedWithExample()
    ensures MergedWith(map["1" := 1, "2" := 2], map["3" := 3, "2" := 2], (a: int, b: int) => a + b)
            == map["1" := 1, "2" := 4, "3" := 3]
  {
    var r := MergedWith(map["1" := 1, "2" := 2], map["3" := 3, "2" := 2], (a: int, b: int) => a + b);
    assert r.Keys == {"1", "2", "3"};
  }
}
