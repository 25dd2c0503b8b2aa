/** The `Combine` algebra of the models crate: options and disjoint maps. */
module ModelsCombine {
  import opened Wrappers

  /** `Combine for Option`: the first option when it is present, else the second. */
  function CombineOption<T>(o1: Option<T>, o2: Option<T>): (r: Option<T>)
    ensures o1.Some? ==> r == o1
    ensures o1.None? ==> r == o2
  {
    o1.Or(o2)
  }

  lemma CombineOptionAssociative<T>(a: Option<T>, b: Option<T>, c: Option<T>)
    ensures CombineOption(CombineOption(a, b), c) == CombineOption(a, CombineOption(b, c))
  {
  }

  /** `None` is a two-sided identity, and combining an option with itself changes nothing. */
  lemma CombineOptionIdentity<T>(a: Option<T>)
    ensures CombineOption(None, a) == a && CombineOption(a, None) == a
    ensures CombineOption(a, a) == a
  {
  }

  /**
   * `try_combine_disjoint_hashmaps`: moves every entry of `m2` into `m1`, and
   * stops with the first key (in the hash map's iteration order, which is
   * left open here) that `m1` already holds.
   */
  method TryCombineDisjoint<K, V>(m1: map<K, V>, m2: map<K, V>) returns (r: Result<map<K, V>, K>)
    ensures r.Ok? <==> m1.Keys !! m2.Keys
    ensures r.Ok? ==> r.value == m1 + m2
    ensures r.Ok? ==> forall k :: k in r.value <==> k in m1 || k in m2
    ensures r.Err? ==> r.error in m1 && r.error in m2
  {
    var acc := m1;
    var todo := m2.Keys;
    ghost var done: set<K> := {};
    while todo != {}
      invariant done + todo == m2.Keys && done !! todo
      invariant m1.Keys !! done
      invariant acc.Keys == m1.Keys + done
      invariant forall k :: k in acc ==> acc[k] == if k in m1 then m1[k] else m2[k]
      decreases todo
    {
      var key :| key in todo;
      if key in acc {
        return Err(key);
      }
      acc := acc[key := m2[key]];
      todo := todo - {key};
      done := done + {key};
    }
    r := Ok(acc);
  }
}
