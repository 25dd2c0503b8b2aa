/**
 * Orders, sorting and `Vec::dedup`, used wherever the crates sort a vector
 * and then drop repeated neighbours, or rely on the key order of a
 * `BTreeMap`/`BTreeSet`, or fill a map entry by entry.
 */
module Ordering {

  ghost predicate IsStrictTotalOrder<T(!new)>(less: (T, T) -> bool) {
    && (forall a :: !less(a, a))
    && (forall a, b, c :: less(a, b) && less(b, c) ==> less(a, c))
    && (forall a, b :: a == b || less(a, b) || less(b, a))
  }

  /**
   * An order in which incomparable elements behave as equal: the order of
   * elements by a key, such as `sort_by` on an id.
   */
  ghost predicate IsStrictWeakOrder<T(!new)>(less: (T, T) -> bool) {
    && (forall a :: !less(a, a))
    && (forall a, b, c :: less(a, b) && less(b, c) ==> less(a, c))
    && (forall a, b, c :: !less(a, b) && !less(b, c) ==> !less(a, c))
  }

  lemma TotalIsWeak<T(!new)>(less: (T, T) -> bool)
    requires IsStrictTotalOrder(less)
    ensures IsStrictWeakOrder(less)
  {
  }

  /** Every element is no greater than the ones after it. */
  ghost predicate Sorted<T>(s: seq<T>, less: (T, T) -> bool) {
    forall i, j :: 0 <= i < j < |s| ==> !less(s[j], s[i])
  }

  /** Every element is smaller than the ones after it (so none repeats). */
  ghost predicate StrictlySorted<T>(s: seq<T>, less: (T, T) -> bool) {
    forall i, j :: 0 <= i < j < |s| ==> less(s[i], s[j])
  }

  // ---------------------------------------------------------------------
  // Lexicographic order on strings (Rust's `Ord` for `String`)

  predicate LexLess(a: string, b: string) {
    if a == [] then b != []
    else if b == [] then false
    else if a[0] < b[0] then true
    else if a[0] == b[0] then LexLess(a[1..], b[1..])
    else false
  }

  lemma {:induction false} LexLessIrreflexive(a: string)
    ensures !LexLess(a, a)
  {
    if a != [] { LexLessIrreflexive(a[1..]); }
  }

  lemma {:induction false} LexLessTransitive(a: string, b: string, c: string)
    requires LexLess(a, b) && LexLess(b, c)
    ensures LexLess(a, c)
  {
    if a != [] && b != [] && c != [] && a[0] == b[0] && b[0] == c[0] {
      LexLessTransitive(a[1..], b[1..], c[1..]);
    }
  }

  lemma {:induction false} LexLessTotal(a: string, b: string)
    ensures a == b || LexLess(a, b) || LexLess(b, a)
  {
    if a != [] && b != [] && a[0] == b[0] {
      LexLessTotal(a[1..], b[1..]);
      if a[1..] == b[1..] {
        assert a == [a[0]] + a[1..] && b == [b[0]] + b[1..];
      }
    }
  }

  lemma LexLessIsStrictTotalOrder()
    ensures IsStrictTotalOrder(LexLess)
  {
    forall a ensures !LexLess(a, a) { LexLessIrreflexive(a); }
    forall a, b, c | LexLess(a, b) && LexLess(b, c) ensures LexLess(a, c) {
      LexLessTransitive(a, b, c);
    }
    forall a, b ensures a == b || LexLess(a, b) || LexLess(b, a) { LexLessTotal(a, b); }
  }

  // ---------------------------------------------------------------------
  // Sorting

  function InsertSorted<T(==)>(x: T, s: seq<T>, less: (T, T) -> bool): (r: seq<T>)
    ensures multiset(r) == multiset(s) + multiset{x}
  {
    if s == [] then [x]
    else if less(s[0], x) then
      assert s == [s[0]] + s[1..];
      [s[0]] + InsertSorted(x, s[1..], less)
    else [x] + s
  }

  /** `sort` / `sort_unstable`: the same elements, in order. */
  function Sort<T(==)>(s: seq<T>, less: (T, T) -> bool): (r: seq<T>)
    ensures multiset(r) == multiset(s)
  {
    if s == [] then []
    else
      assert s == [s[0]] + s[1..];
      InsertSorted(s[0], Sort(s[1..], less), less)
  }

  lemma {:induction false} InsertSortedSorted<T(!new)>(x: T, s: seq<T>, less: (T, T) -> bool)
    requires IsStrictWeakOrder(less) && Sorted(s, less)
    ensures Sorted(InsertSorted(x, s, less), less)
  {
    if s != [] && less(s[0], x) {
      InsertSortedSorted(x, s[1..], less);
      var r := InsertSorted(x, s, less);
      var tail := InsertSorted(x, s[1..], less);
      assert r == [s[0]] + tail;
      forall j | 0 < j < |r| ensures !less(r[j], r[0]) {
        assert r[j] in multiset(tail);
        assert r[j] in multiset(s[1..]) + multiset{x};
        if r[j] != x {
          var k :| 0 <= k < |s[1..]| && s[1..][k] == r[j];
          assert s[k + 1] == r[j];
        }
      }
    }
  }

  lemma {:induction false} SortSorted<T(!new)>(s: seq<T>, less: (T, T) -> bool)
    requires IsStrictWeakOrder(less)
    ensures Sorted(Sort(s, less), less)
  {
    if s != [] {
      SortSorted(s[1..], less);
      InsertSortedSorted(s[0], Sort(s[1..], less), less);
    }
  }

  /** The order of elements by a text key, as `sort_by(|a, b| a.id.cmp(&b.id))` uses. */
  function ByKey<T>(key: T -> string): (T, T) -> bool {
    (a: T, b: T) => LexLess(key(a), key(b))
  }

  lemma ByKeyIsStrictWeakOrder<T(!new)>(key: T -> string)
    ensures IsStrictWeakOrder(ByKey(key))
  {
    LexLessIsStrictTotalOrder();
  }

  // ---------------------------------------------------------------------
  // `Vec::dedup`

  /** `Vec::dedup`: every run of equal neighbours collapsed to one element. */
  function Dedup<T(==)>(s: seq<T>): (r: seq<T>)
    ensures |r| <= |s|
    ensures forall i :: 0 <= i < |r| ==> r[i] in s
    ensures forall i :: 0 <= i < |s| ==> s[i] in r
    ensures s != [] ==> r != [] && r[0] == s[0]
  {
    if |s| <= 1 then s
    else if s[0] == s[1] then Dedup(s[1..])
    else [s[0]] + Dedup(s[1..])
  }

  lemma {:induction false} DedupStrictlySorted<T(!new)>(s: seq<T>, less: (T, T) -> bool)
    requires IsStrictTotalOrder(less) && Sorted(s, less)
    ensures StrictlySorted(Dedup(s), less)
  {
    if |s| > 1 {
      DedupStrictlySorted(s[1..], less);
      if s[0] != s[1] {
        var r := Dedup(s);
        var tail := Dedup(s[1..]);
        assert r == [s[0]] + tail;
        forall j | 0 < j < |r| ensures less(r[0], r[j]) {
          assert r[j] in tail;
          var k :| 0 <= k < |s[1..]| && s[1..][k] == r[j];
          assert s[k + 1] == r[j];
          assert !less(s[1], s[0]);
          if k > 0 { assert !less(s[k + 1], s[1]); }
        }
      }
    }
  }

  /** Sort, then drop repeated neighbours: the elements of `s`, strictly ordered. */
  function SortDedup<T(==)>(s: seq<T>, less: (T, T) -> bool): seq<T> {
    Dedup(Sort(s, less))
  }

  lemma SortDedupSpec<T(!new)>(s: seq<T>, less: (T, T) -> bool)
    requires IsStrictTotalOrder(less)
    ensures StrictlySorted(SortDedup(s, less), less)
    ensures forall x :: x in SortDedup(s, less) <==> x in s
  {
    TotalIsWeak(less);
    SortSorted(s, less);
    DedupStrictlySorted(Sort(s, less), less);
    forall x ensures x in Sort(s, less) <==> x in s {
      assert x in Sort(s, less) <==> x in multiset(Sort(s, less));
    }
  }

  /** In a strictly sorted sequence the tail holds exactly the elements other than the head. */
  lemma StrictlySortedTail<T(!new)>(a: seq<T>, less: (T, T) -> bool)
    requires IsStrictTotalOrder(less) && StrictlySorted(a, less) && a != []
    ensures forall x :: x in a ==> x == a[0] || less(a[0], x)
    ensures forall x :: x in a[1..] <==> x in a && x != a[0]
  {
    forall x | x in a ensures x == a[0] || less(a[0], x) {
      var k :| 0 <= k < |a| && a[k] == x;
    }
    forall x ensures x in a[1..] <==> x in a && x != a[0] {
      if x in a[1..] {
        var k :| 0 <= k < |a[1..]| && a[1..][k] == x;
        assert less(a[0], a[k + 1]);
      }
      if x in a && x != a[0] {
        var k :| 0 <= k < |a| && a[k] == x;
        assert a[1..][k - 1] == x;
      }
    }
  }

  /** Two strictly sorted sequences with the same elements are equal. */
  lemma {:induction false} StrictlySortedUnique<T(!new)>(a: seq<T>, b: seq<T>, less: (T, T) -> bool)
    requires IsStrictTotalOrder(less)
    requires StrictlySorted(a, less) && StrictlySorted(b, less)
    requires forall x :: x in a <==> x in b
    ensures a == b
  {
    assert a != [] ==> a[0] in b;
    assert b != [] ==> b[0] in a;
    if a != [] {
      StrictlySortedTail(a, less);
      StrictlySortedTail(b, less);
      assert a[0] in b && b[0] in a;
      assert a[0] == b[0];
      assert forall x :: x in a[1..] <==> x in b[1..];
      assert StrictlySorted(a[1..], less) && StrictlySorted(b[1..], less);
      StrictlySortedUnique(a[1..], b[1..], less);
      assert a == [a[0]] + a[1..] && b == [b[0]] + b[1..];
    }
  }

  /** No element occurs twice. */
  predicate Distinct<T(==)>(s: seq<T>) {
    forall i, j :: 0 <= i < j < |s| ==> s[i] != s[j]
  }

  /**
   * The elements of a hash set collected into a vector: each once, in an
   * iteration order that is left open.
   */
  method Elements<T(==)>(s: set<T>) returns (r: seq<T>)
    ensures Distinct(r)
    ensures forall x :: x in r <==> x in s
    ensures |r| == |s|
  {
    r := [];
    var todo := s;
    while todo != {}
      invariant todo <= s
      invariant forall x :: x in r <==> x in s - todo
      invariant Distinct(r)
      invariant |r| + |todo| == |s|
      decreases todo
    {
      var next :| next in todo;
      r := r + [next];
      todo := todo - {next};
    }
  }

  /** `m` comes before every other element of `s`: the first key a `BTreeMap` visits. */
  predicate IsLeast<T(==)>(m: T, s: set<T>, less: (T, T) -> bool) {
    m in s && forall y :: y in s && y != m ==> less(m, y)
  }

  lemma {:induction false} LeastExists<T(!new)>(s: set<T>, less: (T, T) -> bool)
    requires IsStrictTotalOrder(less) && s != {}
    ensures exists m :: IsLeast(m, s, less)
    decreases s
  {
    var x :| x in s;
    if s != {x} {
      LeastExists(s - {x}, less);
      var m :| IsLeast(m, s - {x}, less);
      if less(x, m) {
        forall y | y in s && y != x ensures less(x, y) {
          if y != m { assert less(m, y); }
        }
        assert IsLeast(x, s, less);
      } else {
        assert IsLeast(m, s, less);
      }
    } else {
      assert IsLeast(x, s, less);
    }
  }

  predicate NatLess(a: nat, b: nat) {
    a < b
  }

  lemma NatLessIsStrictTotalOrder()
    ensures IsStrictTotalOrder(NatLess)
  {
  }

  // ---------------------------------------------------------------------
  // Maps filled entry by entry

  /** A map filled by inserting the entries in order: later entries overwrite earlier ones. */
  function IndexLast<E, K, V>(entries: seq<E>, key: E -> K, value: E -> V): map<K, V>
    decreases |entries|
  {
    if entries == [] then map[]
    else
      var last := entries[|entries| - 1];
      IndexLast(entries[..|entries| - 1], key, value)[key(last) := value(last)]
  }

  /** A key is present iff some entry has it, and it then holds the value of the last such entry. */
  lemma {:induction false} IndexLastSpec<E, K, V>(entries: seq<E>, key: E -> K, value: E -> V, t: K)
    ensures t in IndexLast(entries, key, value) <==> exists i :: 0 <= i < |entries| && key(entries[i]) == t
    ensures t in IndexLast(entries, key, value) ==>
      exists i :: 0 <= i < |entries| && key(entries[i]) == t
        && IndexLast(entries, key, value)[t] == value(entries[i])
        && forall j :: i < j < |entries| ==> key(entries[j]) != t
    decreases |entries|
  {
    if entries != [] {
      var n := |entries| - 1;
      var init := entries[..n];
      IndexLastSpec(init, key, value, t);
      if key(entries[n]) != t {
        if t in IndexLast(init, key, value) {
          var i :| 0 <= i < |init| && key(init[i]) == t
                   && IndexLast(init, key, value)[t] == value(init[i])
                   && forall j :: i < j < |init| ==> key(init[j]) != t;
          assert key(entries[i]) == t;
        }
        if exists i :: 0 <= i < |entries| && key(entries[i]) == t {
          var i :| 0 <= i < |entries| && key(entries[i]) == t;
          assert i < n && key(init[i]) == t;
        }
      }
    }
  }
}
