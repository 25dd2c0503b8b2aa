/**
 * The coagulation of the lab crate: every record of the substrates carries
 * an external id and some individual ids (VAT numbers, Wikidata ids, domains
 * for producers; EANs, GTINs and Wikidata ids for products). Records that
 * share an individual id, directly or through a chain of shared ids, are one
 * entity and receive one unique id.
 */
module LabCoagulating {
  import opened Wrappers
  import opened Ordering
  import opened ModelsIds
  import opened LabSubstrate
  import opened LabCoagulate

  // ---------------------------------------------------------------------
  // Unique ids

  /** `UniqueId::zero` for organisation ids. */
  function OrganisationIdZero(): OrganisationId {
    OrganisationId(0)
  }

  /** `UniqueId::increment` for organisation ids. */
  function OrganisationIdIncrement(id: OrganisationId): OrganisationId {
    OrganisationId(id.value + 1)
  }

  /** `UniqueId::zero` for product ids. */
  function ProductIdZero(): ProductId {
    ProductId(0)
  }

  /** `UniqueId::increment` for product ids. */
  function ProductIdIncrement(id: ProductId): ProductId {
    ProductId(id.value + 1)
  }

  /** The organisation id reached from zero after `n` increments. */
  function OrganisationIdAfter(n: nat): OrganisationId {
    if n == 0 then OrganisationIdZero() else OrganisationIdIncrement(OrganisationIdAfter(n - 1))
  }

  /** The product id reached from zero after `n` increments. */
  function ProductIdAfter(n: nat): ProductId {
    if n == 0 then ProductIdZero() else ProductIdIncrement(ProductIdAfter(n - 1))
  }

  /** Counting from zero: the `n`-th unique id handed out has the value `n`. */
  lemma {:induction false} UniqueIdsCount(n: nat)
    ensures OrganisationIdAfter(n).value == n && ProductIdAfter(n).value == n
  {
    if n > 0 {
      UniqueIdsCount(n - 1);
    }
  }

  /** So the unique ids handed out are all different. */
  lemma UniqueIdsDistinct(n: nat, m: nat)
    requires n != m
    ensures OrganisationIdAfter(n) != OrganisationIdAfter(m) && ProductIdAfter(n) != ProductIdAfter(m)
  {
    UniqueIdsCount(n);
    UniqueIdsCount(m);
  }

  // ---------------------------------------------------------------------
  // Records

  /** What `IdStructure` gives of a record: its external id and its individual ids. */
  datatype IdRecord<I> = IdRecord(external: ExternalId, individual: seq<I>)

  function RecordExternal<I>(r: IdRecord<I>): ExternalId {
    r.external
  }

  function RecordIndividuals<I>(r: IdRecord<I>): seq<I> {
    r.individual
  }

  /** No external id occurs in two records. */
  ghost predicate DistinctExternals<I>(ids: seq<IdRecord<I>>) {
    forall j, k :: 0 <= j < k < |ids| ==> ids[j].external != ids[k].external
  }

  ghost predicate HasExternal<I>(ids: seq<IdRecord<I>>, e: ExternalId) {
    exists j :: 0 <= j < |ids| && ids[j].external == e
  }

  /** Some record carries the individual id `x`. */
  ghost predicate Mentions<I>(ids: seq<IdRecord<I>>, x: I) {
    exists j :: 0 <= j < |ids| && x in ids[j].individual
  }

  /** Some record with the external id `e` carries the individual id `x`. */
  ghost predicate Shares<I>(ids: seq<IdRecord<I>>, e: ExternalId, x: I) {
    exists j :: 0 <= j < |ids| && ids[j].external == e && x in ids[j].individual
  }

  lemma PrefixStep<I(!new)>(ids: seq<IdRecord<I>>, i: nat)
    requires i < |ids|
    ensures forall x :: Mentions(ids[..i + 1], x) <==> Mentions(ids[..i], x) || x in ids[i].individual
    ensures forall e, x :: Shares(ids[..i + 1], e, x) <==> Shares(ids[..i], e, x) || (e == ids[i].external && x in ids[i].individual)
  {
    forall x ensures Mentions(ids[..i + 1], x) <==> Mentions(ids[..i], x) || x in ids[i].individual {
      if Mentions(ids[..i + 1], x) {
        var j :| 0 <= j < i + 1 && x in ids[..i + 1][j].individual;
        if j < i {
          assert ids[..i][j] == ids[..i + 1][j];
        }
      }
      if Mentions(ids[..i], x) {
        var j :| 0 <= j < i && x in ids[..i][j].individual;
        assert ids[..i + 1][j] == ids[..i][j];
      }
      if x in ids[i].individual {
        assert ids[..i + 1][i] == ids[i];
      }
    }
    forall e, x ensures Shares(ids[..i + 1], e, x) <==> Shares(ids[..i], e, x) || (e == ids[i].external && x in ids[i].individual) {
      if Shares(ids[..i + 1], e, x) {
        var j :| 0 <= j < i + 1 && ids[..i + 1][j].external == e && x in ids[..i + 1][j].individual;
        if j < i {
          assert ids[..i][j] == ids[..i + 1][j];
        }
      }
      if Shares(ids[..i], e, x) {
        var j :| 0 <= j < i && ids[..i][j].external == e && x in ids[..i][j].individual;
        assert ids[..i + 1][j] == ids[..i][j];
      }
      if e == ids[i].external && x in ids[i].individual {
        assert ids[..i + 1][i] == ids[i];
      }
    }
  }

  /** What `fill_ids` builds from empty indexes: both directions of the record relation. */
  ghost predicate FilledFrom<I(!new)>(ids: seq<IdRecord<I>>, e2i: map<ExternalId, seq<I>>, i2e: map<I, seq<ExternalId>>) {
    && e2i == IndexLast(ids, RecordExternal, RecordIndividuals)
    && (forall x :: x in i2e <==> Mentions(ids, x))
    && (forall x, e :: x in i2e ==> (e in i2e[x] <==> Shares(ids, e, x)))
  }

  /**
   * With distinct external ids the two indexes are mirror images: `x` is
   * listed for `e` exactly when `e` is listed for `x`, and each record's
   * external id leads to that record's individual ids.
   */
  lemma FilledSymmetric<I(!new)>(ids: seq<IdRecord<I>>, e2i: map<ExternalId, seq<I>>, i2e: map<I, seq<ExternalId>>)
    requires FilledFrom(ids, e2i, i2e) && DistinctExternals(ids)
    ensures forall j :: 0 <= j < |ids| ==> ids[j].external in e2i && e2i[ids[j].external] == ids[j].individual
    ensures forall e, x :: e in e2i ==> (x in e2i[e] <==> x in i2e && e in i2e[x])
    ensures forall x, e :: x in i2e && e in i2e[x] ==> e in e2i
  {
    forall j | 0 <= j < |ids| ensures ids[j].external in e2i && e2i[ids[j].external] == ids[j].individual {
      IndexLastSpec(ids, RecordExternal, RecordIndividuals, ids[j].external);
      var k :| 0 <= k < |ids| && RecordExternal(ids[k]) == ids[j].external
               && e2i[ids[j].external] == RecordIndividuals(ids[k])
               && forall l :: k < l < |ids| ==> RecordExternal(ids[l]) != ids[j].external;
    }
    forall e, x | e in e2i ensures x in e2i[e] <==> x in i2e && e in i2e[x] {
      IndexLastSpec(ids, RecordExternal, RecordIndividuals, e);
      var k :| 0 <= k < |ids| && RecordExternal(ids[k]) == e && e2i[e] == RecordIndividuals(ids[k])
               && forall l :: k < l < |ids| ==> RecordExternal(ids[l]) != e;
      if x in i2e && e in i2e[x] {
        var j :| 0 <= j < |ids| && ids[j].external == e && x in ids[j].individual;
        assert j == k;
      }
    }
    forall x, e | x in i2e && e in i2e[x] ensures e in e2i {
      var j :| 0 <= j < |ids| && ids[j].external == e && x in ids[j].individual;
      IndexLastSpec(ids, RecordExternal, RecordIndividuals, e);
    }
  }

  /** Some individual of `xs` still listed in `i2e` lists the external id `e`. */
  ghost predicate ReachedBy<I>(i2e: map<I, seq<ExternalId>>, xs: seq<I>, e: ExternalId) {
    exists x :: x in xs && x in i2e && e in i2e[x]
  }

  /** The individual ids that `e2i` lists for some external id of `es`. */
  ghost predicate ListedFor<I>(e2i: map<ExternalId, seq<I>>, es: set<ExternalId>, x: I) {
    exists e :: e in es && e in e2i && x in e2i[e]
  }

  /** What `fill_ids` leaves for `find_clusters`, whatever the records. */
  ghost predicate Indexed<I(!new)>(ids: seq<IdRecord<I>>, e2i: map<ExternalId, seq<I>>, i2e: map<I, seq<ExternalId>>) {
    && (forall e :: e in e2i <==> HasExternal(ids, e))
    && (forall x, e :: x in i2e && e in i2e[x] ==> e in e2i)
    && (forall k, x :: 0 <= k < |ids| && x in ids[k].individual ==> x in i2e && ids[k].external in i2e[x])
  }

  /** With distinct external ids, the indexes are mirror images holding each record's own individual ids. */
  ghost predicate Mirrored<I(!new)>(ids: seq<IdRecord<I>>, e2i: map<ExternalId, seq<I>>, i2e: map<I, seq<ExternalId>>) {
    && (forall k :: 0 <= k < |ids| ==> ids[k].external in e2i && e2i[ids[k].external] == ids[k].individual)
    && (forall e, x :: e in e2i ==> (x in e2i[e] <==> x in i2e && e in i2e[x]))
  }

  lemma FilledIndexed<I(!new)>(ids: seq<IdRecord<I>>, e2i: map<ExternalId, seq<I>>, i2e: map<I, seq<ExternalId>>)
    requires FilledFrom(ids, e2i, i2e)
    ensures Indexed(ids, e2i, i2e)
    ensures DistinctExternals(ids) ==> Mirrored(ids, e2i, i2e)
  {
    forall e ensures e in e2i <==> HasExternal(ids, e) {
      IndexLastSpec(ids, RecordExternal, RecordIndividuals, e);
    }
    forall x, e | x in i2e && e in i2e[x] ensures e in e2i {
      var j :| 0 <= j < |ids| && ids[j].external == e && x in ids[j].individual;
      IndexLastSpec(ids, RecordExternal, RecordIndividuals, e);
    }
    if DistinctExternals(ids) {
      FilledSymmetric(ids, e2i, i2e);
    }
  }

  /** The indexes only lose entries while the clusters are found. */
  ghost predicate Drained<I(!new)>(e2i: map<ExternalId, seq<I>>, i2e: map<I, seq<ExternalId>>,
                                   e2i0: map<ExternalId, seq<I>>, i2e0: map<I, seq<ExternalId>>) {
    && (forall e :: e in e2i ==> e in e2i0 && e2i[e] == e2i0[e])
    && (forall x :: x in i2e ==> x in i2e0 && i2e[x] == i2e0[x])
  }

  /** Every external id listed for an individual id already taken out of its index has a unique id. */
  ghost predicate VisitedAssigned<I(!new)>(i2e0: map<I, seq<ExternalId>>, i2e: map<I, seq<ExternalId>>, r: map<ExternalId, nat>) {
    forall x, e :: x in i2e0 && x !in i2e && e in i2e0[x] ==> e in r
  }

  /** ... and they all have the same one. */
  ghost predicate VisitedAgree<I(!new)>(i2e0: map<I, seq<ExternalId>>, i2e: map<I, seq<ExternalId>>, r: map<ExternalId, nat>) {
    forall x, e, f :: x in i2e0 && x !in i2e && e in i2e0[x] && f in i2e0[x] && e in r && f in r ==> r[e] == r[f]
  }

  /** An external id stays in its index exactly while it has no unique id, or is `pending` expansion. */
  ghost predicate ExpandedExcept<I(!new)>(e2i0: map<ExternalId, seq<I>>, e2i: map<ExternalId, seq<I>>,
                                          r: map<ExternalId, nat>, pending: set<ExternalId>) {
    forall e :: e in e2i0 ==> (e in e2i <==> e !in r || e in pending)
  }

  /** Every individual id of an external id with a unique id has been taken out of its index. */
  ghost predicate AllVisited<I(!new)>(e2i0: map<ExternalId, seq<I>>, i2e: map<I, seq<ExternalId>>, r: map<ExternalId, nat>) {
    forall e, x :: e in r && e in e2i0 && x in e2i0[e] ==> x !in i2e
  }

  /** As `AllVisited`, except in the cluster `u` being built, whose waiting individual ids are the frontier `f`. */
  ghost predicate Finished<I(!new)>(e2i0: map<ExternalId, seq<I>>, i2e: map<I, seq<ExternalId>>, r: map<ExternalId, nat>,
                                    u: nat, f: seq<I>) {
    forall e, x :: e in r && e in e2i0 && x in e2i0[e] ==> x !in i2e || (r[e] == u && x in f)
  }

  /** As `Finished`, halfway through a round: the external ids `n` just reached wait to be expanded. */
  ghost predicate FinishedPending<I(!new)>(e2i0: map<ExternalId, seq<I>>, i2e: map<I, seq<ExternalId>>, r: map<ExternalId, nat>,
                                           u: nat, n: set<ExternalId>) {
    forall e, x :: e in r && e in e2i0 && x in e2i0[e] ==> x !in i2e || (r[e] == u && e in n)
  }

  /** What one call of `gather_external_ids` with frontier `f` and unique id `u` does. */
  ghost predicate GatheredExternal<I(!new)>(i2e: map<I, seq<ExternalId>>, r: map<ExternalId, nat>,
                                            i2e': map<I, seq<ExternalId>>, r': map<ExternalId, nat>,
                                            f: seq<I>, u: nat, n: set<ExternalId>) {
    && (forall x :: x in i2e' <==> x in i2e && x !in f)
    && (forall x :: x in i2e' ==> i2e'[x] == i2e[x])
    && (forall e :: e in r' <==> e in r || ReachedBy(i2e, f, e))
    && (forall e :: e in r' ==> r'[e] == if ReachedBy(i2e, f, e) then u else r[e])
    && (forall e :: e in n <==> ReachedBy(i2e, f, e) && e !in r)
  }

  /** What one call of `gather_individual_ids` with the external ids `n` does, leaving the frontier `f'`. */
  ghost predicate GatheredIndividual<I(!new)>(e2i: map<ExternalId, seq<I>>, e2i': map<ExternalId, seq<I>>,
                                              n: set<ExternalId>, f': seq<I>) {
    && (forall e :: e in e2i' <==> e in e2i && e !in n)
    && (forall e :: e in e2i' ==> e2i'[e] == e2i[e])
    && (forall x :: x in f' <==> ListedFor(e2i, n, x))
  }

  lemma GatherExternalKeeps<I(!new)>(ids: seq<IdRecord<I>>, e2i0: map<ExternalId, seq<I>>, i2e0: map<I, seq<ExternalId>>,
                                     e2i: map<ExternalId, seq<I>>, i2e: map<I, seq<ExternalId>>, r: map<ExternalId, nat>,
                                     i2e': map<I, seq<ExternalId>>, r': map<ExternalId, nat>,
                                     f: seq<I>, u: nat, n: set<ExternalId>, count: nat)
    requires Indexed(ids, e2i0, i2e0) && Drained(e2i, i2e, e2i0, i2e0) && VisitedAssigned(i2e0, i2e, r)
    requires forall e :: e in r ==> e in e2i0 && 1 <= r[e] <= count
    requires 1 <= u <= count
    requires GatheredExternal(i2e, r, i2e', r', f, u, n)
    ensures Drained(e2i, i2e', e2i0, i2e0) && VisitedAssigned(i2e0, i2e', r')
    ensures forall e :: e in r ==> e in r'
    ensures forall e :: e in r' ==> e in e2i0 && 1 <= r'[e] <= count
    ensures forall x :: x in f && x in i2e0 ==> forall e :: e in i2e0[x] ==> e in r'
    ensures n != {} ==> i2e'.Keys < i2e.Keys
  {
    forall x, e | x in i2e0 && x !in i2e' && e in i2e0[x] ensures e in r' {
      if x in i2e {
        assert ReachedBy(i2e, f, e);
      }
    }
    forall e | e in r' ensures e in e2i0 {
      if e !in r {
        var x :| x in f && x in i2e && e in i2e[x];
      }
    }
    if n != {} {
      var e :| e in n;
      var x :| x in f && x in i2e && e in i2e[x];
      assert x !in i2e';
    }
  }

  lemma GatherExternalClusters<I(!new)>(ids: seq<IdRecord<I>>, e2i0: map<ExternalId, seq<I>>, i2e0: map<I, seq<ExternalId>>,
                                        e2i: map<ExternalId, seq<I>>, i2e: map<I, seq<ExternalId>>, r: map<ExternalId, nat>,
                                        i2e': map<I, seq<ExternalId>>, r': map<ExternalId, nat>,
                                        f: seq<I>, u: nat, n: set<ExternalId>)
    requires Indexed(ids, e2i0, i2e0) && Mirrored(ids, e2i0, i2e0)
    requires Drained(e2i, i2e, e2i0, i2e0) && VisitedAssigned(i2e0, i2e, r) && VisitedAgree(i2e0, i2e, r)
    requires ExpandedExcept(e2i0, e2i, r, {}) && Finished(e2i0, i2e, r, u, f)
    requires GatheredExternal(i2e, r, i2e', r', f, u, n)
    ensures VisitedAgree(i2e0, i2e', r')
    ensures ExpandedExcept(e2i0, e2i, r', n) && FinishedPending(e2i0, i2e', r', u, n)
    ensures forall e :: e in r ==> r'[e] == r[e]
    ensures forall e :: e in n ==> e in r' && r'[e] == u && e in e2i0 && e2i0[e] != []
    ensures forall e :: e in r' ==> e in r || e in n
  {
    GatherExternalKeepsIds(ids, e2i0, i2e0, e2i, i2e, r, i2e', r', f, u, n);
    GatherExternalAgree(ids, e2i0, i2e0, e2i, i2e, r, i2e', r', f, u, n);
    GatherExternalPending(ids, e2i0, i2e0, e2i, i2e, r, i2e', r', f, u, n);
  }

  lemma GatherExternalKeepsIds<I(!new)>(ids: seq<IdRecord<I>>, e2i0: map<ExternalId, seq<I>>, i2e0: map<I, seq<ExternalId>>,
                                        e2i: map<ExternalId, seq<I>>, i2e: map<I, seq<ExternalId>>, r: map<ExternalId, nat>,
                                        i2e': map<I, seq<ExternalId>>, r': map<ExternalId, nat>,
                                        f: seq<I>, u: nat, n: set<ExternalId>)
    requires Indexed(ids, e2i0, i2e0) && Mirrored(ids, e2i0, i2e0)
    requires Drained(e2i, i2e, e2i0, i2e0) && VisitedAssigned(i2e0, i2e, r) && VisitedAgree(i2e0, i2e, r)
    requires ExpandedExcept(e2i0, e2i, r, {}) && Finished(e2i0, i2e, r, u, f)
    requires GatheredExternal(i2e, r, i2e', r', f, u, n)
    ensures forall e :: e in r ==> r'[e] == r[e]
  {
    forall e | e in r ensures r'[e] == r[e] {
      if ReachedBy(i2e, f, e) {
        var x :| x in f && x in i2e && e in i2e[x];
        assert x in e2i0[e];
      }
    }
  }

  lemma GatherExternalAgree<I(!new)>(ids: seq<IdRecord<I>>, e2i0: map<ExternalId, seq<I>>, i2e0: map<I, seq<ExternalId>>,
                                        e2i: map<ExternalId, seq<I>>, i2e: map<I, seq<ExternalId>>, r: map<ExternalId, nat>,
                                        i2e': map<I, seq<ExternalId>>, r': map<ExternalId, nat>,
                                        f: seq<I>, u: nat, n: set<ExternalId>)
    requires Indexed(ids, e2i0, i2e0) && Mirrored(ids, e2i0, i2e0)
    requires Drained(e2i, i2e, e2i0, i2e0) && VisitedAssigned(i2e0, i2e, r) && VisitedAgree(i2e0, i2e, r)
    requires ExpandedExcept(e2i0, e2i, r, {}) && Finished(e2i0, i2e, r, u, f)
    requires GatheredExternal(i2e, r, i2e', r', f, u, n)
    requires forall e :: e in r ==> r'[e] == r[e]
    ensures VisitedAgree(i2e0, i2e', r')
  {
    forall x, e, g | x in i2e0 && x !in i2e' && e in i2e0[x] && g in i2e0[x] && e in r' && g in r'
      ensures r'[e] == r'[g]
    {
      if x in i2e {
        assert ReachedBy(i2e, f, e) && ReachedBy(i2e, f, g);
      }
    }
  }

  lemma GatherExternalPending<I(!new)>(ids: seq<IdRecord<I>>, e2i0: map<ExternalId, seq<I>>, i2e0: map<I, seq<ExternalId>>,
                                        e2i: map<ExternalId, seq<I>>, i2e: map<I, seq<ExternalId>>, r: map<ExternalId, nat>,
                                        i2e': map<I, seq<ExternalId>>, r': map<ExternalId, nat>,
                                        f: seq<I>, u: nat, n: set<ExternalId>)
    requires Indexed(ids, e2i0, i2e0) && Mirrored(ids, e2i0, i2e0)
    requires Drained(e2i, i2e, e2i0, i2e0) && VisitedAssigned(i2e0, i2e, r) && VisitedAgree(i2e0, i2e, r)
    requires ExpandedExcept(e2i0, e2i, r, {}) && Finished(e2i0, i2e, r, u, f)
    requires GatheredExternal(i2e, r, i2e', r', f, u, n)
    requires forall e :: e in r ==> r'[e] == r[e]
    ensures ExpandedExcept(e2i0, e2i, r', n) && FinishedPending(e2i0, i2e', r', u, n)
    ensures forall e :: e in n ==> e in r' && r'[e] == u && e in e2i0 && e2i0[e] != []
    ensures forall e :: e in r' ==> e in r || e in n
  {
    forall e | e in n ensures e in r' && r'[e] == u && e in e2i0 && e2i0[e] != [] {
      var x :| x in f && x in i2e && e in i2e[x];
      assert x in e2i0[e];
    }
  }

  /** An external id reached in a round is linked to the root through the individual id that reached it. */
  lemma GatherExternalLinked<I(!new)>(ids: seq<IdRecord<I>>, e2i0: map<ExternalId, seq<I>>, i2e0: map<I, seq<ExternalId>>,
                                      e2i: map<ExternalId, seq<I>>, i2e: map<I, seq<ExternalId>>, r: map<ExternalId, nat>,
                                      i2e': map<I, seq<ExternalId>>, r': map<ExternalId, nat>,
                                      f: seq<I>, u: nat, n: set<ExternalId>, rs: map<ExternalId, nat>, a: ExternalId)
    requires Indexed(ids, e2i0, i2e0) && Mirrored(ids, e2i0, i2e0) && Drained(e2i, i2e, e2i0, i2e0)
    requires GatheredExternal(i2e, r, i2e', r', f, u, n)
    requires forall e :: e in rs ==> e in r
    requires forall e {:trigger Linked(ids, a, e)} :: e in r && e !in rs ==> Linked(ids, a, e)
    requires forall x {:trigger Attached(ids, a, x)} :: x in f ==> Attached(ids, a, x)
    ensures forall e {:trigger Linked(ids, a, e)} :: e in r' && e !in rs ==> Linked(ids, a, e)
    ensures forall e {:trigger Linked(ids, a, e)} :: e in n ==> Linked(ids, a, e)
  {
    forall e | ReachedBy(i2e, f, e) ensures Linked(ids, a, e) {
      var x :| x in f && x in i2e && e in i2e[x];
      assert Attached(ids, a, x);
      assert x in e2i0[e];
      var k' :| 0 <= k' < |ids| && ids[k'].external == e;
      var k :| 0 <= k < |ids| && x in ids[k].individual && Linked(ids, a, ids[k].external);
      assert Adjacent(ids, ids[k].external, e) by {
        assert x in ids[k'].individual;
      }
      LinkedExtend(ids, a, ids[k].external, e);
    }
  }

  /** An individual id gathered from a linked external id is attached to the root. */
  lemma GatherIndividualLinked<I(!new)>(ids: seq<IdRecord<I>>, e2i0: map<ExternalId, seq<I>>, i2e0: map<I, seq<ExternalId>>,
                                        e2i: map<ExternalId, seq<I>>, i2e: map<I, seq<ExternalId>>,
                                        e2i': map<ExternalId, seq<I>>, n: set<ExternalId>, f': seq<I>, a: ExternalId)
    requires Indexed(ids, e2i0, i2e0) && Mirrored(ids, e2i0, i2e0) && Drained(e2i, i2e, e2i0, i2e0)
    requires GatheredIndividual(e2i, e2i', n, f')
    requires forall e {:trigger Linked(ids, a, e)} :: e in n ==> Linked(ids, a, e)
    ensures forall x {:trigger Attached(ids, a, x)} :: x in f' ==> Attached(ids, a, x)
  {
    forall x | x in f' ensures Attached(ids, a, x) {
      var e :| e in n && e in e2i && x in e2i[e];
      var k :| 0 <= k < |ids| && ids[k].external == e;
      assert x in ids[k].individual && Linked(ids, a, e);
    }
  }

  lemma GatherIndividualClusters<I(!new)>(ids: seq<IdRecord<I>>, e2i0: map<ExternalId, seq<I>>, i2e0: map<I, seq<ExternalId>>,
                                          e2i: map<ExternalId, seq<I>>, i2e: map<I, seq<ExternalId>>, r: map<ExternalId, nat>,
                                          e2i': map<ExternalId, seq<I>>, u: nat, n: set<ExternalId>, f': seq<I>)
    requires Drained(e2i, i2e, e2i0, i2e0)
    requires ExpandedExcept(e2i0, e2i, r, n) && FinishedPending(e2i0, i2e, r, u, n)
    requires forall e :: e in n ==> e in r && e in e2i0
    requires GatheredIndividual(e2i, e2i', n, f')
    ensures Drained(e2i', i2e, e2i0, i2e0)
    ensures ExpandedExcept(e2i0, e2i', r, {}) && Finished(e2i0, i2e, r, u, f')
  {
    forall e, x | e in r && e in e2i0 && x in e2i0[e] ensures x !in i2e || (r[e] == u && x in f') {
      if x in i2e {
        assert e in n && e in e2i;
        assert ListedFor(e2i, n, x);
      }
    }
  }

  /** A round that reaches no new external id leaves nothing to visit. */
  lemma PendingNoneVisited<I(!new)>(e2i0: map<ExternalId, seq<I>>, i2e: map<I, seq<ExternalId>>, r: map<ExternalId, nat>, u: nat)
    requires FinishedPending(e2i0, i2e, r, u, {})
    ensures AllVisited(e2i0, i2e, r)
  {
  }

  /** An empty frontier leaves nothing to visit. */
  lemma FinishedNoneVisited<I(!new)>(e2i0: map<ExternalId, seq<I>>, i2e: map<I, seq<ExternalId>>, r: map<ExternalId, nat>, u: nat)
    requires Finished(e2i0, i2e, r, u, [])
    ensures AllVisited(e2i0, i2e, r)
  {
  }

  /** `find_clusters` with distinct external ids: the state between two records. */
  ghost predicate ClustersSoFar<I(!new)>(ids: seq<IdRecord<I>>, i: nat, e2i0: map<ExternalId, seq<I>>, i2e0: map<I, seq<ExternalId>>,
                                         e2i: map<ExternalId, seq<I>>, i2e: map<I, seq<ExternalId>>, r: map<ExternalId, nat>,
                                         numEmpty: nat, numUnique: nat, roots: seq<nat>)
    requires i <= |ids|
  {
    && VisitedAgree(i2e0, i2e, r)
    && ExpandedExcept(e2i0, e2i, r, {})
    && AllVisited(e2i0, i2e, r)
    && numEmpty == CountEmpty(ids, i)
    && (forall e :: e in r && e in e2i0 ==> e2i0[e] != [] || exists k :: 0 <= k < i && ids[k].external == e)
    && |roots| == numUnique
    && (forall v :: 0 <= v < |roots| ==> roots[v] < i && ids[roots[v]].external in r && r[ids[roots[v]].external] == v + 1)
    && FirstOccurrence(ids, i, r)
    && RootLinked(ids, r, roots)
  }

  /** The number of records among the first `n` that carry no individual id. */
  function CountEmpty<I>(ids: seq<IdRecord<I>>, n: nat): nat
    requires n <= |ids|
  {
    if n == 0 then 0 else CountEmpty(ids, n - 1) + (if ids[n - 1].individual == [] then 1 else 0)
  }

  /**
   * Among the first `n` records, each one either shares its unique id with
   * an earlier record or has a larger unique id than every earlier record:
   * unique ids are handed out in the order of each cluster's first record.
   */
  ghost predicate FirstOccurrence<I>(ids: seq<IdRecord<I>>, n: nat, r: map<ExternalId, nat>)
    requires n <= |ids|
  {
    forall k :: 0 <= k < n ==> FirstAt(ids, k, r)
  }

  /** Record `k` shares its unique id with an earlier record, or has a larger one than all of them. */
  ghost predicate FirstAt<I>(ids: seq<IdRecord<I>>, k: nat, r: map<ExternalId, nat>)
    requires k < |ids|
  {
    && ids[k].external in r
    && ((exists j :: 0 <= j < k && ids[j].external in r && r[ids[j].external] == r[ids[k].external])
        || (forall j :: 0 <= j < k ==> ids[j].external in r && r[ids[j].external] < r[ids[k].external]))
  }

  /** Records that share an individual id have the same unique id. */
  ghost predicate SharedSameId<I>(ids: seq<IdRecord<I>>, r: map<ExternalId, nat>) {
    forall j, k, x :: 0 <= j < |ids| && 0 <= k < |ids| && x in ids[j].individual && x in ids[k].individual ==>
      ids[j].external in r && ids[k].external in r && r[ids[j].external] == r[ids[k].external]
  }

  // ---------------------------------------------------------------------
  // Chains of shared individual ids

  /** A record with the external id `e` and a record with `f` carry a common individual id. */
  ghost predicate Adjacent<I>(ids: seq<IdRecord<I>>, e: ExternalId, f: ExternalId) {
    exists j, k, x :: 0 <= j < |ids| && 0 <= k < |ids| && ids[j].external == e && ids[k].external == f
                      && x in ids[j].individual && x in ids[k].individual
  }

  /** `e` reaches `f` in at most `n` steps, each to an adjacent external id. */
  ghost predicate LinkedWithin<I>(ids: seq<IdRecord<I>>, e: ExternalId, f: ExternalId, n: nat)
    decreases n
  {
    e == f || (n > 0 && exists g :: LinkedWithin(ids, e, g, n - 1) && Adjacent(ids, g, f))
  }

  /** `e` and `f` are joined by a chain of records, each sharing an individual id with the next. */
  ghost predicate Linked<I>(ids: seq<IdRecord<I>>, e: ExternalId, f: ExternalId) {
    exists n: nat :: LinkedWithin(ids, e, f, n)
  }

  /** Some record linked to `a` carries the individual id `x`. */
  ghost predicate Attached<I>(ids: seq<IdRecord<I>>, a: ExternalId, x: I) {
    exists k :: 0 <= k < |ids| && x in ids[k].individual && Linked(ids, a, ids[k].external)
  }

  lemma LinkedRefl<I>(ids: seq<IdRecord<I>>, e: ExternalId)
    ensures Linked(ids, e, e)
  {
    assert LinkedWithin(ids, e, e, 0);
  }

  lemma LinkedExtend<I>(ids: seq<IdRecord<I>>, a: ExternalId, e: ExternalId, f: ExternalId)
    requires Linked(ids, a, e) && Adjacent(ids, e, f)
    ensures Linked(ids, a, f)
  {
    var n: nat :| LinkedWithin(ids, a, e, n);
    assert LinkedWithin(ids, a, f, n + 1);
  }

  lemma AdjacentSymm<I>(ids: seq<IdRecord<I>>, e: ExternalId, f: ExternalId)
    requires Adjacent(ids, e, f)
    ensures Adjacent(ids, f, e)
  {
    var j, k, x :| 0 <= j < |ids| && 0 <= k < |ids| && ids[j].external == e && ids[k].external == f
                   && x in ids[j].individual && x in ids[k].individual;
  }

  lemma {:induction false} LinkedWithinTrans<I>(ids: seq<IdRecord<I>>, a: ExternalId, b: ExternalId, c: ExternalId, n: nat)
    requires Linked(ids, a, b) && LinkedWithin(ids, b, c, n)
    ensures Linked(ids, a, c)
    decreases n
  {
    if b != c {
      var g :| LinkedWithin(ids, b, g, n - 1) && Adjacent(ids, g, c);
      LinkedWithinTrans(ids, a, b, g, n - 1);
      LinkedExtend(ids, a, g, c);
    }
  }

  lemma LinkedTrans<I>(ids: seq<IdRecord<I>>, a: ExternalId, b: ExternalId, c: ExternalId)
    requires Linked(ids, a, b) && Linked(ids, b, c)
    ensures Linked(ids, a, c)
  {
    var n: nat :| LinkedWithin(ids, b, c, n);
    LinkedWithinTrans(ids, a, b, c, n);
  }

  lemma {:induction false} LinkedWithinSymm<I>(ids: seq<IdRecord<I>>, e: ExternalId, f: ExternalId, n: nat)
    requires LinkedWithin(ids, e, f, n)
    ensures Linked(ids, f, e)
    decreases n
  {
    if e == f {
      LinkedRefl(ids, e);
    } else {
      var g :| LinkedWithin(ids, e, g, n - 1) && Adjacent(ids, g, f);
      LinkedWithinSymm(ids, e, g, n - 1);
      AdjacentSymm(ids, g, f);
      LinkedRefl(ids, f);
      LinkedExtend(ids, f, f, g);
      LinkedTrans(ids, f, g, e);
    }
  }

  lemma LinkedSymm<I>(ids: seq<IdRecord<I>>, e: ExternalId, f: ExternalId)
    requires Linked(ids, e, f)
    ensures Linked(ids, f, e)
  {
    var n: nat :| LinkedWithin(ids, e, f, n);
    LinkedWithinSymm(ids, e, f, n);
  }

  /** Along a chain, records that share an individual id keep one unique id. */
  lemma {:induction false} LinkedWithinSameId<I>(ids: seq<IdRecord<I>>, r: map<ExternalId, nat>, e: ExternalId, f: ExternalId, n: nat)
    requires SharedSameId(ids, r) && LinkedWithin(ids, e, f, n) && e in r
    ensures f in r && r[f] == r[e]
    decreases n
  {
    if e != f {
      var g :| LinkedWithin(ids, e, g, n - 1) && Adjacent(ids, g, f);
      LinkedWithinSameId(ids, r, e, g, n - 1);
      var j, k, x :| 0 <= j < |ids| && 0 <= k < |ids| && ids[j].external == g && ids[k].external == f
                     && x in ids[j].individual && x in ids[k].individual;
    }
  }

  /** Linked external ids have the same unique id. */
  lemma LinkedSameId<I>(ids: seq<IdRecord<I>>, r: map<ExternalId, nat>, e: ExternalId, f: ExternalId)
    requires SharedSameId(ids, r) && Linked(ids, e, f) && e in r
    ensures f in r && r[f] == r[e]
  {
    var n: nat :| LinkedWithin(ids, e, f, n);
    LinkedWithinSameId(ids, r, e, f, n);
  }

  /** The external id of the first record of the cluster of `e`, when `roots` lists the first records. */
  ghost function RootOf<I>(ids: seq<IdRecord<I>>, r: map<ExternalId, nat>, roots: seq<nat>, e: ExternalId): ExternalId {
    if e in r && 1 <= r[e] <= |roots| && roots[r[e] - 1] < |ids| then ids[roots[r[e] - 1]].external else e
  }

  /** Every external id with a unique id is linked to the first record of its cluster. */
  ghost predicate RootLinked<I>(ids: seq<IdRecord<I>>, r: map<ExternalId, nat>, roots: seq<nat>) {
    forall e {:trigger RootOf(ids, r, roots, e)} :: e in r ==>
      1 <= r[e] <= |roots| && roots[r[e] - 1] < |ids| && Linked(ids, RootOf(ids, r, roots, e), e)
  }

  /** A new cluster rooted at record `i`, whose members are linked to it. */
  lemma RootLinkedExtend<I>(ids: seq<IdRecord<I>>, i: nat, rs: map<ExternalId, nat>, r: map<ExternalId, nat>, roots: seq<nat>)
    requires i < |ids| && RootLinked(ids, rs, roots)
    requires forall e :: e in rs ==> e in r && r[e] == rs[e]
    requires forall e :: e in r && e !in rs ==> r[e] == |roots| + 1
    requires forall e {:trigger Linked(ids, ids[i].external, e)} :: e in r && e !in rs ==> Linked(ids, ids[i].external, e)
    ensures RootLinked(ids, r, roots + [i])
  {
    var roots' := roots + [i];
    forall e | e in r ensures 1 <= r[e] <= |roots'| && roots'[r[e] - 1] < |ids| && Linked(ids, RootOf(ids, r, roots', e), e) {
      if e in rs {
        assert Linked(ids, RootOf(ids, rs, roots, e), e);
        assert roots'[r[e] - 1] == roots[rs[e] - 1];
        assert RootOf(ids, r, roots', e) == RootOf(ids, rs, roots, e);
      } else {
        assert roots'[r[e] - 1] == i;
        assert Linked(ids, ids[i].external, e);
      }
    }
  }

  /** What `find_clusters` promises for records with distinct external ids. */
  ghost predicate Clustered<I>(ids: seq<IdRecord<I>>, result: IdCombinationResult) {
    && (forall k :: 0 <= k < |ids| ==> ids[k].external in result.externalToUnique)
    && SharedSameId(ids, result.externalToUnique)
    && result.numEmptyIds == CountEmpty(ids, |ids|)
    && FirstOccurrence(ids, |ids|, result.externalToUnique)
    && (forall v :: 1 <= v <= result.numUniqueIds ==> Attained(ids, result.externalToUnique, v))
    && (forall j, k :: 0 <= j < |ids| && 0 <= k < |ids| ==>
          (result.externalToUnique[ids[j].external] == result.externalToUnique[ids[k].external]
           <==> Linked(ids, ids[j].external, ids[k].external)))
  }

  /** With distinct external ids, nothing is adjacent to a record without individual ids. */
  lemma NotAdjacentToEmpty<I>(ids: seq<IdRecord<I>>, j: nat, g: ExternalId)
    requires DistinctExternals(ids) && j < |ids| && ids[j].individual == []
    ensures !Adjacent(ids, g, ids[j].external)
  {
    forall j', k', x | 0 <= j' < |ids| && 0 <= k' < |ids| && ids[j'].external == g && ids[k'].external == ids[j].external
      ensures !(x in ids[j'].individual && x in ids[k'].individual)
    {
      assert k' == j;
    }
  }

  lemma {:induction false} LinkedWithinToEmpty<I>(ids: seq<IdRecord<I>>, j: nat, f: ExternalId, n: nat)
    requires DistinctExternals(ids) && j < |ids| && ids[j].individual == []
    requires LinkedWithin(ids, f, ids[j].external, n)
    ensures f == ids[j].external
  {
    if n > 0 {
      forall g ensures !Adjacent(ids, g, ids[j].external) {
        NotAdjacentToEmpty(ids, j, g);
      }
    }
  }

  /** With distinct external ids, a record without individual ids is linked to nothing but itself. */
  lemma EmptyLinkedToItself<I>(ids: seq<IdRecord<I>>, j: nat)
    requires DistinctExternals(ids) && j < |ids| && ids[j].individual == []
    ensures forall g :: Linked(ids, ids[j].external, g) ==> g == ids[j].external
  {
    forall g | Linked(ids, ids[j].external, g) ensures g == ids[j].external {
      LinkedSymm(ids, ids[j].external, g);
      var n: nat :| LinkedWithin(ids, g, ids[j].external, n);
      LinkedWithinToEmpty(ids, j, g, n);
    }
  }

  /**
   * With distinct external ids, a record without individual ids shares its
   * unique id with no other record.
   */
  lemma EmptyRecordAlone<I>(ids: seq<IdRecord<I>>, result: IdCombinationResult, j: nat, k: nat)
    requires DistinctExternals(ids) && Clustered(ids, result)
    requires j < |ids| && k < |ids| && j != k && ids[j].individual == []
    ensures result.externalToUnique[ids[j].external] != result.externalToUnique[ids[k].external]
  {
    EmptyLinkedToItself(ids, j);
    assert !Linked(ids, ids[j].external, ids[k].external);
  }

  /** Some record has the unique id `v`. */
  ghost predicate Attained<I>(ids: seq<IdRecord<I>>, r: map<ExternalId, nat>, v: nat) {
    exists k :: 0 <= k < |ids| && ids[k].external in r && r[ids[k].external] == v
  }

  lemma FirstOccurrenceExtend<I>(ids: seq<IdRecord<I>>, i: nat, rs: map<ExternalId, nat>, r: map<ExternalId, nat>)
    requires i < |ids|
    requires forall k :: 0 <= k < i ==> ids[k].external in rs
    requires FirstOccurrence(ids, i, rs)
    requires forall e :: e in rs ==> e in r && r[e] == rs[e]
    requires ids[i].external in r
    requires FirstAt(ids, i, r)
    ensures forall k :: 0 <= k < i + 1 ==> ids[k].external in r
    ensures FirstOccurrence(ids, i + 1, r)
  {
    forall k | 0 <= k < i ensures FirstAt(ids, k, r) {
      assert FirstAt(ids, k, rs);
      if exists j :: 0 <= j < k && rs[ids[j].external] == rs[ids[k].external] {
        var j :| 0 <= j < k && rs[ids[j].external] == rs[ids[k].external];
        assert r[ids[j].external] == r[ids[k].external];
      } else {
        forall j | 0 <= j < k ensures r[ids[j].external] < r[ids[k].external] {
          assert rs[ids[j].external] < rs[ids[k].external];
        }
      }
    }
  }

  /** A record whose external id already has a unique id is passed over. */
  lemma SkipStep<I(!new)>(ids: seq<IdRecord<I>>, i: nat, e2i0: map<ExternalId, seq<I>>, i2e0: map<I, seq<ExternalId>>,
                          e2i: map<ExternalId, seq<I>>, i2e: map<I, seq<ExternalId>>, r: map<ExternalId, nat>,
                          numEmpty: nat, numUnique: nat, roots: seq<nat>)
    requires i < |ids| && DistinctExternals(ids) && Mirrored(ids, e2i0, i2e0)
    requires forall k :: 0 <= k < i ==> ids[k].external in r
    requires forall e :: e in r ==> 1 <= r[e] <= numUnique
    requires ClustersSoFar(ids, i, e2i0, i2e0, e2i, i2e, r, numEmpty, numUnique, roots)
    requires ids[i].external in r
    ensures forall k :: 0 <= k < i + 1 ==> ids[k].external in r
    ensures ClustersSoFar(ids, i + 1, e2i0, i2e0, e2i, i2e, r, numEmpty, numUnique, roots)
  {
    var e := ids[i].external;
    assert e2i0[e] == ids[i].individual;
    var j := roots[r[e] - 1];
    assert FirstAt(ids, i, r) by {
      assert ids[j].external in r && r[ids[j].external] == r[e];
    }
    FirstOccurrenceExtend(ids, i, r, r);
  }

  /** Record `i` opens the cluster `numUnique + 1`: it becomes the next root. */
  lemma NewRootStep<I>(ids: seq<IdRecord<I>>, i: nat, rs: map<ExternalId, nat>, r: map<ExternalId, nat>,
                       numUnique: nat, roots: seq<nat>)
    requires i < |ids|
    requires forall k :: 0 <= k < i ==> ids[k].external in rs
    requires forall e :: e in rs ==> 1 <= rs[e] <= numUnique
    requires forall e :: e in rs ==> e in r && r[e] == rs[e]
    requires ids[i].external in r && r[ids[i].external] == numUnique + 1
    requires FirstOccurrence(ids, i, rs)
    requires |roots| == numUnique
    requires forall v :: 0 <= v < |roots| ==> roots[v] < i && ids[roots[v]].external in rs && rs[ids[roots[v]].external] == v + 1
    ensures forall k :: 0 <= k < i + 1 ==> ids[k].external in r
    ensures FirstOccurrence(ids, i + 1, r)
    ensures forall v :: 0 <= v < |roots + [i]| ==>
      (roots + [i])[v] < i + 1 && ids[(roots + [i])[v]].external in r && r[ids[(roots + [i])[v]].external] == v + 1
  {
    var e := ids[i].external;
    assert FirstAt(ids, i, r) by {
      forall j | 0 <= j < i ensures r[ids[j].external] < r[e] {
        assert ids[j].external in rs;
      }
    }
    FirstOccurrenceExtend(ids, i, rs, r);
    var roots' := roots + [i];
    forall v | 0 <= v < |roots'| ensures roots'[v] < i + 1 && ids[roots'[v]].external in r && r[ids[roots'[v]].external] == v + 1 {
      if v < |roots| {
        assert roots'[v] == roots[v];
        assert ids[roots[v]].external in rs;
      }
    }
  }

  /** A record without individual ids is a cluster of its own. */
  lemma EmptyStep<I(!new)>(ids: seq<IdRecord<I>>, i: nat, e2i0: map<ExternalId, seq<I>>, i2e0: map<I, seq<ExternalId>>,
                           e2i: map<ExternalId, seq<I>>, i2e: map<I, seq<ExternalId>>, r: map<ExternalId, nat>,
                           numEmpty: nat, numUnique: nat, roots: seq<nat>)
    requires i < |ids| && DistinctExternals(ids) && Mirrored(ids, e2i0, i2e0)
    requires forall k :: 0 <= k < i ==> ids[k].external in r
    requires forall e :: e in r ==> 1 <= r[e] <= numUnique
    requires ClustersSoFar(ids, i, e2i0, i2e0, e2i, i2e, r, numEmpty, numUnique, roots)
    requires ids[i].external !in r && ids[i].individual == []
    ensures forall k :: 0 <= k < i + 1 ==> ids[k].external in r[ids[i].external := numUnique + 1]
    ensures ClustersSoFar(ids, i + 1, e2i0, i2e0, e2i - {ids[i].external}, i2e, r[ids[i].external := numUnique + 1],
                          numEmpty + 1, numUnique + 1, roots + [i])
  {
    var e := ids[i].external;
    var r' := r[e := numUnique + 1];
    assert e2i0[e] == [];
    forall x | x in i2e0 ensures e !in i2e0[x] {
      assert x !in e2i0[e];
    }
    NewRootStep(ids, i, r, r', numUnique, roots);
    LinkedRefl(ids, e);
    RootLinkedExtend(ids, i, r, r', roots);
  }

  /** After the breadth-first search of a new cluster. */
  lemma ClusterStep<I(!new)>(ids: seq<IdRecord<I>>, i: nat, e2i0: map<ExternalId, seq<I>>, i2e0: map<I, seq<ExternalId>>,
                             e2is: map<ExternalId, seq<I>>, i2es: map<I, seq<ExternalId>>, rs: map<ExternalId, nat>,
                             e2i: map<ExternalId, seq<I>>, i2e: map<I, seq<ExternalId>>, r: map<ExternalId, nat>,
                             numEmpty: nat, numUnique: nat, roots: seq<nat>)
    requires i < |ids| && DistinctExternals(ids) && Mirrored(ids, e2i0, i2e0)
    requires forall k :: 0 <= k < i ==> ids[k].external in rs
    requires forall e :: e in rs ==> 1 <= rs[e] <= numUnique
    requires ClustersSoFar(ids, i, e2i0, i2e0, e2is, i2es, rs, numEmpty, numUnique, roots)
    requires ids[i].external !in rs && ids[i].individual != []
    requires VisitedAgree(i2e0, i2e, r) && ExpandedExcept(e2i0, e2i, r, {}) && AllVisited(e2i0, i2e, r)
    requires forall e :: e in rs ==> e in r && r[e] == rs[e]
    requires forall e :: e in r ==> e in rs || (r[e] == numUnique + 1 && e in e2i0 && e2i0[e] != [])
    requires forall e {:trigger Linked(ids, ids[i].external, e)} :: e in r && e !in rs ==> Linked(ids, ids[i].external, e)
    requires ids[i].external in r
    ensures forall k :: 0 <= k < i + 1 ==> ids[k].external in r
    ensures ClustersSoFar(ids, i + 1, e2i0, i2e0, e2i, i2e, r, numEmpty, numUnique + 1, roots + [i])
  {
    var e := ids[i].external;
    assert r[e] == numUnique + 1;
    NewRootStep(ids, i, rs, r, numUnique, roots);
    RootLinkedExtend(ids, i, rs, r, roots);
    forall f | f in r && f in e2i0 ensures e2i0[f] != [] || exists k :: 0 <= k < i + 1 && ids[k].external == f {
      if f in rs && e2i0[f] == [] {
        var k :| 0 <= k < i && ids[k].external == f;
        assert 0 <= k < i + 1;
      }
    }
  }

  /** Once every record is passed, records that share an individual id share their unique id. */
  lemma SharedDone<I(!new)>(ids: seq<IdRecord<I>>, e2i0: map<ExternalId, seq<I>>, i2e0: map<I, seq<ExternalId>>,
                            e2i: map<ExternalId, seq<I>>, i2e: map<I, seq<ExternalId>>, r: map<ExternalId, nat>,
                            numEmpty: nat, numUnique: nat, roots: seq<nat>)
    requires Indexed(ids, e2i0, i2e0) && Mirrored(ids, e2i0, i2e0)
    requires forall k :: 0 <= k < |ids| ==> ids[k].external in r
    requires ClustersSoFar(ids, |ids|, e2i0, i2e0, e2i, i2e, r, numEmpty, numUnique, roots)
    ensures SharedSameId(ids, r)
  {
    forall j, k, x | 0 <= j < |ids| && 0 <= k < |ids| && x in ids[j].individual && x in ids[k].individual
      ensures r[ids[j].external] == r[ids[k].external]
    {
      assert x in e2i0[ids[j].external];
      assert x !in i2e;
    }
  }

  /** Once every record is passed, the clusters are what `find_clusters` promises. */
  lemma ClustersDone<I(!new)>(ids: seq<IdRecord<I>>, e2i0: map<ExternalId, seq<I>>, i2e0: map<I, seq<ExternalId>>,
                              e2i: map<ExternalId, seq<I>>, i2e: map<I, seq<ExternalId>>, r: map<ExternalId, nat>,
                              numEmpty: nat, numUnique: nat, roots: seq<nat>)
    requires Indexed(ids, e2i0, i2e0) && Mirrored(ids, e2i0, i2e0)
    requires forall k :: 0 <= k < |ids| ==> ids[k].external in r
    requires ClustersSoFar(ids, |ids|, e2i0, i2e0, e2i, i2e, r, numEmpty, numUnique, roots)
    ensures Clustered(ids, IdCombinationResult(numEmpty, numUnique, r))
  {
    SharedDone(ids, e2i0, i2e0, e2i, i2e, r, numEmpty, numUnique, roots);
    forall v | 1 <= v <= numUnique ensures Attained(ids, r, v) {
      assert r[ids[roots[v - 1]].external] == v;
    }
    forall j, k | 0 <= j < |ids| && 0 <= k < |ids|
      ensures r[ids[j].external] == r[ids[k].external] <==> Linked(ids, ids[j].external, ids[k].external)
    {
      var e, f := ids[j].external, ids[k].external;
      if r[e] == r[f] {
        var root := RootOf(ids, r, roots, e);
        assert Linked(ids, root, e) && Linked(ids, RootOf(ids, r, roots, f), f);
        LinkedSymm(ids, root, e);
        LinkedTrans(ids, e, root, f);
      }
      if Linked(ids, e, f) {
        LinkedSameId(ids, r, e, f);
      }
    }
  }

  /** The state of `find_clusters` after the first `i` records, whatever the records. */
  ghost predicate Scanned<I(!new)>(ids: seq<IdRecord<I>>, i: nat, e2i0: map<ExternalId, seq<I>>, i2e0: map<I, seq<ExternalId>>,
                                   e2i: map<ExternalId, seq<I>>, i2e: map<I, seq<ExternalId>>, r: map<ExternalId, nat>,
                                   numEmpty: nat, numUnique: nat, roots: seq<nat>) {
    && i <= |ids| && numUnique <= i
    && Indexed(ids, e2i0, i2e0)
    && Drained(e2i, i2e, e2i0, i2e0)
    && VisitedAssigned(i2e0, i2e, r)
    && (forall e :: e in r ==> e in e2i0 && 1 <= r[e] <= numUnique)
    && (forall k :: 0 <= k < i ==> ids[k].external in r)
    && (DistinctExternals(ids) ==>
          Mirrored(ids, e2i0, i2e0) && ClustersSoFar(ids, i, e2i0, i2e0, e2i, i2e, r, numEmpty, numUnique, roots))
  }

  /** The state of the spread of the cluster `u`, isNew by record `i`, before a round with frontier `f`. */
  ghost predicate Spreading<I(!new)>(ids: seq<IdRecord<I>>, i: nat, e2i0: map<ExternalId, seq<I>>, i2e0: map<I, seq<ExternalId>>,
                                     rs: map<ExternalId, nat>, u: nat, first: bool, f: seq<I>,
                                     e2i: map<ExternalId, seq<I>>, i2e: map<I, seq<ExternalId>>, r: map<ExternalId, nat>) {
    && i < |ids| && ids[i].individual != [] && 1 <= u
    && Indexed(ids, e2i0, i2e0)
    && Drained(e2i, i2e, e2i0, i2e0)
    && VisitedAssigned(i2e0, i2e, r)
    && (forall e :: e in r ==> e in e2i0 && 1 <= r[e] <= u)
    && (forall e :: e in rs ==> e in r)
    && (first ==> f == ids[i].individual)
    && (!first ==> ids[i].external in r)
    && (DistinctExternals(ids) ==>
          && Mirrored(ids, e2i0, i2e0)
          && VisitedAgree(i2e0, i2e, r)
          && ExpandedExcept(e2i0, e2i, r, {})
          && Finished(e2i0, i2e, r, u, f)
          && (forall e :: e in rs ==> r[e] == rs[e])
          && (forall e :: e in r ==> e in rs || (r[e] == u && e in e2i0 && e2i0[e] != []))
          && (forall e {:trigger Linked(ids, ids[i].external, e)} :: e in r && e !in rs ==> Linked(ids, ids[i].external, e))
          && (forall x {:trigger Attached(ids, ids[i].external, x)} :: x in f ==> Attached(ids, ids[i].external, x)))
  }

  /** As `Spreading`, halfway through a round that reached the new external ids `n`. */
  ghost predicate SpreadingPending<I(!new)>(ids: seq<IdRecord<I>>, i: nat, e2i0: map<ExternalId, seq<I>>, i2e0: map<I, seq<ExternalId>>,
                                            rs: map<ExternalId, nat>, u: nat, n: set<ExternalId>,
                                            e2i: map<ExternalId, seq<I>>, i2e: map<I, seq<ExternalId>>, r: map<ExternalId, nat>) {
    && i < |ids| && 1 <= u
    && Indexed(ids, e2i0, i2e0)
    && Drained(e2i, i2e, e2i0, i2e0)
    && VisitedAssigned(i2e0, i2e, r)
    && (forall e :: e in r ==> e in e2i0 && 1 <= r[e] <= u)
    && (forall e :: e in rs ==> e in r)
    && ids[i].external in r
    && (forall e :: e in n ==> e in r && e in e2i0)
    && (DistinctExternals(ids) ==>
          && Mirrored(ids, e2i0, i2e0)
          && VisitedAgree(i2e0, i2e, r)
          && ExpandedExcept(e2i0, e2i, r, n)
          && FinishedPending(e2i0, i2e, r, u, n)
          && (forall e :: e in rs ==> r[e] == rs[e])
          && (forall e :: e in r ==> e in rs || (r[e] == u && e in e2i0 && e2i0[e] != []))
          && (forall e {:trigger Linked(ids, ids[i].external, e)} :: e in r && e !in rs ==> Linked(ids, ids[i].external, e))
          && (forall e {:trigger Linked(ids, ids[i].external, e)} :: e in n ==> Linked(ids, ids[i].external, e)))
  }

  /** The state once the cluster `u`, isNew by record `i`, has spread as far as it goes. */
  ghost predicate Spread<I(!new)>(ids: seq<IdRecord<I>>, i: nat, e2i0: map<ExternalId, seq<I>>, i2e0: map<I, seq<ExternalId>>,
                                  rs: map<ExternalId, nat>, u: nat,
                                  e2i: map<ExternalId, seq<I>>, i2e: map<I, seq<ExternalId>>, r: map<ExternalId, nat>) {
    && i < |ids|
    && Drained(e2i, i2e, e2i0, i2e0)
    && VisitedAssigned(i2e0, i2e, r)
    && (forall e :: e in r ==> e in e2i0 && 1 <= r[e] <= u)
    && (forall e :: e in rs ==> e in r)
    && ids[i].external in r
    && (DistinctExternals(ids) ==>
          && VisitedAgree(i2e0, i2e, r)
          && ExpandedExcept(e2i0, e2i, r, {})
          && AllVisited(e2i0, i2e, r)
          && (forall e :: e in rs ==> r[e] == rs[e])
          && (forall e :: e in r ==> e in rs || (r[e] == u && e in e2i0 && e2i0[e] != []))
          && (forall e {:trigger Linked(ids, ids[i].external, e)} :: e in r && e !in rs ==> Linked(ids, ids[i].external, e)))
  }

  /** Before the first record. */
  lemma ScanStart<I(!new)>(ids: seq<IdRecord<I>>, e2i0: map<ExternalId, seq<I>>, i2e0: map<I, seq<ExternalId>>)
    requires FilledFrom(ids, e2i0, i2e0)
    ensures Scanned(ids, 0, e2i0, i2e0, e2i0, i2e0, map[], 0, 0, [])
  {
    FilledIndexed(ids, e2i0, i2e0);
  }

  /** Record `i` was already reached by an earlier cluster. */
  lemma ScanSkip<I(!new)>(ids: seq<IdRecord<I>>, i: nat, next: nat, e2i0: map<ExternalId, seq<I>>, i2e0: map<I, seq<ExternalId>>,
                          e2i: map<ExternalId, seq<I>>, i2e: map<I, seq<ExternalId>>, r: map<ExternalId, nat>,
                          numEmpty: nat, numUnique: nat, roots: seq<nat>)
    requires Scanned(ids, i, e2i0, i2e0, e2i, i2e, r, numEmpty, numUnique, roots)
    requires i < |ids| && ids[i].external in r && next == i + 1
    ensures Scanned(ids, next, e2i0, i2e0, e2i, i2e, r, numEmpty, numUnique, roots)
  {
    if DistinctExternals(ids) {
      SkipStep(ids, i, e2i0, i2e0, e2i, i2e, r, numEmpty, numUnique, roots);
    }
  }

  /** Record `i` opens a cluster of its own, having no individual id. */
  lemma ScanEmpty<I(!new)>(ids: seq<IdRecord<I>>, i: nat, next: nat, e2i0: map<ExternalId, seq<I>>, i2e0: map<I, seq<ExternalId>>,
                           e2i: map<ExternalId, seq<I>>, i2e: map<I, seq<ExternalId>>, r: map<ExternalId, nat>,
                           numEmpty: nat, numUnique: nat, roots: seq<nat>,
                           e2i': map<ExternalId, seq<I>>, i2e': map<I, seq<ExternalId>>, r': map<ExternalId, nat>,
                           numEmpty': nat, numUnique': nat, roots': seq<nat>)
    requires Scanned(ids, i, e2i0, i2e0, e2i, i2e, r, numEmpty, numUnique, roots)
    requires i < |ids| && ids[i].external !in r && ids[i].individual == []
    requires next == i + 1 && e2i' == e2i - {ids[i].external} && i2e' == i2e && r' == r[ids[i].external := numUnique + 1]
    requires numEmpty' == numEmpty + 1 && numUnique' == numUnique + 1 && roots' == roots + [i]
    ensures Scanned(ids, next, e2i0, i2e0, e2i', i2e', r', numEmpty', numUnique', roots')
  {
    var e := ids[i].external;
    assert HasExternal(ids, e);
    if DistinctExternals(ids) {
      EmptyStep(ids, i, e2i0, i2e0, e2i, i2e, r, numEmpty, numUnique, roots);
    }
  }

  /** Record `i` opens a cluster that is to spread from its individual ids. */
  lemma ScanOpen<I(!new)>(ids: seq<IdRecord<I>>, i: nat, e2i0: map<ExternalId, seq<I>>, i2e0: map<I, seq<ExternalId>>,
                          e2i: map<ExternalId, seq<I>>, i2e: map<I, seq<ExternalId>>, r: map<ExternalId, nat>,
                          numEmpty: nat, numUnique: nat, roots: seq<nat>,
                          rs: map<ExternalId, nat>, u: nat,
                          e2i': map<ExternalId, seq<I>>, i2e': map<I, seq<ExternalId>>, r': map<ExternalId, nat>)
    requires Scanned(ids, i, e2i0, i2e0, e2i, i2e, r, numEmpty, numUnique, roots)
    requires i < |ids| && ids[i].external !in r && ids[i].individual != []
    requires rs == r && u == numUnique + 1 && e2i' == e2i && i2e' == i2e && r' == r
    ensures Spreading(ids, i, e2i0, i2e0, rs, u, true, ids[i].individual, e2i', i2e', r')
  {
    LinkedRefl(ids, ids[i].external);
    forall x | x in ids[i].individual ensures Attached(ids, ids[i].external, x) {
      assert x in ids[i].individual && Linked(ids, ids[i].external, ids[i].external);
    }
  }

  /** The cluster isNew by record `i` has spread. */
  lemma ScanCluster<I(!new)>(ids: seq<IdRecord<I>>, i: nat, next: nat, e2i0: map<ExternalId, seq<I>>, i2e0: map<I, seq<ExternalId>>,
                             e2is: map<ExternalId, seq<I>>, i2es: map<I, seq<ExternalId>>, rs: map<ExternalId, nat>,
                             numEmpty: nat, numUnique: nat, roots: seq<nat>, rs': map<ExternalId, nat>, u: nat,
                             e2i: map<ExternalId, seq<I>>, i2e: map<I, seq<ExternalId>>, r: map<ExternalId, nat>,
                             numEmpty': nat, numUnique': nat, roots': seq<nat>)
    requires Scanned(ids, i, e2i0, i2e0, e2is, i2es, rs, numEmpty, numUnique, roots)
    requires i < |ids| && ids[i].external !in rs && ids[i].individual != []
    requires rs' == rs && u == numUnique + 1 && Spread(ids, i, e2i0, i2e0, rs', u, e2i, i2e, r)
    requires next == i + 1 && numEmpty' == numEmpty && numUnique' == u && roots' == roots + [i]
    ensures Scanned(ids, next, e2i0, i2e0, e2i, i2e, r, numEmpty', numUnique', roots')
  {
    forall k | 0 <= k < i + 1 ensures ids[k].external in r {
      if k < i {
        assert ids[k].external in rs;
      }
    }
    if DistinctExternals(ids) {
      ClusterStep(ids, i, e2i0, i2e0, e2is, i2es, rs, e2i, i2e, r, numEmpty, numUnique, roots);
    }
  }

  /** Once every record is passed. */
  lemma ScanDone<I(!new)>(ids: seq<IdRecord<I>>, e2i0: map<ExternalId, seq<I>>, i2e0: map<I, seq<ExternalId>>,
                          e2i: map<ExternalId, seq<I>>, i2e: map<I, seq<ExternalId>>, r: map<ExternalId, nat>,
                          numEmpty: nat, numUnique: nat, roots: seq<nat>, n: nat)
    requires n == |ids| && Scanned(ids, n, e2i0, i2e0, e2i, i2e, r, numEmpty, numUnique, roots)
    ensures forall e :: e in r <==> HasExternal(ids, e)
    ensures forall e :: e in r ==> 1 <= r[e] <= numUnique
    ensures numUnique <= |ids|
    ensures DistinctExternals(ids) ==> Clustered(ids, IdCombinationResult(numEmpty, numUnique, r))
  {
    forall e | HasExternal(ids, e) ensures e in r {
      var k :| 0 <= k < |ids| && ids[k].external == e;
    }
    if DistinctExternals(ids) {
      ClustersDone(ids, e2i0, i2e0, e2i, i2e, r, numEmpty, numUnique, roots);
    }
  }

  /** The first half of a round: `gather_external_ids` with frontier `f`. */
  lemma SpreadExternal<I(!new)>(ids: seq<IdRecord<I>>, i: nat, e2i0: map<ExternalId, seq<I>>, i2e0: map<I, seq<ExternalId>>,
                                rs: map<ExternalId, nat>, u: nat, first: bool, f: seq<I>,
                                e2i: map<ExternalId, seq<I>>, i2e: map<I, seq<ExternalId>>, r: map<ExternalId, nat>,
                                i2e': map<I, seq<ExternalId>>, r': map<ExternalId, nat>, n: set<ExternalId>)
    requires Spreading(ids, i, e2i0, i2e0, rs, u, first, f, e2i, i2e, r)
    requires GatheredExternal(i2e, r, i2e', r', f, u, n)
    ensures SpreadingPending(ids, i, e2i0, i2e0, rs, u, n, e2i, i2e', r')
    ensures n != {} ==> i2e'.Keys < i2e.Keys
  {
    GatherExternalKeeps(ids, e2i0, i2e0, e2i, i2e, r, i2e', r', f, u, n, u);
    if first {
      assert ids[i].individual[0] in f;
    }
    forall e | e in n ensures e in r' && e in e2i0 {
      var x :| x in f && x in i2e && e in i2e[x];
    }
    if DistinctExternals(ids) {
      GatherExternalClusters(ids, e2i0, i2e0, e2i, i2e, r, i2e', r', f, u, n);
      GatherExternalLinked(ids, e2i0, i2e0, e2i, i2e, r, i2e', r', f, u, n, rs, ids[i].external);
    }
  }

  /** The second half of a round: `gather_individual_ids` on the new external ids `n`. */
  lemma SpreadIndividual<I(!new)>(ids: seq<IdRecord<I>>, i: nat, e2i0: map<ExternalId, seq<I>>, i2e0: map<I, seq<ExternalId>>,
                                  rs: map<ExternalId, nat>, u: nat, n: set<ExternalId>,
                                  e2i: map<ExternalId, seq<I>>, i2e: map<I, seq<ExternalId>>, r: map<ExternalId, nat>,
                                  e2i': map<ExternalId, seq<I>>, f': seq<I>)
    requires SpreadingPending(ids, i, e2i0, i2e0, rs, u, n, e2i, i2e, r)
    requires GatheredIndividual(e2i, e2i', n, f')
    requires ids[i].individual != []
    ensures Spreading(ids, i, e2i0, i2e0, rs, u, false, f', e2i', i2e, r)
  {
    if DistinctExternals(ids) {
      GatherIndividualClusters(ids, e2i0, i2e0, e2i, i2e, r, e2i', u, n, f');
      GatherIndividualLinked(ids, e2i0, i2e0, e2i, i2e, e2i', n, f', ids[i].external);
    }
  }

  /** A round that reaches no new external id ends the spread. */
  lemma SpreadStopExternal<I(!new)>(ids: seq<IdRecord<I>>, i: nat, e2i0: map<ExternalId, seq<I>>, i2e0: map<I, seq<ExternalId>>,
                                    rs: map<ExternalId, nat>, u: nat,
                                    e2i: map<ExternalId, seq<I>>, i2e: map<I, seq<ExternalId>>, r: map<ExternalId, nat>)
    requires SpreadingPending(ids, i, e2i0, i2e0, rs, u, {}, e2i, i2e, r)
    ensures Spread(ids, i, e2i0, i2e0, rs, u, e2i, i2e, r)
  {
    if DistinctExternals(ids) {
      PendingNoneVisited(e2i0, i2e, r, u);
    }
  }

  /** An empty frontier ends the spread. */
  lemma SpreadStopIndividual<I(!new)>(ids: seq<IdRecord<I>>, i: nat, e2i0: map<ExternalId, seq<I>>, i2e0: map<I, seq<ExternalId>>,
                                      rs: map<ExternalId, nat>, u: nat,
                                      e2i: map<ExternalId, seq<I>>, i2e: map<I, seq<ExternalId>>, r: map<ExternalId, nat>)
    requires Spreading(ids, i, e2i0, i2e0, rs, u, false, [], e2i, i2e, r)
    ensures Spread(ids, i, e2i0, i2e0, rs, u, e2i, i2e, r)
  {
    if DistinctExternals(ids) {
      FinishedNoneVisited(e2i0, i2e, r, u);
    }
  }

  /** `IdCombinationResult`. */
  datatype IdCombinationResult = IdCombinationResult(
    numEmptyIds: nat,
    numUniqueIds: nat,
    externalToUnique: map<ExternalId, nat>)

  // ---------------------------------------------------------------------
  // The combiner

  /**
   * `IdCombiner`: two indexes between external and individual ids, drained
   * while the clusters are found, and the result being built. Unique ids are
   * the values 1, 2, 3, ... of the counter.
   */
  class IdCombiner<I(==, !new)> {
    /** The order of the individual ids (their derived `Ord`). */
    const less: (I, I) -> bool
    var externalToIndividuals: map<ExternalId, seq<I>>
    var individualToExternals: map<I, seq<ExternalId>>
    var externalToUnique: map<ExternalId, nat>
    var numEmptyIds: nat
    var numUniqueIds: nat

    /** `IdCombiner::new`, over freshly created (empty) buckets. */
    constructor(less: (I, I) -> bool)
      ensures this.less == less
      ensures externalToIndividuals == map[] && individualToExternals == map[]
      ensures externalToUnique == map[] && numEmptyIds == 0 && numUniqueIds == 0
    {
      this.less := less;
      externalToIndividuals := map[];
      individualToExternals := map[];
      externalToUnique := map[];
      numEmptyIds := 0;
      numUniqueIds := 0;
    }

    /**
     * The inner loop of `fill_ids`: `e` is added to the list of each of its
     * individual ids, which is then sorted and freed of repeats.
     */
    method IndexRecord(e: ExternalId, xs: seq<I>)
      modifies this
      ensures externalToIndividuals == old(externalToIndividuals) && externalToUnique == old(externalToUnique)
      ensures numEmptyIds == old(numEmptyIds) && numUniqueIds == old(numUniqueIds)
      ensures IndexedWith(individualToExternals, old(individualToExternals), xs, e)
    {
      var m := individualToExternals;
      ghost var m0 := m;
      var k := 0;
      while k < |xs|
        invariant 0 <= k <= |xs|
        invariant unchanged(this)
        invariant IndexedWith(m, m0, xs[..k], e)
      {
        var x := xs[k];
        ghost var before, done := m, xs[..k];
        var entry := IndexEntry(m, x, e);
        m := m[x := entry];
        k := k + 1;
        IndexedStep(before, m0, done, e, x, entry, m, xs[..k]);
      }
      assert xs[..k] == xs;
      individualToExternals := m;
    }

    /**
     * `fill_ids`: for each record, its external id joins the list of each of
     * its individual ids, and its individual ids are stored under its
     * external id (a later record with the same external id overwrites).
     */
    method FillIds(ids: seq<IdRecord<I>>)
      modifies this
      ensures FilledOver(ids, old(externalToIndividuals), old(individualToExternals),
                         externalToIndividuals, individualToExternals)
      ensures externalToUnique == old(externalToUnique)
      ensures numEmptyIds == old(numEmptyIds) && numUniqueIds == old(numUniqueIds)
    {
      var i := 0;
      while i < |ids|
        invariant 0 <= i <= |ids|
        invariant FilledOver(ids[..i], old(externalToIndividuals), old(individualToExternals),
                             externalToIndividuals, individualToExternals)
        invariant externalToUnique == old(externalToUnique)
        invariant numEmptyIds == old(numEmptyIds) && numUniqueIds == old(numUniqueIds)
      {
        var k := i;
        ghost var e2i, i2e := externalToIndividuals, individualToExternals;
        IndexRecord(ids[i].external, ids[i].individual);
        externalToIndividuals := externalToIndividuals[ids[i].external := ids[i].individual];
        i := i + 1;
        FillStep(ids, k, i, old(externalToIndividuals), old(individualToExternals), e2i, i2e,
                 externalToIndividuals, individualToExternals);
      }
      assert ids[..i] == ids;
    }

    /**
     * The inner loop of `gather_external_ids`: each external id of the list
     * is given the unique id; those that had none yet are new.
     */
    method AssignAll(externals: seq<ExternalId>, uniqueId: nat) returns (added: set<ExternalId>)
      modifies this
      ensures externalToIndividuals == old(externalToIndividuals) && individualToExternals == old(individualToExternals)
      ensures numEmptyIds == old(numEmptyIds) && numUniqueIds == old(numUniqueIds)
      ensures forall e :: e in externalToUnique <==> e in old(externalToUnique) || e in externals
      ensures forall e :: e in externalToUnique ==>
        externalToUnique[e] == if e in externals then uniqueId else old(externalToUnique)[e]
      ensures forall e :: e in added <==> e in externals && e !in old(externalToUnique)
    {
      added := {};
      var m := 0;
      while m < |externals|
        invariant 0 <= m <= |externals|
        invariant externalToIndividuals == old(externalToIndividuals) && individualToExternals == old(individualToExternals)
        invariant numEmptyIds == old(numEmptyIds) && numUniqueIds == old(numUniqueIds)
        invariant forall e :: e in externalToUnique <==> e in old(externalToUnique) || e in externals[..m]
        invariant forall e :: e in externalToUnique ==>
          externalToUnique[e] == if e in externals[..m] then uniqueId else old(externalToUnique)[e]
        invariant forall e :: e in added <==> e in externals[..m] && e !in old(externalToUnique)
      {
        var e := externals[m];
        var isNew := e !in externalToUnique;
        externalToUnique := externalToUnique[e := uniqueId];
        if isNew {
          added := added + {e};
        }
        assert externals[..m + 1] == externals[..m] + [e];
        m := m + 1;
      }
      assert externals[..m] == externals;
    }

    /**
     * `gather_external_ids`: every individual id of the list is taken out of
     * its index, and every external id it lists gets the unique id; returns
     * the external ids that had none before.
     */
    method GatherExternalIds(individualIds: seq<I>, uniqueId: nat) returns (newIds: set<ExternalId>)
      modifies this
      ensures externalToIndividuals == old(externalToIndividuals)
      ensures numEmptyIds == old(numEmptyIds) && numUniqueIds == old(numUniqueIds)
      ensures GatheredExternal(old(individualToExternals), old(externalToUnique), individualToExternals, externalToUnique,
                               individualIds, uniqueId, newIds)
    {
      ghost var i2e0 := individualToExternals;
      ghost var r0 := externalToUnique;
      newIds := {};
      var k := 0;
      while k < |individualIds|
        invariant 0 <= k <= |individualIds|
        invariant externalToIndividuals == old(externalToIndividuals)
        invariant numEmptyIds == old(numEmptyIds) && numUniqueIds == old(numUniqueIds)
        invariant forall x :: x in individualToExternals <==> x in i2e0 && x !in individualIds[..k]
        invariant forall x :: x in individualToExternals ==> individualToExternals[x] == i2e0[x]
        invariant forall e :: e in externalToUnique <==> e in r0 || ReachedBy(i2e0, individualIds[..k], e)
        invariant forall e :: e in externalToUnique ==>
          externalToUnique[e] == if ReachedBy(i2e0, individualIds[..k], e) then uniqueId else r0[e]
        invariant forall e :: e in newIds <==> ReachedBy(i2e0, individualIds[..k], e) && e !in r0
      {
        var x := individualIds[k];
        assert individualIds[..k + 1] == individualIds[..k] + [x];
        ReachedStep(i2e0, individualIds[..k], x);
        if x in individualToExternals {
          var externals := individualToExternals[x];
          individualToExternals := individualToExternals - {x};
          var added := AssignAll(externals, uniqueId);
          newIds := newIds + added;
        } else {
          forall e | x in i2e0 && e in i2e0[x] ensures ReachedBy(i2e0, individualIds[..k], e) {
            assert x in individualIds[..k];
          }
        }
        k := k + 1;
      }
      assert individualIds[..k] == individualIds;
    }

    /**
     * `gather_individual_ids`: every external id of the set, in ascending
     * order, is taken out of its index, and the individual ids it listed are
     * collected, sorted and freed of repeats.
     */
    method GatherIndividualIds(externalIds: set<ExternalId>) returns (newIds: seq<I>)
      requires IsStrictTotalOrder(less)
      modifies this
      ensures individualToExternals == old(individualToExternals) && externalToUnique == old(externalToUnique)
      ensures numEmptyIds == old(numEmptyIds) && numUniqueIds == old(numUniqueIds)
      ensures GatheredIndividual(old(externalToIndividuals), externalToIndividuals, externalIds, newIds)
      ensures StrictlySorted(newIds, less)
    {
      ExternalLessIsStrictTotalOrder();
      ghost var e2i0 := externalToIndividuals;
      var collected: seq<I> := [];
      var todo := externalIds;
      while todo != {}
        invariant todo <= externalIds
        invariant individualToExternals == old(individualToExternals) && externalToUnique == old(externalToUnique)
        invariant numEmptyIds == old(numEmptyIds) && numUniqueIds == old(numUniqueIds)
        invariant forall e :: e in externalToIndividuals <==> e in e2i0 && (e !in externalIds || e in todo)
        invariant forall e :: e in externalToIndividuals ==> externalToIndividuals[e] == e2i0[e]
        invariant forall x :: x in collected <==> ListedFor(e2i0, externalIds - todo, x)
        decreases todo
      {
        LeastExists(todo, ExternalLess);
        var e :| IsLeast(e, todo, ExternalLess);
        if e in externalToIndividuals {
          var individuals := externalToIndividuals[e];
          externalToIndividuals := externalToIndividuals - {e};
          collected := collected + individuals;
        }
        forall x ensures ListedFor(e2i0, externalIds - (todo - {e}), x) <==> ListedFor(e2i0, externalIds - todo, x) || (e in e2i0 && x in e2i0[e]) {
          if ListedFor(e2i0, externalIds - (todo - {e}), x) {
            var f :| f in externalIds - (todo - {e}) && f in e2i0 && x in e2i0[f];
            if f != e {
              assert f in externalIds - todo;
            }
          }
        }
        todo := todo - {e};
      }
      newIds := SortDedup(collected, less);
      SortDedupSpec(collected, less);
    }

    /**
     * The `loop` of `find_clusters` for record `i`, which opens the cluster
     * `uniqueId`: alternate rounds of `gather_external_ids` and
     * `gather_individual_ids` until either finds nothing new.
     */
    method SpreadCluster(ghost ids: seq<IdRecord<I>>, ghost i: nat, ghost e2i0: map<ExternalId, seq<I>>,
                         ghost i2e0: map<I, seq<ExternalId>>, ghost rs: map<ExternalId, nat>,
                         individualIds: seq<I>, uniqueId: nat)
      requires IsStrictTotalOrder(less)
      requires rs == externalToUnique
      requires Spreading(ids, i, e2i0, i2e0, rs, uniqueId, true, individualIds,
                         externalToIndividuals, individualToExternals, externalToUnique)
      modifies this
      ensures numEmptyIds == old(numEmptyIds) && numUniqueIds == old(numUniqueIds)
      ensures Spread(ids, i, e2i0, i2e0, rs, uniqueId, externalToIndividuals, individualToExternals, externalToUnique)
    {
      ghost var first := true;
      var frontier := individualIds;
      while true
        invariant numEmptyIds == old(numEmptyIds) && numUniqueIds == old(numUniqueIds)
        invariant Spreading(ids, i, e2i0, i2e0, rs, uniqueId, first, frontier,
                            externalToIndividuals, individualToExternals, externalToUnique)
        decreases individualToExternals.Keys
      {
        ghost var i2e1, r1 := individualToExternals, externalToUnique;
        var externalIds := GatherExternalIds(frontier, uniqueId);
        SpreadExternal(ids, i, e2i0, i2e0, rs, uniqueId, first, frontier, externalToIndividuals, i2e1, r1,
                       individualToExternals, externalToUnique, externalIds);
        if externalIds == {} {
          SpreadStopExternal(ids, i, e2i0, i2e0, rs, uniqueId,
                             externalToIndividuals, individualToExternals, externalToUnique);
          break;
        }
        ghost var e2i2 := externalToIndividuals;
        frontier := GatherIndividualIds(externalIds);
        first := false;
        SpreadIndividual(ids, i, e2i0, i2e0, rs, uniqueId, externalIds, e2i2, individualToExternals, externalToUnique,
                         externalToIndividuals, frontier);
        if frontier == [] {
          SpreadStopIndividual(ids, i, e2i0, i2e0, rs, uniqueId,
                               externalToIndividuals, individualToExternals, externalToUnique);
          break;
        }
      }
    }

    /** The branch of `find_clusters` for a new record without individual ids. */
    method OpenEmpty(ids: seq<IdRecord<I>>, i: nat, ghost next: nat, ghost e2i0: map<ExternalId, seq<I>>,
                     ghost i2e0: map<I, seq<ExternalId>>, ghost roots: seq<nat>, ghost roots': seq<nat>)
      requires ScanState(ids, i, e2i0, i2e0, roots)
      requires i < |ids| && ids[i].external !in externalToUnique && ids[i].individual == []
      requires next == i + 1 && roots' == roots + [i]
      modifies this
      ensures numUniqueIds == old(numUniqueIds) + 1
      ensures ScanState(ids, next, e2i0, i2e0, roots')
    {
      var externalId := ids[i].external;
      numUniqueIds := numUniqueIds + 1;
      externalToIndividuals := externalToIndividuals - {externalId};
      numEmptyIds := numEmptyIds + 1;
      externalToUnique := externalToUnique[externalId := numUniqueIds];
      ScanEmpty(ids, i, next, e2i0, i2e0, old(externalToIndividuals), old(individualToExternals), old(externalToUnique),
                old(numEmptyIds), old(numUniqueIds), roots,
                externalToIndividuals, individualToExternals, externalToUnique, numEmptyIds, numUniqueIds, roots');
    }

    /** The branch of `find_clusters` for a new record with individual ids: its cluster is spread. */
    method OpenCluster(ids: seq<IdRecord<I>>, i: nat, ghost next: nat, ghost e2i0: map<ExternalId, seq<I>>,
                       ghost i2e0: map<I, seq<ExternalId>>, ghost roots: seq<nat>, ghost roots': seq<nat>)
      requires IsStrictTotalOrder(less)
      requires ScanState(ids, i, e2i0, i2e0, roots)
      requires i < |ids| && ids[i].external !in externalToUnique && ids[i].individual != []
      requires next == i + 1 && roots' == roots + [i]
      modifies this
      ensures numUniqueIds == old(numUniqueIds) + 1
      ensures ScanState(ids, next, e2i0, i2e0, roots')
    {
      numUniqueIds := numUniqueIds + 1;
      var uniqueId := numUniqueIds;
      ghost var rs := externalToUnique;
      ScanOpen(ids, i, e2i0, i2e0, old(externalToIndividuals), old(individualToExternals), old(externalToUnique),
               old(numEmptyIds), old(numUniqueIds), roots,
               rs, uniqueId, externalToIndividuals, individualToExternals, externalToUnique);
      SpreadCluster(ids, i, e2i0, i2e0, rs, ids[i].individual, uniqueId);
      ScanCluster(ids, i, next, e2i0, i2e0, old(externalToIndividuals), old(individualToExternals), old(externalToUnique),
                  old(numEmptyIds), old(numUniqueIds), roots, rs, uniqueId,
                  externalToIndividuals, individualToExternals, externalToUnique, numEmptyIds, numUniqueIds, roots');
    }

    /**
     * `find_clusters`: the records in order; a record whose external id has
     * no unique id yet opens a new one, which then spreads to every external
     * id reachable through shared individual ids. Whatever the records, every
     * external id gets a unique id between 1 and the count; with distinct
     * external ids the clusters are as `Clustered` says.
     */
    method FindClusters(ids: seq<IdRecord<I>>) returns (result: IdCombinationResult)
      requires IsStrictTotalOrder(less)
      requires FilledFrom(ids, externalToIndividuals, individualToExternals)
      requires externalToUnique == map[] && numEmptyIds == 0 && numUniqueIds == 0
      modifies this
      ensures result == IdCombinationResult(numEmptyIds, numUniqueIds, externalToUnique)
      ensures forall e :: e in result.externalToUnique <==> HasExternal(ids, e)
      ensures forall e :: e in result.externalToUnique ==> 1 <= result.externalToUnique[e] <= result.numUniqueIds
      ensures result.numUniqueIds <= |ids|
      ensures DistinctExternals(ids) ==> Clustered(ids, result)
    {
      ghost var e2i0 := externalToIndividuals;
      ghost var i2e0 := individualToExternals;
      ScanStart(ids, e2i0, i2e0);
      ghost var roots: seq<nat> := [];
      var uniqueId: nat := 0;
      var i := 0;
      while i < |ids|
        invariant i <= |ids|
        invariant uniqueId == numUniqueIds
        invariant ScanState(ids, i, e2i0, i2e0, roots)
      {
        var externalId := ids[i].external;
        var k := i;
        ghost var before := roots;
        i := i + 1;
        if externalId in externalToUnique {
          // This id was already processed.
          ScanSkip(ids, k, i, e2i0, i2e0, externalToIndividuals, individualToExternals, externalToUnique,
                   numEmptyIds, numUniqueIds, roots);
        } else {
          uniqueId := uniqueId + 1;
          roots := roots + [k];
          var individualIds := ids[k].individual;
          if individualIds == [] {
            OpenEmpty(ids, k, i, e2i0, i2e0, before, roots);
          } else {
            OpenCluster(ids, k, i, e2i0, i2e0, before, roots);
          }
        }
      }
      ScanDone(ids, e2i0, i2e0, externalToIndividuals, individualToExternals, externalToUnique,
               numEmptyIds, numUniqueIds, roots, i);
      result := IdCombinationResult(numEmptyIds, numUniqueIds, externalToUnique);
    }

    /** `Scanned`, on the combiner's own maps and counters. */
    ghost predicate ScanState(ids: seq<IdRecord<I>>, i: nat, e2i0: map<ExternalId, seq<I>>,
                              i2e0: map<I, seq<ExternalId>>, roots: seq<nat>)
      reads this
    {
      Scanned(ids, i, e2i0, i2e0, externalToIndividuals, individualToExternals, externalToUnique,
              numEmptyIds, numUniqueIds, roots)
    }

    /**
     * `combine`: `fill_ids`, then `find_clusters`, on a combiner fresh from
     * `new`.
     */
    method Combine(ids: seq<IdRecord<I>>) returns (result: IdCombinationResult)
      requires IsStrictTotalOrder(less)
      requires externalToIndividuals == map[] && individualToExternals == map[]
      requires externalToUnique == map[] && numEmptyIds == 0 && numUniqueIds == 0
      modifies this
      ensures forall e :: e in result.externalToUnique <==> HasExternal(ids, e)
      ensures forall e :: e in result.externalToUnique ==> 1 <= result.externalToUnique[e] <= result.numUniqueIds
      ensures result.numUniqueIds <= |ids|
      ensures DistinctExternals(ids) ==> Clustered(ids, result)
    {
      FillIds(ids);
      assert externalToIndividuals == IndexLast(ids, RecordExternal, RecordIndividuals);
      result := FindClusters(ids);
    }
  }

  /** What `fill_ids` does to indexes that held `e2i0` and `i2e0`. */
  ghost predicate FilledOver<I(!new)>(ids: seq<IdRecord<I>>, e2i0: map<ExternalId, seq<I>>, i2e0: map<I, seq<ExternalId>>,
                                      e2i: map<ExternalId, seq<I>>, i2e: map<I, seq<ExternalId>>) {
    && e2i == e2i0 + IndexLast(ids, RecordExternal, RecordIndividuals)
    && (forall x :: x in i2e <==> x in i2e0 || Mentions(ids, x))
    && (forall x, e :: x in i2e ==> (e in i2e[x] <==> (x in i2e0 && e in i2e0[x]) || Shares(ids, e, x)))
    && (forall x :: x in i2e && !Mentions(ids, x) ==> i2e[x] == i2e0[x])
    && (forall x :: Mentions(ids, x) ==> StrictlySorted(i2e[x], ExternalLess))
  }

  /** One more record through `fill_ids`. */
  lemma FillStep<I(!new)>(ids: seq<IdRecord<I>>, i: nat, next: nat,
                          e2i0: map<ExternalId, seq<I>>, i2e0: map<I, seq<ExternalId>>,
                          e2i: map<ExternalId, seq<I>>, i2e: map<I, seq<ExternalId>>,
                          e2i': map<ExternalId, seq<I>>, i2e': map<I, seq<ExternalId>>)
    requires i < |ids| && next == i + 1
    requires FilledOver(ids[..i], e2i0, i2e0, e2i, i2e)
    requires IndexedWith(i2e', i2e, ids[i].individual, ids[i].external)
    requires e2i' == e2i[ids[i].external := ids[i].individual]
    ensures FilledOver(ids[..next], e2i0, i2e0, e2i', i2e')
  {
    PrefixStep(ids, i);
    assert ids[..i + 1][..i] == ids[..i];
    FillLists(ids[..i], ids[..next], ids[i].individual, ids[i].external, i2e0, i2e, i2e');
  }

  /** The lists of `fill_ids` after one more record: the earlier ones, and the record's own external id. */
  lemma FillLists<I(!new)>(p: seq<IdRecord<I>>, q: seq<IdRecord<I>>, xs: seq<I>, ext: ExternalId,
                           i2e0: map<I, seq<ExternalId>>, i2e: map<I, seq<ExternalId>>, i2e': map<I, seq<ExternalId>>)
    requires forall x :: x in i2e <==> x in i2e0 || Mentions(p, x)
    requires forall x, e :: x in i2e ==> (e in i2e[x] <==> (x in i2e0 && e in i2e0[x]) || Shares(p, e, x))
    requires forall x, f :: x in i2e' ==> (f in i2e'[x] <==> (x in i2e && f in i2e[x]) || (x in xs && f == ext))
    requires forall e, x :: Shares(q, e, x) <==> Shares(p, e, x) || (e == ext && x in xs)
    ensures forall x, e :: x in i2e' ==> (e in i2e'[x] <==> (x in i2e0 && e in i2e0[x]) || Shares(q, e, x))
  {
  }

  /** `i2e` is `i2e0` with `e` added, in order and once, to the list of each individual id of `xs`. */
  ghost predicate IndexedWith<I(!new)>(i2e: map<I, seq<ExternalId>>, i2e0: map<I, seq<ExternalId>>, xs: seq<I>, e: ExternalId) {
    && (forall x :: x in i2e <==> x in i2e0 || x in xs)
    && (forall x, f :: x in i2e ==> (f in i2e[x] <==> (x in i2e0 && f in i2e0[x]) || (x in xs && f == e)))
    && (forall x :: x in i2e && x !in xs ==> i2e[x] == i2e0[x])
    && (forall x :: x in xs ==> StrictlySorted(i2e[x], ExternalLess))
  }

  /** The list `fill_ids` stores for `x` once `e` joins it. */
  function IndexEntry<I>(i2e: map<I, seq<ExternalId>>, x: I, e: ExternalId): seq<ExternalId> {
    if x in i2e then SortDedup(i2e[x] + [e], ExternalLess) else [e]
  }

  lemma IndexedStep<I(!new)>(i2e: map<I, seq<ExternalId>>, i2e0: map<I, seq<ExternalId>>, xs: seq<I>, e: ExternalId, x: I,
                             entry: seq<ExternalId>, i2e': map<I, seq<ExternalId>>, xs': seq<I>)
    requires IndexedWith(i2e, i2e0, xs, e)
    requires entry == IndexEntry(i2e, x, e) && i2e' == i2e[x := entry] && xs' == xs + [x]
    ensures IndexedWith(i2e', i2e0, xs', e)
  {
    assert StrictlySorted(entry, ExternalLess) && forall f :: f in entry <==> (x in i2e && f in i2e[x]) || f == e by {
      if x in i2e {
        ExternalLessIsStrictTotalOrder();
        SortDedupSpec(i2e[x] + [e], ExternalLess);
      }
    }
    forall y, f | y in i2e'
      ensures f in i2e'[y] <==> (y in i2e0 && f in i2e0[y]) || (y in xs' && f == e)
    {
      if y != x {
        assert i2e'[y] == i2e[y];
        assert y in xs' <==> y in xs;
      }
    }
    forall y | y in xs' ensures StrictlySorted(i2e'[y], ExternalLess) {
      if y != x {
        assert y in xs;
      }
    }
    forall y | y in i2e' && y !in xs' ensures i2e'[y] == i2e0[y] {
      assert y != x && y !in xs;
    }
  }

  lemma ReachedStep<I(!new)>(i2e: map<I, seq<ExternalId>>, xs: seq<I>, x: I)
    ensures forall e :: ReachedBy(i2e, xs + [x], e) <==> ReachedBy(i2e, xs, e) || (x in i2e && e in i2e[x])
  {
    forall e ensures ReachedBy(i2e, xs + [x], e) <==> ReachedBy(i2e, xs, e) || (x in i2e && e in i2e[x]) {
      if ReachedBy(i2e, xs + [x], e) {
        var y :| y in xs + [x] && y in i2e && e in i2e[y];
        if y != x {
          assert y in xs;
        }
      }
      if ReachedBy(i2e, xs, e) {
        var y :| y in xs && y in i2e && e in i2e[y];
        assert y in xs + [x];
      }
      if x in i2e && e in i2e[x] {
        assert x in xs + [x];
      }
    }
  }
}
