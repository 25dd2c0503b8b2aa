/**
 * The coagulate of the lab crate: the map from external ids (a data set and
 * an id inside it) to unique producer and product ids, and its saved form,
 * which groups the external ids under each unique id.
 */
module LabCoagulate {
  import opened Wrappers
  import opened Ordering
  import opened LabSubstrate

  type InnerId = string

  /** `ExternalId`: identifies an entry across all substrate files. */
  datatype ExternalId = ExternalId(dataSetId: DataSetId, inner: string)

  /** `ExternalId::new`. */
  function NewExternalId(dataSetId: DataSetId, inner: InnerId): (e: ExternalId)
    ensures e.dataSetId == dataSetId && e.inner == inner
  {
    ExternalId(dataSetId, inner)
  }

  /** `ExternalId::decompose`. */
  function Decompose(e: ExternalId): (DataSetId, InnerId) {
    (e.dataSetId, e.inner)
  }

  /** Decomposing gives back what the id was made of, and making it again gives the same id. */
  lemma DecomposeNew(dataSetId: DataSetId, inner: InnerId, e: ExternalId)
    ensures Decompose(NewExternalId(dataSetId, inner)) == (dataSetId, inner)
    ensures NewExternalId(Decompose(e).0, Decompose(e).1) == e
  {
  }

  /** The derived order: by data set, then by inner id. */
  predicate ExternalLess(a: ExternalId, b: ExternalId) {
    a.dataSetId < b.dataSetId || (a.dataSetId == b.dataSetId && LexLess(a.inner, b.inner))
  }

  lemma ExternalLessIsStrictTotalOrder()
    ensures IsStrictTotalOrder(ExternalLess)
  {
    LexLessIsStrictTotalOrder();
  }

  datatype CoagulationError =
    | SubstrateNameNotFoundForId(id: DataSetId)
    | SubstrateIdNotFoundForName(name: string)
    | ExternalIdRepeated(external: ExternalId)

  /** `Coagulate`: unique ids (by their value) of producers and products. */
  datatype Coagulate = Coagulate(producer: map<ExternalId, nat>, product: map<ExternalId, nat>)

  /** `get_unique_id_for_producer_external_id`. */
  function GetUniqueIdForProducerExternalId(c: Coagulate, e: ExternalId): (r: Result<nat, ExternalId>)
    ensures r.Ok? <==> e in c.producer
    ensures r.Ok? ==> r.value == c.producer[e]
    ensures r.Err? ==> r.error == e
  {
    if e in c.producer then Ok(c.producer[e]) else Err(e)
  }

  /** `get_unique_id_for_product_external_id`. */
  function GetUniqueIdForProductExternalId(c: Coagulate, e: ExternalId): (r: Result<nat, ExternalId>)
    ensures r.Ok? <==> e in c.product
    ensures r.Ok? ==> r.value == c.product[e]
    ensures r.Err? ==> r.error == e
  {
    if e in c.product then Ok(c.product[e]) else Err(e)
  }

  // ---------------------------------------------------------------------
  // Saving

  /** How an external id is saved: the data set's name and the inner id. */
  datatype ExternalEntry = ExternalEntry(dataset: string, inner: string)

  /** The saved form of one map: the entries of each unique id. */
  type Grouping = map<nat, seq<ExternalEntry>>

  datatype CoagulateData = CoagulateData(producer: Grouping, product: Grouping)

  /** Every data set the map mentions has a name. */
  ghost predicate AllNamed(m: map<ExternalId, nat>, list: seq<Substrate>) {
    forall e :: e in m ==> NameForId(list, e.dataSetId).Some?
  }

  function EntryOf(list: seq<Substrate>, e: ExternalId): ExternalEntry
    requires NameForId(list, e.dataSetId).Some?
  {
    ExternalEntry(NameForId(list, e.dataSetId).value, e.inner)
  }

  /** `d` holds under each unique id of `m` exactly the entries of the external ids mapped to it. */
  ghost predicate Grouped(d: Grouping, m: map<ExternalId, nat>, list: seq<Substrate>)
    requires AllNamed(m, list)
  {
    && d.Keys == m.Values
    && forall u, x :: u in d ==> (x in d[u] <==> exists e :: e in m && m[e] == u && x == EntryOf(list, e))
  }

  /** Each data set the map mentions has a name that leads back to it. */
  ghost predicate NamesConsistent(m: map<ExternalId, nat>, list: seq<Substrate>) {
    forall e :: e in m ==>
      NameForId(list, e.dataSetId).Some? && IdForName(list, NameForId(list, e.dataSetId).value) == Some(e.dataSetId)
  }

  /** The external ids in `done` all have named data sets. */
  ghost predicate NamedIn(done: set<ExternalId>, list: seq<Substrate>) {
    forall e :: e in done ==> NameForId(list, e.dataSetId).Some?
  }

  /** `acc` groups exactly the external ids of `done`, by their unique id in `m`. */
  ghost predicate GroupsOf(acc: Grouping, m: map<ExternalId, nat>, done: set<ExternalId>, list: seq<Substrate>)
    requires done <= m.Keys && NamedIn(done, list)
  {
    && (forall u :: u in acc <==> exists e :: e in done && m[e] == u)
    && (forall u, x :: u in acc ==> (x in acc[u] <==> exists e :: e in done && m[e] == u && x == EntryOf(list, e)))
  }

  /** The entry added for a new external id `e` to the list of its unique id. */
  function AddEntry(acc: Grouping, u: nat, entry: ExternalEntry): Grouping {
    if u in acc then acc[u := acc[u] + [entry]] else acc[u := [entry]]
  }

  lemma GroupsOfStep(acc: Grouping, m: map<ExternalId, nat>, done: set<ExternalId>, list: seq<Substrate>, e: ExternalId)
    requires done <= m.Keys && NamedIn(done, list) && GroupsOf(acc, m, done, list)
    requires e in m && e !in done && NameForId(list, e.dataSetId).Some?
    ensures NamedIn(done + {e}, list)
    ensures GroupsOf(AddEntry(acc, m[e], EntryOf(list, e)), m, done + {e}, list)
  {
    var acc' := AddEntry(acc, m[e], EntryOf(list, e));
    forall u, x | u in acc'
      ensures x in acc'[u] <==> exists e' :: e' in done + {e} && m[e'] == u && x == EntryOf(list, e')
    {
      if u != m[e] {
        assert acc'[u] == acc[u];
      }
    }
  }

  lemma DistinctStep(acc: Grouping, m: map<ExternalId, nat>, done: set<ExternalId>, list: seq<Substrate>, e: ExternalId)
    requires done <= m.Keys && NamedIn(done, list) && GroupsOf(acc, m, done, list)
    requires NamesConsistent(m, list)
    requires e in m && e !in done
    requires forall u :: u in acc ==> Distinct(acc[u])
    ensures var acc' := AddEntry(acc, m[e], EntryOf(list, e)); forall u :: u in acc' ==> Distinct(acc'[u])
  {
    var u := m[e];
    var entry := EntryOf(list, e);
    if u in acc {
      forall x | x in acc[u] ensures x != entry {
        var e' :| e' in done && m[e'] == u && x == EntryOf(list, e');
      }
      var l := acc[u] + [entry];
      forall i, j | 0 <= i < j < |l| ensures l[i] != l[j] {
        if j == |l| - 1 {
          assert l[i] in acc[u];
        }
      }
    }
  }

  /** Once every external id is done, `acc` is the grouping of the whole map. */
  lemma GroupsOfAll(acc: Grouping, m: map<ExternalId, nat>, list: seq<Substrate>)
    requires NamedIn(m.Keys, list) && GroupsOf(acc, m, m.Keys, list)
    ensures AllNamed(m, list) && Grouped(acc, m, list)
  {
    assert acc.Keys == m.Values;
  }

  /**
   * One map of `Coagulate::save`: the external ids in key order, each saved
   * under its unique id; the first one whose data set has no name aborts.
   */
  method SaveMap(m: map<ExternalId, nat>, list: seq<Substrate>) returns (r: Result<Grouping, CoagulationError>)
    ensures r.Ok? <==> AllNamed(m, list)
    ensures r.Ok? ==> Grouped(r.value, m, list)
    ensures r.Ok? && NamesConsistent(m, list) ==> forall u :: u in r.value ==> Distinct(r.value[u])
    ensures r.Err? ==> exists e :: e in m && NameForId(list, e.dataSetId).None?
                                  && r.error == SubstrateNameNotFoundForId(e.dataSetId)
  {
    ExternalLessIsStrictTotalOrder();
    var acc: Grouping := map[];
    var todo := m.Keys;
    ghost var done: set<ExternalId> := {};
    while todo != {}
      invariant todo <= m.Keys && done == m.Keys - todo
      invariant NamedIn(done, list) && GroupsOf(acc, m, done, list)
      invariant NamesConsistent(m, list) ==> forall u :: u in acc ==> Distinct(acc[u])
      decreases todo
    {
      LeastExists(todo, ExternalLess);
      var external :| IsLeast(external, todo, ExternalLess);
      var name := GetNameForId(list, external.dataSetId);
      if name.None? {
        assert external in m;
        return Err(SubstrateNameNotFoundForId(external.dataSetId));
      }
      var entry := ExternalEntry(name.value, external.inner);
      var unique := m[external];
      GroupsOfStep(acc, m, done, list, external);
      if NamesConsistent(m, list) {
        DistinctStep(acc, m, done, list, external);
      }
      acc := AddEntry(acc, unique, entry);
      todo := todo - {external};
      done := done + {external};
    }
    GroupsOfAll(acc, m, list);
    return Ok(acc);
  }

  /** `Coagulate::save` without the file: producers first, then products. */
  method Save(c: Coagulate, list: seq<Substrate>) returns (r: Result<CoagulateData, CoagulationError>)
    ensures r.Ok? <==> AllNamed(c.producer, list) && AllNamed(c.product, list)
    ensures r.Ok? ==> Grouped(r.value.producer, c.producer, list) && Grouped(r.value.product, c.product, list)
    ensures r.Err? && !AllNamed(c.producer, list) ==>
      exists e :: e in c.producer && r.error == SubstrateNameNotFoundForId(e.dataSetId)
  {
    var producer := SaveMap(c.producer, list);
    if producer.Err? {
      return Err(producer.error);
    }
    var product := SaveMap(c.product, list);
    if product.Err? {
      return Err(product.error);
    }
    return Ok(CoagulateData(producer.value, product.value));
  }

  // ---------------------------------------------------------------------
  // Reading

  /** Every saved entry names a known data set. */
  ghost predicate AllKnown(d: Grouping, list: seq<Substrate>) {
    forall u, i :: u in d && 0 <= i < |d[u]| ==> IdForName(list, d[u][i].dataset).Some?
  }

  function ToExternal(list: seq<Substrate>, x: ExternalEntry): ExternalId
    requires IdForName(list, x.dataset).Some?
  {
    ExternalId(IdForName(list, x.dataset).value, x.inner)
  }

  /** No two saved entries stand for the same external id. */
  ghost predicate NoRepeats(d: Grouping, list: seq<Substrate>)
    requires AllKnown(d, list)
  {
    forall u1, i1, u2, i2 ::
      u1 in d && u2 in d && 0 <= i1 < |d[u1]| && 0 <= i2 < |d[u2]| && (u1 != u2 || i1 != i2) ==>
        ToExternal(list, d[u1][i1]) != ToExternal(list, d[u2][i2])
  }

  /** `r` maps the external id of every saved entry to the unique id it is saved under, and nothing else. */
  ghost predicate ReadsAs(r: map<ExternalId, nat>, d: Grouping, list: seq<Substrate>)
    requires AllKnown(d, list)
  {
    && (forall u, i :: u in d && 0 <= i < |d[u]| ==>
          ToExternal(list, d[u][i]) in r && r[ToExternal(list, d[u][i])] == u)
    && (forall e :: e in r ==> exists u, i :: u in d && 0 <= i < |d[u]| && e == ToExternal(list, d[u][i]))
  }

  /** The positions (unique id, index) of the entries under the given unique ids. */
  ghost function PositionsOf(d: Grouping, keys: set<nat>): set<(nat, nat)> {
    set u, i | u in keys && u in d && 0 <= i < |d[u]| :: (u, i)
  }

  /** What `read` has built after visiting the positions in `seen`. */
  ghost predicate ReadState(acc: map<ExternalId, nat>, seen: set<(nat, nat)>, d: Grouping, list: seq<Substrate>) {
    && (forall p :: p in seen ==> p.0 in d && 0 <= p.1 < |d[p.0]| && IdForName(list, d[p.0][p.1].dataset).Some?)
    && (forall p :: p in seen ==> ToExternal(list, d[p.0][p.1]) in acc && acc[ToExternal(list, d[p.0][p.1])] == p.0)
    && (forall e :: e in acc ==> exists p :: p in seen && e == ToExternal(list, d[p.0][p.1]))
    && (forall p, q :: p in seen && q in seen && p != q ==> ToExternal(list, d[p.0][p.1]) != ToExternal(list, d[q.0][q.1]))
  }

  lemma ReadStep(acc: map<ExternalId, nat>, seen: set<(nat, nat)>, d: Grouping, list: seq<Substrate>, u: nat, j: nat)
    requires ReadState(acc, seen, d, list)
    requires u in d && j < |d[u]| && (u, j) !in seen && IdForName(list, d[u][j].dataset).Some?
    requires ToExternal(list, d[u][j]) !in acc
    ensures ReadState(acc[ToExternal(list, d[u][j]) := u], seen + {(u, j)}, d, list)
  {
    var acc' := acc[ToExternal(list, d[u][j]) := u];
    var seen' := seen + {(u, j)};
    forall e | e in acc' ensures exists p :: p in seen' && e == ToExternal(list, d[p.0][p.1]) {
      if e == ToExternal(list, d[u][j]) {
        var p := (u, j);
        assert p in seen' && d[p.0][p.1] == d[u][j];
      }
    }
  }

  /** Some saved entry names a data set the list does not know. */
  ghost predicate NameUnknown(d: Grouping, list: seq<Substrate>, name: string) {
    exists u, i :: u in d && 0 <= i < |d[u]| && d[u][i].dataset == name && IdForName(list, name).None?
  }

  /** Two different saved entries stand for the same external id. */
  ghost predicate ExternalRepeated(d: Grouping, list: seq<Substrate>, external: ExternalId) {
    exists u1, i1, u2, i2 ::
      && u1 in d && u2 in d && 0 <= i1 < |d[u1]| && 0 <= i2 < |d[u2]| && (u1 != u2 || i1 != i2)
      && IdForName(list, d[u1][i1].dataset).Some? && IdForName(list, d[u2][i2].dataset).Some?
      && ToExternal(list, d[u1][i1]) == external && ToExternal(list, d[u2][i2]) == external
  }

  lemma ReadUnknown(d: Grouping, list: seq<Substrate>, u: nat, j: nat)
    requires u in d && j < |d[u]| && IdForName(list, d[u][j].dataset).None?
    ensures NameUnknown(d, list, d[u][j].dataset) && !AllKnown(d, list)
  {
  }

  /** An external id met a second time: a position already seen stands for it too. */
  lemma ReadRepeat(acc: map<ExternalId, nat>, seen: set<(nat, nat)>, d: Grouping, list: seq<Substrate>, u: nat, j: nat)
    requires ReadState(acc, seen, d, list)
    requires u in d && j < |d[u]| && (u, j) !in seen && IdForName(list, d[u][j].dataset).Some?
    requires ToExternal(list, d[u][j]) in acc
    ensures ExternalRepeated(d, list, ToExternal(list, d[u][j]))
    ensures !(AllKnown(d, list) && NoRepeats(d, list))
  {
    var p :| p in seen && ToExternal(list, d[u][j]) == ToExternal(list, d[p.0][p.1]);
    assert p != (u, j);
  }


  /** The first `j` positions under `u`. */
  ghost function PositionsBelow(u: nat, j: nat): set<(nat, nat)> {
    set i | 0 <= i < j :: (u, i)
  }

  /** The next position under `u` is new, and seeing it extends the prefix by one. */
  lemma PositionsNext(d: Grouping, done: set<nat>, u: nat, j: nat)
    requires u !in done
    ensures (u, j) !in PositionsOf(d, done) + PositionsBelow(u, j)
    ensures PositionsBelow(u, j) + {(u, j)} == PositionsBelow(u, j + 1)
  {
  }

  /** Finishing the entries under `u` adds `u` to the keys done. */
  lemma PositionsGroup(d: Grouping, done: set<nat>, u: nat)
    requires u in d
    ensures PositionsOf(d, done + {u}) == PositionsOf(d, done) + PositionsBelow(u, |d[u]|)
  {
  }

  /** Once every position is seen, the map is what `read` promises. */
  lemma ReadDone(acc: map<ExternalId, nat>, seen: set<(nat, nat)>, d: Grouping, list: seq<Substrate>)
    requires ReadState(acc, seen, d, list)
    requires seen == PositionsOf(d, d.Keys)
    ensures AllKnown(d, list) && NoRepeats(d, list) && ReadsAs(acc, d, list)
  {
    forall u, i | u in d && 0 <= i < |d[u]|
      ensures IdForName(list, d[u][i].dataset).Some?
      ensures ToExternal(list, d[u][i]) in acc && acc[ToExternal(list, d[u][i])] == u
    {
      var p := (u, i);
      assert p in seen && d[p.0][p.1] == d[u][i];
    }
    forall u1, i1, u2, i2 | u1 in d && u2 in d && 0 <= i1 < |d[u1]| && 0 <= i2 < |d[u2]| && (u1 != u2 || i1 != i2)
      ensures ToExternal(list, d[u1][i1]) != ToExternal(list, d[u2][i2])
    {
      var p, q := (u1, i1), (u2, i2);
      assert p in seen && q in seen && p != q;
      assert d[p.0][p.1] == d[u1][i1] && d[q.0][q.1] == d[u2][i2];
    }
    forall e | e in acc ensures exists u, i :: u in d && 0 <= i < |d[u]| && e == ToExternal(list, d[u][i]) {
      var p :| p in seen && e == ToExternal(list, d[p.0][p.1]);
      assert p.0 in d && 0 <= p.1 < |d[p.0]|;
    }
  }

  /**
   * One map of `Coagulate::read`: unique ids in order, entries in order; an
   * unknown data set name or an external id seen before aborts.
   */
  method ReadMap(d: Grouping, list: seq<Substrate>) returns (r: Result<map<ExternalId, nat>, CoagulationError>)
    ensures r.Ok? <==> AllKnown(d, list) && NoRepeats(d, list)
    ensures r.Ok? ==> ReadsAs(r.value, d, list)
    ensures r.Err? ==> r.error.SubstrateIdNotFoundForName? || r.error.ExternalIdRepeated?
    ensures r.Err? && r.error.SubstrateIdNotFoundForName? ==> NameUnknown(d, list, r.error.name)
    ensures r.Err? && r.error.ExternalIdRepeated? ==> ExternalRepeated(d, list, r.error.external)
  {
    NatLessIsStrictTotalOrder();
    var acc: map<ExternalId, nat> := map[];
    ghost var seen: set<(nat, nat)> := {};
    var todo := d.Keys;
    while todo != {}
      invariant todo <= d.Keys
      invariant seen == PositionsOf(d, d.Keys - todo)
      invariant ReadState(acc, seen, d, list)
      decreases todo
    {
      LeastExists(todo, NatLess);
      var unique :| IsLeast(unique, todo, NatLess);
      var entries := d[unique];
      var j := 0;
      while j < |entries|
        invariant 0 <= j <= |entries|
        invariant seen == PositionsOf(d, d.Keys - todo) + PositionsBelow(unique, j)
        invariant ReadState(acc, seen, d, list)
      {
        PositionsNext(d, d.Keys - todo, unique, j);
        var entry := entries[j];
        var id := GetIdForName(list, entry.dataset);
        if id.None? {
          ReadUnknown(d, list, unique, j);
          return Err(SubstrateIdNotFoundForName(entry.dataset));
        }
        var external := ExternalId(id.value, entry.inner);
        assert external == ToExternal(list, d[unique][j]);
        if external in acc {
          ReadRepeat(acc, seen, d, list, unique, j);
          return Err(ExternalIdRepeated(external));
        }
        ReadStep(acc, seen, d, list, unique, j);
        acc := acc[external := unique];
        seen := seen + {(unique, j)};
        j := j + 1;
      }
      PositionsGroup(d, d.Keys - todo, unique);
      assert d.Keys - (todo - {unique}) == (d.Keys - todo) + {unique};
      todo := todo - {unique};
    }
    ReadDone(acc, seen, d, list);
    return Ok(acc);
  }

  // ---------------------------------------------------------------------
  // Saving, then reading

  /** With consistent names, an entry reads back as the external id it was saved from. */
  lemma EntryReadsBack(m: map<ExternalId, nat>, list: seq<Substrate>, e: ExternalId)
    requires NamesConsistent(m, list) && e in m
    ensures IdForName(list, EntryOf(list, e).dataset).Some?
    ensures ToExternal(list, EntryOf(list, e)) == e
  {
  }

  /**
   * Reading what was saved: when every data set of the map has a name that
   * leads back to it, the saved lists are accepted by `read` and read back as
   * the map itself.
   */
  lemma SaveThenRead(m: map<ExternalId, nat>, d: Grouping, list: seq<Substrate>)
    requires AllNamed(m, list) && Grouped(d, m, list)
    requires forall u :: u in d ==> Distinct(d[u])
    requires NamesConsistent(m, list)
    ensures AllKnown(d, list) && NoRepeats(d, list)
    ensures ReadsAs(m, d, list)
  {
    forall u, i | u in d && 0 <= i < |d[u]|
      ensures IdForName(list, d[u][i].dataset).Some?
      ensures ToExternal(list, d[u][i]) in m && m[ToExternal(list, d[u][i])] == u
    {
      assert d[u][i] in d[u];
      var e :| e in m && m[e] == u && d[u][i] == EntryOf(list, e);
      EntryReadsBack(m, list, e);
    }
    forall u1, i1, u2, i2 | u1 in d && u2 in d && 0 <= i1 < |d[u1]| && 0 <= i2 < |d[u2]| && (u1 != u2 || i1 != i2)
      ensures ToExternal(list, d[u1][i1]) != ToExternal(list, d[u2][i2])
    {
      assert d[u1][i1] in d[u1] && d[u2][i2] in d[u2];
      var e1 :| e1 in m && m[e1] == u1 && d[u1][i1] == EntryOf(list, e1);
      var e2 :| e2 in m && m[e2] == u2 && d[u2][i2] == EntryOf(list, e2);
      EntryReadsBack(m, list, e1);
      EntryReadsBack(m, list, e2);
      if u1 != u2 {
        assert m[e1] != m[e2];
      } else {
        assert d[u1][i1] != d[u1][i2];
      }
    }
    forall e | e in m ensures exists u, i :: u in d && 0 <= i < |d[u]| && e == ToExternal(list, d[u][i]) {
      var u := m[e];
      assert u in m.Values;
      assert EntryOf(list, e) in d[u];
      var i :| 0 <= i < |d[u]| && d[u][i] == EntryOf(list, e);
      EntryReadsBack(m, list, e);
    }
  }

  /** What `read` gives back is fixed by the saved lists: two maps both read from them are equal. */
  lemma ReadsAsDetermines(r1: map<ExternalId, nat>, r2: map<ExternalId, nat>, d: Grouping, list: seq<Substrate>)
    requires AllKnown(d, list)
    requires ReadsAs(r1, d, list) && ReadsAs(r2, d, list)
    ensures r1 == r2
  {
    forall e | e in r1 ensures e in r2 && r2[e] == r1[e] {
      var u, i :| u in d && 0 <= i < |d[u]| && e == ToExternal(list, d[u][i]);
    }
    forall e | e in r2 ensures e in r1 {
      var u, i :| u in d && 0 <= i < |d[u]| && e == ToExternal(list, d[u][i]);
    }
  }

  /** Saving a map and reading the result back gives the same map. */
  method SaveReadRoundTrip(m: map<ExternalId, nat>, list: seq<Substrate>) returns (back: Result<map<ExternalId, nat>, CoagulationError>)
    requires NamesConsistent(m, list)
    ensures back == Ok(m)
  {
    var saved := SaveMap(m, list);
    assert saved.Ok?;
    SaveThenRead(m, saved.value, list);
    back := ReadMap(saved.value, list);
    ReadsAsDetermines(back.value, m, saved.value, list);
  }

  /** `Coagulate::read` without the file: producers first, then products. */
  method Read(data: CoagulateData, list: seq<Substrate>) returns (r: Result<Coagulate, CoagulationError>)
    ensures r.Ok? <==> AllKnown(data.producer, list) && NoRepeats(data.producer, list)
                       && AllKnown(data.product, list) && NoRepeats(data.product, list)
    ensures r.Ok? ==> ReadsAs(r.value.producer, data.producer, list) && ReadsAs(r.value.product, data.product, list)
  {
    var producer := ReadMap(data.producer, list);
    if producer.Err? {
      return Err(producer.error);
    }
    var product := ReadMap(data.product, list);
    if product.Err? {
      return Err(product.error);
    }
    return Ok(Coagulate(producer.value, product.value));
  }
}
