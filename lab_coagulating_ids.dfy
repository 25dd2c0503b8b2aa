/**
 * The individual ids of the coagulation in the lab crate: how the id texts
 * of a producer or product record are parsed into individual ids, the order
 * on individual ids that the combiner's indexes use, and the report that
 * collects the texts that did not parse.
 */
module LabCoagulatingIds {
  import opened Wrappers
  import opened Ordering
  import opened ModelsIds
  import opened LabSubstrate
  import opened LabCoagulate
  import opened LabCoagulating
  import MM = ModelsModels

  // ---------------------------------------------------------------------
  // Individual ids and their derived orders

  /** `IndividualProducerId`: a VAT number, a Wikidata id or a web domain. */
  datatype IndividualProducerId = ProducerVat(vat: VatId) | ProducerWiki(wiki: WikiId) | ProducerDomain(domain: string)

  /** `IndividualProductId`: an EAN, a GTIN or a Wikidata id. */
  datatype IndividualProductId = ProductEan(ean: Ean) | ProductGtin(gtin: Gtin) | ProductWiki(wiki: WikiId)

  /** The derived `Ord`: by variant in declaration order, then by the payload. */
  predicate ProducerIdLess(a: IndividualProducerId, b: IndividualProducerId) {
    match (a, b)
    case (ProducerVat(x), ProducerVat(y)) => LexLess(x.id, y.id)
    case (ProducerVat(_), _) => true
    case (ProducerWiki(x), ProducerWiki(y)) => x.value < y.value
    case (ProducerWiki(_), ProducerVat(_)) => false
    case (ProducerWiki(_), ProducerDomain(_)) => true
    case (ProducerDomain(x), ProducerDomain(y)) => LexLess(x, y)
    case (ProducerDomain(_), _) => false
  }

  /** The derived `Ord`: by variant in declaration order, then by the value. */
  predicate ProductIdLess(a: IndividualProductId, b: IndividualProductId) {
    match (a, b)
    case (ProductEan(x), ProductEan(y)) => x.value < y.value
    case (ProductEan(_), _) => true
    case (ProductGtin(x), ProductGtin(y)) => x.value < y.value
    case (ProductGtin(_), ProductEan(_)) => false
    case (ProductGtin(_), ProductWiki(_)) => true
    case (ProductWiki(x), ProductWiki(y)) => x.value < y.value
    case (ProductWiki(_), _) => false
  }

  /** The producer order is a strict total order, as the combiner requires of its indexes. */
  lemma ProducerIdLessIsStrictTotalOrder()
    ensures IsStrictTotalOrder(ProducerIdLess)
  {
    forall a ensures !ProducerIdLess(a, a) {
      if a.ProducerVat? { LexLessIrreflexive(a.vat.id); }
      if a.ProducerDomain? { LexLessIrreflexive(a.domain); }
    }
    forall a, b, c | ProducerIdLess(a, b) && ProducerIdLess(b, c) ensures ProducerIdLess(a, c) {
      if a.ProducerVat? && b.ProducerVat? && c.ProducerVat? { LexLessTransitive(a.vat.id, b.vat.id, c.vat.id); }
      if a.ProducerDomain? && b.ProducerDomain? && c.ProducerDomain? { LexLessTransitive(a.domain, b.domain, c.domain); }
    }
    forall a, b ensures a == b || ProducerIdLess(a, b) || ProducerIdLess(b, a) {
      if a.ProducerVat? && b.ProducerVat? { LexLessTotal(a.vat.id, b.vat.id); }
      if a.ProducerDomain? && b.ProducerDomain? { LexLessTotal(a.domain, b.domain); }
    }
  }

  /** The product order is a strict total order. */
  lemma ProductIdLessIsStrictTotalOrder()
    ensures IsStrictTotalOrder(ProductIdLess)
  {
  }

  // ---------------------------------------------------------------------
  // Warnings and the texts of a record's ids

  /** `CoagulationWarning`. */
  datatype CoagulationWarning = InvalidIndividualId(dataSetId: DataSetId, individualId: string)

  /** The id texts of a producer record (`schema::ProducerIds`); each list may be absent. */
  datatype ProducerIdTexts = ProducerIdTexts(vat: Option<seq<string>>, wiki: Option<seq<string>>, domains: Option<seq<string>>)

  /** The id texts of a product record (`schema::ProductIds`). */
  datatype ProductIdTexts = ProductIdTexts(ean: Option<seq<string>>, gtin: Option<seq<string>>, wiki: Option<seq<string>>)

  /** An absent list has no texts. */
  function Listed(texts: Option<seq<string>>): seq<string> {
    if texts.Some? then texts.value else []
  }

  function WrapVat(v: VatId): IndividualProducerId { ProducerVat(v) }
  function WrapProducerWiki(w: WikiId): IndividualProducerId { ProducerWiki(w) }
  function WrapDomain(d: string): IndividualProducerId { ProducerDomain(d) }
  function WrapEan(e: Ean): IndividualProductId { ProductEan(e) }
  function WrapGtin(g: Gtin): IndividualProductId { ProductGtin(g) }
  function WrapProductWiki(w: WikiId): IndividualProductId { ProductWiki(w) }

  /** The texts that parse, as individual ids, in order. */
  function Accepted<T, U>(texts: seq<string>, parse: string -> Result<T, ParseIdError>, wrap: T -> U): seq<U>
    decreases |texts|
  {
    if texts == [] then []
    else
      var init := Accepted(texts[..|texts| - 1], parse, wrap);
      match parse(texts[|texts| - 1])
      case Ok(v) => init + [wrap(v)]
      case Err(_) => init
  }

  /** One warning for every text that does not parse, in order. */
  function Rejected<T>(texts: seq<string>, parse: string -> Result<T, ParseIdError>, ds: DataSetId): seq<CoagulationWarning>
    decreases |texts|
  {
    if texts == [] then []
    else
      var init := Rejected(texts[..|texts| - 1], parse, ds);
      match parse(texts[|texts| - 1])
      case Ok(_) => init
      case Err(_) => init + [InvalidIndividualId(ds, texts[|texts| - 1])]
  }

  /** Some text parses to the individual id `x`. */
  ghost predicate ParsesTo<T, U>(texts: seq<string>, parse: string -> Result<T, ParseIdError>, wrap: T -> U, x: U) {
    exists i :: 0 <= i < |texts| && parse(texts[i]).Ok? && x == wrap(parse(texts[i]).value)
  }

  /**
   * Every text is accounted for exactly once: it is an individual id when it
   * parses and a warning naming it and its data set when it does not.
   */
  lemma AcceptedRejectedPartition<T, U>(texts: seq<string>, parse: string -> Result<T, ParseIdError>,
                                        wrap: T -> U, ds: DataSetId)
    ensures |Accepted(texts, parse, wrap)| + |Rejected(texts, parse, ds)| == |texts|
    ensures forall x :: x in Accepted(texts, parse, wrap) <==> ParsesTo(texts, parse, wrap, x)
    ensures forall w :: w in Rejected(texts, parse, ds) <==>
      exists i :: 0 <= i < |texts| && parse(texts[i]).Err? && w == InvalidIndividualId(ds, texts[i])
  {
    AcceptedRejectedCount(texts, parse, wrap, ds);
    AcceptedParses(texts, parse, wrap);
    RejectedFails(texts, parse, ds);
  }

  lemma {:induction false} AcceptedRejectedCount<T, U>(texts: seq<string>, parse: string -> Result<T, ParseIdError>,
                                                       wrap: T -> U, ds: DataSetId)
    ensures |Accepted(texts, parse, wrap)| + |Rejected(texts, parse, ds)| == |texts|
    decreases |texts|
  {
    if texts != [] {
      AcceptedRejectedCount(texts[..|texts| - 1], parse, wrap, ds);
    }
  }

  lemma {:induction false} AcceptedParses<T, U>(texts: seq<string>, parse: string -> Result<T, ParseIdError>, wrap: T -> U)
    ensures forall x :: x in Accepted(texts, parse, wrap) <==> ParsesTo(texts, parse, wrap, x)
    decreases |texts|
  {
    if texts != [] {
      var init := texts[..|texts| - 1];
      AcceptedParses(init, parse, wrap);
      forall x | ParsesTo(texts, parse, wrap, x)
        ensures x in Accepted(texts, parse, wrap)
      {
        var i :| 0 <= i < |texts| && parse(texts[i]).Ok? && x == wrap(parse(texts[i]).value);
        if i < |init| {
          assert init[i] == texts[i];
        }
      }
      forall x | x in Accepted(texts, parse, wrap)
        ensures ParsesTo(texts, parse, wrap, x)
      {
        if x in Accepted(init, parse, wrap) {
          assert ParsesTo(init, parse, wrap, x);
          var i :| 0 <= i < |init| && parse(init[i]).Ok? && x == wrap(parse(init[i]).value);
          assert texts[i] == init[i];
        } else {
          assert parse(texts[|texts| - 1]).Ok? && x == wrap(parse(texts[|texts| - 1]).value);
        }
      }
    }
  }

  lemma {:induction false} RejectedFails<T>(texts: seq<string>, parse: string -> Result<T, ParseIdError>, ds: DataSetId)
    ensures forall w :: w in Rejected(texts, parse, ds) <==>
      exists i :: 0 <= i < |texts| && parse(texts[i]).Err? && w == InvalidIndividualId(ds, texts[i])
    decreases |texts|
  {
    if texts != [] {
      var init := texts[..|texts| - 1];
      RejectedFails(init, parse, ds);
      forall w | exists i :: 0 <= i < |texts| && parse(texts[i]).Err? && w == InvalidIndividualId(ds, texts[i])
        ensures w in Rejected(texts, parse, ds)
      {
        var i :| 0 <= i < |texts| && parse(texts[i]).Err? && w == InvalidIndividualId(ds, texts[i]);
        if i < |init| {
          assert init[i] == texts[i];
        }
      }
      forall w | w in Rejected(texts, parse, ds)
        ensures exists i :: 0 <= i < |texts| && parse(texts[i]).Err? && w == InvalidIndividualId(ds, texts[i])
      {
        if w in Rejected(init, parse, ds) {
          var i :| 0 <= i < |init| && parse(init[i]).Err? && w == InvalidIndividualId(ds, init[i]);
          assert texts[i] == init[i];
        } else {
          assert parse(texts[|texts| - 1]).Err? && w == InvalidIndividualId(ds, texts[|texts| - 1]);
        }
      }
    }
  }

  /** Each text lands on its side: a parsed one among the ids, the others among the warnings. */
  lemma TextsLand<T, U>(texts: seq<string>, parse: string -> Result<T, ParseIdError>, wrap: T -> U, ds: DataSetId)
    ensures forall g :: g in texts && parse(g).Ok? ==> wrap(parse(g).value) in Accepted(texts, parse, wrap)
    ensures forall g :: g in texts && parse(g).Err? ==> InvalidIndividualId(ds, g) in Rejected(texts, parse, ds)
  {
    AcceptedRejectedPartition(texts, parse, wrap, ds);
    forall g | g in texts && parse(g).Ok? ensures wrap(parse(g).value) in Accepted(texts, parse, wrap) {
      var i :| 0 <= i < |texts| && texts[i] == g;
      assert ParsesTo(texts, parse, wrap, wrap(parse(texts[i]).value));
    }
    forall g | g in texts && parse(g).Err? ensures InvalidIndividualId(ds, g) in Rejected(texts, parse, ds) {
      var i :| 0 <= i < |texts| && texts[i] == g;
      assert parse(texts[i]).Err? && InvalidIndividualId(ds, g) == InvalidIndividualId(ds, texts[i]);
    }
  }

  /** Domains are taken as they are. */
  function DomainIds(domains: seq<string>): (r: seq<IndividualProducerId>)
    ensures |r| == |domains|
    ensures forall i :: 0 <= i < |domains| ==> r[i] == ProducerDomain(domains[i])
    decreases |domains|
  {
    if domains == [] then [] else DomainIds(domains[..|domains| - 1]) + [ProducerDomain(domains[|domains| - 1])]
  }

  /** The individual ids of a producer: its VAT ids, then its Wikidata ids, then its domains. */
  function ProducerIndividuals(ids: ProducerIdTexts): seq<IndividualProducerId> {
    Accepted(Listed(ids.vat), VatIdTryFrom, WrapVat)
    + Accepted(Listed(ids.wiki), WikiIdTryFrom, WrapProducerWiki)
    + DomainIds(Listed(ids.domains))
  }

  /** The warnings of a producer: its invalid VAT ids, then its invalid Wikidata ids. */
  function ProducerWarnings(ids: ProducerIdTexts, ds: DataSetId): seq<CoagulationWarning> {
    Rejected(Listed(ids.vat), VatIdTryFrom, ds) + Rejected(Listed(ids.wiki), WikiIdTryFrom, ds)
  }

  /** The individual ids of a product: its EANs, then its GTINs, then its Wikidata ids. */
  function ProductIndividuals(ids: ProductIdTexts): seq<IndividualProductId> {
    Accepted(Listed(ids.ean), EanTryFrom, WrapEan)
    + Accepted(Listed(ids.gtin), GtinTryFrom, WrapGtin)
    + Accepted(Listed(ids.wiki), WikiIdTryFrom, WrapProductWiki)
  }

  /** The warnings of a product, in the same order. */
  function ProductWarnings(ids: ProductIdTexts, ds: DataSetId): seq<CoagulationWarning> {
    Rejected(Listed(ids.ean), EanTryFrom, ds)
    + Rejected(Listed(ids.gtin), GtinTryFrom, ds)
    + Rejected(Listed(ids.wiki), WikiIdTryFrom, ds)
  }

  /**
   * For a producer every text yields one individual id or one warning, and
   * every domain is accepted.
   */
  lemma ProducerExtractionPartition(ids: ProducerIdTexts, ds: DataSetId)
    ensures |ProducerIndividuals(ids)| + |ProducerWarnings(ids, ds)|
         == |Listed(ids.vat)| + |Listed(ids.wiki)| + |Listed(ids.domains)|
    ensures forall d :: d in Listed(ids.domains) ==> ProducerDomain(d) in ProducerIndividuals(ids)
    ensures forall w :: w in ProducerWarnings(ids, ds) ==>
      w.dataSetId == ds && (w.individualId in Listed(ids.vat) || w.individualId in Listed(ids.wiki))
    ensures forall v :: v in Listed(ids.vat) && VatIdTryFrom(v).Ok? ==> ProducerVat(VatIdTryFrom(v).value) in ProducerIndividuals(ids)
    ensures forall v :: v in Listed(ids.vat) && VatIdTryFrom(v).Err? ==> InvalidIndividualId(ds, v) in ProducerWarnings(ids, ds)
  {
    var vats, wikis, domains := Listed(ids.vat), Listed(ids.wiki), Listed(ids.domains);
    AcceptedRejectedPartition(vats, VatIdTryFrom, WrapVat, ds);
    AcceptedRejectedPartition(wikis, WikiIdTryFrom, WrapProducerWiki, ds);
    forall d | d in domains ensures ProducerDomain(d) in ProducerIndividuals(ids) {
      var i :| 0 <= i < |domains| && domains[i] == d;
      assert DomainIds(domains)[i] == ProducerDomain(d);
    }
    TextsLand(vats, VatIdTryFrom, WrapVat, ds);
  }

  /** For a product every text yields one individual id or one warning. */
  lemma ProductExtractionPartition(ids: ProductIdTexts, ds: DataSetId)
    ensures |ProductIndividuals(ids)| + |ProductWarnings(ids, ds)|
         == |Listed(ids.ean)| + |Listed(ids.gtin)| + |Listed(ids.wiki)|
    ensures forall w :: w in ProductWarnings(ids, ds) ==>
      w.dataSetId == ds && (w.individualId in Listed(ids.ean) || w.individualId in Listed(ids.gtin) || w.individualId in Listed(ids.wiki))
    ensures forall g :: g in Listed(ids.gtin) && GtinTryFrom(g).Ok? ==> ProductGtin(GtinTryFrom(g).value) in ProductIndividuals(ids)
    ensures forall g :: g in Listed(ids.gtin) && GtinTryFrom(g).Err? ==> InvalidIndividualId(ds, g) in ProductWarnings(ids, ds)
  {
    var eans, gtins, wikis := Listed(ids.ean), Listed(ids.gtin), Listed(ids.wiki);
    AcceptedRejectedPartition(eans, EanTryFrom, WrapEan, ds);
    AcceptedRejectedPartition(gtins, GtinTryFrom, WrapGtin, ds);
    AcceptedRejectedPartition(wikis, WikiIdTryFrom, WrapProductWiki, ds);
    TextsLand(gtins, GtinTryFrom, WrapGtin, ds);
  }

  // ---------------------------------------------------------------------
  // The extraction loops

  /** One `for` loop of `extract_individual_ids`: parse each text and push the id or a warning. */
  method PushParsed<T, U>(texts: Option<seq<string>>, parse: string -> Result<T, ParseIdError>, wrap: T -> U,
                          ds: DataSetId, individual: seq<U>, warnings: seq<CoagulationWarning>)
    returns (individual': seq<U>, warnings': seq<CoagulationWarning>)
    ensures individual' == individual + Accepted(Listed(texts), parse, wrap)
    ensures warnings' == warnings + Rejected(Listed(texts), parse, ds)
  {
    individual', warnings' := individual, warnings;
    if texts.None? {
      return;
    }
    var list := texts.value;
    var i := 0;
    while i < |list|
      invariant 0 <= i <= |list|
      invariant individual' == individual + Accepted(list[..i], parse, wrap)
      invariant warnings' == warnings + Rejected(list[..i], parse, ds)
    {
      assert list[..i + 1][..i] == list[..i];
      var parsed := parse(list[i]);
      if parsed.Ok? {
        individual' := individual' + [wrap(parsed.value)];
      } else {
        warnings' := warnings' + [InvalidIndividualId(ds, list[i])];
      }
      i := i + 1;
    }
    assert list[..i] == list;
  }

  /** `ProducerIds::extract_individual_ids`. */
  method ExtractProducerIds(ids: ProducerIdTexts, ds: DataSetId)
    returns (individual: seq<IndividualProducerId>, warnings: seq<CoagulationWarning>)
    ensures individual == ProducerIndividuals(ids)
    ensures warnings == ProducerWarnings(ids, ds)
  {
    var vats, vatWarnings := PushParsed(ids.vat, VatIdTryFrom, WrapVat, ds, [], []);
    assert vats == Accepted(Listed(ids.vat), VatIdTryFrom, WrapVat);
    assert vatWarnings == Rejected(Listed(ids.vat), VatIdTryFrom, ds);
    individual, warnings := PushParsed(ids.wiki, WikiIdTryFrom, WrapProducerWiki, ds, vats, vatWarnings);
    var domains := Listed(ids.domains);
    var before := individual;
    var i := 0;
    while i < |domains|
      invariant 0 <= i <= |domains|
      invariant individual == before + DomainIds(domains[..i])
    {
      assert domains[..i + 1][..i] == domains[..i];
      individual := individual + [ProducerDomain(domains[i])];
      i := i + 1;
    }
    assert domains[..i] == domains;
  }

  /** `ProductIds::extract_individual_ids`. */
  method ExtractProductIds(ids: ProductIdTexts, ds: DataSetId)
    returns (individual: seq<IndividualProductId>, warnings: seq<CoagulationWarning>)
    ensures individual == ProductIndividuals(ids)
    ensures warnings == ProductWarnings(ids, ds)
  {
    var eans, eanWarnings := PushParsed(ids.ean, EanTryFrom, WrapEan, ds, [], []);
    assert eans == Accepted(Listed(ids.ean), EanTryFrom, WrapEan);
    assert eanWarnings == Rejected(Listed(ids.ean), EanTryFrom, ds);
    individual, warnings := PushParsed(ids.gtin, GtinTryFrom, WrapGtin, ds, eans, eanWarnings);
    individual, warnings := PushParsed(ids.wiki, WikiIdTryFrom, WrapProductWiki, ds, individual, warnings);
  }

  /**
   * `ProducerIds::from_catalog` and `from_review`: the record's external id
   * is its data set and its own id; its individual ids are extracted.
   */
  method ProducerIdsFrom(id: string, ids: ProducerIdTexts, ds: DataSetId)
    returns (record: IdRecord<IndividualProducerId>, warnings: seq<CoagulationWarning>)
    ensures Decompose(record.external) == (ds, id)
    ensures record.individual == ProducerIndividuals(ids) && warnings == ProducerWarnings(ids, ds)
  {
    var individual;
    individual, warnings := ExtractProducerIds(ids, ds);
    record := IdRecord(NewExternalId(ds, id), individual);
  }

  /** `ProductIds::from_catalog`, `from_producer` and `from_review`. */
  method ProductIdsFrom(id: string, ids: ProductIdTexts, ds: DataSetId)
    returns (record: IdRecord<IndividualProductId>, warnings: seq<CoagulationWarning>)
    ensures Decompose(record.external) == (ds, id)
    ensures record.individual == ProductIndividuals(ids) && warnings == ProductWarnings(ids, ds)
  {
    var individual;
    individual, warnings := ExtractProductIds(ids, ds);
    record := IdRecord(NewExternalId(ds, id), individual);
  }

  // ---------------------------------------------------------------------
  // The report

  /** The invalid texts after recording the warnings in order, each as `add_invalid_id` does. */
  function WithWarnings(m: map<DataSetId, set<string>>, warnings: seq<CoagulationWarning>): map<DataSetId, set<string>>
    decreases |warnings|
  {
    if warnings == [] then m
    else
      var w := warnings[|warnings| - 1];
      MM.Inserted(WithWarnings(m, warnings[..|warnings| - 1]), w.dataSetId, w.individualId)
  }

  /** Recording warnings adds exactly the data sets they name. */
  lemma {:induction false} WithWarningsKeys(m: map<DataSetId, set<string>>, warnings: seq<CoagulationWarning>, ds: DataSetId)
    ensures ds in WithWarnings(m, warnings) <==> ds in m || exists w :: w in warnings && w.dataSetId == ds
    decreases |warnings|
  {
    if warnings != [] {
      var init := warnings[..|warnings| - 1];
      WithWarningsKeys(m, init, ds);
      assert warnings == init + [warnings[|warnings| - 1]];
    }
  }

  /**
   * Recording warnings adds exactly their texts under their data sets: a text
   * is listed afterwards iff it was before or some warning carries it.
   */
  lemma {:induction false} WithWarningsTexts(m: map<DataSetId, set<string>>, warnings: seq<CoagulationWarning>,
                                             ds: DataSetId, id: string)
    requires ds in WithWarnings(m, warnings)
    ensures id in WithWarnings(m, warnings)[ds] <==> (ds in m && id in m[ds]) || InvalidIndividualId(ds, id) in warnings
    decreases |warnings|
  {
    if warnings != [] {
      var init := warnings[..|warnings| - 1];
      var last := warnings[|warnings| - 1];
      assert warnings == init + [last];
      if ds in WithWarnings(m, init) {
        WithWarningsTexts(m, init, ds, id);
      } else {
        assert last.dataSetId == ds;
        WithWarningsKeys(m, init, ds);
        if InvalidIndividualId(ds, id) in init {
          assert false;
        }
      }
    }
  }

  /** Recording two lists of warnings one after the other is recording their concatenation. */
  lemma {:induction false} WithWarningsAppend(m: map<DataSetId, set<string>>, a: seq<CoagulationWarning>, b: seq<CoagulationWarning>)
    ensures WithWarnings(WithWarnings(m, a), b) == WithWarnings(m, a + b)
    decreases |b|
  {
    if b != [] {
      var init := b[..|b| - 1];
      WithWarningsAppend(m, a, init);
      assert (a + b)[..|a + b| - 1] == a + init;
    } else {
      assert a + b == a;
    }
  }

  /** A data set is reported with a text. */
  predicate Reported(m: map<DataSetId, set<string>>, ds: DataSetId, id: string) {
    ds in m && id in m[ds]
  }

  /** Whatever the earlier report held, recording warnings reports every text they carry. */
  lemma WarningReported(m: map<DataSetId, set<string>>, warnings: seq<CoagulationWarning>, ds: DataSetId, id: string)
    requires InvalidIndividualId(ds, id) in warnings
    ensures Reported(WithWarnings(m, warnings), ds, id)
  {
    WithWarningsKeys(m, warnings, ds);
    WithWarningsTexts(m, warnings, ds, id);
  }

  /** `CoagulationReport`: the texts of invalid individual ids, per data set. */
  class CoagulationReport {
    var invalidIds: map<DataSetId, set<string>>

    /** `CoagulationReport::default`. */
    constructor ()
      ensures invalidIds == map[]
    {
      invalidIds := map[];
    }

    /** `add_invalid_id`: that data set's set gains the text; every other entry is kept. */
    method AddInvalidId(ds: DataSetId, id: string)
      modifies this
      ensures invalidIds == MM.Inserted(old(invalidIds), ds, id)
    {
      if ds in invalidIds {
        invalidIds := invalidIds[ds := invalidIds[ds] + {id}];
      } else {
        assert {} + {id} == {id};
        invalidIds := invalidIds[ds := {id}];
      }
    }

    /** `add`: records the warning's text under its data set. */
    method Add(warning: CoagulationWarning)
      modifies this
      ensures invalidIds == MM.Inserted(old(invalidIds), warning.dataSetId, warning.individualId)
    {
      match warning
      case InvalidIndividualId(ds, id) => AddInvalidId(ds, id);
    }

    /** `add_many`: records the warnings in order. */
    method AddMany(warnings: seq<CoagulationWarning>)
      modifies this
      ensures invalidIds == WithWarnings(old(invalidIds), warnings)
    {
      var i := 0;
      while i < |warnings|
        invariant 0 <= i <= |warnings|
        invariant invalidIds == WithWarnings(old(invalidIds), warnings[..i])
      {
        assert warnings[..i + 1][..i] == warnings[..i];
        Add(warnings[i]);
        i := i + 1;
      }
      assert warnings[..i] == warnings;
    }
  }
}
