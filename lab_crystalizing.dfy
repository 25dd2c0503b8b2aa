/**
 * The crystalisation of the lab crate: the substrate records are converted
 * into gathered organisations and products, the ids that do not parse or do
 * not resolve are reported per data set, and the stored categories carry
 * their products only when the products in them are comparable.
 */
module LabCrystalizing {
  import opened Wrappers
  import opened Text
  import opened ModelsIds
  import opened ModelsUtils
  import MM = ModelsModels
  import CC = CollectingCategories
  import opened LabSubstrate
  import opened LabCoagulate
  import opened LabCoagulatingIds

  // ---------------------------------------------------------------------
  // The report

  /** `CrystalizationReport`: invalid id texts and unresolved inner ids, per data set. */
  class CrystalizationReport {
    var invalidIds: map<DataSetId, set<string>>
    var missingInnerIds: map<DataSetId, set<InnerId>>

    /** `CrystalizationReport::default`. */
    constructor ()
      ensures invalidIds == map[] && missingInnerIds == map[]
    {
      invalidIds, missingInnerIds := map[], map[];
    }

    /** `add_invalid_id`: the data set's set gains the text. */
    method AddInvalidId(ds: DataSetId, id: string)
      modifies this
      ensures invalidIds == MM.Inserted(old(invalidIds), ds, id)
      ensures missingInnerIds == old(missingInnerIds)
    {
      if ds in invalidIds {
        invalidIds := invalidIds[ds := invalidIds[ds] + {id}];
      } else {
        assert {} + {id} == {id};
        invalidIds := invalidIds[ds := {id}];
      }
    }

    /** `add_missing_inner_id`: the data set's set gains the inner id. */
    method AddMissingInnerId(ds: DataSetId, inner: InnerId)
      modifies this
      ensures missingInnerIds == MM.Inserted(old(missingInnerIds), ds, inner)
      ensures invalidIds == old(invalidIds)
    {
      if ds in missingInnerIds {
        missingInnerIds := missingInnerIds[ds := missingInnerIds[ds] + {inner}];
      } else {
        assert {} + {inner} == {inner};
        missingInnerIds := missingInnerIds[ds := {inner}];
      }
    }

    /** `add_missing_external_id`: the decomposed inner id is recorded under its data set. */
    method AddMissingExternalId(e: ExternalId)
      modifies this
      ensures missingInnerIds == MM.Inserted(old(missingInnerIds), Decompose(e).0, Decompose(e).1)
      ensures invalidIds == old(invalidIds)
    {
      var (ds, inner) := Decompose(e);
      AddMissingInnerId(ds, inner);
    }
  }

  /**
   * After adding a value under a data set, that data set's set holds it, it
   * keeps what it held, and every other data set is unchanged.
   */
  lemma AddedToReport<V>(m: map<DataSetId, set<V>>, ds: DataSetId, v: V)
    ensures ds in MM.Inserted(m, ds, v) && v in MM.Inserted(m, ds, v)[ds]
    ensures ds in m ==> m[ds] <= MM.Inserted(m, ds, v)[ds]
    ensures MM.Inserted(m, ds, v).Keys == m.Keys + {ds}
    ensures forall other :: other in m && other != ds ==> MM.Inserted(m, ds, v)[other] == m[other]
  {
  }

  // ---------------------------------------------------------------------
  // Converting ids

  /** `gather::ProductIds`. */
  datatype GatherProductIds = GatherProductIds(eans: set<Ean>, gtins: set<Gtin>, wiki: set<WikiId>)

  /** `gather::OrganisationIds`. */
  datatype GatherOrganisationIds = GatherOrganisationIds(vatIds: set<VatId>, wiki: set<WikiId>, domains: set<string>)

  /** The unique product ids that the inner ids of a data set resolve to. */
  ghost function ResolvedIds(input: seq<string>, ds: DataSetId, product: map<ExternalId, nat>): set<nat> {
    set i | 0 <= i < |input| && NewExternalId(ds, input[i]) in product :: product[NewExternalId(ds, input[i])]
  }

  /** The missing inner ids after reporting, in order, the inputs that do not resolve. */
  function WithMissing(m: map<DataSetId, set<InnerId>>, input: seq<string>, ds: DataSetId,
                       product: map<ExternalId, nat>): map<DataSetId, set<InnerId>>
    decreases |input|
  {
    if input == [] then m
    else
      var init := WithMissing(m, input[..|input| - 1], ds, product);
      var e := NewExternalId(ds, input[|input| - 1]);
      if e in product then init else MM.Inserted(init, Decompose(e).0, Decompose(e).1)
  }

  /** Every inner id that does not resolve is reported under its data set. */
  lemma {:induction false} MissingReported(m: map<DataSetId, set<InnerId>>, input: seq<string>, ds: DataSetId,
                                           product: map<ExternalId, nat>, inner: string)
    requires inner in input && NewExternalId(ds, inner) !in product
    ensures ds in WithMissing(m, input, ds, product) && inner in WithMissing(m, input, ds, product)[ds]
    decreases |input|
  {
    var init := input[..|input| - 1];
    var last := input[|input| - 1];
    if inner != last {
      assert inner in init by {
        var i :| 0 <= i < |input| && input[i] == inner;
        assert init[i] == inner;
      }
      MissingReported(m, init, ds, product, inner);
    }
  }

  /** Reporting leaves the data sets other than the one the inputs belong to unchanged. */
  lemma {:induction false} MissingOnlyHere(m: map<DataSetId, set<InnerId>>, input: seq<string>, ds: DataSetId,
                                           product: map<ExternalId, nat>, other: DataSetId)
    requires other != ds
    ensures other in WithMissing(m, input, ds, product) <==> other in m
    ensures other in m ==> WithMissing(m, input, ds, product)[other] == m[other]
    decreases |input|
  {
    if input != [] {
      MissingOnlyHere(m, input[..|input| - 1], ds, product, other);
    }
  }

  /** `Processor`: the conversions that report into the crystalisation report. */
  class Processor {
    const report: CrystalizationReport

    constructor (report: CrystalizationReport)
      ensures this.report == report
    {
      this.report := report;
    }

    /** One `for` loop of `convert_*_ids`: the texts that parse go into the set, the others into the report. */
    method ParseInto<T>(texts: Option<seq<string>>, parse: string -> Result<T, ParseIdError>, ds: DataSetId)
      returns (s: set<T>)
      modifies report
      ensures s == ParsedSet(Listed(texts), parse)
      ensures report.invalidIds == WithWarnings(old(report.invalidIds), Rejected(Listed(texts), parse, ds))
      ensures report.missingInnerIds == old(report.missingInnerIds)
    {
      s := {};
      var list := Listed(texts);
      var i := 0;
      while i < |list|
        invariant 0 <= i <= |list|
        invariant s == ParsedSet(list[..i], parse)
        invariant report.invalidIds == WithWarnings(old(report.invalidIds), Rejected(list[..i], parse, ds))
        invariant report.missingInnerIds == old(report.missingInnerIds)
      {
        assert list[..i + 1][..i] == list[..i];
        var parsed := parse(list[i]);
        if parsed.Ok? {
          ParsedSetStep(list, i, parse);
          s := s + {parsed.value};
        } else {
          ParsedSetSkip(list, i, parse);
          var warnings := Rejected(list[..i + 1], parse, ds);
          assert warnings[..|warnings| - 1] == Rejected(list[..i], parse, ds);
          report.AddInvalidId(ds, list[i]);
        }
        i := i + 1;
      }
      assert list[..i] == list;
    }

    /** `convert_product_ids`. */
    method ConvertProductIds(ids: ProductIdTexts, substrate: Substrate) returns (r: GatherProductIds)
      modifies report
      ensures r == GatherProductIds(ParsedSet(Listed(ids.ean), EanTryFrom), ParsedSet(Listed(ids.gtin), GtinTryFrom),
                                    ParsedSet(Listed(ids.wiki), WikiIdTryFrom))
      ensures report.invalidIds == WithWarnings(old(report.invalidIds), ProductWarnings(ids, substrate.id))
      ensures report.missingInnerIds == old(report.missingInnerIds)
    {
      var ds := substrate.id;
      var eans := ParseInto(ids.ean, EanTryFrom, ds);
      var gtins := ParseInto(ids.gtin, GtinTryFrom, ds);
      var wiki := ParseInto(ids.wiki, WikiIdTryFrom, ds);
      r := GatherProductIds(eans, gtins, wiki);
      WithWarningsAppend(old(report.invalidIds), Rejected(Listed(ids.ean), EanTryFrom, ds), Rejected(Listed(ids.gtin), GtinTryFrom, ds));
      WithWarningsAppend(old(report.invalidIds), Rejected(Listed(ids.ean), EanTryFrom, ds) + Rejected(Listed(ids.gtin), GtinTryFrom, ds),
                         Rejected(Listed(ids.wiki), WikiIdTryFrom, ds));
    }

    /** `convert_organisation_ids`: the domains are kept as they are. */
    method ConvertOrganisationIds(ids: ProducerIdTexts, substrate: Substrate) returns (r: GatherOrganisationIds)
      modifies report
      ensures r == GatherOrganisationIds(ParsedSet(Listed(ids.vat), VatIdTryFrom), ParsedSet(Listed(ids.wiki), WikiIdTryFrom),
                                         set d | d in Listed(ids.domains))
      ensures report.invalidIds == WithWarnings(old(report.invalidIds), ProducerWarnings(ids, substrate.id))
      ensures report.missingInnerIds == old(report.missingInnerIds)
    {
      var ds := substrate.id;
      var vats := ParseInto(ids.vat, VatIdTryFrom, ds);
      var wiki := ParseInto(ids.wiki, WikiIdTryFrom, ds);
      var list := Listed(ids.domains);
      var domains: set<string> := {};
      var i := 0;
      while i < |list|
        invariant 0 <= i <= |list|
        invariant domains == set d | d in list[..i]
      {
        assert list[..i + 1] == list[..i] + [list[i]];
        domains := domains + {list[i]};
        i := i + 1;
      }
      assert list[..i] == list;
      r := GatherOrganisationIds(vats, wiki, domains);
      WithWarningsAppend(old(report.invalidIds), Rejected(Listed(ids.vat), VatIdTryFrom, ds), Rejected(Listed(ids.wiki), WikiIdTryFrom, ds));
    }

    /** `convert_inner_ids`: the inner ids of a data set that resolve to unique product ids. */
    method ConvertInnerIds(input: seq<string>, substrate: Substrate, coagulate: Coagulate) returns (r: set<nat>)
      modifies report
      ensures r == ResolvedIds(input, substrate.id, coagulate.product)
      ensures report.missingInnerIds == WithMissing(old(report.missingInnerIds), input, substrate.id, coagulate.product)
      ensures report.invalidIds == old(report.invalidIds)
    {
      r := {};
      var i := 0;
      while i < |input|
        invariant 0 <= i <= |input|
        invariant r == ResolvedIds(input[..i], substrate.id, coagulate.product)
        invariant report.missingInnerIds == WithMissing(old(report.missingInnerIds), input[..i], substrate.id, coagulate.product)
        invariant report.invalidIds == old(report.invalidIds)
      {
        assert input[..i + 1][..i] == input[..i];
        var external := NewExternalId(substrate.id, input[i]);
        ResolvedStep(input, i, substrate.id, coagulate.product);
        var found := GetUniqueIdForProductExternalId(coagulate, external);
        if found.Ok? {
          r := r + {found.value};
        } else {
          report.AddMissingExternalId(found.error);
        }
        i := i + 1;
      }
      assert input[..i] == input;
    }
  }

  lemma ParsedSetSkip<T>(ids: seq<string>, i: nat, parse: string -> Result<T, ParseIdError>)
    requires i < |ids| && parse(ids[i]).Err?
    ensures ParsedSet(ids[..i + 1], parse) == ParsedSet(ids[..i], parse)
  {
    var a := ids[..i + 1];
    assert a[..i] == ids[..i];
  }

  lemma ResolvedStep(input: seq<string>, i: nat, ds: DataSetId, product: map<ExternalId, nat>)
    requires i < |input|
    ensures ResolvedIds(input[..i + 1], ds, product)
         == ResolvedIds(input[..i], ds, product)
          + (if NewExternalId(ds, input[i]) in product then {product[NewExternalId(ds, input[i])]} else {})
  {
    var a := input[..i + 1];
    assert a[..i] == input[..i];
    assert a[i] == input[i];
  }

  /**
   * In `convert_product_ids` every text is accounted for: a text that parses
   * is in the output set, and one that does not is reported as invalid for
   * the data set.
   */
  lemma ProductIdsAccounted(ids: ProductIdTexts, ds: DataSetId, m: map<DataSetId, set<string>>, t: string)
    ensures t in Listed(ids.ean) ==>
      if EanTryFrom(t).Ok? then EanTryFrom(t).value in ParsedSet(Listed(ids.ean), EanTryFrom)
      else Reported(WithWarnings(m, ProductWarnings(ids, ds)), ds, t)
    ensures t in Listed(ids.gtin) ==>
      if GtinTryFrom(t).Ok? then GtinTryFrom(t).value in ParsedSet(Listed(ids.gtin), GtinTryFrom)
      else Reported(WithWarnings(m, ProductWarnings(ids, ds)), ds, t)
    ensures t in Listed(ids.wiki) ==>
      if WikiIdTryFrom(t).Ok? then WikiIdTryFrom(t).value in ParsedSet(Listed(ids.wiki), WikiIdTryFrom)
      else Reported(WithWarnings(m, ProductWarnings(ids, ds)), ds, t)
  {
    var warnings := ProductWarnings(ids, ds);
    if t in Listed(ids.ean) {
      TextAccounted(Listed(ids.ean), EanTryFrom, WrapEan, ds, t);
      if EanTryFrom(t).Err? { WarningReported(m, warnings, ds, t); }
    }
    if t in Listed(ids.gtin) {
      TextAccounted(Listed(ids.gtin), GtinTryFrom, WrapGtin, ds, t);
      if GtinTryFrom(t).Err? { WarningReported(m, warnings, ds, t); }
    }
    if t in Listed(ids.wiki) {
      TextAccounted(Listed(ids.wiki), WikiIdTryFrom, WrapProductWiki, ds, t);
      if WikiIdTryFrom(t).Err? { WarningReported(m, warnings, ds, t); }
    }
  }

  /** In `convert_organisation_ids` every VAT and Wikidata text is accounted for, and every domain is kept. */
  lemma OrganisationIdsAccounted(ids: ProducerIdTexts, ds: DataSetId, m: map<DataSetId, set<string>>, t: string)
    ensures t in Listed(ids.vat) ==>
      if VatIdTryFrom(t).Ok? then VatIdTryFrom(t).value in ParsedSet(Listed(ids.vat), VatIdTryFrom)
      else Reported(WithWarnings(m, ProducerWarnings(ids, ds)), ds, t)
    ensures t in Listed(ids.wiki) ==>
      if WikiIdTryFrom(t).Ok? then WikiIdTryFrom(t).value in ParsedSet(Listed(ids.wiki), WikiIdTryFrom)
      else Reported(WithWarnings(m, ProducerWarnings(ids, ds)), ds, t)
  {
    var warnings := ProducerWarnings(ids, ds);
    if t in Listed(ids.vat) {
      TextAccounted(Listed(ids.vat), VatIdTryFrom, WrapVat, ds, t);
      if VatIdTryFrom(t).Err? { WarningReported(m, warnings, ds, t); }
    }
    if t in Listed(ids.wiki) {
      TextAccounted(Listed(ids.wiki), WikiIdTryFrom, WrapProducerWiki, ds, t);
      if WikiIdTryFrom(t).Err? { WarningReported(m, warnings, ds, t); }
    }
  }

  /** A listed text either parses into the parsed set or has a warning. */
  lemma TextAccounted<T, U>(texts: seq<string>, parse: string -> Result<T, ParseIdError>, wrap: T -> U, ds: DataSetId, t: string)
    requires t in texts
    ensures parse(t).Ok? ==> parse(t).value in ParsedSet(texts, parse)
    ensures parse(t).Err? ==> InvalidIndividualId(ds, t) in Rejected(texts, parse, ds)
  {
    AcceptedRejectedPartition(texts, parse, wrap, ds);
    var i :| 0 <= i < |texts| && texts[i] == t;
    if parse(t).Err? {
      assert parse(texts[i]).Err? && InvalidIndividualId(ds, t) == InvalidIndividualId(ds, texts[i]);
    }
  }

  // ---------------------------------------------------------------------
  // Media mentions

  /** `schema::Report`. */
  datatype Report = Report(title: Option<string>, url: Option<string>)

  /** `gather::Mention`. */
  datatype Mention = Mention(title: string, link: string)

  /** `gather::Medium`. */
  datatype Medium = Medium(source: MM.Source, mentions: seq<Mention>)

  const YOUTUBE: string := "youtube.com"

  /** A report with a URL whose domain is YouTube's. */
  predicate IsYoutube(r: Report) {
    r.url.Some? && ExtractDomainFromUrl(r.url.value) == YOUTUBE
  }

  /** The mention of a report: its title, or its URL when it has none, and its URL. */
  function MentionOf(r: Report): Mention
    requires r.url.Some?
  {
    Mention(if r.title.Some? then r.title.value else r.url.value, r.url.value)
  }

  /** The mentions of the reports that `keep` selects, in order. */
  function KeptMentions(reports: seq<Report>, keep: Report -> bool): seq<Mention>
    decreases |reports|
  {
    if reports == [] then []
    else
      var init := KeptMentions(reports[..|reports| - 1], keep);
      var last := reports[|reports| - 1];
      if keep(last) && last.url.Some? then init + [MentionOf(last)] else init
  }

  /** The mentions of the YouTube reports, in order. */
  function YoutubeMentions(reports: seq<Report>): seq<Mention> {
    KeptMentions(reports, IsYoutube)
  }

  /** No mention at all gives no medium; otherwise one medium with all of them. */
  function MediaOf(mentions: seq<Mention>, source: MM.Source): (r: set<Medium>)
    ensures |r| <= 1
    ensures forall md :: md in r ==> md.mentions == mentions && md.source == source
  {
    if mentions == [] then {} else {Medium(source, mentions)}
  }

  /** `extract_media_mentions`. */
  method ExtractMediaMentions(reports: Option<seq<Report>>, source: MM.Source) returns (r: set<Medium>)
    ensures r == (if reports.None? then {} else MediaOf(YoutubeMentions(reports.value), source))
  {
    if reports.None? {
      return {};
    }
    var list := reports.value;
    var mentions: seq<Mention> := [];
    var i := 0;
    while i < |list|
      invariant 0 <= i <= |list|
      invariant mentions == KeptMentions(list[..i], IsYoutube)
    {
      assert list[..i + 1][..i] == list[..i];
      var report := list[i];
      if report.url.Some? && ExtractDomainFromUrl(report.url.value) == YOUTUBE {
        mentions := mentions + [Mention(if report.title.Some? then report.title.value else report.url.value, report.url.value)];
      }
      i := i + 1;
    }
    assert list[..i] == list;
    if mentions == [] {
      r := {};
    } else {
      r := {Medium(source, mentions)};
    }
  }

  /**
   * The kept mentions are exactly those of the selected reports with a URL,
   * each titled by the report's title or, lacking one, its URL.
   */
  lemma {:induction false} KeptMentionsSpec(reports: seq<Report>, keep: Report -> bool)
    ensures forall m :: m in KeptMentions(reports, keep) <==>
      exists i :: 0 <= i < |reports| && keep(reports[i]) && reports[i].url.Some? && m == MentionOf(reports[i])
    decreases |reports|
  {
    if reports != [] {
      var init := reports[..|reports| - 1];
      KeptMentionsSpec(init, keep);
      forall m | exists i :: 0 <= i < |reports| && keep(reports[i]) && reports[i].url.Some? && m == MentionOf(reports[i])
        ensures m in KeptMentions(reports, keep)
      {
        var i :| 0 <= i < |reports| && keep(reports[i]) && reports[i].url.Some? && m == MentionOf(reports[i]);
        if i < |init| {
          assert init[i] == reports[i];
        }
      }
      forall m | m in KeptMentions(reports, keep)
        ensures exists i :: 0 <= i < |reports| && keep(reports[i]) && reports[i].url.Some? && m == MentionOf(reports[i])
      {
        if m in KeptMentions(init, keep) {
          var i :| 0 <= i < |init| && keep(init[i]) && init[i].url.Some? && m == MentionOf(init[i]);
          assert reports[i] == init[i];
        } else {
          assert keep(reports[|reports| - 1]) && m == MentionOf(reports[|reports| - 1]);
        }
      }
    }
  }

  /**
   * Every mention comes from a report whose URL points to YouTube, links to
   * that URL, and is titled by the report's title or, lacking one, the URL.
   */
  lemma MentionsAreYoutube(reports: seq<Report>, m: Mention)
    requires m in YoutubeMentions(reports)
    ensures ExtractDomainFromUrl(m.link) == YOUTUBE
    ensures exists i :: 0 <= i < |reports| && reports[i].url == Some(m.link)
                     && m.title == (if reports[i].title.Some? then reports[i].title.value else m.link)
  {
    KeptMentionsSpec(reports, IsYoutube);
    var i :| 0 <= i < |reports| && IsYoutube(reports[i]) && reports[i].url.Some? && m == MentionOf(reports[i]);
    assert reports[i].url == Some(m.link);
  }

  /** And every report whose URL points to YouTube gives its mention. */
  lemma YoutubeReportsMentioned(reports: seq<Report>, i: nat)
    requires i < |reports| && IsYoutube(reports[i])
    ensures MentionOf(reports[i]) in YoutubeMentions(reports)
  {
    KeptMentionsSpec(reports, IsYoutube);
  }

  // ---------------------------------------------------------------------
  // Certifications

  /** `schema::Review`, as far as certifications care. */
  datatype Review = ScoreReview(value: int) | OtherReview

  /** `schema::ReviewProducer`, as far as certifications care. */
  datatype ReviewProducer = ReviewProducer(id: string, names: seq<string>, reports: Option<seq<Report>>, review: Option<Review>)

  /**
   * `extract_bcorp_cert`: only for a BCorp substrate and a producer with
   * reports; the report URL is the first report's, or empty.
   */
  function ExtractBCorpCert(p: ReviewProducer, s: Substrate): (r: Option<MM.BCorpCert>)
    ensures r.Some? <==> s.source == MM.BCorp && p.reports.Some?
    ensures r.Some? ==> r.value.id == p.id
  {
    if s.source != MM.BCorp then None
    else if p.reports.None? then None
    else
      var reports := p.reports.value;
      Some(MM.BCorpCert(p.id, if reports != [] && reports[0].url.Some? then reports[0].url.value else ""))
  }

  /** `extract_euecolabel_cert`: only for an EU Ecolabel substrate. */
  function ExtractEuEcolabelCert(s: Substrate): (r: Option<MM.EuEcolabelCert>)
    ensures r.Some? <==> s.source == MM.EuEcolabel
  {
    if s.source != MM.EuEcolabel then None else Some(MM.EuEcolabelCert)
  }

  /** `extract_fti_cert`: only for a Fashion Transparency Index substrate and a score review. */
  function ExtractFtiCert(p: ReviewProducer, s: Substrate): (r: Option<MM.FtiCert>)
    ensures r.Some? <==> s.source == MM.Fti && p.review.Some? && p.review.value.ScoreReview?
    ensures r.Some? ==> r.value.score == p.review.value.value
  {
    if s.source != MM.Fti then None
    else
      match p.review
      case Some(ScoreReview(value)) => Some(MM.FtiCert(value))
      case _ => None
  }

  /** `extract_tco_cert`: only for a TCO substrate, named after the producer's first name. */
  function ExtractTcoCert(p: ReviewProducer, s: Substrate): (r: Option<MM.TcoCert>)
    ensures r.Some? <==> s.source == MM.Tco && p.names != []
    ensures r.Some? ==> r.value.brandName == p.names[0]
  {
    if s.source != MM.Tco then None
    else if p.names == [] then None
    else Some(MM.TcoCert(p.names[0]))
  }

  /** A substrate gives at most one kind of certification. */
  lemma OneCertifierPerSubstrate(p: ReviewProducer, s: Substrate)
    ensures |MM.PresentCertifications(MM.Certifications(ExtractBCorpCert(p, s), ExtractEuEcolabelCert(s),
                                                         ExtractFtiCert(p, s), ExtractTcoCert(p, s)))| <= 1
  {
  }

  // ---------------------------------------------------------------------
  // Keywords

  /** The lowercased forms of the words. */
  function LowerWords(words: seq<string>): set<string>
    decreases |words|
  {
    if words == [] then {} else LowerWords(words[..|words| - 1]) + {ToLower(words[|words| - 1])}
  }

  lemma {:induction false} LowerWordsSpec(words: seq<string>, k: string)
    ensures k in LowerWords(words) <==> exists i :: 0 <= i < |words| && k == ToLower(words[i])
    decreases |words|
  {
    if words != [] {
      var n := |words| - 1;
      var init := words[..n];
      LowerWordsSpec(init, k);
      if k in LowerWords(init) {
        var i :| 0 <= i < |init| && k == ToLower(init[i]);
        assert words[i] == init[i];
      } else if k != ToLower(words[n]) {
        forall i | 0 <= i < |words| ensures k != ToLower(words[i]) {
          if i < n {
            assert init[i] == words[i];
          }
        }
      }
    }
  }

  /** The union of `f` over the texts. */
  ghost function UnionOf(texts: set<string>, f: string -> set<string>): set<string> {
    set t, k | t in texts && k in f(t) :: k
  }

  lemma UnionOfAdd(done: set<string>, t: string, f: string -> set<string>)
    ensures UnionOf(done + {t}, f) == UnionOf(done, f) + f(t)
  {
    var l := UnionOf(done + {t}, f);
    var r := UnionOf(done, f) + f(t);
    forall k | k in r ensures k in l {
      if k !in UnionOf(done, f) {
        assert t in done + {t} && k in f(t);
      }
    }
  }

  /** The lowercased words of one text. */
  function TextKeywords(t: string): set<string> {
    LowerWords(Words(t))
  }

  /** The lowercased words of the texts. */
  ghost function Keywords(texts: set<string>): set<string> {
    UnionOf(texts, TextKeywords)
  }

  /** `Saver::extract_keywords`: every word of every text, lowercased, without the empty word. */
  method ExtractKeywords(texts: set<string>) returns (r: set<string>)
    ensures r == Keywords(texts) - {""}
  {
    r := {};
    var todo := texts;
    while todo != {}
      invariant todo <= texts
      invariant r == Keywords(texts - todo)
      decreases todo
    {
      var text :| text in todo;
      KeywordsStep(texts, todo, text);
      r := AddLowerWords(r, Words(text));
      todo := todo - {text};
    }
    r := r - {""};
  }

  lemma KeywordsStep(texts: set<string>, todo: set<string>, text: string)
    requires text in todo && todo <= texts
    ensures Keywords(texts - (todo - {text})) == Keywords(texts - todo) + LowerWords(Words(text))
  {
    UnionOfAdd(texts - todo, text, TextKeywords);
    assert texts - (todo - {text}) == (texts - todo) + {text};
  }

  /** The inner loop of `extract_keywords`: each word of one text, lowercased, into the set. */
  method AddLowerWords(r: set<string>, words: seq<string>) returns (r': set<string>)
    ensures r' == r + LowerWords(words)
  {
    r' := r;
    var j := 0;
    while j < |words|
      invariant 0 <= j <= |words|
      invariant r' == r + LowerWords(words[..j])
    {
      assert words[..j + 1][..j] == words[..j];
      r' := r' + {ToLower(words[j])};
      j := j + 1;
    }
    assert words[..j] == words;
  }

  /**
   * The keywords are lowercase and free of whitespace, and the empty word is
   * never among them, so dropping it changes nothing.
   */
  lemma KeywordsShape(texts: set<string>, k: string)
    requires k in Keywords(texts)
    ensures k != "" && IsLower(k)
    ensures forall j :: 0 <= j < |k| ==> !IsWhitespace(k[j])
  {
    var t :| t in texts && k in TextKeywords(t);
    WordKeywordShape(Words(t), k);
  }

  lemma WordKeywordShape(words: seq<string>, k: string)
    requires k in LowerWords(words)
    requires forall i :: 0 <= i < |words| ==> words[i] != []
    requires forall w :: w in words ==> forall j :: 0 <= j < |w| ==> !IsWhitespace(w[j])
    ensures k != "" && IsLower(k)
    ensures forall j :: 0 <= j < |k| ==> !IsWhitespace(k[j])
  {
    LowerWordsSpec(words, k);
    var i :| 0 <= i < |words| && k == ToLower(words[i]);
    assert words[i] in words;
    LowerWordShape(words[i]);
  }

  /** Lowercasing keeps a word non-empty and free of whitespace. */
  lemma LowerWordShape(w: string)
    requires w != []
    requires forall j :: 0 <= j < |w| ==> !IsWhitespace(w[j])
    ensures ToLower(w) != [] && IsLower(ToLower(w))
    ensures forall j :: 0 <= j < |w| ==> !IsWhitespace(ToLower(w)[j])
  {
    ToLowerIdempotent(w);
    forall j | 0 <= j < |w| ensures !IsWhitespace(ToLower(w)[j]) {
      LowerCharWhitespace(w[j]);
    }
  }

  lemma LowerCharWhitespace(c: char)
    ensures IsWhitespace(ToLowerChar(c)) == IsWhitespace(c)
  {
  }

  // ---------------------------------------------------------------------
  // The uniqueness check

  datatype CrystalizationError = NotUniqueKeys(comment: string, unique: nat, all: nat)

  /** `uniqueness_check`: the set of unique keys must be as large as the bucket. */
  function UniquenessCheck<T, K, V>(unique: set<T>, all: map<K, V>, comment: string): (r: Result<(), CrystalizationError>)
    ensures r.Ok? <==> |unique| == |all|
    ensures r.Err? ==> r.error == NotUniqueKeys(comment, |unique|, |all|)
  {
    if |unique| == |all| then Ok(()) else Err(NotUniqueKeys(comment, |unique|, |all|))
  }

  // ---------------------------------------------------------------------
  // Stored categories

  /** `store::Category`; its status is the category's own (`convert_category_status` is one to one). */
  datatype StoreCategory = StoreCategory(status: CC.Status, subcategories: seq<string>, products: Option<seq<nat>>)

  /** The stored root: broad, with the root's subcategories and no products. */
  function StoredRoot(info: CC.Info): (c: StoreCategory)
    ensures c.status == CC.Broad && c.products.None? && c.subcategories == info.subcategories
  {
    StoreCategory(CC.Broad, info.subcategories, None)
  }

  /** A stored category lists its products only when they are comparable. */
  function StoredCategory(info: CC.Info, ids: seq<nat>): (c: StoreCategory)
    ensures c.products.Some? <==> CC.AreProductsComparable(info.status)
    ensures c.products.Some? ==> c.products.value == ids
    ensures c.products.None? <==> info.status == CC.Broad
    ensures c.status == info.status && c.subcategories == info.subcategories
  {
    StoreCategory(info.status, info.subcategories, if CC.AreProductsComparable(info.status) then Some(ids) else None)
  }

  /** What is stored under a category: the ids of the products in it, in product order. */
  function IdsIn(products: seq<(nat, set<string>)>, c: string): seq<nat>
    decreases |products|
  {
    if products == [] then []
    else
      var init := IdsIn(products[..|products| - 1], c);
      var last := products[|products| - 1];
      if c in last.1 then init + [last.0] else init
  }

  /** One more product: it is appended to every category it is in. */
  function AddToAll(m: map<string, seq<nat>>, cats: set<string>, id: nat): map<string, seq<nat>> {
    map c | c in m.Keys + cats :: if c in cats then (if c in m then m[c] else []) + [id] else m[c]
  }

  /** The map `store_categories` fills: each category path to the products in it. */
  function ByCategory(products: seq<(nat, set<string>)>): map<string, seq<nat>>
    decreases |products|
  {
    if products == [] then map[]
    else AddToAll(ByCategory(products[..|products| - 1]), products[|products| - 1].1, products[|products| - 1].0)
  }

  lemma AddToAllSpec(m: map<string, seq<nat>>, cats: set<string>, id: nat, c: string)
    ensures c in AddToAll(m, cats, id) <==> c in m || c in cats
    ensures c in cats ==> AddToAll(m, cats, id)[c] == (if c in m then m[c] else []) + [id]
    ensures c in m && c !in cats ==> AddToAll(m, cats, id)[c] == m[c]
  {
  }

  /**
   * A category is present exactly when some product is in it, and lists
   * those products in order.
   */
  lemma {:induction false} ByCategorySpec(products: seq<(nat, set<string>)>, c: string)
    ensures c in ByCategory(products) <==> exists i :: 0 <= i < |products| && c in products[i].1
    ensures c in ByCategory(products) ==> ByCategory(products)[c] == IdsIn(products, c)
    ensures c !in ByCategory(products) ==> IdsIn(products, c) == []
    decreases |products|
  {
    if products != [] {
      var init := products[..|products| - 1];
      var last := products[|products| - 1];
      ByCategorySpec(init, c);
      AddToAllSpec(ByCategory(init), last.1, last.0, c);
      if exists i :: 0 <= i < |products| && c in products[i].1 {
        var i :| 0 <= i < |products| && c in products[i].1;
        if i < |init| {
          assert init[i] == products[i];
        }
      }
      if exists i :: 0 <= i < |init| && c in init[i].1 {
        var i :| 0 <= i < |init| && c in init[i].1;
        assert products[i] == init[i];
      }
    }
  }

  /**
   * The grouping loop of `store_categories`: every product id is appended to
   * each of its category paths, given here already expanded by
   * `all_categories`.
   */
  method GroupByCategory(products: seq<(nat, set<string>)>) returns (data: map<string, seq<nat>>)
    ensures data == ByCategory(products)
  {
    data := map[];
    var i := 0;
    while i < |products|
      invariant 0 <= i <= |products|
      invariant data == ByCategory(products[..i])
    {
      assert products[..i + 1][..i] == products[..i];
      data := AddIdToAll(data, products[i].1, products[i].0);
      i := i + 1;
    }
    assert products[..i] == products;
  }

  /** The inner loop of the grouping: `id` is appended under each of `cats`. */
  method AddIdToAll(data: map<string, seq<nat>>, cats: set<string>, id: nat) returns (data': map<string, seq<nat>>)
    ensures data' == AddToAll(data, cats, id)
  {
    data' := data;
    var todo := cats;
    while todo != {}
      invariant todo <= cats
      invariant data' == AddToAll(data, cats - todo, id)
      decreases todo
    {
      var c :| c in todo;
      AddToAllStep(data, cats - todo, c, id);
      data' := data'[c := (if c in data' then data'[c] else []) + [id]];
      todo := todo - {c};
      assert cats - todo == (cats - (todo + {c})) + {c};
    }
    assert cats - todo == cats;
  }

  lemma AddToAllStep(m: map<string, seq<nat>>, done: set<string>, c: string, id: nat)
    requires c !in done
    ensures AddToAll(m, done + {c}, id)
         == AddToAll(m, done, id)[c := (if c in AddToAll(m, done, id) then AddToAll(m, done, id)[c] else []) + [id]]
  {
    var l := AddToAll(m, done + {c}, id);
    var r := AddToAll(m, done, id)[c := (if c in AddToAll(m, done, id) then AddToAll(m, done, id)[c] else []) + [id]];
    assert l.Keys == r.Keys;
    forall k | k in l ensures l[k] == r[k] { }
  }
}
