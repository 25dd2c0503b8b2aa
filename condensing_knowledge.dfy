/**
 * The records the condensing crate stores: regions, certifications,
 * organisations and products, and how two records of the same entity are
 * merged into one. A merge of Rust's `merge::Merge` updates `self`; here it
 * is the value `self` holds afterwards.
 */
module CondensingKnowledge {
  import opened Wrappers
  import opened Ordering
  import MM = ModelsModels
  import D = CollectingData

  datatype Source = Wikidata | OpenFoodFacts | EuEcolabel

  /** A text with its source; `text` is the text itself. */
  datatype TextEntry = TextEntry(text: string, source: Source)

  datatype Image = Image(image: string, source: Source)

  // ---------------------------------------------------------------------
  // Regions

  /**
   * `Merge for Regions`: the new value of `self`. World absorbs, Unknown
   * changes nothing, and two lists become their sorted union without repeats.
   */
  function MergeRegions(self: MM.Regions, other: MM.Regions): MM.Regions {
    match other
    case World => MM.World
    case Unknown => self
    case List(otherList) =>
      match self
      case World => self
      case Unknown => MM.List(otherList)
      case List(selfList) => MM.List(SortDedup(selfList + otherList, MM.CountryLess))
  }

  /** The rules of the region merge. */
  lemma MergeRegionsSpec(self: MM.Regions, other: MM.Regions)
    ensures self.World? || other.World? ==> MergeRegions(self, other) == MM.World
    ensures other.Unknown? ==> MergeRegions(self, other) == self
    ensures self.Unknown? ==> MergeRegions(self, other) == other
    ensures self.List? && other.List? ==>
      && MergeRegions(self, other).List?
      && StrictlySorted(MergeRegions(self, other).codes, MM.CountryLess)
      && (forall c :: c in MergeRegions(self, other).codes <==> c in self.codes || c in other.codes)
    ensures MergeRegions(self, other) == MergeRegions(other, self)
  {
    if self.List? && other.List? {
      MM.CombineRegionsLists(self.codes, other.codes);
      MM.CombineRegionsCommutative(self, other);
    }
  }

  /**
   * Merging two lists of countries, given in any order, lists each country
   * once in the order of the code list: with countries ranked
   * f < d < i < p < e < s, [d, e, f, i] merged with [d, p, s, i] gives
   * [f, d, i, p, e, s], either way round.
   */
  lemma MergeRegionsLists(f: MM.Country, d: MM.Country, i: MM.Country, p: MM.Country, e: MM.Country, s: MM.Country)
    requires f.rank < d.rank < i.rank < p.rank < e.rank < s.rank
    ensures MergeRegions(MM.List([d, e, f, i]), MM.List([d, p, s, i])) == MM.List([f, d, i, p, e, s])
    ensures MergeRegions(MM.List([d, p, s, i]), MM.List([d, e, f, i])) == MM.List([f, d, i, p, e, s])
  {
    var expected := [f, d, i, p, e, s];
    assert StrictlySorted(expected, MM.CountryLess) by {
      forall a, b | 0 <= a < b < 6 ensures expected[a].rank < expected[b].rank {
      }
    }
    MergedListsAre([d, e, f, i], [d, p, s, i], expected);
    MergeRegionsSpec(MM.List([d, e, f, i]), MM.List([d, p, s, i]));
  }

  /** Two lists merge into the one strictly ordered list holding the countries of both. */
  lemma MergedListsAre(l1: seq<MM.Country>, l2: seq<MM.Country>, expected: seq<MM.Country>)
    requires StrictlySorted(expected, MM.CountryLess)
    requires forall c :: c in expected <==> c in l1 || c in l2
    ensures MergeRegions(MM.List(l1), MM.List(l2)) == MM.List(expected)
  {
    MergeRegionsSpec(MM.List(l1), MM.List(l2));
    MM.CountryLessIsStrictTotalOrder();
    StrictlySortedUnique(MergeRegions(MM.List(l1), MM.List(l2)).codes, expected, MM.CountryLess);
  }

  // ---------------------------------------------------------------------
  // Certifications

  datatype BCorpCert = BCorpCert(id: string)

  datatype EuEcolabelCert = EuEcolabelCert(matchAccuracy: real)

  datatype FtiCert = FtiCert(score: nat)

  datatype TcoCert = TcoCert(brandName: string)

  datatype Certifications = Certifications(
    bcorp: Option<BCorpCert>,
    euEcolabel: Option<EuEcolabelCert>,
    fti: Option<FtiCert>,
    tco: Option<TcoCert>)

  const NO_CERTIFICATIONS: Certifications := Certifications(None, None, None, None)

  /** `new_with_eu_ecolabel`: only the EU Ecolabel, with the given match accuracy. */
  function NewWithEuEcolabel(matchAccuracy: real): (r: Certifications)
    ensures r.euEcolabel == Some(EuEcolabelCert(matchAccuracy))
    ensures r.bcorp.None? && r.fti.None? && r.tco.None?
    ensures GetNum(r) == 1
  {
    NO_CERTIFICATIONS.(euEcolabel := Some(EuEcolabelCert(matchAccuracy)))
  }

  /** `get_num`: how many certifications are present. */
  function GetNum(c: Certifications): (r: nat)
    ensures r <= 4
    ensures r == 0 <==> c == NO_CERTIFICATIONS
    ensures r == 4 <==> c.bcorp.Some? && c.euEcolabel.Some? && c.fti.Some? && c.tco.Some?
  {
    (if c.bcorp.Some? then 1 else 0) + (if c.euEcolabel.Some? then 1 else 0)
    + (if c.fti.Some? then 1 else 0) + (if c.tco.Some? then 1 else 0)
  }

  /** `inherit`: the new value of `self`, with bcorp, fti and tco taken from `other` where it has them. */
  function Inherit(self: Certifications, other: Certifications): Certifications {
    var c1 := if other.bcorp.Some? then self.(bcorp := other.bcorp) else self;
    var c2 := if other.fti.Some? then c1.(fti := other.fti) else c1;
    if other.tco.Some? then c2.(tco := other.tco) else c2
  }

  /**
   * Inheriting takes exactly the other's bcorp, fti and tco that are present,
   * never touches the EU Ecolabel, never loses a certification, and doing it
   * twice is doing it once.
   */
  lemma InheritSpec(self: Certifications, other: Certifications)
    ensures Inherit(self, other).euEcolabel == self.euEcolabel
    ensures Inherit(self, other).bcorp == (if other.bcorp.Some? then other.bcorp else self.bcorp)
    ensures Inherit(self, other).fti == (if other.fti.Some? then other.fti else self.fti)
    ensures Inherit(self, other).tco == (if other.tco.Some? then other.tco else self.tco)
    ensures GetNum(self) <= GetNum(Inherit(self, other))
    ensures Inherit(Inherit(self, other), other) == Inherit(self, other)
    ensures Inherit(self, NO_CERTIFICATIONS) == self
  {
  }

  /** The derived `Merge for Certifications`: each field keeps its own value and takes the other's only when empty. */
  function MergeCertifications(self: Certifications, other: Certifications): Certifications {
    Certifications(
      if self.bcorp.Some? then self.bcorp else other.bcorp,
      if self.euEcolabel.Some? then self.euEcolabel else other.euEcolabel,
      if self.fti.Some? then self.fti else other.fti,
      if self.tco.Some? then self.tco else other.tco)
  }

  /**
   * The merge keeps every certification `self` has, adds those only `other`
   * has, counts at least as many as either side, and is idempotent.
   */
  lemma MergeCertificationsSpec(self: Certifications, other: Certifications)
    ensures var r := MergeCertifications(self, other);
      && (self.bcorp.Some? ==> r.bcorp == self.bcorp) && (self.bcorp.None? ==> r.bcorp == other.bcorp)
      && (self.euEcolabel.Some? ==> r.euEcolabel == self.euEcolabel) && (self.euEcolabel.None? ==> r.euEcolabel == other.euEcolabel)
      && (self.fti.Some? ==> r.fti == self.fti) && (self.fti.None? ==> r.fti == other.fti)
      && (self.tco.Some? ==> r.tco == self.tco) && (self.tco.None? ==> r.tco == other.tco)
      && GetNum(self) <= GetNum(r) && GetNum(other) <= GetNum(r)
    ensures MergeCertifications(self, self) == self
    ensures MergeCertifications(self, NO_CERTIFICATIONS) == self
    ensures MergeCertifications(NO_CERTIFICATIONS, other) == other
  {
  }

  // ---------------------------------------------------------------------
  // Organisations and products

  datatype Organisation = Organisation(
    dbId: string,
    id: D.OrganisationId,
    vatIds: set<D.VatId>,
    names: seq<TextEntry>,
    descriptions: seq<TextEntry>,
    images: seq<Image>,
    websites: set<string>,
    certifications: Certifications)

  /** The Sustainity score: its branches are not part of this model, only its total. */
  datatype SustainityScore = SustainityScore(total: real)

  datatype Product = Product(
    dbId: string,
    id: D.ProductId,
    gtins: set<D.Gtin>,
    names: seq<TextEntry>,
    descriptions: seq<TextEntry>,
    images: seq<Image>,
    certifications: Certifications,
    follows: set<D.ProductId>,
    followedBy: set<D.ProductId>,
    regions: MM.Regions,
    sustainityScore: SustainityScore)

  /**
   * `Merge for Organisation`: the new value of `self`. Nothing changes when
   * the ids differ; otherwise sets are united, lists appended and the
   * certifications merged.
   */
  function MergeOrganisation(self: Organisation, other: Organisation): Organisation {
    if self.id != other.id then self
    else self.(
      vatIds := self.vatIds + other.vatIds,
      names := self.names + other.names,
      descriptions := self.descriptions + other.descriptions,
      images := self.images + other.images,
      websites := self.websites + other.websites,
      certifications := MergeCertifications(self.certifications, other.certifications))
  }

  /**
   * Merging never changes the database id or the id, is a no-op for a
   * different id, and for the same id keeps everything `self` had, in front.
   */
  lemma MergeOrganisationSpec(self: Organisation, other: Organisation)
    ensures var r := MergeOrganisation(self, other);
      && r.dbId == self.dbId && r.id == self.id
      && (self.id != other.id ==> r == self)
      && (self.id == other.id ==>
            && r.vatIds == self.vatIds + other.vatIds && r.websites == self.websites + other.websites
            && r.names[..|self.names|] == self.names && r.names[|self.names|..] == other.names
            && r.descriptions[..|self.descriptions|] == self.descriptions
            && r.images[..|self.images|] == self.images
            && GetNum(self.certifications) <= GetNum(r.certifications))
  {
    var r := MergeOrganisation(self, other);
    if self.id == other.id {
      MergeCertificationsSpec(self.certifications, other.certifications);
      assert r.names[..|self.names|] == self.names;
      assert r.names[|self.names|..] == other.names;
      assert r.descriptions[..|self.descriptions|] == self.descriptions;
      assert r.images[..|self.images|] == self.images;
    }
  }

  /**
   * `Merge for Product`: the new value of `self`. Nothing changes when the
   * ids differ; otherwise the GTINs and the follow relations are united,
   * lists appended and the certifications merged, while the regions and
   * the score stay as they were.
   */
  function MergeProduct(self: Product, other: Product): Product {
    if self.id != other.id then self
    else self.(
      gtins := self.gtins + other.gtins,
      names := self.names + other.names,
      descriptions := self.descriptions + other.descriptions,
      images := self.images + other.images,
      certifications := MergeCertifications(self.certifications, other.certifications),
      follows := self.follows + other.follows,
      followedBy := self.followedBy + other.followedBy)
  }

  /** Merging keeps the ids, the regions and the score, and only adds to the sets. */
  lemma MergeProductSpec(self: Product, other: Product)
    ensures var r := MergeProduct(self, other);
      && r.dbId == self.dbId && r.id == self.id
      && r.regions == self.regions && r.sustainityScore == self.sustainityScore
      && (self.id != other.id ==> r == self)
      && (self.id == other.id ==>
            && r.gtins == self.gtins + other.gtins
            && r.follows == self.follows + other.follows
            && r.followedBy == self.followedBy + other.followedBy
            && r.names[..|self.names|] == self.names && r.names[|self.names|..] == other.names
            && GetNum(self.certifications) <= GetNum(r.certifications))
  {
    var r := MergeProduct(self, other);
    if self.id == other.id {
      MergeCertificationsSpec(self.certifications, other.certifications);
      assert r.names[..|self.names|] == self.names;
      assert r.names[|self.names|..] == other.names;
    }
  }
}
