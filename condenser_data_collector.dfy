/**
 * The condenser's data collector: manufacturer ids met while reading
 * products, the products themselves, and the manufacturers by id. After
 * collection each product inherits the certifications of its known
 * manufacturers. Collectors of parallel workers are merged into one.
 */
module CondenserDataCollector {
  import opened Wrappers

  /** `consumers_wikidata::data::Id`: a Wikidata id as text. */
  type Id = string

  /** `Certifications`: each flag merged with `overwrite_false`. */
  datatype Certifications = Certifications(bcorp: bool, tco: bool)

  /** `Certifications::merge`: a flag stays true, or takes the other side's value. */
  function MergeCertifications(self: Certifications, other: Certifications): Certifications {
    Certifications(if self.bcorp then true else other.bcorp, if self.tco then true else other.tco)
  }

  /** Merging certifications is an or of each flag: commutative, idempotent, and never turns a flag off. */
  lemma MergeCertificationsSpec(a: Certifications, b: Certifications, c: Certifications)
    ensures MergeCertifications(a, b).bcorp <==> a.bcorp || b.bcorp
    ensures MergeCertifications(a, b).tco <==> a.tco || b.tco
    ensures MergeCertifications(a, b) == MergeCertifications(b, a)
    ensures MergeCertifications(a, a) == a
    ensures MergeCertifications(MergeCertifications(a, b), c) == MergeCertifications(a, MergeCertifications(b, c))
  {
  }

  datatype Category = Smartphone

  /** `Product`. */
  datatype Product = Product(
    id: Id,
    name: string,
    description: string,
    category: Option<Category>,
    manufacturerIds: Option<seq<Id>>,
    follows: Option<seq<Id>>,
    followedBy: Option<seq<Id>>,
    certifications: Certifications)

  /** `Manufacturer`. */
  datatype Manufacturer = Manufacturer(
    id: Id,
    name: string,
    description: string,
    websites: seq<string>,
    certifications: Certifications)

  /** The certifications after merging in those of each listed manufacturer that is known, in order. */
  function InheritedCertifications(c: Certifications, ids: seq<Id>, manufacturers: map<Id, Manufacturer>): Certifications
    decreases |ids|
  {
    if ids == [] then c
    else
      var last := ids[|ids| - 1];
      var before := InheritedCertifications(c, ids[..|ids| - 1], manufacturers);
      if last in manufacturers then MergeCertifications(before, manufacturers[last].certifications) else before
  }

  /** A flag ends up set iff it was set already or some listed, known manufacturer has it. */
  lemma {:induction false} InheritedCertificationsSpec(c: Certifications, ids: seq<Id>, manufacturers: map<Id, Manufacturer>)
    ensures InheritedCertifications(c, ids, manufacturers).bcorp <==>
      c.bcorp || exists i :: 0 <= i < |ids| && ids[i] in manufacturers && manufacturers[ids[i]].certifications.bcorp
    ensures InheritedCertifications(c, ids, manufacturers).tco <==>
      c.tco || exists i :: 0 <= i < |ids| && ids[i] in manufacturers && manufacturers[ids[i]].certifications.tco
    decreases |ids|
  {
    if ids != [] {
      var init := ids[..|ids| - 1];
      InheritedCertificationsSpec(c, init, manufacturers);
      assert forall i :: 0 <= i < |init| ==> init[i] == ids[i];
    }
  }

  /** The product as `postprocess` leaves it: only its certifications change. */
  function Postprocessed(p: Product, manufacturers: map<Id, Manufacturer>): Product {
    match p.manufacturerIds
    case None => p
    case Some(ids) => p.(certifications := InheritedCertifications(p.certifications, ids, manufacturers))
  }

  /**
   * Postprocessing a product keeps everything but its certifications, leaves
   * a product without manufacturer ids as it was, never turns a flag off, and
   * sets a flag that some listed, known manufacturer has.
   */
  lemma PostprocessedSpec(p: Product, manufacturers: map<Id, Manufacturer>)
    ensures Postprocessed(p, manufacturers).(certifications := p.certifications) == p
    ensures p.manufacturerIds.None? ==> Postprocessed(p, manufacturers) == p
    ensures p.certifications.bcorp ==> Postprocessed(p, manufacturers).certifications.bcorp
    ensures p.certifications.tco ==> Postprocessed(p, manufacturers).certifications.tco
    ensures p.manufacturerIds.Some? ==>
      (Postprocessed(p, manufacturers).certifications.bcorp <==>
        p.certifications.bcorp || exists i :: 0 <= i < |p.manufacturerIds.value| && p.manufacturerIds.value[i] in manufacturers
                                              && manufacturers[p.manufacturerIds.value[i]].certifications.bcorp)
    ensures p.manufacturerIds.Some? ==>
      (Postprocessed(p, manufacturers).certifications.tco <==>
        p.certifications.tco || exists i :: 0 <= i < |p.manufacturerIds.value| && p.manufacturerIds.value[i] in manufacturers
                                            && manufacturers[p.manufacturerIds.value[i]].certifications.tco)
  {
    if p.manufacturerIds.Some? {
      InheritedCertificationsSpec(p.certifications, p.manufacturerIds.value, manufacturers);
    }
  }

  /** `DataCollector`. */
  class DataCollector {
    var manufacturerIds: set<Id>
    var products: seq<Product>
    var manufacturers: map<Id, Manufacturer>

    /** `DataCollector::new`: nothing collected. */
    constructor ()
      ensures manufacturerIds == {} && products == [] && manufacturers == map[]
    {
      manufacturerIds := {};
      products := [];
      manufacturers := map[];
    }

    /** `add_manufacturer_ids`: every given id joins the set. */
    method AddManufacturerIds(ids: seq<Id>)
      modifies this
      ensures manufacturerIds == old(manufacturerIds) + set id | id in ids
      ensures products == old(products) && manufacturers == old(manufacturers)
    {
      var i := 0;
      while i < |ids|
        invariant 0 <= i <= |ids|
        invariant manufacturerIds == old(manufacturerIds) + set id | id in ids[..i]
        invariant products == old(products) && manufacturers == old(manufacturers)
      {
        assert ids[..i + 1] == ids[..i] + [ids[i]];
        manufacturerIds := manufacturerIds + {ids[i]};
        i := i + 1;
      }
      assert ids[..i] == ids;
    }

    /** `add_product`: appended at the end. */
    method AddProduct(product: Product)
      modifies this
      ensures products == old(products) + [product]
      ensures manufacturerIds == old(manufacturerIds) && manufacturers == old(manufacturers)
    {
      products := products + [product];
    }

    /** `add_manufacturer`: stored under its id, replacing an earlier one with that id. */
    method AddManufacturer(manufacturer: Manufacturer)
      modifies this
      ensures manufacturers == old(manufacturers)[manufacturer.id := manufacturer]
      ensures manufacturerIds == old(manufacturerIds) && products == old(products)
    {
      manufacturers := manufacturers[manufacturer.id := manufacturer];
    }

    /** `postprocess`: every product inherits the certifications of its known manufacturers. */
    method Postprocess()
      modifies this
      ensures |products| == |old(products)|
      ensures forall i :: 0 <= i < |products| ==> products[i] == Postprocessed(old(products)[i], manufacturers)
      ensures manufacturerIds == old(manufacturerIds) && manufacturers == old(manufacturers)
    {
      var i := 0;
      while i < |products|
        invariant 0 <= i <= |products| == |old(products)|
        invariant forall j :: 0 <= j < i ==> products[j] == Postprocessed(old(products)[j], manufacturers)
        invariant forall j :: i <= j < |products| ==> products[j] == old(products)[j]
        invariant manufacturerIds == old(manufacturerIds) && manufacturers == old(manufacturers)
      {
        var product := products[i];
        if product.manufacturerIds.Some? {
          var c := InheritFrom(product.certifications, product.manufacturerIds.value, manufacturers);
          products := products[i := product.(certifications := c)];
        }
        i := i + 1;
      }
    }

    /** `merge`: ids united, products appended, manufacturers extended with the other side winning. */
    method Merge(other: DataCollector)
      requires other != this
      modifies this
      ensures manufacturerIds == old(manufacturerIds) + other.manufacturerIds
      ensures products == old(products) + other.products
      ensures manufacturers == old(manufacturers) + other.manufacturers
    {
      manufacturerIds := manufacturerIds + other.manufacturerIds;
      products := products + other.products;
      manufacturers := manufacturers + other.manufacturers;
    }
  }

  /** The inner loop of `postprocess`: one merge per listed manufacturer that is known. */
  method InheritFrom(c: Certifications, ids: seq<Id>, manufacturers: map<Id, Manufacturer>) returns (r: Certifications)
    ensures r == InheritedCertifications(c, ids, manufacturers)
  {
    r := c;
    var i := 0;
    while i < |ids|
      invariant 0 <= i <= |ids|
      invariant r == InheritedCertifications(c, ids[..i], manufacturers)
    {
      assert ids[..i + 1][..i] == ids[..i];
      if ids[i] in manufacturers {
        r := MergeCertifications(r, manufacturers[ids[i]].certifications);
      }
      i := i + 1;
    }
    assert ids[..i] == ids;
  }

  /** After a merge, a manufacturer id known to the other side maps to its manufacturer; others keep theirs. */
  lemma MergedManufacturers(m1: map<Id, Manufacturer>, m2: map<Id, Manufacturer>, id: Id)
    ensures id in m1 + m2 <==> id in m1 || id in m2
    ensures id in m2 ==> (m1 + m2)[id] == m2[id]
    ensures id in m1 && id !in m2 ==> (m1 + m2)[id] == m1[id]
  {
  }
}
