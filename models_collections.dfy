/**
 * Database keys of the models crate: every record is stored under a key
 * derived from one of its ids, in a collection whose name prefixes the
 * document id.
 */
module ModelsCollections {
  import opened Wrappers
  import opened Text
  import opened ModelsIds

  const Organisations: string := "organisations"
  const OrganisationVatIds: string := "organisation_vat_ids"
  const OrganisationWikiIds: string := "organisation_wiki_ids"
  const OrganisationWwws: string := "organisation_wwws"
  const Products: string := "products"
  const ProductEans: string := "product_eans"
  const ProductGtins: string := "product_gtins"
  const ProductWikiIds: string := "product_wiki_ids"
  const Categories: string := "categories"

  /** The names of the collections, none of which holds a '/'. */
  const CollectionNames: set<string> := {
    Organisations, OrganisationVatIds, OrganisationWikiIds, OrganisationWwws,
    Products, ProductEans, ProductGtins, ProductWikiIds, Categories
  }

  datatype KeyId = KeyId(key: string, id: string)

  /**
   * `format!("{}/{}", collection, key)` beside the key: the collection is the
   * text before the first '/', and the key is what follows it.
   */
  function Build(collection: string, key: string): (r: KeyId)
    requires '/' !in collection
    ensures r.key == key
    ensures BeforeFirst(r.id, '/') == collection
    ensures StripPrefix(r.id, collection + "/") == Some(key)
  {
    var id := collection + "/" + key;
    assert id[..|collection|] == collection;
    assert id[|collection|] == '/';
    BeforeFirstStop(collection, "/" + key);
    assert id[..|collection + "/"|] == collection + "/";
    assert id[|collection + "/"|..] == key;
    KeyId(key, id)
  }

  lemma {:induction false} BeforeFirstStop(a: string, b: string)
    requires '/' !in a && b != [] && b[0] == '/'
    ensures BeforeFirst(a + b, '/') == a
  {
    if a != [] {
      assert (a + b)[1..] == a[1..] + b;
      BeforeFirstStop(a[1..], b);
    }
  }

  /** Two keys built in collections with different names never share an id. */
  lemma BuildSeparatesCollections(c1: string, k1: string, c2: string, k2: string)
    requires '/' !in c1 && '/' !in c2
    ensures Build(c1, k1).id == Build(c2, k2).id <==> c1 == c2 && k1 == k2
  {
    var r1, r2 := Build(c1, k1), Build(c2, k2);
    if r1.id == r2.id {
      assert c1 == c2;
      assert Some(k1) == StripPrefix(r1.id, c1 + "/") == Some(k2);
    }
  }

  lemma CollectionNamesHaveNoSlash()
    ensures forall c :: c in CollectionNames ==> '/' !in c
  {
  }

  /** `organisation`: keyed by the decimal organisation id. */
  function Organisation(orgId: OrganisationId): (r: KeyId)
    ensures r.key == OrganisationIdCanonical(orgId) && StripPrefix(r.id, Organisations + "/") == Some(r.key)
    ensures AllDigits(r.key) && DigitsValue(r.key) == orgId.value
  {
    Build(Organisations, OrganisationIdCanonical(orgId))
  }

  /** `organisation_vat`: keyed by the VAT id as it is stored. */
  function OrganisationVat(vat: VatId): (r: KeyId)
    ensures r.key == vat.id && StripPrefix(r.id, OrganisationVatIds + "/") == Some(r.key)
  {
    Build(OrganisationVatIds, VatIdCanonical(vat))
  }

  /** `organisation_wiki`: keyed by the decimal Wikidata id. */
  function OrganisationWiki(wiki: WikiId): (r: KeyId)
    ensures r.key == WikiIdCanonical(wiki) && StripPrefix(r.id, OrganisationWikiIds + "/") == Some(r.key)
    ensures AllDigits(r.key) && DigitsValue(r.key) == wiki.value
  {
    Build(OrganisationWikiIds, WikiIdCanonical(wiki))
  }

  /** `organisation_www`: keyed by the domain, verbatim. */
  function OrganisationWww(domain: string): (r: KeyId)
    ensures r.key == domain && StripPrefix(r.id, OrganisationWwws + "/") == Some(r.key)
  {
    Build(OrganisationWwws, domain)
  }

  /** `product`: keyed by the decimal product id. */
  function Product(prodId: ProductId): (r: KeyId)
    ensures r.key == ProductIdCanonical(prodId) && StripPrefix(r.id, Products + "/") == Some(r.key)
    ensures AllDigits(r.key) && DigitsValue(r.key) == prodId.value
  {
    Build(Products, ProductIdCanonical(prodId))
  }

  /** `product_ean`: keyed by the decimal EAN. */
  function ProductEan(ean: Ean): (r: KeyId)
    ensures r.key == EanCanonical(ean) && StripPrefix(r.id, ProductEans + "/") == Some(r.key)
  {
    Build(ProductEans, EanCanonical(ean))
  }

  /** `product_gtin`: keyed by the 14-digit zero-padded GTIN, which parses back to the GTIN. */
  function ProductGtin(gtin: Gtin): (r: KeyId)
    ensures r.key == GtinCanonical(gtin) && StripPrefix(r.id, ProductGtins + "/") == Some(r.key)
  {
    Build(ProductGtins, GtinCanonical(gtin))
  }

  /** A GTIN in range is keyed by 14 digits that parse back to it. */
  lemma ProductGtinKey(gtin: Gtin)
    requires gtin.value <= MAX_GTIN
    ensures |ProductGtin(gtin).key| == 14 && GtinTryFrom(ProductGtin(gtin).key) == Ok(gtin)
  {
    GtinRoundTrip(gtin);
  }

  /** `product_wiki`: keyed by the decimal Wikidata id. */
  function ProductWiki(wiki: WikiId): (r: KeyId)
    ensures r.key == WikiIdCanonical(wiki) && StripPrefix(r.id, ProductWikiIds + "/") == Some(r.key)
    ensures AllDigits(r.key) && DigitsValue(r.key) == wiki.value
  {
    Build(ProductWikiIds, WikiIdCanonical(wiki))
  }

  /** `category`: keyed by the category path, verbatim (a path may itself hold '/'). */
  function Category(category: string): (r: KeyId)
    ensures r.key == category
    ensures StripPrefix(r.id, Categories + "/") == Some(category)
  {
    Build(Categories, category)
  }

  /** Different organisations get different keys, and so do different GTINs in range. */
  lemma KeysAreInjective(o1: OrganisationId, o2: OrganisationId, g1: Gtin, g2: Gtin)
    ensures Organisation(o1).key == Organisation(o2).key ==> o1 == o2
    ensures g1.value <= MAX_GTIN && g2.value <= MAX_GTIN && ProductGtin(g1).key == ProductGtin(g2).key ==> g1 == g2
  {
    if g1.value <= MAX_GTIN && g2.value <= MAX_GTIN && ProductGtin(g1).key == ProductGtin(g2).key {
      ProductGtinKey(g1);
      ProductGtinKey(g2);
    }
  }
}
