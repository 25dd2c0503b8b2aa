/**
 * The backend's search results: an organisation or a product read from the
 * database, and its conversion into the link the API returns, which names
 * the entity by the most telling id it has.
 */
module BackendModels {
  import opened Wrappers
  import opened Text
  import I = ModelsIds

  /** The ids the store keeps for an organisation, in their stored order (sources left out). */
  datatype OrganisationIds = OrganisationIds(wiki: seq<I.WikiId>, vatIds: seq<I.VatId>, domains: seq<string>)

  /** The ids the store keeps for a product, in their stored order (sources left out). */
  datatype ProductIds = ProductIds(eans: seq<I.Ean>, gtins: seq<I.Gtin>, wiki: seq<I.WikiId>)

  /** A stored organisation, as far as search results read it: ids and name texts. */
  datatype Organisation = Organisation(ids: OrganisationIds, names: seq<string>)

  /** A stored product, as far as search results read it: ids and name texts. */
  datatype Product = Product(ids: ProductIds, names: seq<string>)

  datatype OrganisationIdVariant = Vat | Wiki | Www

  datatype ProductIdVariant = Gtin | Ean | Wiki

  /** `api::TextSearchLink`. */
  datatype TextSearchLink =
    | ProductLink(id: string, productIdVariant: ProductIdVariant)
    | OrganisationLink(id: string, organisationIdVariant: OrganisationIdVariant)

  /** `api::TextSearchLinkHack`: the link flattened into one record with two optional variants. */
  datatype TextSearchLinkHack = TextSearchLinkHack(
    id: string,
    productIdVariant: Option<ProductIdVariant>,
    organisationIdVariant: Option<OrganisationIdVariant>)

  /** `api::TextSearchResult`: the link and, as `text`, its label. */
  datatype TextSearchResult = TextSearchResult(link: TextSearchLinkHack, text: string)

  /** `SearchResultId`: the database id, tagged with the kind of entity. */
  datatype SearchResultId = OrganisationResult(dbId: string) | ProductResult(dbId: string)

  datatype OrganisationSearchResult = OrganisationSearchResult(id: string, ids: OrganisationIds, name: Option<string>)

  datatype ProductSearchResult = ProductSearchResult(id: string, ids: ProductIds, name: Option<string>)

  // ---------------------------------------------------------------------
  // Links

  /** `hack`: exactly one of the two variants is set, the one of the link's kind. */
  function Hack(link: TextSearchLink): (r: TextSearchLinkHack)
    ensures r.id == link.id
    ensures r.productIdVariant.Some? != r.organisationIdVariant.Some?
    ensures link.ProductLink? ==> r.productIdVariant == Some(link.productIdVariant)
    ensures link.OrganisationLink? ==> r.organisationIdVariant == Some(link.organisationIdVariant)
  {
    match link
    case ProductLink(id, variant) => TextSearchLinkHack(id, Some(variant), None)
    case OrganisationLink(id, variant) => TextSearchLinkHack(id, None, Some(variant))
  }

  /** Reads a flattened link back; records with none or both variants set are not links. */
  function Unhack(hack: TextSearchLinkHack): Option<TextSearchLink> {
    match (hack.productIdVariant, hack.organisationIdVariant)
    case (Some(p), None) => Some(ProductLink(hack.id, p))
    case (None, Some(o)) => Some(OrganisationLink(hack.id, o))
    case _ => None
  }

  /** Flattening loses nothing: every link reads back, and every readable record is a flattened link. */
  lemma HackRoundTrip(link: TextSearchLink, hack: TextSearchLinkHack)
    ensures Unhack(Hack(link)) == Some(link)
    ensures Unhack(hack).Some? ==> Hack(Unhack(hack).value) == hack
  {
  }

  // ---------------------------------------------------------------------
  // Results read from the database

  function FirstName(names: seq<string>): (r: Option<string>)
    ensures r.Some? <==> names != []
    ensures r.Some? ==> r.value == names[0]
  {
    if names == [] then None else Some(names[0])
  }

  /** `OrganisationSearchResult::from_db`. */
  function OrganisationFromDb(id: I.OrganisationId, organisation: Organisation): OrganisationSearchResult {
    OrganisationSearchResult(I.OrganisationIdCanonical(id), organisation.ids, FirstName(organisation.names))
  }

  /** `ProductSearchResult::from_db`. */
  function ProductFromDb(id: I.ProductId, product: Product): ProductSearchResult {
    ProductSearchResult(I.ProductIdCanonical(id), product.ids, FirstName(product.names))
  }

  /** The label of a result: the name's text, or empty without a name. */
  function Label(name: Option<string>): string {
    match name
    case Some(text) => text
    case None => ""
  }

  // ---------------------------------------------------------------------
  // Conversion

  /** The variant and id an organisation is linked by: VAT first, then Wikidata, then domain. */
  function OrganisationLinkId(ids: OrganisationIds): (r: Option<(OrganisationIdVariant, string)>)
    ensures r.None? <==> ids.vatIds == [] && ids.wiki == [] && ids.domains == []
    ensures r.Some? && r.value.0.Vat? <==> ids.vatIds != []
    ensures r.Some? && r.value.0.Wiki? <==> ids.vatIds == [] && ids.wiki != []
    ensures r.Some? && r.value.0.Www? <==> ids.vatIds == [] && ids.wiki == [] && ids.domains != []
    ensures r.Some? && r.value.0.Vat? ==> r.value.1 == I.VatIdCanonical(ids.vatIds[0])
    ensures r.Some? && r.value.0.Wiki? ==> r.value.1 == I.WikiIdCanonical(ids.wiki[0])
    ensures r.Some? && r.value.0.Www? ==> r.value.1 == ids.domains[0]
  {
    if ids.vatIds != [] then Some((Vat, I.VatIdCanonical(ids.vatIds[0])))
    else if ids.wiki != [] then Some((OrganisationIdVariant.Wiki, I.WikiIdCanonical(ids.wiki[0])))
    else if ids.domains != [] then Some((Www, ids.domains[0]))
    else None
  }

  /** The variant and id a product is linked by: GTIN first, then EAN, then Wikidata. */
  function ProductLinkId(ids: ProductIds): (r: Option<(ProductIdVariant, string)>)
    ensures r.None? <==> ids.gtins == [] && ids.eans == [] && ids.wiki == []
    ensures r.Some? && r.value.0.Gtin? <==> ids.gtins != []
    ensures r.Some? && r.value.0.Ean? <==> ids.gtins == [] && ids.eans != []
    ensures r.Some? && r.value.0.Wiki? <==> ids.gtins == [] && ids.eans == [] && ids.wiki != []
    ensures r.Some? && r.value.0.Gtin? ==> r.value.1 == I.GtinCanonical(ids.gtins[0])
    ensures r.Some? && r.value.0.Ean? ==> r.value.1 == I.EanCanonical(ids.eans[0])
    ensures r.Some? && r.value.0.Wiki? ==> r.value.1 == I.WikiIdCanonical(ids.wiki[0])
  {
    if ids.gtins != [] then Some((Gtin, I.GtinCanonical(ids.gtins[0])))
    else if ids.eans != [] then Some((Ean, I.EanCanonical(ids.eans[0])))
    else if ids.wiki != [] then Some((ProductIdVariant.Wiki, I.WikiIdCanonical(ids.wiki[0])))
    else None
  }

  /** `OrganisationSearchResult::convert`. */
  function ConvertOrganisation(result: OrganisationSearchResult): (r: Option<(SearchResultId, TextSearchResult)>)
    ensures r.None? <==> OrganisationLinkId(result.ids).None?
    ensures r.Some? ==> r.value.0 == OrganisationResult(result.id)
    ensures r.Some? ==>
      Unhack(r.value.1.link) == Some(OrganisationLink(OrganisationLinkId(result.ids).value.1, OrganisationLinkId(result.ids).value.0))
    ensures r.Some? ==> r.value.1.text == Label(result.name)
  {
    match OrganisationLinkId(result.ids)
    case None => None
    case Some((variant, id)) =>
      Some((OrganisationResult(result.id),
            TextSearchResult(Hack(OrganisationLink(id, variant)), Label(result.name))))
  }

  /** `ProductSearchResult::convert`. */
  function ConvertProduct(result: ProductSearchResult): (r: Option<(SearchResultId, TextSearchResult)>)
    ensures r.None? <==> ProductLinkId(result.ids).None?
    ensures r.Some? ==> r.value.0 == ProductResult(result.id)
    ensures r.Some? ==>
      Unhack(r.value.1.link) == Some(ProductLink(ProductLinkId(result.ids).value.1, ProductLinkId(result.ids).value.0))
    ensures r.Some? ==> r.value.1.text == Label(result.name)
  {
    match ProductLinkId(result.ids)
    case None => None
    case Some((variant, id)) =>
      Some((ProductResult(result.id),
            TextSearchResult(Hack(ProductLink(id, variant)), Label(result.name))))
  }

  /**
   * An organisation read from the database converts exactly when it has a
   * VAT number, a Wikidata id or a domain; its result carries the decimal
   * database id, reads back as that number, and is labelled by the first
   * name, or by nothing when it has none.
   */
  lemma OrganisationFromDbConverts(id: I.OrganisationId, organisation: Organisation)
    requires id.value <= I.U32_MAX
    ensures var r := ConvertOrganisation(OrganisationFromDb(id, organisation));
      && (r.None? <==> organisation.ids.vatIds == [] && organisation.ids.wiki == [] && organisation.ids.domains == [])
      && (r.Some? ==> r.value.0.OrganisationResult? && ParseU64(r.value.0.dbId) == Ok(id.value))
      && (r.Some? ==> (r.value.1.text == "" <==> organisation.names == [] || organisation.names[0] == ""))
      && (r.Some? && organisation.names != [] ==> r.value.1.text == organisation.names[0])
  {
    I.OrganisationIdCanonicalDecimal(id);
  }

  /**
   * A product read from the database converts exactly when it has a GTIN,
   * an EAN or a Wikidata id; its result carries the decimal database id,
   * reads back as that number, and is labelled by the first name.
   */
  lemma ProductFromDbConverts(id: I.ProductId, product: Product)
    requires id.value <= I.U32_MAX
    ensures var r := ConvertProduct(ProductFromDb(id, product));
      && (r.None? <==> product.ids.gtins == [] && product.ids.eans == [] && product.ids.wiki == [])
      && (r.Some? ==> r.value.0.ProductResult? && ParseU64(r.value.0.dbId) == Ok(id.value))
      && (r.Some? ==> (r.value.1.text == "" <==> product.names == [] || product.names[0] == ""))
      && (r.Some? && product.names != [] ==> r.value.1.text == product.names[0])
  {
    I.ProductIdCanonicalDecimal(id);
  }
}
