/**
 * The condensing collector and the steps that turn what it gathered into
 * database collections: products and organisations by id, the links of
 * products to manufacturers, regions and categories (kept in both
 * directions), and the category and manufacturing edges written out.
 */
module CondensingCondensing {
  import opened Wrappers
  import opened Text
  import opened Ordering
  import MM = ModelsModels
  import D = CollectingData
  import K = CondensingKnowledge
  import LU = LabUtils
  import C = LabCrystalizing

  /** Categories with this many products or more are not written out. */
  const MAX_CATEGORY_PRODUCT_NUM: nat := 300_000

  /** `knowledge::IdEntry`. */
  datatype IdEntry = IdEntry(dbId: string)

  /** `knowledge::Edge`. */
  datatype Edge = Edge(source: string, target: string)

  /** The set stored under a key, or nothing. */
  function Members<K, V>(m: map<K, set<V>>, k: K): set<V> {
    if k in m then m[k] else {}
  }

  /** The category index after adding `product` to each category of `cats`. */
  function WithProduct<P>(m: map<string, set<P>>, cats: seq<string>, product: P): (r: map<string, set<P>>)
    ensures r.Keys == m.Keys + set c | c in cats
  {
    map c | c in m.Keys + (set c | c in cats) :: if c in cats then Members(m, c) + {product} else m[c]
  }

  /** Every category a product lists has the product, and every product a category lists has the category. */
  ghost predicate Consistent(productToCategories: map<D.ProductId, set<string>>, categoryToProducts: map<string, set<D.ProductId>>) {
    && (forall p, c :: p in productToCategories && c in productToCategories[p] ==>
          c in categoryToProducts && p in categoryToProducts[c])
    && (forall c, p :: c in categoryToProducts && p in categoryToProducts[c] ==>
          p in productToCategories && c in productToCategories[p])
  }

  /** Linking a product to categories in both indexes keeps them consistent. */
  lemma LinkKeepsConsistent(
    ptc: map<D.ProductId, set<string>>, ctp: map<string, set<D.ProductId>>,
    product: D.ProductId, cats: seq<string>)
    requires Consistent(ptc, ctp)
    ensures Consistent(ptc[product := Members(ptc, product) + set c | c in cats], WithProduct(ctp, cats, product))
  {
    var ptc', ctp' := ptc[product := Members(ptc, product) + set c | c in cats], WithProduct(ctp, cats, product);
    forall p, c | p in ptc' && c in ptc'[p] ensures c in ctp' && p in ctp'[c] {
      if p != product || c !in cats {
        assert c in ptc[p];
      }
    }
    forall c, p | c in ctp' && p in ctp'[c] ensures p in ptc' && c in ptc'[p] {
      if p != product || c !in cats {
        assert p in ctp[c];
      }
    }
  }

  /** Merging two consistent pairs of indexes, by uniting the sets key by key, gives a consistent pair. */
  lemma MergeKeepsConsistent(
    ptc1: map<D.ProductId, set<string>>, ctp1: map<string, set<D.ProductId>>,
    ptc2: map<D.ProductId, set<string>>, ctp2: map<string, set<D.ProductId>>)
    requires Consistent(ptc1, ctp1) && Consistent(ptc2, ctp2)
    ensures Consistent(LU.MergedWith(ptc1, ptc2, Union), LU.MergedWith(ctp1, ctp2, Union))
  {
    LU.MergedWithSpec(ptc1, ptc2, Union);
    LU.MergedWithSpec(ctp1, ctp2, Union);
  }

  function Union<T>(a: set<T>, b: set<T>): set<T> {
    a + b
  }

  function MergeProducts(a: K.Product, b: K.Product): K.Product {
    K.MergeProduct(a, b)
  }

  function MergeOrganisations(a: K.Organisation, b: K.Organisation): K.Organisation {
    K.MergeOrganisation(a, b)
  }

  function MergeRegions(a: MM.Regions, b: MM.Regions): MM.Regions {
    K.MergeRegions(a, b)
  }

  /** `CondensingCollector`. */
  class CondensingCollector {
    var products: map<D.ProductId, K.Product>
    var organisations: map<D.OrganisationId, K.Organisation>
    var productToOrganisations: map<D.ProductId, set<D.OrganisationId>>
    var productToRegions: map<D.ProductId, MM.Regions>
    var productToCategories: map<D.ProductId, set<string>>
    var categoryToProducts: map<string, set<D.ProductId>>

    /** The two category indexes agree. */
    ghost predicate Valid()
      reads this
    {
      Consistent(productToCategories, categoryToProducts)
    }

    /** The empty collector. */
    constructor ()
      ensures Valid()
      ensures products == map[] && organisations == map[] && productToOrganisations == map[]
      ensures productToRegions == map[] && productToCategories == map[] && categoryToProducts == map[]
    {
      products := map[];
      organisations := map[];
      productToOrganisations := map[];
      productToRegions := map[];
      productToCategories := map[];
      categoryToProducts := map[];
    }

    /** `add_product`: a new id is inserted, a known one merged into the stored product. */
    method AddProduct(id: D.ProductId, product: K.Product)
      modifies this
      ensures products == old(products)[id := if id in old(products) then K.MergeProduct(old(products)[id], product) else product]
      ensures organisations == old(organisations) && productToOrganisations == old(productToOrganisations)
      ensures productToRegions == old(productToRegions)
      ensures productToCategories == old(productToCategories) && categoryToProducts == old(categoryToProducts)
    {
      if id in products {
        products := products[id := K.MergeProduct(products[id], product)];
      } else {
        products := products[id := product];
      }
    }

    /** `add_organisation`: a new id is inserted, a known one merged into the stored organisation. */
    method AddOrganisation(id: D.OrganisationId, organisation: K.Organisation)
      modifies this
      ensures organisations == old(organisations)[id :=
        if id in old(organisations) then K.MergeOrganisation(old(organisations)[id], organisation) else organisation]
      ensures products == old(products) && productToOrganisations == old(productToOrganisations)
      ensures productToRegions == old(productToRegions)
      ensures productToCategories == old(productToCategories) && categoryToProducts == old(categoryToProducts)
    {
      if id in organisations {
        organisations := organisations[id := K.MergeOrganisation(organisations[id], organisation)];
      } else {
        organisations := organisations[id := organisation];
      }
    }

    /** `link_product_to_organisations`: the given manufacturers join the product's set. */
    method LinkProductToOrganisations(productId: D.ProductId, orgs: seq<D.OrganisationId>)
      modifies this
      ensures productToOrganisations == old(productToOrganisations)[productId :=
        Members(old(productToOrganisations), productId) + set o | o in orgs]
      ensures products == old(products) && organisations == old(organisations)
      ensures productToRegions == old(productToRegions)
      ensures productToCategories == old(productToCategories) && categoryToProducts == old(categoryToProducts)
    {
      productToOrganisations := productToOrganisations[productId :=
        Members(productToOrganisations, productId) + set o | o in orgs];
    }

    /**
     * `link_product_to_categories`: the product joins every listed category,
     * and every listed category joins the product's set.
     */
    method LinkProductToCategories(productId: D.ProductId, cats: seq<string>)
      requires Valid()
      modifies this
      ensures Valid()
      ensures categoryToProducts == WithProduct(old(categoryToProducts), cats, productId)
      ensures productToCategories == old(productToCategories)[productId :=
        Members(old(productToCategories), productId) + set c | c in cats]
      ensures products == old(products) && organisations == old(organisations)
      ensures productToOrganisations == old(productToOrganisations) && productToRegions == old(productToRegions)
    {
      ghost var ctp0 := categoryToProducts;
      var i := 0;
      while i < |cats|
        invariant 0 <= i <= |cats|
        invariant categoryToProducts == WithProduct(ctp0, cats[..i], productId)
        invariant productToCategories == old(productToCategories)
        invariant products == old(products) && organisations == old(organisations)
        invariant productToOrganisations == old(productToOrganisations) && productToRegions == old(productToRegions)
      {
        var c := cats[i];
        categoryToProducts := categoryToProducts[c := Members(categoryToProducts, c) + {productId}];
        WithProductStep(ctp0, cats, i, productId);
        i := i + 1;
      }
      assert cats[..i] == cats;
      productToCategories := productToCategories[productId :=
        Members(productToCategories, productId) + set c | c in cats];
      LinkKeepsConsistent(old(productToCategories), ctp0, productId, cats);
    }

    /** `link_product_to_sell_regions`: the regions replace any earlier ones. */
    method LinkProductToSellRegions(productId: D.ProductId, regions: MM.Regions)
      modifies this
      ensures productToRegions == old(productToRegions)[productId := regions]
      ensures products == old(products) && organisations == old(organisations)
      ensures productToOrganisations == old(productToOrganisations)
      ensures productToCategories == old(productToCategories) && categoryToProducts == old(categoryToProducts)
    {
      productToRegions := productToRegions[productId := regions];
    }

    /**
     * `Merge for CondensingCollector`: products and organisations merged by
     * id, the link sets united, the regions merged.
     */
    method Merge(other: CondensingCollector)
      requires other != this
      requires Valid() && other.Valid()
      modifies this
      ensures Valid()
      ensures products == LU.MergedWith(old(products), other.products, MergeProducts)
      ensures organisations == LU.MergedWith(old(organisations), other.organisations, MergeOrganisations)
      ensures productToOrganisations == LU.MergedWith(old(productToOrganisations), other.productToOrganisations, Union)
      ensures productToRegions == LU.MergedWith(old(productToRegions), other.productToRegions, MergeRegions)
      ensures productToCategories == LU.MergedWith(old(productToCategories), other.productToCategories, Union)
      ensures categoryToProducts == LU.MergedWith(old(categoryToProducts), other.categoryToProducts, Union)
    {
      var ps := LU.MergeHashmapsWith(products, other.products, MergeProducts);
      var os := LU.MergeHashmapsWith(organisations, other.organisations, MergeOrganisations);
      var pto := LU.MergeHashmapsWith(productToOrganisations, other.productToOrganisations, Union);
      var ptr := LU.MergeHashmapsWith(productToRegions, other.productToRegions, MergeRegions);
      var ptc := LU.MergeHashmapsWith(productToCategories, other.productToCategories, Union);
      var ctp := LU.MergeHashmapsWith(categoryToProducts, other.categoryToProducts, Union);
      MergeKeepsConsistent(productToCategories, categoryToProducts, other.productToCategories, other.categoryToProducts);
      products, organisations, productToOrganisations := ps, os, pto;
      productToRegions, productToCategories, categoryToProducts := ptr, ptc, ctp;
    }
  }

  /** One more category of the list added to the index. */
  lemma WithProductStep<P>(m: map<string, set<P>>, cats: seq<string>, i: nat, product: P)
    requires i < |cats|
    ensures var prev := WithProduct(m, cats[..i], product);
      WithProduct(m, cats[..i + 1], product) == prev[cats[i] := Members(prev, cats[i]) + {product}]
  {
    assert cats[..i + 1] == cats[..i] + [cats[i]];
  }

  // ---------------------------------------------------------------------
  // Open Food Facts categories

  /** A food group tag named in English: `en:` and at least one more character. */
  predicate IsEnglishTag(tag: string) {
    |tag| > 3 && StartsWith(tag, "en:")
  }

  /** The English tags with their `en:` prefix removed, in order. */
  function OffCategories(tags: seq<string>): seq<string>
    decreases |tags|
  {
    if tags == [] then []
    else
      var last := tags[|tags| - 1];
      OffCategories(tags[..|tags| - 1]) + (if IsEnglishTag(last) then [last[3..]] else [])
  }

  /** `extract_open_food_facts_categories`: the English entries of the comma-separated food groups. */
  method ExtractOpenFoodFactsCategories(foodGroupsTags: string) returns (r: seq<string>)
    ensures r == OffCategories(Split(foodGroupsTags, ','))
  {
    var tags := Split(foodGroupsTags, ',');
    r := [];
    var i := 0;
    while i < |tags|
      invariant 0 <= i <= |tags|
      invariant r == OffCategories(tags[..i])
    {
      assert tags[..i + 1][..i] == tags[..i];
      var tag := tags[i];
      if |tag| > 3 && StartsWith(tag, "en:") {
        r := r + [tag[3..]];
      }
      i := i + 1;
    }
    assert tags[..i] == tags;
  }

  /** A category is extracted exactly when some English tag names it. */
  lemma {:induction false} OffCategoriesSpec(tags: seq<string>, x: string)
    ensures x in OffCategories(tags) <==> exists t :: t in tags && IsEnglishTag(t) && x == t[3..]
    decreases |tags|
  {
    if tags != [] {
      var init := tags[..|tags| - 1];
      var last := tags[|tags| - 1];
      OffCategoriesSpec(init, x);
      assert tags == init + [last];
      if exists t :: t in tags && IsEnglishTag(t) && x == t[3..] {
        var t :| t in tags && IsEnglishTag(t) && x == t[3..];
        if t != last {
          assert t in init;
        }
      }
    }
  }

  /** The categories read from a food group list are non-empty and hold no comma. */
  lemma OffCategoriesShape(foodGroupsTags: string, x: string)
    requires x in OffCategories(Split(foodGroupsTags, ','))
    ensures x != [] && ',' !in x
  {
    var tags := Split(foodGroupsTags, ',');
    OffCategoriesSpec(tags, x);
    var t :| t in tags && IsEnglishTag(t) && x == t[3..];
    assert forall c :: c in x ==> c in t;
  }

  // ---------------------------------------------------------------------
  // Keywords

  /** The lowercased words of one text entry. */
  function EntryKeywords(t: K.TextEntry): set<string> {
    C.TextKeywords(t.text)
  }

  /** The union of `f` over the elements, in order. */
  function UnionMap<T>(xs: seq<T>, f: T -> set<string>): set<string>
    decreases |xs|
  {
    if xs == [] then {} else UnionMap(xs[..|xs| - 1], f) + f(xs[|xs| - 1])
  }

  lemma {:induction false} UnionMapSpec<T>(xs: seq<T>, f: T -> set<string>, k: string)
    ensures k in UnionMap(xs, f) <==> exists i :: 0 <= i < |xs| && k in f(xs[i])
    decreases |xs|
  {
    if xs != [] {
      var init := xs[..|xs| - 1];
      UnionMapSpec(init, f, k);
      if exists i :: 0 <= i < |xs| && k in f(xs[i]) {
        var i :| 0 <= i < |xs| && k in f(xs[i]);
        if i < |init| {
          assert init[i] == xs[i];
        }
      }
      if exists i :: 0 <= i < |init| && k in f(init[i]) {
        var i :| 0 <= i < |init| && k in f(init[i]);
        assert xs[i] == init[i];
      }
    }
  }

  /** The lowercased words of every text. */
  function TextsKeywords(texts: seq<K.TextEntry>): set<string> {
    UnionMap(texts, EntryKeywords)
  }

  /** `extract_keywords`: every word of every text, lowercased, without the empty word. */
  method ExtractKeywords(texts: seq<K.TextEntry>) returns (r: set<string>)
    ensures r == TextsKeywords(texts) - {""}
  {
    r := {};
    var i := 0;
    while i < |texts|
      invariant 0 <= i <= |texts|
      invariant r == UnionMap(texts[..i], EntryKeywords)
    {
      assert texts[..i + 1][..i] == texts[..i];
      r := C.AddLowerWords(r, Words(texts[i].text));
      i := i + 1;
    }
    assert texts[..i] == texts;
    r := r - {""};
  }

  /** A keyword comes from some text: it is one of that text's words, lowercased. */
  lemma TextsKeywordsSpec(texts: seq<K.TextEntry>, k: string)
    ensures k in TextsKeywords(texts) <==> exists i :: 0 <= i < |texts| && k in C.TextKeywords(texts[i].text)
  {
    UnionMapSpec(texts, EntryKeywords, k);
  }

  /**
   * The keywords are lowercase, non-empty and free of whitespace, so removing
   * the empty word leaves all of them.
   */
  lemma KeywordsShape(texts: seq<K.TextEntry>, k: string)
    requires k in TextsKeywords(texts)
    ensures k != "" && IsLower(k)
    ensures forall j :: 0 <= j < |k| ==> !IsWhitespace(k[j])
  {
    TextsKeywordsSpec(texts, k);
    var i :| 0 <= i < |texts| && k in C.TextKeywords(texts[i].text);
    C.WordKeywordShape(Words(texts[i].text), k);
  }

  // ---------------------------------------------------------------------
  // Categories and manufacturing edges

  /** The database id of a category vertex. */
  function CategoryDbId(category: string): (r: string)
    ensures |r| == |category| + 11 && r[..11] == "categories/" && r[11..] == category
  {
    "categories/" + category
  }

  ghost predicate Injective<A(!new), B>(f: A -> B) {
    forall x, y :: f(x) == f(y) ==> x == y
  }

  /** The i-th edge is the edge of the i-th pair: one edge per pair, in order. */
  ghost predicate Emitted<A, B>(edges: seq<Edge>, pairs: seq<(A, B)>, edge: (A, B) -> Edge) {
    |edges| == |pairs| && forall i :: 0 <= i < |pairs| ==> edges[i] == edge(pairs[i].0, pairs[i].1)
  }

  /** Distinct pairs give distinct edges when no two pairs share an edge. */
  lemma EmittedDistinct<A, B>(edges: seq<Edge>, pairs: seq<(A, B)>, edge: (A, B) -> Edge)
    requires Emitted(edges, pairs, edge) && Distinct(pairs)
    requires forall a1, b1, a2, b2 :: edge(a1, b1) == edge(a2, b2) ==> a1 == a2 && b1 == b2
    ensures Distinct(edges)
  {
    forall i, j | 0 <= i < j < |edges| ensures edges[i] != edges[j] {
      assert pairs[i] != pairs[j];
    }
  }

  /** Emits one edge from `a` for each element of `bs`, recording the pairs. */
  method FanOut<A, B>(a: A, bs: set<B>, edge: (A, B) -> Edge, edges: seq<Edge>, ghost pairs: seq<(A, B)>)
    returns (edges': seq<Edge>, ghost pairs': seq<(A, B)>)
    requires Emitted(edges, pairs, edge) && Distinct(pairs)
    requires forall x :: x in pairs ==> x.0 != a
    ensures Emitted(edges', pairs', edge) && Distinct(pairs')
    ensures forall x :: x in pairs' <==> x in pairs || (x.0 == a && x.1 in bs)
  {
    edges', pairs' := edges, pairs;
    var todo := bs;
    while todo != {}
      invariant todo <= bs
      invariant Emitted(edges', pairs', edge) && Distinct(pairs')
      invariant forall x :: x in pairs' <==> x in pairs || (x.0 == a && x.1 in bs - todo)
      decreases todo
    {
      var b :| b in todo;
      assert (a, b) !in pairs';
      edges' := edges' + [edge(a, b)];
      pairs' := pairs' + [(a, b)];
      todo := todo - {b};
    }
  }

  /** The category is written out: it has fewer products than the limit. */
  predicate Kept(ctp: map<string, set<D.ProductId>>, c: string) {
    c in ctp && |ctp[c]| < MAX_CATEGORY_PRODUCT_NUM
  }

  /**
   * `prepare_categories`: a vertex for every category with fewer than
   * `MAX_CATEGORY_PRODUCT_NUM` products, and an edge from it to each of its
   * products; larger categories give neither vertex nor edges.
   */
  method PrepareCategories(collector: CondensingCollector, productDbId: D.ProductId -> string)
    returns (categories: seq<IdEntry>, edges: seq<Edge>, ghost kept: seq<string>, ghost pairs: seq<(string, D.ProductId)>)
    ensures Distinct(kept) && forall c :: c in kept <==> Kept(collector.categoryToProducts, c)
    ensures |categories| == |kept| && forall i :: 0 <= i < |kept| ==> categories[i] == IdEntry(CategoryDbId(kept[i]))
    ensures Distinct(categories)
    ensures Distinct(pairs)
    ensures forall x :: x in pairs <==> Kept(collector.categoryToProducts, x.0) && x.1 in collector.categoryToProducts[x.0]
    ensures Emitted(edges, pairs, (c, p) => Edge(CategoryDbId(c), productDbId(p)))
    ensures Injective(productDbId) ==> Distinct(edges)
  {
    var ctp := collector.categoryToProducts;
    var edge := (c, p) => Edge(CategoryDbId(c), productDbId(p));
    categories, edges, kept, pairs := [], [], [], [];
    var todo := ctp.Keys;
    while todo != {}
      invariant todo <= ctp.Keys
      invariant Distinct(kept) && forall c :: c in kept <==> c !in todo && Kept(ctp, c)
      invariant |categories| == |kept| && forall i :: 0 <= i < |kept| ==> categories[i] == IdEntry(CategoryDbId(kept[i]))
      invariant Emitted(edges, pairs, edge) && Distinct(pairs)
      invariant forall x :: x in pairs <==> x.0 !in todo && Kept(ctp, x.0) && x.1 in ctp[x.0]
      decreases todo
    {
      var c :| c in todo;
      if |ctp[c]| < MAX_CATEGORY_PRODUCT_NUM {
        categories := categories + [IdEntry(CategoryDbId(c))];
        kept := kept + [c];
        edges, pairs := FanOut(c, ctp[c], edge, edges, pairs);
      }
      todo := todo - {c};
    }
    forall i, j | 0 <= i < j < |categories| ensures categories[i] != categories[j] {
      assert kept[i] != kept[j];
    }
    if Injective(productDbId) {
      EmittedDistinct(edges, pairs, edge);
    }
  }

  /**
   * `prepare_manufacturing`: exactly one edge from the manufacturer to the
   * product for every linked (product, manufacturer) pair.
   */
  method PrepareManufacturing(collector: CondensingCollector,
                              productDbId: D.ProductId -> string, organisationDbId: D.OrganisationId -> string)
    returns (edges: seq<Edge>, ghost pairs: seq<(D.ProductId, D.OrganisationId)>)
    ensures Distinct(pairs)
    ensures forall x :: x in pairs <==> x.0 in collector.productToOrganisations && x.1 in collector.productToOrganisations[x.0]
    ensures Emitted(edges, pairs, (p, o) => Edge(organisationDbId(o), productDbId(p)))
    ensures Injective(productDbId) && Injective(organisationDbId) ==> Distinct(edges)
  {
    var pto := collector.productToOrganisations;
    var edge := (p, o) => Edge(organisationDbId(o), productDbId(p));
    edges, pairs := [], [];
    var todo := pto.Keys;
    while todo != {}
      invariant todo <= pto.Keys
      invariant Emitted(edges, pairs, edge) && Distinct(pairs)
      invariant forall x :: x in pairs <==> x.0 in pto && x.0 !in todo && x.1 in pto[x.0]
      decreases todo
    {
      var p :| p in todo;
      edges, pairs := FanOut(p, pto[p], edge, edges, pairs);
      todo := todo - {p};
    }
    if Injective(productDbId) && Injective(organisationDbId) {
      EmittedDistinct(edges, pairs, edge);
    }
  }
}
