/**
 * The analysis of the Wikidata dump: the worker collects the classes the
 * Wikidata advisor knows and the classes of every manufactured item; the
 * stash merges what the workers collected, counts for each class outside
 * the category list how many products belong to it, and prints the
 * frequent ones that are not ignored, least frequent first.
 */
module LabAnalysis {
  import opened Wrappers
  import opened ModelsIds
  import opened Ordering
  import W = LabWikidata

  /** The ids of the classes never printed (`IGNORED_CLASSES`, 245 of them). */
  const IGNORED_CLASSES: set<nat> := {
    1002954, 100349043, 100709275, 100710213, 10316200, 104843, 1049158, 1051067, 105999, 106179098,
    1069313, 1078334, 10915943, 10929058, 109697418, 11012, 110944598, 11173, 1121471, 11229656,
    1130697, 11436, 1144661, 11446, 11479409, 1153376, 115722011, 1184840, 11997320, 1201871,
    120319, 121117, 12140, 1229765, 124072, 1245737, 1261534, 12757, 127771, 12859788,
    12876, 1303735, 13266730, 13267846, 13402959, 1361551, 1361980, 13622547, 1384417, 1410980,
    1420024, 143872, 1445518, 148578, 14928, 14970, 14978, 149918, 1499623, 1504307,
    15056993, 15056995, 15057020, 15057021, 15061018, 15126161, 15142889, 15142894, 15247, 15254,
    15262, 15276, 1549739, 15623405, 1567915, 15729598, 15888, 15893266, 161705, 1617851,
    16220775, 162986, 167270, 169336, 16936947, 170013, 170382, 170877, 171043, 17205,
    17210, 174174, 174736, 1752434, 177456, 178193, 178550, 180173, 182531, 184296,
    18433590, 18491037, 18491097, 1872522, 190570, 1917626, 191826, 19292005, 19362195, 19716577,
    197, 19832486, 19842071, 201783, 202527, 204577, 2055880, 20650761, 20741022, 207452,
    207977, 208187, 210932, 2125613, 214196, 21505397, 216916, 22704163, 2291248, 22999537,
    23039057, 2312440, 2389789, 2424752, 24294815, 243249, 253555, 25653, 2607934, 26251835,
    26529, 26540, 2735392, 2811, 281460, 282472, 2875704, 28885102, 29048322, 3041792,
    3119075, 324233, 331795, 335225, 3389302, 3407658, 34336, 34486, 353699, 3609612,
    376055, 391022, 39495, 3959904, 39804, 402092, 40280158, 4102249, 41207, 41426,
    4167410, 42319471, 428661, 431289, 4407246, 44167, 44740228, 45296117, 466421, 466704,
    473932, 4809, 4818021, 4830453, 483373, 486396, 502048, 509222, 511450, 55725952,
    559026, 5638, 5810820, 593485, 59773381, 610398, 617792, 625151, 630010, 640078,
    643532, 649062, 654051, 654749, 660668, 673687, 68072093, 683570, 69129709, 697175,
    697196, 7132141, 7325635, 744620, 751705, 752392, 752783, 753224, 753779, 757587,
    778129, 785745, 80831, 811701, 811704, 8142, 815423, 830335, 847109, 847478,
    852190, 854585, 854845, 860861, 875583, 875600, 892492, 898771, 90834785, 920182,
    928235, 946596, 95945728, 972011, 973740
  }

  /** A class is printed only when more products than this belong to it. */
  const PRINT_THRESHOLD: nat := 50

  /** A product: the classes it belongs to. */
  datatype Product = Product(classes: set<WikiId>)

  /** A class: its id, its English label and the number of products in it. */
  datatype Class = Class(id: WikiId, name: string, amount: nat)

  /** `clone_with_amount`: the same class with another amount. */
  function CloneWithAmount(c: Class, amount: nat): (r: Class)
    ensures r.id == c.id && r.name == c.name && r.amount == amount
  {
    c.(amount := amount)
  }

  // ---------------------------------------------------------------------
  // Collecting

  /** `AnalysisCollector`: the products and the classes found, in arrival order. */
  class AnalysisCollector {
    var products: seq<Product>
    var classes: seq<Class>

    constructor ()
      ensures products == [] && classes == []
    {
      products := [];
      classes := [];
    }

    /** `add_product`. */
    method AddProduct(product: Product)
      modifies this
      ensures products == old(products) + [product] && classes == old(classes)
    {
      products := products + [product];
    }

    /** `add_class`. */
    method AddClass(c: Class)
      modifies this
      ensures classes == old(classes) + [c] && products == old(products)
    {
      classes := classes + [c];
    }

    /** `merge`: the other collector's products and classes appended. */
    method Merge(other: AnalysisCollector)
      requires other != this
      modifies this
      ensures products == old(products) + other.products
      ensures classes == old(classes) + other.classes
    {
      products := products + other.products;
      classes := classes + other.classes;
    }
  }

  /** The ids of an optional list of entity ids. */
  function IdSet(ids: Option<seq<nat>>): (r: set<WikiId>)
    ensures forall id :: id in r <==> ids.Some? && id.value in ids.value
  {
    if ids.None? then {} else set i | i in ids.value :: WikiId(i)
  }

  /** What `get_classes` yields: the superclasses and the classes, or the first error. */
  function ItemClasses(item: W.Item, toNumId: string -> Option<nat>): Result<set<WikiId>, string> {
    match W.Superclasses(item, toNumId)
    case Err(e) => Err(e)
    case Ok(superclasses) =>
      match W.Classes(item, toNumId)
      case Err(e) => Err(e)
      case Ok(classes) => Ok(IdSet(superclasses) + IdSet(classes))
  }

  /** The classes are exactly the ids listed as superclasses or classes. */
  lemma ItemClassesSpec(item: W.Item, toNumId: string -> Option<nat>, id: WikiId)
    requires ItemClasses(item, toNumId).Ok?
    ensures id in ItemClasses(item, toNumId).value <==>
      (W.Superclasses(item, toNumId).value.Some? && id.value in W.Superclasses(item, toNumId).value.value)
      || (W.Classes(item, toNumId).value.Some? && id.value in W.Classes(item, toNumId).value.value)
  {
  }

  /** `get_classes`. */
  method GetClasses(item: W.Item, toNumId: string -> Option<nat>) returns (r: Result<set<WikiId>, string>)
    ensures r == ItemClasses(item, toNumId)
  {
    var superclasses := W.GetEntityIds(item, W.SUBCLASS_OF, toNumId);
    if superclasses.Err? {
      return Err(superclasses.error);
    }
    var classes := W.GetEntityIds(item, W.INSTANCE_OF, toNumId);
    if classes.Err? {
      return Err(classes.error);
    }
    return Ok(IdSet(superclasses.value) + IdSet(classes.value));
  }

  /** The product an item adds: only a manufactured item with some class, when its classes can be read. */
  function ProductOf(item: W.Item, toNumId: string -> Option<nat>): seq<Product> {
    if !W.HasManufacturer(item) then []
    else
      match ItemClasses(item, toNumId)
      case Err(_) => []
      case Ok(classes) => if classes == {} then [] else [Product(classes)]
  }

  /**
   * `AnalysisWorker`: collects into its own collector. `classIds` stands for
   * the ids the Wikidata advisor knows as classes.
   */
  class AnalysisWorker {
    const collector: AnalysisCollector
    const classIds: set<WikiId>

    constructor (classIds: set<WikiId>)
      ensures this.classIds == classIds
      ensures fresh(collector) && collector.products == [] && collector.classes == []
    {
      this.classIds := classIds;
      collector := new AnalysisCollector();
    }

    /**
     * `process`: an item with an English label is collected as a class when
     * it is one, and as a product when it is manufactured and has classes;
     * reading its classes may fail, after the class was collected.
     */
    method Process(entity: Option<W.Item>, toNumId: string -> Option<nat>) returns (r: Result<(), string>)
      modifies collector
      ensures entity.None? || W.GetLabel(entity.value, W.LANG_EN).None? ==>
        r == Ok(()) && collector.products == old(collector.products) && collector.classes == old(collector.classes)
      ensures entity.Some? && W.GetLabel(entity.value, W.LANG_EN).Some? ==>
        var item := entity.value;
        && collector.classes == old(collector.classes)
             + (if item.id in classIds then [Class(item.id, W.GetLabel(item, W.LANG_EN).value, 1)] else [])
        && collector.products == old(collector.products) + ProductOf(item, toNumId)
        && (r.Err? <==> W.HasManufacturer(item) && ItemClasses(item, toNumId).Err?)
    {
      if entity.None? {
        return Ok(());
      }
      var item := entity.value;
      var english := W.GetLabel(item, W.LANG_EN);
      if english.None? {
        return Ok(());
      }
      if item.id in classIds {
        collector.AddClass(Class(item.id, english.value, 1));
      }
      if W.HasManufacturer(item) {
        var classes := GetClasses(item, toNumId);
        if classes.Err? {
          return Err(classes.error);
        }
        if classes.value != {} {
          collector.AddProduct(Product(classes.value));
        }
      }
      return Ok(());
    }
  }

  // ---------------------------------------------------------------------
  // Counting

  /** The classes by id; of several with one id, the last. */
  function ClassMap(classes: seq<Class>): map<WikiId, Class>
    decreases |classes|
  {
    if classes == [] then map[]
    else
      var last := classes[|classes| - 1];
      ClassMap(classes[..|classes| - 1])[last.id := last]
  }

  /** Every collected id is a key, and holds a class of that id. */
  lemma {:induction false} ClassMapSpec(classes: seq<Class>, id: WikiId)
    ensures id in ClassMap(classes) <==> exists i :: 0 <= i < |classes| && classes[i].id == id
    ensures id in ClassMap(classes) ==> ClassMap(classes)[id].id == id && ClassMap(classes)[id] in classes
    decreases |classes|
  {
    if classes != [] {
      var init := classes[..|classes| - 1];
      ClassMapSpec(init, id);
      if id != classes[|classes| - 1].id {
        if exists i :: 0 <= i < |classes| && classes[i].id == id {
          var i :| 0 <= i < |classes| && classes[i].id == id;
          assert init[i] == classes[i];
        }
        if id in ClassMap(init) {
          assert ClassMap(init)[id] in init;
        }
      }
    }
  }

  /** How many of the products belong to the class. */
  function Listing(products: seq<Product>, id: WikiId): (r: nat)
    ensures r <= |products|
    decreases |products|
  {
    if products == [] then 0
    else
      var last := products[|products| - 1];
      Listing(products[..|products| - 1], id) + (if id in last.classes then 1 else 0)
  }

  /** A class counts when it was collected, is outside the category list, and some product belongs to it. */
  predicate Uncategorized(id: WikiId, classMap: map<WikiId, Class>, categories: set<WikiId>, count: nat) {
    id in classMap && id !in categories && count > 0
  }

  /**
   * The uncategorised classes after the products and, of the next product,
   * the classes in `done`: each with its amount set to that count.
   */
  function UncategorizedWith(products: seq<Product>, done: set<WikiId>, classMap: map<WikiId, Class>,
                             categories: set<WikiId>): map<WikiId, Class>
  {
    map id | id in classMap.Keys && Uncategorized(id, classMap, categories, Listing(products, id) + (if id in done then 1 else 0))
      :: CloneWithAmount(classMap[id], Listing(products, id) + (if id in done then 1 else 0))
  }

  /** The uncategorised classes of `finish`, each with the number of products belonging to it. */
  function UncategorizedClasses(products: seq<Product>, classMap: map<WikiId, Class>, categories: set<WikiId>)
    : map<WikiId, Class>
  {
    UncategorizedWith(products, {}, classMap, categories)
  }

  /** The amount of an uncategorised class is the number of products listing it. */
  lemma UncategorizedClassesSpec(products: seq<Product>, classMap: map<WikiId, Class>, categories: set<WikiId>, id: WikiId)
    ensures id in UncategorizedClasses(products, classMap, categories) <==>
      id in classMap && id !in categories && exists i :: 0 <= i < |products| && id in products[i].classes
    ensures id in UncategorizedClasses(products, classMap, categories) ==>
      UncategorizedClasses(products, classMap, categories)[id] == classMap[id].(amount := Listing(products, id))
  {
    ListingPositive(products, id);
  }

  /** Some product belongs to the class exactly when the count is positive. */
  lemma {:induction false} ListingPositive(products: seq<Product>, id: WikiId)
    ensures Listing(products, id) > 0 <==> exists i :: 0 <= i < |products| && id in products[i].classes
    decreases |products|
  {
    if products != [] {
      var init := products[..|products| - 1];
      ListingPositive(init, id);
      if exists i :: 0 <= i < |init| && id in init[i].classes {
        var i :| 0 <= i < |init| && id in init[i].classes;
        assert products[i] == init[i];
      }
      if exists i :: 0 <= i < |products| && id in products[i].classes {
        var i :| 0 <= i < |products| && id in products[i].classes;
        if i < |init| {
          assert init[i] == products[i];
        }
      }
    }
  }

  /** Counting one more class of the next product. */
  lemma CountOne(products: seq<Product>, done: set<WikiId>, id: WikiId, classMap: map<WikiId, Class>,
                 categories: set<WikiId>, u: map<WikiId, Class>, u': map<WikiId, Class>)
    requires id !in done
    requires u == UncategorizedWith(products, done, classMap, categories)
    requires u' == if id !in categories && id in classMap then
                     (if id in u then u[id := CloneWithAmount(u[id], u[id].amount + 1)]
                      else u[id := CloneWithAmount(classMap[id], 1)])
                   else u
    ensures u' == UncategorizedWith(products, done + {id}, classMap, categories)
  {
    var target := UncategorizedWith(products, done + {id}, classMap, categories);
    assert u'.Keys == target.Keys;
    forall k | k in target ensures u'[k] == target[k] {
    }
  }

  /** Counting the next product completes the count over one more product. */
  lemma CountProduct(products: seq<Product>, n: nat, classMap: map<WikiId, Class>, categories: set<WikiId>)
    requires n < |products|
    ensures UncategorizedWith(products[..n], products[n].classes, classMap, categories)
            == UncategorizedWith(products[..n + 1], {}, classMap, categories)
  {
    assert products[..n + 1][..n] == products[..n];
  }

  /** The counting loop of `finish`. */
  method CountUncategorized(products: seq<Product>, classMap: map<WikiId, Class>, categories: set<WikiId>)
    returns (u: map<WikiId, Class>)
    ensures u == UncategorizedClasses(products, classMap, categories)
  {
    u := map[];
    var i := 0;
    while i < |products|
      invariant 0 <= i <= |products|
      invariant u == UncategorizedWith(products[..i], {}, classMap, categories)
    {
      var todo := products[i].classes;
      ghost var done: set<WikiId> := {};
      while todo != {}
        invariant todo + done == products[i].classes && todo !! done
        invariant u == UncategorizedWith(products[..i], done, classMap, categories)
        decreases todo
      {
        var c :| c in todo;
        ghost var before := u;
        if c !in categories && c in classMap {
          if c in u {
            u := u[c := CloneWithAmount(u[c], u[c].amount + 1)];
          } else {
            u := u[c := CloneWithAmount(classMap[c], 1)];
          }
        }
        CountOne(products[..i], done, c, classMap, categories, before, u);
        todo := todo - {c};
        done := done + {c};
      }
      CountProduct(products, i, classMap, categories);
      i := i + 1;
    }
    assert products[..i] == products;
  }

  // ---------------------------------------------------------------------
  // Printing

  /** `sort_by` on the amount. */
  predicate AmountLess(a: Class, b: Class) {
    a.amount < b.amount
  }

  lemma AmountLessIsStrictWeakOrder()
    ensures IsStrictWeakOrder(AmountLess)
  {
  }

  /** A class worth printing: frequent and not ignored. */
  predicate Printable(c: Class) {
    c.amount > PRINT_THRESHOLD && c.id.value !in IGNORED_CLASSES
  }

  /** The printing loop: the printable classes, in the order given. */
  method SelectPrintable(sorted: seq<Class>) returns (printed: seq<Class>)
    requires Sorted(sorted, AmountLess)
    ensures forall c :: c in printed <==> c in sorted && Printable(c)
    ensures Sorted(printed, AmountLess)
  {
    printed := [];
    var i := 0;
    while i < |sorted|
      invariant 0 <= i <= |sorted|
      invariant forall c :: c in printed <==> c in sorted[..i] && Printable(c)
      invariant forall k :: 0 <= k < |printed| ==> exists j :: 0 <= j < i && printed[k] == sorted[j]
      invariant Sorted(printed, AmountLess)
    {
      assert sorted[..i + 1] == sorted[..i] + [sorted[i]];
      if Printable(sorted[i]) {
        forall k | 0 <= k < |printed| ensures !AmountLess(sorted[i], printed[k]) {
          var j :| 0 <= j < i && printed[k] == sorted[j];
        }
        printed := printed + [sorted[i]];
      }
      i := i + 1;
    }
    assert sorted[..i] == sorted;
  }

  /** `AnalysisStash`: merges the collectors of the workers. */
  class AnalysisStash {
    const collector: AnalysisCollector

    constructor ()
      ensures fresh(collector) && collector.products == [] && collector.classes == []
    {
      collector := new AnalysisCollector();
    }

    /** `stash`. */
    method Stash(input: AnalysisCollector)
      requires input != collector
      modifies collector
      ensures collector.products == old(collector.products) + input.products
      ensures collector.classes == old(collector.classes) + input.classes
    {
      collector.Merge(input);
    }

    /**
     * `finish`: the printed classes are exactly the printable uncategorised
     * ones, least frequent first; `categories` stands for the ids of the
     * category list, and `allCategorized` for the closing message.
     */
    method Finish(categories: set<WikiId>) returns (printed: seq<Class>, allCategorized: bool)
      ensures var u := UncategorizedClasses(collector.products, ClassMap(collector.classes), categories);
        forall c :: c in printed <==> c in u.Values && Printable(c)
      ensures Sorted(printed, AmountLess)
      ensures allCategorized <==> printed == []
    {
      var u := CountUncategorized(collector.products, ClassMap(collector.classes), categories);
      var values := Elements(u.Values);
      AmountLessIsStrictWeakOrder();
      SortSorted(values, AmountLess);
      var sorted := Sort(values, AmountLess);
      forall c ensures c in sorted <==> c in values {
        assert c in sorted <==> c in multiset(sorted);
        assert c in values <==> c in multiset(values);
      }
      printed := SelectPrintable(sorted);
      allCategorized := printed == [];
    }
  }
}
