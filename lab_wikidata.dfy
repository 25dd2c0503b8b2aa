/**
 * Wikidata items as the lab crate reads them: labels by language and claims
 * by property, each claim with a main snak that may carry an item id or a
 * string. The questions the lab asks of an item (its labels, whether it
 * relates to a class, its string values, whether it is an organisation or a
 * product) are answered here.
 */
module LabWikidata {
  import opened Wrappers
  import opened ModelsUtils
  import opened ModelsIds

  // ---------------------------------------------------------------------
  // Items

  datatype DataValue = ItemValue(id: string) | StringValue(text: string) | OtherValue

  datatype Snak = Value(datavalue: DataValue) | SomeValue | NoValue

  datatype Claim = Statement(mainsnak: Snak)

  datatype Label = Label(language: string, value: string)

  /**
   * An item: its id, its labels (in the order the label map yields them),
   * its aliases (of every language, one after another) and its claims by
   * property.
   */
  datatype Item = Item(id: WikiId, labels: seq<Label>, aliases: seq<Label>, claims: map<string, seq<Claim>>)

  const LANG_EN: string := "en"

  // Properties.
  const COUNTRY: string := "P17"
  const INSTANCE_OF: string := "P31"
  const MANUFACTURER: string := "P176"
  const SUBCLASS_OF: string := "P279"
  const OFFICIAL_WEBSITE: string := "P856"
  const PRODUCT_MATERIAL_OR_SERVICE: string := "P1056"
  const GTIN: string := "P3962"
  const EU_VAT_NUMBER: string := "P3608"

  /** `organisations::ALL`: the classes whose instances are organisations. */
  const ORGANISATION_CLASSES: set<nat> := {
    4830453, 891723, 431289, 507619, 3661311, 6881511, 4382945, 18043413,
    206361, 614084, 726870, 783794, 658255, 2549179, 216107, 1252971
  }

  // ---------------------------------------------------------------------
  // Labels

  /** `get_label`: the value of the label in `lang`, if there is one. */
  function GetLabel(item: Item, lang: string): (r: Option<string>)
    ensures r.Some? <==> exists l :: l in item.labels && l.language == lang
    ensures r.Some? ==> Label(lang, r.value) in item.labels
  {
    LabelIn(item.labels, lang)
  }

  function LabelIn(labels: seq<Label>, lang: string): (r: Option<string>)
    ensures r.Some? <==> exists l :: l in labels && l.language == lang
    ensures r.Some? ==> Label(lang, r.value) in labels
  {
    if labels == [] then None
    else if labels[0].language == lang then Some(labels[0].value)
    else
      var r := LabelIn(labels[1..], lang);
      assert forall l :: l in labels[1..] ==> l in labels;
      assert forall l :: l in labels && l != labels[0] ==> l in labels[1..];
      r
  }

  /** The values of the labels not in English, in order. */
  function OtherLabels(labels: seq<Label>): seq<string>
    decreases |labels|
  {
    if labels == [] then []
    else
      var last := labels[|labels| - 1];
      OtherLabels(labels[..|labels| - 1]) + (if last.language != LANG_EN then [last.value] else [])
  }

  /** What `get_labels` returns. */
  function Labels(item: Item): seq<string> {
    match GetLabel(item, LANG_EN)
    case Some(en) => [en]
    case None => OtherLabels(item.labels)
  }

  /** The other labels are exactly the values of non-English labels. */
  lemma {:induction false} OtherLabelsSpec(labels: seq<Label>)
    ensures forall v :: v in OtherLabels(labels) <==> exists l :: l in labels && l.language != LANG_EN && l.value == v
    ensures |OtherLabels(labels)| <= |labels|
    decreases |labels|
  {
    if labels != [] {
      var init := labels[..|labels| - 1];
      OtherLabelsSpec(init);
      assert labels == init + [labels[|labels| - 1]];
    }
  }

  /**
   * `get_labels` gives exactly the English label when there is one, and
   * otherwise the value of every label, all of them not English.
   */
  lemma LabelsSpec(item: Item)
    ensures (exists l :: l in item.labels && l.language == LANG_EN) ==>
      |Labels(item)| == 1 && Label(LANG_EN, Labels(item)[0]) in item.labels
    ensures (forall l :: l in item.labels ==> l.language != LANG_EN) ==>
      forall v :: v in Labels(item) <==> exists l :: l in item.labels && l.value == v
  {
    OtherLabelsSpec(item.labels);
  }

  /** `get_labels`: the English label, or else every other label in map order. */
  method GetLabels(item: Item) returns (labels: seq<string>)
    ensures labels == Labels(item)
  {
    var en := GetLabel(item, LANG_EN);
    if en.Some? {
      return [en.value];
    }
    labels := [];
    var i := 0;
    while i < |item.labels|
      invariant 0 <= i <= |item.labels|
      invariant labels == OtherLabels(item.labels[..i])
    {
      assert item.labels[..i + 1][..i] == item.labels[..i];
      if item.labels[i].language != LANG_EN {
        labels := labels + [item.labels[i].value];
      }
      i := i + 1;
    }
    assert item.labels[..i] == item.labels;
  }

  /** The label and alias values of an item. */
  function Names(item: Item): set<string> {
    (set l | l in item.labels :: l.value) + (set a | a in item.aliases :: a.value)
  }

  /** `get_all_labels_and_aliases`: collects every label value and every alias value. */
  method GetAllLabelsAndAliases(item: Item) returns (result: set<string>)
    ensures result == Names(item)
    ensures forall l :: l in item.labels ==> l.value in result
    ensures forall a :: a in item.aliases ==> a.value in result
  {
    result := {};
    var i := 0;
    while i < |item.labels|
      invariant 0 <= i <= |item.labels|
      invariant result == set l | l in item.labels[..i] :: l.value
    {
      assert item.labels[..i + 1] == item.labels[..i] + [item.labels[i]];
      result := result + {item.labels[i].value};
      i := i + 1;
    }
    assert item.labels[..i] == item.labels;
    var j := 0;
    while j < |item.aliases|
      invariant 0 <= j <= |item.aliases|
      invariant result == (set l | l in item.labels :: l.value) + (set a | a in item.aliases[..j] :: a.value)
    {
      assert item.aliases[..j + 1] == item.aliases[..j] + [item.aliases[j]];
      result := result + {item.aliases[j].value};
      j := j + 1;
    }
    assert item.aliases[..j] == item.aliases;
  }

  // ---------------------------------------------------------------------
  // Claims

  /** `has_property`: the property has at least one claim. */
  predicate HasProperty(item: Item, property: string) {
    property in item.claims && item.claims[property] != []
  }

  /** The claim points at the item `cls`. */
  predicate PointsAt(claim: Claim, cls: string) {
    claim.mainsnak.Value? && claim.mainsnak.datavalue.ItemValue? && claim.mainsnak.datavalue.id == cls
  }

  /** Some claim of `property` points at `cls`. */
  predicate RelatesTo(item: Item, property: string, cls: string) {
    property in item.claims && exists i :: 0 <= i < |item.claims[property]| && PointsAt(item.claims[property][i], cls)
  }

  /** `relates`: searches the claims of `property` for one naming `cls`. */
  method Relates(item: Item, property: string, cls: string) returns (r: bool)
    ensures r <==> RelatesTo(item, property, cls)
  {
    if property !in item.claims {
      return false;
    }
    var claims := item.claims[property];
    var i := 0;
    while i < |claims|
      invariant 0 <= i <= |claims|
      invariant forall j :: 0 <= j < i ==> !PointsAt(claims[j], cls)
    {
      var snak := claims[i].mainsnak;
      if snak.Value? && snak.datavalue.ItemValue? && snak.datavalue.id == cls {
        return true;
      }
      i := i + 1;
    }
    return false;
  }

  /** The string values of the claims, in order; other values are skipped. */
  function StringsOf(claims: seq<Claim>): seq<string>
    decreases |claims|
  {
    if claims == [] then []
    else
      var last := claims[|claims| - 1];
      StringsOf(claims[..|claims| - 1])
        + (if last.mainsnak.Value? && last.mainsnak.datavalue.StringValue? then [last.mainsnak.datavalue.text] else [])
  }

  /** Exactly the strings carried by string-valued main snaks are collected. */
  lemma {:induction false} StringsOfSpec(claims: seq<Claim>)
    ensures forall t :: t in StringsOf(claims) <==> Statement(Value(StringValue(t))) in claims
    ensures |StringsOf(claims)| <= |claims|
    decreases |claims|
  {
    if claims != [] {
      var init := claims[..|claims| - 1];
      StringsOfSpec(init);
      assert claims == init + [claims[|claims| - 1]];
    }
  }

  /** What `get_strings` returns. */
  function Strings(item: Item, property: string): Option<seq<string>> {
    if property in item.claims then Some(StringsOf(item.claims[property])) else None
  }

  /** `get_strings`: None for an absent property, else its string values in order. */
  method GetStrings(item: Item, property: string) returns (r: Option<seq<string>>)
    ensures r == Strings(item, property)
  {
    if property !in item.claims {
      return None;
    }
    var claims := item.claims[property];
    var result: seq<string> := [];
    var i := 0;
    while i < |claims|
      invariant 0 <= i <= |claims|
      invariant result == StringsOf(claims[..i])
    {
      assert claims[..i + 1][..i] == claims[..i];
      var snak := claims[i].mainsnak;
      if snak.Value? && snak.datavalue.StringValue? {
        result := result + [snak.datavalue.text];
      }
      i := i + 1;
    }
    assert claims[..i] == claims;
    return Some(result);
  }

  /**
   * The numeric ids of the item-valued claims, in order, or the first id
   * that does not convert. `toNumId` stands for the id conversion of the
   * Wikidata crate, which is not part of this model.
   */
  function EntityIds(claims: seq<Claim>, toNumId: string -> Option<nat>): Result<seq<nat>, string>
    decreases |claims|
  {
    if claims == [] then Ok([])
    else
      match EntityIds(claims[..|claims| - 1], toNumId)
      case Err(e) => Err(e)
      case Ok(ids) =>
        var last := claims[|claims| - 1];
        if last.mainsnak.Value? && last.mainsnak.datavalue.ItemValue? then
          match toNumId(last.mainsnak.datavalue.id)
          case None => Err(last.mainsnak.datavalue.id)
          case Some(n) => Ok(ids + [n])
        else Ok(ids)
  }

  /** An error names an item id that does not convert; success converts every item id. */
  lemma {:induction false} EntityIdsSpec(claims: seq<Claim>, toNumId: string -> Option<nat>)
    ensures EntityIds(claims, toNumId).Err? ==>
      Statement(Value(ItemValue(EntityIds(claims, toNumId).error))) in claims
      && toNumId(EntityIds(claims, toNumId).error).None?
    ensures EntityIds(claims, toNumId).Ok? ==>
      forall n :: n in EntityIds(claims, toNumId).value <==>
        exists c :: c in claims && c.mainsnak.Value? && c.mainsnak.datavalue.ItemValue?
                    && toNumId(c.mainsnak.datavalue.id) == Some(n)
    decreases |claims|
  {
    if claims != [] {
      var init := claims[..|claims| - 1];
      EntityIdsSpec(init, toNumId);
      assert claims == init + [claims[|claims| - 1]];
    }
  }

  /** What `get_entity_ids` returns: None for an absent property, else the converted ids. */
  function EntityIdsOf(item: Item, property: string, toNumId: string -> Option<nat>): Result<Option<seq<nat>>, string> {
    if property in item.claims then
      match EntityIds(item.claims[property], toNumId)
      case Err(e) => Err(e)
      case Ok(ids) => Ok(Some(ids))
    else Ok(None)
  }

  /** `get_entity_ids`: converts the item ids one by one, stopping at the first failure. */
  method GetEntityIds(item: Item, property: string, toNumId: string -> Option<nat>)
    returns (r: Result<Option<seq<nat>>, string>)
    ensures r == EntityIdsOf(item, property, toNumId)
  {
    if property !in item.claims {
      return Ok(None);
    }
    var claims := item.claims[property];
    var result: seq<nat> := [];
    var i := 0;
    while i < |claims|
      invariant 0 <= i <= |claims|
      invariant EntityIds(claims[..i], toNumId) == Ok(result)
    {
      assert claims[..i + 1][..i] == claims[..i];
      var snak := claims[i].mainsnak;
      if snak.Value? && snak.datavalue.ItemValue? {
        var n := toNumId(snak.datavalue.id);
        if n.None? {
          assert EntityIds(claims[..i + 1], toNumId).Err?;
          PrefixErr(claims, i + 1, toNumId);
          return Err(snak.datavalue.id);
        }
        result := result + [n.value];
      }
      i := i + 1;
    }
    assert claims[..i] == claims;
    return Ok(Some(result));
  }

  /** A conversion failure in a prefix is the failure of the whole sequence. */
  lemma {:induction false} PrefixErr(claims: seq<Claim>, n: nat, toNumId: string -> Option<nat>)
    requires n <= |claims|
    requires EntityIds(claims[..n], toNumId).Err?
    ensures EntityIds(claims, toNumId) == EntityIds(claims[..n], toNumId)
    decreases |claims| - n
  {
    if n < |claims| {
      assert claims[..n + 1][..n] == claims[..n];
      PrefixErr(claims, n + 1, toNumId);
    } else {
      assert claims[..n] == claims;
    }
  }

  /** `get_classes`: the ids of the instance-of classes. */
  function Classes(item: Item, toNumId: string -> Option<nat>): Result<Option<seq<nat>>, string> {
    EntityIdsOf(item, INSTANCE_OF, toNumId)
  }

  /** `get_countries`: the ids of the item's countries. */
  function Countries(item: Item, toNumId: string -> Option<nat>): Result<Option<seq<nat>>, string> {
    EntityIdsOf(item, COUNTRY, toNumId)
  }

  /** `get_superclasses`: the ids of the classes the item is a subclass of. */
  function Superclasses(item: Item, toNumId: string -> Option<nat>): Result<Option<seq<nat>>, string> {
    EntityIdsOf(item, SUBCLASS_OF, toNumId)
  }

  predicate HasManufacturer(item: Item) { HasProperty(item, MANUFACTURER) }
  predicate HasGtin(item: Item) { HasProperty(item, GTIN) }
  predicate HasProducts(item: Item) { HasProperty(item, PRODUCT_MATERIAL_OR_SERVICE) }
  predicate HasEuVatNumber(item: Item) { HasProperty(item, EU_VAT_NUMBER) }

  /** `get_official_websites`. */
  function OfficialWebsites(item: Item): Option<seq<string>> {
    Strings(item, OFFICIAL_WEBSITE)
  }

  /** `extract_domains`: the domains of the official websites. */
  function ExtractDomains(item: Item): Option<set<string>> {
    match OfficialWebsites(item)
    case None => None
    case Some(urls) => Some(DomainsOf(urls))
  }

  // ---------------------------------------------------------------------
  // Classification

  /** What `is_organisation` decides. */
  predicate IsOrganisationItem(item: Item, toNumId: string -> Option<nat>) {
    if HasEuVatNumber(item) then true
    else if HasProducts(item) then true
    else if HasManufacturer(item) then false
    else
      var classes := Classes(item, toNumId);
      classes.Ok? && classes.value.Some? && exists id :: id in classes.value.value && id in ORGANISATION_CLASSES
  }

  /** The order of the rules of `is_organisation`. */
  lemma IsOrganisationRules(item: Item, toNumId: string -> Option<nat>)
    ensures HasEuVatNumber(item) ==> IsOrganisationItem(item, toNumId)
    ensures !HasEuVatNumber(item) && HasProducts(item) ==> IsOrganisationItem(item, toNumId)
    ensures !HasEuVatNumber(item) && !HasProducts(item) && HasManufacturer(item) ==> !IsOrganisationItem(item, toNumId)
    ensures !HasEuVatNumber(item) && !HasProducts(item) && INSTANCE_OF !in item.claims ==> !IsOrganisationItem(item, toNumId)
  {
  }

  /** `is_organisation`: the property rules, then a search of the item's classes. */
  method IsOrganisation(item: Item, toNumId: string -> Option<nat>) returns (r: bool)
    ensures r == IsOrganisationItem(item, toNumId)
  {
    if HasEuVatNumber(item) {
      return true;
    }
    if HasProducts(item) {
      return true;
    }
    if HasManufacturer(item) {
      return false;
    }
    var classes := Classes(item, toNumId);
    if classes.Ok? && classes.value.Some? {
      var ids := classes.value.value;
      var i := 0;
      while i < |ids|
        invariant 0 <= i <= |ids|
        invariant forall j :: 0 <= j < i ==> ids[j] !in ORGANISATION_CLASSES
      {
        if ids[i] in ORGANISATION_CLASSES {
          return true;
        }
        i := i + 1;
      }
    }
    return false;
  }

  /** `is_product`: a manufacturer or a GTIN. */
  predicate IsProduct(item: Item) {
    HasManufacturer(item) || HasGtin(item)
  }

  /** A manufacturer makes an item a product, and an organisation only through its VAT number or products. */
  lemma ManufacturedItems(item: Item, toNumId: string -> Option<nat>)
    requires HasManufacturer(item)
    ensures IsProduct(item)
    ensures IsOrganisationItem(item, toNumId) <==> HasEuVatNumber(item) || HasProducts(item)
  {
  }
}
