/**
 * Identifier types of the collecting crate: GTINs, VAT ids, and organisation
 * and product ids that carry a one-letter prefix in their text form.
 */
module CollectingData {
  import opened Wrappers
  import opened Text
  import ModelsIds

  type ParseIdError = ModelsIds.ParseIdError

  /** The highest number with 14 digits. */
  const MAX_GTIN: nat := 99_999_999_999_999

  /** The separators both parsers drop. */
  const Separators: set<char> := {' ', '-', '.'}

  function Cleaned(s: string): (r: string)
    ensures forall c :: c in r <==> c in s && c !in Separators
  {
    RemoveChars(s, Separators)
  }

  // ---------------------------------------------------------------------
  // GTIN

  datatype Gtin = Gtin(value: nat)

  /** `Gtin::to_string`: the value left-padded with '0' to 14 characters. */
  function GtinToString(g: Gtin): (r: string)
    ensures AllDigits(r) && DigitsValue(r) == g.value
    ensures |r| >= 14
  {
    PadZerosDigits(Decimal(g.value), 14);
    PadZeros(Decimal(g.value), 14)
  }

  /** A GTIN in range prints as exactly 14 digits. */
  lemma GtinToStringLength(g: Gtin)
    requires g.value <= MAX_GTIN
    ensures |GtinToString(g)| == 14
  {
    ModelsIds.Pow10Fourteen();
    DecimalLength(g.value, 14);
  }

  /** The lengths a GTIN text may have once separators are dropped. */
  predicate GtinLength(n: nat) {
    n == 8 || n == 12 || n == 13 || n == 14
  }

  /**
   * `Gtin::try_from(&str)`: separators dropped; a length in UTF-8 bytes other
   * than 8, 12, 13 or 14 is a Length error carrying the cleaned text, and a
   * cleaned text that does not parse as a number is a Num error carrying it too.
   */
  function GtinTryFrom(s: string): (r: Result<Gtin, ParseIdError>)
    ensures !GtinLength(Utf8Len(Cleaned(s))) <==> r == Err(ModelsIds.Length(Cleaned(s)))
    ensures r.Err? && r.error.Num? ==> r.error.text == Cleaned(s)
  {
    var cleaned := Cleaned(s);
    if !GtinLength(Utf8Len(cleaned)) then Err(ModelsIds.Length(cleaned))
    else
      match ParseU64(cleaned)
      case Ok(n) => Ok(Gtin(n))
      case Err(kind) => Err(ModelsIds.Num(cleaned, kind))
  }

  /** A cleaned text of an accepted length made of digits parses to its value. */
  lemma GtinTryFromDigits(s: string)
    requires GtinLength(|Cleaned(s)|) && AllDigits(Cleaned(s))
    ensures GtinTryFrom(s) == Ok(Gtin(DigitsValue(Cleaned(s))))
    ensures GtinTryFrom(s).value.value <= MAX_GTIN
  {
    var c := Cleaned(s);
    DigitsUtf8Len(c);
    DigitsValueBound(c);
    ModelsIds.Pow10Fourteen();
    ModelsIds.Pow10Monotone(|c|, 14);
    ParseU64Digits(c);
  }

  /** `Gtin::try_from(usize)`: values above MAX_GTIN are a Length error. */
  function GtinTryFromUsize(n: nat): (r: Result<Gtin, ParseIdError>)
    ensures r.Ok? <==> n <= MAX_GTIN
    ensures r.Ok? ==> r.value == Gtin(n)
    ensures r.Err? ==> r.error == ModelsIds.Length(Decimal(n))
  {
    if n > MAX_GTIN then Err(ModelsIds.Length(Decimal(n))) else Ok(Gtin(n))
  }

  lemma DigitsHaveNoSeparators(t: string)
    requires AllDigits(t)
    ensures forall i :: 0 <= i < |t| ==> t[i] !in Separators
  {
    forall i | 0 <= i < |t| ensures t[i] !in Separators {
      assert IsDigit(t[i]);
    }
  }

  /** Printing a GTIN in range and parsing the text gives it back. */
  lemma GtinRoundTrip(g: Gtin)
    requires g.value <= MAX_GTIN
    ensures GtinTryFrom(GtinToString(g)) == Ok(g)
  {
    var t := GtinToString(g);
    GtinToStringLength(g);
    DigitsHaveNoSeparators(t);
    RemoveCharsNone(t, Separators);
    DigitsUtf8Len(t);
    ParseZeroPadded(g.value, 14);
  }

  /**
   * Lengths are counted in bytes: eight characters one of which takes two
   * bytes are too long for an 8-digit GTIN and too short for a 12-digit one.
   */
  /** "é1234567" is eight characters but nine UTF-8 bytes. */
  lemma AccentedGtinBytes()
    ensures Utf8Len("\U{E9}1234567") == 9
  {
    assert "\U{E9}1234567" == "\U{E9}" + "1234567";
    Utf8LenAppend("\U{E9}", "1234567");
    DigitsUtf8Len("1234567");
    assert "\U{E9}"[..0] == [];
  }

  lemma AccentedGtinClean()
    ensures Cleaned("\U{E9}1234567") == "\U{E9}1234567"
  {
    var t := "\U{E9}1234567";
    assert t == ['\U{E9}'] + "1234567";
    DigitsHaveNoSeparators("1234567");
    RemoveCharsNone(t, Separators);
  }

  /** An eight-character text of nine bytes is a Length error, not a Num error. */
  lemma GtinLengthCountsBytes()
    ensures GtinTryFrom("\U{E9}1234567") == Err(ModelsIds.Length("\U{E9}1234567"))
  {
    AccentedGtinBytes();
    AccentedGtinClean();
  }

  // ---------------------------------------------------------------------
  // VAT ids

  datatype VatId = VatId(id: string)

  /** `VatId::try_from`: separators dropped; fewer than four UTF-8 bytes left is a Length error. */
  function VatIdTryFrom(s: string): (r: Result<VatId, ParseIdError>)
    ensures r.Ok? <==> Utf8Len(Cleaned(s)) >= 4
    ensures r.Ok? ==> r.value.id == Cleaned(s)
    ensures r.Err? ==> r.error == ModelsIds.Length(Cleaned(s))
  {
    var id := Cleaned(s);
    if Utf8Len(id) < 4 then Err(ModelsIds.Length(id)) else Ok(VatId(id))
  }

  /** A VAT id without separators and with four or more characters reads back as itself. */
  lemma VatIdRoundTrip(v: VatId)
    requires |v.id| >= 4 && forall c :: c in v.id ==> c !in Separators
    ensures VatIdTryFrom(v.id) == Ok(v)
  {
    RemoveCharsNone(v.id, Separators);
    Utf8LenBounds(v.id);
  }

  /** Two characters of two bytes each make a long enough VAT id. */
  lemma VatIdLengthCountsBytes()
    ensures VatIdTryFrom("\U{E9}\U{E9}") == Ok(VatId("\U{E9}\U{E9}"))
  {
    var t := "\U{E9}\U{E9}";
    RemoveCharsNone(t, Separators);
    assert t[..1] == "\U{E9}" && t[..1][..0] == [];
  }

  // ---------------------------------------------------------------------
  // Wikidata ids

  datatype WikiId = WikiId(value: nat)

  /** A Wikidata id's text: "Q" and the number. */
  function WikiIdToString(w: WikiId): string {
    "Q" + Decimal(w.value)
  }

  /**
   * Parsing a Wikidata id's text, taken here as "Q" followed by a `u64`;
   * the parser itself is not part of this model.
   */
  function WikiIdTryFrom(s: string): (r: Result<WikiId, ParseIdError>)
    ensures !StartsWith(s, "Q") ==> r == Err(ModelsIds.Prefix(s))
  {
    if !StartsWith(s, "Q") then Err(ModelsIds.Prefix(s))
    else
      match ParseU64(s[1..])
      case Ok(n) => Ok(WikiId(n))
      case Err(kind) => Err(ModelsIds.Num(s, kind))
  }

  lemma WikiIdRoundTrip(w: WikiId)
    requires w.value <= U64_MAX
    ensures WikiIdTryFrom(WikiIdToString(w)) == Ok(w)
  {
    var t := WikiIdToString(w);
    assert t[..1] == "Q" && t[1..] == Decimal(w.value);
    ParseDecimal(w.value);
  }

  // ---------------------------------------------------------------------
  // Organisation and product ids

  datatype OrganisationId = OrgWiki(wiki: WikiId) | OrgVat(vat: VatId)

  /** `OrganisationId::to_string`: "Q…" for Wikidata ids, "V" and the VAT id otherwise. */
  function OrganisationIdToString(id: OrganisationId): (r: string)
    ensures r != [] && r[0] == (if id.OrgWiki? then 'Q' else 'V')
  {
    match id
    case OrgWiki(w) => WikiIdToString(w)
    case OrgVat(v) => "V" + v.id
  }

  /**
   * `OrganisationId::try_from(&str)`: the first character picks the kind;
   * any other first character is a Prefix error, and the empty text a Length error.
   */
  function OrganisationIdTryFrom(s: string): (r: Result<OrganisationId, ParseIdError>)
    ensures s == [] ==> r == Err(ModelsIds.Length(s))
    ensures s != [] && s[0] != 'Q' && s[0] != 'V' ==> r == Err(ModelsIds.Prefix(s))
    ensures s != [] && s[0] == 'V' ==>
      r == (match VatIdTryFrom(s[1..]) case Ok(v) => Ok(OrgVat(v)) case Err(e) => Err(e))
    ensures r.Ok? ==> r.value.OrgWiki? == (s[0] == 'Q')
  {
    if s == [] then Err(ModelsIds.Length(s))
    else if s[0] == 'Q' then
      match WikiIdTryFrom(s)
      case Ok(w) => Ok(OrgWiki(w))
      case Err(e) => Err(e)
    else if s[0] == 'V' then
      match VatIdTryFrom(s[1..])
      case Ok(v) => Ok(OrgVat(v))
      case Err(e) => Err(e)
    else Err(ModelsIds.Prefix(s))
  }

  /** Printing an organisation id and parsing the text gives it back. */
  lemma OrganisationIdRoundTrip(id: OrganisationId)
    requires id.OrgWiki? ==> id.wiki.value <= U64_MAX
    requires id.OrgVat? ==> |id.vat.id| >= 4 && forall c :: c in id.vat.id ==> c !in Separators
    ensures OrganisationIdTryFrom(OrganisationIdToString(id)) == Ok(id)
  {
    var t := OrganisationIdToString(id);
    match id
    case OrgWiki(w) => WikiIdRoundTrip(w);
    case OrgVat(v) =>
      assert t[1..] == v.id;
      VatIdRoundTrip(v);
  }

  datatype ProductId = ProdWiki(wiki: WikiId) | ProdGtin(gtin: Gtin)

  /** `ProductId::to_string`: "Q…" for Wikidata ids, "G" and 14 digits for GTINs. */
  function ProductIdToString(id: ProductId): (r: string)
    ensures r != [] && r[0] == (if id.ProdWiki? then 'Q' else 'G')
    ensures id.ProdGtin? ==> AllDigits(r[1..]) && DigitsValue(r[1..]) == id.gtin.value
  {
    match id
    case ProdWiki(w) => WikiIdToString(w)
    case ProdGtin(g) =>
      var t := GtinToString(g);
      assert ("G" + t)[1..] == t;
      "G" + t
  }

  /** `ProductId::try_from(&str)`: 'Q' is a Wikidata id, 'G' a GTIN; otherwise Prefix, or Length when empty. */
  function ProductIdTryFrom(s: string): (r: Result<ProductId, ParseIdError>)
    ensures s == [] ==> r == Err(ModelsIds.Length(s))
    ensures s != [] && s[0] != 'Q' && s[0] != 'G' ==> r == Err(ModelsIds.Prefix(s))
    ensures s != [] && s[0] == 'G' ==>
      r == (match GtinTryFrom(s[1..]) case Ok(g) => Ok(ProdGtin(g)) case Err(e) => Err(e))
    ensures r.Ok? ==> r.value.ProdWiki? == (s[0] == 'Q')
  {
    if s == [] then Err(ModelsIds.Length(s))
    else if s[0] == 'Q' then
      match WikiIdTryFrom(s)
      case Ok(w) => Ok(ProdWiki(w))
      case Err(e) => Err(e)
    else if s[0] == 'G' then
      match GtinTryFrom(s[1..])
      case Ok(g) => Ok(ProdGtin(g))
      case Err(e) => Err(e)
    else Err(ModelsIds.Prefix(s))
  }

  /** Printing a product id and parsing the text gives it back. */
  lemma ProductIdRoundTrip(id: ProductId)
    requires id.ProdWiki? ==> id.wiki.value <= U64_MAX
    requires id.ProdGtin? ==> id.gtin.value <= MAX_GTIN
    ensures ProductIdTryFrom(ProductIdToString(id)) == Ok(id)
  {
    match id
    case ProdWiki(w) => ProductWikiRoundTrip(w);
    case ProdGtin(g) => ProductGtinRoundTrip(g);
  }

  lemma ProductWikiRoundTrip(w: WikiId)
    requires w.value <= U64_MAX
    ensures ProductIdTryFrom(ProductIdToString(ProdWiki(w))) == Ok(ProdWiki(w))
  {
    var t := WikiIdToString(w);
    assert ProductIdToString(ProdWiki(w)) == t;
    WikiIdRoundTrip(w);
    assert WikiIdTryFrom(t) == Ok(w);
  }

  lemma ProductGtinRoundTrip(g: Gtin)
    requires g.value <= MAX_GTIN
    ensures ProductIdTryFrom(ProductIdToString(ProdGtin(g))) == Ok(ProdGtin(g))
  {
    GtinRoundTrip(g);
    ParseGtinProductId(GtinToString(g), g);
    PrintGtinProductId(g);
  }

  lemma ParseGtinProductId(t: string, g: Gtin)
    requires GtinTryFrom(t) == Ok(g)
    ensures ProductIdTryFrom("G" + t) == Ok(ProdGtin(g))
  {
    var s := "G" + t;
    assert s[0] == 'G' && s[1..] == t;
  }

  lemma PrintGtinProductId(g: Gtin)
    ensures ProductIdToString(ProdGtin(g)) == "G" + GtinToString(g)
  {
  }

  // ---------------------------------------------------------------------
  // Converting lists

  /**
   * `Gtin::convert`: no list gives an empty vector; otherwise each text is
   * parsed in order and the first failure is returned.
   */
  method GtinConvert(data: Option<seq<string>>) returns (r: Result<seq<Gtin>, ParseIdError>)
    ensures data.None? ==> r == Ok([])
    ensures data.Some? && r.Ok? ==>
      |r.value| == |data.value| && forall i :: 0 <= i < |data.value| ==> GtinTryFrom(data.value[i]) == Ok(r.value[i])
    ensures data.Some? && r.Err? ==> ModelsIds.FirstFailure(data.value, GtinTryFrom, r.error)
  {
    if data.None? {
      return Ok([]);
    }
    var ids := data.value;
    var result: seq<Gtin> := [];
    var i := 0;
    while i < |ids|
      invariant 0 <= i <= |ids| && |result| == i
      invariant forall j :: 0 <= j < i ==> GtinTryFrom(ids[j]) == Ok(result[j])
    {
      var parsed := GtinTryFrom(ids[i]);
      if parsed.Err? {
        return Err(parsed.error);
      }
      result := result + [parsed.value];
      i := i + 1;
    }
    return Ok(result);
  }

  /** `VatId::convert`: the same loop over `VatId::try_from`. */
  method VatIdConvert(data: Option<seq<string>>) returns (r: Result<seq<VatId>, ParseIdError>)
    ensures data.None? ==> r == Ok([])
    ensures data.Some? && r.Ok? ==>
      |r.value| == |data.value| && forall i :: 0 <= i < |data.value| ==> VatIdTryFrom(data.value[i]) == Ok(r.value[i])
    ensures data.Some? && r.Err? ==> ModelsIds.FirstFailure(data.value, VatIdTryFrom, r.error)
  {
    if data.None? {
      return Ok([]);
    }
    var ids := data.value;
    var result: seq<VatId> := [];
    var i := 0;
    while i < |ids|
      invariant 0 <= i <= |ids| && |result| == i
      invariant forall j :: 0 <= j < i ==> VatIdTryFrom(ids[j]) == Ok(result[j])
    {
      var parsed := VatIdTryFrom(ids[i]);
      if parsed.Err? {
        return Err(parsed.error);
      }
      result := result + [parsed.value];
      i := i + 1;
    }
    return Ok(result);
  }
}
