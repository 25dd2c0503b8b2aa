/**
 * Identifier value types of the models crate: Wikidata ids, EANs, GTINs,
 * VAT ids and the numeric organisation and product ids, with their parsers
 * and canonical strings.
 */
module ModelsIds {
  import opened Wrappers
  import opened Text

  /** The highest number with 13 digits. */
  const MAX_EAN: nat := 9_999_999_999_999

  /** The highest number with 14 digits. */
  const MAX_GTIN: nat := 99_999_999_999_999

  const U32_MAX: nat := 4_294_967_295

  /** What went wrong while parsing an id; each variant carries the offending text. */
  datatype ParseIdError =
    | Num(text: string, kind: IntErrorKind)
    | Length(text: string)
    | Prefix(text: string)

  // ---------------------------------------------------------------------
  // Wikidata ids

  datatype WikiId = WikiId(value: nat)

  function WikiIdCanonical(id: WikiId): string {
    Decimal(id.value)
  }

  /** The whole text parsed as a `u64`; a failure carries the text. */
  function WikiIdTryFrom(s: string): Result<WikiId, ParseIdError> {
    match ParseU64(s)
    case Ok(n) => Ok(WikiId(n))
    case Err(kind) => Err(Num(s, kind))
  }

  lemma WikiIdRoundTrip(id: WikiId)
    requires id.value <= U64_MAX
    ensures WikiIdTryFrom(WikiIdCanonical(id)) == Ok(id)
  {
    ParseDecimal(id.value);
  }

  /** A parsed id prints back as the parsed digits without leading zeros. */
  lemma WikiIdTryFromDigits(s: string)
    requires s != [] && AllDigits(s) && DigitsValue(s) <= U64_MAX
    ensures WikiIdTryFrom(s) == Ok(WikiId(DigitsValue(s)))
    ensures WikiIdCanonical(WikiIdTryFrom(s).value) == Decimal(DigitsValue(s))
  {
    ParseU64Digits(s);
  }

  // ---------------------------------------------------------------------
  // EAN

  datatype Ean = Ean(value: nat)

  function EanCanonical(ean: Ean): string {
    Decimal(ean.value)
  }

  /** `Ean::try_from(u64)`: values above MAX_EAN are a Length error. */
  function EanTryFromU64(n: nat): (r: Result<Ean, ParseIdError>)
    ensures r.Ok? <==> n <= MAX_EAN
    ensures r.Ok? ==> r.value == Ean(n)
    ensures r.Err? ==> r.error == Length(Decimal(n))
  {
    if n > MAX_EAN then Err(Length(Decimal(n))) else Ok(Ean(n))
  }

  /** The text an EAN parser reads: ' ', '-' and '.' removed, then leading zeros. */
  function EanCleaned(s: string): string {
    TrimLeadingZeros(RemoveChars(s, {' ', '-', '.'}))
  }

  function EanTryFrom(s: string): Result<Ean, ParseIdError> {
    var cleaned := EanCleaned(s);
    match ParseU64(cleaned)
    case Ok(n) => EanTryFromU64(n)
    case Err(kind) => Err(Num(cleaned, kind))
  }

  lemma EanCleanedDigits(s: string)
    requires AllDigits(s)
    ensures AllDigits(EanCleaned(s))
    ensures DigitsValue(EanCleaned(s)) == DigitsValue(s)
    ensures EanCleaned(s) == [] <==> DigitsValue(s) == 0
  {
    RemoveCharsNone(s, {' ', '-', '.'});
    TrimLeadingZerosDigits(s);
  }

  /** Digits with any leading zeros parse to their value when it is a nonzero EAN. */
  lemma EanTryFromDigits(s: string)
    requires AllDigits(s) && 0 < DigitsValue(s) <= MAX_EAN
    ensures EanTryFrom(s) == Ok(Ean(DigitsValue(s)))
  {
    EanCleanedDigits(s);
    ParseU64Digits(EanCleaned(s));
  }

  /** Digit strings above MAX_EAN (but within `u64`) are a Length error. */
  lemma EanTryFromTooLarge(s: string)
    requires AllDigits(s) && MAX_EAN < DigitsValue(s) <= U64_MAX
    ensures EanTryFrom(s) == Err(Length(Decimal(DigitsValue(s))))
  {
    EanCleanedDigits(s);
    ParseU64Digits(EanCleaned(s));
  }

  /** A text of zeros only trims to nothing, so the parse fails as empty. */
  lemma EanAllZeros(k: nat)
    ensures EanTryFrom(Zeros(k)) == Err(Num("", Empty))
  {
    ZerosValue(k);
    EanCleanedDigits(Zeros(k));
  }

  lemma EanRoundTrip(ean: Ean)
    requires 0 < ean.value <= MAX_EAN
    ensures EanTryFrom(EanCanonical(ean)) == Ok(ean)
  {
    EanTryFromDigits(Decimal(ean.value));
  }

  /** Every EAN the parser accepts is within MAX_EAN. */
  lemma EanTryFromBound(s: string)
    ensures EanTryFrom(s).Ok? ==> EanTryFrom(s).value.value <= MAX_EAN
  {
  }

  // ---------------------------------------------------------------------
  // GTIN

  datatype Gtin = Gtin(value: nat)

  /** The value formatted as fourteen digits, zero-filled on the left. */
  function GtinCanonical(gtin: Gtin): string {
    PadZeros(Decimal(gtin.value), 14)
  }

  /** `Gtin::try_from(u64)`: values above MAX_GTIN are a Length error. */
  function GtinTryFromU64(n: nat): (r: Result<Gtin, ParseIdError>)
    ensures r.Ok? <==> n <= MAX_GTIN
    ensures r.Ok? ==> r.value == Gtin(n)
    ensures r.Err? ==> r.error == Length(Decimal(n))
  {
    if n > MAX_GTIN then Err(Length(Decimal(n))) else Ok(Gtin(n))
  }

  /** The characters a GTIN parser keeps: ASCII letters and digits. */
  function GtinReduced(s: string): string {
    Filter(s, IsAsciiAlphanumeric)
  }

  /**
   * `Gtin::try_from(&str)`: keeps ASCII alphanumerics; fewer than 8 or more
   * than 14 of them is a Length error with the original text, otherwise the
   * reduced text is parsed as a `u64`.
   */
  function GtinTryFrom(s: string): Result<Gtin, ParseIdError> {
    var reduced := GtinReduced(s);
    if !(8 <= |reduced| <= 14) then Err(Length(s))
    else
      match ParseU64(reduced)
      case Ok(n) => Ok(Gtin(n))
      case Err(kind) => Err(Num(reduced, kind))
  }

  /** The three outcomes of `Gtin::try_from(&str)`, each with its exact condition. */
  lemma GtinTryFromOutcomes(s: string)
    ensures var reduced := GtinReduced(s);
      && (GtinTryFrom(s).Err? && GtinTryFrom(s).error == Length(s) <==> !(8 <= |reduced| <= 14))
      && (GtinTryFrom(s).Err? && GtinTryFrom(s).error.Num? <==> 8 <= |reduced| <= 14 && !AllDigits(reduced))
      && (GtinTryFrom(s).Ok? <==> 8 <= |reduced| <= 14 && AllDigits(reduced))
      && (GtinTryFrom(s).Ok? ==> GtinTryFrom(s).value == Gtin(DigitsValue(reduced)))
      && (GtinTryFrom(s).Ok? ==> GtinTryFrom(s).value.value <= MAX_GTIN)
  {
    var reduced := GtinReduced(s);
    if 8 <= |reduced| <= 14 {
      if AllDigits(reduced) {
        DigitsValueBound(reduced);
        Pow10Fourteen();
        assert Pow10(|reduced|) <= Pow10(14) by { Pow10Monotone(|reduced|, 14); }
        ParseU64Digits(reduced);
      } else {
        assert !StartsWith(reduced, "+") by {
          assert IsAsciiAlphanumeric(reduced[0]);
        }
        ParseU64NonDigit(reduced);
      }
    }
  }

  lemma {:induction false} Pow10Monotone(a: nat, b: nat)
    requires a <= b
    ensures Pow10(a) <= Pow10(b)
    decreases b
  {
    if a < b { Pow10Monotone(a, b - 1); }
  }

  lemma Pow10Fourteen()
    ensures Pow10(14) == MAX_GTIN + 1
  {
    assert Pow10(4) == 10_000;
    assert Pow10(8) == 100_000_000;
    assert Pow10(12) == 1_000_000_000_000;
  }

  /** Parsing the canonical 14-digit form gives the GTIN back. */
  lemma GtinRoundTrip(gtin: Gtin)
    requires gtin.value <= MAX_GTIN
    ensures |GtinCanonical(gtin)| == 14
    ensures GtinTryFrom(GtinCanonical(gtin)) == Ok(gtin)
  {
    var d := Decimal(gtin.value);
    Pow10Fourteen();
    DecimalLength(gtin.value, 14);
    var c := GtinCanonical(gtin);
    var k :| 0 <= k <= |c| && c == Zeros(k) + d;
    assert AllDigits(c);
    FilterAllKept(c, IsAsciiAlphanumeric);
    ParseZeroPadded(gtin.value, 14);
  }

  // ---------------------------------------------------------------------
  // Parsing a list of ids into a set

  /** Every listed text parses. */
  ghost predicate AllParse<T>(ids: seq<string>, parse: string -> Result<T, ParseIdError>) {
    forall i :: 0 <= i < |ids| ==> parse(ids[i]).Ok?
  }

  /** The set of the ids the listed texts parse to. */
  ghost function ParsedSet<T>(ids: seq<string>, parse: string -> Result<T, ParseIdError>): set<T> {
    set i | 0 <= i < |ids| && parse(ids[i]).Ok? :: parse(ids[i]).value
  }

  /** `e` is the error of the first listed text that does not parse. */
  ghost predicate FirstFailure<T>(ids: seq<string>, parse: string -> Result<T, ParseIdError>, e: ParseIdError) {
    exists k :: 0 <= k < |ids| && parse(ids[k]) == Err(e) && forall j :: 0 <= j < k ==> parse(ids[j]).Ok?
  }

  /**
   * `Gtin::convert`: no list gives the empty set; otherwise the texts are
   * parsed in order into a set and the first failure is returned.
   */
  method GtinConvert(data: Option<seq<string>>) returns (r: Result<set<Gtin>, ParseIdError>)
    ensures data.None? ==> r == Ok({})
    ensures data.Some? ==> (r.Ok? <==> AllParse(data.value, GtinTryFrom))
    ensures data.Some? && r.Ok? ==> r.value == ParsedSet(data.value, GtinTryFrom)
    ensures data.Some? && r.Err? ==> FirstFailure(data.value, GtinTryFrom, r.error)
  {
    if data.None? {
      return Ok({});
    }
    r := ConvertAll(data.value, GtinTryFrom);
  }

  /** The loop shared by the `convert` functions: parse in order into a set, stopping at the first failure. */
  method ConvertAll<T>(ids: seq<string>, parse: string -> Result<T, ParseIdError>) returns (r: Result<set<T>, ParseIdError>)
    ensures r.Ok? <==> AllParse(ids, parse)
    ensures r.Ok? ==> r.value == ParsedSet(ids, parse)
    ensures r.Err? ==> FirstFailure(ids, parse, r.error)
  {
    var result: set<T> := {};
    var i := 0;
    while i < |ids|
      invariant 0 <= i <= |ids|
      invariant forall j :: 0 <= j < i ==> parse(ids[j]).Ok?
      invariant result == ParsedSet(ids[..i], parse)
    {
      var parsed := parse(ids[i]);
      if parsed.Err? {
        return Err(parsed.error);
      }
      ParsedSetStep(ids, i, parse);
      result := result + {parsed.value};
      i := i + 1;
    }
    assert ids[..i] == ids;
    return Ok(result);
  }

  lemma ParsedSetStep<T>(ids: seq<string>, i: nat, parse: string -> Result<T, ParseIdError>)
    requires i < |ids| && parse(ids[i]).Ok?
    ensures ParsedSet(ids[..i + 1], parse) == ParsedSet(ids[..i], parse) + {parse(ids[i]).value}
  {
    var a := ids[..i + 1];
    assert a[..i] == ids[..i];
    assert a[i] == ids[i];
  }

  // ---------------------------------------------------------------------
  // VAT ids

  datatype VatId = VatId(id: string)

  /** `VatId::new`: only ASCII letters and digits are kept. */
  function VatIdNew(s: string): VatId {
    VatId(Filter(s, IsAsciiAlphanumeric))
  }

  function VatIdCanonical(vat: VatId): string {
    vat.id
  }

  /** `VatId::try_from`: fewer than two kept characters is a Length error. */
  function VatIdTryFrom(s: string): Result<VatId, ParseIdError> {
    var vat := VatIdNew(s);
    if |vat.id| < 2 then Err(Length(vat.id)) else Ok(vat)
  }

  /** A VAT id is accepted exactly when two or more letters or digits remain. */
  lemma VatIdTryFromSpec(s: string)
    ensures VatIdTryFrom(s).Ok? <==> |Filter(s, IsAsciiAlphanumeric)| >= 2
    ensures VatIdTryFrom(s).Ok? ==>
      forall i :: 0 <= i < |VatIdTryFrom(s).value.id| ==> IsAsciiAlphanumeric(VatIdTryFrom(s).value.id[i])
    ensures VatIdTryFrom(s).Err? ==> VatIdTryFrom(s).error == Length(Filter(s, IsAsciiAlphanumeric))
  {
  }

  /** Parsing the canonical string of an accepted VAT id gives it back. */
  lemma VatIdRoundTrip(s: string)
    requires VatIdTryFrom(s).Ok?
    ensures VatIdTryFrom(VatIdCanonical(VatIdTryFrom(s).value)) == VatIdTryFrom(s)
  {
    var v := VatIdTryFrom(s).value;
    FilterAllKept(v.id, IsAsciiAlphanumeric);
  }

  /** `VatId::convert`, the same loop as `Gtin::convert` over `VatId::try_from`. */
  method VatIdConvert(data: Option<seq<string>>) returns (r: Result<set<VatId>, ParseIdError>)
    ensures data.None? ==> r == Ok({})
    ensures data.Some? ==> (r.Ok? <==> AllParse(data.value, VatIdTryFrom))
    ensures data.Some? && r.Ok? ==> r.value == ParsedSet(data.value, VatIdTryFrom)
    ensures data.Some? && r.Err? ==> FirstFailure(data.value, VatIdTryFrom, r.error)
  {
    if data.None? {
      return Ok({});
    }
    r := ConvertAll(data.value, VatIdTryFrom);
  }

  // ---------------------------------------------------------------------
  // Organisation and product ids (`u32`)

  datatype OrganisationId = OrganisationId(value: nat)

  datatype ProductId = ProductId(value: nat)

  function OrganisationIdCanonical(id: OrganisationId): string {
    Decimal(id.value)
  }

  function ProductIdCanonical(id: ProductId): string {
    Decimal(id.value)
  }

  /** The canonical string is the decimal value: it reads back as the same number. */
  lemma OrganisationIdCanonicalDecimal(id: OrganisationId)
    requires id.value <= U32_MAX
    ensures AllDigits(OrganisationIdCanonical(id))
    ensures ParseU64(OrganisationIdCanonical(id)) == Ok(id.value)
  {
    ParseDecimal(id.value);
  }

  lemma ProductIdCanonicalDecimal(id: ProductId)
    requires id.value <= U32_MAX
    ensures AllDigits(ProductIdCanonical(id))
    ensures ParseU64(ProductIdCanonical(id)) == Ok(id.value)
  {
    ParseDecimal(id.value);
  }
}
