/** VAT numbers of EU Ecolabel records, prepared for comparison. */
module CollectingEuEcolabel {
  import opened Wrappers
  import opened Text

  /** The fields of a record that the preparation reads. */
  datatype Record = Record(companyCountry: string, vatNumber: Option<string>)

  const Separators: set<char> := {' ', '.', '-'}

  /**
   * `Record::prepare_vat_number`: separators dropped, and the company's
   * country put in front unless the number already starts with it.
   */
  function PrepareVatNumber(r: Record): (v: Option<string>)
    ensures v.None? <==> r.vatNumber.None?
    ensures v.Some? ==> StartsWith(v.value, r.companyCountry)
    ensures v.Some? ==> exists p :: v.value == p + RemoveChars(r.vatNumber.value, Separators)
                                   && (p == [] || p == r.companyCountry)
  {
    match r.vatNumber
    case None => None
    case Some(number) =>
      var cleaned := RemoveChars(number, Separators);
      if StartsWith(cleaned, r.companyCountry) then
        assert cleaned == [] + cleaned;
        Some(cleaned)
      else
        assert (r.companyCountry + cleaned)[..|r.companyCountry|] == r.companyCountry;
        Some(r.companyCountry + cleaned)
  }

  /** The country is added exactly when the cleaned number does not start with it. */
  lemma PrepareVatNumberPrefix(r: Record)
    requires r.vatNumber.Some?
    ensures var cleaned := RemoveChars(r.vatNumber.value, Separators);
      PrepareVatNumber(r) == Some(if StartsWith(cleaned, r.companyCountry) then cleaned
                                  else r.companyCountry + cleaned)
  {
  }

  /** Preparing an already prepared number, for the same country, changes nothing. */
  lemma PrepareVatNumberIdempotent(r: Record)
    requires r.vatNumber.Some?
    requires forall c :: c in r.companyCountry ==> c !in Separators
    ensures PrepareVatNumber(Record(r.companyCountry, PrepareVatNumber(r))) == PrepareVatNumber(r)
  {
    var v := PrepareVatNumber(r).value;
    var p :| v == p + RemoveChars(r.vatNumber.value, Separators) && (p == [] || p == r.companyCountry);
    forall i | 0 <= i < |v| ensures v[i] !in Separators {
      if i < |p| { assert v[i] in p; } else { assert v[i] == RemoveChars(r.vatNumber.value, Separators)[i - |p|]; }
    }
    RemoveCharsNone(v, Separators);
  }
}
