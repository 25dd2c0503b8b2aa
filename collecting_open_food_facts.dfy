/** Open Food Facts records: comma-separated tag fields and brand labels. */
module CollectingOpenFoodFacts {
  import opened Wrappers
  import opened Text
  import opened Ordering

  /** The fields of an Open Food Facts CSV record that the helpers read. */
  datatype Record = Record(
    brandOwner: string,
    brands: string,
    manufacturingPlacesTags: string,
    countriesTags: string,
    categoriesTags: string)

  /**
   * A comma-separated field: nothing for the empty field, otherwise the
   * pieces between commas, empty pieces kept, which joined back give the field.
   */
  function SplitField(field: string): (r: seq<string>)
    ensures field == [] <==> r == []
    ensures field != [] ==> |r| == Count(field, ',') + 1 && Join(r, ',') == field
    ensures forall i :: 0 <= i < |r| ==> ',' !in r[i]
  {
    if field == [] then []
    else
      JoinSplit(field, ',');
      Split(field, ',')
  }

  /** `Record::extract_production_countries`. */
  function ExtractProductionCountries(r: Record): (tags: seq<string>)
    ensures tags == SplitField(r.manufacturingPlacesTags)
  {
    SplitField(r.manufacturingPlacesTags)
  }

  /** `Record::extract_sell_countries`. */
  function ExtractSellCountries(r: Record): (tags: seq<string>)
    ensures tags == SplitField(r.countriesTags)
  {
    SplitField(r.countriesTags)
  }

  /** `Record::extract_categories`. */
  function ExtractCategories(r: Record): (tags: seq<string>)
    ensures tags == SplitField(r.categoriesTags)
  {
    SplitField(r.categoriesTags)
  }

  /** A field of comma-free tags, joined and split again, gives the same tags. */
  lemma SplitFieldJoin(tags: seq<string>)
    requires |tags| >= 1 && Join(tags, ',') != []
    requires forall i :: 0 <= i < |tags| ==> ',' !in tags[i]
    ensures SplitField(Join(tags, ',')) == tags
  {
    SplitJoin(tags, ',');
  }

  /** The trimmed forms of the non-empty pieces. */
  function TrimmedNonEmpty(pieces: seq<string>): set<string>
    decreases |pieces|
  {
    if pieces == [] then {}
    else
      var last := pieces[|pieces| - 1];
      TrimmedNonEmpty(pieces[..|pieces| - 1]) + (if last != [] then {Trim(last)} else {})
  }

  lemma {:induction false} TrimmedNonEmptySpec(pieces: seq<string>)
    ensures forall b :: b in pieces && b != [] ==> Trim(b) in TrimmedNonEmpty(pieces)
    ensures forall l :: l in TrimmedNonEmpty(pieces) ==> exists b :: b in pieces && b != [] && l == Trim(b)
    decreases |pieces|
  {
    if pieces != [] {
      var init := pieces[..|pieces| - 1];
      TrimmedNonEmptySpec(init);
      assert pieces == init + [pieces[|pieces| - 1]];
    }
  }

  /** The labels `extract_brand_labels` collects, as a set. */
  function BrandLabels(r: Record): set<string> {
    (if r.brandOwner != [] then {r.brandOwner} else {})
    + TrimmedNonEmpty(Split(r.brands, ','))
  }

  /**
   * `Record::extract_brand_labels`: the brand owner, when there is one, and
   * every non-empty brand trimmed, each once, in the hash set's order (which
   * is left open here).
   */
  method ExtractBrandLabels(r: Record) returns (labels: seq<string>)
    ensures Distinct(labels)
    ensures forall l :: l in labels <==> l in BrandLabels(r)
  {
    var found: set<string> := {};
    if r.brandOwner != [] {
      found := found + {r.brandOwner};
    }
    found := InsertTrimmed(found, Split(r.brands, ','));
    labels := Elements(found);
  }

  /** The loop of `extract_brand_labels`: each non-empty piece, trimmed, joins the set. */
  method InsertTrimmed(found0: set<string>, pieces: seq<string>) returns (found: set<string>)
    ensures found == found0 + TrimmedNonEmpty(pieces)
  {
    found := found0;
    var i := 0;
    while i < |pieces|
      invariant 0 <= i <= |pieces|
      invariant found == found0 + TrimmedNonEmpty(pieces[..i])
    {
      assert pieces[..i + 1][..i] == pieces[..i];
      if pieces[i] != [] {
        found := found + {Trim(pieces[i])};
      }
      i := i + 1;
    }
    assert pieces[..i] == pieces;
  }

  /** The brand owner is a label exactly when it is not empty. */
  lemma BrandOwnerLabel(r: Record)
    requires r.brandOwner != []
    ensures r.brandOwner in BrandLabels(r)
  {
  }

  /** Each non-empty brand gives its trimmed form, and nothing but these and the owner is a label. */
  lemma BrandLabelsSpec(r: Record)
    ensures forall b :: b in Split(r.brands, ',') && b != [] ==> Trim(b) in BrandLabels(r)
    ensures forall l :: l in BrandLabels(r) ==>
      (l == r.brandOwner && l != []) || exists b :: b in Split(r.brands, ',') && b != [] && l == Trim(b)
  {
    TrimmedNonEmptySpec(Split(r.brands, ','));
  }

  /**
   * A brand piece made only of spaces is not empty, so its trimmed form, the
   * empty text, becomes a label.
   */
  lemma BlankBrandGivesEmptyLabel()
    ensures "" in BrandLabels(Record("", "Acme, ", "", "", ""))
  {
    var pieces := Split("Acme, ", ',');
    SplitOfAcme();
    TrimOfSpace();
    TrimmedNonEmptySpec(pieces);
    assert pieces[1] in pieces;
  }

  lemma SplitOfAcme()
    ensures Split("Acme, ", ',') == ["Acme", " "]
  {
    assert "Acme, " == "Acme" + [','] + " ";
    SplitConcat("Acme", " ", ',');
    SplitNoSep("Acme", ',');
    SplitNoSep(" ", ',');
  }

  lemma TrimOfSpace()
    ensures Trim(" ") == ""
  {
  }

  /** How the data file is compressed. */
  datatype CompressionMethod = NoCompression | Gz

  /**
   * The extension dispatch of `Loader::load`: "csv" is read as is, "gz" is
   * decompressed, and anything else, or no extension, is an error carrying it.
   */
  function Load(extension: Option<string>): (r: Result<CompressionMethod, Option<string>>)
    ensures r.Ok? <==> extension == Some("csv") || extension == Some("gz")
    ensures r.Ok? ==> (r.value == Gz <==> extension == Some("gz"))
    ensures r.Err? ==> r.error == extension
  {
    match extension
    case Some("csv") => Ok(NoCompression)
    case Some("gz") => Ok(Gz)
    case _ => Err(extension)
  }
}
