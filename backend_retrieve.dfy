/**
 * The backend's retriever, without its bucket reads: category names travel
 * in URLs with '.' where the database writes '/', a category's children and
 * ancestors are listed as short entries, and a text query is cut into
 * tokens that decide which lookups are made.
 */
module BackendRetrieve {
  import opened Wrappers
  import opened Text

  /** How the database separates the levels of a category. */
  const CATEGORY_DBID_SEPARATOR: char := '/'

  /** How URLs separate the levels of a category. */
  const CATEGORY_PARAM_SEPARATOR: char := '.'

  /** A single numeric token shorter than this is looked up as a GTIN. */
  const GTIN_TOKEN_LIMIT: nat := 15

  /** `api::CategoryShort`: the category id in URL form and, as `text`, the label of its last level. */
  datatype CategoryShort = CategoryShort(id: string, text: string)

  // ---------------------------------------------------------------------
  // Category parameters

  /** `decode_category_param`: every '.' becomes '/'. */
  function DecodeCategoryParam(param: string): (r: string)
    ensures |r| == |param| && CATEGORY_PARAM_SEPARATOR !in r
  {
    ReplaceChar(param, CATEGORY_PARAM_SEPARATOR, CATEGORY_DBID_SEPARATOR)
  }

  /** `encode_category_param`: every '/' becomes '.'. */
  function EncodeCategoryParam(param: string): (r: string)
    ensures |r| == |param| && CATEGORY_DBID_SEPARATOR !in r
  {
    ReplaceChar(param, CATEGORY_DBID_SEPARATOR, CATEGORY_PARAM_SEPARATOR)
  }

  /** Each undoes the other on the texts the other produces. */
  lemma CategoryParamRoundTrip(s: string)
    ensures CATEGORY_PARAM_SEPARATOR !in s ==> DecodeCategoryParam(EncodeCategoryParam(s)) == s
    ensures CATEGORY_DBID_SEPARATOR !in s ==> EncodeCategoryParam(DecodeCategoryParam(s)) == s
  {
    if CATEGORY_PARAM_SEPARATOR !in s {
      var r := DecodeCategoryParam(EncodeCategoryParam(s));
      forall i | 0 <= i < |s| ensures r[i] == s[i] {
        assert s[i] != CATEGORY_PARAM_SEPARATOR;
      }
    }
    if CATEGORY_DBID_SEPARATOR !in s {
      var r := EncodeCategoryParam(DecodeCategoryParam(s));
      forall i | 0 <= i < |s| ensures r[i] == s[i] {
        assert s[i] != CATEGORY_DBID_SEPARATOR;
      }
    }
  }

  // ---------------------------------------------------------------------
  // Sub- and supercategories

  /** The id of a child: the part alone under the root, else joined to the parent with '.'. */
  function SubcategoryId(name: string, part: string): string {
    if name == [] then part else name + [CATEGORY_PARAM_SEPARATOR] + part
  }

  /** `prepare_subcategories`: one entry per child, in order. */
  function PrepareSubcategories(name: string, subcategories: seq<string>): (r: seq<CategoryShort>)
    ensures |r| == |subcategories|
    ensures forall i :: 0 <= i < |r| ==>
      r[i].text == subcategories[i] && r[i].id == SubcategoryId(name, subcategories[i])
  {
    seq(|subcategories|, i requires 0 <= i < |subcategories| =>
      CategoryShort(SubcategoryId(name, subcategories[i]), subcategories[i]))
  }

  /** One step of the buffer of `prepare_supercategories`: '.' only after a non-empty buffer. */
  function Extend(buffer: string, part: string): string {
    (if buffer != [] then buffer + [CATEGORY_PARAM_SEPARATOR] else buffer) + part
  }

  /** The buffer after the given parts. */
  function Buffer(parts: seq<string>): string
    decreases |parts|
  {
    if parts == [] then [] else Extend(Buffer(parts[..|parts| - 1]), parts[|parts| - 1])
  }

  /** The entries for the given levels: one per level, with the buffer so far as id. */
  function Entries(parts: seq<string>): seq<CategoryShort>
    decreases |parts|
  {
    if parts == [] then []
    else Entries(parts[..|parts| - 1]) + [CategoryShort(Buffer(parts), parts[|parts| - 1])]
  }

  /** What `prepare_supercategories` lists: nothing for the root, else an entry per level. */
  function Supercategories(name: string): seq<CategoryShort> {
    if name == [] then [] else Entries(Split(name, CATEGORY_PARAM_SEPARATOR))
  }

  /** `prepare_supercategories`. */
  method PrepareSupercategories(name: string) returns (r: seq<CategoryShort>)
    ensures r == Supercategories(name)
  {
    if name == [] {
      return [];
    }
    var parts := Split(name, CATEGORY_PARAM_SEPARATOR);
    var buffer := "";
    r := [];
    var i := 0;
    while i < |parts|
      invariant 0 <= i <= |parts|
      invariant buffer == Buffer(parts[..i])
      invariant r == Entries(parts[..i])
    {
      if buffer != [] {
        buffer := buffer + [CATEGORY_PARAM_SEPARATOR];
      }
      buffer := buffer + parts[i];
      assert parts[..i + 1][..i] == parts[..i];
      r := r + [CategoryShort(buffer, parts[i])];
      i := i + 1;
    }
    assert parts[..i] == parts;
  }

  /** Entry `i` names level `i`, with the buffer of the first `i + 1` levels as id. */
  lemma {:induction false} EntriesSpec(parts: seq<string>)
    ensures |Entries(parts)| == |parts|
    ensures forall i :: 0 <= i < |parts| ==>
      Entries(parts)[i] == CategoryShort(Buffer(parts[..i + 1]), parts[i])
    decreases |parts|
  {
    if parts != [] {
      var init := parts[..|parts| - 1];
      EntriesSpec(init);
      forall i | 0 <= i < |init|
        ensures Entries(parts)[i] == CategoryShort(Buffer(parts[..i + 1]), parts[i])
      {
        assert init[..i + 1] == parts[..i + 1];
      }
      assert parts[..|parts|] == parts;
    }
  }

  /** A name that does not start with '.' has a non-empty first level. */
  lemma FirstPartNonEmpty(name: string)
    requires name != [] && name[0] != CATEGORY_PARAM_SEPARATOR
    ensures Split(name, CATEGORY_PARAM_SEPARATOR)[0] != []
  {
  }

  /** With a non-empty first part, the buffer is the parts joined with '.'. */
  lemma {:induction false} BufferIsJoin(parts: seq<string>, k: nat)
    requires 1 <= k <= |parts| && parts[0] != []
    ensures Buffer(parts[..k]) == Join(parts[..k], CATEGORY_PARAM_SEPARATOR)
    ensures Buffer(parts[..k]) != []
  {
    if k == 1 {
      assert parts[..1][..0] == [];
      assert Buffer(parts[..1]) == parts[0];
    } else {
      BufferIsJoin(parts, k - 1);
      assert parts[..k][..k - 1] == parts[..k - 1];
      JoinAppend(parts[..k - 1], [parts[k - 1]], CATEGORY_PARAM_SEPARATOR);
      assert parts[..k - 1] + [parts[k - 1]] == parts[..k];
    }
  }

  /**
   * For a name not starting with '.', the entries name the levels in order,
   * each id being the levels so far joined with '.', and the last id being
   * the name itself.
   */
  lemma SupercategoriesSpec(name: string)
    requires name != [] && name[0] != CATEGORY_PARAM_SEPARATOR
    ensures var parts := Split(name, CATEGORY_PARAM_SEPARATOR);
      var r := Supercategories(name);
      && |r| == |parts| == Count(name, CATEGORY_PARAM_SEPARATOR) + 1
      && (forall i :: 0 <= i < |r| ==> r[i].text == parts[i] && r[i].id == Join(parts[..i + 1], CATEGORY_PARAM_SEPARATOR))
      && r[|r| - 1].id == name
  {
    var parts := Split(name, CATEGORY_PARAM_SEPARATOR);
    FirstPartNonEmpty(name);
    JoinSplit(name, CATEGORY_PARAM_SEPARATOR);
    EntriesSpec(parts);
    var r := Supercategories(name);
    forall i | 0 <= i < |r| ensures r[i].id == Join(parts[..i + 1], CATEGORY_PARAM_SEPARATOR) {
      BufferIsJoin(parts, i + 1);
    }
    assert parts[..|parts|] == parts;
  }

  /** The root has no supercategories. */
  lemma RootSupercategories()
    ensures Supercategories("") == []
  {
  }

  /**
   * A child's supercategories are its parent's followed by the child's own
   * entry, exactly as `prepare_subcategories` describes the child.
   */
  lemma SubcategoryExtendsSupercategories(name: string, part: string)
    requires name == [] || name[0] != CATEGORY_PARAM_SEPARATOR
    requires part != [] && CATEGORY_PARAM_SEPARATOR !in part
    ensures Supercategories(SubcategoryId(name, part))
            == Supercategories(name) + [CategoryShort(SubcategoryId(name, part), part)]
  {
    SplitNoSep(part, CATEGORY_PARAM_SEPARATOR);
    if name == [] {
      assert [part][..0] == [];
      assert Buffer([part]) == part;
      assert Entries([part]) == Entries([]) + [CategoryShort(part, part)];
    } else {
      ChildEntries(name, part);
    }
  }

  /** The step of the lemma above below a non-root parent. */
  lemma ChildEntries(name: string, part: string)
    requires name != [] && name[0] != CATEGORY_PARAM_SEPARATOR
    requires CATEGORY_PARAM_SEPARATOR !in part && Split(part, CATEGORY_PARAM_SEPARATOR) == [part]
    ensures Entries(Split(name + [CATEGORY_PARAM_SEPARATOR] + part, CATEGORY_PARAM_SEPARATOR))
            == Entries(Split(name, CATEGORY_PARAM_SEPARATOR)) + [CategoryShort(name + [CATEGORY_PARAM_SEPARATOR] + part, part)]
  {
    var parts := Split(name, CATEGORY_PARAM_SEPARATOR);
    SplitConcat(name, part, CATEGORY_PARAM_SEPARATOR);
    var parts' := parts + [part];
    assert parts'[..|parts'| - 1] == parts;
    FirstPartNonEmpty(name);
    BufferIsJoin(parts, |parts|);
    JoinSplit(name, CATEGORY_PARAM_SEPARATOR);
    assert parts[..|parts|] == parts;
    assert Buffer(parts') == Extend(name, part);
  }

  /** A top-level category is its own only supercategory. */
  lemma TopSupercategories(top: string)
    requires top != [] && CATEGORY_PARAM_SEPARATOR !in top
    ensures Supercategories(top) == [CategoryShort(top, top)]
  {
    SubcategoryExtendsSupercategories("", top);
  }

  /** A three-level category lists its three levels, each with the levels so far as id. */
  lemma ThreeLevelSupercategories(a: string, b: string, c: string)
    requires a != [] && b != [] && c != []
    requires CATEGORY_PARAM_SEPARATOR !in a && CATEGORY_PARAM_SEPARATOR !in b && CATEGORY_PARAM_SEPARATOR !in c
    ensures var ab := a + [CATEGORY_PARAM_SEPARATOR] + b;
      Supercategories(ab + [CATEGORY_PARAM_SEPARATOR] + c)
      == [CategoryShort(a, a), CategoryShort(ab, b), CategoryShort(ab + [CATEGORY_PARAM_SEPARATOR] + c, c)]
  {
    TopSupercategories(a);
    SubcategoryExtendsSupercategories(a, b);
    SubcategoryExtendsSupercategories(a + [CATEGORY_PARAM_SEPARATOR] + b, c);
  }

  // ---------------------------------------------------------------------
  // Text search

  /** The tokens of a query: the pieces between spaces, without empty ones. */
  function Tokens(query: string): (r: seq<string>)
    ensures forall i :: 0 <= i < |r| ==> r[i] != [] && ' ' !in r[i]
  {
    var pieces := Split(query, ' ');
    assert forall p :: p in pieces ==> ' ' !in p;
    NonEmpty(pieces)
  }

  /** The bucket reads a text search makes. */
  datatype Lookup =
    | ProductsByGtin(number: nat, token: string)
    | OrganisationsByToken(token: string)
    | OrganisationsByKeyword(keyword: string, index: nat)
    | ProductsByKeyword(keyword: string, index: nat)

  /** The direct lookup of a single-token query, if any. */
  function DirectLookup(tokens: seq<string>): seq<Lookup> {
    if |tokens| != 1 then []
    else
      match ParseU64(tokens[0])
      case Ok(number) => if |tokens[0]| < GTIN_TOKEN_LIMIT then [ProductsByGtin(number, ToLower(tokens[0]))] else []
      case Err(_) => [OrganisationsByToken(tokens[0])]
  }

  /** The keyword lookups: every keyword for organisations, then every keyword for products. */
  method KeywordLookups(keywords: seq<string>) returns (lookups: seq<Lookup>)
    ensures |lookups| == 2 * |keywords|
    ensures forall i :: 0 <= i < |keywords| ==> lookups[i] == OrganisationsByKeyword(keywords[i], i)
    ensures forall i :: 0 <= i < |keywords| ==> lookups[|keywords| + i] == ProductsByKeyword(keywords[i], i)
  {
    lookups := [];
    var i := 0;
    while i < |keywords|
      invariant 0 <= i <= |keywords|
      invariant |lookups| == i
      invariant forall j :: 0 <= j < i ==> lookups[j] == OrganisationsByKeyword(keywords[j], j)
    {
      lookups := lookups + [OrganisationsByKeyword(keywords[i], i)];
      i := i + 1;
    }
    i := 0;
    while i < |keywords|
      invariant 0 <= i <= |keywords|
      invariant |lookups| == |keywords| + i
      invariant forall j :: 0 <= j < |keywords| ==> lookups[j] == OrganisationsByKeyword(keywords[j], j)
      invariant forall j :: 0 <= j < i ==> lookups[|keywords| + j] == ProductsByKeyword(keywords[j], j)
    {
      lookups := lookups + [ProductsByKeyword(keywords[i], i)];
      i := i + 1;
    }
  }

  /**
   * `search_by_text`, as the lookups it makes in order: a single token is
   * first tried as a GTIN (when numeric and short) or as a VAT number or
   * domain (when not numeric); then every lower-cased token is a keyword
   * for organisations, and then for products, with its position as index.
   */
  method SearchByText(query: string) returns (lookups: seq<Lookup>)
    ensures var tokens := Tokens(query);
      var d := |DirectLookup(tokens)|;
      && |lookups| == d + 2 * |tokens|
      && lookups[..d] == DirectLookup(tokens)
      && (forall i :: 0 <= i < |tokens| ==> lookups[d + i] == OrganisationsByKeyword(ToLower(tokens[i]), i))
      && (forall i :: 0 <= i < |tokens| ==> lookups[d + |tokens| + i] == ProductsByKeyword(ToLower(tokens[i]), i))
  {
    var tokens := Tokens(query);
    var direct := [];
    if |tokens| == 1 {
      var token := tokens[0];
      var number := ParseU64(token);
      if number.Ok? {
        if |token| < GTIN_TOKEN_LIMIT {
          direct := [ProductsByGtin(number.value, ToLower(token))];
        }
      } else {
        direct := [OrganisationsByToken(token)];
      }
    }
    assert direct == DirectLookup(tokens);
    var keywords := seq(|tokens|, i requires 0 <= i < |tokens| => ToLower(tokens[i]));
    var byKeyword := KeywordLookups(keywords);
    lookups := direct + byKeyword;
    assert lookups[..|direct|] == direct;
  }

  /** Every keyword looked up is lower-case and non-empty. */
  lemma KeywordsAreLowerAndNonEmpty(query: string, i: nat)
    requires i < |Tokens(query)|
    ensures var k := ToLower(Tokens(query)[i]); IsLower(k) && k != []
  {
    ToLowerIdempotent(Tokens(query)[i]);
  }
}
