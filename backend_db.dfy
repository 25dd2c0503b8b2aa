/**
 * The backend's query builder: an AQL query text grown line by line, with
 * the variables bound to it, and the one query whose text depends on its
 * arguments, the search for a product's alternatives. Running a query
 * against the database is not part of this model.
 */
module BackendDb {
  import opened Wrappers
  import opened Text

  const DB_NAME: string := "sustainity"

  const NEWLINE: char := '\n'

  /** A bound value; every query of the backend binds strings. */
  datatype Value = StringValue(text: string)

  /** The text of the given lines, each followed by one newline. */
  function Lines(lines: seq<string>): string
    decreases |lines|
  {
    if lines == [] then [] else Lines(lines[..|lines| - 1]) + lines[|lines| - 1] + [NEWLINE]
  }

  /** The lines' text is the lines and a final empty piece, joined with newlines. */
  lemma {:induction false} LinesAreJoined(lines: seq<string>)
    ensures Lines(lines) == Join(lines + [[]], NEWLINE)
    decreases |lines|
  {
    if lines != [] {
      var init := lines[..|lines| - 1];
      var last := lines[|lines| - 1];
      LinesAreJoined(init);
      if init == [] {
        assert lines + [[]] == [last, []];
      } else {
        JoinAppend(init, [last, []], NEWLINE);
        JoinAppend(init, [[]], NEWLINE);
        assert init + [last, []] == lines + [[]];
        assert Join([last, []], NEWLINE) == last + [NEWLINE];
      }
    }
  }

  /** Lines without newlines are read back from the text one by one, with an empty rest. */
  lemma LinesSplit(lines: seq<string>)
    requires forall i :: 0 <= i < |lines| ==> NEWLINE !in lines[i]
    ensures Split(Lines(lines), NEWLINE) == lines + [[]]
  {
    LinesAreJoined(lines);
    SplitJoin(lines + [[]], NEWLINE);
  }

  /** `Query`: the database name, the text written so far and the bound variables. */
  class Query {
    var dbName: string
    var query: string
    var vars: map<string, Value>
    /** The lines written so far, in order. */
    ghost var lines: seq<string>

    ghost predicate Valid()
      reads this
    {
      query == Lines(lines)
    }

    /** `Query::builder`: no text and no variables. */
    constructor Builder(dbName: string)
      ensures Valid()
      ensures this.dbName == dbName && query == [] && vars == map[] && lines == []
    {
      this.dbName := dbName;
      query := [];
      vars := map[];
      lines := [];
    }

    /** `get_query`: the lines written, each ended by a newline. */
    function GetQuery(): (r: string)
      reads this
      requires Valid()
      ensures r == Lines(lines)
    {
      query
    }

    /** `line`: appends the line and one newline. */
    method Line(l: string)
      requires Valid()
      modifies this
      ensures Valid()
      ensures query == old(query) + l + [NEWLINE] && lines == old(lines) + [l]
      ensures dbName == old(dbName) && vars == old(vars)
    {
      query := query + l + [NEWLINE];
      lines := lines + [l];
      assert lines[..|lines| - 1] == old(lines);
    }

    /** `cond`: appends the line only when the condition holds. */
    method Cond(l: string, cond: bool)
      requires Valid()
      modifies this
      ensures Valid()
      ensures lines == old(lines) + (if cond then [l] else [])
      ensures dbName == old(dbName) && vars == old(vars)
    {
      if cond {
        Line(l);
      }
    }

    /** `bind`: sets the variable, replacing an earlier value. */
    method Bind(from: string, to: Value)
      modifies this
      ensures vars == old(vars)[from := to]
      ensures dbName == old(dbName) && query == old(query) && lines == old(lines)
    {
      vars := vars[from := to];
    }

    /** `bond`: binds the variable only when there is a value. */
    method Bond(from: string, to: Option<Value>)
      modifies this
      ensures vars == (if to.Some? then old(vars)[from := to.value] else old(vars))
      ensures dbName == old(dbName) && query == old(query) && lines == old(lines)
    {
      if to.Some? {
        Bind(from, to.value);
      }
    }
  }

  // ---------------------------------------------------------------------
  // The alternatives query

  const REGION_FILTER: string := "        FILTER p.regions.variant == \"all\""
  const REGION_MEMBER: string := "            OR @region_code IN p.regions.content"

  const ALTERNATIVES_HEAD: seq<string> := [
    "WITH categories, products, category_edges",
    "FOR c IN categories",
    "    FILTER c._key == @category",
    "    FOR p IN 1..1 OUTBOUND c category_edges",
    "        FILTER p._key != @id"
  ]

  const ALTERNATIVES_TAIL: seq<string> := [
    "        LET score",
    "          = (@id IN p.follows)",
    "          + 0.90 * (p.certifications.bcorp != null)",
    "          + 0.90 * (p.certifications.eu_ecolabel != null)",
    "          + 0.60 * 0.01 * p.certifications.fti.score",
    "          + 0.30 * (p.certifications.tco != null)",
    "        LET randomized_score = score + 0.01 * RAND()",
    "        SORT randomized_score DESC",
    "        LIMIT 10",
    "        RETURN p"
  ]

  /** The lines of the alternatives query: the region filter only for a region. */
  function AlternativesLines(byRegion: bool): seq<string> {
    ALTERNATIVES_HEAD + (if byRegion then [REGION_FILTER, REGION_MEMBER] else []) + ALTERNATIVES_TAIL
  }

  /** The variables of the alternatives query. */
  function AlternativesVars(id: string, category: string, regionCode: Option<string>): map<string, Value> {
    var vars := map["id" := StringValue(id), "category" := StringValue(category)];
    if regionCode.Some? then vars["region_code" := StringValue(regionCode.value)] else vars
  }

  /** Writes the lines one after another, as a chain of `line` calls does. */
  method WriteLines(q: Query, ls: seq<string>)
    requires q.Valid()
    modifies q
    ensures q.Valid()
    ensures q.lines == old(q.lines) + ls
    ensures q.dbName == old(q.dbName) && q.vars == old(q.vars)
  {
    var i := 0;
    while i < |ls|
      invariant 0 <= i <= |ls|
      invariant q.Valid() && q.dbName == old(q.dbName) && q.vars == old(q.vars)
      invariant q.lines == old(q.lines) + ls[..i]
    {
      q.Line(ls[i]);
      assert ls[..i + 1] == ls[..i] + [ls[i]];
      i := i + 1;
    }
    assert ls[..i] == ls;
  }

  /** The query `find_product_alternatives` runs. */
  method AlternativesQuery(id: string, category: string, regionCode: Option<string>) returns (q: Query)
    ensures fresh(q) && q.Valid()
    ensures q.dbName == DB_NAME
    ensures q.lines == AlternativesLines(regionCode.Some?)
    ensures q.vars == AlternativesVars(id, category, regionCode)
  {
    var r := regionCode.Some?;
    q := new Query.Builder(DB_NAME);
    WriteLines(q, ALTERNATIVES_HEAD);
    q.Cond(REGION_FILTER, r);
    q.Cond(REGION_MEMBER, r);
    WriteLines(q, ALTERNATIVES_TAIL);
    q.Bind("id", StringValue(id));
    q.Bind("category", StringValue(category));
    var code := if r then Some(StringValue(regionCode.value)) else None;
    q.Bond("region_code", code);
  }

  /**
   * The region filter is in the query, and the region code bound, exactly
   * when a region is asked for; the id and the category are always bound.
   */
  lemma AlternativesRegionFilter(id: string, category: string, regionCode: Option<string>)
    ensures REGION_FILTER in AlternativesLines(regionCode.Some?) <==> regionCode.Some?
    ensures REGION_MEMBER in AlternativesLines(regionCode.Some?) <==> regionCode.Some?
    ensures "region_code" in AlternativesVars(id, category, regionCode) <==> regionCode.Some?
    ensures regionCode.Some? ==> AlternativesVars(id, category, regionCode)["region_code"] == StringValue(regionCode.value)
    ensures AlternativesVars(id, category, regionCode)["id"] == StringValue(id)
    ensures AlternativesVars(id, category, regionCode)["category"] == StringValue(category)
    ensures |AlternativesLines(regionCode.Some?)| == |ALTERNATIVES_HEAD| + |ALTERNATIVES_TAIL| + (if regionCode.Some? then 2 else 0)
  {
    assert "region_code" != "id" && "region_code" != "category";
    assert REGION_FILTER != ALTERNATIVES_HEAD[0] by {
      assert REGION_FILTER[0] != ALTERNATIVES_HEAD[0][0];
    }
  }
}
