/**
 * Reading the Wikidata dump: the file's extension chooses how it is
 * decompressed, and each line of the decompressed JSON array is handed to a
 * callback as one entity, with the array's brackets, separators and blank
 * lines skipped. Opening, seeking and decompressing the file are not part of
 * this model: the loader is given the decompressed lines, and the callback is
 * modelled by the list of strings it receives.
 */
module WikidataDump {
  import opened Wrappers

  /** `CompressionMethod`. */
  datatype CompressionMethod = NoCompression | Gz | Bz2

  /** `LoaderError`; the I/O variant carries only the path here. */
  datatype LoaderError = Io(path: string) | UnknownCompressionMethod(extension: Option<string>)

  /**
   * The extension dispatch of `Loader::load`: "json" and "jsonl" are read as
   * they are, "gz" and "bz2" decompressed, and any other extension, or none,
   * is an error that carries it.
   */
  function Load(extension: Option<string>): (r: Result<CompressionMethod, LoaderError>)
    ensures r.Ok? <==> extension in {Some("json"), Some("jsonl"), Some("gz"), Some("bz2")}
    ensures r.Ok? ==> (r.value == NoCompression <==> extension == Some("json") || extension == Some("jsonl"))
    ensures r.Ok? ==> (r.value == Gz <==> extension == Some("gz"))
    ensures r.Ok? ==> (r.value == Bz2 <==> extension == Some("bz2"))
    ensures r.Err? ==> r.error == UnknownCompressionMethod(extension)
  {
    match extension
    case Some("json") => Ok(NoCompression)
    case Some("jsonl") => Ok(NoCompression)
    case Some("gz") => Ok(Gz)
    case Some("bz2") => Ok(Bz2)
    case _ => Err(UnknownCompressionMethod(extension))
  }

  /** `should_ignore_line`: the array's brackets, a lone separator, and empty lines. */
  predicate ShouldIgnoreLine(line: string) {
    line == "," || line == "[" || line == "]" || line == ""
  }

  predicate EndsWithComma(line: string) {
    line != [] && line[|line| - 1] == ','
  }

  /** The entity text of a line: the line without one trailing ','. */
  function EntityText(line: string): (r: string)
    ensures r + (if EndsWithComma(line) then "," else "") == line
  {
    if EndsWithComma(line) then line[..|line| - 1] else line
  }

  /** The strings the callback receives for the lines, in order: one per line not ignored. */
  function Entities(lines: seq<string>): seq<string>
    decreases |lines|
  {
    if lines == [] then []
    else
      var last := lines[|lines| - 1];
      Entities(lines[..|lines| - 1]) + (if ShouldIgnoreLine(last) then [] else [EntityText(last)])
  }

  /** The number of lines that are not ignored. */
  function CountEntities(lines: seq<string>): nat
    decreases |lines|
  {
    if lines == [] then 0
    else CountEntities(lines[..|lines| - 1]) + (if ShouldIgnoreLine(lines[|lines| - 1]) then 0 else 1)
  }

  /** The callback never receives an empty string, nor a separator left behind by a lone ','. */
  lemma EntityTextOfKeptLine(line: string)
    requires !ShouldIgnoreLine(line)
    ensures EntityText(line) != []
  {
  }

  /**
   * One entity per kept line, none empty, and each is its line with at most
   * one trailing ',' removed.
   */
  lemma {:induction false} EntitiesSpec(lines: seq<string>)
    ensures |Entities(lines)| == CountEntities(lines) <= |lines|
    ensures forall e :: e in Entities(lines) ==> e != []
    ensures forall e :: e in Entities(lines) <==> exists l :: l in lines && !ShouldIgnoreLine(l) && e == EntityText(l)
    decreases |lines|
  {
    if lines != [] {
      var init := lines[..|lines| - 1];
      var last := lines[|lines| - 1];
      EntitiesSpec(init);
      assert lines == init + [last];
      if !ShouldIgnoreLine(last) {
        EntityTextOfKeptLine(last);
      }
      forall e | e in Entities(lines)
        ensures exists l :: l in lines && !ShouldIgnoreLine(l) && e == EntityText(l)
      {
        if e in Entities(init) {
          var l :| l in init && !ShouldIgnoreLine(l) && e == EntityText(l);
          assert l in lines;
        } else {
          assert last in lines;
        }
      }
      forall e | exists l :: l in lines && !ShouldIgnoreLine(l) && e == EntityText(l)
        ensures e in Entities(lines)
      {
        var l :| l in lines && !ShouldIgnoreLine(l) && e == EntityText(l);
        if l != last {
          assert l in init;
        }
      }
    }
  }

  /** `Loader`: the compression method chosen on load, and what the callback has received. */
  class Loader {
    const compressionMethod: CompressionMethod
    var received: seq<string>

    /** `Loader::load`, once the file is open: nothing has been handed out yet. */
    constructor (compressionMethod: CompressionMethod)
      ensures this.compressionMethod == compressionMethod && received == []
    {
      this.compressionMethod := compressionMethod;
      received := [];
    }

    /**
     * `handle_line`: an ignored line counts 0 and the callback is not called;
     * any other line calls it once with the entity text and counts 1.
     */
    method HandleLine(line: string) returns (n: nat)
      modifies this
      ensures ShouldIgnoreLine(line) ==> n == 0 && received == old(received)
      ensures !ShouldIgnoreLine(line) ==> n == 1 && received == old(received) + [EntityText(line)]
    {
      if line == "," || line == "[" || line == "]" || line == "" {
        return 0;
      }
      var jsonStr := if |line| > 0 && line[|line| - 1] == ',' then line[..|line| - 1] else line;
      received := received + [jsonStr];
      return 1;
    }

    /**
     * `run`: every decompressed line is handled in order; the result is the
     * number of callback calls, whichever compression the file uses.
     */
    method Run(lines: seq<string>) returns (entries: nat)
      modifies this
      ensures received == old(received) + Entities(lines)
      ensures entries == |Entities(lines)|
    {
      entries := 0;
      var i := 0;
      while i < |lines|
        invariant 0 <= i <= |lines|
        invariant received == old(received) + Entities(lines[..i])
        invariant entries == |Entities(lines[..i])|
      {
        assert lines[..i + 1][..i] == lines[..i];
        var n := HandleLine(lines[i]);
        entries := entries + n;
        i := i + 1;
      }
      assert lines[..i] == lines;
    }
  }
}
