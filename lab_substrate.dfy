/**
 * Substrate files of the lab crate: each file of the substrate directory
 * gets a data-set id equal to its position, a name (its file stem) and the
 * source that stem names.
 */
module LabSubstrate {
  import opened Wrappers
  import opened ModelsModels

  /** `DataSetId`. */
  type DataSetId = nat

  datatype Substrate = Substrate(id: DataSetId, path: string, name: string, source: Source)

  /** The file stem of a directory entry, as far as `prepare` cares. */
  datatype Stem = NoStem | NotUnicode | Unicode(text: string)

  /** A directory entry: its path, whether it is a regular file, and its stem. */
  datatype DirEntry = DirEntry(path: string, isFile: bool, stem: Stem)

  /** `SubstratesReport`: the paths that could not be used. */
  class SubstratesReport {
    var noStem: set<string>
    var notUnicode: set<string>

    constructor ()
      ensures noStem == {} && notUnicode == {}
    {
      noStem := {};
      notUnicode := {};
    }

    /** `add_no_file_stem`. */
    method AddNoFileStem(path: string)
      modifies this
      ensures noStem == old(noStem) + {path} && notUnicode == old(notUnicode)
    {
      noStem := noStem + {path};
    }

    /** `add_path_not_unicode`. */
    method AddPathNotUnicode(path: string)
      modifies this
      ensures notUnicode == old(notUnicode) + {path} && noStem == old(noStem)
    {
      notUnicode := notUnicode + {path};
    }
  }

  /** The entries `prepare` turns into substrates: files with a Unicode stem, in order. */
  function Usable(entries: seq<DirEntry>): (r: seq<DirEntry>)
    ensures forall i :: 0 <= i < |r| ==> r[i].isFile && r[i].stem.Unicode?
  {
    if entries == [] then []
    else
      var last := entries[|entries| - 1];
      Usable(entries[..|entries| - 1]) + (if last.isFile && last.stem.Unicode? then [last] else [])
  }

  /** The usable entries are the files with a Unicode stem, in order, and no more. */
  lemma {:induction false} UsableSpec(entries: seq<DirEntry>)
    ensures forall d :: d in Usable(entries) <==> d in entries && d.isFile && d.stem.Unicode?
    ensures |Usable(entries)| <= |entries|
  {
    if entries != [] {
      var init := entries[..|entries| - 1];
      UsableSpec(init);
      assert entries == init + [entries[|entries| - 1]];
    }
  }

  /** The substrate `prepare` makes of a usable entry at position `i`. */
  function ToSubstrate(d: DirEntry, i: nat): Substrate
    requires d.stem.Unicode?
  {
    Substrate(i, d.path, d.stem.text, FromStem(d.stem.text))
  }

  /** The paths of the files whose stem satisfies `p`. */
  function PathsWhere(entries: seq<DirEntry>, p: Stem -> bool): set<string> {
    if entries == [] then {}
    else
      var last := entries[|entries| - 1];
      PathsWhere(entries[..|entries| - 1], p) + (if last.isFile && p(last.stem) then {last.path} else {})
  }

  /** A path is reported iff some file with a matching stem has it. */
  lemma {:induction false} PathsWhereSpec(entries: seq<DirEntry>, p: Stem -> bool)
    ensures forall path :: path in PathsWhere(entries, p) <==>
      exists d :: d in entries && d.isFile && p(d.stem) && d.path == path
  {
    if entries != [] {
      var init := entries[..|entries| - 1];
      PathsWhereSpec(init, p);
      assert entries == init + [entries[|entries| - 1]];
    }
  }

  /** The paths of the files without a stem. */
  function NoStemPaths(entries: seq<DirEntry>): set<string> {
    PathsWhere(entries, (s: Stem) => s.NoStem?)
  }

  /** The paths of the files whose stem is not Unicode. */
  function NotUnicodePaths(entries: seq<DirEntry>): set<string> {
    PathsWhere(entries, (s: Stem) => s.NotUnicode?)
  }

  /** One more entry extends each of the three outcomes of `prepare` by at most that entry. */
  lemma PrepareStep(entries: seq<DirEntry>, k: nat)
    requires k < |entries|
    ensures var d := entries[k];
      && Usable(entries[..k + 1]) == Usable(entries[..k]) + (if d.isFile && d.stem.Unicode? then [d] else [])
      && NoStemPaths(entries[..k + 1]) == NoStemPaths(entries[..k]) + (if d.isFile && d.stem.NoStem? then {d.path} else {})
      && NotUnicodePaths(entries[..k + 1]) == NotUnicodePaths(entries[..k]) + (if d.isFile && d.stem.NotUnicode? then {d.path} else {})
  {
    assert entries[..k + 1][..k] == entries[..k];
  }

  /**
   * `Substrates::prepare` over the listed directory entries: every usable
   * entry becomes a substrate whose id is its position in the list, and the
   * other files are reported. Directories are skipped silently.
   */
  method Prepare(entries: seq<DirEntry>) returns (list: seq<Substrate>, report: SubstratesReport)
    ensures fresh(report)
    ensures |list| == |Usable(entries)|
    ensures forall i :: 0 <= i < |list| ==> list[i] == ToSubstrate(Usable(entries)[i], i)
    ensures report.noStem == NoStemPaths(entries) && report.notUnicode == NotUnicodePaths(entries)
  {
    report := new SubstratesReport();
    list := [];
    ghost var usable: seq<DirEntry> := [];
    var k := 0;
    while k < |entries|
      invariant 0 <= k <= |entries|
      invariant usable == Usable(entries[..k])
      invariant |list| == |usable|
      invariant forall i :: 0 <= i < |list| ==> list[i] == ToSubstrate(usable[i], i)
      invariant report.noStem == NoStemPaths(entries[..k]) && report.notUnicode == NotUnicodePaths(entries[..k])
    {
      var entry := entries[k];
      PrepareStep(entries, k);
      if entry.isFile {
        match entry.stem
        case Unicode(stem) =>
          list := list + [Substrate(|list|, entry.path, stem, FromStem(stem))];
          usable := usable + [entry];
        case NotUnicode =>
          report.AddPathNotUnicode(entry.path);
        case NoStem =>
          report.AddNoFileStem(entry.path);
      }
      k := k + 1;
    }
    assert entries[..k] == entries;
  }

  /** The first substrate with the given id, if any. */
  function FindById(list: seq<Substrate>, id: DataSetId): Option<Substrate> {
    if list == [] then None
    else if list[0].id == id then Some(list[0])
    else FindById(list[1..], id)
  }

  /** Found iff some substrate matches, and then it is the first one that does. */
  lemma {:induction false} FindByIdSpec(list: seq<Substrate>, id: DataSetId)
    ensures FindById(list, id).Some? <==> exists i :: 0 <= i < |list| && list[i].id == id
    ensures FindById(list, id).Some? ==>
      exists i :: 0 <= i < |list| && list[i] == FindById(list, id).value && list[i].id == id
        && forall j :: 0 <= j < i ==> list[j].id != id
  {
    if list != [] && list[0].id != id {
      FindByIdSpec(list[1..], id);
      if FindById(list, id).Some? {
        var i :| 0 <= i < |list[1..]| && list[1..][i] == FindById(list, id).value && list[1..][i].id == id
                 && forall j :: 0 <= j < i ==> list[1..][j].id != id;
        assert list[i + 1] == FindById(list, id).value;
      }
      if exists i :: 0 <= i < |list| && list[i].id == id {
        var i :| 0 <= i < |list| && list[i].id == id;
        assert list[1..][i - 1].id == id;
      }
    }
  }


  /** `get_name_for_id` as a value. */
  function NameForId(list: seq<Substrate>, id: DataSetId): Option<string> {
    match FindById(list, id)
    case None => None
    case Some(s) => Some(s.name)
  }

  /** The first substrate with the given name, if any. */
  function FindByName(list: seq<Substrate>, name: string): Option<Substrate> {
    if list == [] then None
    else if list[0].name == name then Some(list[0])
    else FindByName(list[1..], name)
  }

  /** Found iff some substrate matches, and then it is the first one that does. */
  lemma {:induction false} FindByNameSpec(list: seq<Substrate>, name: string)
    ensures FindByName(list, name).Some? <==> exists i :: 0 <= i < |list| && list[i].name == name
    ensures FindByName(list, name).Some? ==>
      exists i :: 0 <= i < |list| && list[i] == FindByName(list, name).value && list[i].name == name
        && forall j :: 0 <= j < i ==> list[j].name != name
  {
    if list != [] && list[0].name != name {
      FindByNameSpec(list[1..], name);
      if FindByName(list, name).Some? {
        var i :| 0 <= i < |list[1..]| && list[1..][i] == FindByName(list, name).value && list[1..][i].name == name
                 && forall j :: 0 <= j < i ==> list[1..][j].name != name;
        assert list[i + 1] == FindByName(list, name).value;
      }
      if exists i :: 0 <= i < |list| && list[i].name == name {
        var i :| 0 <= i < |list| && list[i].name == name;
        assert list[1..][i - 1].name == name;
      }
    }
  }


  /** `get_id_for_name` as a value. */
  function IdForName(list: seq<Substrate>, name: string): Option<DataSetId> {
    match FindByName(list, name)
    case None => None
    case Some(s) => Some(s.id)
  }

  /** `Substrates::get_path_for_id`: the path of the first substrate with the id. */
  method GetPathForId(list: seq<Substrate>, id: DataSetId) returns (r: Option<string>)
    ensures r.Some? <==> FindById(list, id).Some?
    ensures r.Some? ==> r.value == FindById(list, id).value.path
  {
    var i := 0;
    while i < |list|
      invariant 0 <= i <= |list|
      invariant FindById(list, id) == FindById(list[i..], id)
    {
      assert list[i..][1..] == list[i + 1..];
      if list[i].id == id {
        return Some(list[i].path);
      }
      i := i + 1;
    }
    return None;
  }

  /** `Substrates::get_name_for_id`: the name of the first substrate with the id. */
  method GetNameForId(list: seq<Substrate>, id: DataSetId) returns (r: Option<string>)
    ensures r == NameForId(list, id)
  {
    var i := 0;
    while i < |list|
      invariant 0 <= i <= |list|
      invariant FindById(list, id) == FindById(list[i..], id)
    {
      assert list[i..][1..] == list[i + 1..];
      if list[i].id == id {
        return Some(list[i].name);
      }
      i := i + 1;
    }
    return None;
  }

  /** `Substrates::get_id_for_name`: the id of the first substrate with the name. */
  method GetIdForName(list: seq<Substrate>, name: string) returns (r: Option<DataSetId>)
    ensures r == IdForName(list, name)
  {
    var i := 0;
    while i < |list|
      invariant 0 <= i <= |list|
      invariant FindByName(list, name) == FindByName(list[i..], name)
    {
      assert list[i..][1..] == list[i + 1..];
      if list[i].name == name {
        return Some(list[i].id);
      }
      i := i + 1;
    }
    return None;
  }

  /** Ids are positions, as `prepare` assigns them. */
  ghost predicate Positional(list: seq<Substrate>) {
    forall i :: 0 <= i < |list| ==> list[i].id == i
  }

  /** With positional ids, the id `i` names the `i`-th substrate, and no other id is known. */
  lemma PositionalLookup(list: seq<Substrate>, i: nat)
    requires Positional(list)
    ensures i < |list| ==> NameForId(list, i) == Some(list[i].name)
    ensures i >= |list| ==> NameForId(list, i).None?
  {
    FindByIdSpec(list, i);
    if i < |list| {
      assert list[i].id == i;
      FindByIdSpec(list, i);
      var s := FindById(list, i).value;
      var k :| 0 <= k < |list| && list[k] == s && list[k].id == i;
    }
  }

  /** With distinct names as well, looking a substrate's name up gives back its id. */
  lemma NameIdRoundTrip(list: seq<Substrate>, i: nat)
    requires Positional(list)
    requires forall a, b :: 0 <= a < b < |list| ==> list[a].name != list[b].name
    requires i < |list|
    ensures IdForName(list, list[i].name) == Some(i)
  {
    FindByNameSpec(list, list[i].name);
    var s := FindByName(list, list[i].name).value;
    var k :| 0 <= k < |list| && list[k] == s && list[k].name == list[i].name;
  }

  /** `prepare` gives positional ids. */
  lemma PreparePositional(entries: seq<DirEntry>, list: seq<Substrate>)
    requires |list| == |Usable(entries)|
    requires forall i :: 0 <= i < |list| ==> list[i] == ToSubstrate(Usable(entries)[i], i)
    ensures Positional(list)
  {
  }
}
