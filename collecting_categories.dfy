/**
 * The category tree of the collecting crate: a category is a '/'-separated
 * path of names, each naming a child of the node before it, starting from
 * the root. The tree itself is a constant table in the source; here it is a
 * parameter.
 */
module CollectingCategories {
  import opened Wrappers
  import opened Text

  const SEPARATOR: char := '/'

  /** How well prepared a category is. */
  datatype Status = Exploratory | Incomplete | Satisfactory | Complete | Broad

  /** `Status::are_products_comparable`. */
  predicate AreProductsComparable(s: Status) {
    match s
    case Exploratory | Incomplete | Satisfactory | Complete => true
    case Broad => false
  }

  lemma AreProductsComparableSpec(s: Status)
    ensures !AreProductsComparable(s) <==> s == Broad
  {
  }

  datatype Node = Node(id: Option<nat>, name: string, title: string, status: Status, sub: seq<Node>)

  datatype Info = Info(status: Status, subcategories: seq<string>)

  /** `Node::to_info`: the node's status and its children's names, in order. */
  function ToInfo(node: Node): (r: Info)
    ensures r.status == node.status
    ensures |r.subcategories| == |node.sub|
    ensures forall i :: 0 <= i < |node.sub| ==> r.subcategories[i] == node.sub[i].name
  {
    Info(node.status, Names(node.sub))
  }

  function Names(nodes: seq<Node>): (r: seq<string>)
    ensures |r| == |nodes|
    ensures forall i :: 0 <= i < |nodes| ==> r[i] == nodes[i].name
  {
    if nodes == [] then [] else [nodes[0].name] + Names(nodes[1..])
  }

  /** `iter().find` by name: the first node with that name. */
  function Find(nodes: seq<Node>, name: string): (r: Option<Node>)
    ensures r.Some? <==> exists i :: 0 <= i < |nodes| && nodes[i].name == name
    ensures r.Some? ==> r.value in nodes && r.value.name == name
    ensures r.Some? ==> exists i :: 0 <= i < |nodes| && nodes[i] == r.value
                              && forall j :: 0 <= j < i ==> nodes[j].name != name
  {
    if nodes == [] then None
    else if nodes[0].name == name then Some(nodes[0])
    else
      var r := Find(nodes[1..], name);
      if r.Some? then
        var i :| 0 <= i < |nodes[1..]| && nodes[1..][i] == r.value
                 && forall j :: 0 <= j < i ==> nodes[1..][j].name != name;
        assert nodes[i + 1] == r.value;
        r
      else
        r
  }

  /** The node reached by following `names` down from `node`, if every step exists. */
  function Walk(node: Node, names: seq<string>): Option<Node> {
    if names == [] then Some(node)
    else
      match Find(node.sub, names[0])
      case None => None
      case Some(child) => Walk(child, names[1..])
  }

  /** What `is_valid_category` decides: the root's own name, or a walk that succeeds. */
  predicate IsValid(root: Node, s: string) {
    root.name == s || Walk(root, Split(s, SEPARATOR)).Some?
  }

  /** What `get_info` returns. */
  function InfoOf(root: Node, s: string): Option<Info> {
    if root.name == s then Some(ToInfo(root))
    else
      match Walk(root, Split(s, SEPARATOR))
      case None => None
      case Some(node) => Some(ToInfo(node))
  }

  /** `Category::is_valid_category`: walks down the tree one name at a time. */
  method IsValidCategory(root: Node, s: string) returns (valid: bool)
    ensures valid == IsValid(root, s)
  {
    var node := root;
    if node.name == s {
      return true;
    }
    var parts := Split(s, SEPARATOR);
    var i := 0;
    while i < |parts|
      invariant 0 <= i <= |parts|
      invariant Walk(root, parts) == Walk(node, parts[i..])
    {
      assert parts[i..][1..] == parts[i + 1..];
      var find := Find(node.sub, parts[i]);
      if find.None? {
        return false;
      }
      node := find.value;
      i := i + 1;
    }
    return true;
  }

  /** `Category::get_info`: the same walk, giving the reached node's info. */
  method GetInfo(root: Node, s: string) returns (r: Option<Info>)
    ensures r == InfoOf(root, s)
  {
    var node := root;
    if node.name == s {
      return Some(ToInfo(node));
    }
    var parts := Split(s, SEPARATOR);
    var i := 0;
    while i < |parts|
      invariant 0 <= i <= |parts|
      invariant Walk(root, parts) == Walk(node, parts[i..])
    {
      assert parts[i..][1..] == parts[i + 1..];
      var find := Find(node.sub, parts[i]);
      if find.None? {
        return None;
      }
      node := find.value;
      i := i + 1;
    }
    return Some(ToInfo(node));
  }

  /** `get_info` gives an answer exactly for valid categories. */
  lemma InfoOfIffValid(root: Node, s: string)
    ensures InfoOf(root, s).Some? <==> IsValid(root, s)
    ensures root.name == s ==> InfoOf(root, s) == Some(ToInfo(root))
  {
  }

  /** A walk that succeeds passes through every shorter walk. */
  lemma {:induction false} WalkPrefix(node: Node, a: seq<string>, b: seq<string>)
    requires Walk(node, a + b).Some?
    ensures Walk(node, a).Some?
  {
    if a != [] {
      assert (a + b)[0] == a[0] && (a + b)[1..] == a[1..] + b;
      WalkPrefix(Find(node.sub, a[0]).value, a[1..], b);
    }
  }

  /** The root category, named by the empty text, is valid. */
  lemma RootIsValid(root: Node)
    requires root.name == ""
    ensures IsValid(root, "")
  {
  }

  /** Valid categories are closed under taking the path before a separator. */
  lemma ValidPrefixClosed(root: Node, p: string, q: string)
    requires IsValid(root, p + [SEPARATOR] + q)
    requires root.name != p + [SEPARATOR] + q
    ensures IsValid(root, p)
  {
    SplitConcat(p, q, SEPARATOR);
    WalkPrefix(root, Split(p, SEPARATOR), Split(q, SEPARATOR));
  }

  /** One step down: a child's name extends a valid path, and any other name does not. */
  lemma WalkStep(node: Node, names: seq<string>, name: string)
    requires Walk(node, names).Some?
    ensures Walk(node, names + [name]).Some? <==> name in ToInfo(Walk(node, names).value).subcategories
  {
    WalkAppend(node, names, name);
    var end := Walk(node, names).value;
    if name in ToInfo(end).subcategories {
      var i :| 0 <= i < |end.sub| && ToInfo(end).subcategories[i] == name;
      assert end.sub[i].name == name;
    }
  }

  lemma {:induction false} WalkAppend(node: Node, names: seq<string>, name: string)
    requires Walk(node, names).Some?
    ensures Walk(node, names + [name]) == Walk(Walk(node, names).value, [name])
  {
    if names != [] {
      assert (names + [name])[0] == names[0] && (names + [name])[1..] == names[1..] + [name];
      WalkAppend(Find(node.sub, names[0]).value, names[1..], name);
    }
  }

  /** A category: a path that names a node of the tree. */
  datatype Category = Category(text: string)

  datatype CategoryError = Invalid(value: string)

  /** `Category::new`: accepts exactly the valid paths. */
  method NewCategory(root: Node, s: string) returns (r: Result<Category, CategoryError>)
    ensures r.Ok? <==> IsValid(root, s)
    ensures r.Ok? ==> GetString(r.value) == s
    ensures r.Err? ==> r.error == Invalid(s)
  {
    var valid := IsValidCategory(root, s);
    if valid {
      r := Ok(Category(s));
    } else {
      r := Err(Invalid(s));
    }
  }

  /** `Category::get_string`. */
  function GetString(c: Category): string {
    c.text
  }
}
