/**
 * The file tree of an uploaded project as shown to the user: every entry except
 * the project's own `project.json`, directories before files and, within each
 * kind, names in order, at every level of the tree.
 *
 * The directory contents are an input value (`Item`), in the order the directory
 * listing gives.
 */
module FileTree {
  import opened JsString
  import Sorting
  import SourceListing

  /** A directory entry with what `fs.stat` reports about it. */
  datatype Item =
    | FileItem(name: string, size: nat, modified: string)
    | DirItem(name: string, children: seq<Item>)

  /** A node of the tree returned to the client. */
  datatype Node =
    | FileNode(name: string, path: string, size: nat, modified: string, extension: string)
    | DirNode(name: string, path: string, children: seq<Node>)

  /** The comparator, as `compare(a, b) <= 0`: a directory precedes a file; nodes of the
      same kind compare by name. */
  predicate NodeLe(a: Node, b: Node) {
    if a.DirNode? != b.DirNode? then a.DirNode? else Sorting.CodeUnitLe(a.name, b.name)
  }

  lemma NodeOrder()
    ensures Sorting.Total(NodeLe) && Sorting.Transitive(NodeLe)
  {
    forall a: Node, b: Node ensures NodeLe(a, b) || NodeLe(b, a) {
      Sorting.CodeUnitTotal(a.name, b.name);
    }
    forall a: Node, b: Node, c: Node | NodeLe(a, b) && NodeLe(b, c) ensures NodeLe(a, c) {
      if a.DirNode? == b.DirNode? == c.DirNode? {
        Sorting.CodeUnitTransitive(a.name, b.name, c.name);
      }
    }
  }

  /** The node for one entry; a directory's children are its own sorted tree. */
  function NodeOf(item: Item, base: string): Node
    decreases item
  {
    var path := SourceListing.JoinPath(base, item.name);
    match item
    case FileItem(name, size, modified) => FileNode(name, path, size, modified, ExtName(name))
    case DirItem(name, children) => DirNode(name, path, Sorting.Sort(Unsorted(children, path), NodeLe))
  }

  /** The nodes of the entries other than `project.json`, in listing order. */
  function Unsorted(items: seq<Item>, base: string): (r: seq<Node>)
    ensures |r| <= |items|
    decreases items
  {
    if items == [] then []
    else
      var rest := Unsorted(items[..|items| - 1], base);
      var last := items[|items| - 1];
      if last.name == "project.json" then rest else rest + [NodeOf(last, base)]
  }

  /** `buildFileTree(dir, base)`. */
  function Tree(items: seq<Item>, base: string): (r: seq<Node>)
    ensures |r| <= |items|
  {
    Sorting.Sort(Unsorted(items, base), NodeLe)
  }

  method BuildFileTree(items: seq<Item>, base: string) returns (tree: seq<Node>)
    ensures tree == Tree(items, base)
    decreases items
  {
    tree := [];
    for i := 0 to |items|
      invariant tree == Unsorted(items[..i], base)
    {
      var item := items[i];
      assert items[..i + 1][..i] == items[..i];
      if item.name != "project.json" {
        var path := SourceListing.JoinPath(base, item.name);
        match item
        case DirItem(name, children) =>
          var sub := BuildFileTree(children, path);
          tree := tree + [DirNode(name, path, sub)];
        case FileItem(name, size, modified) =>
          tree := tree + [FileNode(name, path, size, modified, ExtName(name))];
      }
    }
    assert items[..|items|] == items;
    tree := Sorting.Sort(tree, NodeLe);
  }

  /** A tree as the client gets it: at every level no `project.json`, and the nodes ordered. */
  predicate Shown(nodes: seq<Node>)
    decreases nodes
  {
    && Sorting.Sorted(nodes, NodeLe)
    && forall k :: 0 <= k < |nodes| ==>
      nodes[k].name != "project.json" && (nodes[k].DirNode? ==> Shown(nodes[k].children))
  }

  /** Every unsorted node is the node of some listed entry other than `project.json`. */
  lemma {:induction false} UnsortedFrom(items: seq<Item>, base: string, n: Node) returns (k: nat)
    requires n in Unsorted(items, base)
    ensures k < |items| && items[k].name != "project.json" && n == NodeOf(items[k], base)
  {
    var init := items[..|items| - 1];
    var last := items[|items| - 1];
    if n in Unsorted(init, base) {
      k := UnsortedFrom(init, base, n);
      assert items[k] == init[k];
    } else {
      k := |items| - 1;
    }
  }

  /** The tree is shown as promised at every depth. */
  lemma {:induction false} TreeShown(items: seq<Item>, base: string)
    ensures Shown(Tree(items, base))
    decreases items
  {
    var nodes := Tree(items, base);
    NodeOrder();
    Sorting.SortSorted(Unsorted(items, base), NodeLe);
    Sorting.SortPermutation(Unsorted(items, base), NodeLe);
    forall i | 0 <= i < |nodes|
      ensures nodes[i].name != "project.json" && (nodes[i].DirNode? ==> Shown(nodes[i].children))
    {
      assert nodes[i] in multiset(nodes);
      var k := UnsortedFrom(items, base, nodes[i]);
      if items[k].DirItem? {
        TreeShown(items[k].children, SourceListing.JoinPath(base, items[k].name));
      }
    }
  }

  /** In an ordered level, the directories come first and each kind is in name order. */
  lemma OrderedLevel(nodes: seq<Node>, i: nat, j: nat)
    requires Shown(nodes) && i < j < |nodes|
    ensures nodes[j].DirNode? ==> nodes[i].DirNode?
    ensures nodes[i].DirNode? == nodes[j].DirNode? ==> Sorting.CodeUnitLe(nodes[i].name, nodes[j].name)
  {
    assert NodeLe(nodes[i], nodes[j]);
  }

  /** The top level holds exactly the nodes of the listed entries other than `project.json`. */
  lemma TreeContents(items: seq<Item>, base: string)
    ensures multiset(Tree(items, base)) == multiset(Unsorted(items, base))
    ensures forall it :: it in items && it.name != "project.json" ==> NodeOf(it, base) in Tree(items, base)
  {
    Sorting.SortPermutation(Unsorted(items, base), NodeLe);
    forall it | it in items && it.name != "project.json" ensures NodeOf(it, base) in Tree(items, base) {
      UnsortedHolds(items, base, it);
      assert NodeOf(it, base) in multiset(Unsorted(items, base));
    }
  }

  lemma {:induction false} UnsortedHolds(items: seq<Item>, base: string, it: Item)
    requires it in items && it.name != "project.json"
    ensures NodeOf(it, base) in Unsorted(items, base)
  {
    var init := items[..|items| - 1];
    if it != items[|items| - 1] {
      assert items == init + [items[|items| - 1]];
      UnsortedHolds(init, base, it);
    }
  }
}
