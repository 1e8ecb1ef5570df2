/**
 * The tree model of src/json_parser.c: node creation, ordered append of a
 * child, and the node count every walk over the tree relies on.
 */
module Tree {
  import opened JsonTypes

  /** The number of nodes in the subtree rooted at n. */
  function Size(n: Node): nat
  {
    1 + SizeOf(n.children)
  }

  /** The number of nodes in a sequence of subtrees. */
  function SizeOf(kids: seq<Node>): nat
  {
    if kids == [] then 0 else SizeOf(kids[..|kids| - 1]) + Size(kids[|kids| - 1])
  }

  /**
   * tree_node_create: a node with the given name, value and kind and no
   * children (the C code copies both strings).
   */
  function CreateNode(name: Option<string>, value: Option<string>, kind: Kind): (n: Node)
    ensures n.kind == kind && n.name == name && n.value == value
    ensures n.children == [] && Size(n) == 1
  {
    Node(kind, name, value, [])
  }

  /**
   * tree_node_add_child: a NULL child changes nothing; otherwise the child
   * goes at the end of the children, the earlier children and the node's
   * own fields are unchanged, and the subtree grows by the child's nodes.
   */
  function AddChild(parent: Node, child: Option<Node>): (r: Node)
    ensures child.None? ==> r == parent
    ensures child.Some? ==>
      && r.kind == parent.kind && r.name == parent.name && r.value == parent.value
      && |r.children| == |parent.children| + 1
      && r.children[..|parent.children|] == parent.children
      && r.children[|parent.children|] == child.value
    ensures child.Some? ==> Size(r) == Size(parent) + Size(child.value)
  {
    match child
    case None => parent
    case Some(c) =>
      var r := parent.(children := parent.children + [c]);
      assert r.children[..|r.children| - 1] == parent.children;
      r
  }

  /**
   * The bytes behind a C string pointer of a node. The parser leaves no
   * NULL where the printers read one; a NULL reads as no bytes here.
   */
  function Text(s: Option<string>): string
  {
    if s.Some? then s.value else []
  }

  function Max(a: nat, b: nat): nat
  {
    if a < b then b else a
  }

  /** The number of nodes of kind k in the subtree rooted at n. */
  function CountKind(n: Node, k: Kind): nat
  {
    (if n.kind == k then 1 else 0) + CountKindOf(n.children, k)
  }

  function CountKindOf(kids: seq<Node>, k: Kind): nat
  {
    if kids == [] then 0 else CountKindOf(kids[..|kids| - 1], k) + CountKind(kids[|kids| - 1], k)
  }

  /** The number of nodes of the subtree rooted at n that carry a name. */
  function Named(n: Node): nat
  {
    (if n.name.Some? then 1 else 0) + NamedOf(n.children)
  }

  function NamedOf(kids: seq<Node>): nat
  {
    if kids == [] then 0 else NamedOf(kids[..|kids| - 1]) + Named(kids[|kids| - 1])
  }

  /** The length of the longest path from n down to a leaf (a leaf has height 0). */
  function Height(n: Node): nat
  {
    HeightOf(n.children)
  }

  function HeightOf(kids: seq<Node>): nat
  {
    if kids == [] then 0 else Max(HeightOf(kids[..|kids| - 1]), 1 + Height(kids[|kids| - 1]))
  }

  /** Every node has exactly one of the six kinds: the per-kind counts add up to the size. */
  lemma {:induction false} KindsPartition(n: Node)
    ensures CountKind(n, Null) + CountKind(n, Bool) + CountKind(n, Number)
          + CountKind(n, String) + CountKind(n, Array) + CountKind(n, Object) == Size(n)
    decreases n, 1
  {
    KindsPartitionOf(n.children);
  }

  lemma {:induction false} KindsPartitionOf(kids: seq<Node>)
    ensures CountKindOf(kids, Null) + CountKindOf(kids, Bool) + CountKindOf(kids, Number)
          + CountKindOf(kids, String) + CountKindOf(kids, Array) + CountKindOf(kids, Object) == SizeOf(kids)
    decreases kids, 0
  {
    if kids != [] {
      KindsPartitionOf(kids[..|kids| - 1]);
      KindsPartition(kids[|kids| - 1]);
    }
  }

  /** A tree is taller than nothing and shorter than its node count. */
  lemma {:induction false} HeightBelowSize(n: Node)
    ensures Height(n) < Size(n)
    decreases n, 1
  {
    HeightBelowSizeOf(n.children);
  }

  lemma {:induction false} HeightBelowSizeOf(kids: seq<Node>)
    ensures HeightOf(kids) <= SizeOf(kids)
    decreases kids, 0
  {
    if kids != [] {
      HeightBelowSizeOf(kids[..|kids| - 1]);
      HeightBelowSize(kids[|kids| - 1]);
    }
  }
}
