/**
 * The analytics of src/json_stats.c: collect_stats walks a tree in
 * pre-order, adding into a JsonStats accumulator; json_stats runs it over
 * a fresh parse; json_validate reports whether that parse succeeded.
 */
module Analytics {
  import opened JsonTypes
  import opened Tree
  import opened Grammar
  import opened Parser

  /**
   * What collect_stats leaves in an accumulator that held acc when it
   * walks the subtree n entered at the given depth: every count raised by
   * the matching nodes of the subtree, and the depth raised to the deepest
   * level the subtree reaches.
   */
  function Accumulated(acc: Stats, n: Node, depth: nat): Stats
  {
    Stats(
      acc.totalKeys + Named(n), acc.totalValues + Size(n), Max(acc.depth, depth + Height(n)),
      acc.stringCount + CountKind(n, String), acc.numberCount + CountKind(n, Number),
      acc.boolCount + CountKind(n, Bool), acc.nullCount + CountKind(n, Null),
      acc.arrayCount + CountKind(n, Array), acc.objectCount + CountKind(n, Object))
  }

  /** The same for a run of siblings whose parent is at the given depth. */
  function AccumulatedOf(acc: Stats, kids: seq<Node>, parentDepth: nat): Stats
  {
    Stats(
      acc.totalKeys + NamedOf(kids), acc.totalValues + SizeOf(kids), Max(acc.depth, parentDepth + HeightOf(kids)),
      acc.stringCount + CountKindOf(kids, String), acc.numberCount + CountKindOf(kids, Number),
      acc.boolCount + CountKindOf(kids, Bool), acc.nullCount + CountKindOf(kids, Null),
      acc.arrayCount + CountKindOf(kids, Array), acc.objectCount + CountKindOf(kids, Object))
  }

  /** Walking one more sibling one level below the parent. */
  lemma AccumulatedOfStep(acc: Stats, kids: seq<Node>, i: nat, parentDepth: nat)
    requires i < |kids|
    ensures AccumulatedOf(acc, kids[..i + 1], parentDepth)
         == Accumulated(AccumulatedOf(acc, kids[..i], parentDepth), kids[i], parentDepth + 1)
  {
    assert kids[..i + 1][..i] == kids[..i];
  }

  /** One node's own contribution: the depth it sits at, its kind, itself, its name. */
  function Own(acc: Stats, n: Node, depth: nat): Stats
  {
    var s := acc.(depth := Max(acc.depth, depth), totalValues := acc.totalValues + 1);
    var s := if n.name.Some? then s.(totalKeys := s.totalKeys + 1) else s;
    match n.kind
    case String => s.(stringCount := s.stringCount + 1)
    case Number => s.(numberCount := s.numberCount + 1)
    case Bool => s.(boolCount := s.boolCount + 1)
    case Null => s.(nullCount := s.nullCount + 1)
    case Array => s.(arrayCount := s.arrayCount + 1)
    case Object => s.(objectCount := s.objectCount + 1)
  }

  /** A node's walk is its own contribution followed by its children's. */
  lemma AccumulatedSplit(acc: Stats, n: Node, depth: nat)
    ensures Accumulated(acc, n, depth) == AccumulatedOf(Own(acc, n, depth), n.children, depth)
  {
  }

  /** collect_stats, with the accumulator passed in and handed back. */
  method CollectStats(n: Node, acc: Stats, depth: nat) returns (r: Stats)
    ensures r == Accumulated(acc, n, depth)
    decreases n
  {
    r := acc.(depth := Max(acc.depth, depth));
    match n.kind {
      case String => r := r.(stringCount := r.stringCount + 1);
      case Number => r := r.(numberCount := r.numberCount + 1);
      case Bool => r := r.(boolCount := r.boolCount + 1);
      case Null => r := r.(nullCount := r.nullCount + 1);
      case Array => r := r.(arrayCount := r.arrayCount + 1);
      case Object => r := r.(objectCount := r.objectCount + 1);
    }
    r := r.(totalValues := r.totalValues + 1);
    if n.name.Some? {
      r := r.(totalKeys := r.totalKeys + 1);
    }
    ghost var own := r;
    assert own == Own(acc, n, depth);
    assert n.children[..0] == [];
    for i := 0 to |n.children|
      invariant r == AccumulatedOf(own, n.children[..i], depth)
    {
      AccumulatedOfStep(own, n.children, i, depth);
      r := CollectStats(n.children[i], r, depth + 1);
    }
    assert n.children[..|n.children|] == n.children;
    AccumulatedSplit(acc, n, depth);
  }

  /**
   * The statistics json_stats reports for an input: all zero when the
   * parse fails, otherwise the walk of the root at depth 0.
   */
  function StatsOf(input: string): Stats
  {
    match Parse(input)
    case Done(root, _) => Accumulated(ZeroStats, root, 0)
    case Failed(_, _) => ZeroStats
  }

  /** json_stats: all-zero statistics without a parser, otherwise StatsOf its input. */
  method JsonStats(p: JsonParser?) returns (r: Stats)
    requires p != null ==> p.Valid()
    modifies p
    ensures p == null ==> r == ZeroStats
    ensures p != null ==> p.Valid() && p.ParsedInput()
    ensures p != null ==> (p.errors == [] <==> Parse(p.input).Done?)
    ensures p != null ==> |p.errors| <= 1
    ensures p != null ==> r == StatsOf(p.input)
  {
    if p == null {
      return ZeroStats;
    }
    r := ZeroStats;
    var root := p.ParseTree();
    ghost var outcome := Parse(p.input);
    if root.None? {
      assert outcome.Failed?;
      return;
    }
    assert outcome.Done? && outcome.value == root.value;
    r := CollectStats(root.value, r, 0);
  }

  /**
   * json_validate: false without a parser; otherwise reset the cursor and
   * the diagnostics, parse, and report whether a tree came back with no
   * diagnostic.
   */
  method JsonValidate(p: JsonParser?) returns (valid: bool)
    requires p != null ==> p.Valid()
    modifies p
    ensures p == null ==> !valid
    ensures p != null ==> p.Valid() && p.ParsedInput()
    ensures p != null ==> (p.errors == [] <==> Parse(p.input).Done?)
    ensures p != null ==> |p.errors| <= 1
    ensures p != null ==> (valid <==> Parse(p.input).Done?)
  {
    if p == null {
      return false;
    }
    p.pos, p.line, p.column := 0, 1, 0;
    p.errors := [];
    var root := p.ParseTree();
    valid := root.Some? && |p.errors| == 0;
  }

  /**
   * In a tree the parser builds every node but the root has a name, so
   * the named nodes are all but one.
   */
  lemma {:induction false} NamedWellFormed(n: Node)
    requires WellFormed(n)
    ensures Named(n) + (if n.name.None? then 1 else 0) == Size(n)
    decreases n, 1
  {
    NamedWellFormedOf(n.children);
  }

  lemma {:induction false} NamedWellFormedOf(kids: seq<Node>)
    requires forall i :: 0 <= i < |kids| ==> kids[i].name.Some? && WellFormed(kids[i])
    ensures NamedOf(kids) == SizeOf(kids)
    decreases kids, 0
  {
    if kids != [] {
      var last := kids[|kids| - 1];
      NamedWellFormedOf(kids[..|kids| - 1]);
      NamedWellFormed(last);
    }
  }

  /**
   * The statistics of any input that parses: one key fewer than values,
   * the six kind counts add up to the values, and the depth is the height
   * of the tree.
   */
  lemma StatsOfParsed(input: string)
    requires Parse(input).Done?
    ensures var s := StatsOf(input);
      && s.totalKeys + 1 == s.totalValues
      && s.stringCount + s.numberCount + s.boolCount + s.nullCount + s.arrayCount + s.objectCount == s.totalValues
      && s.depth == Height(Parse(input).value)
  {
    var root := Parse(input).value;
    NamedWellFormed(root);
    KindsPartition(root);
  }
}
