/**
 * The pretty-printer of src/json_format.c. Render is the text format_value
 * appends for a node at a nesting level; FormatValue is proved to append
 * exactly that text to a Buffer, and JsonFormat to return it, followed by
 * one newline, for the tree json_parse_tree builds.
 */
module Format {
  import opened JsonTypes
  import opened Tree
  import opened Grammar
  import opened Buffers
  import opened Parser

  /** n spaces. */
  function Spaces(n: nat): (r: string)
    ensures |r| == n && forall i :: 0 <= i < n ==> r[i] == ' '
  {
    if n == 0 then [] else Spaces(n - 1) + " "
  }

  /** What follows the i-th of count children: a comma unless it is the last, then a newline. */
  function Separator(i: nat, count: nat): string
  {
    if i + 1 < count then ",\n" else "\n"
  }

  /**
   * The text format_value appends for n at the given level: level*indent
   * spaces, then the node itself.
   */
  function Render(n: Node, indent: nat, level: nat): string
    decreases n, |n.children| + 2
  {
    Spaces(level * indent) + Unindented(n, indent, level)
  }

  /**
   * The text of n after its indentation: a scalar's text (a string between
   * quotes and not escaped), or a container's opener and newline, its
   * children one per line, and its closer indented like the opener.
   */
  function Unindented(n: Node, indent: nat, level: nat): string
    decreases n, |n.children| + 1
  {
    match n.kind
    case Null => "null"
    case Bool => Text(n.value)
    case Number => Text(n.value)
    case String => "\"" + Text(n.value) + "\""
    case Array => "[\n" + ArrayBody(n, indent, level, |n.children|) + Spaces(level * indent) + "]"
    case Object => "{\n" + ObjectBody(n, indent, level, |n.children|) + Spaces(level * indent) + "}"
  }

  /** The first i elements of an array at the given level. */
  function ArrayBody(n: Node, indent: nat, level: nat, i: nat): string
    requires i <= |n.children|
    decreases n, i
  {
    if i == 0 then [] else ArrayBody(n, indent, level, i - 1) + Element(n, indent, level, i - 1)
  }

  /** Element i of an array, rendered one level deeper, then its separator. */
  function Element(n: Node, indent: nat, level: nat, i: nat): string
    requires i < |n.children|
    decreases n, 0
  {
    Render(n.children[i], indent, level + 1) + Separator(i, |n.children|)
  }

  /** The first i members of an object at the given level. */
  function ObjectBody(n: Node, indent: nat, level: nat, i: nat): string
    requires i <= |n.children|
    decreases n, i
  {
    if i == 0 then [] else ObjectBody(n, indent, level, i - 1) + Member(n, indent, level, i - 1)
  }

  /**
   * Member i of an object: the key indented one level deeper, quoted and
   * followed by `: `, then the value rendered one level deeper, which
   * indents it a second time, then the separator.
   */
  function Member(n: Node, indent: nat, level: nat, i: nat): string
    requires i < |n.children|
    decreases n, 0
  {
    MemberHead(n.children[i], indent, level) + Render(n.children[i], indent, level + 1) + Separator(i, |n.children|)
  }

  /** The indentation, quoted name, colon and space before an object member's value. */
  function MemberHead(child: Node, indent: nat, level: nat): string
  {
    Spaces((level + 1) * indent) + "\"" + Text(child.name) + "\": "
  }

  /** The indentation loops of format_value: append n spaces one at a time. */
  method AppendSpaces(buf: Buffer, n: nat)
    requires buf.Valid()
    modifies buf.Repr
    ensures buf.Valid() && fresh(buf.Repr - old(buf.Repr))
    ensures buf.Contents == old(buf.Contents) + Spaces(n)
  {
    ghost var start := buf.Contents;
    for i := 0 to n
      invariant buf.Valid() && fresh(buf.Repr - old(buf.Repr))
      invariant buf.Contents == start + Spaces(i)
    {
      buf.Append(" ");
    }
  }

  /** format_value */
  method FormatValue(n: Node, buf: Buffer, indent: nat, level: nat)
    requires buf.Valid()
    modifies buf.Repr
    ensures buf.Valid() && fresh(buf.Repr - old(buf.Repr))
    ensures buf.Contents == old(buf.Contents) + Render(n, indent, level)
    decreases n, 4
  {
    AppendSpaces(buf, level * indent);
    FormatUnindented(n, buf, indent, level);
  }

  /** The switch of format_value, after the indentation. */
  method FormatUnindented(n: Node, buf: Buffer, indent: nat, level: nat)
    requires buf.Valid()
    modifies buf.Repr
    ensures buf.Valid() && fresh(buf.Repr - old(buf.Repr))
    ensures buf.Contents == old(buf.Contents) + Unindented(n, indent, level)
    decreases n, 3
  {
    ghost var before := buf.Contents;
    match n.kind {
      case Null =>
        buf.Append("null");
      case Bool =>
        buf.Append(Text(n.value));
      case Number =>
        buf.Append(Text(n.value));
      case String =>
        buf.Append("\"");
        buf.Append(Text(n.value));
        ConcatAssoc(before, "\"", Text(n.value));
        buf.Append("\"");
        ConcatAssoc(before, "\"" + Text(n.value), "\"");
      case Array =>
        FormatArray(n, buf, indent, level);
      case Object =>
        FormatObject(n, buf, indent, level);
    }
  }

  /** The array case of format_value: `[`, newline, the elements, the closing line. */
  method FormatArray(n: Node, buf: Buffer, indent: nat, level: nat)
    requires buf.Valid()
    modifies buf.Repr
    ensures buf.Valid() && fresh(buf.Repr - old(buf.Repr))
    ensures buf.Contents == old(buf.Contents)
                            + ("[\n" + ArrayBody(n, indent, level, |n.children|) + Spaces(level * indent) + "]")
    decreases n, 2
  {
    ghost var before := buf.Contents;
    buf.Append("[\n");
    ghost var body := ArrayBody(n, indent, level, |n.children|);
    FormatElements(n, buf, indent, level);
    ConcatAssoc(before, "[\n", body);
    AppendSpaces(buf, level * indent);
    ConcatAssoc(before, "[\n" + body, Spaces(level * indent));
    buf.Append("]");
    ConcatAssoc(before, "[\n" + body + Spaces(level * indent), "]");
  }

  /** The object case of format_value: `{`, newline, the members, the closing line. */
  method FormatObject(n: Node, buf: Buffer, indent: nat, level: nat)
    requires buf.Valid()
    modifies buf.Repr
    ensures buf.Valid() && fresh(buf.Repr - old(buf.Repr))
    ensures buf.Contents == old(buf.Contents)
                            + ("{\n" + ObjectBody(n, indent, level, |n.children|) + Spaces(level * indent) + "}")
    decreases n, 2
  {
    ghost var before := buf.Contents;
    buf.Append("{\n");
    ghost var body := ObjectBody(n, indent, level, |n.children|);
    FormatMembers(n, buf, indent, level);
    ConcatAssoc(before, "{\n", body);
    AppendSpaces(buf, level * indent);
    ConcatAssoc(before, "{\n" + body, Spaces(level * indent));
    buf.Append("}");
    ConcatAssoc(before, "{\n" + body + Spaces(level * indent), "}");
  }

  /** The comma unless child i of count is the last, then the newline. */
  method AppendSeparator(buf: Buffer, i: nat, count: nat)
    requires buf.Valid()
    modifies buf.Repr
    ensures buf.Valid() && fresh(buf.Repr - old(buf.Repr))
    ensures buf.Contents == old(buf.Contents) + Separator(i, count)
  {
    ghost var before := buf.Contents;
    if i + 1 < count {
      buf.Append(",");
    }
    buf.Append("\n");
    if i + 1 < count {
      ConcatAssoc(before, ",", "\n");
    }
  }

  /** The element loop of the array case of format_value. */
  method FormatElements(n: Node, buf: Buffer, indent: nat, level: nat)
    requires buf.Valid()
    modifies buf.Repr
    ensures buf.Valid() && fresh(buf.Repr - old(buf.Repr))
    ensures buf.Contents == old(buf.Contents) + ArrayBody(n, indent, level, |n.children|)
    decreases n, 1
  {
    ghost var start := buf.Contents;
    for i := 0 to |n.children|
      invariant buf.Valid() && fresh(buf.Repr - old(buf.Repr))
      invariant buf.Contents == start + ArrayBody(n, indent, level, i)
    {
      ghost var before := buf.Contents;
      FormatValue(n.children[i], buf, indent, level + 1);
      AppendSeparator(buf, i, |n.children|);
      ConcatAssoc(before, Render(n.children[i], indent, level + 1), Separator(i, |n.children|));
      ConcatAssoc(start, ArrayBody(n, indent, level, i), Element(n, indent, level, i));
    }
  }

  /** The member loop of the object case of format_value. */
  method FormatMembers(n: Node, buf: Buffer, indent: nat, level: nat)
    requires buf.Valid()
    modifies buf.Repr
    ensures buf.Valid() && fresh(buf.Repr - old(buf.Repr))
    ensures buf.Contents == old(buf.Contents) + ObjectBody(n, indent, level, |n.children|)
    decreases n, 1
  {
    ghost var start := buf.Contents;
    for i := 0 to |n.children|
      invariant buf.Valid() && fresh(buf.Repr - old(buf.Repr))
      invariant buf.Contents == start + ObjectBody(n, indent, level, i)
    {
      FormatMember(n, buf, indent, level, i);
      ConcatAssoc(start, ObjectBody(n, indent, level, i), Member(n, indent, level, i));
    }
  }

  /** One pass of the member loop: the key line head, the value, the separator. */
  method FormatMember(n: Node, buf: Buffer, indent: nat, level: nat, i: nat)
    requires buf.Valid() && i < |n.children|
    modifies buf.Repr
    ensures buf.Valid() && fresh(buf.Repr - old(buf.Repr))
    ensures buf.Contents == old(buf.Contents) + Member(n, indent, level, i)
    decreases n, 0
  {
    var child := n.children[i];
    ghost var before := buf.Contents;
    AppendMemberHead(child, buf, indent, level);
    ghost var head := MemberHead(child, indent, level);
    FormatValue(child, buf, indent, level + 1);
    ConcatAssoc(before, head, Render(child, indent, level + 1));
    AppendSeparator(buf, i, |n.children|);
    ConcatAssoc(before, head + Render(child, indent, level + 1), Separator(i, |n.children|));
  }

  /** The indentation, quoted key, colon and space of a member. */
  method AppendMemberHead(child: Node, buf: Buffer, indent: nat, level: nat)
    requires buf.Valid()
    modifies buf.Repr
    ensures buf.Valid() && fresh(buf.Repr - old(buf.Repr))
    ensures buf.Contents == old(buf.Contents) + MemberHead(child, indent, level)
  {
    ghost var before := buf.Contents;
    ghost var indentation := Spaces((level + 1) * indent);
    AppendSpaces(buf, (level + 1) * indent);
    buf.Append("\"");
    ConcatAssoc(before, indentation, "\"");
    buf.Append(Text(child.name));
    ConcatAssoc(before, indentation + "\"", Text(child.name));
    buf.Append("\": ");
    ConcatAssoc(before, indentation + "\"" + Text(child.name), "\": ");
  }

  /**
   * The part of json_format after a successful parse: format the root at
   * level 0 into a new buffer, add one newline, and return the contents.
   */
  method FormatTree(root: Node, indent: nat) returns (r: string)
    ensures r == Render(root, indent, 0) + "\n"
  {
    var buf := new Buffer();
    FormatValue(root, buf, indent, 0);
    buf.Append("\n");
    r := buf.data[..buf.size];
  }

  /**
   * What json_format returns for an input: no text when it does not
   * parse, otherwise the root rendered at level 0 and one newline.
   */
  function FormatOf(input: string, indent: nat): (r: Option<string>)
    ensures r.Some? <==> Parse(input).Done?
    ensures r.Some? ==> |r.value| > 0 && r.value[|r.value| - 1] == '\n'
  {
    match Parse(input)
    case Done(root, _) => Some(Render(root, indent, 0) + "\n")
    case Failed(_, _) => None
  }

  /** json_format: no text without a parser; otherwise parse the input afresh and format the tree it gives. */
  method JsonFormat(p: JsonParser?, indent: nat) returns (r: Option<string>)
    requires p != null ==> p.Valid()
    modifies p
    ensures p == null ==> r == None
    ensures p != null ==> p.Valid() && p.ParsedInput()
    ensures p != null ==> (p.errors == [] <==> Parse(p.input).Done?)
    ensures p != null ==> |p.errors| <= 1
    ensures p != null ==> r == FormatOf(p.input, indent)
  {
    if p == null {
      return None;
    }
    var root := p.ParseTree();
    ghost var outcome := Parse(p.input);
    if root.None? {
      assert outcome.Failed?;
      return None;
    }
    assert outcome.Done? && outcome.value == root.value;
    var text := FormatTree(root.value, indent);
    r := Some(text);
  }

  /** json_compact: json_format with no indentation, newlines and all. */
  method JsonCompact(p: JsonParser?) returns (r: Option<string>)
    requires p != null ==> p.Valid()
    modifies p
    ensures p == null ==> r == None
    ensures p != null ==> p.Valid() && p.ParsedInput()
    ensures p != null ==> (p.errors == [] <==> Parse(p.input).Done?)
    ensures p != null ==> |p.errors| <= 1
    ensures p != null ==> r == FormatOf(p.input, 0)
  {
    r := JsonFormat(p, 0);
  }
}
