/**
 * The text json_format produces reads back as the tree it came from:
 * parse_value on the rendering of a WellFormed node rebuilds the node
 * (unnamed) and consumes exactly the rendered bytes. It holds for every
 * indent width, because the parser skips any whitespace between tokens,
 * and it holds because format_value writes strings and numbers back byte
 * for byte as parse_string and the number scan read them. So formatting
 * is idempotent, and reformatting with one width and then another is
 * formatting with the second.
 */
module RoundTrip {
  import opened JsonTypes
  import opened Tree
  import opened Grammar
  import opened Format

  /** The text t sits in s at offset p. */
  predicate At(s: string, p: nat, t: string)
  {
    p + |t| <= |s| && forall k :: 0 <= k < |t| ==> s[p + k] == t[k]
  }

  lemma AtIndex(s: string, p: nat, t: string, k: nat)
    requires At(s, p, t) && k < |t|
    ensures p + k < |s| && s[p + k] == t[k]
  {
  }

  /** The same as a slice of s. */
  lemma AtSlice(s: string, p: nat, t: string)
    requires At(s, p, t)
    ensures p + |t| <= |s| && s[p..p + |t|] == t
  {
    forall k | 0 <= k < |t|
      ensures s[p..p + |t|][k] == t[k]
    {
    }
  }

  lemma AtSplit(s: string, p: nat, a: string, b: string)
    requires At(s, p, a + b)
    ensures At(s, p, a) && At(s, p + |a|, b)
  {
    forall k | 0 <= k < |a|
      ensures s[p + k] == a[k]
    {
      assert (a + b)[k] == a[k];
    }
    forall k | 0 <= k < |b|
      ensures s[p + |a| + k] == b[k]
    {
      assert (a + b)[|a| + k] == b[k];
    }
  }

  lemma AtJoin(s: string, p: nat, a: string, b: string)
    requires At(s, p, a) && At(s, p + |a|, b)
    ensures At(s, p, a + b)
  {
    forall k | 0 <= k < |a| + |b|
      ensures s[p + k] == (a + b)[k]
    {
      if k >= |a| {
        assert s[p + |a| + (k - |a|)] == b[k - |a|];
      }
    }
  }

  /** A byte that cannot continue a number, such as the `,` or newline format_value writes after a value. */
  predicate Delimited(s: string, p: nat)
  {
    p < |s| && !IsDigit(s[p]) && s[p] != '.'
  }

  /** skip_whitespace over a run of whitespace stops at the byte after it when that is none. */
  lemma SkipWsOver(s: string, c: Cursor, w: string)
    requires At(s, c.pos, w) && c.pos + |w| < |s| && !IsWhitespace(s[c.pos + |w|])
    requires forall k :: 0 <= k < |w| ==> IsWhitespace(w[k])
    ensures SkipWs(s, c).pos == c.pos + |w|
  {
    SkipWsSkipsWhitespace(s, c);
    forall k | c.pos <= k < c.pos + |w|
      ensures IsWhitespace(s[k])
    {
      AtIndex(s, c.pos, w, k - c.pos);
    }
  }

  /** parse_string at a quote, before StringContent and a quote, reads exactly that content back. */
  lemma StringLitRoundTrip(s: string, c: Cursor, v: string)
    requires At(s, c.pos + 1, v) && c.pos + |v| + 1 < |s| && StringContent(v)
    requires s[c.pos] == '"' && s[c.pos + |v| + 1] == '"'
    ensures StringLit(s, c) == Done(v, Advance(c, |v| + 2))
  {
    var lo := c.pos + 1;
    AtSlice(s, lo, v);
    forall k | lo <= k < lo + |v|
      ensures !ClosesAt(s, lo, k)
    {
      assert s[k] == v[k - lo] && s[lo..k] == v[0..k - lo];
      assert !ClosesAt(v, 0, k - lo);
    }
    assert v[0..|v|] == v;
    assert ClosesAt(s, lo, lo + |v|);
    StringLitMeaning(s, c);
  }

  /** The digit loop stops exactly at the end of a run of digits with at most one `.` in it. */
  lemma {:induction false} NumberEndOver(s: string, i: nat, e: nat, seenDot: bool)
    requires i <= e < |s|
    requires forall k :: i <= k < e ==> IsDigit(s[k]) || s[k] == '.'
    requires DotCount(s[i..e]) + (if seenDot then 1 else 0) <= 1
    requires !IsDigit(s[e]) && s[e] != '.'
    ensures NumberEnd(s, i, seenDot) == e
    decreases e - i
  {
    if i < e {
      assert s[i..e][1..] == s[i + 1..e];
      NumberEndOver(s, i + 1, e, seenDot || s[i] == '.');
    }
  }

  /** The number scan on a NumberText followed by a delimiter reads exactly that text. */
  lemma NumberLitRoundTrip(s: string, c: Cursor, t: string)
    requires At(s, c.pos, t) && NumberText(t) && Delimited(s, c.pos + |t|)
    ensures c.pos < |s| && (s[c.pos] == '-' || IsDigit(s[c.pos]))
    ensures NumberLit(s, c).value == CreateNode(None, Some(t), Number)
    ensures NumberLit(s, c).next.pos == c.pos + |t|
  {
    var e := c.pos + |t|;
    AtSlice(s, c.pos, t);
    assert s[c.pos] == t[0];
    var digits := if s[c.pos] == '-' then c.pos + 1 else c.pos;
    forall k | digits <= k < e
      ensures IsDigit(s[k]) || s[k] == '.'
    {
      assert s[k] == t[k - c.pos];
    }
    if s[c.pos] == '-' {
      assert s[digits..e] == t[1..];
    } else {
      assert s[digits..e] == t;
    }
    NumberEndOver(s, digits, e, false);
  }

  /** The first byte format_value writes after the indentation starts a value. */
  lemma UnindentedStarts(n: Node, indent: nat, level: nat)
    requires WellFormed(n)
    ensures var u := Unindented(n, indent, level);
      |u| > 0 && !IsWhitespace(u[0]) && u[0] != ']' && u[0] != '}' && u[0] != ','
  {
  }

  // ---------------------------------------------------------------- arrays

  /** Elements i.. of an array at the given level. */
  function ElementsFrom(n: Node, indent: nat, level: nat, i: nat): string
    requires i <= |n.children|
    decreases |n.children| - i
  {
    if i == |n.children| then [] else Element(n, indent, level, i) + ElementsFrom(n, indent, level, i + 1)
  }

  /** An array body is its first i elements followed by the rest. */
  lemma {:induction false} ElementsSplit(n: Node, indent: nat, level: nat, i: nat)
    requires i <= |n.children|
    ensures ArrayBody(n, indent, level, i) + ElementsFrom(n, indent, level, i) == ArrayBody(n, indent, level, |n.children|)
    decreases |n.children| - i
  {
    if i < |n.children| {
      ElementsSplit(n, indent, level, i + 1);
      ConcatAssoc(ArrayBody(n, indent, level, i), Element(n, indent, level, i), ElementsFrom(n, indent, level, i + 1));
    }
  }

  /** What format_value writes after an array's `[` from element i on. */
  function ArrayTail(n: Node, indent: nat, level: nat, i: nat): string
    requires i <= |n.children|
  {
    "\n" + (ElementsFrom(n, indent, level, i) + (Spaces(level * indent) + "]"))
  }

  lemma ArrayTailUnfolds(n: Node, indent: nat, level: nat, i: nat)
    requires i <= |n.children|
    ensures ArrayTail(n, indent, level, i) == "\n" + (ElementsFrom(n, indent, level, i) + (Spaces(level * indent) + "]"))
  {
  }

  /** An array's text is its `[` followed by the tail from element 0. */
  lemma ArrayText(n: Node, indent: nat, level: nat)
    requires n.kind == Array
    ensures Unindented(n, indent, level) == "[" + ArrayTail(n, indent, level, 0)
  {
    ElementsSplit(n, indent, level, 0);
  }

  // ---------------------------------------------------------------- objects

  /** Members i.. of an object at the given level. */
  function MembersFrom(n: Node, indent: nat, level: nat, i: nat): string
    requires i <= |n.children|
    decreases |n.children| - i
  {
    if i == |n.children| then [] else Member(n, indent, level, i) + MembersFrom(n, indent, level, i + 1)
  }

  /** An object body is its first i members followed by the rest. */
  lemma {:induction false} MembersSplit(n: Node, indent: nat, level: nat, i: nat)
    requires i <= |n.children|
    ensures ObjectBody(n, indent, level, i) + MembersFrom(n, indent, level, i) == ObjectBody(n, indent, level, |n.children|)
    decreases |n.children| - i
  {
    if i < |n.children| {
      MembersSplit(n, indent, level, i + 1);
      ConcatAssoc(ObjectBody(n, indent, level, i), Member(n, indent, level, i), MembersFrom(n, indent, level, i + 1));
    }
  }

  /** What format_value writes after an object's `{` from member i on. */
  function ObjectTail(n: Node, indent: nat, level: nat, i: nat): string
    requires i <= |n.children|
  {
    "\n" + (MembersFrom(n, indent, level, i) + (Spaces(level * indent) + "}"))
  }

  lemma ObjectTailUnfolds(n: Node, indent: nat, level: nat, i: nat)
    requires i <= |n.children|
    ensures ObjectTail(n, indent, level, i) == "\n" + (MembersFrom(n, indent, level, i) + (Spaces(level * indent) + "}"))
  {
  }

  /** An object's text is its `{` followed by the tail from member 0. */
  lemma ObjectText(n: Node, indent: nat, level: nat)
    requires n.kind == Object
    ensures Unindented(n, indent, level) == "{" + ObjectTail(n, indent, level, 0)
  {
    MembersSplit(n, indent, level, 0);
  }

  // ---------------------------------------------------------------- the round trip

  /**
   * parse_value at the first byte format_value writes for n after the
   * indentation reads n back, unnamed, and stops right after its text.
   */
  lemma {:induction false} UnindentedRoundTrip(n: Node, indent: nat, level: nat, s: string, c: Cursor)
    requires WellFormed(n)
    requires At(s, c.pos, Unindented(n, indent, level))
    requires Delimited(s, c.pos + |Unindented(n, indent, level)|)
    ensures var r := Value(s, c);
      r.Done? && r.value == n.(name := None) && r.next.pos == c.pos + |Unindented(n, indent, level)|
    decreases n, 3, 0, 0
  {
    match n.kind {
      case Array => ArrayRoundTrip(n, indent, level, s, c);
      case Object => ObjectRoundTrip(n, indent, level, s, c);
      case String => StringRoundTrip(n, indent, level, s, c);
      case _ => ScalarRoundTrip(n, indent, level, s, c);
    }
  }

  /** The null, boolean and number cases of UnindentedRoundTrip: the literal and the number scan. */
  lemma ScalarRoundTrip(n: Node, indent: nat, level: nat, s: string, c: Cursor)
    requires WellFormed(n) && (n.kind == Null || n.kind == Bool || n.kind == Number)
    requires At(s, c.pos, Unindented(n, indent, level))
    requires Delimited(s, c.pos + |Unindented(n, indent, level)|)
    ensures var r := Value(s, c);
      r.Done? && r.value == n.(name := None) && r.next.pos == c.pos + |Unindented(n, indent, level)|
  {
    var u := Unindented(n, indent, level);
    UnindentedStarts(n, indent, level);
    AtIndex(s, c.pos, u, 0);
    assert SkipWs(s, c) == c;
    if n.kind == Number {
      NumberLitRoundTrip(s, c, n.value.value);
    } else {
      AtSlice(s, c.pos, u);
    }
  }

  /** The string case of UnindentedRoundTrip: parse_string between the quotes. */
  lemma StringRoundTrip(n: Node, indent: nat, level: nat, s: string, c: Cursor)
    requires WellFormed(n) && n.kind == String
    requires At(s, c.pos, Unindented(n, indent, level))
    requires Delimited(s, c.pos + |Unindented(n, indent, level)|)
    ensures var r := Value(s, c);
      r.Done? && r.value == n.(name := None) && r.next.pos == c.pos + |Unindented(n, indent, level)|
  {
    var v := n.value.value;
    assert Unindented(n, indent, level) == ("\"" + v) + "\"";
    AtSplit(s, c.pos, "\"" + v, "\"");
    AtSplit(s, c.pos, "\"", v);
    AtIndex(s, c.pos, "\"", 0);
    AtIndex(s, c.pos + |v| + 1, "\"", 0);
    assert SkipWs(s, c) == c;
    StringLitRoundTrip(s, c, v);
  }

  /** The array case of UnindentedRoundTrip: parse_array at the `[`. */
  lemma {:induction false} ArrayRoundTrip(n: Node, indent: nat, level: nat, s: string, c: Cursor)
    requires WellFormed(n) && n.kind == Array
    requires At(s, c.pos, Unindented(n, indent, level))
    ensures var r := Value(s, c);
      r.Done? && r.value == n.(name := None) && r.next.pos == c.pos + |Unindented(n, indent, level)|
    decreases n, 2, 0, 0
  {
    ArrayText(n, indent, level);
    AtSplit(s, c.pos, "[", ArrayTail(n, indent, level, 0));
    AtIndex(s, c.pos, "[", 0);
    assert SkipWs(s, c) == c;
    ArrayTailRoundTrip(n, indent, level, s, Advance(c, 1), 0);
    assert n.(name := None, children := n.children[..0]) == CreateNode(None, None, Array);
  }

  /** The object case of UnindentedRoundTrip: parse_object at the `{`. */
  lemma {:induction false} ObjectRoundTrip(n: Node, indent: nat, level: nat, s: string, c: Cursor)
    requires WellFormed(n) && n.kind == Object
    requires At(s, c.pos, Unindented(n, indent, level))
    ensures var r := Value(s, c);
      r.Done? && r.value == n.(name := None) && r.next.pos == c.pos + |Unindented(n, indent, level)|
    decreases n, 2, 0, 0
  {
    ObjectText(n, indent, level);
    AtSplit(s, c.pos, "{", ObjectTail(n, indent, level, 0));
    AtIndex(s, c.pos, "{", 0);
    assert SkipWs(s, c) == c;
    ObjectTailRoundTrip(n, indent, level, s, Advance(c, 1), 0);
    assert n.(name := None, children := n.children[..0]) == CreateNode(None, None, Object);
  }

  /**
   * WellFormed(n) as one fact. The loop proofs below hand it from step to
   * step; bound to a variable, it is checked at each call as a whole
   * rather than case by case. It says nothing more than WellFormed: it
   * exists only to keep those proofs small.
   */
  predicate Sound(n: Node)
  {
    var ok := WellFormed(n); ok
  }

  /** A child of a WellFormed container is WellFormed and named as the container requires. */
  lemma ChildWellFormed(n: Node, i: nat)
    requires Sound(n) && (n.kind == Array || n.kind == Object) && i < |n.children|
    ensures WellFormed(n.children[i])
    ensures n.kind == Array ==> n.children[i].name == Some(Decimal(i))
    ensures n.kind == Object ==> n.children[i].name.Some? && StringContent(n.children[i].name.value)
  {
  }

  /** Appending child i, read back unnamed and then given its own name, extends the first i children by one. */
  lemma NextChild(n: Node, i: nat, name: Option<string>)
    requires i < |n.children| && n.children[i].name == name
    ensures AddChild(n.(name := None, children := n.children[..i]), Some(n.children[i].(name := None).(name := name)))
         == n.(name := None, children := n.children[..i + 1])
  {
    assert n.children[..i] + [n.children[i]] == n.children[..i + 1];
  }

  /** The last value is followed by a newline alone. */
  lemma LastSeparator(i: nat, count: nat, rest: string)
    requires i + 1 == count
    ensures Separator(i, count) + rest == "\n" + rest
  {
  }

  /**
   * A value followed by a comma: the loop of parse_array or parse_object
   * consumes the comma with the whitespace after it, and the newline and
   * the rest follow the comma.
   */
  lemma CommaRoundTrip(s: string, next: Cursor, i: nat, count: nat, rest: string)
    requires next.pos <= |s| && i + 1 < count
    requires At(s, next.pos, Separator(i, count) + rest)
    ensures At(s, Advance(next, 1).pos, "\n" + rest)
    ensures Advance(next, 1).pos + |"\n" + rest| == next.pos + |Separator(i, count) + rest|
    ensures AfterComma(s, SkipWs(s, next)) == SkipWs(s, Advance(next, 1))
  {
    assert Separator(i, count) + rest == "," + ("\n" + rest);
    AtSplit(s, next.pos, ",", "\n" + rest);
    AtIndex(s, next.pos, ",", 0);
    assert SkipWs(s, next) == next;
  }

  /** The text from element i on: a newline, the element's indentation and text, its separator, the rest. */
  lemma ArrayTailShape(n: Node, indent: nat, level: nat, i: nat)
    requires i < |n.children|
    ensures ArrayTail(n, indent, level, i) ==
      "\n" + ((Spaces((level + 1) * indent) + Unindented(n.children[i], indent, level + 1))
              + (Separator(i, |n.children|) + (ElementsFrom(n, indent, level, i + 1) + (Spaces(level * indent) + "]"))))
  {
    var element := Element(n, indent, level, i);
    var ef := ElementsFrom(n, indent, level, i + 1);
    var closing := Spaces(level * indent) + "]";
    ConcatAssoc(element, ef, closing);
    assert element == Render(n.children[i], indent, level + 1) + Separator(i, |n.children|);
    ConcatAssoc(Render(n.children[i], indent, level + 1), Separator(i, |n.children|), ef + closing);
  }

  /** Where the pieces of an element sit. */
  lemma ElementBytes(s: string, p: nat, m: string, u: string, tail: string)
    requires At(s, p, "\n" + ((m + u) + tail))
    ensures At(s, p, "\n" + m) && At(s, p + 1 + |m|, u) && At(s, p + 1 + |m| + |u|, tail)
  {
    AtSplit(s, p, "\n", (m + u) + tail);
    AtSplit(s, p + 1, m + u, tail);
    AtSplit(s, p + 1, m, u);
    AtJoin(s, p, "\n", m);
  }

  /**
   * Where skip_whitespace leaves the cursor before an element: past the
   * newline and the indentation, at the value's text, which a separator
   * follows.
   */
  lemma ElementPlace(s: string, c: Cursor, m: string, u: string, tail: string)
    requires At(s, c.pos, "\n" + ((m + u) + tail))
    requires |u| > 0 && !IsWhitespace(u[0]) && |tail| > 0 && (tail[0] == ',' || tail[0] == '\n')
    requires forall k :: 0 <= k < |m| ==> m[k] == ' '
    ensures var c1 := SkipWs(s, c);
      && c1.pos == c.pos + 1 + |m| && c1.pos < |s| && s[c1.pos] == u[0]
      && TextAt(s, c1.pos, u, tail)
      && c1.pos + |u| + |tail| == c.pos + |"\n" + ((m + u) + tail)|
  {
    ElementBytes(s, c.pos, m, u, tail);
    var at := c.pos + 1 + |m|;
    AtIndex(s, at, u, 0);
    SkipWsOver(s, c, "\n" + m);
    AtIndex(s, at + |u|, tail, 0);
  }

  /** The text from member i on: a newline, the key line with the value's text, its separator, the rest. */
  lemma ObjectTailShape(n: Node, indent: nat, level: nat, i: nat)
    requires i < |n.children| && n.children[i].name.Some?
    ensures var m := Spaces((level + 1) * indent);
      ObjectTail(n, indent, level, i) ==
      "\n" + (((m + "\"" + n.children[i].name.value + "\": ") + (m + Unindented(n.children[i], indent, level + 1)))
              + (Separator(i, |n.children|) + (MembersFrom(n, indent, level, i + 1) + (Spaces(level * indent) + "}"))))
  {
    var member := Member(n, indent, level, i);
    var ef := MembersFrom(n, indent, level, i + 1);
    var closing := Spaces(level * indent) + "}";
    var head := MemberHead(n.children[i], indent, level);
    ConcatAssoc(member, ef, closing);
    assert member == (head + Render(n.children[i], indent, level + 1)) + Separator(i, |n.children|);
    ConcatAssoc(head + Render(n.children[i], indent, level + 1), Separator(i, |n.children|), ef + closing);
  }

  /** Where the pieces of a member sit: the key between quotes, `: `, the indentation and the value. */
  lemma MemberBytes(s: string, p: nat, m: string, name: string, u: string, tail: string)
    requires At(s, p, "\n" + (((m + "\"" + name + "\": ") + (m + u)) + tail))
    ensures var at := p + 1 + |m|;
      var vat := at + |name| + 4 + |m|;
      && At(s, p, "\n" + m) && At(s, at + 1, name) && At(s, at + |name| + 4, m) && At(s, vat, u) && At(s, vat + |u|, tail)
      && s[at] == '"' && s[at + |name| + 1] == '"' && s[at + |name| + 2] == ':' && s[at + |name| + 3] == ' '
  {
    var head := m + "\"" + name + "\": ";
    AtSplit(s, p, "\n", (head + (m + u)) + tail);
    AtSplit(s, p + 1, head + (m + u), tail);
    AtSplit(s, p + 1, head, m + u);
    AtSplit(s, p + 1, m + "\"" + name, "\": ");
    AtSplit(s, p + 1, m + "\"", name);
    AtSplit(s, p + 1, m, "\"");
    var at := p + 1 + |m|;
    AtSplit(s, at + |name| + 4, m, u);
    AtJoin(s, p, "\n", m);
    AtIndex(s, at, "\"", 0);
    AtIndex(s, at + |name| + 1, "\": ", 0);
    AtIndex(s, at + |name| + 1, "\": ", 1);
    AtIndex(s, at + |name| + 1, "\": ", 2);
  }

  /** skip_whitespace over a newline and spaces stops at the closing bracket after them. */
  lemma CloserAt(s: string, c: Cursor, pad: string, closer: char)
    requires At(s, c.pos, ("\n" + pad) + [closer]) && !IsWhitespace(closer)
    requires forall k :: 0 <= k < |pad| ==> pad[k] == ' '
    ensures SkipWs(s, c).pos == c.pos + 1 + |pad| && s[c.pos + 1 + |pad|] == closer
  {
    AtSplit(s, c.pos, "\n" + pad, [closer]);
    AtIndex(s, c.pos + 1 + |pad|, [closer], 0);
    SkipWsOver(s, c, "\n" + pad);
  }

  /**
   * The element loop of parse_array, entered with elements ..i parsed and
   * the whitespace after the `[` or the last comma still ahead, reads the
   * remaining elements and the `]`.
   */
  lemma {:induction false} ArrayTailRoundTrip(n: Node, indent: nat, level: nat, s: string, c: Cursor, i: nat)
    requires Sound(n) && n.kind == Array && i <= |n.children|
    requires At(s, c.pos, ArrayTail(n, indent, level, i))
    ensures SkipWs(s, c).pos < |s| && s[SkipWs(s, c).pos] != ','
    ensures var r := ArrayItems(s, SkipWs(s, c), n.(name := None, children := n.children[..i]));
      r.Done? && r.value == n.(name := None) && r.next.pos == c.pos + |ArrayTail(n, indent, level, i)|
    decreases n, 1, |n.children| - i, 4
  {
    if i == |n.children| {
      CloseArrayRoundTrip(n, indent, level, s, c, i);
    } else {
      ArrayElementRoundTrip(n, indent, level, s, c, i);
    }
  }

  /** The end of the array loop: skip_whitespace stops at the `]` after the newline and the indentation. */
  lemma CloseArrayRoundTrip(n: Node, indent: nat, level: nat, s: string, c: Cursor, i: nat)
    requires n.kind == Array && i == |n.children|
    requires At(s, c.pos, ArrayTail(n, indent, level, i))
    ensures SkipWs(s, c).pos < |s| && s[SkipWs(s, c).pos] != ','
    ensures AfterComma(s, SkipWs(s, c)) == SkipWs(s, c)
    ensures var r := ArrayItems(s, SkipWs(s, c), n.(name := None, children := n.children[..i]));
      r.Done? && r.value == n.(name := None) && r.next.pos == c.pos + |ArrayTail(n, indent, level, i)|
  {
    var pad := Spaces(level * indent);
    assert ArrayTail(n, indent, level, i) == ("\n" + pad) + "]";
    CloserAt(s, c, pad, ']');
    assert n.children[..i] == n.children;
  }

  /** One turn of the element loop of parse_array over element i. */
  lemma {:induction false} ArrayElementRoundTrip(n: Node, indent: nat, level: nat, s: string, c: Cursor, i: nat)
    requires Sound(n) && n.kind == Array && i < |n.children|
    requires At(s, c.pos, ArrayTail(n, indent, level, i))
    ensures SkipWs(s, c).pos < |s| && s[SkipWs(s, c).pos] != ','
    ensures var r := ArrayItems(s, SkipWs(s, c), n.(name := None, children := n.children[..i]));
      r.Done? && r.value == n.(name := None) && r.next.pos == c.pos + |ArrayTail(n, indent, level, i)|
    decreases n, 1, |n.children| - i, 3
  {
    var child := n.children[i];
    var m := Spaces((level + 1) * indent);
    var u := Unindented(child, indent, level + 1);
    var after := Separator(i, |n.children|) + (ElementsFrom(n, indent, level, i + 1) + (Spaces(level * indent) + "]"));
    ArrayTailShape(n, indent, level, i);
    UnindentedStarts(child, indent, level + 1);
    assert after[0] == ',' || after[0] == '\n';
    ElementPlace(s, c, m, u, after);
    ArrayTurnRoundTrip(n, indent, level, s, SkipWs(s, c), i);
  }

  /**
   * A turn of the element loop of parse_array at the first byte of
   * element i: the value, its separator and the remaining elements.
   */
  lemma {:induction false} ArrayTurnRoundTrip(n: Node, indent: nat, level: nat, s: string, c1: Cursor, i: nat)
    requires Sound(n) && n.kind == Array && i < |n.children|
    requires c1.pos < |s| && s[c1.pos] != ']'
    requires TextAt(s, c1.pos, Unindented(n.children[i], indent, level + 1),
                    Separator(i, |n.children|) + (ElementsFrom(n, indent, level, i + 1) + (Spaces(level * indent) + "]")))
    ensures var r := ArrayItems(s, c1, n.(name := None, children := n.children[..i]));
      && r.Done? && r.value == n.(name := None)
      && r.next.pos == c1.pos + |Unindented(n.children[i], indent, level + 1)|
           + |Separator(i, |n.children|) + (ElementsFrom(n, indent, level, i + 1) + (Spaces(level * indent) + "]"))|
    decreases n, 1, |n.children| - i, 2
  {
    var after := Separator(i, |n.children|) + (ElementsFrom(n, indent, level, i + 1) + (Spaces(level * indent) + "]"));
    ChildValueRoundTrip(n, indent, level, s, c1, i, after);
    var v := Value(s, c1);
    ArrayRestRoundTrip(n, indent, level, s, v.next, i);
    ArrayItemsStep(s, c1, n.(name := None, children := n.children[..i]));
    NextChild(n, i, Some(Decimal(i)));
  }

  /**
   * After the value of element i, at its separator: the rest of the
   * element loop of parse_array, with elements ..i + 1 parsed, reads the
   * remaining elements and the `]`.
   */
  lemma {:induction false} ArrayRestRoundTrip(n: Node, indent: nat, level: nat, s: string, next: Cursor, i: nat)
    requires Sound(n) && n.kind == Array && i < |n.children| && next.pos <= |s|
    requires At(s, next.pos, Separator(i, |n.children|) + (ElementsFrom(n, indent, level, i + 1) + (Spaces(level * indent) + "]")))
    ensures var r := ArrayItems(s, AfterComma(s, SkipWs(s, next)), n.(name := None, children := n.children[..i + 1]));
      && r.Done? && r.value == n.(name := None)
      && r.next.pos == next.pos + |Separator(i, |n.children|) + (ElementsFrom(n, indent, level, i + 1) + (Spaces(level * indent) + "]"))|
    decreases n, 1, |n.children| - i, 1
  {
    if i + 1 < |n.children| {
      MidArrayRoundTrip(n, indent, level, s, next, i);
    } else {
      LastArrayRoundTrip(n, indent, level, s, next, i);
    }
  }

  /** An element followed by a comma: skip the comma and the newline after it, then the remaining elements. */
  lemma {:induction false} MidArrayRoundTrip(n: Node, indent: nat, level: nat, s: string, next: Cursor, i: nat)
    requires Sound(n) && n.kind == Array && i + 1 < |n.children| && next.pos <= |s|
    requires At(s, next.pos, Separator(i, |n.children|) + (ElementsFrom(n, indent, level, i + 1) + (Spaces(level * indent) + "]")))
    ensures var r := ArrayItems(s, AfterComma(s, SkipWs(s, next)), n.(name := None, children := n.children[..i + 1]));
      && r.Done? && r.value == n.(name := None)
      && r.next.pos == next.pos + |Separator(i, |n.children|) + (ElementsFrom(n, indent, level, i + 1) + (Spaces(level * indent) + "]"))|
    decreases n, 1, |n.children| - i, 0
  {
    MidArrayText(n, indent, level, s, next, i);
    ArrayTailRoundTrip(n, indent, level, s, Advance(next, 1), i + 1);
  }

  /** After a element and its comma, the tail from the next element on follows the comma. */
  lemma MidArrayText(n: Node, indent: nat, level: nat, s: string, next: Cursor, i: nat)
    requires i + 1 < |n.children| && next.pos <= |s|
    requires At(s, next.pos, Separator(i, |n.children|) + (ElementsFrom(n, indent, level, i + 1) + (Spaces(level * indent) + "]")))
    ensures At(s, Advance(next, 1).pos, ArrayTail(n, indent, level, i + 1))
    ensures AfterComma(s, SkipWs(s, next)) == SkipWs(s, Advance(next, 1))
    ensures Advance(next, 1).pos + |ArrayTail(n, indent, level, i + 1)| == next.pos + |Separator(i, |n.children|) + (ElementsFrom(n, indent, level, i + 1) + (Spaces(level * indent) + "]"))|
  {
    var rest := ElementsFrom(n, indent, level, i + 1) + (Spaces(level * indent) + "]");
    CommaRoundTrip(s, next, i, |n.children|, rest);
    ArrayTailUnfolds(n, indent, level, i + 1);
  }

  /** The last element: its newline, the indentation and the closing bracket. */
  lemma {:induction false} LastArrayRoundTrip(n: Node, indent: nat, level: nat, s: string, next: Cursor, i: nat)
    requires n.kind == Array && i + 1 == |n.children| && next.pos <= |s|
    requires At(s, next.pos, Separator(i, |n.children|) + (ElementsFrom(n, indent, level, i + 1) + (Spaces(level * indent) + "]")))
    ensures var r := ArrayItems(s, AfterComma(s, SkipWs(s, next)), n.(name := None, children := n.children[..i + 1]));
      && r.Done? && r.value == n.(name := None)
      && r.next.pos == next.pos + |Separator(i, |n.children|) + (ElementsFrom(n, indent, level, i + 1) + (Spaces(level * indent) + "]"))|
    decreases n, 1, |n.children| - i, 0
  {
    LastSeparator(i, |n.children|, ElementsFrom(n, indent, level, i + 1) + (Spaces(level * indent) + "]"));
    ArrayTailUnfolds(n, indent, level, i + 1);
    CloseArrayRoundTrip(n, indent, level, s, next, i + 1);
  }

  /**
   * The member loop of parse_object, entered with members ..i parsed and
   * the whitespace after the `{` or the last comma still ahead, reads the
   * remaining members and the `}`.
   */
  lemma {:induction false} ObjectTailRoundTrip(n: Node, indent: nat, level: nat, s: string, c: Cursor, i: nat)
    requires Sound(n) && n.kind == Object && i <= |n.children|
    requires At(s, c.pos, ObjectTail(n, indent, level, i))
    ensures SkipWs(s, c).pos < |s| && s[SkipWs(s, c).pos] != ','
    ensures var r := ObjectMembers(s, SkipWs(s, c), n.(name := None, children := n.children[..i]));
      r.Done? && r.value == n.(name := None) && r.next.pos == c.pos + |ObjectTail(n, indent, level, i)|
    decreases n, 1, |n.children| - i, 4
  {
    if i == |n.children| {
      CloseObjectRoundTrip(n, indent, level, s, c, i);
    } else {
      ObjectMemberRoundTrip(n, indent, level, s, c, i);
    }
  }

  /** The end of the object loop: skip_whitespace stops at the `}` after the newline and the indentation. */
  lemma CloseObjectRoundTrip(n: Node, indent: nat, level: nat, s: string, c: Cursor, i: nat)
    requires n.kind == Object && i == |n.children|
    requires At(s, c.pos, ObjectTail(n, indent, level, i))
    ensures SkipWs(s, c).pos < |s| && s[SkipWs(s, c).pos] != ','
    ensures AfterComma(s, SkipWs(s, c)) == SkipWs(s, c)
    ensures var r := ObjectMembers(s, SkipWs(s, c), n.(name := None, children := n.children[..i]));
      r.Done? && r.value == n.(name := None) && r.next.pos == c.pos + |ObjectTail(n, indent, level, i)|
    ensures c.pos <= |s| && MembersRead(n, s, AfterComma(s, SkipWs(s, c)), i, c.pos + |ObjectTail(n, indent, level, i)|)
  {
    var pad := Spaces(level * indent);
    assert ObjectTail(n, indent, level, i) == ("\n" + pad) + "}";
    CloserAt(s, c, pad, '}');
    assert n.children[..i] == n.children;
  }

  /**
   * The key part of parse_object's loop reads name from
   * the quote at c1 and stops where the text u starts, a delimiter and
   * then the text after follow.
   */
  predicate KeyAt(s: string, c1: Cursor, name: string, u: string, after: string)
  {
    && c1.pos < |s| && s[c1.pos] == '"'
    && Key(s, c1).Done? && Key(s, c1).value == name
    && TextAt(s, Key(s, c1).next.pos, u, after)
  }

  /** A value's text u sits at p, followed by a delimiter that starts the text after. */
  predicate TextAt(s: string, p: nat, u: string, after: string)
  {
    At(s, p, u) && Delimited(s, p + |u|) && At(s, p + |u|, after)
  }

  /**
   * The key of a member as format_value writes it, a quoted StringContent,
   * `:`, a space and the value's indentation, read by the key part of
   * parse_object's loop.
   */
  lemma KeyRoundTrip(s: string, c: Cursor, name: string, m: string)
    requires KeyText(s, c, name, m)
    ensures var k := Key(s, c); k.Done? && k.value == name && k.next.pos == c.pos + |name| + 4 + |m|
  {
    StringLitRoundTrip(s, c, name);
    var afterKey := Advance(c, |name| + 2);
    var space := Advance(afterKey, 1);
    assert SkipWs(s, space) == SkipWs(s, Advance(space, 1));
    SkipWsOver(s, Advance(space, 1), m);
    KeyAfterString(s, c, name, afterKey);
  }

  /**
   * A key as format_value writes it at c: the quoted StringContent name,
   * `:`, a space and the indentation m, then a byte that is no whitespace.
   */
  predicate KeyText(s: string, c: Cursor, name: string, m: string)
  {
    && StringContent(name) && At(s, c.pos + 1, name) && At(s, c.pos + |name| + 4, m)
    && c.pos + |name| + 4 + |m| < |s| && !IsWhitespace(s[c.pos + |name| + 4 + |m|])
    && s[c.pos] == '"' && s[c.pos + |name| + 1] == '"' && s[c.pos + |name| + 2] == ':' && s[c.pos + |name| + 3] == ' '
    && (forall k :: 0 <= k < |m| ==> m[k] == ' ')
  }

  /** The key part of parse_object's loop once parse_string has read the key and a `:` follows. */
  lemma KeyAfterString(s: string, c: Cursor, name: string, after: Cursor)
    requires c.pos <= |s| && StringLit(s, c) == Done(name, after)
    requires after.pos < |s| && s[after.pos] == ':'
    ensures Key(s, c) == Done(name, SkipWs(s, Advance(after, 1)))
  {
    assert SkipWs(s, after) == after;
  }

  /** The first half of a turn of the member loop: whitespace, the key, `:` and whitespace. */
  lemma MemberKeyRoundTrip(n: Node, indent: nat, level: nat, s: string, c: Cursor, i: nat)
    requires Sound(n) && n.kind == Object && i < |n.children|
    requires At(s, c.pos, ObjectTail(n, indent, level, i))
    ensures var c1 := SkipWs(s, c);
      && c1.pos < |s| && s[c1.pos] == '"' && Key(s, c1).Done?
      && n.children[i].name.Some?
      && KeyAt(s, c1, n.children[i].name.value, Unindented(n.children[i], indent, level + 1),
               Separator(i, |n.children|) + (MembersFrom(n, indent, level, i + 1) + (Spaces(level * indent) + "}")))
      && Key(s, c1).next.pos + |Unindented(n.children[i], indent, level + 1)|
         + |Separator(i, |n.children|) + (MembersFrom(n, indent, level, i + 1) + (Spaces(level * indent) + "}"))|
         == c.pos + |ObjectTail(n, indent, level, i)|
  {
    var child := n.children[i];
    var name := child.name.value;
    var m := Spaces((level + 1) * indent);
    var u := Unindented(child, indent, level + 1);
    var after := Separator(i, |n.children|) + (MembersFrom(n, indent, level, i + 1) + (Spaces(level * indent) + "}"));
    ObjectTailShape(n, indent, level, i);
    ChildWellFormed(n, i);
    UnindentedStarts(child, indent, level + 1);
    assert after[0] == ',' || after[0] == '\n';
    MemberKeyBytes(s, c, m, name, u, after);
  }

  /** MemberKeyRoundTrip on the text alone. */
  lemma MemberKeyBytes(s: string, c: Cursor, m: string, name: string, u: string, tail: string)
    requires At(s, c.pos, "\n" + (((m + "\"" + name + "\": ") + (m + u)) + tail))
    requires StringContent(name) && |u| > 0 && !IsWhitespace(u[0])
    requires |tail| > 0 && (tail[0] == ',' || tail[0] == '\n')
    requires forall k :: 0 <= k < |m| ==> m[k] == ' '
    ensures var c1 := SkipWs(s, c);
      && c1.pos < |s| && s[c1.pos] == '"' && Key(s, c1).Done?
      && KeyAt(s, c1, name, u, tail)
      && Key(s, c1).next.pos + |u| + |tail| == c.pos + |"\n" + (((m + "\"" + name + "\": ") + (m + u)) + tail)|
  {
    MemberPlace(s, c, m, name, u, tail);
    var c1 := SkipWs(s, c);
    KeyRoundTrip(s, c1, name, m);
    assert Key(s, c1).next.pos == c.pos + 1 + |m| + |name| + 4 + |m|;
  }

  /** Where skip_whitespace leaves the cursor before a member, and where its key and value sit from there. */
  lemma MemberPlace(s: string, c: Cursor, m: string, name: string, u: string, tail: string)
    requires At(s, c.pos, "\n" + (((m + "\"" + name + "\": ") + (m + u)) + tail))
    requires StringContent(name) && |u| > 0 && !IsWhitespace(u[0])
    requires |tail| > 0 && (tail[0] == ',' || tail[0] == '\n')
    requires forall k :: 0 <= k < |m| ==> m[k] == ' '
    ensures var at := c.pos + 1 + |m|;
      var vat := at + |name| + 4 + |m|;
      && SkipWs(s, c).pos == at && KeyText(s, SkipWs(s, c), name, m)
      && TextAt(s, vat, u, tail)
      && vat + |u| + |tail| == c.pos + |"\n" + (((m + "\"" + name + "\": ") + (m + u)) + tail)|
  {
    MemberBytes(s, c.pos, m, name, u, tail);
    var vat := c.pos + 1 + |m| + |name| + 4 + |m|;
    AtIndex(s, vat, u, 0);
    AtIndex(s, vat + |u|, tail, 0);
    SkipWsOver(s, c, "\n" + m);
  }

  /** The value of child i, read by parse_value where its text starts; the text after it follows. */
  lemma {:induction false} ChildValueRoundTrip(n: Node, indent: nat, level: nat, s: string, c: Cursor, i: nat, after: string)
    requires Sound(n) && (n.kind == Array || n.kind == Object) && i < |n.children|
    requires TextAt(s, c.pos, Unindented(n.children[i], indent, level + 1), after)
    ensures var v := Value(s, c);
      && v.Done? && v.value == n.children[i].(name := None)
      && v.next.pos == c.pos + |Unindented(n.children[i], indent, level + 1)| && At(s, v.next.pos, after)
    decreases n, 1, |n.children| - i, 1
  {
    ChildWellFormed(n, i);
    UnindentedRoundTrip(n.children[i], indent, level + 1, s, c);
  }

  /**
   * After the value of member i, at its separator: the rest of the member
   * loop of parse_object, with members ..i + 1 parsed, reads the remaining
   * members and the `}`.
   */
  lemma {:induction false} MemberRestRoundTrip(n: Node, indent: nat, level: nat, s: string, next: Cursor, i: nat)
    requires Sound(n) && n.kind == Object && i < |n.children| && next.pos <= |s|
    requires At(s, next.pos, Separator(i, |n.children|) + (MembersFrom(n, indent, level, i + 1) + (Spaces(level * indent) + "}")))
    ensures var r := ObjectMembers(s, AfterComma(s, SkipWs(s, next)), n.(name := None, children := n.children[..i + 1]));
      && r.Done? && r.value == n.(name := None)
      && r.next.pos == next.pos + |Separator(i, |n.children|) + (MembersFrom(n, indent, level, i + 1) + (Spaces(level * indent) + "}"))|
    decreases n, 1, |n.children| - i, 1
  {
    if i + 1 < |n.children| {
      MidObjectRoundTrip(n, indent, level, s, next, i);
    } else {
      LastObjectRoundTrip(n, indent, level, s, next, i);
    }
  }

  /** A member followed by a comma: skip the comma and the newline after it, then the remaining members. */
  lemma {:induction false} MidObjectRoundTrip(n: Node, indent: nat, level: nat, s: string, next: Cursor, i: nat)
    requires Sound(n) && n.kind == Object && i + 1 < |n.children| && next.pos <= |s|
    requires At(s, next.pos, Separator(i, |n.children|) + (MembersFrom(n, indent, level, i + 1) + (Spaces(level * indent) + "}")))
    ensures var r := ObjectMembers(s, AfterComma(s, SkipWs(s, next)), n.(name := None, children := n.children[..i + 1]));
      && r.Done? && r.value == n.(name := None)
      && r.next.pos == next.pos + |Separator(i, |n.children|) + (MembersFrom(n, indent, level, i + 1) + (Spaces(level * indent) + "}"))|
    decreases n, 1, |n.children| - i, 0
  {
    MidObjectText(n, indent, level, s, next, i);
    ObjectTailRoundTrip(n, indent, level, s, Advance(next, 1), i + 1);
  }

  /** After a member and its comma, the tail from the next member on follows the comma. */
  lemma MidObjectText(n: Node, indent: nat, level: nat, s: string, next: Cursor, i: nat)
    requires i + 1 < |n.children| && next.pos <= |s|
    requires At(s, next.pos, Separator(i, |n.children|) + (MembersFrom(n, indent, level, i + 1) + (Spaces(level * indent) + "}")))
    ensures At(s, Advance(next, 1).pos, ObjectTail(n, indent, level, i + 1))
    ensures AfterComma(s, SkipWs(s, next)) == SkipWs(s, Advance(next, 1))
    ensures Advance(next, 1).pos + |ObjectTail(n, indent, level, i + 1)| == next.pos + |Separator(i, |n.children|) + (MembersFrom(n, indent, level, i + 1) + (Spaces(level * indent) + "}"))|
  {
    var rest := MembersFrom(n, indent, level, i + 1) + (Spaces(level * indent) + "}");
    CommaRoundTrip(s, next, i, |n.children|, rest);
    ObjectTailUnfolds(n, indent, level, i + 1);
  }

  /**
   * The member loop of parse_object, at c with the first i members read,
   * returns the whole object (unnamed) and stops at end.
   */
  predicate MembersRead(n: Node, s: string, c: Cursor, i: nat, end: nat)
    requires i <= |n.children| && c.pos <= |s|
  {
    var r := ObjectMembers(s, c, n.(name := None, children := n.children[..i]));
    r.Done? && r.value == n.(name := None) && r.next.pos == end
  }

  /** The last member: its newline, the indentation and the closing bracket. */
  lemma {:induction false} LastObjectRoundTrip(n: Node, indent: nat, level: nat, s: string, next: Cursor, i: nat)
    requires n.kind == Object && i + 1 == |n.children| && next.pos <= |s|
    requires At(s, next.pos, Separator(i, |n.children|) + (MembersFrom(n, indent, level, i + 1) + (Spaces(level * indent) + "}")))
    ensures MembersRead(n, s, AfterComma(s, SkipWs(s, next)), i + 1,
              next.pos + |Separator(i, |n.children|) + (MembersFrom(n, indent, level, i + 1) + (Spaces(level * indent) + "}"))|)
    decreases n, 1, |n.children| - i, 0
  {
    LastObjectText(n, indent, level, s, next, i);
    CloseObjectRoundTrip(n, indent, level, s, next, i + 1);
    MembersReadEnd(n, s, AfterComma(s, SkipWs(s, next)), i + 1, next.pos + |ObjectTail(n, indent, level, i + 1)|,
                   next.pos + |Separator(i, |n.children|) + (MembersFrom(n, indent, level, i + 1) + (Spaces(level * indent) + "}"))|);
  }

  /**
   * A hand-off that keeps LastObjectRoundTrip small: the member loop's
   * outcome restated with an equal end position.
   */
  lemma MembersReadEnd(n: Node, s: string, c: Cursor, i: nat, end: nat, end': nat)
    requires i <= |n.children| && c.pos <= |s| && MembersRead(n, s, c, i, end) && end == end'
    ensures MembersRead(n, s, c, i, end')
  {
  }

  /** After the last member, its separator is the newline that starts the tail. */
  lemma LastObjectText(n: Node, indent: nat, level: nat, s: string, next: Cursor, i: nat)
    requires i + 1 == |n.children| && next.pos <= |s|
    requires At(s, next.pos, Separator(i, |n.children|) + (MembersFrom(n, indent, level, i + 1) + (Spaces(level * indent) + "}")))
    ensures At(s, next.pos, ObjectTail(n, indent, level, i + 1))
    ensures next.pos + |ObjectTail(n, indent, level, i + 1)|
         == next.pos + |Separator(i, |n.children|) + (MembersFrom(n, indent, level, i + 1) + (Spaces(level * indent) + "}"))|
  {
    LastSeparator(i, |n.children|, MembersFrom(n, indent, level, i + 1) + (Spaces(level * indent) + "}"));
    ObjectTailUnfolds(n, indent, level, i + 1);
  }

  /**
   * A turn of the member loop of parse_object once the key of member i is
   * read: the value, its separator and the remaining members.
   */
  lemma {:induction false} MemberTurnRoundTrip(n: Node, indent: nat, level: nat, s: string, c1: Cursor, i: nat)
    requires Sound(n) && n.kind == Object && i < |n.children| && n.children[i].name.Some?
    requires KeyAt(s, c1, n.children[i].name.value, Unindented(n.children[i], indent, level + 1),
                   Separator(i, |n.children|) + (MembersFrom(n, indent, level, i + 1) + (Spaces(level * indent) + "}")))
    ensures var r := ObjectMembers(s, c1, n.(name := None, children := n.children[..i]));
      && r.Done? && r.value == n.(name := None)
      && r.next.pos == Key(s, c1).next.pos + |Unindented(n.children[i], indent, level + 1)|
           + |Separator(i, |n.children|) + (MembersFrom(n, indent, level, i + 1) + (Spaces(level * indent) + "}"))|
    decreases n, 1, |n.children| - i, 2
  {
    var after := Separator(i, |n.children|) + (MembersFrom(n, indent, level, i + 1) + (Spaces(level * indent) + "}"));
    var c2 := Key(s, c1).next;
    ChildValueRoundTrip(n, indent, level, s, c2, i, after);
    var v := Value(s, c2);
    MemberRestRoundTrip(n, indent, level, s, v.next, i);
    ObjectMembersStep(s, c1, n.(name := None, children := n.children[..i]));
    NextChild(n, i, n.children[i].name);
  }

  /** One turn of the member loop of parse_object over member i: key, colon, value, separator. */
  lemma {:induction false} ObjectMemberRoundTrip(n: Node, indent: nat, level: nat, s: string, c: Cursor, i: nat)
    requires Sound(n) && n.kind == Object && i < |n.children|
    requires At(s, c.pos, ObjectTail(n, indent, level, i))
    ensures SkipWs(s, c).pos < |s| && s[SkipWs(s, c).pos] != ','
    ensures var r := ObjectMembers(s, SkipWs(s, c), n.(name := None, children := n.children[..i]));
      r.Done? && r.value == n.(name := None) && r.next.pos == c.pos + |ObjectTail(n, indent, level, i)|
    decreases n, 1, |n.children| - i, 3
  {
    MemberKeyRoundTrip(n, indent, level, s, c, i);
    var c1 := SkipWs(s, c);
    MemberTurnRoundTrip(n, indent, level, s, c1, i);
  }

  /**
   * json_format's text for a tree the parser built parses back to that
   * tree, consuming all of it but the final newline.
   */
  lemma FormatRoundTrip(root: Node, indent: nat)
    requires WellFormed(root) && root.name == None
    ensures var r := Parse(Render(root, indent, 0) + "\n");
      r.Done? && r.value == root && r.next.pos == |Render(root, indent, 0)|
  {
    var text := Render(root, indent, 0);
    var s := text + "\n";
    assert text == Unindented(root, indent, 0);
    assert forall k :: 0 <= k < |text| ==> s[k] == text[k];
    UnindentedRoundTrip(root, indent, 0, s, Start);
  }

  /**
   * Reformatting changes nothing but the indentation: json_format's output
   * parses to the same tree, and formatting it again with any width gives
   * what formatting the input with that width gives. With the same width,
   * formatting is idempotent.
   */
  lemma FormatStable(input: string, w1: nat, w2: nat)
    ensures FormatOf(input, w1).Some? ==>
      && Parse(FormatOf(input, w1).value).Done?
      && Parse(FormatOf(input, w1).value).value == Parse(input).value
      && FormatOf(FormatOf(input, w1).value, w2) == FormatOf(input, w2)
  {
    if Parse(input).Done? {
      FormatRoundTrip(Parse(input).value, w1);
    }
  }
}
