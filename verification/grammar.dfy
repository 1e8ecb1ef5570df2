/**
 * The grammar that the recursive-descent parser of src/json_parser.c
 * accepts, as pure functions of the input and a cursor. Each function
 * returns what the corresponding C routine returns together with the
 * cursor it leaves behind, or the cursor and message of the one
 * diagnostic it records. The class JsonParser (module Parser) is proved to
 * compute exactly these functions.
 *
 * The grammar follows RFC 8259 loosely: commas between members are
 * optional and a trailing comma is accepted; numbers are an optional `-`
 * followed by digits and at most one `.` (no exponent); a string is the raw
 * span up to the first quote not escaped by a backslash, and its escapes
 * are not checked.
 */
module Grammar {
  import opened JsonTypes
  import opened Tree

  /** The parser's cursor: byte offset, line (from 1) and column (from 0). */
  datatype Cursor = Cursor(pos: nat, line: nat, column: nat)

  /**
   * What a parsing routine produces: a value and the cursor after it, or
   * the cursor at which it recorded its diagnostic and the message.
   */
  datatype Parsed<+T> = Done(value: T, next: Cursor) | Failed(at: Cursor, message: string)

  /** The cursor json_parse_tree starts from. */
  const Start := Cursor(0, 1, 0)

  /** The cursor after consuming n bytes that are not line feeds. */
  function Advance(c: Cursor, n: nat): Cursor
  {
    Cursor(c.pos + n, c.line, c.column + n)
  }

  /** The diagnostics a routine's outcome leaves recorded. */
  function DiagnosticsOf<T>(r: Parsed<T>): seq<Diagnostic>
  {
    match r
    case Done(_, _) => []
    case Failed(at, m) => [Diagnostic(m, at.line, at.column)]
  }

  /** Where a routine's outcome leaves the cursor: after the value, or where it failed. */
  function EndOf<T>(r: Parsed<T>): Cursor
  {
    match r
    case Done(_, next) => next
    case Failed(at, _) => at
  }

  // ---------------------------------------------------------------- whitespace

  /** skip_whitespace: the cursor after the run of whitespace at c. */
  function SkipWs(s: string, c: Cursor): (r: Cursor)
    requires c.pos <= |s|
    ensures c.pos <= r.pos <= |s|
    decreases |s| - c.pos
  {
    if c.pos < |s| && (s[c.pos] == ' ' || s[c.pos] == '\t' || s[c.pos] == '\r') then
      SkipWs(s, Advance(c, 1))
    else if c.pos < |s| && s[c.pos] == '\n' then
      SkipWs(s, Cursor(c.pos + 1, c.line + 1, 0))
    else
      c
  }

  /** skip_whitespace consumes whitespace only, and all of it. */
  lemma {:induction false} SkipWsSkipsWhitespace(s: string, c: Cursor)
    requires c.pos <= |s|
    ensures var r := SkipWs(s, c);
      && (forall k :: c.pos <= k < r.pos ==> IsWhitespace(s[k]))
      && (r.pos < |s| ==> !IsWhitespace(s[r.pos]))
    decreases |s| - c.pos
  {
    if c.pos < |s| && IsWhitespace(s[c.pos]) {
      SkipWsSkipsWhitespace(s, if s[c.pos] == '\n' then Cursor(c.pos + 1, c.line + 1, 0) else Advance(c, 1));
    }
  }

  /** How many line feeds t holds. */
  function LineBreaks(t: string): nat
  {
    if t == [] then 0 else LineBreaks(t[..|t| - 1]) + (if t[|t| - 1] == '\n' then 1 else 0)
  }

  /** How many bytes of t follow its last line feed (all of them when it has none). */
  function SinceLineBreak(t: string): nat
  {
    if t == [] then 0 else if t[|t| - 1] == '\n' then 0 else SinceLineBreak(t[..|t| - 1]) + 1
  }

  /** Line bookkeeping of one more byte in front of t. */
  lemma {:induction false} LineBreaksPrepend(x: char, t: string)
    ensures LineBreaks([x] + t) == (if x == '\n' then 1 else 0) + LineBreaks(t)
    ensures SinceLineBreak([x] + t) ==
      if LineBreaks(t) > 0 then SinceLineBreak(t) else if x == '\n' then |t| else |t| + 1
  {
    if t != [] {
      var u := [x] + t;
      assert u[..|u| - 1] == [x] + t[..|t| - 1];
      LineBreaksPrepend(x, t[..|t| - 1]);
    }
  }

  /**
   * skip_whitespace counts lines: the line grows by the line feeds it
   * skips; the column grows by the bytes skipped when there is none, and is
   * the number of bytes after the last one otherwise.
   */
  lemma {:induction false} SkipWsLines(s: string, c: Cursor)
    requires c.pos <= |s|
    ensures var r := SkipWs(s, c); var t := s[c.pos..r.pos];
      && r.line == c.line + LineBreaks(t)
      && r.column == if LineBreaks(t) == 0 then c.column + |t| else SinceLineBreak(t)
    decreases |s| - c.pos
  {
    var r := SkipWs(s, c);
    if r.pos > c.pos {
      var next := if s[c.pos] == '\n' then Cursor(c.pos + 1, c.line + 1, 0) else Advance(c, 1);
      assert r == SkipWs(s, next);
      SkipWsLines(s, next);
      assert s[c.pos..r.pos] == [s[c.pos]] + s[c.pos + 1..r.pos];
      LineBreaksPrepend(s[c.pos], s[c.pos + 1..r.pos]);
    }
  }

  // ---------------------------------------------------------------- strings

  /** How many backslashes t ends with. */
  function TrailingBackslashes(t: string): nat
  {
    if t != [] && t[|t| - 1] == '\\' then TrailingBackslashes(t[..|t| - 1]) + 1 else 0
  }

  /**
   * The byte at k closes a string whose content starts at lo: it is a
   * quote, and the backslashes right before it (back to lo) are even in
   * number, so none of them escapes it.
   */
  predicate ClosesAt(s: string, lo: nat, k: nat)
    requires lo <= k < |s|
  {
    s[k] == '"' && TrailingBackslashes(s[lo..k]) % 2 == 0
  }

  /**
   * The raw bytes a string literal can hold: no quote in it would close the
   * literal, and it does not end in a backslash that escapes the closing quote.
   */
  predicate StringContent(v: string)
  {
    && (forall k :: 0 <= k < |v| ==> !ClosesAt(v, 0, k))
    && TrailingBackslashes(v) % 2 == 0
  }

  /**
   * The scan loop of parse_string from index i with the given `escaped`
   * flag: the index of the quote that ends the string, or |s| when the
   * input ends first.
   */
  function StringEnd(s: string, i: nat, escaped: bool): (e: nat)
    requires i <= |s|
    ensures i <= e <= |s|
    ensures e < |s| ==> s[e] == '"'
    decreases |s| - i
  {
    if i == |s| then i
    else if escaped then StringEnd(s, i + 1, false)
    else if s[i] == '\\' then StringEnd(s, i + 1, true)
    else if s[i] == '"' then i
    else StringEnd(s, i + 1, false)
  }

  /** The scan stops at the first closing quote, or at the end when there is none. */
  lemma {:induction false} StringEndFindsClosingQuote(s: string, lo: nat, i: nat, escaped: bool)
    requires lo <= i <= |s|
    requires escaped <==> TrailingBackslashes(s[lo..i]) % 2 == 1
    requires forall k :: lo <= k < i ==> !ClosesAt(s, lo, k)
    ensures var e := StringEnd(s, i, escaped);
      && (e < |s| ==> ClosesAt(s, lo, e))
      && (forall k :: lo <= k < e ==> !ClosesAt(s, lo, k))
    decreases |s| - i
  {
    if i < |s| {
      assert s[lo..i + 1][..i - lo] == s[lo..i];
      if escaped || s[i] != '"' {
        StringEndFindsClosingQuote(s, lo, i + 1, !escaped && s[i] == '\\');
      }
    }
  }

  /**
   * parse_string at c: "Expected string" unless c is at a quote;
   * "Unterminated string" when no closing quote follows; otherwise the raw
   * bytes between the quotes, with the cursor just past the closing quote.
   * Every byte it consumes, a line feed included, counts one column.
   */
  function StringLit(s: string, c: Cursor): (r: Parsed<string>)
    requires c.pos <= |s|
    ensures r.Done? ==> c.pos + 2 <= r.next.pos <= |s| && r.next == Advance(c, |r.value| + 2)
    ensures r.Failed? ==> c.pos <= r.at.pos <= |s|
  {
    if c.pos == |s| || s[c.pos] != '"' then Failed(c, "Expected string")
    else
      var e := StringEnd(s, c.pos + 1, false);
      if e == |s| then Failed(Advance(c, |s| - c.pos), "Unterminated string")
      else Done(s[c.pos + 1..e], Advance(c, e + 1 - c.pos))
  }

  /** The text parse_string returns is always StringContent. */
  lemma StringLitContent(s: string, c: Cursor)
    requires c.pos <= |s|
    ensures StringLit(s, c).Done? ==> StringContent(StringLit(s, c).value)
  {
    if StringLit(s, c).Done? {
      var lo := c.pos + 1;
      var v := StringLit(s, c).value;
      StringEndFindsClosingQuote(s, lo, lo, false);
      assert forall k :: 0 <= k <= |v| ==> v[0..k] == s[lo..lo + k];
      assert forall k :: 0 <= k < |v| ==> ClosesAt(v, 0, k) == ClosesAt(s, lo, lo + k);
    }
  }

  /**
   * What parse_string accepts, without the scan: at a quote it succeeds
   * exactly when a closing quote follows, and then returns the bytes up to
   * the first one; otherwise it fails with the message the C code records.
   */
  lemma StringLitMeaning(s: string, c: Cursor)
    requires c.pos <= |s|
    ensures c.pos == |s| || s[c.pos] != '"' ==> StringLit(s, c) == Failed(c, "Expected string")
    ensures c.pos < |s| && s[c.pos] == '"' ==>
      var lo := c.pos + 1;
      match StringLit(s, c)
      case Done(v, next) =>
        && ClosesAt(s, lo, lo + |v|)
        && (forall k :: lo <= k < lo + |v| ==> !ClosesAt(s, lo, k))
        && v == s[lo..lo + |v|]
      case Failed(at, m) =>
        && (forall k :: lo <= k < |s| ==> !ClosesAt(s, lo, k))
        && at == Advance(c, |s| - c.pos) && m == "Unterminated string"
  {
    if c.pos < |s| && s[c.pos] == '"' {
      StringEndFindsClosingQuote(s, c.pos + 1, c.pos + 1, false);
    }
  }

  // ---------------------------------------------------------------- numbers

  /** How many `.` bytes t holds. */
  function DotCount(t: string): nat
  {
    if t == [] then 0 else (if t[0] == '.' then 1 else 0) + DotCount(t[1..])
  }

  /** The text of a number the parser accepts: `-` or a digit, then digits and at most one `.`. */
  predicate NumberText(t: string)
  {
    && |t| >= 1
    && (t[0] == '-' || IsDigit(t[0]))
    && (forall k :: 1 <= k < |t| ==> IsDigit(t[k]) || t[k] == '.')
    && DotCount(t) <= 1
  }

  /**
   * The digit loop of the number scan from index i: it takes digits and the
   * first `.` and stops at any other byte, a second `.` included.
   */
  function NumberEnd(s: string, i: nat, seenDot: bool): (e: nat)
    requires i <= |s|
    ensures i <= e <= |s|
    decreases |s| - i
  {
    if i == |s| then i
    else if s[i] == '.' && !seenDot then NumberEnd(s, i + 1, true)
    else if !IsDigit(s[i]) then i
    else NumberEnd(s, i + 1, seenDot)
  }

  /**
   * The digit loop takes the longest run of digits holding at most one
   * `.` (none when one was seen already).
   */
  lemma {:induction false} NumberEndScan(s: string, i: nat, seenDot: bool)
    requires i <= |s|
    ensures var e := NumberEnd(s, i, seenDot);
      && (forall k :: i <= k < e ==> IsDigit(s[k]) || s[k] == '.')
      && DotCount(s[i..e]) + (if seenDot then 1 else 0) <= 1
      && (e < |s| ==> !IsDigit(s[e]) && (s[e] != '.' || seenDot || DotCount(s[i..e]) == 1))
      && (i < |s| && IsDigit(s[i]) ==> i < e)
    decreases |s| - i
  {
    if i < |s| && (IsDigit(s[i]) || (s[i] == '.' && !seenDot)) {
      var e := NumberEnd(s, i, seenDot);
      NumberEndScan(s, i + 1, seenDot || s[i] == '.');
      assert s[i..e][1..] == s[i + 1..e];
    }
  }

  /**
   * The number branch of parse_value at c (a `-` or a digit): an optional
   * `-`, then the digit loop. It never fails; a lone `-` is the number "-".
   */
  function NumberLit(s: string, c: Cursor): (r: Parsed<Node>)
    requires c.pos < |s| && (s[c.pos] == '-' || IsDigit(s[c.pos]))
    ensures r.Done? && c.pos < r.next.pos <= |s| && r.next == Advance(c, r.next.pos - c.pos)
    ensures r.value == CreateNode(None, Some(s[c.pos..r.next.pos]), Number)
  {
    var digits := if s[c.pos] == '-' then c.pos + 1 else c.pos;
    var e := NumberEnd(s, digits, false);
    NumberEndScan(s, digits, false);
    Done(CreateNode(None, Some(s[c.pos..e]), Number), Advance(c, e - c.pos))
  }

  /** The text of every number parse_value reads is NumberText. */
  lemma NumberLitText(s: string, c: Cursor)
    requires c.pos < |s| && (s[c.pos] == '-' || IsDigit(s[c.pos]))
    ensures NumberText(NumberLit(s, c).value.value.value)
  {
    var digits := if s[c.pos] == '-' then c.pos + 1 else c.pos;
    var e := NumberEnd(s, digits, false);
    NumberEndScan(s, digits, false);
    var t := s[c.pos..e];
    assert s[c.pos] == '-' ==> t[1..] == s[digits..e];
    assert s[c.pos] != '-' ==> t == s[digits..e];
  }

  // ---------------------------------------------------------------- literals

  /**
   * The `t`, `f` and `n` branches of parse_value: the word must be there in
   * full, else the given diagnostic is recorded at c.
   */
  function Literal(s: string, c: Cursor, word: string, kind: Kind, message: string): (r: Parsed<Node>)
    requires c.pos <= |s|
    ensures r.Done? <==> c.pos + |word| <= |s| && s[c.pos..c.pos + |word|] == word
    ensures r.Done? ==> r.value == CreateNode(None, Some(word), kind) && r.next == Advance(c, |word|)
    ensures r.Failed? ==> r == Failed(c, message)
  {
    if c.pos + |word| <= |s| && s[c.pos..c.pos + |word|] == word then
      Done(CreateNode(None, Some(word), kind), Advance(c, |word|))
    else
      Failed(c, message)
  }

  // ---------------------------------------------------------------- trees

  /**
   * The shape of every tree the parser builds: scalars carry their text
   * and no children (null as "null", a bool as "true" or "false", a number
   * as NumberText, a string as StringContent); containers carry no value;
   * array elements are named "0", "1", ... in order, and object members
   * carry the raw key text as their name.
   */
  predicate WellFormed(n: Node)
  {
    match n.kind
    case Null => n.value == Some("null") && n.children == []
    case Bool => (n.value == Some("true") || n.value == Some("false")) && n.children == []
    case Number => n.value.Some? && NumberText(n.value.value) && n.children == []
    case String => n.value.Some? && StringContent(n.value.value) && n.children == []
    case Array =>
      && n.value == None
      && forall i :: 0 <= i < |n.children| ==>
           n.children[i].name == Some(Decimal(i)) && WellFormed(n.children[i])
    case Object =>
      && n.value == None
      && forall i :: 0 <= i < |n.children| ==>
           n.children[i].name.Some? && StringContent(n.children[i].name.value) && WellFormed(n.children[i])
  }

  /** The optional comma after a member: consumed with the whitespace after it when present. */
  function AfterComma(s: string, c: Cursor): (r: Cursor)
    requires c.pos <= |s|
    ensures c.pos <= r.pos <= |s|
  {
    if c.pos < |s| && s[c.pos] == ',' then SkipWs(s, Advance(c, 1)) else c
  }

  /**
   * parse_value: whitespace, then a dispatch on the first byte. At the end
   * of the input "Unexpected end of input"; a byte that starts no value
   * "Invalid value". A value always consumes at least one byte, is
   * unnamed, and is WellFormed.
   */
  function Value(s: string, c: Cursor): (r: Parsed<Node>)
    requires c.pos <= |s|
    ensures r.Done? ==> c.pos < r.next.pos <= |s|
    ensures r.Failed? ==> c.pos <= r.at.pos <= |s|
    decreases |s| - c.pos, 1
  {
    var c := SkipWs(s, c);
    if c.pos == |s| then Failed(c, "Unexpected end of input")
    else
      var b := s[c.pos];
      if b == '"' then
        match StringLit(s, c)
        case Done(v, next) => Done(CreateNode(None, Some(v), String), next)
        case Failed(at, m) => Failed(at, m)
      else if b == '{' then ObjectValue(s, c)
      else if b == '[' then ArrayValue(s, c)
      else if b == 't' then Literal(s, c, "true", Bool, "Invalid true value")
      else if b == 'f' then Literal(s, c, "false", Bool, "Invalid false value")
      else if b == 'n' then Literal(s, c, "null", Null, "Invalid null value")
      else if b == '-' || IsDigit(b) then NumberLit(s, c)
      else Failed(c, "Invalid value")
  }

  /** parse_array at a `[`: skip it and the whitespace after it, then the element loop. */
  function ArrayValue(s: string, c: Cursor): (r: Parsed<Node>)
    requires c.pos < |s| && s[c.pos] == '['
    ensures r.Done? ==> c.pos < r.next.pos <= |s|
    ensures r.Failed? ==> c.pos <= r.at.pos <= |s|
    decreases |s| - c.pos, 0
  {
    ArrayItems(s, SkipWs(s, Advance(c, 1)), CreateNode(None, None, Array))
  }

  /**
   * The element loop of parse_array at c with the elements parsed so far
   * in node: while the next byte is not `]`, parse a value, name it by its
   * index, append it, skip whitespace and an optional comma. At the end of
   * the input "Unterminated array"; a failing element fails the array.
   */
  function ArrayItems(s: string, c: Cursor, node: Node): (r: Parsed<Node>)
    requires c.pos <= |s|
    ensures r.Done? ==> c.pos < r.next.pos <= |s|
    ensures r.Failed? ==> c.pos <= r.at.pos <= |s|
    decreases |s| - c.pos, 2
  {
    if c.pos < |s| && s[c.pos] != ']' then
      match Value(s, c)
      case Failed(at, m) => Failed(at, m)
      case Done(v, next) =>
        ArrayItems(s, AfterComma(s, SkipWs(s, next)), AddChild(node, Some(v.(name := Some(Decimal(|node.children|))))))
    else if c.pos == |s| then Failed(c, "Unterminated array")
    else Done(node, Advance(c, 1))
  }

  /** One turn of the element loop of parse_array. */
  lemma ArrayItemsStep(s: string, c: Cursor, node: Node)
    requires c.pos < |s| && s[c.pos] != ']'
    ensures Value(s, c).Failed? ==> ArrayItems(s, c, node) == Failed(Value(s, c).at, Value(s, c).message)
    ensures Value(s, c).Done? ==>
      var v := Value(s, c);
      ArrayItems(s, c, node) ==
        ArrayItems(s, AfterComma(s, SkipWs(s, v.next)), AddChild(node, Some(v.value.(name := Some(Decimal(|node.children|))))))
  {
  }

  /** parse_object at a `{`: skip it and the whitespace after it, then the member loop. */
  function ObjectValue(s: string, c: Cursor): (r: Parsed<Node>)
    requires c.pos < |s| && s[c.pos] == '{'
    ensures r.Done? ==> c.pos < r.next.pos <= |s|
    ensures r.Failed? ==> c.pos <= r.at.pos <= |s|
    decreases |s| - c.pos, 0
  {
    ObjectMembers(s, SkipWs(s, Advance(c, 1)), CreateNode(None, None, Object))
  }

  /**
   * The key of one member inside the loop of parse_object: the key string,
   * whitespace, and a `:` ("Expected ':'" otherwise) with the whitespace
   * after it.
   */
  function Key(s: string, c: Cursor): (r: Parsed<string>)
    requires c.pos <= |s|
    ensures r.Done? ==> c.pos < r.next.pos <= |s|
    ensures r.Failed? ==> c.pos <= r.at.pos <= |s|
  {
    match StringLit(s, c)
    case Failed(at, m) => Failed(at, m)
    case Done(key, afterKey) =>
      var colon := SkipWs(s, afterKey);
      if colon.pos == |s| || s[colon.pos] != ':' then Failed(colon, "Expected ':'")
      else Done(key, SkipWs(s, Advance(colon, 1)))
  }

  /**
   * The member loop of parse_object at c with the members parsed so far in
   * node: while the next byte is not `}`, parse a key and a value, name the
   * value by the key and append it (duplicate keys are kept), then skip
   * whitespace and an optional comma. At the end of the input
   * "Unterminated object"; a failing key or value fails the object.
   */
  function ObjectMembers(s: string, c: Cursor, node: Node): (r: Parsed<Node>)
    requires c.pos <= |s|
    ensures r.Done? ==> c.pos < r.next.pos <= |s|
    ensures r.Failed? ==> c.pos <= r.at.pos <= |s|
    decreases |s| - c.pos, 2
  {
    if c.pos < |s| && s[c.pos] != '}' then
      match Key(s, c)
      case Failed(at, m) => Failed(at, m)
      case Done(key, afterColon) =>
        match Value(s, afterColon)
        case Failed(at, m) => Failed(at, m)
        case Done(v, next) =>
          ObjectMembers(s, AfterComma(s, SkipWs(s, next)), AddChild(node, Some(v.(name := Some(key)))))
    else if c.pos == |s| then Failed(c, "Unterminated object")
    else Done(node, Advance(c, 1))
  }

  /**
   * One member inside the loop of parse_object: its key and `:`, then its
   * value, named by the key.
   */
  function MemberValue(s: string, c: Cursor): (r: Parsed<Node>)
    requires c.pos <= |s|
    ensures r.Done? ==> c.pos < r.next.pos <= |s| && r.value.name.Some?
    ensures r.Failed? ==> c.pos <= r.at.pos <= |s|
  {
    match Key(s, c)
    case Failed(at, m) => Failed(at, m)
    case Done(key, afterColon) =>
      match Value(s, afterColon)
      case Failed(at, m) => Failed(at, m)
      case Done(v, next) => Done(v.(name := Some(key)), next)
  }

  /** One turn of the member loop of parse_object, as one MemberValue. */
  lemma MemberTurn(s: string, c: Cursor, node: Node)
    requires c.pos < |s| && s[c.pos] != '}'
    ensures MemberValue(s, c).Failed? ==> ObjectMembers(s, c, node) == MemberValue(s, c)
    ensures MemberValue(s, c).Done? ==>
      ObjectMembers(s, c, node) ==
        ObjectMembers(s, AfterComma(s, SkipWs(s, MemberValue(s, c).next)), AddChild(node, Some(MemberValue(s, c).value)))
  {
  }

  /** One turn of the member loop of parse_object. */
  lemma ObjectMembersStep(s: string, c: Cursor, node: Node)
    requires c.pos < |s| && s[c.pos] != '}'
    ensures Key(s, c).Failed? ==> ObjectMembers(s, c, node) == Failed(Key(s, c).at, Key(s, c).message)
    ensures Key(s, c).Done? ==>
      var k := Key(s, c);
      var v := Value(s, k.next);
      && (v.Failed? ==> ObjectMembers(s, c, node) == Failed(v.at, v.message))
      && (v.Done? ==>
            ObjectMembers(s, c, node) ==
              ObjectMembers(s, AfterComma(s, SkipWs(s, v.next)), AddChild(node, Some(v.value.(name := Some(k.value))))))
  {
  }

  /**
   * Why the element loop of parse_array fails: it reached the end of the
   * input before a `]` and reports "Unterminated array" there, or one
   * element's parse_value failed at a cursor inside the loop and the loop
   * reports that element's diagnostic unchanged.
   */
  lemma {:induction false} ArrayItemsFailure(s: string, c: Cursor, node: Node)
    requires c.pos <= |s|
    ensures var r := ArrayItems(s, c, node);
      r.Failed? ==>
        || (r.message == "Unterminated array" && r.at.pos == |s|)
        || exists d: Cursor :: c.pos <= d.pos <= |s| && Value(s, d) == r
    decreases |s| - c.pos
  {
    var r := ArrayItems(s, c, node);
    if r.Failed? && c.pos < |s| && s[c.pos] != ']' {
      var v := Value(s, c);
      if v.Done? {
        var c' := AfterComma(s, SkipWs(s, v.next));
        var node' := AddChild(node, Some(v.value.(name := Some(Decimal(|node.children|)))));
        assert r == ArrayItems(s, c', node');
        ArrayItemsFailure(s, c', node');
      } else {
        assert Value(s, c) == r;
      }
    }
  }

  /**
   * Why the member loop of parse_object fails: it reached the end of the
   * input before a `}` and reports "Unterminated object" there, or one
   * member's key or value failed at a cursor inside the loop and the loop
   * reports that diagnostic unchanged.
   */
  lemma {:induction false} ObjectMembersFailure(s: string, c: Cursor, node: Node)
    requires c.pos <= |s|
    ensures var r := ObjectMembers(s, c, node);
      r.Failed? ==>
        || (r.message == "Unterminated object" && r.at.pos == |s|)
        || (exists d: Cursor :: c.pos <= d.pos <= |s| && Key(s, d) == Failed(r.at, r.message))
        || (exists d: Cursor :: c.pos <= d.pos <= |s| && Value(s, d) == r)
    decreases |s| - c.pos
  {
    var r := ObjectMembers(s, c, node);
    if r.Failed? && c.pos < |s| && s[c.pos] != '}' {
      var k := Key(s, c);
      if k.Failed? {
        assert Key(s, c) == Failed(r.at, r.message);
      } else {
        var v := Value(s, k.next);
        if v.Done? {
          var c' := AfterComma(s, SkipWs(s, v.next));
          var node' := AddChild(node, Some(v.value.(name := Some(k.value))));
          assert r == ObjectMembers(s, c', node');
          ObjectMembersFailure(s, c', node');
        } else {
          assert Value(s, k.next) == r;
        }
      }
    }
  }

  /** json_parse_tree on a fresh cursor: one value; the bytes after it are not looked at. */
  function Parse(s: string): (r: Parsed<Node>)
    ensures r.Done? ==> 0 < r.next.pos <= |s| && r.value.name == None && WellFormed(r.value)
  {
    ValueWellFormed(s, Start);
    Value(s, Start)
  }

  /** Every value parse_value returns is unnamed and WellFormed. */
  lemma {:induction false} ValueWellFormed(s: string, c: Cursor)
    requires c.pos <= |s|
    ensures var r := Value(s, c); r.Done? ==> r.value.name == None && WellFormed(r.value)
    decreases |s| - c.pos, 1
  {
    var c1 := SkipWs(s, c);
    if c1.pos < |s| {
      var b := s[c1.pos];
      if b == '"' {
        StringLitContent(s, c1);
      } else if b == '{' {
        ObjectMembersWellFormed(s, SkipWs(s, Advance(c1, 1)), CreateNode(None, None, Object));
      } else if b == '[' {
        ArrayItemsWellFormed(s, SkipWs(s, Advance(c1, 1)), CreateNode(None, None, Array));
      } else if b == '-' || IsDigit(b) {
        NumberLitText(s, c1);
      }
    }
  }

  /** The name of a node plays no part in its own shape. */
  lemma {:induction false} RenameWellFormed(n: Node, name: Option<string>)
    ensures WellFormed(n.(name := name)) == WellFormed(n)
  {
  }

  /**
   * Appending a WellFormed child keeps a container WellFormed when the
   * child is named as the container requires: by its index in an array, by
   * a key in an object.
   */
  lemma {:induction false} AppendWellFormed(node: Node, child: Node)
    requires node.kind == Array || node.kind == Object
    requires WellFormed(node) && WellFormed(child)
    requires node.kind == Array ==> child.name == Some(Decimal(|node.children|))
    requires node.kind == Object ==> child.name.Some? && StringContent(child.name.value)
    ensures WellFormed(node.(children := node.children + [child]))
  {
    var r := node.(children := node.children + [child]);
    var n := |node.children|;
    if node.kind == Array {
      forall i | 0 <= i < |r.children|
        ensures r.children[i].name == Some(Decimal(i)) && WellFormed(r.children[i])
      {
        if i < n {
          assert r.children[i] == node.children[i];
        }
      }
    } else {
      forall i | 0 <= i < |r.children|
        ensures r.children[i].name.Some? && StringContent(r.children[i].name.value) && WellFormed(r.children[i])
      {
        if i < n {
          assert r.children[i] == node.children[i];
        }
      }
    }
  }

  /**
   * The element loop of parse_array keeps the elements already parsed, in
   * order, and adds WellFormed elements named by their index.
   */
  lemma {:induction false} ArrayItemsWellFormed(s: string, c: Cursor, node: Node)
    requires c.pos <= |s|
    requires node.kind == Array && node.name == None && WellFormed(node)
    ensures var r := ArrayItems(s, c, node);
      r.Done? ==>
        && r.value.kind == Array && r.value.name == None && WellFormed(r.value)
        && |r.value.children| >= |node.children| && r.value.children[..|node.children|] == node.children
    decreases |s| - c.pos, 2
  {
    if c.pos < |s| && s[c.pos] != ']' {
      var v := Value(s, c);
      ArrayItemsStep(s, c, node);
      if v.Done? {
        ValueWellFormed(s, c);
        var node' := AddChild(node, Some(v.value.(name := Some(Decimal(|node.children|)))));
        RenameWellFormed(v.value, Some(Decimal(|node.children|)));
        AppendWellFormed(node, v.value.(name := Some(Decimal(|node.children|))));
        ArrayItemsWellFormed(s, AfterComma(s, SkipWs(s, v.next)), node');
        var r := ArrayItems(s, c, node);
        assert r.Done? ==> r.value.children[..|node.children|] == r.value.children[..|node'.children|][..|node.children|];
      }
    }
  }

  /**
   * The member loop of parse_object keeps the members already parsed, in
   * order, and adds WellFormed members named by their raw keys.
   */
  lemma {:induction false} ObjectMembersWellFormed(s: string, c: Cursor, node: Node)
    requires c.pos <= |s|
    requires node.kind == Object && node.name == None && WellFormed(node)
    ensures var r := ObjectMembers(s, c, node);
      r.Done? ==>
        && r.value.kind == Object && r.value.name == None && WellFormed(r.value)
        && |r.value.children| >= |node.children| && r.value.children[..|node.children|] == node.children
    decreases |s| - c.pos, 2
  {
    if c.pos < |s| && s[c.pos] != '}' {
      var k := Key(s, c);
      if k.Done? {
        StringLitContent(s, c);
        var v := Value(s, k.next);
        ObjectMembersStep(s, c, node);
        if v.Done? {
          ValueWellFormed(s, k.next);
          var node' := AddChild(node, Some(v.value.(name := Some(k.value))));
          RenameWellFormed(v.value, Some(k.value));
          AppendWellFormed(node, v.value.(name := Some(k.value)));
          ObjectMembersWellFormed(s, AfterComma(s, SkipWs(s, v.next)), node');
          var r := ObjectMembers(s, c, node);
          assert r.Done? ==> r.value.children[..|node.children|] == r.value.children[..|node'.children|][..|node.children|];
        }
      }
    }
  }
}
