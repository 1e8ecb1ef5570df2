/**
 * The parser object of src/json_parser.c. Each routine moves the cursor
 * (pos, line, column) through the input and records diagnostics; each is
 * proved to compute the corresponding function of module Grammar: on
 * success it returns that function's value and leaves the cursor where the
 * function says, on failure it returns None and has recorded exactly the
 * one diagnostic the function names, at the cursor where it was raised.
 */
module Parser {
  import opened JsonTypes
  import opened Tree
  import opened Grammar

  /** JsonParser: the input, the cursor and the growable list of diagnostics. */
  class JsonParser {
    const input: string
    var pos: nat
    var line: nat
    var column: nat
    var errors: seq<Diagnostic>
    var errorCapacity: nat

    ghost predicate Valid()
      reads this
    {
      pos <= |input| && |errors| <= errorCapacity && 0 < errorCapacity
    }

    /** The cursor as a value. */
    function Here(): Cursor
      reads this
    {
      Cursor(pos, line, column)
    }

    /**
     * The state after a routine whose outcome, as a function of the input
     * and the entry cursor, is `outcome`: the same result, the cursor it
     * ends on, and the diagnostics recorded before plus the outcome's own.
     */
    ghost predicate Settled<T>(outcome: Parsed<T>, r: Option<T>, before: seq<Diagnostic>)
      reads this
    {
      match outcome
      case Done(v, next) => r == Some(v) && Here() == next && errors == before
      case Failed(at, _) => r == None && Here() == at && errors == before + DiagnosticsOf(outcome)
    }

    /**
     * The state json_parse_tree leaves for the caller to read: the cursor
     * where the parse of the whole input ended and that parse's one
     * diagnostic, if it failed.
     */
    ghost predicate ParsedInput()
      reads this
    {
      Here() == EndOf(Parse(input)) && errors == DiagnosticsOf(Parse(input))
    }

    /** json_parser_create: a copy of the input, the cursor at line 1 column 0, no diagnostics. */
    constructor (text: string)
      ensures Valid() && input == text && Here() == Start
      ensures errors == [] && errorCapacity == InitialCapacity
    {
      input := text;
      pos, line, column := 0, 1, 0;
      errorCapacity := InitialCapacity;
      errors := [];
    }

    /** skip_whitespace */
    method SkipWhitespace()
      requires Valid()
      modifies this`pos, this`line, this`column
      ensures Valid() && Here() == SkipWs(input, old(Here()))
    {
      ghost var target := SkipWs(input, Here());
      while pos < |input|
        invariant Valid() && SkipWs(input, Here()) == target
        decreases |input| - pos
      {
        var c := input[pos];
        if c == ' ' || c == '\t' || c == '\r' {
          pos, column := pos + 1, column + 1;
        } else if c == '\n' {
          pos, line, column := pos + 1, line + 1, 0;
        } else {
          break;
        }
      }
    }

    /**
     * add_error: record the message at the current line and column,
     * doubling the capacity of the list first when it is full.
     */
    method AddError(message: string)
      requires Valid()
      modifies this`errors, this`errorCapacity
      ensures Valid() && errors == old(errors) + [Diagnostic(message, line, column)]
      ensures errorCapacity == if |old(errors)| == old(errorCapacity) then 2 * old(errorCapacity) else old(errorCapacity)
    {
      if |errors| >= errorCapacity {
        errorCapacity := errorCapacity * 2;
      }
      errors := errors + [Diagnostic(message, line, column)];
    }

    /**
     * What parse_array and parse_object do after each member: skip
     * whitespace, then an optional comma and the whitespace after it.
     */
    method SkipSeparator()
      requires Valid()
      modifies this`pos, this`line, this`column
      ensures Valid() && Here() == AfterComma(input, SkipWs(input, old(Here())))
    {
      SkipWhitespace();
      if pos < |input| && input[pos] == ',' {
        pos, column := pos + 1, column + 1;
        SkipWhitespace();
      }
    }

    /** parse_string */
    method ParseString() returns (r: Option<string>)
      requires Valid()
      modifies this
      ensures Valid() && Settled(StringLit(input, old(Here())), r, old(errors))
    {
      if pos >= |input| || input[pos] != '"' {
        AddError("Expected string");
        return None;
      }
      ghost var entry := Here();
      pos, column := pos + 1, column + 1;
      var start := pos;
      var len := 0;
      var escaped := false;
      ghost var target := StringEnd(input, start, false);
      while pos < |input|
        invariant start <= pos <= |input| && len == pos - start
        invariant Here() == Advance(entry, 1 + len) && errors == old(errors) && Valid()
        invariant StringEnd(input, pos, escaped) == target
        decreases |input| - pos
      {
        var c := input[pos];
        if escaped {
          escaped := false;
        } else if c == '\\' {
          escaped := true;
        } else if c == '"' {
          break;
        }
        pos, column, len := pos + 1, column + 1, len + 1;
      }
      if pos >= |input| {
        AddError("Unterminated string");
        return None;
      }
      pos, column := pos + 1, column + 1;
      r := Some(input[start..start + len]);
    }

    /**
     * The `t`, `f` and `n` branches of parse_value: the whole word must
     * follow, else the branch's diagnostic is recorded.
     */
    method ParseLiteral(word: string, kind: Kind, message: string) returns (r: Option<Node>)
      requires Valid() && 0 < |word|
      modifies this
      ensures Valid() && Settled(Literal(input, old(Here()), word, kind, message), r, old(errors))
    {
      if pos + (|word| - 1) < |input| && input[pos..pos + |word|] == word {
        pos, column := pos + |word|, column + |word|;
        return Some(CreateNode(None, Some(word), kind));
      }
      AddError(message);
      r := None;
    }

    /**
     * The number branch of parse_value, at a `-` or a digit: an optional
     * `-`, then digits and the first `.`.
     */
    method ParseNumber() returns (r: Option<Node>)
      requires Valid() && pos < |input| && (input[pos] == '-' || IsDigit(input[pos]))
      modifies this
      ensures Valid() && Settled(NumberLit(input, old(Here())), r, old(errors))
    {
      ghost var entry := Here();
      var start := pos;
      var len := 0;
      var hasDecimal := false;
      if input[pos] == '-' {
        pos, column, len := pos + 1, column + 1, len + 1;
      }
      ghost var target := NumberEnd(input, pos, false);
      while pos < |input|
        invariant start <= pos <= |input| && len == pos - start
        invariant pos == entry.pos + len && line == entry.line && column == entry.column + len
        invariant NumberEnd(input, pos, hasDecimal) == target
        invariant errors == old(errors) && Valid()
        decreases |input| - pos
      {
        var c := input[pos];
        if c == '.' && !hasDecimal {
          hasDecimal := true;
        } else if !IsDigit(c) {
          break;
        }
        pos, column, len := pos + 1, column + 1, len + 1;
      }
      r := Some(CreateNode(None, Some(input[start..start + len]), Number));
      assert NumberLit(input, entry) == Done(r.value, Here());
    }

    /** parse_value: whitespace, then a dispatch on the first byte. */
    method ParseValue() returns (r: Option<Node>)
      requires Valid()
      modifies this
      ensures Valid() && Settled(Value(input, old(Here())), r, old(errors))
      decreases |input| - pos, 1
    {
      SkipWhitespace();
      if pos >= |input| {
        AddError("Unexpected end of input");
        return None;
      }
      var c := input[pos];
      if c == '"' {
        var str := ParseString();
        if str.None? {
          return None;
        }
        r := Some(CreateNode(None, str, String));
      } else if c == '{' {
        r := ParseObject();
      } else if c == '[' {
        r := ParseArray();
      } else if c == 't' {
        r := ParseLiteral("true", Bool, "Invalid true value");
      } else if c == 'f' {
        r := ParseLiteral("false", Bool, "Invalid false value");
      } else if c == 'n' {
        r := ParseLiteral("null", Null, "Invalid null value");
      } else if c == '-' || IsDigit(c) {
        r := ParseNumber();
      } else {
        AddError("Invalid value");
        r := None;
      }
    }

    /** parse_array, entered at a `[` */
    method ParseArray() returns (r: Option<Node>)
      requires Valid() && pos < |input| && input[pos] == '['
      modifies this
      ensures Valid() && Settled(ArrayValue(input, old(Here())), r, old(errors))
      decreases |input| - pos, 0
    {
      var node := CreateNode(None, None, Array);
      pos, column := pos + 1, column + 1;
      SkipWhitespace();
      ghost var target := ArrayItems(input, Here(), node);
      assert ArrayValue(input, old(Here())) == target;
      while pos < |input| && input[pos] != ']'
        invariant Valid() && old(pos) < pos && errors == old(errors)
        invariant ArrayItems(input, Here(), node) == target
        decreases |input| - pos
      {
        ArrayItemsStep(input, Here(), node);
        var value := ParseValue();
        if value.None? {
          return None;
        }
        node := AddChild(node, Some(value.value.(name := Some(Decimal(|node.children|)))));
        SkipSeparator();
      }
      if pos >= |input| || input[pos] != ']' {
        AddError("Unterminated array");
        return None;
      }
      pos, column := pos + 1, column + 1;
      r := Some(node);
    }

    /** The key of one member and the `:` after it, inside the loop of parse_object. */
    method ParseKey() returns (r: Option<string>)
      requires Valid()
      modifies this
      ensures Valid() && Settled(Key(input, old(Here())), r, old(errors))
    {
      r := ParseString();
      if r.None? {
        return None;
      }
      SkipWhitespace();
      if pos >= |input| || input[pos] != ':' {
        AddError("Expected ':'");
        return None;
      }
      pos, column := pos + 1, column + 1;
      SkipWhitespace();
    }

    /** One member inside the loop of parse_object: key, `:`, value named by the key. */
    method ParseMember() returns (r: Option<Node>)
      requires Valid()
      modifies this
      ensures Valid() && Settled(MemberValue(input, old(Here())), r, old(errors))
      decreases |input| - pos, 2
    {
      var key := ParseKey();
      if key.None? {
        return None;
      }
      var value := ParseValue();
      if value.None? {
        return None;
      }
      r := Some(value.value.(name := key));
    }

    /** parse_object, entered at a `{` */
    method ParseObject() returns (r: Option<Node>)
      requires Valid() && pos < |input| && input[pos] == '{'
      modifies this
      ensures Valid() && Settled(ObjectValue(input, old(Here())), r, old(errors))
      decreases |input| - pos, 0
    {
      var node := CreateNode(None, None, Object);
      pos, column := pos + 1, column + 1;
      SkipWhitespace();
      ghost var target := ObjectMembers(input, Here(), node);
      assert ObjectValue(input, old(Here())) == target;
      while pos < |input| && input[pos] != '}'
        invariant Valid() && old(pos) < pos && errors == old(errors)
        invariant ObjectMembers(input, Here(), node) == target
        decreases |input| - pos
      {
        MemberTurn(input, Here(), node);
        var member := ParseMember();
        if member.None? {
          return None;
        }
        node := AddChild(node, Some(member.value));
        SkipSeparator();
      }
      if pos >= |input| || input[pos] != '}' {
        AddError("Unterminated object");
        return None;
      }
      pos, column := pos + 1, column + 1;
      r := Some(node);
    }

    /**
     * json_parse_tree: reset the cursor and the diagnostics, then parse one
     * value. It returns a tree exactly when no diagnostic is left, and
     * leaves at most one.
     */
    method ParseTree() returns (r: Option<Node>)
      requires Valid()
      modifies this
      ensures Valid() && Settled(Parse(input), r, []) && ParsedInput()
      ensures r.Some? <==> errors == []
      ensures |errors| <= 1
    {
      pos, line, column := 0, 1, 0;
      errors := [];
      assert Parse(input) == Value(input, Here());
      r := ParseValue();
    }
  }
}
