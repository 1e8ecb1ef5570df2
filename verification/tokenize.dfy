/**
 * The tokenizer of src/json_format.c. TokensOf is the token sequence
 * tokenize_value appends for a node, in pre-order; every token's text is
 * json_escape_string of the text it was given. TokenizeValue is proved to
 * append exactly those tokens to a TokenList, and JsonTokenize to return
 * them for the tree json_parse_tree builds.
 */
module Tokens {
  import opened JsonTypes
  import opened Tree
  import opened Grammar
  import opened EscapeCodec
  import opened Parser

  /** The token add_token appends for a value and a style: the value's escape as its text. */
  function Emit(kind: TokenKind, value: string, style: string): Token
  {
    Token(kind, Escape(value), style)
  }

  /**
   * `snprintf(temp, 32, ...)`: what fits into the 32-byte buffer, at most
   * 31 bytes and a terminating NUL.
   */
  function Truncated(s: string): string
  {
    if |s| <= 31 then s else s[..31]
  }

  /** The comma add_token emits before every child but the first. */
  function Comma(i: nat): seq<Token>
  {
    if i > 0 then [Emit(CommaToken, ",", "operator")] else []
  }

  /**
   * The tokens tokenize_value appends for n: a container's opener, its
   * children separated by commas (an object member as its key, a colon
   * and its value), and its closer; a scalar as one token, a string's
   * quoted text cut to 31 bytes before it is escaped.
   */
  function TokensOf(n: Node): seq<Token>
    decreases n, |n.children| + 1
  {
    match n.kind
    case Object =>
      [Emit(BraceToken, "{", "brace")] + MemberTokens(n, |n.children|) + [Emit(BraceToken, "}", "brace")]
    case Array =>
      [Emit(BracketToken, "[", "brace")] + ElementTokens(n, |n.children|) + [Emit(BracketToken, "]", "brace")]
    case String => [Emit(StringToken, Truncated("\"" + Text(n.value) + "\""), "string")]
    case Number => [Emit(NumberToken, Text(n.value), "number")]
    case Bool => [Emit(BoolToken, Text(n.value), "boolean")]
    case Null => [Emit(NullToken, "null", "null")]
  }

  /** The tokens of the first i elements of an array. */
  function ElementTokens(n: Node, i: nat): seq<Token>
    requires i <= |n.children|
    decreases n, i
  {
    if i == 0 then [] else ElementTokens(n, i - 1) + ElementChunk(n, i - 1)
  }

  function ElementChunk(n: Node, i: nat): seq<Token>
    requires i < |n.children|
    decreases n, 0
  {
    Comma(i) + TokensOf(n.children[i])
  }

  /** The tokens of the first i members of an object. */
  function MemberTokens(n: Node, i: nat): seq<Token>
    requires i <= |n.children|
    decreases n, i
  {
    if i == 0 then [] else MemberTokens(n, i - 1) + MemberChunk(n, i - 1)
  }

  function MemberChunk(n: Node, i: nat): seq<Token>
    requires i < |n.children|
    decreases n, 0
  {
    Comma(i) + KeyColon(n.children[i]) + TokensOf(n.children[i])
  }

  /** The key token and the colon before an object member's value. */
  function KeyColon(child: Node): seq<Token>
  {
    [Emit(StringToken, Text(child.name), "key"), Emit(ColonToken, ":", "operator")]
  }

  /**
   * The nesting a token sequence opens and does not close: +1 for every
   * `{` or `[` token, -1 for every `}` or `]` token.
   */
  function Balance(ts: seq<Token>): int
  {
    if ts == [] then 0
    else
      var t := ts[0];
      var d := if t.kind in {BraceToken, BracketToken} && t.text in {"{", "["} then 1
               else if t.kind in {BraceToken, BracketToken} && t.text in {"}", "]"} then -1
               else 0;
      d + Balance(ts[1..])
  }

  /** The punctuation tokenize_value emits needs no escaping. */
  lemma PunctuationUnescaped()
    ensures Escape("{") == "{" && Escape("}") == "}" && Escape("[") == "[" && Escape("]") == "]"
    ensures Escape(",") == ","
  {
    assert Escape("{") == EscapeByte('{') + Escape([]);
    assert Escape("}") == EscapeByte('}') + Escape([]);
    assert Escape("[") == EscapeByte('[') + Escape([]);
    assert Escape("]") == EscapeByte(']') + Escape([]);
    assert Escape(",") == EscapeByte(',') + Escape([]);
  }

  lemma {:induction false} BalanceAppend(a: seq<Token>, b: seq<Token>)
    ensures Balance(a + b) == Balance(a) + Balance(b)
  {
    if a != [] {
      assert (a + b)[1..] == a[1..] + b;
      BalanceAppend(a[1..], b);
    } else {
      assert a + b == b;
    }
  }

  /**
   * tokenize_value emits as many `}` and `]` tokens as `{` and `[` tokens
   * (braces and brackets counted together), and a container's tokens
   * begin with its opener and end with its closer.
   */
  lemma {:induction false} TokensBalanced(n: Node)
    ensures Balance(TokensOf(n)) == 0
    ensures n.kind == Object ==> TokensOf(n)[0].text == "{" && TokensOf(n)[|TokensOf(n)| - 1].text == "}"
    ensures n.kind == Array ==> TokensOf(n)[0].text == "[" && TokensOf(n)[|TokensOf(n)| - 1].text == "]"
    decreases n, |n.children| + 1
  {
    PunctuationUnescaped();
    match n.kind
    case Object =>
      MembersBalanced(n, |n.children|);
      BalanceAppend([Emit(BraceToken, "{", "brace")], MemberTokens(n, |n.children|));
      BalanceAppend([Emit(BraceToken, "{", "brace")] + MemberTokens(n, |n.children|), [Emit(BraceToken, "}", "brace")]);
    case Array =>
      ElementsBalanced(n, |n.children|);
      BalanceAppend([Emit(BracketToken, "[", "brace")], ElementTokens(n, |n.children|));
      BalanceAppend([Emit(BracketToken, "[", "brace")] + ElementTokens(n, |n.children|), [Emit(BracketToken, "]", "brace")]);
    case _ =>
  }

  lemma {:induction false} ElementsBalanced(n: Node, i: nat)
    requires i <= |n.children|
    ensures Balance(ElementTokens(n, i)) == 0
    decreases n, i
  {
    if i > 0 {
      PunctuationUnescaped();
      ElementsBalanced(n, i - 1);
      TokensBalanced(n.children[i - 1]);
      BalanceAppend(Comma(i - 1), TokensOf(n.children[i - 1]));
      BalanceAppend(ElementTokens(n, i - 1), ElementChunk(n, i - 1));
    }
  }

  /** A member's key and colon open nothing. */
  lemma KeyColonBalanced(child: Node)
    ensures Balance(KeyColon(child)) == 0
  {
    var kc := KeyColon(child);
    assert kc[0].kind == StringToken && kc[1..] == [Emit(ColonToken, ":", "operator")];
    assert Balance(kc[1..][1..]) == 0 by { assert kc[1..][1..] == []; }
    assert Balance(kc[1..]) == 0;
  }

  lemma {:induction false} MembersBalanced(n: Node, i: nat)
    requires i <= |n.children|
    ensures Balance(MemberTokens(n, i)) == 0
    decreases n, i
  {
    if i > 0 {
      var child := n.children[i - 1];
      PunctuationUnescaped();
      MembersBalanced(n, i - 1);
      TokensBalanced(child);
      KeyColonBalanced(child);
      BalanceAppend(Comma(i - 1), KeyColon(child));
      BalanceAppend(Comma(i - 1) + KeyColon(child), TokensOf(child));
      BalanceAppend(MemberTokens(n, i - 1), MemberChunk(n, i - 1));
    }
  }

  /** The growable token array of json_tokenize with its count and capacity. */
  class TokenList {
    var tokens: seq<Token>
    var capacity: nat

    ghost predicate Valid()
      reads this
    {
      |tokens| <= capacity && 0 < capacity
    }

    /** The array json_tokenize allocates: empty, room for JSON_INITIAL_CAPACITY tokens. */
    constructor ()
      ensures Valid() && tokens == [] && capacity == InitialCapacity
    {
      tokens := [];
      capacity := InitialCapacity;
    }

    /**
     * add_token: double the capacity when the array is full, then append
     * one token whose text is the escape of the value.
     */
    method Add(kind: TokenKind, value: string, style: string)
      requires Valid()
      modifies this
      ensures Valid() && tokens == old(tokens) + [Emit(kind, value, style)]
      ensures capacity == if |old(tokens)| == old(capacity) then 2 * old(capacity) else old(capacity)
    {
      if |tokens| >= capacity {
        capacity := capacity * 2;
      }
      var text := EscapeString(value);
      tokens := tokens + [Token(kind, text, style)];
    }
  }

  /** The comma tokenize_value adds before child i when i > 0. */
  method AddComma(list: TokenList, i: nat)
    requires list.Valid()
    modifies list
    ensures list.Valid() && list.tokens == old(list.tokens) + Comma(i)
  {
    if i > 0 {
      list.Add(CommaToken, ",", "operator");
    }
  }

  /** tokenize_value */
  method TokenizeValue(n: Node, list: TokenList)
    requires list.Valid()
    modifies list
    ensures list.Valid() && list.tokens == old(list.tokens) + TokensOf(n)
    decreases n, 1
  {
    ghost var before := list.tokens;
    match n.kind {
      case Object =>
        list.Add(BraceToken, "{", "brace");
        ghost var body := MemberTokens(n, |n.children|);
        TokenizeMembers(n, list);
        ConcatAssoc(before, [Emit(BraceToken, "{", "brace")], body);
        list.Add(BraceToken, "}", "brace");
        ConcatAssoc(before, [Emit(BraceToken, "{", "brace")] + body, [Emit(BraceToken, "}", "brace")]);
      case Array =>
        list.Add(BracketToken, "[", "brace");
        ghost var body := ElementTokens(n, |n.children|);
        TokenizeElements(n, list);
        ConcatAssoc(before, [Emit(BracketToken, "[", "brace")], body);
        list.Add(BracketToken, "]", "brace");
        ConcatAssoc(before, [Emit(BracketToken, "[", "brace")] + body, [Emit(BracketToken, "]", "brace")]);
      case String =>
        var temp := Truncated("\"" + Text(n.value) + "\"");
        list.Add(StringToken, temp, "string");
      case Number =>
        list.Add(NumberToken, Text(n.value), "number");
      case Bool =>
        list.Add(BoolToken, Text(n.value), "boolean");
      case Null =>
        list.Add(NullToken, "null", "null");
    }
  }

  /** The element loop of the array case of tokenize_value. */
  method TokenizeElements(n: Node, list: TokenList)
    requires list.Valid()
    modifies list
    ensures list.Valid() && list.tokens == old(list.tokens) + ElementTokens(n, |n.children|)
    decreases n, 0
  {
    ghost var start := list.tokens;
    for i := 0 to |n.children|
      invariant list.Valid() && list.tokens == start + ElementTokens(n, i)
    {
      ghost var before := list.tokens;
      AddComma(list, i);
      TokenizeValue(n.children[i], list);
      ConcatAssoc(before, Comma(i), TokensOf(n.children[i]));
      ConcatAssoc(start, ElementTokens(n, i), ElementChunk(n, i));
    }
  }

  /** The member loop of the object case of tokenize_value. */
  method TokenizeMembers(n: Node, list: TokenList)
    requires list.Valid()
    modifies list
    ensures list.Valid() && list.tokens == old(list.tokens) + MemberTokens(n, |n.children|)
    decreases n, 0
  {
    ghost var start := list.tokens;
    for i := 0 to |n.children|
      invariant list.Valid() && list.tokens == start + MemberTokens(n, i)
    {
      var child := n.children[i];
      ghost var before := list.tokens;
      AddComma(list, i);
      list.Add(StringToken, Text(child.name), "key");
      ConcatAssoc(before, Comma(i), [Emit(StringToken, Text(child.name), "key")]);
      list.Add(ColonToken, ":", "operator");
      ConcatAssoc(before, Comma(i) + [Emit(StringToken, Text(child.name), "key")], [Emit(ColonToken, ":", "operator")]);
      assert Comma(i) + [Emit(StringToken, Text(child.name), "key")] + [Emit(ColonToken, ":", "operator")]
          == Comma(i) + KeyColon(child);
      TokenizeValue(child, list);
      ConcatAssoc(before, Comma(i) + KeyColon(child), TokensOf(child));
      ConcatAssoc(start, MemberTokens(n, i), MemberChunk(n, i));
    }
  }

  /** The part of json_tokenize after a successful parse: the root's tokens into a new list. */
  method TokenizeTree(root: Node) returns (r: seq<Token>)
    ensures r == TokensOf(root)
  {
    var list := new TokenList();
    TokenizeValue(root, list);
    r := list.tokens;
  }

  /**
   * json_tokenize: no tokens without a parser; otherwise parse the input
   * afresh; on failure no tokens, otherwise the tokens of the root.
   */
  method JsonTokenize(p: JsonParser?) returns (r: Option<seq<Token>>)
    requires p != null ==> p.Valid()
    modifies p
    ensures p == null ==> r == None
    ensures p != null ==> p.Valid() && p.ParsedInput()
    ensures p != null ==> (p.errors == [] <==> Parse(p.input).Done?)
    ensures p != null ==> |p.errors| <= 1
    ensures p != null ==> r == match Parse(p.input)
                               case Done(root, _) => Some(TokensOf(root))
                               case Failed(_, _) => None
  {
    if p == null {
      return None;
    }
    var root := p.ParseTree();
    ghost var outcome := Parse(p.input);
    if root.None? {
      assert outcome.Failed?;
      return None;
    }
    assert outcome.Done? && outcome.value == root.value;
    var tokens := TokenizeTree(root.value);
    r := Some(tokens);
  }
}
