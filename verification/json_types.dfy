/**
 * The value types of the JSON engine (src/json_parser.h). A `char` of this
 * model stands for one C byte; strings never hold a NUL byte.
 */
module JsonTypes {

  /** A pointer that may be NULL. */
  datatype Option<+T> = None | Some(value: T)

  /** JsonType: the six kinds of node. */
  datatype Kind = Null | Bool | Number | String | Array | Object

  /**
   * TreeNode without its parent back-pointer and without the capacity of
   * its children array: `name` is NULL for the root, `value` is the verbatim
   * text of a scalar and NULL for a container, `children` is ordered.
   */
  datatype Node = Node(kind: Kind, name: Option<string>, value: Option<string>, children: seq<Node>)

  /** ValidationError: a message and the cursor line and column at which it was recorded. */
  datatype Diagnostic = Diagnostic(message: string, line: nat, column: nat)

  /** TokenType */
  datatype TokenKind = BraceToken | BracketToken | ColonToken | CommaToken
                     | StringToken | NumberToken | BoolToken | NullToken

  /** Token: its kind, its (escaped) text and the name of its highlighting style. */
  datatype Token = Token(kind: TokenKind, text: string, style: string)

  /** JsonStats, with the nested per-type counters flattened. */
  datatype Stats = Stats(
    totalKeys: nat, totalValues: nat, depth: nat,
    stringCount: nat, numberCount: nat, boolCount: nat,
    nullCount: nat, arrayCount: nat, objectCount: nat)

  /** The all-zero statistics (`JsonStats stats = {0}`). */
  const ZeroStats := Stats(0, 0, 0, 0, 0, 0, 0, 0, 0)

  /** JSON_INITIAL_CAPACITY (also INITIAL_CAPACITY of the parser). */
  const InitialCapacity: nat := 16

  /** JSON_BUFFER_SIZE: the initial capacity of an output buffer. */
  const BufferSize: nat := 1024

  /** `isdigit` in the C locale. */
  predicate IsDigit(c: char) { '0' <= c <= '9' }

  /** The four bytes skip_whitespace consumes. */
  predicate IsWhitespace(c: char) { c == ' ' || c == '\t' || c == '\r' || c == '\n' }

  /** The byte of decimal digit d. */
  function DigitChar(d: nat): char
    requires d < 10
  {
    ('0' as int + d) as char
  }

  /** The value of a string of decimal digits. */
  function DigitsValue(s: string): nat
    requires forall i :: 0 <= i < |s| ==> IsDigit(s[i])
  {
    if s == [] then 0
    else
      assert IsDigit(s[|s| - 1]);
      10 * DigitsValue(s[..|s| - 1]) + (s[|s| - 1] as int - '0' as int)
  }

  /**
   * `snprintf(buf, 32, "%zu", n)`: the decimal rendering of n, which the
   * parser gives array elements as their names.
   */
  function Decimal(n: nat): string
  {
    if n < 10 then [DigitChar(n)] else Decimal(n / 10) + [DigitChar(n % 10)]
  }

  /**
   * Decimal(n) is the usual rendering: digits only, no leading zero, and
   * their value is n.
   */
  lemma {:induction false} DecimalMeaning(n: nat)
    ensures var r := Decimal(n);
      && 1 <= |r|
      && (forall i :: 0 <= i < |r| ==> IsDigit(r[i]))
      && (|r| > 1 ==> r[0] != '0')
      && DigitsValue(r) == n
  {
    if n >= 10 {
      DecimalMeaning(n / 10);
      var r := Decimal(n);
      assert r[..|r| - 1] == Decimal(n / 10);
      assert DigitsValue(r) == 10 * DigitsValue(Decimal(n / 10)) + n % 10;
    }
  }

  /** Concatenation regrouped, for sequences built one append at a time. */
  lemma ConcatAssoc<T>(a: seq<T>, b: seq<T>, c: seq<T>)
    ensures a + (b + c) == (a + b) + c
  {
  }
}
