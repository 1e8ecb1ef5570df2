# jsonchrist JSON engine — a Dafny model

This project models the JSON engine of jsonchrist, a small C library.
The engine has four parts:

- A recursive-descent parser (`src/json_parser.c`). It reads a byte buffer with a cursor of position, line and column. It records diagnostics and builds a tree of nodes.
- A pretty-printer and a tokenizer over that tree (`src/json_format.c`). Both write into growable arrays.
- Tree statistics and a validity check (`src/json_stats.c`).
- The JSON string escape codec (`src/json_stats.c`).

The model follows the code's own form:

- `JsonParser` is a class whose cursor fields and diagnostics list the methods update step by step. Every method is proved to compute a pure function of module `Grammar`: the same tree, the same final cursor, and on failure exactly one diagnostic, with its message and position.
- The output buffer is a class over an `array<char>` whose capacity doubles.
- The token list is a class whose capacity doubles.
- Escape and unescape fill an array through a write index.
- The tree is a datatype (kind, optional name, optional value, ordered children).

Beyond what each routine computes, the model proves how the two halves fit together. The text `json_format` writes for a parsed tree parses back to that tree, whatever the indent width. So formatting is idempotent, and reformatting with one width and then another equals formatting with the second.

A `char` stands for one C byte. The model calls no I/O: the input text is a constructor argument and every result is returned.

Modules:

| file | module | models |
|---|---|---|
| `json_types.dfy` | `JsonTypes` | the types and constants of `json_parser.h` |
| `tree.dfy` | `Tree` | node creation, child append, tree measures |
| `grammar.dfy` | `Grammar` | the accepted language as pure functions of input and cursor |
| `parser.dfy` | `Parser` | the `JsonParser` class and its parse routines |
| `escape_codec.dfy` | `EscapeCodec` | `json_escape_string`, `json_unescape_string` |
| `buffer.dfy` | `Buffers` | `Buffer`, `buffer_create`, `buffer_append` |
| `format.dfy` | `Format` | `format_value`, `json_format`, `json_compact` |
| `tokenize.dfy` | `Tokens` | `add_token`, `tokenize_value`, `json_tokenize` |
| `analytics.dfy` | `Analytics` | `collect_stats`, `json_stats`, `json_validate` |
| `roundtrip.dfy` | `RoundTrip` | what the parser makes of `json_format`'s output |

Behaviour worth knowing:

- A trailing comma is accepted (`[1,]`, `{"a":1,}`). Commas between members are optional altogether.
- Only one top-level value is read; whatever follows it is ignored.
- Inside a string, a line feed advances the column, not the line.
- `total_keys` counts every named node, array elements included. For a parsed tree it is always `total_values - 1`. For `{"a":[1,2,{"b":3}]}` that gives 5.
- `json_compact` is `json_format` with indent 0, so it still puts every child on its own line.
- An object member's value is indented twice: once before the key and again by the nested `format_value` call after `": "`.

## Model

| member | source | states |
|---|---|---|
| Tree.CreateNode | src/json_parser.c:321-334 | a new node has the given kind, name and value, no children, and size 1 |
| Tree.AddChild | src/json_parser.c:336-350 | a NULL child changes nothing; otherwise the child is appended last, earlier children and the node's own fields are unchanged, and the size grows by the child's size |
| Tree.KindsPartition | src/json_stats.c:14-36 | the six per-kind node counts of a tree add up to its node count |
| Tree.HeightBelowSize | src/json_stats.c:11 | the height of a tree is below its node count |
| JsonTypes.DecimalMeaning | src/json_parser.c:103-105 | the name given to array element i is the decimal rendering of i: digits only, no leading zero, value i |
| Grammar.SkipWs | src/json_parser.c:10-24 | skipping whitespace never moves the cursor backwards or past the end |
| Grammar.SkipWsSkipsWhitespace | src/json_parser.c:10-24 | every skipped byte is a space, tab, CR or LF, and the byte it stops at is none of those |
| Grammar.SkipWsLines | src/json_parser.c:13-19 | the line grows by the number of LFs skipped; the column grows by the bytes skipped when there is no LF, and otherwise counts the bytes after the last LF |
| Grammar.StringEndFindsClosingQuote | src/json_parser.c:54-68 | the scan stops at the first quote not escaped by an odd run of backslashes, or at the end of input |
| Grammar.StringLit | src/json_parser.c:41-84 | on success the cursor is just past the closing quote and the column has advanced by the length plus 2 |
| Grammar.StringLitMeaning | src/json_parser.c:41-84 | "Expected string" unless at a quote; otherwise the result is exactly the bytes up to the first unescaped quote, or "Unterminated string" at the end of input when there is none |
| Grammar.StringLitContent | src/json_parser.c:54-83 | the returned text never holds a quote that would close the string and does not end in an escaping backslash |
| Grammar.NumberEndScan | src/json_parser.c:244-254 | the digit loop takes the longest run of digits with at most one `.` and stops at a second `.` or any other byte |
| Grammar.NumberLit | src/json_parser.c:232-263 | the number branch always succeeds, consumes at least one byte (a lone `-` included) and keeps the consumed bytes verbatim as the number's text |
| Grammar.NumberLitText | src/json_parser.c:232-263 | the text of every number read is a `-` or digit followed by digits with at most one `.` |
| Grammar.Literal | src/json_parser.c:204-230 | a literal succeeds exactly when the whole word is present, advancing by its length; otherwise its own diagnostic is raised at the cursor |
| Grammar.AfterComma | src/json_parser.c:109-113 | the optional comma step never moves backwards or past the end |
| Grammar.Value | src/json_parser.c:183-269 | every successful value consumes at least one byte |
| Grammar.ArrayValue | src/json_parser.c:88-125 | an array at `[` consumes at least one byte when it succeeds |
| Grammar.ArrayItems | src/json_parser.c:96-124 | the element loop never moves backwards |
| Grammar.ArrayItemsFailure | src/json_parser.c:96-124 | the element loop fails only with "Unterminated array" at the end of the input, or with the unchanged diagnostic of an element's parse_value at a cursor inside the loop |
| Grammar.ObjectValue | src/json_parser.c:127-181 | an object at `{` consumes at least one byte when it succeeds |
| Grammar.Key | src/json_parser.c:136-152 | a key is a string followed by `:`, else "Expected ':'" at the byte after the key's whitespace |
| Grammar.MemberValue | src/json_parser.c:136-162 | one member, key then value: on success the cursor has advanced and the value carries a name; on failure the cursor stays inside the input |
| Grammar.ObjectMembers | src/json_parser.c:135-180 | the member loop never moves backwards |
| Grammar.ObjectMembersFailure | src/json_parser.c:135-180 | the member loop fails only with "Unterminated object" at the end of the input, or with the unchanged diagnostic of a member's key or value at a cursor inside the loop |
| Grammar.Parse | src/json_parser.c:312-319 | a successful parse consumes at least one byte and yields an unnamed, well-formed tree |
| Grammar.ValueWellFormed | src/json_parser.c:183-269 | every value parsed is unnamed and well-formed: scalars carry their text, array elements are named "0", "1", … in order, object members carry their raw keys |
| Grammar.AppendWellFormed | src/json_parser.c:103-106 | appending a well-formed child named by its index (array) or by a key (object) keeps the container well-formed |
| Grammar.ArrayItemsWellFormed | src/json_parser.c:96-124 | the element loop yields a well-formed unnamed array that keeps the elements already read |
| Grammar.ObjectMembersWellFormed | src/json_parser.c:135-180 | the member loop yields a well-formed unnamed object that keeps the members already read |
| Parser.JsonParser.constructor | src/json_parser.c:271-298 | a new parser holds the input, starts at line 1 column 0, has no diagnostics and room for 16 |
| Parser.JsonParser.SkipWhitespace | src/json_parser.c:10-24 | the cursor moves exactly as SkipWs says and nothing else changes |
| Parser.JsonParser.AddError | src/json_parser.c:26-39 | exactly one diagnostic is appended, carrying the current line and column; earlier ones are unchanged; the capacity doubles exactly when the list was full |
| Parser.JsonParser.SkipSeparator | src/json_parser.c:108-113 | whitespace, an optional comma and the whitespace after it are skipped |
| Parser.JsonParser.ParseString | src/json_parser.c:41-84 | returns what StringLit returns, leaves the cursor where it says, and records exactly its diagnostic on failure |
| Parser.JsonParser.ParseLiteral | src/json_parser.c:204-230 | the literal branches compute Literal, with its diagnostic on failure |
| Parser.JsonParser.ParseNumber | src/json_parser.c:232-263 | the number scan computes NumberLit and records nothing |
| Parser.JsonParser.ParseValue | src/json_parser.c:183-269 | parse_value computes Value: the same tree or failure, cursor and single diagnostic |
| Parser.JsonParser.ParseArray | src/json_parser.c:88-125 | parse_array computes ArrayValue |
| Parser.JsonParser.ParseKey | src/json_parser.c:136-152 | the key and colon of a member compute Key |
| Parser.JsonParser.ParseMember | src/json_parser.c:136-162 | the key, colon and value of one member compute MemberValue: the named value and cursor, or exactly its one diagnostic |
| Parser.JsonParser.ParseObject | src/json_parser.c:127-181 | parse_object computes ObjectValue |
| Parser.JsonParser.ParseTree | src/json_parser.c:312-319 | after resetting the cursor and diagnostics, computes Parse of the input; a tree comes back exactly when no diagnostic is left, and at most one is left; the cursor and diagnostics are those of Parse (ParsedInput) |
| EscapeCodec.Escape | src/json_stats.c:83-142 | the escaped text is one byte longer per byte that needs an escape |
| EscapeCodec.Unescape | src/json_stats.c:144-200 | the unescaped text is never longer than the input |
| EscapeCodec.EscapeAppend | src/json_stats.c:83-142 | escaping works byte by byte: the escape of a concatenation is the concatenation of the escapes |
| EscapeCodec.DecodedInvertsEscape | src/json_stats.c:162-190 | the letter written for each escaped byte decodes back to that byte |
| EscapeCodec.UnescapeEscape | src/json_stats.c:83-200 | round trip: unescaping the escape of any byte string gives it back |
| EscapeCodec.EscapeString | src/json_stats.c:83-142 | the sizing pass and the copy pass produce exactly Escape of the input |
| EscapeCodec.UnescapeString | src/json_stats.c:144-200 | the decoding loop produces exactly Unescape of the input |
| EscapeCodec.DecodeFromIsUnescape | src/json_stats.c:156-197 | the state of the decoding loop at any index, with its escaped flag, continues to Unescape of the rest |
| Buffers.GrownCapacityMeaning | src/json_format.c:37-48 | the new capacity holds the new size, is the old capacity doubled some number of times, and is the smallest such |
| Buffers.Buffer.constructor | src/json_format.c:12-25 | a new buffer is empty with capacity 1024 |
| Buffers.Buffer.Append | src/json_format.c:33-53 | the contents become the old contents followed by the text; the size grows by its length; the capacity is the grown capacity |
| Format.Spaces | src/json_format.c:146-148 | n spaces |
| Format.AppendSpaces | src/json_format.c:146-148 | the indentation loop appends exactly n spaces |
| Format.FormatValue | src/json_format.c:142-206 | format_value appends exactly Render of the node |
| Format.FormatUnindented | src/json_format.c:150-205 | the switch appends the node's text after its indentation |
| Format.FormatArray | src/json_format.c:169-182 | `[`, newline, the elements, the closing indentation and `]` |
| Format.FormatElements | src/json_format.c:171-177 | each element rendered one level deeper, a comma after all but the last, a newline after each |
| Format.FormatObject | src/json_format.c:184-204 | `{`, newline, the members, the closing indentation and `}` |
| Format.FormatMembers | src/json_format.c:186-199 | the members in stored order, each as FormatMember describes |
| Format.FormatMember | src/json_format.c:187-198 | the key head, the value rendered one level deeper (indented again), a comma unless last, a newline |
| Format.AppendMemberHead | src/json_format.c:188-193 | (level+1)*indent spaces, the quoted name and `": ` |
| Format.AppendSeparator | src/json_format.c:173-176 | a comma unless the child is the last, then a newline |
| Format.FormatTree | src/json_format.c:214-223 | the output is Render of the root at level 0 followed by exactly one newline |
| Format.FormatOf | src/json_format.c:208-229 | there is a text exactly when the input parses, and it ends in a newline |
| Format.JsonFormat | src/json_format.c:208-229 | no text without a parser; otherwise returns FormatOf: no text when the parse fails; otherwise the rendered root and one newline; leaves the parser's cursor at the end of the parse and its diagnostic, if any (ParsedInput), no diagnostic exactly when the input parses, at most one |
| Format.JsonCompact | src/json_format.c:231-233 | no text without a parser; otherwise returns FormatOf with indent 0; leaves the parser's cursor and diagnostics as the parse of the input does |
| Tokens.TokenList.constructor | src/json_format.c:126-127 | an empty token list with room for 16 |
| Tokens.TokenList.Add | src/json_format.c:55-70 | exactly one token is appended, its text the escape of the value; the capacity doubles exactly when the list was full |
| Tokens.AddComma | src/json_format.c:82-84 | a comma token before every child but the first |
| Tokens.TokenizeValue | src/json_format.c:72-120 | tokenize_value appends exactly TokensOf the node, in pre-order |
| Tokens.TokenizeElements | src/json_format.c:94-99 | the element tokens, comma-separated, in order |
| Tokens.TokenizeMembers | src/json_format.c:80-88 | per member: comma unless first, key token, colon, value tokens |
| Tokens.TokensBalanced | src/json_format.c:72-120 | tokenize_value emits as many `}`/`]` tokens as `{`/`[` tokens (braces and brackets counted together); a container's tokens start with its opener and end with its closer |
| Tokens.TokenizeTree | src/json_format.c:126-139 | the tokens of the root |
| Tokens.JsonTokenize | src/json_format.c:122-140 | no tokens without a parser; otherwise no tokens when the parse fails; otherwise the root's tokens; leaves the parser's cursor and diagnostics as the parse of the input does |
| Analytics.AccumulatedOfStep | src/json_stats.c:44-46 | walking one more child at depth+1 extends the siblings' totals |
| Analytics.AccumulatedSplit | src/json_stats.c:10-46 | a node's walk is its own contribution followed by its children's |
| Analytics.CollectStats | src/json_stats.c:7-47 | the accumulator gains the node count, named-node count and per-kind counts of the subtree, and its depth is raised to the entry depth plus the subtree's height |
| Analytics.JsonStats | src/json_stats.c:49-61 | all-zero statistics without a parser; otherwise all-zero statistics when the parse fails, otherwise the walk of the root at depth 0; leaves the parser's cursor and diagnostics as the parse of the input does |
| Analytics.JsonValidate | src/json_stats.c:63-81 | false without a parser; otherwise true exactly when the input parses; leaves the parse's cursor and its one diagnostic, if any, in the parser, none exactly when the input parses |
| Analytics.NamedWellFormed | src/json_stats.c:39-41 | in a parsed tree every node but the unnamed root carries a name |
| Analytics.StatsOfParsed | src/json_stats.c:7-61 | for any input that parses: total_keys is total_values - 1, the kind counts add up to total_values, and depth is the tree's height |
| RoundTrip.SkipWsOver | src/json_parser.c:10-24 | skip_whitespace over a run of whitespace stops right after it when the next byte is none |
| RoundTrip.StringLitRoundTrip | src/json_parser.c:41-84 | parse_string at a quote followed by StringContent and a quote returns exactly that content and stops after the closing quote |
| RoundTrip.NumberLitRoundTrip | src/json_parser.c:232-263 | the number scan over a number's text followed by a delimiter reads exactly that text back |
| RoundTrip.ScalarRoundTrip | src/json_format.c:150-161 | parse_value reads the text format_value writes for null, a boolean or a number back as the same node |
| RoundTrip.StringRoundTrip | src/json_format.c:163-167 | parse_value reads a quoted string value back as the same node |
| RoundTrip.KeyRoundTrip | src/json_parser.c:136-152 | a member key as format_value writes it (quoted name, colon, space, indentation) is read back as the name, with the cursor at the value |
| RoundTrip.CommaRoundTrip | src/json_parser.c:164-169 | after a value followed by a comma the loop consumes the comma and the whitespace after it |
| RoundTrip.CloseArrayRoundTrip | src/json_parser.c:96-124 | after the last element the loop stops at the `]` past the newline and indentation and returns the array |
| RoundTrip.CloseObjectRoundTrip | src/json_parser.c:135-180 | after the last member the loop stops at the `}` past the newline and indentation and returns the object |
| RoundTrip.ArrayTailRoundTrip | src/json_parser.c:96-124 | the element loop, entered with i elements parsed, reads the remaining rendered elements and the `]` and returns the whole array |
| RoundTrip.ObjectTailRoundTrip | src/json_parser.c:135-180 | the member loop, entered with i members parsed, reads the remaining rendered members and the `}` and returns the whole object |
| RoundTrip.ArrayRoundTrip | src/json_format.c:169-182 | parse_array reads an array's rendering back as the same array |
| RoundTrip.ObjectRoundTrip | src/json_format.c:184-204 | parse_object reads an object's rendering back as the same object, keys and order kept |
| RoundTrip.UnindentedRoundTrip | src/json_parser.c:183-269 | parse_value at the text format_value writes for a WellFormed node returns the node, unnamed, and stops right after the text |
| RoundTrip.FormatRoundTrip | src/json_format.c:220-221 | parsing the output of json_format for an unnamed WellFormed root gives the root back and consumes all but the final newline |
| RoundTrip.FormatStable | src/json_format.c:208-229 | json_format's output parses to the input's tree, and formatting it again with any width equals formatting the input with that width |

## Left out

- Allocation failure: `malloc`, `realloc` and `strdup` never fail in the model, so the paths that return NULL or false on a failed allocation are absent. Freeing memory is absent too: a discarded partial tree is simply dropped.
- The `parent` back-pointer and the `children_capacity` growth of a node (16, then doubling). The tree is a value here. The pointer is never read by the modelled code, and the capacity cannot be observed.
- Embedded NUL bytes. Strings are modelled as NUL-free byte sequences; the model does not enforce this.
- `JSON_MAX_DEPTH`. It is declared but not enforced by the code.
- The diagnostic messages that `json_parse_tree` leaks when it resets the count.
- `json_format` returns `strdup` of a buffer that is never NUL-terminated. The model returns the buffer's contents.
- Parser.JsonParser.ParseTree: `json_parse_tree(NULL)` returning NULL is not modelled. The routine is a method of a parser object, so a parser is always there.
- Tokens.JsonTokenize: a NULL `token_count` returning NULL is not modelled. The count is the length of the returned sequence. A NULL parser is modelled.
- EscapeCodec.EscapeString: a NULL string returning NULL is not modelled. The input is a byte sequence.
- EscapeCodec.UnescapeString: a NULL string returning NULL is not modelled. The input is a byte sequence.
- Tree.AddChild: a NULL parent doing nothing is not modelled. The parent is a node value. A NULL child is modelled.
- Format.FormatValue: `size_t` width is not modelled. `indent` and the level are unbounded, so the wrap of `level * indent` for a huge indent is absent.
- Output through `FILE*`: `print_tree_node`, `json_print_tree` and all of `src/jsonchrist.c`.
