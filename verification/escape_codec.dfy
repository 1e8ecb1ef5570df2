/**
 * The escape codec of src/json_stats.c: json_escape_string replaces the
 * seven bytes that must be escaped inside a JSON string (section 7 of
 * RFC 8259) by their two-character escapes; json_unescape_string decodes
 * those and `\/`, leaves unknown escapes as they are, and never fails.
 * `\uXXXX` is neither produced nor decoded.
 */
module EscapeCodec {
  import opened JsonTypes

  const Backspace: char := '\U{8}'
  const FormFeed: char := '\U{C}'

  /** The bytes json_escape_string escapes. */
  predicate NeedsEscape(c: char)
  {
    c == '"' || c == '\\' || c == Backspace || c == FormFeed || c == '\n' || c == '\r' || c == '\t'
  }

  /** The letter that follows the backslash in the escape of c. */
  function EscapeLetter(c: char): char
    requires NeedsEscape(c)
  {
    if c == Backspace then 'b'
    else if c == FormFeed then 'f'
    else if c == '\n' then 'n'
    else if c == '\r' then 'r'
    else if c == '\t' then 't'
    else c
  }

  /** What one input byte becomes in the output of json_escape_string. */
  function EscapeByte(c: char): string
  {
    if NeedsEscape(c) then ['\\', EscapeLetter(c)] else [c]
  }

  /** How many bytes of s need an escape. */
  function SpecialCount(s: string): nat
  {
    if s == [] then 0 else (if NeedsEscape(s[0]) then 1 else 0) + SpecialCount(s[1..])
  }

  /**
   * The output of json_escape_string: every byte escaped on its own, in
   * order, so the output is one byte longer per special byte.
   */
  function Escape(s: string): (r: string)
    ensures |r| == |s| + SpecialCount(s)
  {
    if s == [] then [] else EscapeByte(s[0]) + Escape(s[1..])
  }

  /**
   * The byte that `\` followed by c decodes to, or None when c does not
   * name one of the eight escapes json_unescape_string knows.
   */
  function Decoded(c: char): Option<char>
  {
    if c == '"' || c == '\\' || c == '/' then Some(c)
    else if c == 'b' then Some(Backspace)
    else if c == 'f' then Some(FormFeed)
    else if c == 'n' then Some('\n')
    else if c == 'r' then Some('\r')
    else if c == 't' then Some('\t')
    else None
  }

  /**
   * The output of json_unescape_string: a known escape becomes one byte,
   * an unknown `\c` stays the two bytes `\c`, a final lone backslash stays,
   * every other byte is copied. The output is never longer than the input.
   */
  function Unescape(s: string): (r: string)
    ensures |r| <= |s|
  {
    if s == [] then []
    else if s[0] != '\\' then [s[0]] + Unescape(s[1..])
    else if |s| == 1 then ['\\']
    else EscapeBytes(s[1]) + Unescape(s[2..])
  }

  /** What `\` followed by c becomes in the output of json_unescape_string. */
  function EscapeBytes(c: char): string
  {
    match Decoded(c)
    case Some(d) => [d]
    case None => ['\\', c]
  }

  /** Unescaping from a byte that is not a backslash copies that byte. */
  lemma UnescapePlainStep(s: string, i: nat)
    requires i < |s| && s[i] != '\\'
    ensures Unescape(s[i..]) == [s[i]] + Unescape(s[i + 1..])
  {
    assert s[i..][1..] == s[i + 1..];
  }

  /** Unescaping from a backslash that has a byte after it decodes the pair. */
  lemma UnescapePairStep(s: string, i: nat)
    requires i + 1 < |s| && s[i] == '\\'
    ensures Unescape(s[i..]) == EscapeBytes(s[i + 1]) + Unescape(s[i + 2..])
  {
    assert s[i..][1] == s[i + 1] && s[i..][2..] == s[i + 2..];
  }

  lemma {:induction false} EscapeAppend(a: string, b: string)
    ensures Escape(a + b) == Escape(a) + Escape(b)
    ensures SpecialCount(a + b) == SpecialCount(a) + SpecialCount(b)
  {
    if a != [] {
      assert (a + b)[1..] == a[1..] + b;
      EscapeAppend(a[1..], b);
    } else {
      assert a + b == b;
    }
  }

  /** Decoding the escape of any byte gives the byte back. */
  lemma DecodedInvertsEscape(c: char)
    requires NeedsEscape(c)
    ensures Decoded(EscapeLetter(c)) == Some(c)
  {
  }

  /** Round trip: unescaping the escape of any byte string gives it back. */
  lemma {:induction false} UnescapeEscape(s: string)
    ensures Unescape(Escape(s)) == s
  {
    if s != [] {
      var c, rest := s[0], Escape(s[1..]);
      var e := Escape(s);
      assert e == EscapeByte(c) + rest;
      UnescapeEscape(s[1..]);
      if NeedsEscape(c) {
        DecodedInvertsEscape(c);
        assert e[0] == '\\' && e[1] == EscapeLetter(c) && e[2..] == rest;
      } else {
        assert e[0] == c && e[1..] == rest;
      }
    }
  }

  /** Escaping from index i escapes s[i], then the rest. */
  lemma EscapeSuffixStep(s: string, i: nat)
    requires i < |s|
    ensures Escape(s[i..]) == EscapeByte(s[i]) + Escape(s[i + 1..])
    ensures SpecialCount(s[i..]) == (if NeedsEscape(s[i]) then 1 else 0) + SpecialCount(s[i + 1..])
  {
    assert s[i..][1..] == s[i + 1..];
  }

  /** json_escape_string: a size pass, then a copy pass that fills the result exactly. */
  method EscapeString(s: string) returns (r: string)
    ensures r == Escape(s)
  {
    var escapedLen := |s|;
    ghost var specials := SpecialCount(s);
    assert s[0..] == s;
    for i := 0 to |s|
      invariant escapedLen + SpecialCount(s[i..]) == |s| + specials
    {
      EscapeSuffixStep(s, i);
      if NeedsEscape(s[i]) {
        escapedLen := escapedLen + 1;
      }
    }
    var result := new char[escapedLen];
    var j := 0;
    ghost var written: string := [];
    ghost var target := Escape(s);
    for i := 0 to |s|
      invariant j == |written| && j + |Escape(s[i..])| == result.Length
      invariant result[..j] == written
      invariant written + Escape(s[i..]) == target
    {
      EscapeSuffixStep(s, i);
      var c := s[i];
      ConcatAssoc(written, EscapeByte(c), Escape(s[i + 1..]));
      if NeedsEscape(c) {
        result[j] := '\\';
        result[j + 1] := EscapeLetter(c);
        j := j + 2;
      } else {
        result[j] := c;
        j := j + 1;
      }
      written := written + EscapeByte(c);
    }
    r := result[..];
  }

  /**
   * What the unescape loop still writes when it stands at index i of s with
   * the given `escaped` flag.
   */
  function DecodeFrom(s: string, i: nat, escaped: bool): string
    requires i <= |s|
    decreases |s| - i
  {
    if i == |s| then (if escaped then ['\\'] else [])
    else if escaped then EscapeBytes(s[i]) + DecodeFrom(s, i + 1, false)
    else if s[i] == '\\' then DecodeFrom(s, i + 1, true)
    else [s[i]] + DecodeFrom(s, i + 1, false)
  }

  lemma {:induction false} DecodeFromIsUnescape(s: string, i: nat)
    requires i <= |s|
    ensures DecodeFrom(s, i, false) == Unescape(s[i..])
    decreases |s| - i
  {
    if i < |s| {
      if s[i] != '\\' {
        UnescapePlainStep(s, i);
        DecodeFromIsUnescape(s, i + 1);
      } else if i + 1 < |s| {
        UnescapePairStep(s, i);
        DecodeFromIsUnescape(s, i + 2);
      } else {
        assert s[i..] == ['\\'];
      }
    }
  }

  /** json_unescape_string: one pass with an `escaped` flag, writing through j. */
  method UnescapeString(s: string) returns (r: string)
    ensures r == Unescape(s)
  {
    var result := new char[|s|];
    var j := 0;
    var escaped := false;
    ghost var written: string := [];
    ghost var target := DecodeFrom(s, 0, false);
    for i := 0 to |s|
      invariant escaped ==> 0 < i
      invariant j == |written| <= (if escaped then i - 1 else i)
      invariant result[..j] == written
      invariant written + DecodeFrom(s, i, escaped) == target
    {
      var c := s[i];
      if escaped {
        // the switch on the escape letter: one decoded byte, or `\c` kept as is
        var out := EscapeBytes(c);
        result[j] := out[0];
        if |out| == 2 {
          result[j + 1] := out[1];
        }
        ConcatAssoc(written, out, DecodeFrom(s, i + 1, false));
        written := written + out;
        j := j + |out|;
        escaped := false;
      } else if c == '\\' {
        escaped := true;
      } else {
        result[j] := c;
        ConcatAssoc(written, [c], DecodeFrom(s, i + 1, false));
        written := written + [c];
        j := j + 1;
      }
    }
    if escaped {
      result[j] := '\\';
      written := written + ['\\'];
      j := j + 1;
    }
    r := result[..j];
    DecodeFromIsUnescape(s, 0);
    assert s[0..] == s;
  }
}
