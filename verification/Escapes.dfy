/** How strings are quoted: Rust's `{:?}` for object keys, JSON text for values. */
module Escapes {
  import opened Text

  function HexDigit(d: nat): (c: char)
    requires d < 16
    ensures '0' <= c <= '9' || 'a' <= c <= 'f'
  {
    if d < 10 then '0' + d as char else 'a' + (d - 10) as char
  }

  function HexValue(c: char): nat {
    if '0' <= c <= '9' then c as nat - '0' as nat
    else if 'a' <= c <= 'f' then c as nat - 'a' as nat + 10
    else 0
  }

  /** Lower-case hexadecimal without leading zeros. */
  function Hex(n: nat): (s: string)
    ensures s != [] && '}' !in s
  {
    if n < 16 then [HexDigit(n)] else Hex(n / 16) + [HexDigit(n % 16)]
  }

  function ParseHex(s: string): nat {
    if s == [] then 0 else ParseHex(s[..|s| - 1]) * 16 + HexValue(s[|s| - 1])
  }

  lemma {:induction false} ParseInvertsHex(n: nat)
    ensures ParseHex(Hex(n)) == n
  {
    if n >= 16 {
      var s := Hex(n);
      ParseInvertsHex(n / 16);
      assert s[..|s| - 1] == Hex(n / 16);
    }
  }

  /** serde_json's escape of one character of a string value. */
  function JsonEscape(c: char): string {
    if c == '\"' then "\\\""
    else if c == '\\' then "\\\\"
    else if c == 8 as char then "\\b"
    else if c == 12 as char then "\\f"
    else if c == '\n' then "\\n"
    else if c == '\r' then "\\r"
    else if c == '\t' then "\\t"
    else if c < ' ' then "\\u00" + [HexDigit(c as nat / 16), HexDigit(c as nat % 16)]
    else [c]
  }

  /** Rust's Debug escape of one character of a key. Which characters are
      printable is a Unicode table, left open. */
  function DebugEscape(printable: char -> bool, c: char): string {
    if c == '\0' then "\\0"
    else if c == '\t' then "\\t"
    else if c == '\r' then "\\r"
    else if c == '\n' then "\\n"
    else if c == '\"' then "\\\""
    else if c == '\\' then "\\\\"
    else if printable(c) then [c]
    else "\\u{" + Hex(c as nat) + "}"
  }

  function DebugCode(printable: char -> bool): char -> string {
    c => DebugEscape(printable, c)
  }

  function EscapeAll(code: char -> string, s: string): string {
    if s == [] then [] else code(s[0]) + EscapeAll(code, s[1..])
  }

  function Quote(code: char -> string, s: string): string {
    "\"" + EscapeAll(code, s) + "\""
  }

  // ---------- unique decoding ----------

  ghost predicate StartsUnquoted(code: char -> string) {
    forall c :: code(c) != [] && code(c)[0] != '\"'
  }

  /** No character's code starts with a quote, and what a text starts with
      determines the first character that was encoded. */
  ghost predicate UniquelyDecodable(code: char -> string) {
    && StartsUnquoted(code)
    && (forall c, d, x: string, y: string :: code(c) + x == code(d) + y ==> c == d)
  }

  /** The character that a two-character JSON escape ending in `letter` stands for. */
  function JsonUnescape(letter: char): char {
    match letter
    case 'b' => 8 as char
    case 'f' => 12 as char
    case 'n' => '\n'
    case 'r' => '\r'
    case 't' => '\t'
    case _ => letter
  }

  /** The three forms of a JSON escape: the character, a letter or a number. */
  lemma JsonForms(c: char)
    ensures var e := JsonEscape(c);
            || (e == [c] && c != '\\' && c != '\"')
            || (|e| == 2 && e[0] == '\\' && e[1] != 'u' && JsonUnescape(e[1]) == c)
            || (|e| == 6 && e[0] == '\\' && e[1] == 'u' && c as nat == HexValue(e[4]) * 16 + HexValue(e[5]))
  {
  }

  /** Which form a character takes: a letter for these seven, a four-digit
      number for the other control characters, itself for all others. */
  lemma JsonFormOf(c: char)
    ensures var e, short := JsonEscape(c), c in ['\"', '\\', '\n', '\r', '\t', 8 as char, 12 as char];
            && (|e| == 2 <==> short)
            && (e == [c] <==> !short && c >= ' ')
            && (!short && c < ' ' ==> |e| == 6 && e[..4] == "\\u00")
  {
  }

  lemma JsonEscapesDistinct(c: char, d: char, x: string, y: string)
    requires JsonEscape(c) + x == JsonEscape(d) + y
    ensures c == d
  {
    var e, f := JsonEscape(c), JsonEscape(d);
    JsonForms(c);
    JsonForms(d);
    assert (e + x)[0] == e[0] && (f + y)[0] == f[0];
    if |e| > 1 && |f| > 1 {
      assert (e + x)[1] == e[1] && (f + y)[1] == f[1];
      if |e| == 6 && |f| == 6 {
        assert (e + x)[4] == e[4] && (f + y)[4] == f[4];
        assert (e + x)[5] == e[5] && (f + y)[5] == f[5];
      }
    }
  }

  lemma JsonEscapeDecodable()
    ensures UniquelyDecodable(JsonEscape)
  {
    forall c
      ensures JsonEscape(c) != [] && JsonEscape(c)[0] != '\"'
    {
      JsonForms(c);
    }
    forall c, d, x: string, y: string | JsonEscape(c) + x == JsonEscape(d) + y
      ensures c == d
    {
      JsonEscapesDistinct(c, d, x, y);
    }
  }

  /** The character that a two-character Debug escape ending in `letter` stands for. */
  function Unescape(letter: char): char {
    match letter
    case '0' => '\0'
    case 't' => '\t'
    case 'r' => '\r'
    case 'n' => '\n'
    case _ => letter
  }

  /** The three forms of a Debug escape: the character, a letter or a number. */
  lemma DebugForms(printable: char -> bool, c: char)
    ensures var e := DebugEscape(printable, c);
            || (e == [c] && c != '\\' && c != '\"')
            || (|e| == 2 && e[0] == '\\' && e[1] != 'u' && Unescape(e[1]) == c)
            || e == "\\u{" + Hex(c as nat) + "}"
  {
  }

  /** Which form a character takes: a letter for these six, itself if it is
      printable, a number otherwise. */
  lemma DebugFormOf(printable: char -> bool, c: char)
    ensures var e, short := DebugEscape(printable, c), c in ['\0', '\t', '\r', '\n', '\"', '\\'];
            && (short ==> |e| == 2)
            && (!short && printable(c) ==> e == [c])
            && (!short && !printable(c) ==> e == "\\u{" + Hex(c as nat) + "}")
  {
  }

  /** A number is read up to its closing brace. */
  lemma NumbersDistinct(c: char, d: char, x: string, y: string)
    requires "\\u{" + Hex(c as nat) + "}" + x == "\\u{" + Hex(d as nat) + "}" + y
    ensures c == d
  {
    var m, n := Hex(c as nat), Hex(d as nat);
    var s, t := "\\u{" + m + "}" + x, "\\u{" + n + "}" + y;
    assert s[3..] == m + ['}'] + x && t[3..] == n + ['}'] + y;
    JoinInjective('}', m, n, x, y);
    ParseInvertsHex(c as nat);
    ParseInvertsHex(d as nat);
  }

  lemma DebugEscapesDistinct(printable: char -> bool, c: char, d: char, x: string, y: string)
    requires DebugEscape(printable, c) + x == DebugEscape(printable, d) + y
    ensures c == d
  {
    var e, f := DebugEscape(printable, c), DebugEscape(printable, d);
    DebugForms(printable, c);
    DebugForms(printable, d);
    assert (e + x)[0] == e[0] && (f + y)[0] == f[0];
    if |e| > 1 && |f| > 1 {
      assert (e + x)[1] == e[1] && (f + y)[1] == f[1];
      if e[1] == 'u' {
        NumbersDistinct(c, d, x, y);
      }
    }
  }

  lemma DebugEscapeDecodable(printable: char -> bool)
    ensures UniquelyDecodable(DebugCode(printable))
  {
    var code := DebugCode(printable);
    forall c
      ensures code(c) != [] && code(c)[0] != '\"'
    {
      DebugForms(printable, c);
    }
    forall c, d, x: string, y: string | code(c) + x == code(d) + y
      ensures c == d
    {
      DebugEscapesDistinct(printable, c, d, x, y);
    }
  }

  lemma FirstUnique(code: char -> string, c: char, d: char, x: string, y: string)
    requires UniquelyDecodable(code) && code(c) + x == code(d) + y
    ensures c == d && x == y
  {
    assert c == d;
    assert (code(c) + x)[|code(c)|..] == x && (code(d) + y)[|code(d)|..] == y;
  }

  /** A closing quote is not the code of a character. */
  lemma EndsHere(code: char -> string, x: string)
    ensures EscapeAll(code, []) + ("\"" + x) == "\"" + x && ("\"" + x)[0] == '\"' && ("\"" + x)[1..] == x
  {
  }

  lemma GoesOn(code: char -> string, s: string, rest: string)
    requires StartsUnquoted(code) && s != []
    ensures EscapeAll(code, s) + rest == code(s[0]) + (EscapeAll(code, s[1..]) + rest)
    ensures EscapeAll(code, s) != [] && (EscapeAll(code, s) + rest)[0] != '\"'
  {
    var first := code(s[0]);
    assert first != [] && first[0] != '\"';
    Assoc(first, EscapeAll(code, s[1..]), rest);
  }

  lemma {:induction false} EscapesUnique(code: char -> string, s: string, t: string, x: string, y: string)
    requires UniquelyDecodable(code)
    requires EscapeAll(code, s) + ("\"" + x) == EscapeAll(code, t) + ("\"" + y)
    ensures s == t && x == y
    decreases |s|
  {
    if s == [] && t == [] {
      EndsHere(code, x);
      EndsHere(code, y);
    } else if s == [] {
      EndsHere(code, x);
      GoesOn(code, t, "\"" + y);
    } else if t == [] {
      EndsHere(code, y);
      GoesOn(code, s, "\"" + x);
    } else {
      GoesOn(code, s, "\"" + x);
      GoesOn(code, t, "\"" + y);
      FirstUnique(code, s[0], t[0], EscapeAll(code, s[1..]) + ("\"" + x), EscapeAll(code, t[1..]) + ("\"" + y));
      EscapesUnique(code, s[1..], t[1..], x, y);
      assert s == [s[0]] + s[1..] && t == [t[0]] + t[1..];
    }
  }

  lemma QuoteUnique(code: char -> string, s: string, t: string, x: string, y: string)
    requires UniquelyDecodable(code)
    requires Quote(code, s) + x == Quote(code, t) + y
    ensures s == t && x == y
  {
    var l, r := Quote(code, s) + x, Quote(code, t) + y;
    assert l[1..] == EscapeAll(code, s) + ("\"" + x);
    assert r[1..] == EscapeAll(code, t) + ("\"" + y);
    EscapesUnique(code, s, t, x, y);
  }
}
