/**
 * Query strings as `URLSearchParams` prints and parses them: application/x-www-form-urlencoded
 * (section 5 of the WHATWG URL Standard) over UTF-8 (section 8 of the WHATWG Encoding Standard).
 *
 * Text is made of Unicode scalar values.
 */
module FormUrl {
  import opened Options

  type Byte = n: int | 0 <= n < 256
  type Bytes = seq<Byte>

  // ----- UTF-8 -----

  function EncodeChar(c: char): Bytes {
    var n := c as int;
    if n < 0x80 then [n]
    else if n < 0x800 then [0xC0 + n / 0x40, 0x80 + n % 0x40]
    else if n < 0x10000 then [0xE0 + n / 0x1000, 0x80 + n / 0x40 % 0x40, 0x80 + n % 0x40]
    else [0xF0 + n / 0x40000, 0x80 + n / 0x1000 % 0x40, 0x80 + n / 0x40 % 0x40, 0x80 + n % 0x40]
  }

  function Encode(s: string): Bytes {
    if s == "" then [] else EncodeChar(s[0]) + Encode(s[1..])
  }

  const REPLACEMENT: char := '\U{FFFD}'

  function ToChar(n: nat): char {
    if n < 0xD800 || 0xE000 <= n < 0x110000 then n as char else REPLACEMENT
  }

  /** The remaining `needed` bytes of a character; the next one must lie between the bounds. */
  function Continue(b: Bytes, needed: nat, n: nat, lower: nat, upper: nat): (r: (char, Bytes))
    ensures |r.1| <= |b|
    decreases needed
  {
    if needed == 0 then (ToChar(n), b)
    else if b == [] || b[0] < lower || b[0] > upper then (REPLACEMENT, b)
    else Continue(b[1..], needed - 1, n * 0x40 + b[0] % 0x40, 0x80, 0xBF)
  }

  /** One character, or the replacement for what is not one. */
  function DecodeChar(b: Bytes): (r: (char, Bytes))
    requires b != []
    ensures |r.1| < |b|
  {
    var (lead, rest) := (b[0], b[1..]);
    if lead < 0x80 then (ToChar(lead), rest)
    else if 0xC2 <= lead <= 0xDF then Continue(rest, 1, lead - 0xC0, 0x80, 0xBF)
    else if 0xE0 <= lead <= 0xEF then
      Continue(rest, 2, lead - 0xE0, if lead == 0xE0 then 0xA0 else 0x80, if lead == 0xED then 0x9F else 0xBF)
    else if 0xF0 <= lead <= 0xF4 then
      Continue(rest, 3, lead - 0xF0, if lead == 0xF0 then 0x90 else 0x80, if lead == 0xF4 then 0x8F else 0xBF)
    else (REPLACEMENT, rest)
  }

  function Decode(b: Bytes): string {
    if b == [] then "" else var (c, rest) := DecodeChar(b); [c] + Decode(rest)
  }

  lemma Drop(a: Byte, rest: Bytes)
    ensures ([a] + rest)[0] == a && ([a] + rest)[1..] == rest
  {
  }

  lemma OneByte(b: Byte, rest: Bytes, needed: nat, n: nat, lower: nat, upper: nat)
    requires needed > 0 && lower <= b <= upper
    ensures Continue([b] + rest, needed, n, lower, upper) == Continue(rest, needed - 1, n * 0x40 + b % 0x40, 0x80, 0xBF)
  {
    Drop(b, rest);
  }

  lemma TwoBytes(n: nat, rest: Bytes)
    requires 0x80 <= n < 0x800
    ensures DecodeChar([0xC0 + n / 0x40, 0x80 + n % 0x40] + rest) == (ToChar(n), rest)
  {
    hide ToChar;
    var lead: Byte, b: Byte := 0xC0 + n / 0x40, 0x80 + n % 0x40;
    assert [lead, b] + rest == [lead] + ([b] + rest);
    Drop(lead, [b] + rest);
    OneByte(b, rest, 1, lead - 0xC0, 0x80, 0xBF);
    assert (lead - 0xC0) * 0x40 + b % 0x40 == n;
  }

  /** The digits of a number to base 64. */
  lemma Digits(n: nat)
    ensures n / 0x40 / 0x40 == n / 0x1000 && n / 0x1000 / 0x40 == n / 0x40000
    ensures n == n / 0x40 * 0x40 + n % 0x40
    ensures n / 0x40 == n / 0x1000 * 0x40 + n / 0x40 % 0x40
    ensures n / 0x1000 == n / 0x40000 * 0x40 + n / 0x1000 % 0x40
  {
  }

  lemma ThreeBytes(n: nat, rest: Bytes)
    requires 0x800 <= n < 0x10000 && !(0xD800 <= n < 0xE000)
    ensures DecodeChar([0xE0 + n / 0x1000, 0x80 + n / 0x40 % 0x40, 0x80 + n % 0x40] + rest) == (ToChar(n), rest)
  {
    hide ToChar, Continue;
    Digits(n);
    var lead: Byte, b: Byte, c: Byte := 0xE0 + n / 0x1000, 0x80 + n / 0x40 % 0x40, 0x80 + n % 0x40;
    assert [lead, b, c] + rest == [lead] + ([b] + ([c] + rest));
    Drop(lead, [b] + ([c] + rest));
    var lower, upper := if lead == 0xE0 then 0xA0 else 0x80, if lead == 0xED then 0x9F else 0xBF;
    var high: nat := lead - 0xE0;
    assert high * 0x40 + b % 0x40 == n / 0x40 && n / 0x40 * 0x40 + c % 0x40 == n;
    OneByte(b, [c] + rest, 2, high, lower, upper);
    OneByte(c, rest, 1, n / 0x40, 0x80, 0xBF);
    AllRead(n, rest);
  }

  lemma FourBytes(n: nat, rest: Bytes)
    requires 0x10000 <= n < 0x110000
    ensures DecodeChar([0xF0 + n / 0x40000, 0x80 + n / 0x1000 % 0x40, 0x80 + n / 0x40 % 0x40, 0x80 + n % 0x40] + rest)
      == (ToChar(n), rest)
  {
    hide ToChar, Continue;
    Digits(n);
    var lead: Byte, b: Byte := 0xF0 + n / 0x40000, 0x80 + n / 0x1000 % 0x40;
    var c: Byte, d: Byte := 0x80 + n / 0x40 % 0x40, 0x80 + n % 0x40;
    assert [lead, b, c, d] + rest == [lead] + ([b] + ([c] + ([d] + rest)));
    Drop(lead, [b] + ([c] + ([d] + rest)));
    var lower, upper := if lead == 0xF0 then 0x90 else 0x80, if lead == 0xF4 then 0x8F else 0xBF;
    var high: nat := lead - 0xF0;
    assert high * 0x40 + b % 0x40 == n / 0x1000;
    assert n / 0x1000 * 0x40 + c % 0x40 == n / 0x40;
    assert n / 0x40 * 0x40 + d % 0x40 == n;
    OneByte(b, [c] + ([d] + rest), 3, high, lower, upper);
    OneByte(c, [d] + rest, 2, n / 0x1000, 0x80, 0xBF);
    OneByte(d, rest, 1, n / 0x40, 0x80, 0xBF);
    AllRead(n, rest);
  }

  lemma AllRead(n: nat, rest: Bytes)
    ensures Continue(rest, 0, n, 0x80, 0xBF) == (ToChar(n), rest)
  {
  }

  lemma CharDecodes(c: char, rest: Bytes)
    ensures DecodeChar(EncodeChar(c) + rest) == (c, rest)
  {
    hide DecodeChar;
    var n := c as int;
    if n < 0x80 {
      OneByteChar(c, rest);
    } else if n < 0x800 {
      TwoBytes(n, rest);
    } else if n < 0x10000 {
      ThreeBytes(n, rest);
    } else {
      FourBytes(n, rest);
    }
  }

  lemma OneByteChar(c: char, rest: Bytes)
    requires c as int < 0x80
    ensures DecodeChar(EncodeChar(c) + rest) == (c, rest)
  {
    Drop(c as int, rest);
  }

  /** Decoding undoes encoding, for every text. */
  lemma {:induction false} TextDecodes(s: string)
    ensures Decode(Encode(s)) == s
  {
    hide DecodeChar, EncodeChar;
    if s != "" {
      CharDecodes(s[0], Encode(s[1..]));
      TextDecodes(s[1..]);
      assert s == [s[0]] + s[1..];
    }
  }

  // ----- percent encoding -----

  /** Bytes that stand for themselves: letters, digits and `*-._`. */
  predicate IsPlain(b: Byte) {
    || '0' as int <= b <= '9' as int || 'A' as int <= b <= 'Z' as int || 'a' as int <= b <= 'z' as int
    || b == '*' as int || b == '-' as int || b == '.' as int || b == '_' as int
  }

  function HexDigit(n: nat): Byte
    requires n < 16
  {
    if n < 10 then '0' as int + n else 'A' as int + n - 10
  }

  function HexValue(b: Byte): Option<nat> {
    if '0' as int <= b <= '9' as int then Some(b - '0' as int)
    else if 'A' as int <= b <= 'F' as int then Some(b - 'A' as int + 10)
    else if 'a' as int <= b <= 'f' as int then Some(b - 'a' as int + 10)
    else None
  }

  function EscapeByte(b: Byte): Bytes {
    if IsPlain(b) then [b]
    else if b == ' ' as int then ['+' as int]
    else ['%' as int, HexDigit(b / 16), HexDigit(b % 16)]
  }

  function Escape(b: Bytes): Bytes {
    if b == [] then [] else EscapeByte(b[0]) + Escape(b[1..])
  }

  /** Pluses to spaces, then percent-decoding; a percent sign without two digits stands for itself. */
  function Unescape(b: Bytes): Bytes
    decreases |b|
  {
    if b == [] then []
    else if b[0] == '+' as int then [' ' as int] + Unescape(b[1..])
    else if b[0] == '%' as int && |b| > 2 && HexValue(b[1]).Some? && HexValue(b[2]).Some? then
      [(HexValue(b[1]).value * 16 + HexValue(b[2]).value) % 256] + Unescape(b[3..])
    else [b[0]] + Unescape(b[1..])
  }

  lemma ByteUnescapes(b: Byte, rest: Bytes)
    ensures Unescape(EscapeByte(b) + rest) == [b] + Unescape(rest)
  {
    if IsPlain(b) || b == ' ' as int {
      Drop(EscapeByte(b)[0], rest);
    } else {
      var escaped := EscapeByte(b) + rest;
      assert HexValue(HexDigit(b / 16)) == Some(b / 16) && HexValue(HexDigit(b % 16)) == Some(b % 16);
      assert escaped[1] == HexDigit(b / 16) && escaped[2] == HexDigit(b % 16) && escaped[3..] == rest;
    }
  }

  lemma {:induction false} BytesUnescape(b: Bytes)
    ensures Unescape(Escape(b)) == b
  {
    hide Unescape, EscapeByte;
    if b == [] {
      assert Unescape([]) == [] by { NothingUnescapes(); }
    } else {
      ByteUnescapes(b[0], Escape(b[1..]));
      BytesUnescape(b[1..]);
      assert b == [b[0]] + b[1..];
    }
  }

  lemma NothingUnescapes()
    ensures Unescape([]) == []
  {
  }

  /** The bytes of escaped text. */
  predicate IsSafe(b: Byte) { IsPlain(b) || b == '+' as int || b == '%' as int }

  ghost predicate AllSafe(b: Bytes) { forall i :: 0 <= i < |b| ==> IsSafe(b[i]) }

  lemma {:induction false} EscapeIsSafe(b: Bytes)
    ensures AllSafe(Escape(b))
  {
    if b != [] {
      EscapeIsSafe(b[1..]);
    }
  }

  // ----- name-value pairs -----

  type Query = seq<(string, string)>

  const AMPERSAND: Byte := '&' as int
  const EQUALS: Byte := '=' as int

  function PrintPair(pair: (string, string)): Bytes {
    Escape(Encode(pair.0)) + [EQUALS] + Escape(Encode(pair.1))
  }

  function Print(query: Query): Bytes {
    if query == [] then []
    else if |query| == 1 then PrintPair(query[0])
    else PrintPair(query[0]) + [AMPERSAND] + Print(query[1..])
  }

  function IndexOf(b: Bytes, x: Byte): (i: nat)
    ensures i <= |b|
  {
    if b == [] || b[0] == x then 0 else 1 + IndexOf(b[1..], x)
  }

  /** A pair is split at its first `=`; without one it is a name. */
  function ParsePair(b: Bytes): (string, string) {
    var i := IndexOf(b, EQUALS);
    (Decode(Unescape(b[..i])), if i == |b| then "" else Decode(Unescape(b[i + 1..])))
  }

  /** Pairs are separated by `&`; empty ones are skipped. */
  function Parse(b: Bytes): Query
    decreases |b|
  {
    if b == [] then []
    else
      var i := IndexOf(b, AMPERSAND);
      (if i == 0 then [] else [ParsePair(b[..i])]) + (if i == |b| then [] else Parse(b[i + 1..]))
  }

  lemma {:induction false} FindsFirst(a: Bytes, x: Byte, b: Bytes)
    requires x !in a
    ensures IndexOf(a + [x] + b, x) == |a| && IndexOf(a, x) == |a|
  {
    if a != [] {
      assert (a + [x] + b)[1..] == a[1..] + [x] + b && a[0] in a;
      FindsFirst(a[1..], x, b);
    }
  }

  lemma SafeIsFree(b: Bytes)
    requires AllSafe(b)
    ensures AMPERSAND !in b && EQUALS !in b && '?' as int !in b
  {
  }

  lemma PairParses(pair: (string, string))
    ensures ParsePair(PrintPair(pair)) == pair
    ensures AMPERSAND !in PrintPair(pair)
  {
    hide IsSafe, Unescape, Escape;
    var name, value := Escape(Encode(pair.0)), Escape(Encode(pair.1));
    EscapeIsSafe(Encode(pair.0));
    EscapeIsSafe(Encode(pair.1));
    SafeIsFree(name);
    SafeIsFree(value);
    FindsFirst(name, EQUALS, value);
    assert PrintPair(pair)[..|name|] == name && PrintPair(pair)[|name| + 1..] == value;
    BytesUnescape(Encode(pair.0));
    BytesUnescape(Encode(pair.1));
    TextDecodes(pair.0);
    TextDecodes(pair.1);
  }

  /** Parsing a printed query gives its pairs back, whatever their names and values hold. */
  lemma {:induction false} QueryParses(query: Query)
    ensures Parse(Print(query)) == query
  {
    hide ParsePair, PrintPair;
    if query != [] {
      var first, b := PrintPair(query[0]), Print(query);
      PairParses(query[0]);
      NotEmpty(query[0]);
      if |query| == 1 {
        FindsFirst(first, AMPERSAND, []);
        assert b[..|first|] == first && query == [query[0]];
      } else {
        var rest := Print(query[1..]);
        FindsFirst(first, AMPERSAND, rest);
        assert b[..|first|] == first && b[|first| + 1..] == rest && query == [query[0]] + query[1..];
        QueryParses(query[1..]);
      }
    }
  }

  lemma NotEmpty(pair: (string, string))
    ensures PrintPair(pair) != []
  {
  }

  // ----- as text -----

  predicate IsAscii(b: Bytes) { forall i :: 0 <= i < |b| ==> b[i] < 0x80 }

  function TextOf(b: Bytes): string
    requires IsAscii(b)
  {
    if b == [] then "" else [b[0] as char] + TextOf(b[1..])
  }

  lemma {:induction false} TextEncodes(b: Bytes)
    requires IsAscii(b)
    ensures Encode(TextOf(b)) == b && |TextOf(b)| == |b|
    ensures forall i :: 0 <= i < |b| ==> TextOf(b)[i] == b[i] as char
  {
    if b != [] {
      TextEncodes(b[1..]);
      assert TextOf(b)[1..] == TextOf(b[1..]) && b == [b[0]] + b[1..];
    }
  }

  /** What printed queries consist of. */
  ghost predicate IsPrinted(b: Bytes) {
    forall i :: 0 <= i < |b| ==> IsSafe(b[i]) || b[i] == AMPERSAND || b[i] == EQUALS
  }

  lemma {:induction false} PrintIsPrinted(query: Query)
    ensures IsPrinted(Print(query)) && IsAscii(Print(query))
  {
    if query != [] {
      EscapeIsSafe(Encode(query[0].0));
      EscapeIsSafe(Encode(query[0].1));
      PrintIsPrinted(query[1..]);
      assert IsPrinted(PrintPair(query[0]));
    }
  }

  /** `params.toString()` */
  function ToText(query: Query): string {
    PrintIsPrinted(query);
    TextOf(Print(query))
  }

  /** `new URLSearchParams(text)`; a leading `?` is dropped. */
  function FromText(text: string): Query {
    Parse(Encode(if text != "" && text[0] == '?' then text[1..] else text))
  }

  /** Printing a query and reading the text back loses nothing, and the text never holds a `?` or `#`. */
  lemma TextReadsBack(query: Query)
    ensures FromText(ToText(query)) == query
    ensures '?' !in ToText(query) && '#' !in ToText(query)
    ensures ToText(query) == "" <==> query == []
  {
    hide Print, Parse, Encode, TextOf;
    var b := Print(query);
    PrintIsPrinted(query);
    TextEncodes(b);
    QueryParses(query);
    PrintsNothing(query);
    NoMarks(b);
    forall i | 0 <= i < |ToText(query)| ensures ToText(query)[i] != '?' && ToText(query)[i] != '#' {
      assert ToText(query)[i] == b[i] as char;
    }
  }

  lemma PrintsNothing(query: Query)
    ensures Print(query) == [] <==> query == []
  {
    if query != [] {
      NotEmpty(query[0]);
    }
  }

  lemma NoMarks(b: Bytes)
    requires IsPrinted(b)
    ensures forall i :: 0 <= i < |b| ==> b[i] != '?' as int && b[i] != '#' as int
  {
  }

  // ----- reading and changing a query -----

  /** `params.get(name)` */
  function Get(query: Query, name: string): Option<string> {
    if query == [] then None
    else if query[0].0 == name then Some(query[0].1)
    else Get(query[1..], name)
  }

  function Without(query: Query, name: string): Query {
    if query == [] then []
    else (if query[0].0 == name then [] else [query[0]]) + Without(query[1..], name)
  }

  /** `params.set(name, value)`: the first pair of that name is kept in place, others go. */
  function Set(query: Query, name: string, value: string): Query {
    if query == [] then [(name, value)]
    else if query[0].0 == name then [(name, value)] + Without(query[1..], name)
    else [query[0]] + Set(query[1..], name, value)
  }

  lemma {:induction false} WithoutKeepsOthers(query: Query, name: string, other: string)
    requires other != name
    ensures Get(Without(query, name), other) == Get(query, other)
  {
    if query != [] {
      WithoutKeepsOthers(query[1..], name, other);
      if query[0].0 != name {
        assert Without(query, name)[1..] == Without(query[1..], name);
      } else {
        assert Without(query, name) == Without(query[1..], name);
      }
    }
  }

  lemma {:induction false} GetOfSet(query: Query, name: string, value: string, other: string)
    ensures Get(Set(query, name, value), other) == if other == name then Some(value) else Get(query, other)
  {
    if query != [] {
      if query[0].0 == name {
        assert Set(query, name, value)[1..] == Without(query[1..], name);
        if other != name {
          WithoutKeepsOthers(query[1..], name, other);
        }
      } else {
        assert Set(query, name, value)[1..] == Set(query[1..], name, value);
        GetOfSet(query[1..], name, value, other);
      }
    }
  }
}
