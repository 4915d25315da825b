/** The version order (findingUtils.js, `tokenizeVersion` and `compareVersions`). */
module Versions {
  import opened Numerals
  import opened Text
  import Orders

  datatype Token = Num(n: nat) | Word(text: string)

  predicate IsSeparator(c: char) { c == '.' || c == '_' || c == '+' || c == '-' }

  /** `split(/[._+-]/)` */
  function Pieces(s: string): (pieces: seq<string>)
    ensures pieces != []
  {
    if s == "" then [""]
    else
      var rest := Pieces(s[1..]);
      if IsSeparator(s[0]) then [""] + rest else [[s[0]] + rest[0]] + rest[1..]
  }

  /** How many of the characters from `from` on continue the digits before. */
  function DigitsEnd(s: string, from: nat): (end: nat)
    requires from <= |s| && AllDigits(s[..from], 10)
    ensures from <= end <= |s| && AllDigits(s[..end], 10)
    ensures end < |s| ==> !IsDigit(s[end], 10)
    decreases |s| - from
  {
    if from < |s| && IsDigit(s[from], 10) then
      assert s[..from + 1][..from] == s[..from];
      DigitsEnd(s, from + 1)
    else from
  }

  /** `Number.parseInt(piece, 10)`, or the lower-cased piece when that is not a number. */
  function TokenOf(locale: Locale, piece: string): Token {
    var t := TrimStart(piece);
    var end := DigitsEnd(t, 0);
    if end == 0 then Word(locale.lower(piece)) else Num(Value(t[..end], 10))
  }

  function TokensOf(locale: Locale, pieces: seq<string>): seq<Token> {
    if pieces == [] then [] else [TokenOf(locale, pieces[0])] + TokensOf(locale, pieces[1..])
  }

  function Tokenize(locale: Locale, version: string): seq<Token> {
    TokensOf(locale, Pieces(if version == "" then "0" else version))
  }

  function TokenText(t: Token): string {
    match t case Num(n) => Numeral(n, 10) case Word(text) => text
  }

  function CompareTokens(locale: Locale, a: Token, b: Token): int {
    if a.Num? && b.Num? then (if a.n == b.n then 0 else if a.n > b.n then 1 else -1)
    else locale.compare(TokenText(a), TokenText(b))
  }

  /** The list padded with zeros for ever. */
  function At(tokens: seq<Token>, i: nat): Token {
    if i < |tokens| then tokens[i] else Num(0)
  }

  /** The first difference from position `i` on, below `n`. */
  function CompareFrom(locale: Locale, a: seq<Token>, b: seq<Token>, i: nat, n: nat): int
    requires i <= n
    decreases n - i
  {
    if i == n then 0
    else
      var c := CompareTokens(locale, At(a, i), At(b, i));
      if c != 0 then c else CompareFrom(locale, a, b, i + 1, n)
  }

  function Max(m: nat, n: nat): nat { if m > n then m else n }

  function CompareVersions(locale: Locale, a: string, b: string): int {
    var left, right := Tokenize(locale, a), Tokenize(locale, b);
    CompareFrom(locale, left, right, 0, Max(|left|, |right|))
  }

  // ----- tokens -----

  /** Comparing numbers as numbers agrees with comparing them as text, so tokens have one order. */
  lemma TokensCompareAsText(locale: Locale, a: Token, b: Token)
    requires locale.Collates()
    ensures CompareTokens(locale, a, b) < 0 <==> locale.compare(TokenText(a), TokenText(b)) < 0
    ensures CompareTokens(locale, a, b) > 0 <==> locale.compare(TokenText(a), TokenText(b)) > 0
  {
    assert Orders.Opposite(locale.compare, TokenText(a), TokenText(b));
    assert Orders.Opposite(locale.compare, TokenText(b), TokenText(a));
  }

  lemma TokenOrder(locale: Locale, a: Token, b: Token, c: Token)
    requires locale.Collates()
    requires CompareTokens(locale, a, b) <= 0 && CompareTokens(locale, b, c) <= 0
    ensures CompareTokens(locale, a, c) <= 0
    ensures CompareTokens(locale, a, c) == 0 <==> CompareTokens(locale, a, b) == 0 && CompareTokens(locale, b, c) == 0
  {
    TokensCompareAsText(locale, a, b);
    TokensCompareAsText(locale, b, c);
    TokensCompareAsText(locale, a, c);
    var (x, y, z) := (TokenText(a), TokenText(b), TokenText(c));
    assert Orders.Chains(locale.compare, x, y, z);
    assert Orders.Opposite(locale.compare, x, y) && Orders.Opposite(locale.compare, y, x);
    assert Orders.Opposite(locale.compare, y, z) && Orders.Opposite(locale.compare, z, y);
    assert Orders.Opposite(locale.compare, x, z) && Orders.Opposite(locale.compare, z, x);
    assert Orders.Chains(locale.compare, z, x, y) && Orders.Chains(locale.compare, y, z, x);
    assert Orders.Chains(locale.compare, z, y, x);
  }

  // ----- lists of tokens -----

  /** Looking further than both lists reach changes nothing. */
  lemma {:induction false} PaddingIsSilent(locale: Locale, a: seq<Token>, b: seq<Token>, i: nat, n: nat)
    requires i <= Max(|a|, |b|) <= n
    ensures CompareFrom(locale, a, b, i, n) == CompareFrom(locale, a, b, i, Max(|a|, |b|))
    decreases n - i
  {
    if i < Max(|a|, |b|) {
      PaddingIsSilent(locale, a, b, i + 1, n);
    } else {
      ZerosAgree(locale, a, b, i, n);
    }
  }

  lemma {:induction false} ZerosAgree(locale: Locale, a: seq<Token>, b: seq<Token>, i: nat, n: nat)
    requires Max(|a|, |b|) <= i <= n
    ensures CompareFrom(locale, a, b, i, n) == 0
    decreases n - i
  {
    if i < n {
      ZerosAgree(locale, a, b, i + 1, n);
    }
  }

  lemma {:induction false} ListsOppose(locale: Locale, a: seq<Token>, b: seq<Token>, i: nat, n: nat)
    requires locale.Collates() && i <= n
    ensures CompareFrom(locale, a, a, i, n) == 0
    ensures CompareFrom(locale, a, b, i, n) < 0 <==> CompareFrom(locale, b, a, i, n) > 0
    ensures CompareFrom(locale, a, b, i, n) > 0 <==> CompareFrom(locale, b, a, i, n) < 0
    decreases n - i
  {
    if i < n {
      var (x, y) := (At(a, i), At(b, i));
      TokensCompareAsText(locale, x, y);
      TokensCompareAsText(locale, y, x);
      assert Orders.Opposite(locale.compare, TokenText(x), TokenText(y));
      assert Orders.Opposite(locale.compare, TokenText(y), TokenText(x));
      ListsOppose(locale, a, b, i + 1, n);
    }
  }

  lemma {:induction false} ListsChain(locale: Locale, a: seq<Token>, b: seq<Token>, c: seq<Token>, i: nat, n: nat)
    requires locale.Collates() && i <= n
    requires CompareFrom(locale, a, b, i, n) <= 0 && CompareFrom(locale, b, c, i, n) <= 0
    ensures CompareFrom(locale, a, c, i, n) <= 0
    decreases n - i
  {
    if i < n {
      TokenOrder(locale, At(a, i), At(b, i), At(c, i));
      if CompareTokens(locale, At(a, i), At(b, i)) == 0 && CompareTokens(locale, At(b, i), At(c, i)) == 0 {
        ListsChain(locale, a, b, c, i + 1, n);
      }
    }
  }

  /** `compareVersions` is a total preorder: it can order, and it can choose a maximum. */
  lemma VersionsAreOrdered(locale: Locale)
    requires locale.Collates()
    ensures Orders.Consistent((a, b) => CompareVersions(locale, a, b))
  {
    var cmp := (a, b) => CompareVersions(locale, a, b);
    forall a ensures cmp(a, a) == 0 {
      ListsOppose(locale, Tokenize(locale, a), [], 0, |Tokenize(locale, a)|);
    }
    forall a, b ensures Orders.Opposite(cmp, a, b) {
      var (s, t) := (Tokenize(locale, a), Tokenize(locale, b));
      ListsOppose(locale, s, t, 0, Max(|s|, |t|));
    }
    forall a, b, c ensures Orders.Chains(cmp, a, b, c) {
      var (s, t, u) := (Tokenize(locale, a), Tokenize(locale, b), Tokenize(locale, c));
      var n := Max(Max(|s|, |t|), |u|);
      PaddingIsSilent(locale, s, t, 0, n);
      PaddingIsSilent(locale, t, u, 0, n);
      PaddingIsSilent(locale, s, u, 0, n);
      if cmp(a, b) <= 0 && cmp(b, c) <= 0 {
        ListsChain(locale, s, t, u, 0, n);
      }
    }
  }

  /** Trailing zeros do not count: 1.0 ties with 1. */
  lemma {:induction false} TrailingZerosTie(locale: Locale, tokens: seq<Token>, k: nat)
    requires locale.Collates()
    ensures CompareFrom(locale, tokens, tokens + seq(k, i => Num(0)), 0, |tokens| + k) == 0
  {
    var padded := tokens + seq(k, i => Num(0));
    SameTokensTie(locale, tokens, padded, 0, |tokens| + k);
  }

  lemma {:induction false} SameTokensTie(locale: Locale, a: seq<Token>, b: seq<Token>, i: nat, n: nat)
    requires locale.Collates() && i <= n && forall j: nat :: j < n ==> At(a, j) == At(b, j)
    ensures CompareFrom(locale, a, b, i, n) == 0
    decreases n - i
  {
    if i < n {
      TokensCompareAsText(locale, At(a, i), At(b, i));
      SameTokensTie(locale, a, b, i + 1, n);
    }
  }

  // ----- what the order means -----

  lemma {:induction false} FirstDifference(locale: Locale, a: seq<Token>, b: seq<Token>, i: nat, k: nat, n: nat)
    requires i <= k < n && CompareTokens(locale, At(a, k), At(b, k)) != 0
    requires forall j: nat :: i <= j < k ==> CompareTokens(locale, At(a, j), At(b, j)) == 0
    ensures CompareFrom(locale, a, b, i, n) == CompareTokens(locale, At(a, k), At(b, k))
    decreases k - i
  {
    if i < k {
      FirstDifference(locale, a, b, i + 1, k, n);
    }
  }

  /** Versions are compared as if padded with zeros for ever, and the first part that differs decides. */
  lemma FirstDifferenceDecides(locale: Locale, a: string, b: string, k: nat)
    requires var (s, t) := (Tokenize(locale, a), Tokenize(locale, b));
      && CompareTokens(locale, At(s, k), At(t, k)) != 0
      && forall j: nat :: j < k ==> CompareTokens(locale, At(s, j), At(t, j)) == 0
    ensures CompareVersions(locale, a, b) ==
        CompareTokens(locale, At(Tokenize(locale, a), k), At(Tokenize(locale, b), k))
  {
    var s, t := Tokenize(locale, a), Tokenize(locale, b);
    assert k < Max(|s|, |t|);
    FirstDifference(locale, s, t, 0, k, Max(|s|, |t|));
  }

  /** A version of plain numbers. */
  function Dotted(ns: seq<nat>): string
    requires ns != []
  {
    if |ns| == 1 then Numeral(ns[0], 10) else Numeral(ns[0], 10) + "." + Dotted(ns[1..])
  }

  function PartAt(ns: seq<nat>, i: nat): nat { if i < |ns| then ns[i] else 0 }

  function Nums(ns: seq<nat>): seq<Token> {
    if ns == [] then [] else [Num(ns[0])] + Nums(ns[1..])
  }

  lemma {:induction false} NumsAt(ns: seq<nat>, i: nat)
    ensures |Nums(ns)| == |ns| && At(Nums(ns), i) == Num(PartAt(ns, i))
  {
    if ns != [] {
      NumsAt(ns[1..], if i > 0 then i - 1 else 0);
    }
  }

  lemma {:induction false} DigitsEverywhere(s: string, i: nat)
    requires AllDigits(s, 10) && i < |s|
    ensures IsDigit(s[i], 10) && !IsSeparator(s[i]) && !IsSpace(s[i])
  {
    if i < |s| - 1 {
      DigitsEverywhere(s[..|s| - 1], i);
    }
  }

  lemma {:induction false} PiecesAfter(s: string, rest: string)
    requires forall i :: 0 <= i < |s| ==> !IsSeparator(s[i])
    ensures Pieces(s + "." + rest) == [s] + Pieces(rest)
    ensures Pieces(s) == [s]
  {
    if s == "" {
      assert s + "." + rest == "." + rest && ("." + rest)[1..] == rest;
    } else {
      assert (s + "." + rest)[1..] == s[1..] + "." + rest && s == [s[0]] + s[1..];
      PiecesAfter(s[1..], rest);
    }
  }

  lemma TokenOfNumeral(locale: Locale, n: nat)
    ensures TokenOf(locale, Numeral(n, 10)) == Num(n)
    ensures forall i :: 0 <= i < |Numeral(n, 10)| ==> !IsSeparator(Numeral(n, 10)[i])
  {
    hide Numeral, AllDigits, IsDigit, Value, IsSeparator, IsSpace;
    var s := Numeral(n, 10);
    ReadingBack(n, 10);
    forall i | 0 <= i < |s| ensures IsDigit(s[i], 10) && !IsSeparator(s[i]) && !IsSpace(s[i]) {
      DigitsEverywhere(s, i);
    }
    assert TrimStart(s) == s;
    assert s[..0] == "" && AllDigits(s[..0], 10) by { NothingRead(10); }
    assert s[..|s|] == s;
  }

  lemma {:induction false} DottedTokens(locale: Locale, ns: seq<nat>)
    requires ns != []
    ensures TokensOf(locale, Pieces(Dotted(ns))) == Nums(ns) && Dotted(ns) != ""
  {
    hide TokenOf, Pieces, Numeral;
    var s := Numeral(ns[0], 10);
    ReadingBack(ns[0], 10);
    TokenOfNumeral(locale, ns[0]);
    if |ns| == 1 {
      PiecesAfter(s, "");
      assert [s][1..] == [] && ns[1..] == [];
    } else {
      PiecesAfter(s, Dotted(ns[1..]));
      DottedTokens(locale, ns[1..]);
      assert ([s] + Pieces(Dotted(ns[1..])))[1..] == Pieces(Dotted(ns[1..]));
    }
  }

  /** Versions of plain numbers compare number by number: 1.9 is below 1.10, whatever their lengths. */
  lemma DottedVersionsCompareAsNumbers(locale: Locale, ms: seq<nat>, ns: seq<nat>, k: nat)
    requires ms != [] && ns != [] && PartAt(ms, k) != PartAt(ns, k)
    requires forall j: nat :: j < k ==> PartAt(ms, j) == PartAt(ns, j)
    ensures CompareVersions(locale, Dotted(ms), Dotted(ns)) > 0 <==> PartAt(ms, k) > PartAt(ns, k)
    ensures CompareVersions(locale, Dotted(ms), Dotted(ns)) < 0 <==> PartAt(ms, k) < PartAt(ns, k)
  {
    hide Dotted, Pieces, TokensOf, Nums, CompareVersions;
    DottedTokens(locale, ms);
    DottedTokens(locale, ns);
    forall j: nat ensures At(Nums(ms), j) == Num(PartAt(ms, j)) && At(Nums(ns), j) == Num(PartAt(ns, j)) {
      NumsAt(ms, j);
      NumsAt(ns, j);
    }
    FirstDifferenceDecides(locale, Dotted(ms), Dotted(ns), k);
  }

  /** The loop of the source. */
  method Compare(locale: Locale, a: string, b: string) returns (order: int)
    ensures order == CompareVersions(locale, a, b)
  {
    var left, right := Tokenize(locale, a), Tokenize(locale, b);
    var maxLength := Max(|left|, |right|);
    var i := 0;
    while i < maxLength
      invariant i <= maxLength
      invariant CompareFrom(locale, left, right, 0, maxLength) == CompareFrom(locale, left, right, i, maxLength)
    {
      var leftPart := if i < |left| then left[i] else Num(0);
      var rightPart := if i < |right| then right[i] else Num(0);
      if leftPart.Num? && rightPart.Num? {
        if leftPart.n != rightPart.n {
          return if leftPart.n > rightPart.n then 1 else -1;
        }
      } else {
        var comparison := locale.compare(TokenText(leftPart), TokenText(rightPart));
        if comparison != 0 { return comparison; }
      }
      i := i + 1;
    }
    return 0;
  }
}
