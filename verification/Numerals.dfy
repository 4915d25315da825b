/** Positional numerals, as `Number.prototype.toString(base)` prints them, and reading them back. */
module Numerals {
  import opened Options

  function DigitChar(d: nat): char
    requires d < 36
  {
    if d < 10 then '0' + d as char else 'a' + (d - 10) as char
  }

  function DigitValue(c: char): Option<nat> {
    if '0' <= c <= '9' then Some((c - '0') as nat)
    else if 'a' <= c <= 'z' then Some((c - 'a') as nat + 10)
    else None
  }

  predicate IsDigit(c: char, base: nat) {
    DigitValue(c).Some? && DigitValue(c).value < base
  }

  predicate AllDigits(s: string, base: nat) {
    s == "" || (AllDigits(s[..|s| - 1], base) && IsDigit(s[|s| - 1], base))
  }

  function Numeral(n: nat, base: nat): string
    requires 2 <= base <= 36
  {
    if n < base then [DigitChar(n)]
    else
      DigitsRunOut(n, base);
      Numeral(n / base, base) + [DigitChar(n % base)]
  }

  /** The number a string of digits stands for; the empty string stands for 0. */
  function Value(s: string, base: nat): nat
    requires AllDigits(s, base)
  {
    if s == "" then 0
    else Value(s[..|s| - 1], base) * base + DigitValue(s[|s| - 1]).value
  }

  lemma DigitReadsBack(d: nat)
    requires d < 36
    ensures DigitValue(DigitChar(d)) == Some(d)
  {
    if d < 10 {
      assert DigitChar(d) - '0' == d as char;
    } else {
      assert DigitChar(d) - 'a' == (d - 10) as char;
    }
  }

  lemma ValueOfSnoc(s: string, d: nat, base: nat)
    requires AllDigits(s, base) && d < base <= 36
    ensures AllDigits(s + [DigitChar(d)], base)
    ensures Value(s + [DigitChar(d)], base) == Value(s, base) * base + d
  {
    DigitReadsBack(d);
    assert (s + [DigitChar(d)])[..|s|] == s;
  }

  lemma QuotientShrinks(q: nat, r: nat, base: nat)
    requires 2 <= base <= q * base + r && r < base
    ensures q < q * base + r
  {
    assert q * base == q * 2 + q * (base - 2);
    assert q * (base - 2) >= 0;
    assert q == 0 ==> q * base == 0;
  }

  lemma DivMod(n: nat, base: nat)
    requires 0 < base
    ensures n / base * base + n % base == n && n % base < base && n / base >= 0
  {
  }

  lemma DigitsRunOut(n: nat, base: nat)
    requires 2 <= base <= n
    ensures 0 <= n / base < n && n % base < base
  {
    DivMod(n, base);
    QuotientShrinks(n / base, n % base, base);
  }

  lemma NothingRead(base: nat)
    ensures AllDigits("", base) && Value("", base) == 0
  {
  }

  lemma {:induction false} ReadingBack(n: nat, base: nat)
    requires 2 <= base <= 36
    ensures var s := Numeral(n, base); s != "" && AllDigits(s, base) && Value(s, base) == n
  {
    hide DigitChar, Value, AllDigits;
    if n < base {
      NothingRead(base);
      ValueOfSnoc("", n, base);
      assert "" + [DigitChar(n)] == Numeral(n, base);
    } else {
      DivMod(n, base);
      ReadingBack(n / base, base);
      ValueOfSnoc(Numeral(n / base, base), n % base, base);
    }
  }

  lemma NumeralInjective(m: nat, n: nat, base: nat)
    requires 2 <= base <= 36 && Numeral(m, base) == Numeral(n, base)
    ensures m == n
  {
    ReadingBack(m, base);
    ReadingBack(n, base);
  }
}
