/** How data revisions, which travel as text, are compared (App.jsx, `compareDataRevisions`). */
module Revisions {
  import opened Options
  import opened Numerals
  import opened Text
  import Orders

  /** The number `BigInt(cleanText(text) || '0')` yields, if it yields one. */
  function Read(bigInt: string -> Option<int>, text: string): Option<int> {
    bigInt(if CleanText(text) == "" then "0" else CleanText(text))
  }

  function CompareDataRevisions(bigInt: string -> Option<int>, locale: Locale, left: string, right: string): int {
    match (Read(bigInt, left), Read(bigInt, right))
    case (Some(l), Some(r)) => if l == r then 0 else if l > r then 1 else -1
    case _ => locale.compare(CleanText(left), CleanText(right))
  }

  ghost predicate ReadsDecimals(bigInt: string -> Option<int>) {
    forall n: nat :: bigInt(Numeral(n, 10)) == Some(n)
  }

  lemma {:induction false} DigitsAreNotSpace(s: string)
    requires AllDigits(s, 10)
    ensures forall c <- s :: !IsSpace(c)
  {
    if s != "" {
      DigitsAreNotSpace(s[..|s| - 1]);
      assert s == s[..|s| - 1] + [s[|s| - 1]];
    }
  }

  lemma {:induction false} NoSpaceIsClean(s: string)
    requires forall c <- s :: !IsSpace(c)
    ensures Collapse(s) == s && CleanText(s) == s
  {
    if s != "" {
      NoSpaceIsClean(s[1..]);
      assert s[0] in s;
    }
    TrimTrims(s);
  }

  /** On decimal revisions the comparison is the numbers' order, and equal texts are equal numbers:
      this is what lets the loading protocol speak of revisions as numbers. */
  lemma DecimalRevisionsCompareAsNumbers(bigInt: string -> Option<int>, locale: Locale, m: nat, n: nat)
    requires ReadsDecimals(bigInt)
    ensures var c := CompareDataRevisions(bigInt, locale, Numeral(m, 10), Numeral(n, 10));
      && (c > 0 <==> m > n) && (c < 0 <==> m < n)
    ensures Numeral(m, 10) == Numeral(n, 10) <==> m == n
  {
    ReadingBack(m, 10);
    ReadingBack(n, 10);
    DigitsAreNotSpace(Numeral(m, 10));
    DigitsAreNotSpace(Numeral(n, 10));
    NoSpaceIsClean(Numeral(m, 10));
    NoSpaceIsClean(Numeral(n, 10));
  }

  /** Any two revisions compare with opposite signs the two ways round. */
  lemma ComparisonIsAntisymmetric(bigInt: string -> Option<int>, locale: Locale, a: string, b: string)
    requires locale.Collates()
    ensures CompareDataRevisions(bigInt, locale, a, b) < 0 <==> CompareDataRevisions(bigInt, locale, b, a) > 0
  {
    assert Orders.Opposite(locale.compare, CleanText(a), CleanText(b));
  }

  predicate Reads(bigInt: string -> Option<int>, text: string) { Read(bigInt, text).Some? }

  /** Three revisions chain unless exactly two of them can be read: among readable ones the numbers
      decide, and with two unreadable ones the collation decides every pair. */
  lemma UnmixedRevisionsChain(bigInt: string -> Option<int>, locale: Locale, a: string, b: string, c: string)
    requires locale.Collates()
    requires Reads(bigInt, a) && Reads(bigInt, b) ==> Reads(bigInt, c)
    requires Reads(bigInt, b) && Reads(bigInt, c) ==> Reads(bigInt, a)
    requires Reads(bigInt, a) && Reads(bigInt, c) ==> Reads(bigInt, b)
    ensures Orders.Chains((l, r) => CompareDataRevisions(bigInt, locale, l, r), a, b, c)
  {
    hide CleanText;
    assert Orders.Chains(locale.compare, CleanText(a), CleanText(b), CleanText(c));
  }

  /** The readable two of three agree in number and in collation. */
  predicate Agree(bigInt: string -> Option<int>, locale: Locale, a: string, b: string) {
    Reads(bigInt, a) && Reads(bigInt, b) ==>
      var (c, d) := (CompareDataRevisions(bigInt, locale, a, b), locale.compare(CleanText(a), CleanText(b)));
      (c < 0 <==> d < 0) && (c > 0 <==> d > 0)
  }

  /** Mixed revisions chain too as long as the readable ones collate like their numbers, so a cycle
      needs two readable revisions that do not, and an unreadable one between them. */
  lemma AgreeingRevisionsChain(bigInt: string -> Option<int>, locale: Locale, a: string, b: string, c: string)
    requires locale.Collates()
    requires Agree(bigInt, locale, a, b) && Agree(bigInt, locale, b, c) && Agree(bigInt, locale, a, c)
    ensures Orders.Chains((l, r) => CompareDataRevisions(bigInt, locale, l, r), a, b, c)
  {
    hide CleanText;
    assert Orders.Chains(locale.compare, CleanText(a), CleanText(b), CleanText(c));
  }

  lemma Cleaned(text: string)
    requires text in ["-5", "-3", "-4x"]
    ensures CleanText(text) == text
  {
    NoSpaceIsClean(text);
  }

  /** But the comparison is no order once malformed revisions join in: the numeric and the textual
      branch disagree on negative numbers, and three revisions can chase each other. */
  lemma MalformedRevisionsCanCycle(bigInt: string -> Option<int>, locale: Locale)
    requires bigInt("-5") == Some(-5) && bigInt("-3") == Some(-3) && bigInt("-4x") == None
    requires locale.compare("-3", "-4x") < 0 && locale.compare("-4x", "-5") < 0
    ensures CompareDataRevisions(bigInt, locale, "-5", "-3") < 0
    ensures CompareDataRevisions(bigInt, locale, "-3", "-4x") < 0
    ensures CompareDataRevisions(bigInt, locale, "-4x", "-5") < 0
  {
    hide CleanText;
    Cleaned("-5");
    Cleaned("-3");
    Cleaned("-4x");
    assert |"-5"| == 2 && |"-3"| == 2 && |"-4x"| == 3;
  }
}
