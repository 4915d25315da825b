/**
 * The 53-bit text hash behind the sync keys (compactionUtils.js, `stableHash`).
 *
 * JavaScript's 32-bit operations are operations on `bv32`: `Math.imul` is the product, `>>>` the
 * logical shift, and the sign only matters where `h1 >>> 0` removes it.
 */
module StableHash {
  import opened Numerals

  const SEED1: bv32 := 0xdeadbeef
  const SEED2: bv32 := 0x41c6ce57
  // `Math.imul` by each of the four multipliers, and by the inverses of three of them
  function ByM1(x: bv32): bv32 { x * 2654435761 }
  function ByM2(x: bv32): bv32 { x * 1597334677 }
  function ByA(x: bv32): bv32 { x * 2246822507 }
  function ByB(x: bv32): bv32 { x * 3266489909 }
  function OverM1(x: bv32): bv32 { x * 244002641 }
  function OverM2(x: bv32): bv32 { x * 851723965 }
  function OverA(x: bv32): bv32 { x * 2781581891 }

  type Words = (bv32, bv32)

  function Unit(n: nat): bv16
    requires n < 0x10000
  {
    n as bv16
  }

  function UnitsOfChar(c: char): seq<bv16> {
    var n := c as int;
    if n < 0x10000 then [Unit(n)] else [Unit(0xD800 + (n - 0x10000) / 0x400), Unit(0xDC00 + (n - 0x10000) % 0x400)]
  }

  /** The UTF-16 code units `charCodeAt` walks through. */
  function Units(text: string): seq<bv16> { if text == "" then [] else UnitsOfChar(text[0]) + Units(text[1..]) }

  function Xor(x: bv32, y: bv32): bv32 { x ^ y }

  function Fold16(x: bv32): bv32 { x ^ (x >> 16) }

  function Fold13(x: bv32): bv32 { x ^ (x >> 13) }

  function Widen(unit: bv16): bv32 { unit as bv32 }

  function Step(h: Words, unit: bv16): Words {
    (ByM1(Xor(h.0, Widen(unit))), ByM2(Xor(h.1, Widen(unit))))
  }

  function Run(h: Words, units: seq<bv16>): Words {
    if units == [] then h else Step(Run(h, units[..|units| - 1]), units[|units| - 1])
  }

  /** The two lines after the loop. */
  function Finalise(h: Words): Words {
    var h1 := Xor(ByA(Fold16(h.0)), ByB(Fold13(h.1)));
    (h1, Xor(ByA(Fold16(h.1)), ByB(Fold13(h1))))
  }

  /** `2097151 & x`, which fits 21 bits. */
  function Low21(x: bv32): bv21 { (2097151 & x) as bv21 }

  function Number(x: bv32): nat { x as nat }

  function LowNumber(x: bv21): nat { x as nat }

  function Combine(h: Words): nat { 4294967296 * LowNumber(Low21(h.1)) + Number(h.0) }

  function Hash(units: seq<bv16>): string { Numeral(Combine(Finalise(Run((SEED1, SEED2), units))), 36) }

  /** The two words behind the hash of a text, before 11 bits of the second are dropped. */
  function WordsOf(text: string): Words { Finalise(Run((SEED1, SEED2), Units(text))) }

  // ----- code units tell the text -----

  function UnitNumber(unit: bv16): nat { unit as nat }

  function Shifted(b: bv16): bv16 { b << 1 }

  function Odd(b: bv16): bv16 { (b << 1) | 1 }

  lemma HalfUnit(b: bv16)
    requires UnitNumber(b) < 0x8000
    ensures b < 0x8000
  {
  }

  lemma TwiceUnit(b: bv16)
    requires b < 0x8000
    ensures UnitNumber(Shifted(b)) == 2 * UnitNumber(b) && UnitNumber(Odd(b)) == 2 * UnitNumber(b) + 1
  {
  }

  lemma UnitOfNumber(b: bv16, n: nat)
    requires UnitNumber(b) == n
    ensures n < 0x10000 && UnitNumber(Unit(n)) == n
  {
    assert (b as int) as bv16 == b;
  }

  lemma ZeroUnit()
    ensures UnitNumber(0) == 0
  {
  }

  /** Bit by bit. */
  lemma {:induction false} UnitReadsBack(n: nat)
    requires n < 0x10000
    ensures UnitNumber(Unit(n)) == n
  {
    hide Unit, UnitNumber, Shifted, Odd;
    if n == 0 {
      ZeroUnit();
      UnitOfNumber(0, 0);
    } else {
      UnitReadsBack(n / 2);
      HalfUnit(Unit(n / 2));
      TwiceUnit(Unit(n / 2));
      UnitOfNumber(if n % 2 == 0 then Shifted(Unit(n / 2)) else Odd(Unit(n / 2)), n);
    }
  }

  /** A character of the basic plane is its own unit, and no high surrogate. */
  lemma UnitOfBasic(c: char)
    requires c as int < 0x10000
    ensures UnitsOfChar(c) == [Unit(c as int)] && UnitNumber(Unit(c as int)) == c as int
    ensures !(0xD800 <= c as int < 0xDC00)
  {
    hide Unit, UnitNumber;
    UnitReadsBack(c as int);
  }

  /** Any other is a high surrogate and a low one. */
  lemma UnitsOfOther(c: char)
    requires c as int >= 0x10000
    ensures var (n, units) := (c as int - 0x10000, UnitsOfChar(c));
      && |units| == 2 && 0xD800 <= UnitNumber(units[0]) < 0xDC00
      && n == (UnitNumber(units[0]) - 0xD800) * 0x400 + UnitNumber(units[1]) - 0xDC00
  {
    hide Unit, UnitNumber;
    var n := c as int - 0x10000;
    UnitReadsBack(0xD800 + n / 0x400);
    UnitReadsBack(0xDC00 + n % 0x400);
  }

  lemma CharsDiffer(c: char, d: char, s: seq<bv16>, t: seq<bv16>)
    requires UnitsOfChar(c) + s == UnitsOfChar(d) + t
    ensures c == d && s == t
  {
    hide UnitsOfChar, UnitNumber, Unit;
    if c as int < 0x10000 { UnitOfBasic(c); } else { UnitsOfOther(c); }
    if d as int < 0x10000 { UnitOfBasic(d); } else { UnitsOfOther(d); }
    var (x, y) := (UnitsOfChar(c), UnitsOfChar(d));
    assert (x + s)[0] == x[0] && (y + t)[0] == y[0];
    assert |x| == |y|;
    assert forall i :: 0 <= i < |x| ==> x[i] == (x + s)[i] && y[i] == (y + t)[i];
    assert c as int == d as int;
    assert (x + s)[|x|..] == s && (y + t)[|y|..] == t;
  }

  /** Different texts have different code units. */
  lemma {:induction false} UnitsAreInjective(s: string, t: string)
    ensures Units(s) == Units(t) <==> s == t
  {
    hide UnitsOfChar;
    if s != "" && t != "" {
      UnitsAreInjective(s[1..], t[1..]);
      if Units(s) == Units(t) {
        CharsDiffer(s[0], t[0], Units(s[1..]), Units(t[1..]));
        assert s == [s[0]] + s[1..] && t == [t[0]] + t[1..];
      }
    } else {
      SomeUnits(s);
      SomeUnits(t);
    }
  }

  lemma SomeUnits(text: string)
    ensures Units(text) == [] <==> text == ""
  {
  }

  lemma {:induction false} UnitsOfConcat(a: string, b: string)
    ensures Units(a + b) == Units(a) + Units(b)
  {
    hide UnitsOfChar;
    if a == "" {
      assert a + b == b;
    } else {
      UnitsOfConcat(a[1..], b);
      assert (a + b)[0] == a[0] && (a + b)[1..] == a[1..] + b;
    }
  }

  // ----- the loop loses nothing in a step -----

  lemma ByM1Undone(x: bv32)
    ensures OverM1(ByM1(x)) == x
  {
    calc { OverM1(ByM1(x)); OverM1(x * 2654435761); x * 2654435761 * 244002641; x; }
  }

  lemma ByM2Undone(x: bv32)
    ensures OverM2(ByM2(x)) == x
  {
    calc { OverM2(ByM2(x)); OverM2(x * 1597334677); x * 1597334677 * 851723965; x; }
  }

  lemma XorCancels(a: bv32, b: bv32)
    ensures Xor(Xor(a, b), b) == a && Xor(Xor(a, b), a) == b
  {
  }

  lemma UnitsAreWords(x: bv16, y: bv16)
    requires Widen(x) == Widen(y)
    ensures x == y
  {
  }

  /** A step is injective in the state for a given code unit, word by word. */
  lemma StepInjectiveInState(g: Words, h: Words, unit: bv16)
    ensures Step(g, unit).0 == Step(h, unit).0 <==> g.0 == h.0
    ensures Step(g, unit).1 == Step(h, unit).1 <==> g.1 == h.1
  {
    hide ByM1, ByM2, OverM1, OverM2, Xor, Widen;
    var u := Widen(unit);
    ByM1Undone(Xor(g.0, u));
    ByM1Undone(Xor(h.0, u));
    ByM2Undone(Xor(g.1, u));
    ByM2Undone(Xor(h.1, u));
    XorCancels(g.0, u);
    XorCancels(h.0, u);
    XorCancels(g.1, u);
    XorCancels(h.1, u);
  }

  /** And injective in the code unit for a given state, in either word. */
  lemma StepInjectiveInUnit(h: Words, x: bv16, y: bv16)
    ensures Step(h, x).0 == Step(h, y).0 <==> x == y
    ensures Step(h, x).1 == Step(h, y).1 <==> x == y
  {
    hide ByM1, ByM2, OverM1, OverM2, Xor, Widen;
    var u, v := Widen(x), Widen(y);
    ByM1Undone(Xor(h.0, u));
    ByM1Undone(Xor(h.0, v));
    ByM2Undone(Xor(h.1, u));
    ByM2Undone(Xor(h.1, v));
    XorCancels(h.0, u);
    XorCancels(h.0, v);
    XorCancels(h.1, u);
    XorCancels(h.1, v);
    if u == v {
      UnitsAreWords(x, y);
    }
  }

  lemma {:induction false} RunSplits(h: Words, a: seq<bv16>, b: seq<bv16>)
    ensures Run(h, a + b) == Run(Run(h, a), b)
  {
    if b == [] {
      assert a + b == a;
    } else {
      assert (a + b)[..|a + b| - 1] == a + b[..|b| - 1];
      RunSplits(h, a, b[..|b| - 1]);
    }
  }

  lemma {:induction false} RunKeepsApart(g: Words, h: Words, units: seq<bv16>)
    requires g.0 != h.0 && g.1 != h.1
    ensures Run(g, units).0 != Run(h, units).0 && Run(g, units).1 != Run(h, units).1
  {
    if units != [] {
      hide Step;
      var before := units[..|units| - 1];
      RunKeepsApart(g, h, before);
      StepInjectiveInState(Run(g, before), Run(h, before), units[|units| - 1]);
    }
  }

  /** Two texts that differ in a single code unit end the loop with both words different. */
  lemma SingleEditIsSeen(h: Words, before: seq<bv16>, x: bv16, y: bv16, after: seq<bv16>)
    requires x != y
    ensures var g, k := Run(h, before + [x] + after), Run(h, before + [y] + after);
      g.0 != k.0 && g.1 != k.1
  {
    hide Step;
    RunSplits(h, before + [x], after);
    RunSplits(h, before + [y], after);
    RunSplits(h, before, [x]);
    RunSplits(h, before, [y]);
    var s := Run(h, before);
    assert Run(s, [x]) == Step(s, x) && Run(s, [y]) == Step(s, y) by {
      var one: seq<bv16> := [x];
      var other: seq<bv16> := [y];
      assert one[..0] == [] && other[..0] == [];
    }
    StepInjectiveInUnit(s, x, y);
    RunKeepsApart(Step(s, x), Step(s, y), after);
  }

  // ----- the finaliser is a bijection -----

  function Unscramble(y: bv32): bv32 { Fold16(OverA(y)) }

  lemma Fold16Twice(x: bv32)
    ensures Fold16(Fold16(x)) == x
  {
    calc { Fold16(Fold16(x)); Fold16(x ^ (x >> 16)); (x ^ (x >> 16)) ^ ((x ^ (x >> 16)) >> 16); x; }
  }

  lemma ByAUndone(x: bv32)
    ensures OverA(ByA(x)) == x && ByA(OverA(x)) == x
  {
    calc { OverA(ByA(x)); OverA(x * 2246822507); x * 2246822507 * 2781581891; x; }
    calc { ByA(OverA(x)); ByA(x * 2781581891); x * 2781581891 * 2246822507; x; }
  }

  lemma UnscrambleInverts(x: bv32)
    ensures Unscramble(ByA(Fold16(x))) == x && ByA(Fold16(Unscramble(x))) == x
  {
    hide Fold16, ByA, OverA;
    Fold16Twice(x);
    ByAUndone(Fold16(x));
    Fold16Twice(OverA(x));
    ByAUndone(x);
  }

  function Unfinalise(f: Words): Words {
    var h2 := Unscramble(Xor(f.1, ByB(Fold13(f.0))));
    (Unscramble(Xor(f.0, ByB(Fold13(h2)))), h2)
  }

  /** The two finalising lines are a bijection on pairs of 32-bit words. */
  lemma FinaliseIsBijective(h: Words)
    ensures Unfinalise(Finalise(h)) == h
    ensures Finalise(Unfinalise(h)) == h
  {
    hide ByA, ByB, Fold16, Fold13, Xor, Unscramble;
    var f := Finalise(h);
    XorCancels(ByA(Fold16(h.1)), ByB(Fold13(f.0)));
    XorCancels(ByA(Fold16(h.0)), ByB(Fold13(h.1)));
    UnscrambleInverts(h.0);
    UnscrambleInverts(h.1);
    var g := Unfinalise(h);
    UnscrambleInverts(Xor(h.1, ByB(Fold13(h.0))));
    UnscrambleInverts(Xor(h.0, ByB(Fold13(g.1))));
    XorCancels(h.0, ByB(Fold13(g.1)));
    XorCancels(h.1, ByB(Fold13(h.0)));
  }

  // ----- the number, and its text -----

  lemma NumberInjective(x: bv32, y: bv32)
    requires Number(x) == Number(y)
    ensures x == y
  {
    assert (x as int) as bv32 == x && (y as int) as bv32 == y;
  }

  lemma NumberIsSmall(x: bv32)
    ensures Number(x) < 4294967296
  {
  }

  lemma LowNumberInjective(x: bv21, y: bv21)
    requires LowNumber(x) == LowNumber(y)
    ensures x == y
  {
    assert (x as int) as bv21 == x && (y as int) as bv21 == y;
  }

  lemma LowNumberIsSmall(x: bv21)
    ensures LowNumber(x) <= 2097151
  {
  }

  /** The combined number is a safe integer, so JavaScript holds it exactly, and it determines `h1`
      and the low 21 bits of `h2`. */
  lemma CombineIsExact(g: Words, h: Words)
    ensures Combine(h) <= 9007199254740991
    ensures Combine(g) == Combine(h) <==> g.0 == h.0 && Low21(g.1) == Low21(h.1)
  {
    hide Number, LowNumber, Low21;
    NumberIsSmall(g.0);
    NumberIsSmall(h.0);
    LowNumberIsSmall(Low21(h.1));
    HighAndLow(LowNumber(Low21(g.1)), Number(g.0), LowNumber(Low21(h.1)), Number(h.0));
    if Combine(g) == Combine(h) {
      NumberInjective(g.0, h.0);
      LowNumberInjective(Low21(g.1), Low21(h.1));
    }
  }

  lemma HighAndLow(a: int, x: int, b: int, y: int)
    requires 0 <= x < 4294967296 && 0 <= y < 4294967296
    ensures 4294967296 * a + x == 4294967296 * b + y <==> a == b && x == y
  {
  }

  /** Two hashes agree as texts exactly if the finalised words agree in those 53 bits. */
  lemma HashesAgreeExactly(a: seq<bv16>, b: seq<bv16>)
    ensures var f, g := Finalise(Run((SEED1, SEED2), a)), Finalise(Run((SEED1, SEED2), b));
      Hash(a) == Hash(b) <==> f.0 == g.0 && Low21(f.1) == Low21(g.1)
  {
    hide Finalise, Combine, Numeral;
    var f, g := Finalise(Run((SEED1, SEED2), a)), Finalise(Run((SEED1, SEED2), b));
    CombineIsExact(f, g);
    if Hash(a) == Hash(b) {
      NumeralInjective(Combine(f), Combine(g), 36);
    }
  }

  /** So a text with one character of the basic plane replaced by another ends with both words before the
      finaliser different, and so with a different pair behind it. */
  lemma EditedTextsDiffer(before: string, c: char, d: char, after: string)
    requires c != d && c as int < 0x10000 && d as int < 0x10000
    ensures var s, t := before + [c] + after, before + [d] + after;
      var g, k := Run((SEED1, SEED2), Units(s)), Run((SEED1, SEED2), Units(t));
      g.0 != k.0 && g.1 != k.1 && WordsOf(s) != WordsOf(t)
  {
    hide Run, Finalise, Unit, UnitsOfChar, Units, UnitNumber;
    UnitsAround(before, c, after);
    UnitsAround(before, d, after);
    var x, y := Unit(c as int), Unit(d as int);
    UnitOfBasic(c);
    UnitOfBasic(d);
    SingleEditIsSeen((SEED1, SEED2), Units(before), x, y, Units(after));
    FinaliseIsBijective(Run((SEED1, SEED2), Units(before) + [x] + Units(after)));
    FinaliseIsBijective(Run((SEED1, SEED2), Units(before) + [y] + Units(after)));
  }

  lemma UnitsAround(before: string, c: char, after: string)
    requires c as int < 0x10000
    ensures Units(before + [c] + after) == Units(before) + [Unit(c as int)] + Units(after)
  {
    hide UnitsOfChar;
    UnitsOfConcat(before + [c], after);
    UnitsOfConcat(before, [c]);
    UnitOfBasic(c);
    assert [c][1..] == "";
  }

  /** Two texts hash to the same string exactly if their words agree but for the 11 bits dropped. */
  predicate SameStamp(s: string, t: string) {
    WordsOf(s).0 == WordsOf(t).0 && Low21(WordsOf(s).1) == Low21(WordsOf(t).1)
  }

  lemma TextsHashAlikeExactly(s: string, t: string)
    ensures Hash(Units(s)) == Hash(Units(t)) <==> SameStamp(s, t)
  {
    HashesAgreeExactly(Units(s), Units(t));
  }

  lemma KnownStep()
    ensures Step((SEED1, SEED2), Unit(0x61)) == (0xa9b3de2e, 0xac711d6e)
  {
  }

  lemma KnownFinals()
    ensures Finalise((SEED1, SEED2)) == (0x1aee8d83, 0x488bdcb8)
    ensures Finalise((0xa9b3de2e, 0xac711d6e)) == (0x82c97901, 0x501c2ba7)
  {
  }

  /** Two known values. */
  lemma KnownWords()
    ensures WordsOf("") == (0x1aee8d83, 0x488bdcb8) && WordsOf("a") == (0x82c97901, 0x501c2ba7)
  {
    hide Step, Finalise, Unit;
    KnownStep();
    KnownFinals();
    assert "a"[1..] == "" && 'a' as int == 0x61;
    var units := Units("a");
    assert units == [Unit(0x61)] && units[..0] == [];
  }

  /** The loop of the source. */
  method Compute(units: seq<bv16>) returns (text: string)
    ensures text == Hash(units)
  {
    hide ByM1, ByM2, ByA, ByB, Xor, Fold16, Fold13, Widen, Combine, Numeral;
    var h1, h2 := SEED1, SEED2;
    for i := 0 to |units|
      invariant (h1, h2) == Run((SEED1, SEED2), units[..i])
    {
      assert units[..i + 1][..i] == units[..i];
      var ch := Widen(units[i]);
      h1 := ByM1(Xor(h1, ch));
      h2 := ByM2(Xor(h2, ch));
    }
    assert units[..|units|] == units;
    h1 := Xor(ByA(Fold16(h1)), ByB(Fold13(h2)));
    h2 := Xor(ByA(Fold16(h2)), ByB(Fold13(h1)));
    text := Numeral(Combine((h1, h2)), 36);
  }
}
