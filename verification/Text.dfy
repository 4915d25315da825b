/** Text as the browser treats it: white space, `trim`, `cleanText`, and the locale's services. */
module Text {
  import Numerals
  import Orders

  /** The characters `\s` and `trim` take for white space. */
  predicate IsSpace(c: char) {
    var n := c as int;
    || 9 <= n <= 13 || n == 0x20 || n == 0xA0 || n == 0x1680 || 0x2000 <= n <= 0x200A
    || n == 0x2028 || n == 0x2029 || n == 0x202F || n == 0x205F || n == 0x3000 || n == 0xFEFF
  }

  function TrimStart(s: string): string {
    if s != "" && IsSpace(s[0]) then TrimStart(s[1..]) else s
  }

  function TrimEnd(s: string): string {
    if s != "" && IsSpace(s[|s| - 1]) then TrimEnd(s[..|s| - 1]) else s
  }

  function Trim(s: string): string { TrimEnd(TrimStart(s)) }

  predicate Trimmed(s: string) {
    s != "" ==> !IsSpace(s[0]) && !IsSpace(s[|s| - 1])
  }

  lemma {:induction false} TrimEndIsPrefix(s: string)
    ensures TrimEnd(s) <= s && (TrimEnd(s) != "" ==> !IsSpace(TrimEnd(s)[|TrimEnd(s)| - 1]))
  {
    if s != "" && IsSpace(s[|s| - 1]) {
      TrimEndIsPrefix(s[..|s| - 1]);
    }
  }

  /** `trim` leaves no white space at either end, and changes nothing that has none. */
  lemma TrimTrims(s: string)
    ensures Trimmed(Trim(s)) && (Trimmed(s) ==> Trim(s) == s)
  {
    TrimStartStops(s);
    TrimEndIsPrefix(TrimStart(s));
  }

  lemma {:induction false} TrimStartStops(s: string)
    ensures TrimStart(s) != "" ==> !IsSpace(TrimStart(s)[0])
  {
    if s != "" && IsSpace(s[0]) {
      TrimStartStops(s[1..]);
    }
  }

  /** `replace(/\s+/g, ' ')` */
  function Collapse(s: string): string
    decreases |s|
  {
    if s == "" then ""
    else if !IsSpace(s[0]) then [s[0]] + Collapse(s[1..])
    else if |s| > 1 && IsSpace(s[1]) then Collapse(s[1..])
    else " " + Collapse(s[1..])
  }

  function CleanText(s: string): string { Trim(Collapse(s)) }

  /** White space only as single blanks. */
  ghost predicate Collapsed(s: string) {
    forall i :: 0 <= i < |s| && IsSpace(s[i]) ==> s[i] == ' ' && (i + 1 < |s| ==> !IsSpace(s[i + 1]))
  }

  lemma {:induction false} CollapseCollapses(s: string)
    ensures Collapsed(Collapse(s))
    ensures s != "" && !IsSpace(s[0]) ==> Collapse(s) != "" && Collapse(s)[0] == s[0]
    decreases |s|
  {
    if s != "" {
      CollapseCollapses(s[1..]);
      var rest := Collapse(s[1..]);
      if !IsSpace(s[0]) {
        assert forall i :: 1 <= i < |rest| + 1 ==> ([s[0]] + rest)[i] == rest[i - 1];
      } else if |s| == 1 || !IsSpace(s[1]) {
        assert Collapse("") == "";
        assert forall i :: 1 <= i < |rest| + 1 ==> (" " + rest)[i] == rest[i - 1];
      }
    }
  }

  lemma {:induction false} CollapsedStays(s: string)
    requires Collapsed(s)
    ensures Collapse(s) == s
    decreases |s|
  {
    if s != "" {
      assert forall i :: 0 <= i < |s| - 1 ==> s[1..][i] == s[i + 1];
      CollapsedStays(s[1..]);
      assert s == [s[0]] + s[1..];
    }
  }

  lemma {:induction false} TrimStartIsSuffix(s: string)
    ensures |TrimStart(s)| <= |s| && TrimStart(s) == s[|s| - |TrimStart(s)|..]
  {
    if s != "" && IsSpace(s[0]) {
      TrimStartIsSuffix(s[1..]);
    }
  }

  /** `cleanText` is idempotent: cleaned text has its white space in single inner blanks. */
  lemma CleanTextIsClean(s: string)
    ensures Trimmed(CleanText(s)) && Collapsed(CleanText(s)) && CleanText(CleanText(s)) == CleanText(s)
  {
    CollapseCollapses(s);
    var c := Collapse(s);
    TrimStartIsSuffix(c);
    TrimEndIsPrefix(TrimStart(c));
    var k := |c| - |TrimStart(c)|;
    assert forall i :: 0 <= i < |CleanText(s)| ==> CleanText(s)[i] == c[k + i];
    TrimTrims(c);
    CleanStays(CleanText(s));
  }

  lemma {:induction false} CollapseAddsNothing(s: string, c: char)
    requires c in Collapse(s)
    ensures c in s || c == ' '
    decreases |s|
  {
    if s != "" {
      assert forall x <- s[1..] :: x in s;
      if c in Collapse(s[1..]) {
        CollapseAddsNothing(s[1..], c);
      }
    }
  }

  /** Cleaning adds no character but blanks. */
  lemma CleanTextAddsNothing(s: string, c: char)
    ensures c != ' ' && c !in s ==> c !in CleanText(s)
  {
    var t := Collapse(s);
    TrimStartIsSuffix(t);
    TrimEndIsPrefix(TrimStart(t));
    if c in CleanText(s) {
      assert c in TrimStart(t) && c in t;
      CollapseAddsNothing(s, c);
    }
  }

  lemma CleanStays(s: string)
    requires Trimmed(s) && Collapsed(s)
    ensures CleanText(s) == s
  {
    CollapsedStays(s);
    TrimTrims(s);
  }

  /** `list.map(cleanText).filter(Boolean)` */
  function CleanAll(list: seq<string>): seq<string> {
    if list == [] then []
    else (if CleanText(list[0]) == "" then [] else [CleanText(list[0])]) + CleanAll(list[1..])
  }

  function Join(parts: seq<string>, separator: string): string {
    if parts == [] then ""
    else if |parts| == 1 then parts[0]
    else parts[0] + separator + Join(parts[1..], separator)
  }

  // ----- taking joined text apart -----

  lemma Behind(head: string, a: string, b: string)
    requires head + a == head + b
    ensures a == b
  {
    assert (head + a)[|head|..] == a && (head + b)[|head|..] == b;
  }

  lemma SameBehind(head: string, a: string, b: string)
    ensures head + a == head + b <==> a == b
  {
    if head + a == head + b {
      Behind(head, a, b);
    }
  }

  lemma SplitsAtFirst(mark: char, a: string, b: string, c: string, d: string)
    requires mark !in a && mark !in c && a + [mark] + b == c + [mark] + d
    ensures a == c && b == d
  {
    var s, t := a + [mark] + b, c + [mark] + d;
    FirstMark(mark, a, b, c, d);
    FirstMark(mark, c, d, a, b);
    assert s[..|a|] == a && t[..|c|] == c && s[|a| + 1..] == b && t[|c| + 1..] == d;
  }

  lemma FirstMark(mark: char, a: string, b: string, c: string, d: string)
    requires mark !in a && a + [mark] + b == c + [mark] + d
    ensures |a| <= |c|
  {
    var s := a + [mark] + b;
    assert forall i :: 0 <= i < |a| ==> s[i] == a[i];
    assert (c + [mark] + d)[|c|] == mark;
  }

  lemma SplitsAtLast(mark: char, a: string, b: string, c: string, d: string)
    requires mark !in b && mark !in d && a + [mark] + b == c + [mark] + d
    ensures a == c && b == d
  {
    var s, t := a + [mark] + b, c + [mark] + d;
    LastMark(mark, a, b, c, d);
    LastMark(mark, c, d, a, b);
    assert s[..|a|] == a && t[..|c|] == c && s[|a| + 1..] == b && t[|c| + 1..] == d;
  }

  lemma LastMark(mark: char, a: string, b: string, c: string, d: string)
    requires mark !in b && a + [mark] + b == c + [mark] + d
    ensures |b| <= |d|
  {
    var s := a + [mark] + b;
    assert forall i :: |a| < i < |s| ==> s[i] == b[i - |a| - 1];
    assert (c + [mark] + d)[|c|] == mark;
  }

  /** Two pairs of parts that join to one text. */
  predicate Collide(mark: char, a: string, b: string, c: string, d: string) { a + [mark] + b == c + [mark] + d }

  /** `a` and a mark begin `c`. */
  predicate Reaches(mark: char, a: string, c: string) { a + [mark] <= c }

  lemma CollisionAligns(mark: char, a: string, b: string, c: string, d: string)
    requires Collide(mark, a, b, c, d)
    ensures |a| == |c| ==> a == c && b == d
  {
    var s, t := a + [mark] + b, c + [mark] + d;
    assert s[..|a|] == a && t[..|c|] == c && s[|a| + 1..] == b && t[|c| + 1..] == d;
  }

  /** Where two different first parts collide, the shorter and its mark begin the longer, and the rest of
      that begins what follows the shorter. */
  lemma CollisionReaches(mark: char, a: string, b: string, c: string, d: string)
    requires Collide(mark, a, b, c, d) && |a| < |c|
    ensures Reaches(mark, a, c) && b == c[|a| + 1..] + [mark] + d
  {
    var s, t := a + [mark] + b, c + [mark] + d;
    assert s[|a|] == mark && t[|a|] == c[|a|];
    assert s[..|a|] == a && t[..|a|] == c[..|a|];
    assert c == a + [mark] + c[|a| + 1..];
    assert s[|a| + 1..] == b && t[|a| + 1..] == c[|a| + 1..] + [mark] + d;
  }

  /** Different first parts can collide exactly if one of them and the mark begin the other. */
  lemma CollideExactly(mark: char, a: string, c: string)
    requires a != c
    ensures (exists b, d :: Collide(mark, a, b, c, d)) <==> Reaches(mark, a, c) || Reaches(mark, c, a)
  {
    if b, d :| Collide(mark, a, b, c, d) {
      CollisionAligns(mark, a, b, c, d);
      if |a| < |c| {
        CollisionReaches(mark, a, b, c, d);
      } else {
        CollisionReaches(mark, c, d, a, b);
      }
    }
    if Reaches(mark, a, c) {
      ReachingCollides(mark, a, c, "");
    }
    if Reaches(mark, c, a) {
      ReachingCollides(mark, c, a, "");
    }
  }

  lemma ReachedHoldsMark(mark: char, a: string, c: string)
    ensures Reaches(mark, a, c) ==> mark in c
  {
    assert Reaches(mark, a, c) ==> (a + [mark])[|a|] == c[|a|] == mark;
  }

  lemma ReachingCollides(mark: char, a: string, c: string, d: string)
    requires Reaches(mark, a, c)
    ensures Collide(mark, a, c[|a| + 1..] + [mark] + d, c, d)
    ensures Collide(mark, c, d, a, c[|a| + 1..] + [mark] + d)
  {
    assert c == a + [mark] + c[|a| + 1..];
  }

  /** Where two lists first differ, neither entry and the mark begin the other. */
  ghost predicate ListsApart(mark: char, a: seq<string>, b: seq<string>) {
    forall i :: 0 <= i < |a| && i < |b| && a[..i] == b[..i] && a[i] != b[i] ==>
      !Reaches(mark, a[i], b[i]) && !Reaches(mark, b[i], a[i])
  }

  lemma {:induction false} ApartListsJoinApart(mark: char, a: seq<string>, b: seq<string>)
    requires a != [] && b != [] && ListsApart(mark, a, b) && Join(a, [mark]) == Join(b, [mark])
    ensures a == b
  {
    var x, y := a[0], b[0];
    assert a[..0] == b[..0] && a == [x] + a[1..] && b == [y] + b[1..];
    if x == y {
      if |a| > 1 && |b| > 1 {
        Behind(x + [mark], Join(a[1..], [mark]), Join(b[1..], [mark]));
        forall i | 0 <= i < |a| - 1 && i < |b| - 1 && a[1..][..i] == b[1..][..i] && a[1..][i] != b[1..][i]
          ensures !Reaches(mark, a[1..][i], b[1..][i]) && !Reaches(mark, b[1..][i], a[1..][i])
        {
          assert a[..i + 1] == [x] + a[1..][..i] && b[..i + 1] == [y] + b[1..][..i];
        }
        ApartListsJoinApart(mark, a[1..], b[1..]);
      }
    } else {
      JoinedHeadsReach(mark, a, b);
    }
  }

  lemma JoinedHeadsReach(mark: char, a: seq<string>, b: seq<string>)
    requires a != [] && b != [] && a[0] != b[0] && Join(a, [mark]) == Join(b, [mark])
    ensures Reaches(mark, a[0], b[0]) || Reaches(mark, b[0], a[0])
  {
    if |a| > 1 && |b| > 1 {
      assert Collide(mark, a[0], Join(a[1..], [mark]), b[0], Join(b[1..], [mark]));
      CollideExactly(mark, a[0], b[0]);
    }
  }

  /** Lists without the mark are apart. */
  lemma FreeListsAreApart(mark: char, a: seq<string>, b: seq<string>)
    requires (forall p <- a :: mark !in p) && (forall p <- b :: mark !in p)
    ensures ListsApart(mark, a, b)
  {
    forall i | 0 <= i < |a| && i < |b| ensures !Reaches(mark, a[i], b[i]) && !Reaches(mark, b[i], a[i]) {
      assert a[i] in a && b[i] in b;
      ReachedHoldsMark(mark, a[i], b[i]);
      ReachedHoldsMark(mark, b[i], a[i]);
    }
  }

  // ----- collisions of clean texts -----

  /** `a` and a bar begin `c`, and no blank follows. */
  predicate Bridges(a: string, c: string) {
    Reaches('|', a, c) && (|c| > |a| + 1 ==> !IsSpace(c[|a| + 1]))
  }

  predicate StartsSolid(s: string) { s != "" ==> !IsSpace(s[0]) }

  lemma BarIsNoSpace()
    ensures !IsSpace('|')
  {
  }

  lemma CleanNothing()
    ensures CleanText("") == ""
  {
    CleanStays("");
  }

  lemma CleanParts(x: string, y: string)
    requires CleanText(x) == x && CleanText(y) == y
    ensures CleanText(x + "|" + y) == x + "|" + y
  {
    hide CleanText, IsSpace;
    CleanTextIsClean(x);
    CleanTextIsClean(y);
    BarIsNoSpace();
    CleanStays(x + "|" + y);
  }

  lemma CleanSlice(c: string, i: nat, j: nat)
    requires CleanText(c) == c && i <= j <= |c|
    requires i < j ==> !IsSpace(c[i]) && !IsSpace(c[j - 1])
    ensures CleanText(c[i..j]) == c[i..j]
  {
    hide CleanText, IsSpace;
    CleanTextIsClean(c);
    assert forall k :: 0 <= k < j - i ==> c[i..j][k] == c[i + k];
    CleanStays(c[i..j]);
  }

  lemma BridgeCollides(a: string, c: string, d: string)
    requires CleanText(c) == c && CleanText(d) == d && Bridges(a, c)
    ensures var b := c[|a| + 1..] + "|" + d;
      CleanText(b) == b && Collide('|', a, b, c, d) && Collide('|', c, d, a, b)
    ensures CleanText(c[|a| + 1..]) == c[|a| + 1..]
  {
    hide CleanText, IsSpace;
    CleanTextIsClean(c);
    CleanSlice(c, |a| + 1, |c|);
    assert c[|a| + 1..|c|] == c[|a| + 1..];
    CleanParts(c[|a| + 1..], d);
    ReachingCollides('|', a, c, d);
  }

  lemma CollisionBridges(a: string, b: string, c: string, d: string)
    requires Collide('|', a, b, c, d) && a != c
    requires (StartsSolid(b) && StartsSolid(d)) || (CleanText(b) == b && CleanText(d) == d)
    ensures Bridges(a, c) || Bridges(c, a)
  {
    hide CleanText, IsSpace;
    CleanTextIsClean(b);
    CleanTextIsClean(d);
    CollisionAligns('|', a, b, c, d);
    if |a| < |c| {
      CollisionReaches('|', a, b, c, d);
      assert |c| > |a| + 1 ==> b[0] == c[|a| + 1];
    } else {
      CollisionReaches('|', c, d, a, b);
      assert |a| > |c| + 1 ==> d[0] == a[|c| + 1];
    }
  }

  ghost predicate CleanCollide(a: string, b: string, c: string, d: string) {
    CleanText(b) == b && CleanText(d) == d && Collide('|', a, b, c, d)
  }

  /** Two different clean texts can collide, by clean texts behind them, exactly if one of them and a bar
      begin the other with no blank behind. */
  lemma CleanCollideExactly(a: string, c: string)
    requires CleanText(a) == a && CleanText(c) == c && a != c
    ensures (exists b, d :: CleanCollide(a, b, c, d)) <==> Bridges(a, c) || Bridges(c, a)
  {
    hide CleanText, Collide, IsSpace;
    if b, d :| CleanCollide(a, b, c, d) {
      CollisionBridges(a, b, c, d);
    }
    CleanNothing();
    if Bridges(a, c) {
      BridgeCollides(a, c, "");
      assert CleanCollide(a, c[|a| + 1..] + "|" + "", c, "");
    } else if Bridges(c, a) {
      BridgeCollides(c, a, "");
      assert CleanCollide(a, "", c, a[|c| + 1..] + "|" + "");
    }
  }

  /** Parts that can be told apart once joined. */
  ghost predicate FreeOf(parts: seq<string>, mark: char) { forall p <- parts :: p != "" && mark !in p }

  lemma {:induction false} JoinAvoids(parts: seq<string>, mark: char, other: char)
    requires mark != other && forall p <- parts :: other !in p
    ensures other !in Join(parts, [mark])
  {
    if parts != [] {
      assert parts[0] in parts && forall p <- parts[1..] :: p in parts;
      JoinAvoids(parts[1..], mark, other);
    }
  }

  /** Joining loses nothing as long as no part is empty or holds the mark. */
  lemma {:induction false} JoinIsInjective(mark: char, a: seq<string>, b: seq<string>)
    requires FreeOf(a, mark) && FreeOf(b, mark) && Join(a, [mark]) == Join(b, [mark])
    ensures a == b
  {
    assert a != [] ==> a[0] in a;
    assert b != [] ==> b[0] in b;
    if a != [] && b != [] {
      assert (forall p <- a[1..] :: p in a) && (forall p <- b[1..] :: p in b);
      assert a == [a[0]] + a[1..] && b == [b[0]] + b[1..];
      if |a| > 1 && |b| > 1 {
        SplitsAtFirst(mark, a[0], Join(a[1..], [mark]), b[0], Join(b[1..], [mark]));
        JoinIsInjective(mark, a[1..], b[1..]);
      } else {
        assert |a| > 1 ==> mark in Join(a, [mark]);
        assert |b| > 1 ==> mark in Join(b, [mark]);
        assert a == [a[0]] && b == [b[0]];
      }
    }
  }

  /** `localeCompare(…, { numeric: true })` and `toLowerCase`. */
  datatype Locale = Locale(compare: (string, string) -> int, lower: string -> string)
  {
    /** A consistent comparison that ranks numerals by their numbers. */
    ghost predicate Collates() {
      && Orders.Consistent(compare)
      && (forall m: nat, n: nat :: m < n ==> compare(Numerals.Numeral(m, 10), Numerals.Numeral(n, 10)) < 0)
    }

    function SortStrings(values: seq<string>): seq<string> {
      Orders.Sort(compare, CleanAll(values))
    }
  }

  lemma {:induction false} CleanAllOfConcat(a: seq<string>, b: seq<string>)
    ensures CleanAll(a + b) == CleanAll(a) + CleanAll(b)
  {
    if a == [] {
      assert a + b == b;
    } else {
      assert (a + b)[1..] == a[1..] + b;
      CleanAllOfConcat(a[1..], b);
    }
  }

  lemma {:induction false} CleanAllMembers(list: seq<string>, x: string)
    ensures x in CleanAll(list) <==> x != "" && exists v :: v in list && CleanText(v) == x
  {
    if list != [] {
      CleanAllMembers(list[1..], x);
      assert list == [list[0]] + list[1..];
    }
  }

  lemma {:induction false} CleanAllOfClean(s: seq<string>)
    requires forall x <- s :: x != "" && CleanText(x) == x
    ensures CleanAll(s) == s
  {
    hide CleanText;
    if s != [] {
      assert s[0] in s && forall x <- s[1..] :: x in s;
      CleanAllOfClean(s[1..]);
      assert s == [s[0]] + s[1..];
    }
  }

  /** Sorted strings stay as they are when cleaned and sorted again. */
  lemma SortStringsTwice(locale: Locale, values: seq<string>)
    requires locale.Collates()
    ensures CleanAll(locale.SortStrings(values)) == locale.SortStrings(values)
    ensures locale.SortStrings(locale.SortStrings(values)) == locale.SortStrings(values)
  {
    hide CleanText;
    var cleaned, sorted := CleanAll(values), locale.SortStrings(values);
    Orders.SortKeepsMembers(locale.compare, cleaned);
    Orders.SortSorts(locale.compare, cleaned);
    forall x | x in sorted ensures x != "" && CleanText(x) == x {
      assert x in multiset(cleaned);
      CleanAllMembers(values, x);
      var v :| v in values && CleanText(v) == x;
      CleanTextIsClean(v);
    }
    CleanAllOfClean(sorted);
    Orders.SortedStays(locale.compare, sorted);
  }

  /** Rearranging a list rearranges its cleaned form. */
  lemma {:induction false} CleanAllForgetsOrder(a: seq<string>, b: seq<string>)
    requires multiset(a) == multiset(b)
    ensures multiset(CleanAll(a)) == multiset(CleanAll(b))
    decreases |a|
  {
    Orders.SameLength(a, b);
    if a != [] {
      var i := Orders.HeadElsewhere(a, b);
      CleanAllForgetsOrder(a[1..], b[..i] + b[i + 1..]);
      CleanAllOfConcat(b[..i], b[i + 1..]);
      CleanAllOfConcat(b[..i], [a[0]] + b[i + 1..]);
      CleanAllOfConcat([a[0]], b[i + 1..]);
      CleanAllOfConcat([a[0]], a[1..]);
      assert a == [a[0]] + a[1..];
    }
  }

  /** Sorting strings forgets their order when no two different cleaned texts tie. */
  lemma SortStringsForgetsOrder(locale: Locale, a: seq<string>, b: seq<string>)
    requires locale.Collates() && multiset(a) == multiset(b)
    requires Orders.Separates(locale.compare, CleanAll(a))
    ensures locale.SortStrings(a) == locale.SortStrings(b)
  {
    CleanAllForgetsOrder(a, b);
    Orders.SortForgetsOrder(locale.compare, CleanAll(a), CleanAll(b));
  }
}
