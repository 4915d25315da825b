/**
 * Comparators and the stable sort that `Array.prototype.sort` promises for a consistent one.
 * A comparator answers with a sign; ties between different values are allowed.
 */
module Orders {

  predicate Opposite<T>(cmp: (T, T) -> int, a: T, b: T) {
    cmp(a, b) < 0 <==> cmp(b, a) > 0
  }

  predicate Chains<T>(cmp: (T, T) -> int, a: T, b: T, c: T) {
    cmp(a, b) <= 0 && cmp(b, c) <= 0 ==> cmp(a, c) <= 0
  }

  /** A total preorder: reflexive, of opposite signs, transitive. */
  ghost predicate Consistent<T(!new)>(cmp: (T, T) -> int) {
    && (forall a :: cmp(a, a) == 0)
    && (forall a, b :: Opposite(cmp, a, b))
    && (forall a, b, c :: Chains(cmp, a, b, c))
  }

  /** Every member of `s` is at or above `x`. */
  ghost predicate AtOrAbove<T>(cmp: (T, T) -> int, x: T, s: seq<T>) {
    forall j :: 0 <= j < |s| ==> cmp(x, s[j]) <= 0
  }

  lemma SortedCons<T>(cmp: (T, T) -> int, x: T, s: seq<T>)
    requires AtOrAbove(cmp, x, s) && Sorted(cmp, s)
    ensures Sorted(cmp, [x] + s)
  {
    var t := [x] + s;
    forall i, j | 0 <= i < j < |t| ensures cmp(t[i], t[j]) <= 0 {
      if i > 0 {
        assert t[i] == s[i - 1];
      }
      assert t[j] == s[j - 1];
    }
  }

  lemma SortedTail<T>(cmp: (T, T) -> int, s: seq<T>)
    requires s != [] && Sorted(cmp, s)
    ensures Sorted(cmp, s[1..]) && AtOrAbove(cmp, s[0], s[1..])
  {
    forall i, j | 0 <= i < j < |s[1..]| ensures cmp(s[1..][i], s[1..][j]) <= 0 {
      assert cmp(s[i + 1], s[j + 1]) <= 0;
    }
  }

  ghost predicate Sorted<T>(cmp: (T, T) -> int, s: seq<T>) {
    forall i, j :: 0 <= i < j < |s| ==> cmp(s[i], s[j]) <= 0
  }

  /** Different members of `s` never tie. */
  ghost predicate Separates<T>(cmp: (T, T) -> int, s: seq<T>) {
    forall i, j :: 0 <= i < |s| && 0 <= j < |s| && cmp(s[i], s[j]) == 0 ==> s[i] == s[j]
  }

  function Insert<T>(cmp: (T, T) -> int, x: T, s: seq<T>): seq<T> {
    if s == [] then [x]
    else if cmp(s[0], x) <= 0 then [s[0]] + Insert(cmp, x, s[1..])
    else [x] + s
  }

  function Sort<T>(cmp: (T, T) -> int, s: seq<T>): seq<T> {
    if s == [] then [] else Insert(cmp, s[|s| - 1], Sort(cmp, s[..|s| - 1]))
  }

  /** The members of `s` that tie with `x`, in their order. */
  function Ties<T>(cmp: (T, T) -> int, x: T, s: seq<T>): seq<T> {
    if s == [] then []
    else (if cmp(s[0], x) == 0 then [s[0]] else []) + Ties(cmp, x, s[1..])
  }

  lemma {:induction false} InsertKeepsMembers<T>(cmp: (T, T) -> int, x: T, s: seq<T>)
    ensures multiset(Insert(cmp, x, s)) == multiset(s) + multiset{x}
  {
    if s != [] {
      assert s == [s[0]] + s[1..];
      if cmp(s[0], x) <= 0 {
        InsertKeepsMembers(cmp, x, s[1..]);
      }
    }
  }

  lemma {:induction false} InsertKeepsSorted<T(!new)>(cmp: (T, T) -> int, x: T, s: seq<T>)
    requires Consistent(cmp) && Sorted(cmp, s)
    ensures Sorted(cmp, Insert(cmp, x, s))
  {
    if s == [] {
      return;
    }
    SortedTail(cmp, s);
    if cmp(s[0], x) <= 0 {
      var rest := Insert(cmp, x, s[1..]);
      InsertKeepsSorted(cmp, x, s[1..]);
      InsertKeepsMembers(cmp, x, s[1..]);
      forall j | 0 <= j < |rest| ensures cmp(s[0], rest[j]) <= 0 {
        assert rest[j] in multiset(rest);
      }
      SortedCons(cmp, s[0], rest);
    } else {
      assert Opposite(cmp, x, s[0]);
      forall j | 0 <= j < |s| ensures cmp(x, s[j]) <= 0 {
        assert Chains(cmp, x, s[0], s[j]);
      }
      SortedCons(cmp, x, s);
    }
  }

  lemma {:induction false} InsertKeepsTies<T(!new)>(cmp: (T, T) -> int, x: T, s: seq<T>, y: T)
    requires Consistent(cmp) && Sorted(cmp, s)
    ensures Ties(cmp, y, Insert(cmp, x, s)) == Ties(cmp, y, s) + (if cmp(x, y) == 0 then [x] else [])
  {
    if s == [] {
      assert [x][1..] == [];
    } else if cmp(s[0], x) <= 0 {
      SortedTail(cmp, s);
      InsertKeepsTies(cmp, x, s[1..], y);
      assert Insert(cmp, x, s)[1..] == Insert(cmp, x, s[1..]);
    } else {
      assert ([x] + s)[1..] == s;
      if cmp(x, y) == 0 {
        assert Opposite(cmp, y, s[0]) && Chains(cmp, s[0], y, x) && Opposite(cmp, x, y);
        NoTiesAbove(cmp, y, s);
      }
    }
  }

  lemma {:induction false} NoTiesAbove<T(!new)>(cmp: (T, T) -> int, y: T, s: seq<T>)
    requires Consistent(cmp) && Sorted(cmp, s) && (s != [] ==> cmp(s[0], y) > 0)
    ensures Ties(cmp, y, s) == []
  {
    if s != [] {
      SortedTail(cmp, s);
      if |s| > 1 {
        assert s[1..][0] == s[1];
        assert Chains(cmp, s[0], s[1], y);
      }
      NoTiesAbove(cmp, y, s[1..]);
    }
  }

  /** The sort of a consistent comparator is a sorted rearrangement. */
  lemma {:induction false} SortSorts<T(!new)>(cmp: (T, T) -> int, s: seq<T>)
    requires Consistent(cmp)
    ensures Sorted(cmp, Sort(cmp, s))
  {
    if s != [] {
      SortSorts(cmp, s[..|s| - 1]);
      InsertKeepsSorted(cmp, s[|s| - 1], Sort(cmp, s[..|s| - 1]));
    }
  }

  lemma {:induction false} SortKeepsMembers<T>(cmp: (T, T) -> int, s: seq<T>)
    ensures multiset(Sort(cmp, s)) == multiset(s) && |Sort(cmp, s)| == |s|
  {
    if s != [] {
      var init := s[..|s| - 1];
      SortKeepsMembers(cmp, init);
      InsertKeepsMembers(cmp, s[|s| - 1], Sort(cmp, init));
      assert s == init + [s[|s| - 1]];
    }
    assert |multiset(Sort(cmp, s))| == |multiset(s)|;
  }

  /** And it is stable: tied members keep their order. */
  lemma {:induction false} SortIsStable<T(!new)>(cmp: (T, T) -> int, s: seq<T>, y: T)
    requires Consistent(cmp)
    ensures Ties(cmp, y, Sort(cmp, s)) == Ties(cmp, y, s)
  {
    if s != [] {
      var init, last := s[..|s| - 1], s[|s| - 1];
      SortSorts(cmp, init);
      SortIsStable(cmp, init, y);
      InsertKeepsTies(cmp, last, Sort(cmp, init), y);
      TiesOfConcat(cmp, y, init, [last]);
      assert s == init + [last];
    }
  }

  lemma {:induction false} InsertLast<T>(cmp: (T, T) -> int, x: T, s: seq<T>)
    requires forall i :: 0 <= i < |s| ==> cmp(s[i], x) <= 0
    ensures Insert(cmp, x, s) == s + [x]
  {
    if s != [] {
      InsertLast(cmp, x, s[1..]);
      assert s == [s[0]] + s[1..];
    }
  }

  /** Sorting leaves a sorted list as it is. */
  lemma {:induction false} SortedStays<T>(cmp: (T, T) -> int, s: seq<T>)
    requires Sorted(cmp, s)
    ensures Sort(cmp, s) == s
  {
    if s != [] {
      var init, last := s[..|s| - 1], s[|s| - 1];
      SortedStays(cmp, init);
      InsertLast(cmp, last, init);
      assert s == init + [last];
    }
  }

  lemma {:induction false} TiesOfConcat<T>(cmp: (T, T) -> int, y: T, a: seq<T>, b: seq<T>)
    ensures Ties(cmp, y, a + b) == Ties(cmp, y, a) + Ties(cmp, y, b)
  {
    if a == [] {
      assert a + b == b && Ties(cmp, y, a) == [];
    } else {
      assert (a + b)[0] == a[0] && (a + b)[1..] == a[1..] + b;
      TiesOfConcat(cmp, y, a[1..], b);
      assert Ties(cmp, y, a + b) == (if cmp(a[0], y) == 0 then [a[0]] else []) + Ties(cmp, y, a[1..] + b);
    }
  }

  /** Where the head of `a` sits in a rearrangement `b`, and that the rests rearrange each other. */
  lemma HeadElsewhere<T>(a: seq<T>, b: seq<T>) returns (i: nat)
    requires a != [] && multiset(a) == multiset(b)
    ensures i < |b| && b[i] == a[0]
    ensures b == b[..i] + ([a[0]] + b[i + 1..])
    ensures multiset(a[1..]) == multiset(b[..i] + b[i + 1..])
  {
    assert a[0] in multiset(b);
    i :| 0 <= i < |b| && b[i] == a[0];
    var x, front, back := a[0], b[..i], b[i + 1..];
    assert a == [x] + a[1..] && [] + a[1..] == a[1..] && [] + ([x] + a[1..]) == a;
    assert b == front + ([x] + back);
    Joined([], x, a[1..]);
    Joined(front, x, back);
    CancelOne(multiset(a[1..]), multiset(front + back), x);
  }

  lemma CancelOne<T>(a: multiset<T>, b: multiset<T>, x: T)
    requires a + multiset{x} == b + multiset{x}
    ensures a == b
  {
    assert a == (a + multiset{x}) - multiset{x} && b == (b + multiset{x}) - multiset{x};
  }

  lemma Joined<T>(front: seq<T>, x: T, back: seq<T>)
    ensures multiset(front + ([x] + back)) == multiset(front + back) + multiset{x}
  {
    assert multiset([x] + back) == multiset{x} + multiset(back);
  }

  lemma SameLength<T>(a: seq<T>, b: seq<T>)
    requires multiset(a) == multiset(b)
    ensures |a| == |b|
  {
    assert |multiset(a)| == |a| && |multiset(b)| == |b|;
  }

  lemma LeastOfSorted<T(!new)>(cmp: (T, T) -> int, s: seq<T>, x: T)
    requires Consistent(cmp) && Sorted(cmp, s) && x in s
    ensures cmp(s[0], x) <= 0
  {
    var i :| 0 <= i < |s| && s[i] == x;
    if i > 0 {
      assert cmp(s[0], s[i]) <= 0;
    }
  }

  /** Two sorted arrangements of the same members agree when nothing ties. */
  lemma {:induction false} SortedIsUnique<T(!new)>(cmp: (T, T) -> int, a: seq<T>, b: seq<T>)
    requires Consistent(cmp) && Sorted(cmp, a) && Sorted(cmp, b)
    requires multiset(a) == multiset(b) && Separates(cmp, a)
    ensures a == b
    decreases |a|
  {
    hide Sorted, Separates, Consistent, AtOrAbove;
    SameLength(a, b);
    if a != [] {
      HeadsAgree(cmp, a, b);
      SortedTail(cmp, a);
      SortedTail(cmp, b);
      SeparatesTail(cmp, a);
      assert a == [a[0]] + a[1..] && b == [b[0]] + b[1..];
      assert multiset(a[1..]) == multiset(a) - multiset{a[0]};
      assert multiset(b[1..]) == multiset(b) - multiset{b[0]};
      SortedIsUnique(cmp, a[1..], b[1..]);
    }
  }

  lemma HeadsAgree<T(!new)>(cmp: (T, T) -> int, a: seq<T>, b: seq<T>)
    requires Consistent(cmp) && Sorted(cmp, a) && Sorted(cmp, b)
    requires a != [] && b != [] && multiset(a) == multiset(b) && Separates(cmp, a)
    ensures a[0] == b[0]
  {
    assert a[0] in multiset(b) && b[0] in multiset(a);
    LeastOfSorted(cmp, a, b[0]);
    LeastOfSorted(cmp, b, a[0]);
    assert Opposite(cmp, a[0], b[0]);
    var j :| 0 <= j < |a| && a[j] == b[0];
    assert cmp(a[0], a[j]) == 0;
  }

  lemma SeparatesTail<T>(cmp: (T, T) -> int, s: seq<T>)
    requires s != [] && Separates(cmp, s)
    ensures Separates(cmp, s[1..])
  {
    forall i, j | 0 <= i < |s[1..]| && 0 <= j < |s[1..]| && cmp(s[1..][i], s[1..][j]) == 0
      ensures s[1..][i] == s[1..][j]
    {
      assert cmp(s[i + 1], s[j + 1]) == 0;
    }
  }

  /** So the sort does not depend on the order of its input, when nothing ties. */
  lemma SortForgetsOrder<T(!new)>(cmp: (T, T) -> int, a: seq<T>, b: seq<T>)
    requires Consistent(cmp) && multiset(a) == multiset(b) && Separates(cmp, a)
    ensures Sort(cmp, a) == Sort(cmp, b)
  {
    SortSorts(cmp, a);
    SortSorts(cmp, b);
    SortKeepsMembers(cmp, a);
    SortKeepsMembers(cmp, b);
    var sa := Sort(cmp, a);
    forall i, j | 0 <= i < |sa| && 0 <= j < |sa| && cmp(sa[i], sa[j]) == 0
      ensures sa[i] == sa[j]
    {
      assert sa[i] in multiset(a) && sa[j] in multiset(a);
    }
    SortedIsUnique(cmp, sa, Sort(cmp, b));
  }

  /** What ties with one of two tied values ties with the other. */
  lemma {:induction false} SameTies<T(!new)>(cmp: (T, T) -> int, x: T, y: T, s: seq<T>)
    requires Consistent(cmp) && cmp(x, y) == 0
    ensures Ties(cmp, x, s) == Ties(cmp, y, s)
  {
    if s != [] {
      SameTies(cmp, x, y, s[1..]);
      assert Opposite(cmp, x, y) && Opposite(cmp, s[0], x) && Opposite(cmp, s[0], y);
      assert Chains(cmp, s[0], x, y) && Chains(cmp, s[0], y, x);
      assert Chains(cmp, x, y, s[0]) && Chains(cmp, y, x, s[0]);
    }
  }
}
