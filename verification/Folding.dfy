/** Left folds, and when they do not care about the order of their input. */
module Folding {
  import Orders

  function Fold<S, T>(step: (S, T) -> S, start: S, xs: seq<T>): S {
    if xs == [] then start else step(Fold(step, start, xs[..|xs| - 1]), xs[|xs| - 1])
  }

  predicate Swaps<S(==), T>(step: (S, T) -> S, s: S, x: T, y: T) {
    step(step(s, x), y) == step(step(s, y), x)
  }

  ghost predicate Commutes<S(!new), T(!new)>(step: (S, T) -> S) {
    forall s, x, y :: Swaps(step, s, x, y)
  }

  lemma {:induction false} FoldOfConcat<S, T>(step: (S, T) -> S, start: S, a: seq<T>, b: seq<T>)
    ensures Fold(step, start, a + b) == Fold(step, Fold(step, start, a), b)
  {
    if b == [] {
      assert a + b == a;
    } else {
      assert (a + b)[..|a + b| - 1] == a + b[..|b| - 1];
      FoldOfConcat(step, start, a, b[..|b| - 1]);
    }
  }

  lemma FoldOfOne<S, T>(step: (S, T) -> S, start: S, x: T)
    ensures Fold(step, start, [x]) == step(start, x)
  {
    var one := [x];
    assert one[..0] == [];
  }

  lemma {:induction false} HeadSinks<S(!new), T(!new)>(step: (S, T) -> S, start: S, x: T, xs: seq<T>)
    requires Commutes(step)
    ensures Fold(step, step(start, x), xs) == step(Fold(step, start, xs), x)
  {
    if xs != [] {
      var init, last := xs[..|xs| - 1], xs[|xs| - 1];
      HeadSinks(step, start, x, init);
      assert Swaps(step, Fold(step, start, init), x, last);
    }
  }

  /** A fold whose steps commute gives every rearrangement of its input the same result. */
  lemma {:induction false} FoldForgetsOrder<S(!new), T(!new)>(step: (S, T) -> S, start: S, a: seq<T>, b: seq<T>)
    requires Commutes(step) && multiset(a) == multiset(b)
    ensures Fold(step, start, a) == Fold(step, start, b)
    decreases |a|
  {
    Orders.SameLength(a, b);
    if a != [] {
      var x := a[0];
      var i := Orders.HeadElsewhere(a, b);
      var (front, back) := (b[..i], b[i + 1..]);
      FoldForgetsOrder(step, step(start, x), a[1..], front + back);
      assert a == [x] + a[1..];
      FoldOfConcat(step, start, [x], a[1..]);
      FoldOfOne(step, start, x);
      FoldOfConcat(step, step(start, x), front, back);
      HeadSinks(step, start, x, front);
      FoldOfConcat(step, start, front, [x] + back);
      FoldOfConcat(step, Fold(step, start, front), [x], back);
      FoldOfOne(step, Fold(step, start, front), x);
    }
  }

  // ----- steps that update one entry of a table -----

  function At<K, V>(m: map<K, V>, k: K, default: V): V { if k in m then m[k] else default }

  function Bump<K, V, T>(m: map<K, V>, k: K, default: V, step: (V, T) -> V, x: T): map<K, V> {
    m[k := step(At(m, k, default), x)]
  }

  /** Updates of different entries commute, and those of one entry do if their steps do. */
  lemma BumpsCommute<K, V, T>(m: map<K, V>, j: K, x: T, k: K, y: T, default: V, step: (V, T) -> V)
    requires Swaps(step, At(m, j, default), x, y)
    ensures Bump(Bump(m, j, default, step, x), k, default, step, y) ==
        Bump(Bump(m, k, default, step, y), j, default, step, x)
  {
  }
}
