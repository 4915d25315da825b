/** Choosing and ordering titles by the version they name (compactionUtils.js). */
module Titles {
  import opened Options
  import opened Text
  import opened Versions
  import Orders
  import StableHash

  /** `text.length`, in UTF-16 code units. */
  function Length(text: string): nat {
    if text == "" then 0 else (if text[0] as int > 0xFFFF then 2 else 1) + Length(text[1..])
  }

  lemma {:induction false} LengthCountsUnits(text: string)
    ensures Length(text) == |StableHash.Units(text)|
  {
    if text != "" {
      LengthCountsUnits(text[1..]);
    }
  }

  /** The test in `chooseDisplayTitle`'s `reduce`. `version` is `extractTitleVersion`. */
  predicate Improves(locale: Locale, version: string -> Option<string>, best: string, candidate: string) {
    var b, c := version(best), version(candidate);
    || (c.Some? && (b.None? || CompareVersions(locale, c.value, b.value) > 0))
    || (c.None? && b.None? && Length(candidate) > Length(best))
  }

  function Best(locale: Locale, version: string -> Option<string>, titles: seq<string>): string
    requires titles != []
  {
    if |titles| == 1 then titles[0]
    else
      var best, candidate := Best(locale, version, titles[..|titles| - 1]), titles[|titles| - 1];
      if Improves(locale, version, best, candidate) then candidate else best
  }

  function ChooseDisplayTitle(locale: Locale, version: string -> Option<string>,
                              titles: seq<string>, fallback: string): string {
    var cleaned := CleanAll(locale.SortStrings(titles));
    if cleaned == [] then CleanText(if fallback == "" then "Untitled finding" else fallback)
    else Best(locale, version, cleaned)
  }

  /** What the chosen title is: of maximal version if any title names one, else longest; and the
      first such in sorted order. */
  ghost predicate IsChoice(locale: Locale, version: string -> Option<string>, titles: seq<string>, k: nat) {
    && k < |titles|
    && (forall i :: 0 <= i < |titles| && version(titles[i]).Some? ==>
          version(titles[k]).Some? && Loses(locale, version, titles[i], titles[k], i < k))
    && (version(titles[k]).None? ==>
          forall i :: 0 <= i < |titles| ==>
            Length(titles[i]) <= Length(titles[k]) && (i < k ==> Length(titles[i]) < Length(titles[k])))
  }

  predicate Loses(locale: Locale, version: string -> Option<string>, title: string, winner: string, strictly: bool)
    requires version(title).Some? && version(winner).Some?
  {
    var c := CompareVersions(locale, version(title).value, version(winner).value);
    c <= 0 && (strictly ==> c < 0)
  }

  lemma TiesItself(locale: Locale, version: string -> Option<string>, title: string)
    requires locale.Collates()
    ensures version(title).Some? ==> Loses(locale, version, title, title, false)
  {
    VersionsAreOrdered(locale);
    var cmp := (a, b) => CompareVersions(locale, a, b);
    if version(title).Some? {
      assert cmp(version(title).value, version(title).value) == 0;
    }
  }

  lemma {:induction false} BestIsChoice(locale: Locale, version: string -> Option<string>, titles: seq<string>)
    returns (k: nat)
    requires locale.Collates() && titles != []
    ensures IsChoice(locale, version, titles, k) && Best(locale, version, titles) == titles[k]
  {
    hide CompareVersions, Locale.Collates;
    var n := |titles| - 1;
    if n == 0 {
      k := 0;
      TiesItself(locale, version, titles[0]);
      return;
    }
    var before, last := titles[..n], titles[n];
    var j := BestIsChoice(locale, version, before);
    var best := before[j];
    if Improves(locale, version, best, last) {
      k := n;
      forall i | 0 <= i < |titles| && version(titles[i]).Some?
        ensures version(last).Some? && Loses(locale, version, titles[i], last, i < n)
      {
        if i < n {
          assert before[i] == titles[i];
          if version(best).Some? { BeatenTwice(locale, version, titles[i], best, last); }
        } else {
          TiesItself(locale, version, last);
        }
      }
      forall i | version(last).None? && 0 <= i < |titles|
        ensures Length(titles[i]) <= Length(last) && (i < n ==> Length(titles[i]) < Length(last))
      {
        if i < n { assert before[i] == titles[i]; }
      }
    } else {
      k := j;
      forall i | 0 <= i < |titles| && version(titles[i]).Some?
        ensures version(best).Some? && Loses(locale, version, titles[i], best, i < j)
      {
        if i < n { assert before[i] == titles[i]; }
      }
      forall i | version(best).None? && 0 <= i < |titles|
        ensures Length(titles[i]) <= Length(best) && (i < j ==> Length(titles[i]) < Length(best))
      {
        if i < n { assert before[i] == titles[i]; }
      }
    }
  }

  lemma BeatenTwice(locale: Locale, version: string -> Option<string>, title: string, best: string, last: string)
    requires locale.Collates() && version(title).Some? && version(best).Some? && version(last).Some?
    requires Loses(locale, version, title, best, false)
    requires CompareVersions(locale, version(last).value, version(best).value) > 0
    ensures Loses(locale, version, title, last, true)
  {
    VersionsAreOrdered(locale);
    var cmp := (a, b) => CompareVersions(locale, a, b);
    var (t, b, l) := (version(title).value, version(best).value, version(last).value);
    assert Orders.Opposite(cmp, b, l) && Orders.Opposite(cmp, l, t) && Orders.Opposite(cmp, t, l);
    assert Orders.Chains(cmp, t, b, l) && Orders.Chains(cmp, l, t, b);
  }

  /** `chooseDisplayTitle` over any titles with text in them. */
  lemma DisplayTitleIsChosen(locale: Locale, version: string -> Option<string>, titles: seq<string>, fallback: string)
    returns (k: nat)
    requires locale.Collates() && CleanAll(locale.SortStrings(titles)) != []
    ensures IsChoice(locale, version, CleanAll(locale.SortStrings(titles)), k)
    ensures ChooseDisplayTitle(locale, version, titles, fallback) == CleanAll(locale.SortStrings(titles))[k]
  {
    k := BestIsChoice(locale, version, CleanAll(locale.SortStrings(titles)));
  }

  /** With no title that holds text the fallback is shown, and a placeholder without one. */
  lemma FallbackIsShown(locale: Locale, version: string -> Option<string>, titles: seq<string>, fallback: string)
    requires forall title <- titles :: CleanText(title) == ""
    ensures ChooseDisplayTitle(locale, version, titles, fallback) ==
      if fallback == "" then "Untitled finding" else CleanText(fallback)
  {
    hide CleanText;
    forall x ensures x !in CleanAll(titles) {
      CleanAllMembers(titles, x);
    }
    assert CleanAll(titles) != [] ==> CleanAll(titles)[0] in CleanAll(titles);
    PlaceholderIsClean();
  }

  lemma PlaceholderIsClean()
    ensures CleanText("Untitled finding") == "Untitled finding" && CleanAll([]) == []
  {
    hide Collapse, Trim;
    CleanStays("Untitled finding");
  }

  /** The comparator of `sortSourceGroupsByTitleVersion`: named versions first, newest on top. */
  function CompareByVersion(locale: Locale, version: string -> Option<string>, a: string, b: string): int {
    match (version(a), version(b))
    case (Some(v), Some(w)) => CompareVersions(locale, w, v)
    case (Some(_), None) => -1
    case (None, Some(_)) => 1
    case (None, None) => locale.compare(CleanText(a), CleanText(b))
  }

  /** It is consistent, so the sort it drives is well defined. */
  lemma SourceGroupOrderIsConsistent(locale: Locale, version: string -> Option<string>)
    requires locale.Collates()
    ensures Orders.Consistent((a, b) => CompareByVersion(locale, version, a, b))
  {
    VersionsAreOrdered(locale);
    var cmp := (a, b) => CompareByVersion(locale, version, a, b);
    var versions := (a, b) => CompareVersions(locale, a, b);
    forall a ensures cmp(a, a) == 0 {
      if version(a).Some? { assert versions(version(a).value, version(a).value) == 0; }
    }
    forall a, b ensures Orders.Opposite(cmp, a, b) {
      if version(a).Some? && version(b).Some? {
        assert Orders.Opposite(versions, version(b).value, version(a).value);
      }
      assert Orders.Opposite(locale.compare, CleanText(a), CleanText(b));
    }
    forall a, b, c ensures Orders.Chains(cmp, a, b, c) {
      if version(a).Some? && version(b).Some? && version(c).Some? {
        assert Orders.Chains(versions, version(c).value, version(b).value, version(a).value);
      }
      assert Orders.Chains(locale.compare, CleanText(a), CleanText(b), CleanText(c));
    }
  }

  /** Titles that name a version come first, newest first, and the others follow by collation. */
  predicate IsNotAfter(locale: Locale, version: string -> Option<string>, a: string, b: string) {
    && (version(b).Some? ==> version(a).Some? && CompareVersions(locale, version(a).value, version(b).value) >= 0)
    && (version(a).None? && version(b).None? ==> locale.compare(CleanText(a), CleanText(b)) <= 0)
  }

  lemma ComparatorPutsNewestFirst(locale: Locale, version: string -> Option<string>, a: string, b: string)
    requires locale.Collates()
    ensures CompareByVersion(locale, version, a, b) <= 0 <==> IsNotAfter(locale, version, a, b)
  {
    hide CompareVersions;
    VersionsAreOrdered(locale);
    var cmp := (v, w) => CompareVersions(locale, v, w);
    if version(a).Some? && version(b).Some? {
      assert Orders.Opposite(cmp, version(a).value, version(b).value);
      assert Orders.Opposite(cmp, version(b).value, version(a).value);
    }
  }
}
