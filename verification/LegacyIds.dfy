/**
 * The finding ids printed into legacy sync keys (`sortFindingIds` in findingUtils.js,
 * `buildLegacyCompactedSyncKey` in compactionUtils.js), and when they depend on the order of arrival.
 *
 * They are sorted twice: as texts, and again with every digit string renumbered, so `01` and `1` print
 * alike and `0` not at all.
 */
module LegacyIds {
  import opened Options
  import opened OrderedMap
  import opened Text
  import opened Compaction
  import opened CompactionKeys
  import Numerals
  import Orders

  /** The ids listed behind `findings:` in a legacy key. */
  function PrintedIds(locale: Locale, ids: seq<string>): seq<string> {
    locale.SortStrings(RenumberAll(SortedIds(locale, ids)))
  }

  /** They are what such a key shows. */
  lemma LegacyKeyShowsPrintedIds(locale: Locale, ids: seq<string>)
    ensures ListText(locale, "findings:", RenumberAll(SortedIds(locale, ids))) ==
        "findings:" + Join(PrintedIds(locale, ids), ",")
  {
    hide CleanText, RenumberAll, SortedIds, Orders.Sort, Join;
    var renumbered := RenumberAll(SortedIds(locale, ids));
    forall x | x in CleanAll(renumbered) ensures x != "" && CleanText(x) == x {
      CleanAllMembers(renumbered, x);
      var v :| v in renumbered && CleanText(v) == x;
      CleanTextIsClean(v);
    }
    CleanAllOfClean(CleanAll(renumbered));
  }

  /** The finding ids of the group under `k`, or of one of its legacy sources. */
  function SourceIds(locale: Locale, fs: seq<Finding>, k: string, source: Option<string>): seq<string> {
    var groups := Grouped(locale, fs);
    if k !in groups.at then []
    else
      var g := groups.at[k];
      match source
      case None => g.originalIds
      case Some(l) => if l in g.legacySources.at then g.legacySources.at[l] else []
  }

  predicate InSource(f: Finding, k: string, source: Option<string>) {
    f.groupKey == k && (source.Some? ==> f.legacyKey == source.value)
  }

  /** Numerals tie with what they are renumbered to. */
  ghost predicate ZerosTie(locale: Locale) {
    forall id :: id != "" && Numerals.AllDigits(id, 10) ==>
      locale.compare(id, Numerals.Numeral(Numerals.Value(id, 10), 10)) == 0
  }

  /** No two ids tie that are printed differently. */
  ghost predicate PrintsApart(locale: Locale, ids: seq<string>) {
    Orders.Separates(locale.compare, CleanAll(RenumberAll(SortedIds(locale, ids))))
  }

  /** A digit string is printed as its number, whatever zeros lead it, and 0 not at all; other ids stay. */
  lemma RenumberTellsNumber(id: string, other: string)
    requires id != "" && other != "" && Numerals.AllDigits(id, 10) && Numerals.AllDigits(other, 10)
    ensures Renumber(id) == "" <==> Numerals.Value(id, 10) == 0
    ensures Renumber(id) == Renumber(other) <==> Numerals.Value(id, 10) == Numerals.Value(other, 10)
    ensures Numerals.AllDigits(Renumber(id), 10) && Numerals.Value(Renumber(id), 10) == Numerals.Value(id, 10)
  {
    Numerals.ReadingBack(Numerals.Value(id, 10), 10);
    Numerals.ReadingBack(Numerals.Value(other, 10), 10);
    Numerals.NothingRead(10);
  }

  lemma OtherIdsStay(id: string)
    requires !Numerals.AllDigits(id, 10)
    ensures Renumber(id) == id
  {
  }

  // ----- the ids a source collects -----

  lemma SourceGrows(locale: Locale, fs: seq<Finding>, k: string, source: Option<string>)
    requires fs != []
    ensures var (before, f) := (SourceIds(locale, fs[..|fs| - 1], k, source), fs[|fs| - 1]);
      SourceIds(locale, fs, k, source) ==
        if !InSource(f, k, source) then before else if source.None? then before + [f.id] else Add(before, f.id)
  {
    hide AddIfText, AddAll, HighestSeverity, ChooseRedmineSync, HigherTarget, LaterDate, AbsorbIntoSource;
  }

  ghost predicate Listed(fs: seq<Finding>, k: string, source: Option<string>, id: string) {
    exists f <- fs :: InSource(f, k, source) && f.id == id
  }

  lemma {:induction false} SourceMembers(locale: Locale, fs: seq<Finding>, k: string, source: Option<string>,
                                         id: string)
    ensures id in SourceIds(locale, fs, k, source) <==> Listed(fs, k, source, id)
  {
    hide SourceIds;
    if fs == [] {
      NothingListed(locale, k, source);
    } else {
      var before, last := fs[..|fs| - 1], fs[|fs| - 1];
      SourceMembers(locale, before, k, source, id);
      SourceGrows(locale, fs, k, source);
      assert fs == before + [last];
      assert Listed(fs, k, source, id) <==>
        Listed(before, k, source, id) || (InSource(last, k, source) && last.id == id);
    }
  }

  lemma {:induction false} FirstStaysFirst(locale: Locale, f: Finding, rest: seq<Finding>, k: string,
                                           source: Option<string>)
    requires InSource(f, k, source)
    ensures var ids := SourceIds(locale, [f] + rest, k, source); ids != [] && ids[0] == f.id
  {
    hide SourceIds;
    SourceGrows(locale, [f] + rest, k, source);
    if rest == [] {
      assert [f] + rest == [f] && [f][..0] == [];
      NothingListed(locale, k, source);
    } else {
      FirstStaysFirst(locale, f, rest[..|rest| - 1], k, source);
      assert ([f] + rest)[..|rest|] == [f] + rest[..|rest| - 1];
    }
  }

  lemma NothingListed(locale: Locale, k: string, source: Option<string>)
    ensures SourceIds(locale, [], k, source) == []
  {
  }

  // ----- ids that print apart -----

  lemma {:induction false} RenumberAllOfConcat(a: seq<string>, b: seq<string>)
    ensures RenumberAll(a + b) == RenumberAll(a) + RenumberAll(b)
  {
    if a == [] {
      assert a + b == b;
    } else {
      assert (a + b)[1..] == a[1..] + b;
      RenumberAllOfConcat(a[1..], b);
    }
  }

  lemma {:induction false} RenumberForgetsOrder(a: seq<string>, b: seq<string>)
    requires multiset(a) == multiset(b)
    ensures multiset(RenumberAll(a)) == multiset(RenumberAll(b))
    decreases |a|
  {
    hide Renumber;
    Orders.SameLength(a, b);
    if a != [] {
      var i := Orders.HeadElsewhere(a, b);
      RenumberForgetsOrder(a[1..], b[..i] + b[i + 1..]);
      RenumberAllOfConcat(b[..i], b[i + 1..]);
      RenumberAllOfConcat(b[..i], [a[0]] + b[i + 1..]);
      RenumberAllOfConcat([a[0]], b[i + 1..]);
      RenumberAllOfConcat([a[0]], a[1..]);
      assert a == [a[0]] + a[1..];
    }
  }

  lemma ApartIdsPrintAlike(locale: Locale, s: seq<string>, t: seq<string>)
    requires locale.Collates() && Range(s) == Range(t) && PrintsApart(locale, s)
    ensures PrintedIds(locale, s) == PrintedIds(locale, t)
  {
    var none: seq<string> := [];
    var a, b := Dedup(CleanAll(s)), Dedup(CleanAll(t));
    CleanRange(s, t);
    AddAllAdds(none, CleanAll(s));
    AddAllAdds(none, CleanAll(t));
    assert Range(none) == {};
    DistinctSameMembers(a, b);
    CleanAllForgetsOrder(a, b);
    Orders.SortKeepsMembers(locale.compare, CleanAll(a));
    Orders.SortKeepsMembers(locale.compare, CleanAll(b));
    RenumberForgetsOrder(SortedIds(locale, s), SortedIds(locale, t));
    SortStringsForgetsOrder(locale, RenumberAll(SortedIds(locale, s)), RenumberAll(SortedIds(locale, t)));
  }

  // ----- ids that do not -----

  lemma {:induction false} DigitsAreSolid(s: string)
    requires Numerals.AllDigits(s, 10)
    ensures forall c <- s :: !IsSpace(c)
  {
    if s != "" {
      DigitsAreSolid(s[..|s| - 1]);
      assert s == s[..|s| - 1] + [s[|s| - 1]];
    }
  }

  lemma RenumberedIsClean(id: string)
    requires CleanText(id) == id
    ensures CleanText(Renumber(id)) == Renumber(id)
  {
    if id != "" && Numerals.AllDigits(id, 10) {
      Numerals.ReadingBack(Numerals.Value(id, 10), 10);
      DigitsAreSolid(Renumber(id));
    }
    CleanTextIsClean(id);
    assert Collapsed(Renumber(id)) && Trimmed(Renumber(id));
    CleanStays(Renumber(id));
  }

  lemma {:induction false} RenumberAllMembers(s: seq<string>, x: string)
    requires forall id <- s :: CleanText(id) == id
    ensures x in CleanAll(RenumberAll(s)) <==> x != "" && exists id <- s :: Renumber(id) == x
  {
    hide CleanText, Renumber;
    if s != [] {
      assert s[0] in s && forall id <- s[1..] :: id in s;
      RenumberAllMembers(s[1..], x);
      RenumberedIsClean(s[0]);
      assert s == [s[0]] + s[1..];
    }
  }

  /** In a list that begins its ties with `u`, renumbering leaves `u` renumbered at the head of its ties. */
  lemma {:induction false} HeadOfTiesStays(locale: Locale, s: seq<string>, u: string)
    requires locale.Collates() && ZerosTie(locale) && CleanText(u) == u && Renumber(u) != ""
    requires forall id <- s :: CleanText(id) == id
    requires var ties := Orders.Ties(locale.compare, u, s); ties != [] && ties[0] == u
    ensures var ties := Orders.Ties(locale.compare, Renumber(u), CleanAll(RenumberAll(s)));
      ties != [] && ties[0] == Renumber(u)
  {
    hide CleanText, Renumber;
    var v := s[0];
    assert v in s && forall id <- s[1..] :: id in s;
    RenumberedIsClean(v);
    TiesWithRenumbered(locale, u);
    TiesWithRenumbered(locale, v);
    if locale.compare(v, u) == 0 {
      assert locale.compare(Renumber(u), Renumber(u)) == 0;
    } else {
      HeadOfTiesStays(locale, s[1..], u);
      TiesAreTransitive(locale, u, v);
      var printed := CleanAll(RenumberAll(s[1..]));
      assert CleanAll(RenumberAll(s)) == (if Renumber(v) == "" then [] else [Renumber(v)]) + printed by {
        assert RenumberAll(s)[1..] == RenumberAll(s[1..]);
      }
      Orders.TiesOfConcat(locale.compare, Renumber(u), [Renumber(v)], printed);
      assert [] + printed == printed;
    }
  }

  lemma TiesWithRenumbered(locale: Locale, id: string)
    requires locale.Collates() && ZerosTie(locale)
    ensures Renumber(id) != "" ==> locale.compare(id, Renumber(id)) == 0
  {
  }

  lemma TiesAreTransitive(locale: Locale, u: string, v: string)
    requires locale.Collates() && locale.compare(v, u) != 0
    requires locale.compare(u, Renumber(u)) == 0
    ensures locale.compare(v, Renumber(v)) == 0 ==> locale.compare(Renumber(v), Renumber(u)) != 0
  {
    hide Renumber;
    var (x, y) := (Renumber(u), Renumber(v));
    assert Orders.Opposite(locale.compare, u, x) && Orders.Opposite(locale.compare, v, y);
    assert Orders.Opposite(locale.compare, y, x) && Orders.Opposite(locale.compare, v, u);
    assert Orders.Opposite(locale.compare, u, v);
    assert Orders.Chains(locale.compare, v, y, x) && Orders.Chains(locale.compare, v, x, u);
    assert Orders.Chains(locale.compare, x, y, v) && Orders.Chains(locale.compare, u, x, v);
  }

  lemma SortedIdsAreClean(locale: Locale, ids: seq<string>)
    ensures forall id <- SortedIds(locale, ids) :: id != "" && CleanText(id) == id
    ensures CleanAll(Dedup(CleanAll(ids))) == Dedup(CleanAll(ids))
    ensures forall id :: id in SortedIds(locale, ids) <==> id in CleanAll(ids)
  {
    hide CleanText;
    var none: seq<string> := [];
    var cleaned, dedup := CleanAll(ids), Dedup(CleanAll(ids));
    AddAllAdds(none, cleaned);
    forall id ensures id in dedup <==> id in cleaned {
      assert id in dedup <==> id in Range(dedup);
      assert id in cleaned <==> id in Range(cleaned);
    }
    forall id | id in cleaned ensures id != "" && CleanText(id) == id {
      CleanAllMembers(ids, id);
      var v :| v in ids && CleanText(v) == id;
      CleanTextIsClean(v);
    }
    CleanAllOfClean(dedup);
    Orders.SortKeepsMembers(locale.compare, dedup);
    forall id ensures id in SortedIds(locale, ids) <==> id in cleaned {
      assert id in SortedIds(locale, ids) <==> id in multiset(SortedIds(locale, ids));
      assert id in dedup <==> id in multiset(dedup);
    }
  }

  lemma {:induction false} DedupKeepsFirst(items: seq<string>)
    requires items != []
    ensures Dedup(items) != [] && Dedup(items)[0] == items[0]
  {
    var init: seq<string> := items[..|items| - 1];
    assert Dedup(items) == Add(Dedup(init), items[|items| - 1]);
    if init == [] {
      assert Dedup(init) == [];
    } else {
      DedupKeepsFirst(init);
    }
  }

  lemma FirstIdHeadsItsTies(locale: Locale, ids: seq<string>)
    requires locale.Collates() && ZerosTie(locale) && ids != []
    requires var u := CleanText(ids[0]); u != "" && Renumber(u) != ""
    ensures var x := Renumber(CleanText(ids[0]));
      var ties := Orders.Ties(locale.compare, x, PrintedIds(locale, ids)); ties != [] && ties[0] == x
  {
    hide CleanText, Renumber, RenumberAll;
    var u := CleanText(ids[0]);
    CleanTextIsClean(ids[0]);
    assert CleanAll(ids)[0] == u;
    DedupKeepsFirst(CleanAll(ids));
    SortedIdsAreClean(locale, ids);
    assert locale.compare(u, u) == 0;
    Orders.SortIsStable(locale.compare, Dedup(CleanAll(ids)), u);
    var sorted := SortedIds(locale, ids);
    HeadOfTiesStays(locale, sorted, u);
    Orders.SortIsStable(locale.compare, CleanAll(RenumberAll(sorted)), Renumber(u));
  }

  /** Some order of the findings heads the printed ties of a given id with it. */
  lemma IdCanPrintFirst(locale: Locale, a: seq<Finding>, k: string, source: Option<string>, x: string)
    returns (b: seq<Finding>)
    requires locale.Collates() && ZerosTie(locale)
    requires x in CleanAll(RenumberAll(SortedIds(locale, SourceIds(locale, a, k, source))))
    ensures multiset(b) == multiset(a)
    ensures var ties := Orders.Ties(locale.compare, x, PrintedIds(locale, SourceIds(locale, b, k, source)));
      ties != [] && ties[0] == x
  {
    hide CleanText, Renumber, RenumberAll, SourceIds, PrintedIds, SortedIds;
    var ids := SourceIds(locale, a, k, source);
    SortedIdsAreClean(locale, ids);
    RenumberAllMembers(SortedIds(locale, ids), x);
    var u :| u in SortedIds(locale, ids) && Renumber(u) == x;
    CleanAllMembers(ids, u);
    var id :| id in ids && CleanText(id) == u;
    SourceMembers(locale, a, k, source, id);
    var f :| f in a && InSource(f, k, source) && f.id == id;
    var i :| 0 <= i < |a| && a[i] == f;
    b := [f] + (a[..i] + a[i + 1..]);
    assert a == a[..i] + ([f] + a[i + 1..]);
    Orders.Joined(a[..i], f, a[i + 1..]);
    FirstStaysFirst(locale, f, a[..i] + a[i + 1..], k, source);
    FirstIdHeadsItsTies(locale, SourceIds(locale, b, k, source));
  }

  /** Every order of the findings prints the same ids. */
  ghost predicate PrintsAlike(locale: Locale, a: seq<Finding>, k: string, source: Option<string>) {
    forall b: seq<Finding> :: multiset(b) == multiset(a) ==>
        PrintedIds(locale, SourceIds(locale, b, k, source)) == PrintedIds(locale, SourceIds(locale, a, k, source))
  }

  /** The finding ids printed into the legacy keys of a group, under its own key or an earlier release's,
      are the same for every order of the findings exactly when no two that print differently tie. */
  lemma PrintedIdsForgetOrderExactly(locale: Locale, a: seq<Finding>, k: string, source: Option<string>)
    requires locale.Collates() && ZerosTie(locale)
    ensures PrintsAlike(locale, a, k, source) <==> PrintsApart(locale, SourceIds(locale, a, k, source))
  {
    hide SourceIds, PrintedIds, SortedIds, RenumberAll, Listed;
    var ids := SourceIds(locale, a, k, source);
    if PrintsApart(locale, ids) {
      forall b: seq<Finding> | multiset(b) == multiset(a)
        ensures PrintedIds(locale, SourceIds(locale, b, k, source)) == PrintedIds(locale, ids)
      {
        SameSourceRange(locale, a, b, k, source);
        ApartIdsPrintAlike(locale, ids, SourceIds(locale, b, k, source));
      }
    } else {
      var printed := CleanAll(RenumberAll(SortedIds(locale, ids)));
      var i, j :| 0 <= i < |printed| && 0 <= j < |printed|
        && locale.compare(printed[i], printed[j]) == 0 && printed[i] != printed[j];
      var b := IdCanPrintFirst(locale, a, k, source, printed[i]);
      var c := IdCanPrintFirst(locale, a, k, source, printed[j]);
      Orders.SameTies(locale.compare, printed[i], printed[j], PrintedIds(locale, SourceIds(locale, b, k, source)));
      assert PrintedIds(locale, SourceIds(locale, b, k, source)) != PrintedIds(locale, SourceIds(locale, c, k, source));
    }
  }

  lemma SameSourceRange(locale: Locale, a: seq<Finding>, b: seq<Finding>, k: string, source: Option<string>)
    requires multiset(a) == multiset(b)
    ensures Range(SourceIds(locale, a, k, source)) == Range(SourceIds(locale, b, k, source))
  {
    hide SourceIds;
    forall f ensures f in a <==> f in b {
      assert f in a <==> f in multiset(a);
      assert f in b <==> f in multiset(b);
    }
    forall id ensures id in SourceIds(locale, a, k, source) <==> id in SourceIds(locale, b, k, source) {
      SourceMembers(locale, a, k, source, id);
      SourceMembers(locale, b, k, source, id);
    }
  }
}
