/**
 * From groups to tickets: the sync keys derived from a group, and the order of its source groups
 * (buildFallbackCompactedFindings.js from line 222 on, compactionUtils.js).
 */
module CompactionKeys {
  import opened Options
  import opened OrderedMap
  import opened Text
  import opened Compaction
  import opened CompactionOrder
  import Numerals
  import Orders
  import StableHash
  import opened TicketContents
  import Titles
  import Versions

  /** The pull filters that stand in for missing product and engagement ids, cleaned. */
  datatype Config = Config(pullProject: string, pullEngagement: string)

  /** `Array.from(new Set(items))` */
  function Dedup(items: seq<string>): seq<string> { AddAll([], items) }

  function OrPull(ids: seq<string>, pull: string): seq<string> {
    if ids == [] && pull != "" then [pull] else ids
  }

  function ProductIds(locale: Locale, config: Config, g: Group): seq<string> {
    OrPull(locale.SortStrings(g.projectIds), config.pullProject)
  }

  function EngagementIds(locale: Locale, config: Config, g: Group): seq<string> {
    OrPull(locale.SortStrings(g.engagementIds), config.pullEngagement)
  }

  /** The cleaned ids a group names, or the pull filter if it names none. */
  ghost predicate IsScopeId(ids: seq<string>, pull: string, id: string) {
    if forall x <- ids :: CleanText(x) == "" then id == pull != ""
    else id != "" && exists x <- ids :: CleanText(x) == id
  }

  lemma OrPullHolds(locale: Locale, ids: seq<string>, pull: string, id: string)
    ensures id in OrPull(locale.SortStrings(ids), pull) <==> IsScopeId(ids, pull, id)
  {
    hide CleanText;
    var sorted := locale.SortStrings(ids);
    Orders.SortKeepsMembers(locale.compare, CleanAll(ids));
    forall x ensures x in sorted <==> x != "" && exists v <- ids :: CleanText(v) == x {
      CleanAllMembers(ids, x);
      assert x in sorted <==> x in multiset(sorted);
      assert x in CleanAll(ids) <==> x in multiset(CleanAll(ids));
    }
    if sorted != [] {
      assert sorted[0] in sorted;
    } else {
      forall v | v in ids ensures CleanText(v) == "" {
        assert CleanText(v) !in sorted;
      }
    }
  }

  /** A ticket is filed under exactly the product and engagement ids its group names, or the pull filters where
      it names none. */
  lemma ScopeIdsAreNamed(locale: Locale, config: Config, g: Group, id: string)
    ensures id in ProductIds(locale, config, g) <==> IsScopeId(g.projectIds, config.pullProject, id)
    ensures id in EngagementIds(locale, config, g) <==> IsScopeId(g.engagementIds, config.pullEngagement, id)
  {
    OrPullHolds(locale, g.projectIds, config.pullProject, id);
    OrPullHolds(locale, g.engagementIds, config.pullEngagement, id);
  }

  /** A digit string becomes a number; as key text that drops leading zeros, and 0 altogether. */
  function Renumber(id: string): string {
    if id != "" && Numerals.AllDigits(id, 10) then
      var n := Numerals.Value(id, 10);
      if n == 0 then "" else Numerals.Numeral(n, 10)
    else id
  }

  function RenumberAll(ids: seq<string>): seq<string> {
    if ids == [] then [] else [Renumber(ids[0])] + RenumberAll(ids[1..])
  }

  function SortedIds(locale: Locale, ids: seq<string>): seq<string> {
    locale.SortStrings(Dedup(CleanAll(ids)))
  }

  function ListText(locale: Locale, head: string, ids: seq<string>): string {
    head + Join(locale.SortStrings(CleanAll(ids)), ",")
  }

  function SyncKey(source: string): string { "dd-compact-" + StableHash.Hash(StableHash.Units(source)) }

  /** The text that is hashed into a compacted sync key. */
  function KeySource(locale: Locale, groupKey: string, productIds: seq<string>, engagementIds: seq<string>): string {
    Join(["group:" + groupKey,
          ListText(locale, "products:", productIds),
          ListText(locale, "engagements:", engagementIds)], "|")
  }

  function CompactedKey(locale: Locale, config: Config, g: Group): string {
    SyncKey(KeySource(locale, g.key, ProductIds(locale, config, g), EngagementIds(locale, config, g)))
  }

  /** The text that is hashed into a legacy key. */
  function LegacySource(locale: Locale, groupKey: string, findingIds: seq<string>,
                        productIds: seq<string>, engagementIds: seq<string>): string {
    Join(["group:" + groupKey,
          ListText(locale, "findings:", findingIds),
          ListText(locale, "products:", productIds),
          ListText(locale, "engagements:", engagementIds)], "|")
  }

  function LegacyKey(locale: Locale, config: Config, g: Group, groupKey: string, ids: seq<string>): string {
    SyncKey(LegacySource(locale, groupKey, RenumberAll(SortedIds(locale, ids)),
                         ProductIds(locale, config, g), EngagementIds(locale, config, g)))
  }

  /** The keys earlier releases may have filed this group under. */
  function LegacyKeys(locale: Locale, config: Config, g: Group): set<string> {
    {LegacyKey(locale, config, g, g.key, g.originalIds)}
    + (set k | k in g.legacySources.at :: LegacyKey(locale, config, g, k, g.legacySources.at[k]))
    - {CompactedKey(locale, config, g)}
  }

  // ----- the ids a group collects -----

  function ProductOf(f: Finding): string { f.projectId }
  function EngagementOf(f: Finding): string { f.engagementId }

  /** The ids that the findings under a group key name, in order of arrival. */
  function IdsUnder(of: Finding -> string, fs: seq<Finding>, k: string): seq<string> {
    if fs == [] then []
    else
      var last := fs[|fs| - 1];
      var before := IdsUnder(of, fs[..|fs| - 1], k);
      if last.groupKey == k then AddIfText(before, of(last)) else before
  }

  lemma AbsorbedIds(locale: Locale, gs: Groups, f: Finding)
    ensures var g := if f.groupKey in gs.at then gs.at[f.groupKey] else NewGroup(f);
      Absorb(locale, gs, f).at == gs.at[f.groupKey := AbsorbIntoGroup(locale, g, f)]
      && AbsorbIntoGroup(locale, g, f).projectIds == AddIfText(g.projectIds, f.projectId)
      && AbsorbIntoGroup(locale, g, f).engagementIds == AddIfText(g.engagementIds, f.engagementId)
  {
    hide AddIfText, AddAll, HighestSeverity, ChooseRedmineSync, HigherTarget, LaterDate, AbsorbIntoSource;
  }

  lemma {:induction false} GroupHoldsIds(locale: Locale, fs: seq<Finding>, k: string)
    ensures var groups := Grouped(locale, fs).at;
      if k in groups then groups[k].projectIds == IdsUnder(ProductOf, fs, k)
          && groups[k].engagementIds == IdsUnder(EngagementOf, fs, k)
      else IdsUnder(ProductOf, fs, k) == [] && IdsUnder(EngagementOf, fs, k) == []
  {
    hide Absorb, AbsorbIntoGroup, AddIfText;
    if fs != [] {
      GroupHoldsIds(locale, fs[..|fs| - 1], k);
      AbsorbedIds(locale, Grouped(locale, fs[..|fs| - 1]), fs[|fs| - 1]);
    }
  }

  ghost predicate Named(of: Finding -> string, fs: seq<Finding>, k: string, id: string) {
    exists f <- fs :: f.groupKey == k && of(f) == id
  }

  lemma {:induction false} IdsUnderMembers(of: Finding -> string, fs: seq<Finding>, k: string, id: string)
    ensures Distinct(IdsUnder(of, fs, k))
    ensures id in IdsUnder(of, fs, k) <==> id != "" && Named(of, fs, k, id)
  {
    if fs != [] {
      var before, last := fs[..|fs| - 1], fs[|fs| - 1];
      IdsUnderMembers(of, before, k, id);
      assert fs == before + [last];
      assert Named(of, fs, k, id) <==> Named(of, before, k, id) || (last.groupKey == k && of(last) == id);
      AddIfTextAdds(IdsUnder(of, before, k), of(last));
    }
  }

  /** The first finding's id stays first. */
  lemma {:induction false} FirstIdStays(of: Finding -> string, f: Finding, rest: seq<Finding>)
    requires of(f) != ""
    ensures IdsUnder(of, [f] + rest, f.groupKey) != [] && IdsUnder(of, [f] + rest, f.groupKey)[0] == of(f)
  {
    if rest == [] {
      assert [f] + rest == [f] && [f][..0] == [];
    } else {
      FirstIdStays(of, f, rest[..|rest| - 1]);
      assert ([f] + rest)[..|rest|] == [f] + rest[..|rest| - 1];
    }
  }

  function SortedUnder(locale: Locale, of: Finding -> string, fs: seq<Finding>, k: string): seq<string> {
    locale.SortStrings(IdsUnder(of, fs, k))
  }

  ghost predicate NoTiesUnder(locale: Locale, of: Finding -> string, fs: seq<Finding>, k: string) {
    Orders.Separates(locale.compare, CleanAll(IdsUnder(of, fs, k)))
  }

  lemma NamedAnywhere(of: Finding -> string, a: seq<Finding>, b: seq<Finding>, k: string, id: string)
    requires multiset(a) == multiset(b)
    ensures Named(of, a, k, id) <==> Named(of, b, k, id)
  {
    forall f ensures f in a <==> f in b {
      assert f in a <==> f in multiset(a);
      assert f in b <==> f in multiset(b);
    }
  }

  lemma SeparateIdsForgetOrder(locale: Locale, of: Finding -> string, a: seq<Finding>, b: seq<Finding>, k: string)
    requires locale.Collates() && multiset(a) == multiset(b) && NoTiesUnder(locale, of, a, k)
    ensures SortedUnder(locale, of, a, k) == SortedUnder(locale, of, b, k)
  {
    forall id ensures id in IdsUnder(of, a, k) <==> id in IdsUnder(of, b, k) {
      IdsUnderMembers(of, a, k, id);
      IdsUnderMembers(of, b, k, id);
      NamedAnywhere(of, a, b, k, id);
    }
    IdsUnderMembers(of, a, k, "");
    IdsUnderMembers(of, b, k, "");
    assert Range(IdsUnder(of, a, k)) == Range(IdsUnder(of, b, k));
    SortOfSameSet(locale, IdsUnder(of, a, k), IdsUnder(of, b, k));
  }

  /** Some order of the findings in which the sorted ids begin their ties with a given one. */
  lemma IdCanComeFirst(locale: Locale, of: Finding -> string, a: seq<Finding>, k: string, id: string)
    returns (b: seq<Finding>)
    requires locale.Collates() && id in IdsUnder(of, a, k) && CleanText(id) != ""
    ensures multiset(b) == multiset(a)
    ensures var ties := Orders.Ties(locale.compare, CleanText(id), SortedUnder(locale, of, b, k));
      ties != [] && ties[0] == CleanText(id)
  {
    hide CleanText;
    IdsUnderMembers(of, a, k, id);
    var f :| f in a && f.groupKey == k && of(f) == id;
    var i :| 0 <= i < |a| && a[i] == f;
    b := [f] + (a[..i] + a[i + 1..]);
    assert a == a[..i] + ([f] + a[i + 1..]);
    Orders.Joined(a[..i], f, a[i + 1..]);
    FirstIdStays(of, f, a[..i] + a[i + 1..]);
    var ids := IdsUnder(of, b, k);
    assert CleanAll(ids)[0] == CleanText(id);
    assert locale.compare(CleanText(id), CleanText(id)) == 0;
    Orders.SortIsStable(locale.compare, CleanAll(ids), CleanText(id));
  }

  /** Two orders of the findings whose sorted ids differ, when two different ones tie. */
  lemma TiedIdsDependOnOrder(locale: Locale, of: Finding -> string, a: seq<Finding>, k: string)
    returns (b: seq<Finding>, c: seq<Finding>)
    requires locale.Collates() && !NoTiesUnder(locale, of, a, k)
    ensures multiset(b) == multiset(c) == multiset(a)
    ensures SortedUnder(locale, of, b, k) != SortedUnder(locale, of, c, k)
    ensures SortedUnder(locale, of, b, k) != [] && SortedUnder(locale, of, c, k) != []
  {
    hide CleanText, SortedUnder;
    var ids := IdsUnder(of, a, k);
    var cleaned := CleanAll(ids);
    var i, j :| 0 <= i < |cleaned| && 0 <= j < |cleaned| && locale.compare(cleaned[i], cleaned[j]) == 0
        && cleaned[i] != cleaned[j];
    CleanAllMembers(ids, cleaned[i]);
    CleanAllMembers(ids, cleaned[j]);
    var x :| x in ids && CleanText(x) == cleaned[i];
    var y :| y in ids && CleanText(y) == cleaned[j];
    b := IdCanComeFirst(locale, of, a, k, x);
    c := IdCanComeFirst(locale, of, a, k, y);
    Orders.SameTies(locale.compare, cleaned[i], cleaned[j], SortedUnder(locale, of, b, k));
    assert Orders.Ties(locale.compare, CleanText(x), []) == [];
  }

  // ----- the keys do not depend on arrival, unless ids tie -----

  ghost predicate Repeatless(g: Group) { Distinct(g.projectIds) && Distinct(g.engagementIds) }

  lemma GroupsAreRepeatless(locale: Locale, fs: seq<Finding>, k: string)
    requires k in Grouped(locale, fs).at
    ensures Repeatless(Grouped(locale, fs).at[k])
  {
    GroupHoldsIds(locale, fs, k);
    IdsUnderMembers(ProductOf, fs, k, "");
    IdsUnderMembers(EngagementOf, fs, k, "");
  }

  lemma SortOfSameSet(locale: Locale, s: seq<string>, t: seq<string>)
    requires locale.Collates() && Distinct(s) && Distinct(t) && Range(s) == Range(t)
    requires Orders.Separates(locale.compare, CleanAll(s))
    ensures locale.SortStrings(s) == locale.SortStrings(t)
  {
    DistinctSameMembers(s, t);
    SortStringsForgetsOrder(locale, s, t);
  }

  lemma CleanRange(s: seq<string>, t: seq<string>)
    requires Range(s) == Range(t)
    ensures Range(CleanAll(s)) == Range(CleanAll(t))
  {
    forall v ensures v in s <==> v in t {
      assert v in Range(s) <==> v in Range(t);
    }
    forall x ensures x in CleanAll(s) <==> x in CleanAll(t) {
      CleanAllMembers(s, x);
      CleanAllMembers(t, x);
    }
  }

  lemma SortedIdsOfSameSet(locale: Locale, s: seq<string>, t: seq<string>)
    requires locale.Collates() && Range(s) == Range(t)
    requires Orders.Separates(locale.compare, CleanAll(Dedup(CleanAll(s))))
    ensures SortedIds(locale, s) == SortedIds(locale, t)
  {
    CleanRange(s, t);
    AddAllAdds([], CleanAll(s));
    AddAllAdds([], CleanAll(t));
    var none: seq<string> := [];
    assert Range(none) == {};
    SortOfSameSet(locale, Dedup(CleanAll(s)), Dedup(CleanAll(t)));
  }

  /** No two different ids of the group collate as equal. */
  ghost predicate NoTies(locale: Locale, g: Group) {
    && Orders.Separates(locale.compare, CleanAll(g.projectIds))
    && Orders.Separates(locale.compare, CleanAll(g.engagementIds))
    && Orders.Separates(locale.compare, CleanAll(Dedup(CleanAll(g.originalIds))))
    && (forall k <- g.legacySources.at ::
        Orders.Separates(locale.compare, CleanAll(Dedup(CleanAll(g.legacySources.at[k])))))
  }

  lemma SameTallySameKeys(locale: Locale, config: Config, g: Group, h: Group)
    requires locale.Collates() && NoTies(locale, g) && Repeatless(g) && Repeatless(h)
    requires TallyOf(g) == TallyOf(h) && g.key == h.key
    ensures CompactedKey(locale, config, g) == CompactedKey(locale, config, h)
    ensures LegacyKeys(locale, config, g) == LegacyKeys(locale, config, h)
  {
    hide SyncKey, ListText, Join, RenumberAll, SortedIds, SeverityRank, SourceTallyOf;
    SortOfSameSet(locale, g.projectIds, h.projectIds);
    SortOfSameSet(locale, g.engagementIds, h.engagementIds);
    SameMultisetSameRange(g.originalIds, h.originalIds);
    SortedIdsOfSameSet(locale, g.originalIds, h.originalIds);
    assert g.legacySources.at.Keys == TallyOf(g).legacy.Keys == TallyOf(h).legacy.Keys == h.legacySources.at.Keys;
    forall k | k in g.legacySources.at
      ensures LegacyKey(locale, config, g, k, g.legacySources.at[k]) ==
          LegacyKey(locale, config, h, k, h.legacySources.at[k])
    {
      assert TallyOf(g).legacy[k] == TallyOf(h).legacy[k];
      SortedIdsOfSameSet(locale, g.legacySources.at[k], h.legacySources.at[k]);
    }
  }

  lemma SameMultisetSameRange(s: seq<string>, t: seq<string>)
    requires multiset(s) == multiset(t)
    ensures Range(s) == Range(t)
  {
    forall x ensures x in s <==> x in t {
      assert x in s <==> x in multiset(s);
      assert x in t <==> x in multiset(t);
    }
  }

  /** Permuting the findings leaves the set of legacy keys of each group as it was, when no two
      different ids of the group collate as equal. */
  lemma LegacyKeysForgetOrder(locale: Locale, config: Config, a: seq<Finding>, b: seq<Finding>, k: string)
    requires locale.Collates() && multiset(a) == multiset(b) && k in Grouped(locale, a).at
    requires NoTies(locale, Grouped(locale, a).at[k])
    ensures k in Grouped(locale, b).at
    ensures LegacyKeys(locale, config, Grouped(locale, a).at[k]) == LegacyKeys(locale, config, Grouped(locale, b).at[k])
  {
    hide NoTies, TallyOf, CompactedKey, LegacyKeys, Repeatless, Holds;
    OrderDoesNotMatter(locale, a, b);
    assert k in TalliesOf(Grouped(locale, a)) && k in TalliesOf(Grouped(locale, b));
    GroupsAreRepeatless(locale, a, k);
    GroupsAreRepeatless(locale, b, k);
    GroupsPartitionFindings(locale, a);
    GroupsPartitionFindings(locale, b);
    var g, h := Grouped(locale, a).at[k], Grouped(locale, b).at[k];
    assert TallyOf(g) == TalliesOf(Grouped(locale, a))[k] == TalliesOf(Grouped(locale, b))[k] == TallyOf(h);
    SameTallySameKeys(locale, config, g, h);
  }

  // ----- exactly when the keys depend on arrival -----

  function ProductsOf(locale: Locale, config: Config, fs: seq<Finding>, k: string): seq<string> {
    var groups := Grouped(locale, fs);
    if k in groups.at then ProductIds(locale, config, groups.at[k]) else []
  }

  function EngagementsOf(locale: Locale, config: Config, fs: seq<Finding>, k: string): seq<string> {
    var groups := Grouped(locale, fs);
    if k in groups.at then EngagementIds(locale, config, groups.at[k]) else []
  }

  /** The text hashed into the compacted key of the group under `k`. */
  function KeySourceOf(locale: Locale, config: Config, fs: seq<Finding>, k: string): string {
    KeySource(locale, k, ProductsOf(locale, config, fs, k), EngagementsOf(locale, config, fs, k))
  }

  lemma SameGroups(locale: Locale, a: seq<Finding>, b: seq<Finding>, k: string)
    requires multiset(a) == multiset(b) && k in Grouped(locale, a).at
    ensures k in Grouped(locale, b).at
  {
    hide Grouped;
    OrderDoesNotMatter(locale, a, b);
    assert k in TalliesOf(Grouped(locale, a)) && k in TalliesOf(Grouped(locale, b));
  }

  lemma ScopeIdsAre(locale: Locale, config: Config, fs: seq<Finding>, k: string)
    requires k in Grouped(locale, fs).at
    ensures ProductsOf(locale, config, fs, k) == OrPull(SortedUnder(locale, ProductOf, fs, k), config.pullProject)
    ensures EngagementsOf(locale, config, fs, k) ==
        OrPull(SortedUnder(locale, EngagementOf, fs, k), config.pullEngagement)
  {
    hide Grouped, Orders.Sort;
    GroupHoldsIds(locale, fs, k);
  }

  /** Every order of the findings gives the group the same sorted ids. */
  ghost predicate SameForEveryOrder(locale: Locale, of: Finding -> string, a: seq<Finding>, k: string) {
    forall b: seq<Finding> :: multiset(b) == multiset(a) ==>
        SortedUnder(locale, of, b, k) == SortedUnder(locale, of, a, k)
  }

  /** The sorted ids of a group are the same for every order of the findings exactly when no two
      different ones collate as equal (`1` and `01` do). */
  lemma SortedIdsForgetOrderExactly(locale: Locale, of: Finding -> string, a: seq<Finding>, k: string)
    requires locale.Collates()
    ensures SameForEveryOrder(locale, of, a, k) <==> NoTiesUnder(locale, of, a, k)
  {
    hide SortedUnder, NoTiesUnder;
    if NoTiesUnder(locale, of, a, k) {
      forall b: seq<Finding> | multiset(b) == multiset(a)
        ensures SortedUnder(locale, of, b, k) == SortedUnder(locale, of, a, k)
      {
        SeparateIdsForgetOrder(locale, of, a, b, k);
      }
    } else {
      var b, c := TiedIdsDependOnOrder(locale, of, a, k);
    }
  }

  lemma ScopeIdsOfEveryOrder(locale: Locale, config: Config, a: seq<Finding>, k: string)
    requires k in Grouped(locale, a).at
    ensures forall b: seq<Finding> :: multiset(b) == multiset(a) ==>
      && ProductsOf(locale, config, b, k) == OrPull(SortedUnder(locale, ProductOf, b, k), config.pullProject)
      && EngagementsOf(locale, config, b, k) == OrPull(SortedUnder(locale, EngagementOf, b, k), config.pullEngagement)
  {
    hide ProductsOf, EngagementsOf, SortedUnder, Grouped;
    forall b: seq<Finding> | multiset(b) == multiset(a)
      ensures ProductsOf(locale, config, b, k) == OrPull(SortedUnder(locale, ProductOf, b, k), config.pullProject)
      ensures EngagementsOf(locale, config, b, k) ==
          OrPull(SortedUnder(locale, EngagementOf, b, k), config.pullEngagement)
    {
      SameGroups(locale, a, b, k);
      ScopeIdsAre(locale, config, b, k);
    }
  }

  /** The product ids a ticket is filed under are the same for every order of the findings exactly when
      no two different ones of the group collate as equal, and so are its engagement ids. */
  lemma ScopeIdsForgetOrderExactly(locale: Locale, config: Config, a: seq<Finding>, k: string)
    requires locale.Collates() && k in Grouped(locale, a).at
    ensures
      (forall b: seq<Finding> :: multiset(b) == multiset(a) ==>
         ProductsOf(locale, config, b, k) == ProductsOf(locale, config, a, k))
      <==> NoTiesUnder(locale, ProductOf, a, k)
    ensures
      (forall b: seq<Finding> :: multiset(b) == multiset(a) ==>
         EngagementsOf(locale, config, b, k) == EngagementsOf(locale, config, a, k))
      <==> NoTiesUnder(locale, EngagementOf, a, k)
  {
    hide ProductsOf, EngagementsOf, SortedUnder, NoTiesUnder, Grouped;
    ScopeIdsOfEveryOrder(locale, config, a, k);
    SortedIdsForgetOrderExactly(locale, ProductOf, a, k);
    SortedIdsForgetOrderExactly(locale, EngagementOf, a, k);
    if !NoTiesUnder(locale, ProductOf, a, k) {
      var b, c := TiedIdsDependOnOrder(locale, ProductOf, a, k);
      assert ProductsOf(locale, config, b, k) != ProductsOf(locale, config, c, k);
    }
    if !NoTiesUnder(locale, EngagementOf, a, k) {
      var b, c := TiedIdsDependOnOrder(locale, EngagementOf, a, k);
      assert EngagementsOf(locale, config, b, k) != EngagementsOf(locale, config, c, k);
    }
  }

  /** So does the compacted key: it asks nothing of finding ids, which it does not hold. */
  lemma CompactedKeyForgetsOrder(locale: Locale, config: Config, a: seq<Finding>, b: seq<Finding>, k: string)
    requires locale.Collates() && multiset(a) == multiset(b) && k in Grouped(locale, a).at
    requires NoTiesUnder(locale, ProductOf, a, k) && NoTiesUnder(locale, EngagementOf, a, k)
    ensures k in Grouped(locale, b).at
    ensures CompactedKey(locale, config, Grouped(locale, a).at[k]) ==
        CompactedKey(locale, config, Grouped(locale, b).at[k])
  {
    hide SyncKey, KeySource, NoTiesUnder, ProductIds, EngagementIds, Grouped, Having, Holds;
    SameGroups(locale, a, b, k);
    GroupsPartitionFindings(locale, a);
    GroupsPartitionFindings(locale, b);
    ScopeIdsForgetOrderExactly(locale, config, a, k);
    assert ProductsOf(locale, config, b, k) == ProductsOf(locale, config, a, k);
    assert EngagementsOf(locale, config, b, k) == EngagementsOf(locale, config, a, k);
    assert Grouped(locale, a).at[k].key == k == Grouped(locale, b).at[k].key;
  }

  predicate IsPlainText(s: string) { ',' !in s && '|' !in s }

  /** Ids, and the pull filters that stand in for them, without the separators of the key text. */
  ghost predicate PlainScopes(config: Config, fs: seq<Finding>) {
    && IsPlainText(config.pullProject) && IsPlainText(config.pullEngagement)
    && (forall f <- fs :: IsPlainText(f.projectId) && IsPlainText(f.engagementId))
  }

  lemma SortedHasId(locale: Locale, values: seq<string>, x: string) returns (v: string)
    requires x in locale.SortStrings(values)
    ensures v in values && CleanText(v) == x && x != ""
  {
    Orders.SortKeepsMembers(locale.compare, CleanAll(values));
    assert x in multiset(CleanAll(values));
    CleanAllMembers(values, x);
    v :| v in values && CleanText(v) == x;
  }

  lemma PlainStaysPlain(s: string)
    requires IsPlainText(s)
    ensures IsPlainText(CleanText(s))
  {
    CleanTextAddsNothing(s, ',');
    CleanTextAddsNothing(s, '|');
  }

  lemma PlainIdsPrintPlain(locale: Locale, ids: seq<string>)
    requires forall id <- ids :: IsPlainText(id)
    ensures ArePlain(locale.SortStrings(CleanAll(ids)))
  {
    hide CleanText;
    forall x | x in locale.SortStrings(CleanAll(ids)) ensures x != "" && IsPlainText(x) {
      var v := SortedHasId(locale, CleanAll(ids), x);
      CleanAllMembers(ids, v);
      var id :| id in ids && CleanText(id) == v;
      PlainStaysPlain(id);
      PlainStaysPlain(v);
    }
  }

  lemma SortedUnderIsPlain(locale: Locale, of: Finding -> string, fs: seq<Finding>, k: string)
    requires forall f <- fs :: IsPlainText(of(f))
    ensures forall id <- SortedUnder(locale, of, fs, k) :: IsPlainText(id)
  {
    hide CleanText;
    forall id | id in SortedUnder(locale, of, fs, k) ensures IsPlainText(id) {
      var v := SortedHasId(locale, IdsUnder(of, fs, k), id);
      IdsUnderMembers(of, fs, k, v);
      PlainStaysPlain(v);
    }
  }

  /** The scopes printed into a key text are plain, for every order of the findings. */
  lemma ScopesPrintPlain(locale: Locale, config: Config, a: seq<Finding>, b: seq<Finding>, k: string)
    requires PlainScopes(config, a) && multiset(b) == multiset(a) && k in Grouped(locale, a).at
    ensures ArePlain(locale.SortStrings(CleanAll(ProductsOf(locale, config, b, k))))
    ensures ArePlain(locale.SortStrings(CleanAll(EngagementsOf(locale, config, b, k))))
  {
    hide ProductsOf, EngagementsOf, SortedUnder, Grouped, CleanAll, ArePlain, IsPlainText;
    forall f | f in b ensures f in a {
      assert f in multiset(b) && f in multiset(a);
    }
    ScopeIdsOfEveryOrder(locale, config, a, k);
    SortedUnderIsPlain(locale, ProductOf, b, k);
    SortedUnderIsPlain(locale, EngagementOf, b, k);
    PlainIdsPrintPlain(locale, ProductsOf(locale, config, b, k));
    PlainIdsPrintPlain(locale, EngagementsOf(locale, config, b, k));
  }

  /** Sorted ids that differ print differently. */
  lemma DifferentIdsPrintDifferently(locale: Locale, ids: seq<string>, others: seq<string>, pull: string)
    requires locale.Collates() && locale.SortStrings(ids) != [] && locale.SortStrings(others) != []
    requires var (p, q) := (OrPull(locale.SortStrings(ids), pull), OrPull(locale.SortStrings(others), pull));
      locale.SortStrings(CleanAll(p)) == locale.SortStrings(CleanAll(q))
    ensures locale.SortStrings(ids) == locale.SortStrings(others)
  {
    hide Locale.SortStrings;
    SortStringsTwice(locale, ids);
    SortStringsTwice(locale, others);
  }

  /** The text hashed into a group's compacted key is the same for every order of the findings exactly
      when neither products nor engagements of the group tie, if scopes hold no separators. */
  lemma KeySourceForgetsOrderExactly(locale: Locale, config: Config, a: seq<Finding>, k: string)
    requires locale.Collates() && k in Grouped(locale, a).at && PlainScopes(config, a)
    ensures
      (forall b: seq<Finding> :: multiset(b) == multiset(a) ==>
         KeySourceOf(locale, config, b, k) == KeySourceOf(locale, config, a, k))
      <==> NoTiesUnder(locale, ProductOf, a, k) && NoTiesUnder(locale, EngagementOf, a, k)
  {
    hide ProductsOf, EngagementsOf, SortedUnder, NoTiesUnder, Grouped, KeySource, ArePlain, CleanAll,
        Locale.SortStrings, PlainScopes;
    if !NoTiesUnder(locale, ProductOf, a, k) {
      var b, c := TiedIdsDependOnOrder(locale, ProductOf, a, k);
      TiedSourcesDiffer(locale, config, a, b, c, k);
      assert KeySourceOf(locale, config, b, k) != KeySourceOf(locale, config, c, k);
    } else if !NoTiesUnder(locale, EngagementOf, a, k) {
      var b, c := TiedIdsDependOnOrder(locale, EngagementOf, a, k);
      TiedSourcesDiffer(locale, config, a, b, c, k);
      assert KeySourceOf(locale, config, b, k) != KeySourceOf(locale, config, c, k);
    } else {
      ScopeIdsForgetOrderExactly(locale, config, a, k);
    }
  }

  lemma TiedSourcesDiffer(locale: Locale, config: Config, a: seq<Finding>, b: seq<Finding>, c: seq<Finding>, k: string)
    requires locale.Collates() && k in Grouped(locale, a).at && PlainScopes(config, a)
    requires multiset(b) == multiset(c) == multiset(a)
    ensures SortedUnder(locale, ProductOf, b, k) != SortedUnder(locale, ProductOf, c, k)
      && SortedUnder(locale, ProductOf, b, k) != [] && SortedUnder(locale, ProductOf, c, k) != []
      ==> KeySourceOf(locale, config, b, k) != KeySourceOf(locale, config, c, k)
    ensures SortedUnder(locale, EngagementOf, b, k) != SortedUnder(locale, EngagementOf, c, k)
      && SortedUnder(locale, EngagementOf, b, k) != [] && SortedUnder(locale, EngagementOf, c, k) != []
      ==> KeySourceOf(locale, config, b, k) != KeySourceOf(locale, config, c, k)
  {
    hide ProductsOf, EngagementsOf, Grouped, KeySource, ArePlain, CleanAll, Locale.SortStrings, PlainScopes, IdsUnder;
    ScopeIdsOfEveryOrder(locale, config, a, k);
    ScopesPrintPlain(locale, config, a, b, k);
    ScopesPrintPlain(locale, config, a, c, k);
    var (ps, es) := (ProductsOf(locale, config, b, k), EngagementsOf(locale, config, b, k));
    var (qs, ds) := (ProductsOf(locale, config, c, k), EngagementsOf(locale, config, c, k));
    KeySourceIsInjective(locale, k, ps, es, k, qs, ds);
    if KeySourceOf(locale, config, b, k) == KeySourceOf(locale, config, c, k) {
      if SortedUnder(locale, ProductOf, b, k) != [] && SortedUnder(locale, ProductOf, c, k) != [] {
        DifferentIdsPrintDifferently(locale, IdsUnder(ProductOf, b, k), IdsUnder(ProductOf, c, k), config.pullProject);
      }
      if SortedUnder(locale, EngagementOf, b, k) != [] && SortedUnder(locale, EngagementOf, c, k) != [] {
        DifferentIdsPrintDifferently(locale, IdsUnder(EngagementOf, b, k), IdsUnder(EngagementOf, c, k),
            config.pullEngagement);
      }
    }
  }

  /** The upgrade target kept for a group may differ between arrivals only within a version tie. */
  lemma HighestTargetsTie(locale: Locale, a: seq<Finding>, b: seq<Finding>, k: string)
    requires locale.Collates() && multiset(a) == multiset(b) && k in Grouped(locale, a).at && k in Grouped(locale, b).at
    ensures var s, t := Grouped(locale, a).at[k].highestTarget, Grouped(locale, b).at[k].highestTarget;
      && (s.Some? <==> t.Some?)
      && (s.Some? ==> Versions.CompareVersions(locale, s.value.version, t.value.version) == 0)
  {
    hide Grouped, Having, Versions.CompareVersions;
    forall f ensures f in Having(a, k) <==> f in Having(b, k) {
      HavingMembers(a, k, f);
      HavingMembers(b, k, f);
      assert f in a <==> f in multiset(a);
      assert f in b <==> f in multiset(b);
    }
    ShownTarget(locale, a, k);
    ShownTarget(locale, b, k);
    HighestOfSameMembers(locale, Grouped(locale, a).at[k].highestTarget, Having(a, k),
                         Grouped(locale, b).at[k].highestTarget, Having(b, k));
  }

  lemma ShownTarget(locale: Locale, fs: seq<Finding>, k: string)
    requires locale.Collates() && k in Grouped(locale, fs).at
    ensures ShowsTarget(locale, Grouped(locale, fs).at[k].highestTarget, Having(fs, k))
  {
    hide Grouped, Having, ShowsTarget, Collects, ShowsSync, ShowsDate, ShowsSeverity, SourceShows;
    TicketsShowTheirFindings(locale, fs);
    assert Shows(locale, Grouped(locale, fs).at[k], Having(fs, k));
  }

  lemma HighestOfSameMembers(locale: Locale, s: Option<Target>, ms: seq<Finding>, t: Option<Target>, ns: seq<Finding>)
    requires locale.Collates() && (forall f :: f in ms <==> f in ns)
    requires ShowsTarget(locale, s, ms) && ShowsTarget(locale, t, ns)
    ensures s.Some? <==> t.Some?
    ensures s.Some? ==> Versions.CompareVersions(locale, s.value.version, t.value.version) == 0
  {
    hide Versions.CompareVersions, ShowsTarget;
    TargetIsHighest(locale, s, ms);
    TargetIsHighest(locale, t, ns);
    if s.Some? && t.Some? {
      Versions.VersionsAreOrdered(locale);
      var cmp := (v, w) => Versions.CompareVersions(locale, v, w);
      assert Orders.Opposite(cmp, s.value.version, t.value.version);
      assert Orders.Opposite(cmp, t.value.version, s.value.version);
    }
  }

  lemma {:induction false} HavingMembers(fs: seq<Finding>, k: string, f: Finding)
    ensures f in Having(fs, k) <==> f in fs && f.groupKey == k
  {
    if fs != [] {
      HavingMembers(fs[..|fs| - 1], k, f);
      assert fs == fs[..|fs| - 1] + [fs[|fs| - 1]];
    }
  }

  // ----- what a key tells -----

  /** Ids that do not get in the way of the separators. */
  ghost predicate ArePlain(ids: seq<string>) { FreeOf(ids, ',') && forall id <- ids :: '|' !in id }

  /** Apart from hash collisions a key stands for one group in one scope: the hashed text tells the
      group key, the sorted product ids and the sorted engagement ids, whatever the group key holds. */
  lemma KeySourceIsInjective(locale: Locale, g: string, ps: seq<string>, es: seq<string>,
                             h: string, qs: seq<string>, ds: seq<string>)
    requires ArePlain(locale.SortStrings(CleanAll(ps))) && ArePlain(locale.SortStrings(CleanAll(es)))
    requires ArePlain(locale.SortStrings(CleanAll(qs))) && ArePlain(locale.SortStrings(CleanAll(ds)))
    ensures KeySource(locale, g, ps, es) == KeySource(locale, h, qs, ds) <==>
      && g == h
      && locale.SortStrings(CleanAll(ps)) == locale.SortStrings(CleanAll(qs))
      && locale.SortStrings(CleanAll(es)) == locale.SortStrings(CleanAll(ds))
  {
    hide ArePlain, CleanAll, Locale.SortStrings, Join;
    var p, e := locale.SortStrings(CleanAll(ps)), locale.SortStrings(CleanAll(es));
    var q, d := locale.SortStrings(CleanAll(qs)), locale.SortStrings(CleanAll(ds));
    ThreeParts("group:" + g, "products:" + Join(p, ","), "engagements:" + Join(e, ","));
    ThreeParts("group:" + h, "products:" + Join(q, ","), "engagements:" + Join(d, ","));
    PlainText(p);
    PlainText(q);
    PlainText(e);
    PlainText(d);
    if KeySource(locale, g, ps, es) == KeySource(locale, h, qs, ds) {
      SplitsAtLast('|', "group:" + g + "|" + ("products:" + Join(p, ",")), "engagements:" + Join(e, ","),
                   "group:" + h + "|" + ("products:" + Join(q, ",")), "engagements:" + Join(d, ","));
      SplitsAtLast('|', "group:" + g, "products:" + Join(p, ","), "group:" + h, "products:" + Join(q, ","));
      Behind("group:", g, h);
      Behind("products:", Join(p, ","), Join(q, ","));
      Behind("engagements:", Join(e, ","), Join(d, ","));
      PlainListsAgree(p, q);
      PlainListsAgree(e, d);
    }
  }

  lemma PlainText(ids: seq<string>)
    requires ArePlain(ids)
    ensures '|' !in Join(ids, ",")
  {
    JoinAvoids(ids, ',', '|');
  }

  lemma PlainListsAgree(a: seq<string>, b: seq<string>)
    requires ArePlain(a) && ArePlain(b) && Join(a, ",") == Join(b, ",")
    ensures a == b
  {
    JoinIsInjective(',', a, b);
  }

  lemma ThreeParts(a: string, b: string, c: string)
    ensures Join([a, b, c], "|") == a + "|" + b + "|" + c
  {
    assert [a, b, c][1..] == [b, c] && [b, c][1..] == [c];
    assert Join([b, c], "|") == b + "|" + c;
    assert a + "|" + (b + "|" + c) == a + "|" + b + "|" + c;
  }

  // ----- a ticket's source groups -----

  function SourceList(keys: seq<string>, at: map<string, SourceGroup>): seq<SourceGroup>
    requires forall k <- keys :: k in at
  {
    if keys == [] then []
    else
      assert keys[|keys| - 1] in keys;
      SourceList(keys[..|keys| - 1], at) + [at[keys[|keys| - 1]]]
  }

  ghost function SortedSources(locale: Locale, version: string -> Option<string>, g: Group): seq<SourceGroup>
    requires g.sourceGroups.Valid()
  {
    KeysAreBound(g.sourceGroups);
    Orders.Sort((s: SourceGroup, t: SourceGroup) => Titles.CompareByVersion(locale, version, s.title, t.title),
                SourceList(g.sourceGroups.keys, g.sourceGroups.at))
  }

  /** The source groups of a ticket are the group's own, each once, with the newest version on top. */
  lemma SourcesAreSortedByVersion(locale: Locale, version: string -> Option<string>, fs: seq<Finding>, k: string)
    requires locale.Collates() && k in Grouped(locale, fs).at
    ensures var g := Grouped(locale, fs).at[k];
      && g.sourceGroups.Valid()
      && Orders.Sorted((s: SourceGroup, t: SourceGroup) => Titles.CompareByVersion(locale, version, s.title, t.title),
                       SortedSources(locale, version, g))
      && (forall s :: s in SortedSources(locale, version, g) <==> s in g.sourceGroups.at.Values)
      && |SortedSources(locale, version, g)| == |g.sourceGroups.keys|
      && (forall i, j :: 0 <= i < j < |SortedSources(locale, version, g)| ==>
            Titles.IsNotAfter(locale, version, SortedSources(locale, version, g)[i].title,
                              SortedSources(locale, version, g)[j].title))
  {
    hide Grouped, Having, SortedSources, Titles.IsNotAfter, Titles.CompareByVersion;
    GroupsPartitionFindings(locale, fs);
    var g := Grouped(locale, fs).at[k];
    assert Holds(g, Having(fs, k));
    SortingSources(locale, version, g);
    var s := SortedSources(locale, version, g);
    forall i, j | 0 <= i < j < |s| ensures Titles.IsNotAfter(locale, version, s[i].title, s[j].title) {
      assert Titles.CompareByVersion(locale, version, s[i].title, s[j].title) <= 0;
      Titles.ComparatorPutsNewestFirst(locale, version, s[i].title, s[j].title);
    }
  }

  lemma SortingSources(locale: Locale, version: string -> Option<string>, g: Group)
    requires locale.Collates() && g.sourceGroups.Valid()
    ensures Orders.Sorted(
        (s: SourceGroup, t: SourceGroup) => Titles.CompareByVersion(locale, version, s.title, t.title),
        SortedSources(locale, version, g))
    ensures forall s :: s in SortedSources(locale, version, g) <==> s in g.sourceGroups.at.Values
    ensures |SortedSources(locale, version, g)| == |g.sourceGroups.keys|
  {
    hide Titles.CompareByVersion, Orders.Sort;
    KeysAreBound(g.sourceGroups);
    var (keys, at) := (g.sourceGroups.keys, g.sourceGroups.at);
    var cmp := (s: SourceGroup, t: SourceGroup) => Titles.CompareByVersion(locale, version, s.title, t.title);
    SourceComparatorIsConsistent(locale, version);
    var list := SourceList(keys, at);
    var sorted := Orders.Sort(cmp, list);
    Orders.SortSorts(cmp, list);
    Orders.SortKeepsMembers(cmp, list);
    forall s ensures s in sorted <==> s in at.Values {
      SourceListMembers(keys, at, s);
      assert s in multiset(list) <==> s in multiset(sorted);
      if s in at.Values {
        var t :| t in at && at[t] == s;
        assert t in Range(keys);
      }
    }
    SourceListLength(keys, at);
  }

  lemma SourceComparatorIsConsistent(locale: Locale, version: string -> Option<string>)
    requires locale.Collates()
    ensures Orders.Consistent(
        (s: SourceGroup, t: SourceGroup) => Titles.CompareByVersion(locale, version, s.title, t.title))
  {
    Titles.SourceGroupOrderIsConsistent(locale, version);
    var titles := (a, b) => Titles.CompareByVersion(locale, version, a, b);
    var cmp := (s: SourceGroup, t: SourceGroup) => Titles.CompareByVersion(locale, version, s.title, t.title);
    forall s ensures cmp(s, s) == 0 {
      assert titles(s.title, s.title) == 0;
    }
    forall s, t ensures Orders.Opposite(cmp, s, t) {
      assert Orders.Opposite(titles, s.title, t.title);
    }
    forall s, t, u ensures Orders.Chains(cmp, s, t, u) {
      assert Orders.Chains(titles, s.title, t.title, u.title);
    }
  }

  lemma {:induction false} SourceListMembers(keys: seq<string>, at: map<string, SourceGroup>, s: SourceGroup)
    requires forall k <- keys :: k in at
    ensures s in SourceList(keys, at) <==> exists k <- keys :: at[k] == s
  {
    if keys != [] {
      var init, last := keys[..|keys| - 1], keys[|keys| - 1];
      assert keys == init + [last];
      SourceListMembers(init, at, s);
    }
  }

  lemma {:induction false} SourceListLength(keys: seq<string>, at: map<string, SourceGroup>)
    requires forall k <- keys :: k in at
    ensures |SourceList(keys, at)| == |keys|
  {
    if keys != [] {
      assert keys[|keys| - 1] in keys;
      SourceListLength(keys[..|keys| - 1], at);
    }
  }
}
