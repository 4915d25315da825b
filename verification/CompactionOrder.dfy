/** What of a group does not depend on the order in which its findings arrive. */
module CompactionOrder {
  import opened Options
  import opened OrderedMap
  import opened Text
  import opened Compaction
  import Folding

  // ----- tallies: the order-free content of groups -----

  datatype SourceTally = SourceTally(
    ids: multiset<string>, rank: nat,
    cves: set<string>, cwes: set<string>, mitigations: set<string>,
    active: nat, mitigated: nat)

  datatype Tally = Tally(
    count: nat, active: nat, mitigated: nat,
    ids: multiset<string>, rank: nat,
    titles: set<string>, cves: set<string>, cwes: set<string>, mitigations: set<string>,
    projectIds: set<string>, engagementIds: set<string>,
    legacy: map<string, set<string>>,
    sources: map<string, SourceTally>)

  const NO_SOURCE := SourceTally(multiset{}, 0, {}, {}, {}, 0, 0)
  const NO_TALLY := Tally(0, 0, 0, multiset{}, 0, {}, {}, {}, {}, {}, {}, map[], map[])

  function Max(m: nat, n: nat): nat { if n > m then n else m }

  function TextSet(x: string): set<string> { if x == "" then {} else {x} }

  function One(b: bool): nat { if b then 1 else 0 }

  function TallySource(t: SourceTally, f: Finding): SourceTally {
    SourceTally(t.ids + multiset{f.id}, Max(t.rank, SeverityRank(SeverityOf(f))),
                t.cves + Range(f.cves), t.cwes + Range(f.cwes), t.mitigations + TextSet(f.mitigation),
                t.active + One(CountsActive(f)), t.mitigated + One(f.mitigated))
  }

  function TallyGroup(t: Tally, f: Finding): Tally {
    Tally(t.count + 1, t.active + One(CountsActive(f)), t.mitigated + One(f.mitigated),
          t.ids + multiset{f.id}, Max(t.rank, SeverityRank(SeverityOf(f))),
          t.titles + {f.title}, t.cves + Range(f.cves), t.cwes + Range(f.cwes), t.mitigations + TextSet(f.mitigation),
          t.projectIds + TextSet(f.projectId), t.engagementIds + TextSet(f.engagementId),
          Folding.Bump(t.legacy, f.legacyKey, {}, AddId, f),
          Folding.Bump(t.sources, f.title, NO_SOURCE, TallySource, f))
  }

  function AddId(ids: set<string>, f: Finding): set<string> { ids + {f.id} }

  function TallyAll(m: map<string, Tally>, f: Finding): map<string, Tally> {
    Folding.Bump(m, f.groupKey, NO_TALLY, TallyGroup, f)
  }

  lemma SourceTalliesCommute(t: SourceTally, x: Finding, y: Finding)
    ensures Folding.Swaps(TallySource, t, x, y)
  {
  }

  lemma IdsCommute(ids: set<string>, x: Finding, y: Finding)
    ensures Folding.Swaps(AddId, ids, x, y)
  {
    assert ids + {x.id} + {y.id} == ids + {y.id} + {x.id};
  }

  lemma GroupTalliesCommute(t: Tally, x: Finding, y: Finding)
    ensures Folding.Swaps(TallyGroup, t, x, y)
  {
    hide Folding.Bump, TallySource, SeverityRank, SeverityOf, Range;
    SourceTalliesCommute(Folding.At(t.sources, x.title, NO_SOURCE), x, y);
    Folding.BumpsCommute(t.sources, x.title, x, y.title, y, NO_SOURCE, TallySource);
    IdsCommute(Folding.At(t.legacy, x.legacyKey, {}), x, y);
    Folding.BumpsCommute(t.legacy, x.legacyKey, x, y.legacyKey, y, {}, AddId);
    var xy, yx := TallyGroup(TallyGroup(t, x), y), TallyGroup(TallyGroup(t, y), x);
    assert xy.titles == yx.titles && xy.cves == yx.cves && xy.cwes == yx.cwes;
    assert xy.mitigations == yx.mitigations && xy.projectIds == yx.projectIds && xy.engagementIds == yx.engagementIds;
    assert xy.ids == yx.ids && xy.legacy == yx.legacy && xy == yx;
  }

  lemma TalliesCommute()
    ensures Folding.Commutes(TallyAll)
  {
    forall m, x, y ensures Folding.Swaps(TallyAll, m, x, y) {
      GroupTalliesCommute(Folding.At(m, x.groupKey, NO_TALLY), x, y);
      Folding.BumpsCommute(m, x.groupKey, x, y.groupKey, y, NO_TALLY, TallyGroup);
    }
  }

  // ----- a group's tally -----

  function SourceTallyOf(s: SourceGroup): SourceTally {
    SourceTally(multiset(s.findingIds), SeverityRank(s.severity), Range(s.cveIds), Range(s.cweIds),
                Range(s.mitigations), s.activeCount, s.mitigatedCount)
  }

  function TallyOf(g: Group): Tally {
    Tally(g.count, g.activeCount, g.mitigatedCount, multiset(g.originalIds), SeverityRank(g.severity),
          Range(g.titles), Range(g.cves), Range(g.cwes), Range(g.mitigations),
          Range(g.projectIds), Range(g.engagementIds),
          map k | k in g.legacySources.at :: Range(g.legacySources.at[k]),
          map t | t in g.sourceGroups.at :: SourceTallyOf(g.sourceGroups.at[t]))
  }

  function TalliesOf(gs: Groups): map<string, Tally> { map k | k in gs.at :: TallyOf(gs.at[k]) }

  lemma RankOfHighest(a: string, b: string)
    ensures SeverityRank(HighestSeverity(a, b)) == Max(SeverityRank(a), SeverityRank(b))
  {
  }

  lemma AddIfTextAdds(s: seq<string>, x: string)
    ensures Range(AddIfText(s, x)) == Range(s) + TextSet(x)
    ensures Distinct(s) ==> Distinct(AddIfText(s, x))
  {
    AddAdds(s, x);
  }

  lemma TallyOfSource(s: SourceGroup, f: Finding)
    ensures SourceTallyOf(AbsorbIntoSource(s, f)) == TallySource(SourceTallyOf(s), f)
  {
    hide HighestSeverity, SeverityRank, SeverityOf, Range, AddAll, AddIfText;
    RankOfHighest(s.severity, SeverityOf(f));
    AddAllAdds(s.cveIds, f.cves);
    AddAllAdds(s.cweIds, f.cwes);
    AddIfTextAdds(s.mitigations, f.mitigation);
  }

  lemma TallyOfNewSource(f: Finding)
    ensures TallySource(SourceTallyOf(NewSource(f)), f) == TallySource(NO_SOURCE, f)
  {
  }

  lemma SourceTallyIsBumped(g: Group, f: Finding)
    ensures (map t | t in g.sourceGroups.Put(f.title, NextSource(g, f)).at ::
               SourceTallyOf(g.sourceGroups.Put(f.title, NextSource(g, f)).at[t]))
         == Folding.Bump(TallyOf(g).sources, f.title, NO_SOURCE, TallySource, f)
  {
    hide SourceTallyOf, TallySource, AbsorbIntoSource, NewSource, SeverityRank;
    TallyOfSource(SourceOf(g, f), f);
    TallyOfNewSource(f);
  }

  lemma LegacyIsBumped(g: Group, f: Finding)
    ensures var legacy := if f.legacyKey in g.legacySources.at then g.legacySources.at[f.legacyKey] else [];
      var after := g.legacySources.Put(f.legacyKey, Add(legacy, f.id));
      (map k | k in after.at :: Range(after.at[k])) == Folding.Bump(TallyOf(g).legacy, f.legacyKey, {}, AddId, f)
  {
    hide Add, SeverityRank, SourceTallyOf;
    AddAdds(if f.legacyKey in g.legacySources.at then g.legacySources.at[f.legacyKey] else [], f.id);
    var none: seq<string> := [];
    assert Range(none) == {};
  }

  lemma TallyOfGroup(locale: Locale, g: Group, f: Finding)
    ensures TallyOf(AbsorbIntoGroup(locale, g, f)) == TallyGroup(TallyOf(g), f)
  {
    hide HighestSeverity, SeverityRank, SeverityOf, Range, Add, AddAll, AddIfText, AbsorbIntoSource, NewSource,
         SourceTallyOf, Folding.Bump, ChooseRedmineSync, HigherTarget, LaterDate;
    SourceTallyIsBumped(g, f);
    LegacyIsBumped(g, f);
    RankOfHighest(g.severity, SeverityOf(f));
    AddAdds(g.titles, f.title);
    AddAllAdds(g.cves, f.cves);
    AddAllAdds(g.cwes, f.cwes);
    AddIfTextAdds(g.mitigations, f.mitigation);
    AddIfTextAdds(g.projectIds, f.projectId);
    AddIfTextAdds(g.engagementIds, f.engagementId);
  }

  lemma TallyOfNewGroup(f: Finding)
    ensures TallyGroup(TallyOf(NewGroup(f)), f) == TallyGroup(NO_TALLY, f)
  {
    hide Folding.Bump;
    var t := TallyOf(NewGroup(f));
    assert t.legacy == map[] && t.sources == map[];
    assert t == NO_TALLY.(rank := SeverityRank(SeverityOf(f)));
  }

  lemma {:induction false} GroupsTally(locale: Locale, fs: seq<Finding>)
    ensures TalliesOf(Grouped(locale, fs)) == Folding.Fold(TallyAll, map[], fs)
  {
    hide TallyOf, TallyGroup, AbsorbIntoGroup, NewGroup;
    if fs != [] {
      var before, f := fs[..|fs| - 1], fs[|fs| - 1];
      GroupsTally(locale, before);
      var gs := Grouped(locale, before);
      TallyOfNewGroup(f);
      TallyOfGroup(locale, if f.groupKey in gs.at then gs.at[f.groupKey] else NewGroup(f), f);
    }
  }

  /** Permuting the findings leaves every group's tally as it was: the same keys, and per key the
      same counts, ids, severity rank, title, CVE, CWE and mitigation sets, legacy sources and
      per-title tallies. */
  lemma OrderDoesNotMatter(locale: Locale, a: seq<Finding>, b: seq<Finding>)
    requires multiset(a) == multiset(b)
    ensures TalliesOf(Grouped(locale, a)) == TalliesOf(Grouped(locale, b))
  {
    GroupsTally(locale, a);
    GroupsTally(locale, b);
    TalliesCommute();
    Folding.FoldForgetsOrder(TallyAll, map[], a, b);
  }
}
