/**
 * Grouping findings into tickets (buildFallbackCompactedFindings.js).
 *
 * A `Finding` carries what the source computes from one finding alone: its grouping fingerprint,
 * cleaned texts, ids, upgrade target and so on. Group records are values here; `Compactor` writes
 * each changed record back where the source mutates it in place.
 */
module Compaction {
  import opened Options
  import opened OrderedMap
  import opened Text
  import Versions

  datatype Target = Target(software: string, version: string)

  datatype Sync = Sync(action: string, timestamp: int, issue: string)

  datatype Dated = Dated(timestamp: int, text: string)

  datatype Finding = Finding(
    id: string,
    groupKey: string,          // the compaction fingerprint
    legacyKey: string,         // the fingerprint of earlier releases
    title: string,
    severity: string,          // '' for none
    cves: seq<string>, cwes: seq<string>,
    mitigation: string,        // '' for none, as below
    projectId: string, engagementId: string,
    target: Option<Target>,
    sync: Option<Sync>,
    date: Option<Dated>,
    mitigated: bool,
    inactive: bool)            // `active === false`

  datatype SourceGroup = SourceGroup(
    title: string,
    findingIds: seq<string>,
    severity: string,
    cveIds: seq<string>, cweIds: seq<string>, mitigations: seq<string>,
    activeCount: nat, mitigatedCount: nat)

  datatype Group = Group(
    key: string,
    originalIds: seq<string>,
    severity: string,
    titles: seq<string>, cves: seq<string>, cwes: seq<string>, mitigations: seq<string>,
    projectIds: seq<string>, engagementIds: seq<string>,
    legacySources: OrdMap<string, seq<string>>,
    sourceGroups: OrdMap<string, SourceGroup>,
    highestTarget: Option<Target>,
    sync: Option<Sync>,
    date: Dated,
    activeCount: nat, mitigatedCount: nat, count: nat)

  type Groups = OrdMap<string, Group>

  // ----- choices between two values -----

  function SeverityRank(severity: string): nat {
    if severity == "Critical" then 4
    else if severity == "High" then 3
    else if severity == "Medium" then 2
    else if severity == "Low" then 1
    else 0
  }

  function HighestSeverity(current: string, next: string): string {
    if SeverityRank(next) > SeverityRank(current) then next else current
  }

  function SyncPriority(action: string): int {
    if action == "created" then 5
    else if action == "existing_open" then 4
    else if action == "closed_with_new_findings" || action == "existing_closed" then 2
    else if action == "skipped_severity" || action == "not_found" then 1
    else if action == "check_failed" then 0
    else -1
  }

  function ChooseRedmineSync(current: Option<Sync>, next: Option<Sync>): Option<Sync> {
    if next.None? then current
    else if current.None? then next
    else
      var (c, n) := (SyncPriority(current.value.action), SyncPriority(next.value.action));
      if n != c then (if n > c then next else current)
      else if next.value.timestamp >= current.value.timestamp then next
      else current
  }

  function HigherTarget(locale: Locale, current: Option<Target>, next: Option<Target>): Option<Target> {
    if next.Some? && (current.None? || Versions.CompareVersions(locale, next.value.version, current.value.version) > 0)
    then next else current
  }

  function LaterDate(current: Dated, next: Option<Dated>): Dated {
    if next.Some? && next.value.timestamp >= current.timestamp then next.value else current
  }

  function AddIfText(s: seq<string>, x: string): seq<string> { if x == "" then s else Add(s, x) }

  function SeverityOf(f: Finding): string { if f.severity == "" then "Info" else f.severity }

  predicate CountsActive(f: Finding) { !f.mitigated && !f.inactive }

  // ----- one finding -----

  function NewSource(f: Finding): SourceGroup {
    SourceGroup(f.title, [], SeverityOf(f), [], [], [], 0, 0)
  }

  function AbsorbIntoSource(s: SourceGroup, f: Finding): SourceGroup {
    s.(findingIds := s.findingIds + [f.id],
       severity := HighestSeverity(s.severity, SeverityOf(f)),
       cveIds := AddAll(s.cveIds, f.cves),
       cweIds := AddAll(s.cweIds, f.cwes),
       mitigations := AddIfText(s.mitigations, f.mitigation),
       mitigatedCount := s.mitigatedCount + (if f.mitigated then 1 else 0),
       activeCount := s.activeCount + (if CountsActive(f) then 1 else 0))
  }

  function NewGroup(f: Finding): Group {
    Group(f.groupKey, [], SeverityOf(f), [], [], [], [], [], [], Empty(), Empty(),
          None, None, Dated(0, ""), 0, 0, 0)
  }

  function AbsorbIntoGroup(locale: Locale, g: Group, f: Finding): Group {
    var legacy := if f.legacyKey in g.legacySources.at then g.legacySources.at[f.legacyKey] else [];
    var source := if f.title in g.sourceGroups.at then g.sourceGroups.at[f.title] else NewSource(f);
    g.(date := LaterDate(g.date, f.date),
       sync := ChooseRedmineSync(g.sync, f.sync),
       count := g.count + 1,
       originalIds := g.originalIds + [f.id],
       severity := HighestSeverity(g.severity, SeverityOf(f)),
       legacySources := g.legacySources.Put(f.legacyKey, Add(legacy, f.id)),
       titles := Add(g.titles, f.title),
       cves := AddAll(g.cves, f.cves),
       cwes := AddAll(g.cwes, f.cwes),
       mitigations := AddIfText(g.mitigations, f.mitigation),
       sourceGroups := g.sourceGroups.Put(f.title, AbsorbIntoSource(source, f)),
       projectIds := AddIfText(g.projectIds, f.projectId),
       engagementIds := AddIfText(g.engagementIds, f.engagementId),
       highestTarget := HigherTarget(locale, g.highestTarget, f.target),
       mitigatedCount := g.mitigatedCount + (if f.mitigated then 1 else 0),
       activeCount := g.activeCount + (if CountsActive(f) then 1 else 0))
  }

  function Absorb(locale: Locale, gs: Groups, f: Finding): Groups {
    var g := if f.groupKey in gs.at then gs.at[f.groupKey] else NewGroup(f);
    gs.Put(f.groupKey, AbsorbIntoGroup(locale, g, f))
  }

  function Grouped(locale: Locale, fs: seq<Finding>): Groups {
    if fs == [] then Empty() else Absorb(locale, Grouped(locale, fs[..|fs| - 1]), fs[|fs| - 1])
  }

  // ----- the loop of the source -----

  class Compactor {
    const locale: Locale
    var groups: Groups

    constructor (locale: Locale)
      ensures this.locale == locale && groups == Empty()
    {
      this.locale := locale;
      groups := Empty();
    }

    method AddFinding(f: Finding)
      modifies this
      ensures groups == Absorb(locale, old(groups), f)
    {
      hide AbsorbIntoGroup;
      if f.groupKey !in groups.at {
        groups := groups.Put(f.groupKey, NewGroup(f));
      }
      var group := UpdateGroup(groups.at[f.groupKey], f);
      assert old(groups).at[f.groupKey := NewGroup(f)][f.groupKey := group] == old(groups).at[f.groupKey := group];
      groups := groups.Put(f.groupKey, group);
    }

    /** Lines 97-153 and 200-207, on the group's record. */
    method UpdateGroup(g: Group, f: Finding) returns (group: Group)
      ensures group == AbsorbIntoGroup(locale, g, f)
    {
      hide Add, AddAll, AddIfText, HighestSeverity, ChooseRedmineSync, AbsorbIntoSource, NewSource,
          Versions.CompareVersions;
      var date := g.date;
      if f.date.Some? && f.date.value.timestamp >= date.timestamp {
        date := f.date.value;
      }
      var sync := ChooseRedmineSync(g.sync, f.sync);
      var count, originalIds := g.count + 1, g.originalIds + [f.id];
      var severity := HighestSeverity(g.severity, SeverityOf(f));
      var legacySources := AddLegacySource(g.legacySources, f);
      var titles := Add(g.titles, f.title);
      var cves, cwes := AddAll(g.cves, f.cves), AddAll(g.cwes, f.cwes);
      var mitigations := AddIfText(g.mitigations, f.mitigation);
      var sourceGroups := AddSource(g.sourceGroups, f);
      var projectIds, engagementIds := AddIfText(g.projectIds, f.projectId), AddIfText(g.engagementIds, f.engagementId);
      var highestTarget := g.highestTarget;
      if f.target.Some? && (highestTarget.None? ||
          Versions.CompareVersions(locale, f.target.value.version, highestTarget.value.version) > 0) {
        highestTarget := f.target;
      }
      var mitigatedCount, activeCount := g.mitigatedCount, g.activeCount;
      if f.mitigated {
        mitigatedCount := mitigatedCount + 1;
      } else if !f.inactive {
        activeCount := activeCount + 1;
      }
      group := Group(g.key, originalIds, severity, titles, cves, cwes, mitigations, projectIds, engagementIds,
                     legacySources, sourceGroups, highestTarget, sync, date, activeCount, mitigatedCount, count);
    }

    /** Lines 113-115. */
    static method AddLegacySource(before: OrdMap<string, seq<string>>, f: Finding)
        returns (sources: OrdMap<string, seq<string>>)
      ensures sources ==
        before.Put(f.legacyKey, Add(if f.legacyKey in before.at then before.at[f.legacyKey] else [], f.id))
    {
      sources := before;
      if f.legacyKey !in sources.at {
        sources := sources.Put(f.legacyKey, []);
      }
      sources := sources.Put(f.legacyKey, Add(sources.at[f.legacyKey], f.id));
      assert before.at[f.legacyKey := []][f.legacyKey := sources.at[f.legacyKey]]
          == before.at[f.legacyKey := sources.at[f.legacyKey]];
    }

    /** Lines 123-145 and 201-207, the source title's share. */
    static method AddSource(before: OrdMap<string, SourceGroup>, f: Finding)
        returns (sources: OrdMap<string, SourceGroup>)
      ensures sources ==
        before.Put(f.title, AbsorbIntoSource(if f.title in before.at then before.at[f.title] else NewSource(f), f))
    {
      var source := if f.title in before.at then before.at[f.title] else NewSource(f);
      source := source.(findingIds := source.findingIds + [f.id]);
      source := source.(severity := HighestSeverity(source.severity, SeverityOf(f)));
      source := source.(cveIds := AddAll(source.cveIds, f.cves), cweIds := AddAll(source.cweIds, f.cwes));
      source := source.(mitigations := AddIfText(source.mitigations, f.mitigation));
      if f.mitigated {
        source := source.(mitigatedCount := source.mitigatedCount + 1);
      } else if !f.inactive {
        source := source.(activeCount := source.activeCount + 1);
      }
      sources := before.Put(f.title, source);
    }

    method AddFindings(fs: seq<Finding>)
      requires groups == Empty()
      modifies this
      ensures groups == Grouped(locale, fs)
    {
      for i := 0 to |fs|
        invariant groups == Grouped(locale, fs[..i])
      {
        assert fs[..i + 1][..i] == fs[..i];
        AddFinding(fs[i]);
      }
      assert fs[..|fs|] == fs;
    }
  }

  // ----- partition -----

  /** The findings under a group key, in order. */
  function Having(fs: seq<Finding>, key: string): seq<Finding> {
    if fs == [] then []
    else
      var last := fs[|fs| - 1];
      Having(fs[..|fs| - 1], key) + if last.groupKey == key then [last] else []
  }

  function Titled(fs: seq<Finding>, title: string): seq<Finding> {
    if fs == [] then []
    else
      var last := fs[|fs| - 1];
      Titled(fs[..|fs| - 1], title) + if last.title == title then [last] else []
  }

  function Ids(fs: seq<Finding>): seq<string> {
    if fs == [] then [] else Ids(fs[..|fs| - 1]) + [fs[|fs| - 1].id]
  }

  lemma SnocFacts(fs: seq<Finding>, f: Finding, title: string)
    ensures Ids(fs + [f]) == Ids(fs) + [f.id]
    ensures f.title == title ==> Titled(fs + [f], title) == Titled(fs, title) + [f]
    ensures f.title != title ==> Titled(fs + [f], title) == Titled(fs, title)
  {
    assert (fs + [f])[..|fs|] == fs;
  }

  /** A group built from exactly the findings `ms`. */
  ghost predicate Holds(g: Group, ms: seq<Finding>) {
    && g.originalIds == Ids(ms) && g.count == |ms|
    && g.sourceGroups.Valid()
    && (forall t :: t in g.sourceGroups.at <==> Titled(ms, t) != [])
    && (forall t <- g.sourceGroups.at ::
          g.sourceGroups.at[t].title == t && g.sourceGroups.at[t].findingIds == Ids(Titled(ms, t)))
  }

  /** The share of a group's update that the partition is about. */
  lemma AbsorbedParts(locale: Locale, g: Group, f: Finding)
    ensures var h := AbsorbIntoGroup(locale, g, f);
      && h.key == g.key && h.originalIds == g.originalIds + [f.id] && h.count == g.count + 1
      && h.mitigatedCount == g.mitigatedCount + (if f.mitigated then 1 else 0)
      && h.activeCount == g.activeCount + (if CountsActive(f) then 1 else 0)
      && h.sourceGroups == g.sourceGroups.Put(f.title, NextSource(g, f))
    ensures var s, t := SourceOf(g, f), NextSource(g, f);
      && t.title == s.title && t.findingIds == s.findingIds + [f.id]
      && t.mitigatedCount == s.mitigatedCount + (if f.mitigated then 1 else 0)
      && t.activeCount == s.activeCount + (if CountsActive(f) then 1 else 0)
  {
    hide Add, AddAll, AddIfText, HighestSeverity, ChooseRedmineSync, HigherTarget;
  }

  function SourceOf(g: Group, f: Finding): SourceGroup {
    if f.title in g.sourceGroups.at then g.sourceGroups.at[f.title] else NewSource(f)
  }

  function NextSource(g: Group, f: Finding): SourceGroup { AbsorbIntoSource(SourceOf(g, f), f) }

  lemma AbsorbExtendsHolding(locale: Locale, g: Group, ms: seq<Finding>, f: Finding)
    requires Holds(g, ms)
    ensures Holds(AbsorbIntoGroup(locale, g, f), ms + [f])
  {
    hide AbsorbIntoGroup, AbsorbIntoSource, NextSource, Titled, Ids;
    var h := AbsorbIntoGroup(locale, g, f);
    AbsorbedParts(locale, g, f);
    SnocFacts(ms, f, f.title);
    SnocFacts(Titled(ms, f.title), f, f.title);
    assert Ids([]) == [] by { NoIds(); }
    PutKeepsValid(g.sourceGroups, f.title, NextSource(g, f));
    forall t ensures t in h.sourceGroups.at <==> Titled(ms + [f], t) != [] {
      SnocFacts(ms, f, t);
    }
    forall t | t in h.sourceGroups.at
      ensures h.sourceGroups.at[t].title == t && h.sourceGroups.at[t].findingIds == Ids(Titled(ms + [f], t))
    {
      SnocFacts(ms, f, t);
    }
  }

  lemma NoIds()
    ensures Ids([]) == []
  {
  }

  lemma HavingOfSnoc(fs: seq<Finding>, key: string)
    requires fs != []
    ensures var before, f := fs[..|fs| - 1], fs[|fs| - 1];
      && (f.groupKey == key ==> Having(fs, key) == Having(before, key) + [f])
      && (f.groupKey != key ==> Having(fs, key) == Having(before, key))
  {
  }

  ghost predicate Partitioned(gs: Groups, fs: seq<Finding>) {
    && gs.Valid()
    && (forall k :: k in gs.at <==> Having(fs, k) != [])
    && (forall k <- gs.at :: gs.at[k].key == k && Holds(gs.at[k], Having(fs, k)))
  }

  lemma EmptyIsPartitioned()
    ensures Partitioned(Empty(), [])
  {
  }

  lemma NewGroupHolds(f: Finding)
    ensures Holds(NewGroup(f), [])
  {
  }

  lemma AbsorbKeepsPartition(locale: Locale, gs: Groups, fs: seq<Finding>, f: Finding)
    requires Partitioned(gs, fs)
    ensures Partitioned(Absorb(locale, gs, f), fs + [f])
  {
    hide AbsorbIntoGroup, Holds, Having;
    var g := if f.groupKey in gs.at then gs.at[f.groupKey] else NewGroup(f);
    NewGroupHolds(f);
    AbsorbedParts(locale, g, f);
    AbsorbExtendsHolding(locale, g, Having(fs, f.groupKey), f);
    PutKeepsValid(gs, f.groupKey, AbsorbIntoGroup(locale, g, f));
    assert (fs + [f])[..|fs|] == fs;
    forall k
      ensures k in Absorb(locale, gs, f).at <==> Having(fs + [f], k) != []
      ensures k in Absorb(locale, gs, f).at ==>
        Absorb(locale, gs, f).at[k].key == k && Holds(Absorb(locale, gs, f).at[k], Having(fs + [f], k))
    {
      HavingOfSnoc(fs + [f], k);
    }
  }

  /** There is one group per distinct key, it holds exactly the findings with that key, and its
      source groups split those by title: every finding is in one group and one source group. */
  lemma {:induction false} GroupsPartitionFindings(locale: Locale, fs: seq<Finding>)
    ensures Partitioned(Grouped(locale, fs), fs)
  {
    hide Absorb, Partitioned;
    if fs == [] {
      EmptyIsPartitioned();
    } else {
      GroupsPartitionFindings(locale, fs[..|fs| - 1]);
      AbsorbKeepsPartition(locale, Grouped(locale, fs[..|fs| - 1]), fs[..|fs| - 1], fs[|fs| - 1]);
      assert fs == fs[..|fs| - 1] + [fs[|fs| - 1]];
    }
  }

  // ----- conservation -----

  ghost predicate Balanced(g: Group) {
    && g.sourceGroups.Valid()
    && Sum(g.sourceGroups, (s: SourceGroup) => s.activeCount) == g.activeCount
    && Sum(g.sourceGroups, (s: SourceGroup) => s.mitigatedCount) == g.mitigatedCount
    && Sum(g.sourceGroups, (s: SourceGroup) => |s.findingIds|) == g.count
  }

  lemma AbsorbKeepsBalance(locale: Locale, g: Group, f: Finding)
    requires Balanced(g)
    ensures Balanced(AbsorbIntoGroup(locale, g, f))
  {
    hide AbsorbIntoGroup, NextSource;
    AbsorbedParts(locale, g, f);
    SumOfPut(g.sourceGroups, f.title, NextSource(g, f), (s: SourceGroup) => s.activeCount);
    SumOfPut(g.sourceGroups, f.title, NextSource(g, f), (s: SourceGroup) => s.mitigatedCount);
    SumOfPut(g.sourceGroups, f.title, NextSource(g, f), (s: SourceGroup) => |s.findingIds|);
  }

  /** Findings marked inactive without being mitigated: counted, but neither active nor mitigated. */
  function Dormant(fs: seq<Finding>): nat {
    if fs == [] then 0
    else Dormant(fs[..|fs| - 1]) + if !fs[|fs| - 1].mitigated && fs[|fs| - 1].inactive then 1 else 0
  }

  ghost predicate Conserved(gs: Groups, fs: seq<Finding>) {
    && gs.Valid()
    && (forall k <- gs.at :: Balanced(gs.at[k]))
    && Sum(gs, (g: Group) => g.count) == |fs|
    && Sum(gs, (g: Group) => g.activeCount) + Sum(gs, (g: Group) => g.mitigatedCount) + Dormant(fs) == |fs|
  }

  lemma EmptyIsConserved()
    ensures Conserved(Empty(), [])
  {
  }

  lemma NewGroupBalances(f: Finding)
    ensures Balanced(NewGroup(f))
  {
  }

  lemma AbsorbConserves(locale: Locale, gs: Groups, fs: seq<Finding>, f: Finding)
    requires Conserved(gs, fs)
    ensures Conserved(Absorb(locale, gs, f), fs + [f])
  {
    hide AbsorbIntoGroup, Balanced, Sum, NextSource, Range, Distinct;
    var g := if f.groupKey in gs.at then gs.at[f.groupKey] else NewGroup(f);
    var after := AbsorbIntoGroup(locale, g, f);
    NewGroupBalances(f);
    AbsorbKeepsBalance(locale, g, f);
    AbsorbedParts(locale, g, f);
    SumOfPut(gs, f.groupKey, after, (g: Group) => g.count);
    SumOfPut(gs, f.groupKey, after, (g: Group) => g.activeCount);
    SumOfPut(gs, f.groupKey, after, (g: Group) => g.mitigatedCount);
    assert (fs + [f])[..|fs|] == fs;
  }

  /** Counts are conserved: source groups add up to their group, groups add up to the input, and
      active plus mitigated miss exactly the dormant findings. */
  lemma {:induction false} CountsAreConserved(locale: Locale, fs: seq<Finding>)
    ensures Conserved(Grouped(locale, fs), fs)
  {
    hide Absorb, Conserved;
    if fs == [] {
      EmptyIsConserved();
    } else {
      CountsAreConserved(locale, fs[..|fs| - 1]);
      AbsorbConserves(locale, Grouped(locale, fs[..|fs| - 1]), fs[..|fs| - 1], fs[|fs| - 1]);
      assert fs == fs[..|fs| - 1] + [fs[|fs| - 1]];
    }
  }
}
