/**
 * What a ticket shows of its findings: the texts and ids it collects, and the severity, upgrade target,
 * Redmine sync and date it chooses (buildFallbackCompactedFindings.js, dashboardUtils.js).
 */
module TicketContents {
  import opened Options
  import opened OrderedMap
  import opened Text
  import opened Compaction
  import Orders
  import Versions

  // ----- the first or last of the best -----

  /** Reflexive, total and transitive. */
  ghost predicate Ranks<T(!new)>(atMost: (T, T) -> bool) {
    && (forall a, b :: atMost(a, b) || atMost(b, a))
    && (forall a, b, c :: atMost(a, b) && atMost(b, c) ==> atMost(a, c))
  }

  ghost predicate BestAt<T>(best: T, xs: seq<Option<T>>, i: int, atMost: (T, T) -> bool) {
    0 <= i < |xs| && xs[i] == Some(best) && forall x <- xs :: x.Some? ==> atMost(x.value, best)
  }

  ghost predicate FirstBestAt<T>(best: T, xs: seq<Option<T>>, i: int, atMost: (T, T) -> bool) {
    BestAt(best, xs, i, atMost) && forall j :: 0 <= j < i && xs[j].Some? ==> !atMost(best, xs[j].value)
  }

  ghost predicate LastBestAt<T>(best: T, xs: seq<Option<T>>, i: int, atMost: (T, T) -> bool) {
    BestAt(best, xs, i, atMost) && forall j :: i < j < |xs| && xs[j].Some? ==> !atMost(best, xs[j].value)
  }

  /** `best` is the first of the best among `xs`, if there are any. */
  ghost predicate FirstBest<T>(best: Option<T>, xs: seq<Option<T>>, atMost: (T, T) -> bool) {
    match best
    case None => forall x <- xs :: x.None?
    case Some(b) => exists i :: FirstBestAt(b, xs, i, atMost)
  }

  /** `best` is the last of the best among `xs`, if there are any. */
  ghost predicate LastBest<T>(best: Option<T>, xs: seq<Option<T>>, atMost: (T, T) -> bool) {
    match best
    case None => forall x <- xs :: x.None?
    case Some(b) => exists i :: LastBestAt(b, xs, i, atMost)
  }

  lemma FirstBestGrows<T(!new)>(best: Option<T>, xs: seq<Option<T>>, x: Option<T>, atMost: (T, T) -> bool)
    requires Ranks(atMost) && FirstBest(best, xs, atMost)
    ensures var after := if x.Some? && (best.None? || !atMost(x.value, best.value)) then x else best;
      FirstBest(after, xs + [x], atMost)
  {
    assert x.Some? ==> atMost(x.value, x.value);
    if best.Some? && (x.None? || atMost(x.value, best.value)) {
      var i :| FirstBestAt(best.value, xs, i, atMost);
      assert FirstBestAt(best.value, xs + [x], i, atMost);
    } else if x.Some? {
      forall j | 0 <= j < |xs| && xs[j].Some? ensures !atMost(x.value, xs[j].value) {
        assert xs[j] in xs;
      }
      assert FirstBestAt(x.value, xs + [x], |xs|, atMost);
    }
  }

  lemma LastBestGrows<T(!new)>(best: Option<T>, xs: seq<Option<T>>, x: Option<T>, atMost: (T, T) -> bool)
    requires Ranks(atMost) && LastBest(best, xs, atMost)
    ensures var after := if x.Some? && (best.None? || atMost(best.value, x.value)) then x else best;
      LastBest(after, xs + [x], atMost)
  {
    assert x.Some? ==> atMost(x.value, x.value);
    if best.Some? && (x.None? || !atMost(best.value, x.value)) {
      var i :| LastBestAt(best.value, xs, i, atMost);
      assert LastBestAt(best.value, xs + [x], i, atMost);
    } else if x.Some? {
      assert LastBestAt(x.value, xs + [x], |xs|, atMost);
    }
  }

  // ----- what a ticket chooses -----

  /** Ranked by action priority, then by time. */
  predicate SyncAtMost(a: Sync, b: Sync) {
    || SyncPriority(a.action) < SyncPriority(b.action)
    || (SyncPriority(a.action) == SyncPriority(b.action) && a.timestamp <= b.timestamp)
  }

  predicate SeverityAtMost(a: string, b: string) { SeverityRank(a) <= SeverityRank(b) }

  predicate DateAtMost(a: Dated, b: Dated) { a.timestamp <= b.timestamp }

  predicate TargetAtMost(locale: Locale, a: Target, b: Target) {
    Versions.CompareVersions(locale, a.version, b.version) <= 0
  }

  function RatingOf(f: Finding): Option<string> { Some(SeverityOf(f)) }

  function SyncOf(f: Finding): Option<Sync> { f.sync }

  function TargetOf(f: Finding): Option<Target> { f.target }

  /** A date not before the epoch. */
  function DateOf(f: Finding): Option<Dated> { if f.date.Some? && f.date.value.timestamp >= 0 then f.date else None }

  function Each<T>(of: Finding -> T, ms: seq<Finding>): seq<T> {
    if ms == [] then [] else Each(of, ms[..|ms| - 1]) + [of(ms[|ms| - 1])]
  }

  lemma {:induction false} EachAt<T>(of: Finding -> T, ms: seq<Finding>, i: nat)
    requires i < |ms|
    ensures |Each(of, ms)| == |ms| && Each(of, ms)[i] == of(ms[i])
  {
    if i < |ms| - 1 {
      EachAt(of, ms[..|ms| - 1], i);
    } else {
      EachLength(of, ms);
    }
  }

  lemma {:induction false} EachLength<T>(of: Finding -> T, ms: seq<Finding>)
    ensures |Each(of, ms)| == |ms|
  {
    if ms != [] {
      EachLength(of, ms[..|ms| - 1]);
    }
  }

  lemma EachOfSnoc<T>(of: Finding -> T, ms: seq<Finding>, f: Finding)
    ensures Each(of, ms + [f]) == Each(of, ms) + [of(f)]
  {
    assert (ms + [f])[..|ms|] == ms;
  }

  ghost predicate ShowsSeverity(severity: string, ms: seq<Finding>) {
    FirstBest(Some(severity), Each(RatingOf, ms), SeverityAtMost)
  }

  ghost predicate ShowsTarget(locale: Locale, target: Option<Target>, ms: seq<Finding>) {
    FirstBest(target, Each(TargetOf, ms), (a, b) => TargetAtMost(locale, a, b))
  }

  ghost predicate ShowsSync(sync: Option<Sync>, ms: seq<Finding>) { LastBest(sync, Each(SyncOf, ms), SyncAtMost) }

  ghost predicate ShowsDate(date: Dated, ms: seq<Finding>) {
    || LastBest(Some(date), Each(DateOf, ms), DateAtMost)
    || (date == Dated(0, "") && LastBest(None, Each(DateOf, ms), DateAtMost))
  }

  // ----- what a ticket collects -----

  /** The group has exactly the texts and ids its findings name. */
  ghost predicate Collects(g: Group, ms: seq<Finding>) {
    CollectsTexts(g, ms) && CollectsIds(g, ms) && CollectsLegacy(g, ms)
  }

  ghost predicate CollectsTexts(g: Group, ms: seq<Finding>) {
    && (forall x :: x in g.titles <==> exists f <- ms :: f.title == x)
    && (forall x :: x in g.mitigations <==> x != "" && exists f <- ms :: f.mitigation == x)
    && (forall x :: x in g.projectIds <==> x != "" && exists f <- ms :: f.projectId == x)
    && (forall x :: x in g.engagementIds <==> x != "" && exists f <- ms :: f.engagementId == x)
  }

  ghost predicate CollectsIds(g: Group, ms: seq<Finding>) {
    && (forall x :: x in g.cves <==> exists f <- ms :: x in f.cves)
    && (forall x :: x in g.cwes <==> exists f <- ms :: x in f.cwes)
  }

  ghost predicate CollectsLegacy(g: Group, ms: seq<Finding>) {
    && (forall k :: k in g.legacySources.at <==> exists f <- ms :: f.legacyKey == k)
    && (forall k <- g.legacySources.at, id ::
          id in g.legacySources.at[k] <==> exists f <- ms :: f.legacyKey == k && f.id == id)
  }

  ghost predicate SourceCollects(s: SourceGroup, ms: seq<Finding>) {
    && (forall x :: x in s.cveIds <==> exists f <- ms :: x in f.cves)
    && (forall x :: x in s.cweIds <==> exists f <- ms :: x in f.cwes)
    && (forall x :: x in s.mitigations <==> x != "" && exists f <- ms :: f.mitigation == x)
  }

  ghost predicate SourceShows(s: SourceGroup, ms: seq<Finding>) {
    SourceCollects(s, ms) && (ms != [] ==> ShowsSeverity(s.severity, ms))
  }

  ghost predicate Shows(locale: Locale, g: Group, ms: seq<Finding>) {
    && Collects(g, ms)
    && (ms != [] ==> ShowsSeverity(g.severity, ms))
    && ShowsTarget(locale, g.highestTarget, ms) && ShowsSync(g.sync, ms) && ShowsDate(g.date, ms)
    && (forall t :: t in g.sourceGroups.at <==> Titled(ms, t) != [])
    && (forall t <- g.sourceGroups.at :: SourceShows(g.sourceGroups.at[t], Titled(ms, t)))
  }

  // ----- one more finding -----

  lemma SeverityShown(severity: string, ms: seq<Finding>, f: Finding)
    requires if ms == [] then severity == SeverityOf(f) else ShowsSeverity(severity, ms)
    ensures ShowsSeverity(HighestSeverity(severity, SeverityOf(f)), ms + [f])
  {
    hide SeverityRank, SeverityOf;
    EachOfSnoc(RatingOf, ms, f);
    if ms == [] {
      assert FirstBestAt(severity, Each(RatingOf, ms + [f]), 0, SeverityAtMost);
    } else {
      FirstBestGrows(Some(severity), Each(RatingOf, ms), Some(SeverityOf(f)), SeverityAtMost);
    }
  }

  lemma TargetShown(locale: Locale, target: Option<Target>, ms: seq<Finding>, f: Finding)
    requires locale.Collates() && ShowsTarget(locale, target, ms)
    ensures ShowsTarget(locale, HigherTarget(locale, target, f.target), ms + [f])
  {
    EachOfSnoc(TargetOf, ms, f);
    VersionsRank(locale);
    FirstBestGrows(target, Each(TargetOf, ms), f.target, (a, b) => TargetAtMost(locale, a, b));
  }

  lemma VersionsRank(locale: Locale)
    requires locale.Collates()
    ensures Ranks((a, b) => TargetAtMost(locale, a, b))
  {
    hide Versions.CompareVersions;
    Versions.VersionsAreOrdered(locale);
    var cmp := (v, w) => Versions.CompareVersions(locale, v, w);
    forall a: Target, b: Target ensures TargetAtMost(locale, a, b) || TargetAtMost(locale, b, a) {
      assert Orders.Opposite(cmp, a.version, b.version);
    }
    forall a: Target, b: Target, c: Target | TargetAtMost(locale, a, b) && TargetAtMost(locale, b, c)
      ensures TargetAtMost(locale, a, c)
    {
      assert Orders.Chains(cmp, a.version, b.version, c.version);
    }
  }

  lemma SyncShown(sync: Option<Sync>, ms: seq<Finding>, f: Finding)
    requires ShowsSync(sync, ms)
    ensures ShowsSync(ChooseRedmineSync(sync, f.sync), ms + [f])
  {
    hide SyncPriority;
    EachOfSnoc(SyncOf, ms, f);
    LastBestGrows(sync, Each(SyncOf, ms), f.sync, SyncAtMost);
  }

  lemma DateShown(date: Dated, ms: seq<Finding>, f: Finding)
    requires ShowsDate(date, ms)
    ensures ShowsDate(LaterDate(date, f.date), ms + [f])
  {
    EachOfSnoc(DateOf, ms, f);
    if LastBest(Some(date), Each(DateOf, ms), DateAtMost) {
      var i :| LastBestAt(date, Each(DateOf, ms), i, DateAtMost);
      EachLength(DateOf, ms);
      EachAt(DateOf, ms, i);
      LastBestGrows(Some(date), Each(DateOf, ms), DateOf(f), DateAtMost);
    } else {
      LastBestGrows(None, Each(DateOf, ms), DateOf(f), DateAtMost);
    }
  }

  /** What a group's record becomes, set by set. */
  lemma AbsorbedSets(locale: Locale, g: Group, f: Finding)
    ensures var h := AbsorbIntoGroup(locale, g, f);
      && (forall x :: x in h.titles <==> x in g.titles || x == f.title)
      && (forall x :: x in h.cves <==> x in g.cves || x in f.cves)
      && (forall x :: x in h.cwes <==> x in g.cwes || x in f.cwes)
      && (forall x :: x in h.mitigations <==> x in g.mitigations || (x != "" && x == f.mitigation))
      && (forall x :: x in h.projectIds <==> x in g.projectIds || (x != "" && x == f.projectId))
      && (forall x :: x in h.engagementIds <==> x in g.engagementIds || (x != "" && x == f.engagementId))
  {
    hide HighestSeverity, ChooseRedmineSync, HigherTarget, LaterDate, AbsorbIntoSource;
    AddedAll(g.cves, f.cves);
    AddedAll(g.cwes, f.cwes);
  }

  lemma AddedAll<T>(s: seq<T>, items: seq<T>)
    ensures forall x :: x in AddAll(s, items) <==> x in s || x in items
  {
    AddAllAdds(s, items);
    forall x ensures x in AddAll(s, items) <==> x in s || x in items {
      assert x in Range(AddAll(s, items)) <==> x in Range(s) || x in Range(items);
    }
  }

  lemma AbsorbedRest(locale: Locale, g: Group, f: Finding)
    ensures var h := AbsorbIntoGroup(locale, g, f);
      && (forall k :: k in h.legacySources.at <==> k in g.legacySources.at || k == f.legacyKey)
      && (forall k <- h.legacySources.at, id ::
            id in h.legacySources.at[k] <==>
              (k in g.legacySources.at && id in g.legacySources.at[k]) || (k == f.legacyKey && id == f.id))
      && h.severity == HighestSeverity(g.severity, SeverityOf(f))
      && h.highestTarget == HigherTarget(locale, g.highestTarget, f.target)
      && h.sync == ChooseRedmineSync(g.sync, f.sync) && h.date == LaterDate(g.date, f.date)
      && h.sourceGroups.at == g.sourceGroups.at[f.title := NextSource(g, f)]
  {
    hide AddAll, AddIfText, HighestSeverity, ChooseRedmineSync, HigherTarget, LaterDate, AbsorbIntoSource, SeverityOf;
  }

  lemma SourceShowsMore(s: SourceGroup, ms: seq<Finding>, f: Finding)
    requires if ms == [] then s == NewSource(f) else SourceShows(s, ms)
    ensures SourceShows(AbsorbIntoSource(s, f), ms + [f])
  {
    hide ShowsSeverity, HighestSeverity, SeverityOf;
    var all := ms + [f];
    SeverityShown(s.severity, ms, f);
    AddedAll(s.cveIds, f.cves);
    AddedAll(s.cweIds, f.cwes);
    assert forall m :: m in all <==> m in ms || m == f;
  }

  lemma CollectsMore(locale: Locale, g: Group, ms: seq<Finding>, f: Finding)
    requires Collects(g, ms)
    ensures Collects(AbsorbIntoGroup(locale, g, f), ms + [f])
  {
    hide AbsorbIntoGroup, CollectsTexts, CollectsIds, CollectsLegacy;
    TextsCollectMore(locale, g, ms, f);
    IdsCollectMore(locale, g, ms, f);
    LegacyCollectsMore(locale, g, ms, f);
  }

  lemma TextsCollectMore(locale: Locale, g: Group, ms: seq<Finding>, f: Finding)
    requires CollectsTexts(g, ms)
    ensures CollectsTexts(AbsorbIntoGroup(locale, g, f), ms + [f])
  {
    hide AbsorbIntoGroup;
    AbsorbedSets(locale, g, f);
    assert forall m :: m in ms + [f] <==> m in ms || m == f;
  }

  lemma IdsCollectMore(locale: Locale, g: Group, ms: seq<Finding>, f: Finding)
    requires CollectsIds(g, ms)
    ensures CollectsIds(AbsorbIntoGroup(locale, g, f), ms + [f])
  {
    hide AbsorbIntoGroup;
    AbsorbedSets(locale, g, f);
    assert forall m :: m in ms + [f] <==> m in ms || m == f;
  }

  lemma LegacyCollectsMore(locale: Locale, g: Group, ms: seq<Finding>, f: Finding)
    requires CollectsLegacy(g, ms)
    ensures CollectsLegacy(AbsorbIntoGroup(locale, g, f), ms + [f])
  {
    hide AbsorbIntoGroup;
    AbsorbedRest(locale, g, f);
    assert forall m :: m in ms + [f] <==> m in ms || m == f;
  }

  lemma ShowsMore(locale: Locale, g: Group, ms: seq<Finding>, f: Finding)
    requires locale.Collates()
    requires if ms == [] then g == NewGroup(f) else Shows(locale, g, ms)
    ensures Shows(locale, AbsorbIntoGroup(locale, g, f), ms + [f])
  {
    hide AbsorbIntoGroup, AbsorbIntoSource, HigherTarget, ChooseRedmineSync, LaterDate, HighestSeverity, SeverityOf;
    hide Collects, SourceShows, ShowsSeverity, ShowsTarget, ShowsSync, ShowsDate, Titled;
    if ms == [] {
      NewGroupShows(locale, f);
    }
    AbsorbedRest(locale, g, f);
    CollectsMore(locale, g, ms, f);
    SeverityShown(g.severity, ms, f);
    TargetShown(locale, g.highestTarget, ms, f);
    SyncShown(g.sync, ms, f);
    DateShown(g.date, ms, f);
    var h := AbsorbIntoGroup(locale, g, f);
    forall t ensures t in h.sourceGroups.at <==> Titled(ms + [f], t) != []
      ensures t in h.sourceGroups.at ==> SourceShows(h.sourceGroups.at[t], Titled(ms + [f], t))
    {
      SnocFacts(ms, f, t);
      if t == f.title {
        SourceShowsMore(SourceOf(g, f), Titled(ms, t), f);
      }
    }
  }

  lemma NewGroupShows(locale: Locale, f: Finding)
    ensures Collects(NewGroup(f), [])
    ensures ShowsTarget(locale, None, []) && ShowsSync(None, []) && ShowsDate(Dated(0, ""), [])
    ensures forall t :: Titled([], t) == []
  {
  }

  // ----- all tickets -----

  ghost predicate AllShow(locale: Locale, gs: Groups, fs: seq<Finding>) {
    && (forall k :: k in gs.at <==> Having(fs, k) != [])
    && (forall k <- gs.at :: Shows(locale, gs.at[k], Having(fs, k)))
  }

  lemma AbsorbKeepsShowing(locale: Locale, gs: Groups, fs: seq<Finding>, f: Finding)
    requires locale.Collates() && AllShow(locale, gs, fs)
    ensures AllShow(locale, Absorb(locale, gs, f), fs + [f])
  {
    hide AbsorbIntoGroup, Shows, Having, NewGroup;
    var g := if f.groupKey in gs.at then gs.at[f.groupKey] else NewGroup(f);
    ShowsMore(locale, g, Having(fs, f.groupKey), f);
    assert (fs + [f])[..|fs|] == fs;
    forall k
      ensures k in Absorb(locale, gs, f).at <==> Having(fs + [f], k) != []
      ensures k in Absorb(locale, gs, f).at ==> Shows(locale, Absorb(locale, gs, f).at[k], Having(fs + [f], k))
    {
      HavingOfSnoc(fs + [f], k);
    }
  }

  lemma NothingShows(locale: Locale)
    ensures AllShow(locale, Empty(), [])
  {
  }

  /** Each group collects exactly what its findings name, and shows the first of the highest severities and
      upgrade targets and the last of the highest Redmine syncs and latest dates among them; each source
      group does so for the findings of its title. */
  lemma {:induction false} TicketsShowTheirFindings(locale: Locale, fs: seq<Finding>)
    requires locale.Collates()
    ensures AllShow(locale, Grouped(locale, fs), fs)
  {
    hide Absorb, AllShow;
    if fs == [] {
      NothingShows(locale);
    } else {
      TicketsShowTheirFindings(locale, fs[..|fs| - 1]);
      AbsorbKeepsShowing(locale, Grouped(locale, fs[..|fs| - 1]), fs[..|fs| - 1], fs[|fs| - 1]);
      assert fs == fs[..|fs| - 1] + [fs[|fs| - 1]];
    }
  }

  /** The target shown is some finding's, and none is of a higher version. */
  lemma TargetIsHighest(locale: Locale, target: Option<Target>, ms: seq<Finding>)
    requires ShowsTarget(locale, target, ms)
    ensures target.Some? ==> exists f <- ms :: f.target == target
    ensures forall f <- ms :: f.target.Some? ==>
      target.Some? && Versions.CompareVersions(locale, f.target.value.version, target.value.version) <= 0
  {
    hide Versions.CompareVersions;
    EachLength(TargetOf, ms);
    forall f | f in ms ensures f.target in Each(TargetOf, ms) {
      var j :| 0 <= j < |ms| && ms[j] == f;
      EachAt(TargetOf, ms, j);
    }
    if target.Some? {
      var i :| FirstBestAt(target.value, Each(TargetOf, ms), i, (a, b) => TargetAtMost(locale, a, b));
      EachAt(TargetOf, ms, i);
      assert ms[i] in ms;
    }
  }

  // ----- choices by name -----

  ghost predicate Rated(ms: seq<Finding>, severity: string) { exists f <- ms :: f.severity == severity }

  /** `Critical` if a finding is critical, else `High` if one is high, else `Medium`, else `Low`, else what
      the first finding says, `Info` for nothing. */
  ghost function HighestNamed(ms: seq<Finding>): string
    requires ms != []
  {
    if Rated(ms, "Critical") then "Critical"
    else if Rated(ms, "High") then "High"
    else if Rated(ms, "Medium") then "Medium"
    else if Rated(ms, "Low") then "Low"
    else if ms[0].severity == "" then "Info" else ms[0].severity
  }

  lemma SeverityByName(severity: string, ms: seq<Finding>)
    requires ms != [] && ShowsSeverity(severity, ms)
    ensures severity == HighestNamed(ms)
  {
    hide SeverityRank;
    EachLength(RatingOf, ms);
    var i :| FirstBestAt(severity, Each(RatingOf, ms), i, SeverityAtMost);
    EachAt(RatingOf, ms, i);
    forall f | f in ms ensures SeverityRank(SeverityOf(f)) <= SeverityRank(severity) {
      var j :| 0 <= j < |ms| && ms[j] == f;
      EachAt(RatingOf, ms, j);
      assert Each(RatingOf, ms)[j] in Each(RatingOf, ms);
    }
    forall j | 0 <= j < i ensures SeverityRank(SeverityOf(ms[j])) < SeverityRank(severity) {
      EachAt(RatingOf, ms, j);
    }
    assert ms[i] in ms;
    HighestIsNamed(severity, ms, i);
  }

  lemma HighestIsNamed(severity: string, ms: seq<Finding>, i: int)
    requires 0 <= i < |ms| && SeverityOf(ms[i]) == severity
    requires forall f <- ms :: SeverityRank(SeverityOf(f)) <= SeverityRank(severity)
    requires forall j :: 0 <= j < i ==> SeverityRank(SeverityOf(ms[j])) < SeverityRank(severity)
    ensures severity == HighestNamed(ms)
  {
    assert ms[i] in ms;
  }

  ghost predicate Acted(ms: seq<Finding>, action: string) {
    exists f <- ms :: f.sync.Some? && f.sync.value.action == action
  }

  predicate IsClosed(action: string) { action == "closed_with_new_findings" || action == "existing_closed" }

  predicate IsSkipped(action: string) { action == "skipped_severity" || action == "not_found" }

  /** Actions no preference is stated between. */
  predicate SameStanding(a: string, b: string) {
    || a == b || (IsClosed(a) && IsClosed(b)) || (IsSkipped(a) && IsSkipped(b))
    || (!IsNamed(a) && !IsNamed(b))
  }

  predicate IsNamed(a: string) {
    a == "created" || a == "existing_open" || IsClosed(a) || IsSkipped(a) || a == "check_failed"
  }

  /** The best standing among the actions of the findings. */
  ghost predicate IsKept(action: string, ms: seq<Finding>) {
    if Acted(ms, "created") then action == "created"
    else if Acted(ms, "existing_open") then action == "existing_open"
    else if Acted(ms, "closed_with_new_findings") || Acted(ms, "existing_closed") then IsClosed(action)
    else if Acted(ms, "skipped_severity") || Acted(ms, "not_found") then IsSkipped(action)
    else if Acted(ms, "check_failed") then action == "check_failed"
    else !IsNamed(action)
  }

  /** The finding at `i` has this sync, none of the same standing is later, nor as late behind it. */
  ghost predicate IsLatestAt(sync: Sync, ms: seq<Finding>, i: int) {
    && 0 <= i < |ms| && ms[i].sync == Some(sync)
    && forall j :: 0 <= j < |ms| && ms[j].sync.Some? && SameStanding(ms[j].sync.value.action, sync.action) ==>
         ms[j].sync.value.timestamp <= sync.timestamp && (j > i ==> ms[j].sync.value.timestamp < sync.timestamp)
  }

  ghost predicate IsKeptSync(sync: Option<Sync>, ms: seq<Finding>) {
    match sync
    case None => forall f <- ms :: f.sync.None?
    case Some(kept) => IsKept(kept.action, ms) && exists i :: IsLatestAt(kept, ms, i)
  }

  lemma KeptByName(action: string, ms: seq<Finding>)
    requires Acted(ms, action)
    requires forall f <- ms :: f.sync.Some? ==> SyncPriority(f.sync.value.action) <= SyncPriority(action)
    ensures IsKept(action, ms)
  {
  }

  lemma SameStandingTies(a: string, b: string)
    requires SameStanding(a, b)
    ensures SyncPriority(a) == SyncPriority(b)
  {
  }

  lemma SyncByName(sync: Option<Sync>, ms: seq<Finding>)
    requires ShowsSync(sync, ms)
    ensures IsKeptSync(sync, ms)
  {
    hide SyncPriority, IsKept, SameStanding;
    EachLength(SyncOf, ms);
    forall f | f in ms ensures f.sync in Each(SyncOf, ms) {
      var j :| 0 <= j < |ms| && ms[j] == f;
      EachAt(SyncOf, ms, j);
    }
    if sync.Some? {
      var i :| LastBestAt(sync.value, Each(SyncOf, ms), i, SyncAtMost);
      EachAt(SyncOf, ms, i);
      assert ms[i] in ms;
      KeptByName(sync.value.action, ms);
      forall j | 0 <= j < |ms| && ms[j].sync.Some? && SameStanding(ms[j].sync.value.action, sync.value.action)
        ensures ms[j].sync.value.timestamp <= sync.value.timestamp
        ensures j > i ==> ms[j].sync.value.timestamp < sync.value.timestamp
      {
        EachAt(SyncOf, ms, j);
        assert ms[j] in ms;
        SameStandingTies(ms[j].sync.value.action, sync.value.action);
      }
      assert IsLatestAt(sync.value, ms, i);
    }
  }

  /** By name: each ticket, and each source group for its title, shows the highest severity named; and the
      ticket shows the Redmine sync created, else already open, else closed, else skipped or not found, else
      failed to check, else any: of those of one standing the latest, the last if several. */
  lemma TicketsChooseByName(locale: Locale, fs: seq<Finding>, k: string)
    requires locale.Collates() && k in Grouped(locale, fs).at
    ensures var (g, ms) := (Grouped(locale, fs).at[k], Having(fs, k));
      && ms != [] && g.severity == HighestNamed(ms) && IsKeptSync(g.sync, ms)
      && (forall t <- g.sourceGroups.at ::
            Titled(ms, t) != [] && g.sourceGroups.at[t].severity == HighestNamed(Titled(ms, t)))
  {
    hide Grouped, Having, Titled, Collects, SourceCollects, HighestNamed, IsKeptSync, ShowsSeverity, ShowsTarget,
      ShowsSync, ShowsDate;
    TicketsShowTheirFindings(locale, fs);
    var (g, ms) := (Grouped(locale, fs).at[k], Having(fs, k));
    assert Shows(locale, g, ms);
    SeverityByName(g.severity, ms);
    SyncByName(g.sync, ms);
    forall t | t in g.sourceGroups.at
      ensures Titled(ms, t) != [] && g.sourceGroups.at[t].severity == HighestNamed(Titled(ms, t))
    {
      SeverityByName(g.sourceGroups.at[t].severity, Titled(ms, t));
    }
  }
}
