/**
 * New findings per sync run, and their totals per engagement and company (syncHistoryModel.js).
 *
 * A row's timestamp, numeric id and pulled counts are taken as parsed.
 */
module SyncHistory {
  import opened OrderedMap
  import opened Text
  import Orders

  datatype Severity = Critical | High | Medium | Low

  datatype Counts = Counts(critical: nat, high: nat, medium: nat, low: nat)
  {
    function At(severity: Severity): nat {
      match severity
      case Critical => critical
      case High => high
      case Medium => medium
      case Low => low
    }

    function Plus(c: Counts): Counts {
      Counts(critical + c.critical, high + c.high, medium + c.medium, low + c.low)
    }

    function Total(): nat { critical + high + medium + low }
  }

  const NONE := Counts(0, 0, 0, 0)

  function Excess(current: nat, previous: nat): nat { if current > previous then current - previous else 0 }

  function RiseFrom(previous: Counts, current: Counts): Counts {
    Counts(Excess(current.critical, previous.critical), Excess(current.high, previous.high),
           Excess(current.medium, previous.medium), Excess(current.low, previous.low))
  }

  datatype Row = Row(
    id: int,
    productId: string, productName: string, engagementId: string, engagementName: string,
    company: string, scope: string, complete: bool,   // set by `Normalize`
    statusFilter: string,
    timestamp: int,
    pulled: Counts,
    newFindingCount: nat, severityDelta: Counts)      // set from the delta map

  // ----- normalising and keys -----

  function FirstText(a: string, b: string): string { if CleanText(a) != "" then CleanText(a) else CleanText(b) }

  function Normalize(row: Row): Row {
    var company := FirstText(row.productName, row.productId);
    var scope := FirstText(row.engagementName, row.engagementId);
    row.(company := company, scope := scope, complete := company != "" && scope != "")
  }

  predicate HasText(s: string) { CleanText(s) != "" }

  /** A row is shown under the names of its product and engagement, or their ids where there is no name, and is
      complete if it has both; nothing else of it changes. */
  lemma NormalizedNames(row: Row)
    ensures var n := Normalize(row);
      && (n.complete <==> (HasText(row.productName) || HasText(row.productId))
                          && (HasText(row.engagementName) || HasText(row.engagementId)))
      && n.company == CleanText(if HasText(row.productName) then row.productName else row.productId)
      && n.scope == CleanText(if HasText(row.engagementName) then row.engagementName else row.engagementId)
      && n == row.(company := n.company, scope := n.scope, complete := n.complete)
  {
  }

  function CompanyKey(lower: string -> string, row: Row): string { lower(FirstText(row.productId, row.company)) }

  function EngagementPart(lower: string -> string, row: Row): string { lower(FirstText(row.engagementId, row.scope)) }

  function EngagementKey(lower: string -> string, row: Row): string {
    CompanyKey(lower, row) + "|" + EngagementPart(lower, row)
  }

  function ScopeKey(lower: string -> string, row: Row): string {
    lower(FirstText(row.productId, row.productName) + "|" + FirstText(row.engagementId, row.engagementName))
  }

  /** Lower-casing does not reach across the separator. */
  ghost predicate LowersApart(lower: string -> string) {
    forall a, b :: lower(a + "|" + b) == lower(a) + "|" + lower(b)
  }

  lemma FirstOfNormalized(id: string, name: string)
    ensures FirstText(id, FirstText(name, id)) == FirstText(id, name)
  {
    CleanTextIsClean(name);
    CleanTextIsClean(id);
  }

  /** For normalised rows the scope that deltas are computed in is the engagement they are shown under. */
  lemma ScopeIsEngagement(lower: string -> string, row: Row)
    requires LowersApart(lower)
    ensures ScopeKey(lower, Normalize(row)) == EngagementKey(lower, Normalize(row))
  {
    FirstOfNormalized(row.productId, row.productName);
    FirstOfNormalized(row.engagementId, row.engagementName);
  }

  /** Engagement keys tell companies and engagements of rows apart unless one company key and the
      separator begin the other. */
  lemma KeysTellApart(lower: string -> string, r: Row, s: Row)
    requires !Reaches('|', CompanyKey(lower, r), CompanyKey(lower, s))
    requires !Reaches('|', CompanyKey(lower, s), CompanyKey(lower, r))
    ensures EngagementKey(lower, r) == EngagementKey(lower, s) <==>
      CompanyKey(lower, r) == CompanyKey(lower, s) && EngagementPart(lower, r) == EngagementPart(lower, s)
  {
    hide CompanyKey, EngagementPart, Reaches;
    var (a, b) := (CompanyKey(lower, r), EngagementPart(lower, r));
    var (c, d) := (CompanyKey(lower, s), EngagementPart(lower, s));
    if EngagementKey(lower, r) == EngagementKey(lower, s) {
      assert Collide('|', a, b, c, d);
      if a != c {
        CollideExactly('|', a, c);
      }
      assert (a + "|" + b)[|a| + 1..] == b && (c + "|" + d)[|c| + 1..] == d;
    }
  }

  /** How lower-casing treats text: it does not reach across the separator, does nothing twice, and
      leaves clean text clean. */
  ghost predicate LowersText(lower: string -> string) {
    && LowersApart(lower)
    && (forall s :: lower(lower(s)) == lower(s))
    && (forall s :: CleanText(s) == s ==> CleanText(lower(s)) == lower(s))
  }

  /** A company key as rows have them. */
  predicate IsCompanyKey(lower: string -> string, key: string) {
    key != "" && CleanText(key) == key && lower(key) == key
  }

  /** Complete rows of two companies that share the scope their deltas are computed in. */
  ghost predicate Clash(lower: string -> string, a: string, c: string, r: Row, s: Row) {
    var (n, m) := (Normalize(r), Normalize(s));
    && n.complete && m.complete && CompanyKey(lower, n) == a && CompanyKey(lower, m) == c
    && ScopeKey(lower, n) == ScopeKey(lower, m)
  }

  function RowOf(company: string, engagement: string): Row {
    Row(0, company, "", engagement, "", "", "", false, "", 0, NONE, 0, NONE)
  }

  /** A row of a company and an engagement, named by ids. */
  lemma RowOfTells(lower: string -> string, company: string, engagement: string)
    requires LowersApart(lower)
    requires company != "" && CleanText(company) == company && lower(company) == company
    requires engagement != "" && CleanText(engagement) == engagement && lower(engagement) == engagement
    ensures var n := Normalize(RowOf(company, engagement));
      n.complete && CompanyKey(lower, n) == company && ScopeKey(lower, n) == company + "|" + engagement
  {
    hide CleanText, LowersApart;
    assert CleanText("") == "" by { CleanNothing(); }
    ScopeIsEngagement(lower, RowOf(company, engagement));
  }

  lemma BridgesClash(lower: string -> string, a: string, c: string)
    requires LowersText(lower) && IsCompanyKey(lower, a) && IsCompanyKey(lower, c) && Bridges(a, c)
    ensures exists r, s :: Clash(lower, a, c, r, s)
    ensures exists r, s :: Clash(lower, c, a, r, s)
  {
    hide CleanText, IsSpace, Normalize, CompanyKey, ScopeKey;
    var rest := c[|a| + 1..];
    BridgeCollides(a, c, a);
    assert c == a + "|" + rest;
    assert lower(a + "|" + rest) == lower(a) + "|" + lower(rest);
    Behind(a + "|", rest, lower(rest));
    assert lower(rest + "|" + a) == rest + "|" + a;
    RowOfTells(lower, a, rest + "|" + a);
    RowOfTells(lower, c, a);
    var r, s := RowOf(a, rest + "|" + a), RowOf(c, a);
    assert Clash(lower, a, c, r, s) && Clash(lower, c, a, s, r);
  }

  lemma ClashBridges(lower: string -> string, a: string, c: string, r: Row, s: Row)
    requires LowersText(lower) && a != c && Clash(lower, a, c, r, s)
    ensures Bridges(a, c) || Bridges(c, a)
  {
    hide CleanText, CompanyKey, ScopeKey, IsSpace, LowersApart, Bridges;
    var (n, m) := (Normalize(r), Normalize(s));
    ScopeIsEngagement(lower, r);
    ScopeIsEngagement(lower, s);
    PartIsClean(lower, n);
    PartIsClean(lower, m);
    assert Collide('|', a, EngagementPart(lower, n), c, EngagementPart(lower, m));
    CollisionBridges(a, EngagementPart(lower, n), c, EngagementPart(lower, m));
  }

  lemma PartIsClean(lower: string -> string, row: Row)
    requires LowersText(lower)
    ensures CleanText(EngagementPart(lower, row)) == EngagementPart(lower, row)
  {
    hide CleanText;
    CleanTextIsClean(row.engagementId);
    CleanTextIsClean(row.scope);
    assert CleanText(FirstText(row.engagementId, row.scope)) == FirstText(row.engagementId, row.scope);
  }

  /** Two companies can share a delta scope exactly if one key and the separator begin the other, with
      no blank behind; rows for it then exist. */
  lemma CompaniesClashExactly(lower: string -> string, a: string, c: string)
    requires LowersText(lower) && IsCompanyKey(lower, a) && IsCompanyKey(lower, c) && a != c
    ensures (exists r, s :: Clash(lower, a, c, r, s)) <==> Bridges(a, c) || Bridges(c, a)
  {
    hide LowersText, IsCompanyKey, Bridges, CompanyKey, ScopeKey, Normalize;
    if r, s :| Clash(lower, a, c, r, s) {
      ClashBridges(lower, a, c, r, s);
    }
    if Bridges(a, c) {
      BridgesClash(lower, a, c);
    } else if Bridges(c, a) {
      BridgesClash(lower, c, a);
    }
  }

  /** For instance company `a|b`, engagement `c`, and company `a`, engagement `b|c`, share the scope
      their deltas are computed in. */
  lemma SeparatorsCanConfuse(lower: string -> string, r: Row, s: Row)
    requires LowersApart(lower) && lower("a") == "a" && lower("b") == "b" && lower("c") == "c"
    requires r.productId == "a|b" && r.engagementId == "c" && s.productId == "a" && s.engagementId == "b|c"
    ensures ScopeKey(lower, r) == ScopeKey(lower, s) && CompanyKey(lower, r) != CompanyKey(lower, s)
  {
    hide CleanText, LowersApart;
    assert "a" + "|" + "b" == "a|b" && "b" + "|" + "c" == "b|c" && "a|b" + "|" + "c" == "a" + "|" + "b|c";
    LettersStay("a|b");
    LettersStay("c");
    LettersStay("a");
    LettersStay("b|c");
    SplitLower(lower, "a", "b");
  }

  lemma SplitLower(lower: string -> string, a: string, b: string)
    requires LowersApart(lower)
    ensures lower(a + "|" + b) == lower(a) + "|" + lower(b)
  {
  }

  lemma LettersStay(s: string)
    requires s in ["a|b", "c", "a", "b|c"]
    ensures CleanText(s) == s
  {
    CleanStays(s);
  }

  // ----- deltas -----

  /** Oldest first, then by id. */
  function CompareRows(a: Row, b: Row): int {
    if a.timestamp != b.timestamp then a.timestamp - b.timestamp else a.id - b.id
  }

  lemma RowOrderIsConsistent()
    ensures Orders.Consistent(CompareRows)
  {
  }

  /** The complete rows of a scope, in the order given. */
  function InScope(lower: string -> string, rows: seq<Row>, key: string): seq<Row> {
    if rows == [] then []
    else
      var last := rows[|rows| - 1];
      InScope(lower, rows[..|rows| - 1], key) +
      if last.complete && ScopeKey(lower, last) == key then [last] else []
  }

  /** The runs of a scope, oldest first. */
  function RunsOf(lower: string -> string, rows: seq<Row>, key: string): seq<Row> {
    Orders.Sort(CompareRows, InScope(lower, rows, key))
  }

  lemma RunsAreOldestFirst(lower: string -> string, rows: seq<Row>, key: string)
    ensures var runs := RunsOf(lower, rows, key);
      forall i, j :: 0 <= i < j < |runs| ==>
        runs[i].timestamp < runs[j].timestamp || (runs[i].timestamp == runs[j].timestamp && runs[i].id <= runs[j].id)
  {
    hide InScope, Orders.Sort;
    RowOrderIsConsistent();
    Orders.SortSorts(CompareRows, InScope(lower, rows, key));
    var runs := RunsOf(lower, rows, key);
    assert forall i, j :: 0 <= i < j < |runs| ==> CompareRows(runs[i], runs[j]) <= 0;
  }

  function DeltaAt(runs: seq<Row>, i: nat): Counts
    requires i < |runs|
  {
    RiseFrom(if i > 0 then runs[i - 1].pulled else NONE, runs[i].pulled)
  }

  /** The sum of one severity's deltas over the first `n` runs, and the sum of its falls. */
  function SumOfRises(runs: seq<Row>, severity: Severity, n: nat): nat
    requires n <= |runs|
  {
    if n == 0 then 0 else SumOfRises(runs, severity, n - 1) + DeltaAt(runs, n - 1).At(severity)
  }

  function SumOfFalls(runs: seq<Row>, severity: Severity, n: nat): nat
    requires n <= |runs|
  {
    if n < 2 then 0
    else SumOfFalls(runs, severity, n - 1)
         + Excess(runs[n - 2].pulled.At(severity), runs[n - 1].pulled.At(severity))
  }

  ghost predicate NeverFalls(runs: seq<Row>, severity: Severity) {
    forall i :: 0 < i < |runs| ==> runs[i - 1].pulled.At(severity) <= runs[i].pulled.At(severity)
  }

  lemma {:induction false} RisesAccount(runs: seq<Row>, severity: Severity, n: nat)
    requires 0 < n <= |runs|
    ensures SumOfRises(runs, severity, n) == runs[n - 1].pulled.At(severity) + SumOfFalls(runs, severity, n)
    ensures forall i :: 0 <= i < n ==> runs[i].pulled.At(severity) <= SumOfRises(runs, severity, n)
    ensures SumOfFalls(runs, severity, n) == 0 <==>
      forall i :: 0 < i < n ==> runs[i - 1].pulled.At(severity) <= runs[i].pulled.At(severity)
  {
    if n > 1 {
      RisesAccount(runs, severity, n - 1);
    } else {
      assert SumOfRises(runs, severity, 0) == 0;
    }
  }

  /** Over all runs of a scope the new findings of a severity amount to the last pulled count plus
      all falls on the way: at least every pulled count, and the last one exactly if none fell. */
  lemma DeltasAccountForPulledCounts(lower: string -> string, rows: seq<Row>, key: string, severity: Severity)
    requires RunsOf(lower, rows, key) != []
    ensures var runs := RunsOf(lower, rows, key); var sum := SumOfRises(runs, severity, |runs|);
      && sum == runs[|runs| - 1].pulled.At(severity) + SumOfFalls(runs, severity, |runs|)
      && (forall r <- runs :: r.pulled.At(severity) <= sum)
      && (sum == runs[|runs| - 1].pulled.At(severity) <==> NeverFalls(runs, severity))
  {
    RisesAccount(RunsOf(lower, rows, key), severity, |RunsOf(lower, rows, key)|);
  }

  ghost predicate UniqueIds(rows: seq<Row>) {
    forall i, j :: 0 <= i < j < |rows| ==> rows[i].id != rows[j].id
  }

  datatype Delta = Delta(total: nat, bySeverity: Counts)

  /** The deltas of one scope's runs, written into the map one by one. */
  function WithRuns(deltas: map<int, Delta>, runs: seq<Row>, n: nat): map<int, Delta>
    requires n <= |runs|
  {
    if n == 0 then deltas
    else
      var d := DeltaAt(runs, n - 1);
      WithRuns(deltas, runs, n - 1)[runs[n - 1].id := Delta(d.Total(), d)]
  }

  method AddRuns(deltas: map<int, Delta>, runs: seq<Row>) returns (after: map<int, Delta>)
    ensures after == WithRuns(deltas, runs, |runs|)
  {
    after := deltas;
    for i := 0 to |runs|
      invariant after == WithRuns(deltas, runs, i)
    {
      var previous := if i > 0 then runs[i - 1].pulled else NONE;
      var delta := RiseFrom(previous, runs[i].pulled);
      after := after[runs[i].id := Delta(delta.critical + delta.high + delta.medium + delta.low, delta)];
    }
  }

  ghost predicate Holds(runs: seq<Row>, n: nat, id: int) {
    exists i :: 0 <= i < n <= |runs| && runs[i].id == id
  }

  /** The first `n` runs have their rises in the map. */
  ghost predicate Describes(deltas: map<int, Delta>, runs: seq<Row>, n: nat)
    requires n <= |runs|
  {
    forall i :: 0 <= i < n ==>
      runs[i].id in deltas && deltas[runs[i].id] == Delta(DeltaAt(runs, i).Total(), DeltaAt(runs, i))
  }

  lemma {:induction false} WithRunsDescribes(deltas: map<int, Delta>, runs: seq<Row>, n: nat)
    requires n <= |runs| && UniqueIds(runs)
    ensures Describes(WithRuns(deltas, runs, n), runs, n)
  {
    hide DeltaAt, Counts.Total;
    if n > 0 {
      WithRunsDescribes(deltas, runs, n - 1);
      forall i | 0 <= i < n ensures runs[i].id in WithRuns(deltas, runs, n)
          && WithRuns(deltas, runs, n)[runs[i].id] == Delta(DeltaAt(runs, i).Total(), DeltaAt(runs, i)) {
        assert i < n - 1 ==> runs[i].id != runs[n - 1].id;
      }
    }
  }

  lemma {:induction false} WithRunsElsewhere(deltas: map<int, Delta>, runs: seq<Row>, n: nat, id: int)
    requires n <= |runs|
    ensures id in WithRuns(deltas, runs, n) <==> id in deltas || Holds(runs, n, id)
    ensures !Holds(runs, n, id) && id in deltas ==> WithRuns(deltas, runs, n)[id] == deltas[id]
  {
    if n > 0 {
      WithRunsElsewhere(deltas, runs, n - 1, id);
      assert Holds(runs, n, id) <==> Holds(runs, n - 1, id) || runs[n - 1].id == id;
    }
  }

  /** The scopes of the complete rows, in the order they first come up. */
  function ScopesOf(lower: string -> string, rows: seq<Row>): seq<string> {
    if rows == [] then []
    else
      var last := rows[|rows| - 1];
      var before := ScopesOf(lower, rows[..|rows| - 1]);
      if last.complete then Add(before, ScopeKey(lower, last)) else before
  }

  /** The deltas of the first `n` scopes, written one scope after the other. */
  function WithScopes(lower: string -> string, rows: seq<Row>, scopes: seq<string>, n: nat): map<int, Delta>
    requires n <= |scopes|
  {
    if n == 0 then map[]
    else
      var runs := RunsOf(lower, rows, scopes[n - 1]);
      WithRuns(WithScopes(lower, rows, scopes, n - 1), runs, |runs|)
  }

  function FindingDeltas(lower: string -> string, rows: seq<Row>): map<int, Delta> {
    var scopes := ScopesOf(lower, rows);
    WithScopes(lower, rows, scopes, |scopes|)
  }

  /** The complete rows, grouped by scope. */
  ghost predicate GroupedByScope(lower: string -> string, scopes: OrdMap<string, seq<Row>>, rows: seq<Row>) {
    && scopes.Valid() && scopes.keys == ScopesOf(lower, rows)
    && (forall key <- scopes.at :: scopes.at[key] == InScope(lower, rows, key))
    && (forall key :: key !in scopes.at ==> InScope(lower, rows, key) == [])
  }

  lemma InScopeOneMore(lower: string -> string, rows: seq<Row>, row: Row, key: string)
    ensures InScope(lower, rows + [row], key) ==
      if row.complete && ScopeKey(lower, row) == key then InScope(lower, rows, key) + [row]
      else InScope(lower, rows, key)
  {
    hide ScopeKey;
    assert (rows + [row])[..|rows|] == rows;
  }

  method AddToScope(lower: string -> string, scopes: OrdMap<string, seq<Row>>, row: Row, ghost rows: seq<Row>)
    returns (after: OrdMap<string, seq<Row>>)
    requires GroupedByScope(lower, scopes, rows)
    ensures GroupedByScope(lower, after, rows + [row])
  {
    hide ScopeKey, InScope;
    assert (rows + [row])[..|rows|] == rows;
    after := scopes;
    if row.complete {
      var key := ScopeKey(lower, row);
      var runs := if key in scopes.at then scopes.at[key] else [];
      PutKeepsValid(scopes, key, runs + [row]);
      assert key in Range(scopes.keys) <==> key in scopes.keys;
      after := scopes.Put(key, runs + [row]);
    }
    forall key ensures if key in after.at then after.at[key] == InScope(lower, rows + [row], key)
                       else InScope(lower, rows + [row], key) == [] {
      InScopeOneMore(lower, rows, row, key);
    }
  }

  method GroupByScope(lower: string -> string, rows: seq<Row>) returns (scopes: OrdMap<string, seq<Row>>)
    ensures GroupedByScope(lower, scopes, rows)
  {
    hide ScopeKey, InScope, GroupedByScope;
    scopes := Empty();
    NoScopesYet(lower);
    assert rows[..0] == [];
    for i := 0 to |rows|
      invariant GroupedByScope(lower, scopes, rows[..i])
    {
      assert rows[..i + 1] == rows[..i] + [rows[i]];
      scopes := AddToScope(lower, scopes, rows[i], rows[..i]);
    }
    assert rows[..|rows|] == rows;
  }

  /** Grouping by scope, then each scope's runs in order. */
  method BuildFindingDeltaMap(lower: string -> string, rows: seq<Row>) returns (deltas: map<int, Delta>)
    ensures deltas == FindingDeltas(lower, rows)
  {
    hide ScopeKey, InScope, WithRuns;
    var scopes := GroupByScope(lower, rows);
    deltas := map[];
    KeysAreBound(scopes);
    for k := 0 to |scopes.keys|
      invariant deltas == WithScopes(lower, rows, scopes.keys, k)
    {
      deltas := AddRuns(deltas, Orders.Sort(CompareRows, scopes.at[scopes.keys[k]]));
    }
  }

  lemma NoScopesYet(lower: string -> string)
    ensures GroupedByScope(lower, Empty(), [])
  {
  }

  lemma {:induction false} InScopeMembers(lower: string -> string, rows: seq<Row>, key: string, r: Row)
    ensures r in InScope(lower, rows, key) <==> r in rows && r.complete && ScopeKey(lower, r) == key
  {
    if rows != [] {
      InScopeMembers(lower, rows[..|rows| - 1], key, r);
      assert rows == rows[..|rows| - 1] + [rows[|rows| - 1]];
    }
  }

  lemma RunsMembers(lower: string -> string, rows: seq<Row>, key: string, r: Row)
    ensures r in RunsOf(lower, rows, key) <==> r in rows && r.complete && ScopeKey(lower, r) == key
  {
    InScopeMembers(lower, rows, key, r);
    Orders.SortKeepsMembers(CompareRows, InScope(lower, rows, key));
    assert r in RunsOf(lower, rows, key) <==> r in multiset(RunsOf(lower, rows, key));
    assert r in InScope(lower, rows, key) <==> r in multiset(InScope(lower, rows, key));
  }

  lemma {:induction false} InScopeKeepsUnique(lower: string -> string, rows: seq<Row>, key: string)
    requires UniqueIds(rows)
    ensures UniqueIds(InScope(lower, rows, key))
  {
    if rows != [] {
      var before, last := rows[..|rows| - 1], rows[|rows| - 1];
      InScopeKeepsUnique(lower, before, key);
      forall r | r in InScope(lower, before, key) ensures r.id != last.id {
        InScopeMembers(lower, before, key, r);
        var i :| 0 <= i < |before| && before[i] == r;
        assert rows[i] == r;
      }
    }
  }

  lemma TwiceIn(b: seq<Row>, i: nat, j: nat)
    requires i < j < |b| && b[i] == b[j]
    ensures multiset(b)[b[i]] >= 2
  {
    assert b == b[..j] + b[j..];
    assert b[i] in b[..j] && b[j] in b[j..];
  }

  lemma UniqueRearranged(a: seq<Row>, b: seq<Row>)
    requires UniqueIds(a) && multiset(a) == multiset(b)
    ensures UniqueIds(b)
  {
    forall i, j | 0 <= i < j < |b| ensures b[i].id != b[j].id {
      assert b[i] in multiset(b) && b[j] in multiset(b);
      assert b[i] in a && b[j] in a;
      if b[i] == b[j] {
        TwiceIn(b, i, j);
        assert Distinct(a);
        AtMostOnce(a, b[i]);
      }
    }
  }

  lemma RunsAreUnique(lower: string -> string, rows: seq<Row>, key: string)
    requires UniqueIds(rows)
    ensures UniqueIds(RunsOf(lower, rows, key))
  {
    InScopeKeepsUnique(lower, rows, key);
    Orders.SortKeepsMembers(CompareRows, InScope(lower, rows, key));
    UniqueRearranged(InScope(lower, rows, key), RunsOf(lower, rows, key));
  }

  /** Two scopes share no run. */
  lemma ScopesAreApart(lower: string -> string, rows: seq<Row>, key: string, other: string, i: nat)
    requires UniqueIds(rows) && key != other && i < |RunsOf(lower, rows, key)|
    ensures var others := RunsOf(lower, rows, other); !Holds(others, |others|, RunsOf(lower, rows, key)[i].id)
  {
    var r, others := RunsOf(lower, rows, key)[i], RunsOf(lower, rows, other);
    RunsMembers(lower, rows, key, r);
    forall j | 0 <= j < |others| ensures others[j].id != r.id {
      RunsMembers(lower, rows, other, others[j]);
    }
  }

  lemma {:induction false} ScopesOfMembers(lower: string -> string, rows: seq<Row>)
    ensures Distinct(ScopesOf(lower, rows))
    ensures forall r <- rows :: r.complete ==> ScopeKey(lower, r) in ScopesOf(lower, rows)
  {
    if rows != [] {
      ScopesOfMembers(lower, rows[..|rows| - 1]);
      assert rows == rows[..|rows| - 1] + [rows[|rows| - 1]];
    }
  }

  lemma {:induction false} EarlierScopesStay(lower: string -> string, rows: seq<Row>, scopes: seq<string>, n: nat,
      j: nat)
    requires j < n <= |scopes| && Distinct(scopes) && UniqueIds(rows)
    ensures var runs := RunsOf(lower, rows, scopes[j]);
      Describes(WithScopes(lower, rows, scopes, n), runs, |runs|)
  {
    hide RunsOf, UniqueIds;
    var runs, latest := RunsOf(lower, rows, scopes[j]), RunsOf(lower, rows, scopes[n - 1]);
    var before := WithScopes(lower, rows, scopes, n - 1);
    if j == n - 1 {
      RunsAreUnique(lower, rows, scopes[j]);
      WithRunsDescribes(before, runs, |runs|);
    } else {
      EarlierScopesStay(lower, rows, scopes, n - 1, j);
      forall i: nat | i < |runs| ensures var id := runs[i].id;
          !Holds(latest, |latest|, id) && id in WithRuns(before, latest, |latest|)
          && WithRuns(before, latest, |latest|)[id] == before[id] {
        ScopesAreApart(lower, rows, scopes[j], scopes[n - 1], i);
        WithRunsElsewhere(before, latest, |latest|, runs[i].id);
      }
    }
  }

  ghost predicate HasCompleteRow(rows: seq<Row>, id: int) {
    exists r <- rows :: r.complete && r.id == id
  }

  lemma {:induction false} OnlyCompleteRows(lower: string -> string, rows: seq<Row>, scopes: seq<string>, n: nat,
      id: int)
    requires n <= |scopes| && id in WithScopes(lower, rows, scopes, n)
    ensures HasCompleteRow(rows, id)
  {
    hide ScopeKey, RunsOf, WithRuns;
    if n > 0 {
      var runs := RunsOf(lower, rows, scopes[n - 1]);
      WithRunsElsewhere(WithScopes(lower, rows, scopes, n - 1), runs, |runs|, id);
      if id in WithScopes(lower, rows, scopes, n - 1) {
        OnlyCompleteRows(lower, rows, scopes, n - 1, id);
      } else {
        var i :| 0 <= i < |runs| && runs[i].id == id;
        RunsMembers(lower, rows, scopes[n - 1], runs[i]);
      }
    }
  }

  /** When ids are unique, each run of each scope has its rise over the run before it in its scope. */
  lemma EveryRunHasItsRise(lower: string -> string, rows: seq<Row>, key: string)
    requires UniqueIds(rows)
    ensures var runs := RunsOf(lower, rows, key); Describes(FindingDeltas(lower, rows), runs, |runs|)
  {
    var runs, scopes := RunsOf(lower, rows, key), ScopesOf(lower, rows);
    ScopesOfMembers(lower, rows);
    if runs != [] {
      RunsMembers(lower, rows, key, runs[0]);
      var j :| 0 <= j < |scopes| && scopes[j] == key;
      EarlierScopesStay(lower, rows, scopes, |scopes|, j);
    }
  }

  predicate IsRise(rise: nat, previous: nat, current: nat) {
    rise == if current > previous then current - previous else 0
  }

  lemma SeveritiesAre(c: Counts)
    ensures c.At(Critical) == c.critical && c.At(High) == c.high && c.At(Medium) == c.medium && c.At(Low) == c.low
  {
  }

  /** Severity by severity, with their sum for the total. */
  lemma RunShowsItsRise(lower: string -> string, rows: seq<Row>, key: string, i: nat)
    requires UniqueIds(rows) && i < |RunsOf(lower, rows, key)|
    ensures var (runs, deltas) := (RunsOf(lower, rows, key), FindingDeltas(lower, rows));
      var p, q := if i == 0 then NONE else runs[i - 1].pulled, runs[i].pulled;
      && runs[i].id in deltas
      && (var d := deltas[runs[i].id];
          && d.total == d.bySeverity.critical + d.bySeverity.high + d.bySeverity.medium + d.bySeverity.low
          && IsRise(d.bySeverity.critical, p.critical, q.critical) && IsRise(d.bySeverity.high, p.high, q.high)
          && IsRise(d.bySeverity.medium, p.medium, q.medium) && IsRise(d.bySeverity.low, p.low, q.low))
  {
    hide RunsOf, FindingDeltas;
    EveryRunHasItsRise(lower, rows, key);
  }

  /** Exactly the complete rows have a delta. */
  lemma DeltasAreOfCompleteRows(lower: string -> string, rows: seq<Row>, id: int)
    requires UniqueIds(rows)
    ensures id in FindingDeltas(lower, rows) <==> HasCompleteRow(rows, id)
  {
    var scopes := ScopesOf(lower, rows);
    if id in FindingDeltas(lower, rows) {
      OnlyCompleteRows(lower, rows, scopes, |scopes|, id);
    }
    if HasCompleteRow(rows, id) {
      var r :| r in rows && r.complete && r.id == id;
      var key := ScopeKey(lower, r);
      EveryRunHasItsRise(lower, rows, key);
      RunsMembers(lower, rows, key, r);
    }
  }
}
