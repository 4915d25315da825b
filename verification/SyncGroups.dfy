/**
 * Sync runs rolled up into engagements and companies (syncHistoryModel.js).
 */
module SyncGroups {
  import opened Options
  import opened OrderedMap
  import opened SyncHistory
  import opened Text
  import Folding
  import Orders

  datatype Aggregate = Aggregate(
    key: string, title: string, subtitle: string,
    runs: nat, newFindings: nat, failedRuns: nat, partialRuns: nat, successRuns: nat,
    latestRow: Option<Row>, latestTimestamp: int,
    rows: seq<Row>, severityDelta: Counts)

  function NewAggregate(key: string, title: string, subtitle: string): Aggregate {
    Aggregate(key, title, subtitle, 0, 0, 0, 0, 0, None, 0, [], NONE)
  }

  function WithRow(a: Aggregate, row: Row): Aggregate {
    var counted := a.(
      runs := a.runs + 1,
      rows := a.rows + [row],
      newFindings := a.newFindings + row.newFindingCount,
      severityDelta := a.severityDelta.Plus(row.severityDelta),
      failedRuns := a.failedRuns + (if row.statusFilter == "failed" then 1 else 0),
      partialRuns := a.partialRuns + (if row.statusFilter == "partial" then 1 else 0),
      successRuns := a.successRuns + (if row.statusFilter in ["failed", "partial"] then 0 else 1));
    if a.latestRow == None || row.timestamp > a.latestTimestamp
    then counted.(latestRow := Some(row), latestTimestamp := row.timestamp)
    else counted
  }

  method AddRowToAggregate(a: Aggregate, row: Row) returns (aggregate: Aggregate)
    ensures aggregate == WithRow(a, row)
  {
    aggregate := a;
    aggregate := aggregate.(runs := aggregate.runs + 1);
    aggregate := aggregate.(rows := aggregate.rows + [row]);
    aggregate := aggregate.(newFindings := aggregate.newFindings + row.newFindingCount);
    aggregate := aggregate.(severityDelta := aggregate.severityDelta.Plus(row.severityDelta));
    if row.statusFilter == "failed" {
      aggregate := aggregate.(failedRuns := aggregate.failedRuns + 1);
    } else if row.statusFilter == "partial" {
      aggregate := aggregate.(partialRuns := aggregate.partialRuns + 1);
    } else {
      aggregate := aggregate.(successRuns := aggregate.successRuns + 1);
    }
    if aggregate.latestRow == None || row.timestamp > aggregate.latestTimestamp {
      aggregate := aggregate.(latestRow := Some(row), latestTimestamp := row.timestamp);
    }
  }

  function Summed(start: Aggregate, rows: seq<Row>): Aggregate { Folding.Fold(WithRow, start, rows) }

  // ----- what an aggregate counts -----

  /** Everything an aggregate counts, down to the copies of one row it lists. */
  datatype Measure = Runs | NewFindings | Failed | Partial | Success | OfSeverity(severity: Severity) | Copies(row: Row)

  function Figure(a: Aggregate, m: Measure): nat {
    match m
    case Runs => a.runs
    case NewFindings => a.newFindings
    case Failed => a.failedRuns
    case Partial => a.partialRuns
    case Success => a.successRuns
    case OfSeverity(severity) => a.severityDelta.At(severity)
    case Copies(row) => multiset(a.rows)[row]
  }

  /** What one row adds. */
  function Share(row: Row, m: Measure): nat {
    match m
    case Runs => 1
    case NewFindings => row.newFindingCount
    case Failed => if row.statusFilter == "failed" then 1 else 0
    case Partial => if row.statusFilter == "partial" then 1 else 0
    case Success => if row.statusFilter == "failed" || row.statusFilter == "partial" then 0 else 1
    case OfSeverity(severity) => row.severityDelta.At(severity)
    case Copies(other) => if row == other then 1 else 0
  }

  function Total(rows: seq<Row>, m: Measure): nat {
    if rows == [] then 0 else Total(rows[..|rows| - 1], m) + Share(rows[|rows| - 1], m)
  }

  /** The first of the newest rows. */
  ghost predicate IsLatest(rows: seq<Row>, i: nat) {
    && i < |rows|
    && (forall j :: 0 <= j < i ==> rows[j].timestamp < rows[i].timestamp)
    && (forall j :: i < j < |rows| ==> rows[j].timestamp <= rows[i].timestamp)
  }

  ghost predicate KnowsLatest(a: Aggregate, rows: seq<Row>) {
    if rows == [] then a.latestRow == None
    else exists i: nat :: IsLatest(rows, i) && a.latestRow == Some(rows[i]) && a.latestTimestamp == rows[i].timestamp
  }

  lemma WithRowCounts(a: Aggregate, row: Row, m: Measure)
    ensures Figure(WithRow(a, row), m) == Figure(a, m) + Share(row, m)
  {
  }

  lemma {:induction false} SummedCounts(start: Aggregate, rows: seq<Row>, m: Measure)
    ensures Figure(Summed(start, rows), m) == Figure(start, m) + Total(rows, m)
  {
    if rows != [] {
      SummedCounts(start, rows[..|rows| - 1], m);
      WithRowCounts(Summed(start, rows[..|rows| - 1]), rows[|rows| - 1], m);
    }
  }

  lemma LatestStays(before: seq<Row>, row: Row, i: nat)
    requires IsLatest(before, i) && row.timestamp <= before[i].timestamp
    ensures IsLatest(before + [row], i)
  {
  }

  lemma LatestIsNew(before: seq<Row>, row: Row)
    requires before == [] || exists i: nat :: IsLatest(before, i) && before[i].timestamp < row.timestamp
    ensures IsLatest(before + [row], |before|)
  {
  }

  lemma LatestKnown(a: Aggregate, rows: seq<Row>) returns (i: nat)
    requires KnowsLatest(a, rows) && rows != []
    ensures i < |rows| && IsLatest(rows, i)
    ensures a.latestRow == Some(rows[i]) && a.latestTimestamp == rows[i].timestamp
  {
    i :| IsLatest(rows, i) && a.latestRow == Some(rows[i]) && a.latestTimestamp == rows[i].timestamp;
  }

  lemma {:induction false} SummedKnowsLatest(start: Aggregate, rows: seq<Row>)
    requires start.latestRow == None
    ensures KnowsLatest(Summed(start, rows), rows)
  {
    if rows != [] {
      var before, row := rows[..|rows| - 1], rows[|rows| - 1];
      SummedKnowsLatest(start, before);
      hide IsLatest;
      var a := Summed(start, before);
      assert rows == before + [row] && Summed(start, rows) == WithRow(a, row);
      if a.latestRow == None || row.timestamp > a.latestTimestamp {
        LatestIsNew(before, row);
      } else {
        var i := LatestKnown(a, before);
        LatestStays(before, row, i);
      }
    }
  }

  lemma {:induction false} SummedLists(start: Aggregate, rows: seq<Row>)
    ensures Summed(start, rows).rows == start.rows + rows
    ensures Summed(start, rows).key == start.key
    ensures Summed(start, rows).title == start.title && Summed(start, rows).subtitle == start.subtitle
  {
    if rows != [] {
      SummedLists(start, rows[..|rows| - 1]);
      assert rows == rows[..|rows| - 1] + [rows[|rows| - 1]];
    }
  }

  /** Any status other than failed and partial counts as a success, so the outcomes add up. */
  lemma {:induction false} OutcomesAddUp(rows: seq<Row>)
    ensures Total(rows, Success) + Total(rows, Partial) + Total(rows, Failed) == Total(rows, Runs) == |rows|
  {
    if rows != [] {
      OutcomesAddUp(rows[..|rows| - 1]);
    }
  }

  // ----- rows under a key -----

  function ByCompany(lower: string -> string): Row -> string { (row: Row) => CompanyKey(lower, row) }
  function ByEngagement(lower: string -> string): Row -> string { (row: Row) => EngagementKey(lower, row) }

  function Under(keyOf: Row -> string, rows: seq<Row>, key: string): seq<Row> {
    if rows == [] then []
    else
      var last := rows[|rows| - 1];
      Under(keyOf, rows[..|rows| - 1], key) + if keyOf(last) == key then [last] else []
  }

  /** The keys that are not empty, in the order they first come up. */
  function KeysOf(keyOf: Row -> string, rows: seq<Row>): seq<string> {
    if rows == [] then []
    else
      var before := KeysOf(keyOf, rows[..|rows| - 1]);
      var key := keyOf(rows[|rows| - 1]);
      if key == "" then before else Add(before, key)
  }

  /** The rows with a key. */
  function Keyed(keyOf: Row -> string, rows: seq<Row>): seq<Row> {
    if rows == [] then []
    else
      var last := rows[|rows| - 1];
      Keyed(keyOf, rows[..|rows| - 1]) + if keyOf(last) == "" then [] else [last]
  }

  lemma {:induction false} KeysOfMembers(keyOf: Row -> string, rows: seq<Row>, key: string)
    ensures Distinct(KeysOf(keyOf, rows)) && "" !in KeysOf(keyOf, rows)
    ensures key in KeysOf(keyOf, rows) <==> key != "" && Under(keyOf, rows, key) != []
  {
    if rows != [] {
      var before, last := rows[..|rows| - 1], rows[|rows| - 1];
      KeysOfMembers(keyOf, before, key);
      AddAdds(KeysOf(keyOf, before), keyOf(last));
      assert keyOf(last) != key ==> Under(keyOf, rows, key) == Under(keyOf, before, key);
    }
  }

  lemma {:induction false} UnderMembers(keyOf: Row -> string, rows: seq<Row>, key: string, row: Row)
    ensures row in Under(keyOf, rows, key) <==> row in rows && keyOf(row) == key
  {
    if rows != [] {
      UnderMembers(keyOf, rows[..|rows| - 1], key, row);
      assert rows == rows[..|rows| - 1] + [rows[|rows| - 1]];
    }
  }

  /** The totals under some keys, added up. */
  function TotalsUnder(keyOf: Row -> string, keys: seq<string>, rows: seq<Row>, m: Measure): nat {
    if keys == [] then 0
    else TotalsUnder(keyOf, keys[..|keys| - 1], rows, m) + Total(Under(keyOf, rows, keys[|keys| - 1]), m)
  }

  lemma TotalOneMore(keyOf: Row -> string, rows: seq<Row>, key: string, m: Measure)
    requires rows != []
    ensures var last := rows[|rows| - 1];
      Total(Under(keyOf, rows, key), m) == Total(Under(keyOf, rows[..|rows| - 1], key), m)
        + if keyOf(last) == key then Share(last, m) else 0
  {
    hide Share;
    var before, last := rows[..|rows| - 1], rows[|rows| - 1];
    if keyOf(last) == key {
      var under := Under(keyOf, before, key) + [last];
      assert under[..|under| - 1] == Under(keyOf, before, key);
    } else {
      assert Under(keyOf, rows, key) == Under(keyOf, before, key);
    }
  }

  lemma {:induction false} OneMoreRow(keyOf: Row -> string, keys: seq<string>, rows: seq<Row>, m: Measure)
    requires Distinct(keys) && rows != []
    ensures TotalsUnder(keyOf, keys, rows, m) == TotalsUnder(keyOf, keys, rows[..|rows| - 1], m)
      + if keyOf(rows[|rows| - 1]) in keys then Share(rows[|rows| - 1], m) else 0
  {
    hide Share, Total, Under;
    if keys != [] {
      var init, key := keys[..|keys| - 1], keys[|keys| - 1];
      OneMoreRow(keyOf, init, rows, m);
      TotalOneMore(keyOf, rows, key, m);
      assert keys == init + [key];
      assert key !in init;
    }
  }

  lemma {:induction false} KeylessTotals(keyOf: Row -> string, keys: seq<string>, m: Measure)
    ensures TotalsUnder(keyOf, keys, [], m) == 0
  {
    if keys != [] {
      KeylessTotals(keyOf, keys[..|keys| - 1], m);
    }
  }

  /** Grouping rows by key loses and doubles nothing. */
  lemma {:induction false} GroupingConserves(keyOf: Row -> string, keys: seq<string>, rows: seq<Row>, m: Measure)
    requires Distinct(keys) && "" !in keys
    requires forall row <- rows :: keyOf(row) != "" ==> keyOf(row) in keys
    ensures TotalsUnder(keyOf, keys, rows, m) == Total(Keyed(keyOf, rows), m)
  {
    hide Share, TotalsUnder;
    if rows == [] {
      KeylessTotals(keyOf, keys, m);
    } else {
      var before, last := rows[..|rows| - 1], rows[|rows| - 1];
      assert last in rows;
      GroupingConserves(keyOf, keys, before, m);
      OneMoreRow(keyOf, keys, rows, m);
      var keyed := Keyed(keyOf, before) + [last];
      assert keyed[..|keyed| - 1] == Keyed(keyOf, before);
      assert keyOf(last) == "" ==> Keyed(keyOf, rows) == Keyed(keyOf, before);
    }
  }

  // ----- companies and engagements -----

  datatype Company = Company(total: Aggregate, engagements: OrdMap<string, Aggregate>)

  /** The company of some rows; `first` is the row that opened it. */
  function CompanyTotal(key: string, first: Row, rows: seq<Row>): Aggregate {
    Summed(NewAggregate(key, first.company, ""), rows)
  }

  function EngagementTotal(key: string, rows: seq<Row>): Aggregate
    requires rows != []
  {
    Summed(NewAggregate(key, rows[0].scope, rows[0].company), rows)
  }

  /** `engagements` holds the engagements of `rows`, opened in order. */
  ghost predicate Splits(lower: string -> string, engagements: OrdMap<string, Aggregate>, rows: seq<Row>) {
    && engagements.Valid()
    && engagements.keys == KeysOf(ByEngagement(lower), rows)
    && (forall key <- engagements.at :: SplitAt(lower, engagements.at[key], rows, key))
  }

  ghost predicate SplitAt(lower: string -> string, a: Aggregate, rows: seq<Row>, key: string) {
    Under(ByEngagement(lower), rows, key) != [] && a == EngagementTotal(key, Under(ByEngagement(lower), rows, key))
  }

  ghost predicate Covers(lower: string -> string, company: Company, key: string, rows: seq<Row>) {
    && rows != []
    && company.total == CompanyTotal(key, rows[0], rows)
    && Splits(lower, company.engagements, rows)
  }

  lemma UnderOneMore(keyOf: Row -> string, rows: seq<Row>, row: Row, key: string)
    ensures Under(keyOf, rows + [row], key) ==
      if keyOf(row) == key then Under(keyOf, rows, key) + [row] else Under(keyOf, rows, key)
  {
    assert (rows + [row])[..|rows|] == rows;
  }

  lemma SummedOneMore(start: Aggregate, rows: seq<Row>, row: Row)
    ensures Summed(start, rows + [row]) == WithRow(Summed(start, rows), row)
  {
    assert (rows + [row])[..|rows|] == rows;
  }

  method AddToEngagements(lower: string -> string, engagements: OrdMap<string, Aggregate>, row: Row,
      ghost rows: seq<Row>)
    returns (after: OrdMap<string, Aggregate>)
    requires Splits(lower, engagements, rows)
    ensures Splits(lower, after, rows + [row])
  {
    hide WithRow;
    var engagementKey := EngagementKey(lower, row);
    var engagement :=
      if engagementKey in engagements.at then engagements.at[engagementKey]
      else NewAggregate(engagementKey, row.scope, row.company);
    engagement := AddRowToAggregate(engagement, row);
    after := engagements.Put(engagementKey, engagement);
    PutSplits(lower, engagements, row, rows);
  }

  lemma EngagementKeyNotEmpty(lower: string -> string, row: Row)
    ensures EngagementKey(lower, row) != ""
  {
  }

  /** The engagement a row is added to. */
  function Opened(lower: string -> string, engagements: OrdMap<string, Aggregate>, row: Row): Aggregate {
    var key := EngagementKey(lower, row);
    if key in engagements.at then engagements.at[key] else NewAggregate(key, row.scope, row.company)
  }

  lemma OpenedSplits(lower: string -> string, engagements: OrdMap<string, Aggregate>, row: Row, rows: seq<Row>)
    requires Splits(lower, engagements, rows)
    ensures SplitAt(lower, WithRow(Opened(lower, engagements, row), row), rows + [row], EngagementKey(lower, row))
  {
    hide WithRow, Folding.Fold, Under, EngagementKey, KeysOf;
    var key := EngagementKey(lower, row);
    EngagementKeyNotEmpty(lower, row);
    var under := Under(ByEngagement(lower), rows, key);
    UnderOneMore(ByEngagement(lower), rows, row, key);
    KeysOfMembers(ByEngagement(lower), rows, key);
    assert key in Range(engagements.keys) <==> key in engagements.keys;
    var first := (under + [row])[0];
    if under == [] {
      NoRowsYet(NewAggregate(key, first.scope, first.company));
    }
    SummedOneMore(NewAggregate(key, first.scope, first.company), under, row);
  }

  lemma NoRowsYet(start: Aggregate)
    ensures Summed(start, []) == start
  {
  }

  lemma PutSplits(lower: string -> string, engagements: OrdMap<string, Aggregate>, row: Row, rows: seq<Row>)
    requires Splits(lower, engagements, rows)
    ensures Splits(lower, engagements.Put(EngagementKey(lower, row), WithRow(Opened(lower, engagements, row), row)),
                   rows + [row])
  {
    hide WithRow, Folding.Fold, Under, EngagementKey, Opened;
    var key := EngagementKey(lower, row);
    var after := engagements.Put(key, WithRow(Opened(lower, engagements, row), row));
    PutKeepsValid(engagements, key, WithRow(Opened(lower, engagements, row), row));
    OpenedSplits(lower, engagements, row, rows);
    EngagementKeyNotEmpty(lower, row);
    assert (rows + [row])[..|rows|] == rows;
    assert key in Range(engagements.keys) <==> key in engagements.keys;
    forall k | k in after.at && k != key ensures SplitAt(lower, after.at[k], rows + [row], k) {
      UnderOneMore(ByEngagement(lower), rows, row, k);
    }
  }

  /** Adding a row to its company, and to its engagement there. */
  method AddToCompany(lower: string -> string, before: Company, row: Row, ghost key: string, ghost rows: seq<Row>)
    returns (company: Company)
    requires if rows == [] then before == Company(NewAggregate(key, row.company, ""), Empty())
             else Covers(lower, before, key, rows)
    ensures Covers(lower, company, key, rows + [row])
  {
    hide WithRow, Splits, Folding.Fold;
    assert Splits(lower, before.engagements, rows) by {
      if rows == [] { NoEngagementsYet(lower); }
    }
    var total := AddRowToAggregate(before.total, row);
    var engagements := AddToEngagements(lower, before.engagements, row, rows);
    company := Company(total, engagements);
    var first := (rows + [row])[0];
    if rows == [] {
      NoRowsYet(NewAggregate(key, first.company, ""));
    }
    SummedOneMore(NewAggregate(key, first.company, ""), rows, row);
  }

  lemma NoEngagementsYet(lower: string -> string)
    ensures Splits(lower, Empty(), [])
  {
  }

  /** The companies of `rows`. */
  ghost predicate SplitsIntoCompanies(lower: string -> string, companies: OrdMap<string, Company>, rows: seq<Row>) {
    && companies.Valid()
    && companies.keys == KeysOf(ByCompany(lower), rows)
    && (forall key <- companies.at ::
          Covers(lower, companies.at[key], key, Under(ByCompany(lower), rows, key)))
  }

  method AddToCompanies(lower: string -> string, companies: OrdMap<string, Company>, row: Row, ghost rows: seq<Row>)
    returns (after: OrdMap<string, Company>)
    requires SplitsIntoCompanies(lower, companies, rows)
    ensures SplitsIntoCompanies(lower, after, rows + [row])
  {
    hide Covers, CompanyKey, WithRow;
    var companyKey := CompanyKey(lower, row);
    ghost var under := Under(ByCompany(lower), rows, companyKey);
    assert (rows + [row])[..|rows|] == rows;
    KeysOfMembers(ByCompany(lower), rows, companyKey);
    assert companyKey in Range(companies.keys) <==> companyKey in companies.keys;
    after := companies;
    if companyKey != "" {
      var company :=
        if companyKey in companies.at then companies.at[companyKey]
        else Company(NewAggregate(companyKey, row.company, ""), Empty());
      company := AddToCompany(lower, company, row, companyKey, under);
      after := companies.Put(companyKey, company);
      PutKeepsValid(companies, companyKey, company);
    }
    forall k | k in after.at ensures Covers(lower, after.at[k], k, Under(ByCompany(lower), rows + [row], k)) {
      UnderOneMore(ByCompany(lower), rows, row, k);
      KeysOfMembers(ByCompany(lower), rows, k);
      assert k in Range(companies.keys) <==> k in companies.keys;
    }
  }

  // ----- the finished groups -----

  function NewestFirst(a: Row, b: Row): int { CompareRows(b, a) }

  /** Latest run first, then by title. */
  function CompareAggregates(locale: Locale): (Aggregate, Aggregate) -> int {
    (a: Aggregate, b: Aggregate) =>
      if a.latestTimestamp != b.latestTimestamp then b.latestTimestamp - a.latestTimestamp
      else locale.compare(a.title, b.title)
  }

  function CompareGroups(locale: Locale): (Group, Group) -> int {
    (g: Group, h: Group) => CompareAggregates(locale)(g.total, h.total)
  }

  lemma GroupOrderIsConsistent(locale: Locale)
    requires locale.Collates()
    ensures Orders.Consistent(CompareAggregates(locale)) && Orders.Consistent(CompareGroups(locale))
  {
    var c, d := CompareAggregates(locale), CompareGroups(locale);
    forall a: Aggregate ensures c(a, a) == 0 {
      assert locale.compare(a.title, a.title) == 0;
    }
    forall g: Group ensures d(g, g) == 0 {
      assert c(g.total, g.total) == 0;
    }
    forall x, y ensures Orders.Opposite(c, x, y) {
      assert Orders.Opposite(locale.compare, x.title, y.title);
    }
    forall x, y, z ensures Orders.Chains(c, x, y, z) {
      assert Orders.Chains(locale.compare, x.title, y.title, z.title);
    }
    forall g, h ensures Orders.Opposite(d, g, h) {
      assert Orders.Opposite(c, g.total, h.total);
    }
    forall g, h, k ensures Orders.Chains(d, g, h, k) {
      assert Orders.Chains(c, g.total, h.total, k.total);
    }
  }

  datatype Group = Group(total: Aggregate, engagements: seq<Aggregate>)

  function NewestRowsFirst(a: Aggregate): Aggregate { a.(rows := Orders.Sort(NewestFirst, a.rows)) }

  function EngagementsAt(keys: seq<string>, at: map<string, Aggregate>): seq<Aggregate>
    requires forall key <- keys :: key in at
  {
    if keys == [] then []
    else
      var last := keys[|keys| - 1];
      assert last in keys;
      EngagementsAt(keys[..|keys| - 1], at) + [NewestRowsFirst(at[last])]
  }

  function FinishCompany(locale: Locale, company: Company): Group
    requires company.engagements.Valid()
  {
    KeysAreBound(company.engagements);
    Group(company.total,
          Orders.Sort(CompareAggregates(locale), EngagementsAt(company.engagements.keys, company.engagements.at)))
  }

  function GroupsAt(locale: Locale, keys: seq<string>, at: map<string, Company>): seq<Group>
    requires forall key <- keys :: key in at && at[key].engagements.Valid()
  {
    if keys == [] then []
    else
      var last := keys[|keys| - 1];
      assert last in keys;
      GroupsAt(locale, keys[..|keys| - 1], at) + [FinishCompany(locale, at[last])]
  }

  lemma CompaniesAreBound(lower: string -> string, companies: OrdMap<string, Company>, rows: seq<Row>)
    requires SplitsIntoCompanies(lower, companies, rows)
    ensures forall key <- companies.keys :: key in companies.at && companies.at[key].engagements.Valid()
  {
    KeysAreBound(companies);
  }

  ghost predicate Finishes(locale: Locale, rows: seq<Row>, companies: OrdMap<string, Company>, groups: seq<Group>) {
    && SplitsIntoCompanies(locale.lower, companies, rows)
    && (CompaniesAreBound(locale.lower, companies, rows);
        groups == Orders.Sort(CompareGroups(locale), GroupsAt(locale, companies.keys, companies.at)))
  }

  /** `groups` is what `BuildCompanySyncGroups` makes of `rows`. */
  ghost predicate IsResult(locale: Locale, rows: seq<Row>, groups: seq<Group>) {
    exists companies :: Finishes(locale, rows, companies, groups)
  }

  method BuildCompanySyncGroups(locale: Locale, rows: seq<Row>) returns (groups: seq<Group>)
    ensures IsResult(locale, rows, groups)
  {
    hide Covers, Splits, KeysOf;
    var companies: OrdMap<string, Company> := Empty();
    assert SplitsIntoCompanies(locale.lower, companies, []) by { NoCompaniesYet(locale.lower); }
    for i := 0 to |rows|
      invariant SplitsIntoCompanies(locale.lower, companies, rows[..i])
    {
      assert rows[..i + 1] == rows[..i] + [rows[i]];
      companies := AddToCompanies(locale.lower, companies, rows[i], rows[..i]);
    }
    assert rows[..|rows|] == rows;
    CompaniesAreBound(locale.lower, companies, rows);
    groups := Orders.Sort(CompareGroups(locale), GroupsAt(locale, companies.keys, companies.at));
    assert Finishes(locale, rows, companies, groups);
  }

  lemma NoCompaniesYet(lower: string -> string)
    ensures SplitsIntoCompanies(lower, Empty(), [])
  {
  }

  // ----- conservation -----

  function Adding(m: Measure): (nat, Aggregate) -> nat { (n: nat, a: Aggregate) => n + Figure(a, m) }
  function AddingTotal(m: Measure): (nat, Group) -> nat { (n: nat, g: Group) => n + Figure(g.total, m) }

  /** The figures of some aggregates, and of some companies, added up. */
  function SumOver(aggregates: seq<Aggregate>, m: Measure): nat { Folding.Fold(Adding(m), 0, aggregates) }
  function SumOfTotals(groups: seq<Group>, m: Measure): nat { Folding.Fold(AddingTotal(m), 0, groups) }

  lemma SumsForgetOrder(m: Measure, a: seq<Aggregate>, b: seq<Aggregate>)
    requires multiset(a) == multiset(b)
    ensures SumOver(a, m) == SumOver(b, m)
  {
    forall n, x, y ensures Folding.Swaps(Adding(m), n, x, y) {
    }
    Folding.FoldForgetsOrder(Adding(m), 0, a, b);
  }

  lemma TotalsForgetOrder(m: Measure, a: seq<Group>, b: seq<Group>)
    requires multiset(a) == multiset(b)
    ensures SumOfTotals(a, m) == SumOfTotals(b, m)
  {
    forall n, x, y ensures Folding.Swaps(AddingTotal(m), n, x, y) {
    }
    Folding.FoldForgetsOrder(AddingTotal(m), 0, a, b);
  }

  lemma StartsAtZero(key: string, title: string, subtitle: string, m: Measure)
    ensures Figure(NewAggregate(key, title, subtitle), m) == 0
  {
  }

  lemma SortingRowsKeepsFigures(a: Aggregate, m: Measure)
    ensures Figure(NewestRowsFirst(a), m) == Figure(a, m)
  {
    Orders.SortKeepsMembers(NewestFirst, a.rows);
  }

  lemma {:induction false} EngagementSums(lower: string -> string, at: map<string, Aggregate>, keys: seq<string>,
                                          rows: seq<Row>, m: Measure)
    requires forall key <- keys :: key in at && SplitAt(lower, at[key], rows, key)
    ensures SumOver(EngagementsAt(keys, at), m) == TotalsUnder(ByEngagement(lower), keys, rows, m)
  {
    hide Figure;
    if keys != [] {
      var init, key := keys[..|keys| - 1], keys[|keys| - 1];
      assert key in keys;
      EngagementSums(lower, at, init, rows, m);
      var under := Under(ByEngagement(lower), rows, key);
      SummedCounts(NewAggregate(key, under[0].scope, under[0].company), under, m);
      StartsAtZero(key, under[0].scope, under[0].company, m);
      SortingRowsKeepsFigures(at[key], m);
      var all := EngagementsAt(init, at) + [NewestRowsFirst(at[key])];
      assert all[..|all| - 1] == EngagementsAt(init, at);
    }
  }

  lemma {:induction false} CompanySums(locale: Locale, at: map<string, Company>, keys: seq<string>,
                                       rows: seq<Row>, m: Measure)
    requires forall key <- keys :: key in at && at[key].engagements.Valid()
    requires forall key <- keys :: Covers(locale.lower, at[key], key, Under(ByCompany(locale.lower), rows, key))
    ensures SumOfTotals(GroupsAt(locale, keys, at), m) == TotalsUnder(ByCompany(locale.lower), keys, rows, m)
  {
    hide Figure, Under, KeysOf, SplitAt;
    if keys != [] {
      var init, key := keys[..|keys| - 1], keys[|keys| - 1];
      assert key in keys;
      CompanySums(locale, at, init, rows, m);
      CompanyCounts(locale.lower, at[key], key, Under(ByCompany(locale.lower), rows, key), m);
      var all := GroupsAt(locale, init, at) + [FinishCompany(locale, at[key])];
      assert all[..|all| - 1] == GroupsAt(locale, init, at);
    }
  }

  lemma CompanyCounts(lower: string -> string, company: Company, key: string, rows: seq<Row>, m: Measure)
    requires Covers(lower, company, key, rows)
    ensures Figure(company.total, m) == Total(rows, m)
  {
    hide Figure, Splits;
    SummedCounts(NewAggregate(key, rows[0].company, ""), rows, m);
    StartsAtZero(key, rows[0].company, "", m);
  }

  lemma {:induction false} AllHaveEngagements(lower: string -> string, rows: seq<Row>)
    ensures Keyed(ByEngagement(lower), rows) == rows
  {
    hide EngagementKey;
    if rows != [] {
      AllHaveEngagements(lower, rows[..|rows| - 1]);
      EngagementKeyNotEmpty(lower, rows[|rows| - 1]);
    }
  }

  /** A company's figures are those of its rows, and the sums of its engagements' figures. */
  lemma CompanyConserves(locale: Locale, company: Company, key: string, rows: seq<Row>, m: Measure)
    requires Covers(locale.lower, company, key, rows)
    ensures SumOver(FinishCompany(locale, company).engagements, m) == Figure(company.total, m) == Total(rows, m)
  {
    hide Figure, Under, KeysOf, SplitAt, Total, Folding.Fold, TotalsUnder;
    var (keys, at, byEngagement) := (company.engagements.keys, company.engagements.at, ByEngagement(locale.lower));
    KeysAreBound(company.engagements);
    CompanyCounts(locale.lower, company, key, rows, m);
    Orders.SortKeepsMembers(CompareAggregates(locale), EngagementsAt(keys, at));
    SumsForgetOrder(m, FinishCompany(locale, company).engagements, EngagementsAt(keys, at));
    EngagementSums(locale.lower, at, keys, rows, m);
    KeysOfMembers(byEngagement, rows, "");
    forall row | row in rows ensures byEngagement(row) != "" ==> byEngagement(row) in keys {
      KeysOfMembers(byEngagement, rows, byEngagement(row));
      UnderMembers(byEngagement, rows, byEngagement(row), row);
    }
    GroupingConserves(byEngagement, keys, rows, m);
    AllHaveEngagements(locale.lower, rows);
  }

  /** Where a finished group comes from. */
  lemma {:induction false} GroupsAtMembers(locale: Locale, keys: seq<string>, at: map<string, Company>, group: Group)
    requires forall key <- keys :: key in at && at[key].engagements.Valid()
    requires group in GroupsAt(locale, keys, at)
    ensures exists key <- keys :: group == FinishCompany(locale, at[key])
  {
    var init, last := keys[..|keys| - 1], keys[|keys| - 1];
    assert last in keys;
    if group != FinishCompany(locale, at[last]) {
      GroupsAtMembers(locale, init, at, group);
      var key :| key in init && group == FinishCompany(locale, at[key]);
      assert key in keys;
    }
  }

  ghost predicate Underlies(locale: Locale, rows: seq<Row>, group: Group, company: Company, key: string) {
    && Covers(locale.lower, company, key, Under(ByCompany(locale.lower), rows, key))
    && company.total.key == key && group == FinishCompany(locale, company)
  }

  lemma CompanyOfGroup(locale: Locale, rows: seq<Row>, groups: seq<Group>, group: Group) returns (company: Company)
    requires IsResult(locale, rows, groups) && group in groups
    ensures Underlies(locale, rows, group, company, group.total.key) && company.engagements.Valid()
  {
    hide Under, KeysOf, Splits, GroupsAt, Orders.Sort, EngagementsAt;
    var companies :| Finishes(locale, rows, companies, groups);
    CompaniesAreBound(locale.lower, companies, rows);
    var list := GroupsAt(locale, companies.keys, companies.at);
    Orders.SortKeepsMembers(CompareGroups(locale), list);
    assert group in multiset(groups) && group in multiset(list);
    GroupsAtMembers(locale, companies.keys, companies.at, group);
    var key :| key in companies.keys && group == FinishCompany(locale, companies.at[key]);
    company := companies.at[key];
    var under := Under(ByCompany(locale.lower), rows, key);
    SummedLists(NewAggregate(key, under[0].company, ""), under);
  }

  /** Runs, listed rows, new findings, outcomes and each severity: a company has exactly what its rows
      have, and exactly what its engagements have together. */
  lemma EngagementsAddUp(locale: Locale, rows: seq<Row>, groups: seq<Group>, group: Group, m: Measure)
    requires IsResult(locale, rows, groups) && group in groups
    ensures SumOver(group.engagements, m) == Figure(group.total, m)
    ensures Figure(group.total, m) == Total(Under(ByCompany(locale.lower), rows, group.total.key), m)
  {
    hide Figure, Under, IsResult, SumOver, FinishCompany, Covers;
    var company := CompanyOfGroup(locale, rows, groups, group);
    FinishedTotal(locale, company);
    CompanyConserves(locale, company, group.total.key, Under(ByCompany(locale.lower), rows, group.total.key), m);
  }

  lemma FinishedTotal(locale: Locale, company: Company)
    requires company.engagements.Valid()
    ensures FinishCompany(locale, company).total == company.total
  {
  }

  /** All companies together have exactly what the rows that name a company have. */
  lemma CompaniesAddUp(locale: Locale, rows: seq<Row>, groups: seq<Group>, m: Measure)
    requires IsResult(locale, rows, groups)
    ensures SumOfTotals(groups, m) == Total(Keyed(ByCompany(locale.lower), rows), m)
  {
    hide Figure, Under, KeysOf, Covers, Total, Folding.Fold, TotalsUnder, Keyed;
    var companies :| Finishes(locale, rows, companies, groups);
    var (keys, at, byCompany) := (companies.keys, companies.at, ByCompany(locale.lower));
    CompaniesAreBound(locale.lower, companies, rows);
    KeysAreBound(companies);
    Orders.SortKeepsMembers(CompareGroups(locale), GroupsAt(locale, keys, at));
    TotalsForgetOrder(m, groups, GroupsAt(locale, keys, at));
    CompanySums(locale, at, keys, rows, m);
    KeysOfMembers(byCompany, rows, "");
    forall row | row in rows ensures byCompany(row) != "" ==> byCompany(row) in keys {
      KeysOfMembers(byCompany, rows, byCompany(row));
      UnderMembers(byCompany, rows, byCompany(row), row);
    }
    GroupingConserves(byCompany, keys, rows, m);
  }

  /** Every run of a company is a failure, partial or a success, and the same in each engagement. */
  lemma OutcomesOfGroup(locale: Locale, rows: seq<Row>, groups: seq<Group>, group: Group)
    requires IsResult(locale, rows, groups) && group in groups
    ensures group.total.successRuns + group.total.partialRuns + group.total.failedRuns == group.total.runs
  {
    hide Under, IsResult, Total, SumOver;
    var own := Under(ByCompany(locale.lower), rows, group.total.key);
    EngagementsAddUp(locale, rows, groups, group, Success);
    EngagementsAddUp(locale, rows, groups, group, Partial);
    EngagementsAddUp(locale, rows, groups, group, Failed);
    EngagementsAddUp(locale, rows, groups, group, Runs);
    OutcomesAddUp(own);
  }

  /** A company shows the first of the newest of its rows. */
  lemma LatestOfGroup(locale: Locale, rows: seq<Row>, groups: seq<Group>, group: Group)
    requires IsResult(locale, rows, groups) && group in groups
    ensures KnowsLatest(group.total, Under(ByCompany(locale.lower), rows, group.total.key))
  {
    hide Under, IsResult, Splits, KnowsLatest, EngagementsAt;
    var company := CompanyOfGroup(locale, rows, groups, group);
    var own := Under(ByCompany(locale.lower), rows, group.total.key);
    SummedKnowsLatest(NewAggregate(group.total.key, own[0].company, ""), own);
  }

  lemma {:induction false} EngagementsAtMembers(keys: seq<string>, at: map<string, Aggregate>, e: Aggregate)
    requires (forall key <- keys :: key in at) && e in EngagementsAt(keys, at)
    ensures exists key <- keys :: e == NewestRowsFirst(at[key])
  {
    var init, last := keys[..|keys| - 1], keys[|keys| - 1];
    assert last in keys;
    if e != NewestRowsFirst(at[last]) {
      EngagementsAtMembers(init, at, e);
      var key :| key in init && e == NewestRowsFirst(at[key]);
      assert key in keys;
    }
  }

  /** And the name its first row has. */
  lemma NameOfGroup(locale: Locale, rows: seq<Row>, groups: seq<Group>, group: Group)
    requires IsResult(locale, rows, groups) && group in groups
    ensures var own := Under(ByCompany(locale.lower), rows, group.total.key);
      own != [] && group.total.title == own[0].company && group.total.subtitle == ""
  {
    hide Under, IsResult, Splits, EngagementsAt;
    var company := CompanyOfGroup(locale, rows, groups, group);
    var own := Under(ByCompany(locale.lower), rows, group.total.key);
    SummedLists(NewAggregate(group.total.key, own[0].company, ""), own);
  }

  /** An engagement has the names of its first row, lists exactly its rows, newest first, counts them, and
      knows the newest. */
  ghost predicate Tells(e: Aggregate, own: seq<Row>) {
    && own != [] && e.title == own[0].scope && e.subtitle == own[0].company
    && e.rows == Orders.Sort(NewestFirst, own)
    && (forall i, j :: 0 <= i < j < |e.rows| ==> e.rows[i].timestamp >= e.rows[j].timestamp)
    && KnowsLatest(e, own)
    && (forall m :: Figure(e, m) == Total(own, m))
  }

  lemma EngagementTells(locale: Locale, rows: seq<Row>, groups: seq<Group>, group: Group, e: Aggregate)
    requires IsResult(locale, rows, groups) && group in groups && e in group.engagements
    ensures Tells(e, Under(ByEngagement(locale.lower), Under(ByCompany(locale.lower), rows, group.total.key), e.key))
  {
    hide Under, IsResult, KnowsLatest, KeysOf, Figure;
    var company := CompanyOfGroup(locale, rows, groups, group);
    var (keys, at) := (company.engagements.keys, company.engagements.at);
    KeysAreBound(company.engagements);
    var list := EngagementsAt(keys, at);
    Orders.SortKeepsMembers(CompareAggregates(locale), list);
    assert e in multiset(group.engagements) && e in multiset(list);
    EngagementsAtMembers(keys, at, e);
    var key :| key in keys && e == NewestRowsFirst(at[key]);
    var own := Under(ByEngagement(locale.lower), Under(ByCompany(locale.lower), rows, group.total.key), key);
    assert SplitAt(locale.lower, at[key], Under(ByCompany(locale.lower), rows, group.total.key), key);
    EngagementTotalTells(key, own);
  }

  lemma NewestRowsComeFirst(rows: seq<Row>)
    ensures var sorted := Orders.Sort(NewestFirst, rows);
      forall i, j :: 0 <= i < j < |sorted| ==> sorted[i].timestamp >= sorted[j].timestamp
  {
    hide Orders.Sort;
    assert Orders.Consistent(NewestFirst);
    Orders.SortSorts(NewestFirst, rows);
    var sorted := Orders.Sort(NewestFirst, rows);
    assert forall i, j :: 0 <= i < j < |sorted| ==> NewestFirst(sorted[i], sorted[j]) <= 0;
  }

  lemma EngagementTotalTells(key: string, own: seq<Row>)
    requires own != []
    ensures Tells(NewestRowsFirst(EngagementTotal(key, own)), own) && EngagementTotal(key, own).key == key
  {
    hide Figure, Orders.Sort;
    var start := NewAggregate(key, own[0].scope, own[0].company);
    var e := EngagementTotal(key, own);
    SummedLists(start, own);
    assert [] + own == own;
    SummedKnowsLatest(start, own);
    NewestRowsComeFirst(own);
    assert NewestRowsFirst(e).rows == Orders.Sort(NewestFirst, own);
    forall m ensures Figure(NewestRowsFirst(e), m) == Total(own, m) {
      SummedCounts(start, own, m);
      StartsAtZero(key, own[0].scope, own[0].company, m);
      SortingRowsKeepsFigures(e, m);
    }
  }

  /** Companies and engagements come in the order of their latest runs, newest first, then by title. */
  lemma GroupsAreSorted(locale: Locale, rows: seq<Row>, groups: seq<Group>)
    requires IsResult(locale, rows, groups) && locale.Collates()
    ensures Orders.Sorted(CompareGroups(locale), groups)
    ensures forall group <- groups :: Orders.Sorted(CompareAggregates(locale), group.engagements)
    ensures forall i, j :: 0 <= i < j < |groups| ==>
      groups[i].total.latestTimestamp >= groups[j].total.latestTimestamp
  {
    hide SplitsIntoCompanies, Covers;
    GroupOrderIsConsistent(locale);
    var companies :| Finishes(locale, rows, companies, groups);
    CompaniesAreBound(locale.lower, companies, rows);
    Orders.SortSorts(CompareGroups(locale), GroupsAt(locale, companies.keys, companies.at));
    forall group | group in groups ensures Orders.Sorted(CompareAggregates(locale), group.engagements) {
      var company := CompanyOfGroup(locale, rows, groups, group);
      KeysAreBound(company.engagements);
      Orders.SortSorts(CompareAggregates(locale), EngagementsAt(company.engagements.keys, company.engagements.at));
    }
    assert forall i, j :: 0 <= i < j < |groups| ==> CompareGroups(locale)(groups[i], groups[j]) <= 0;
  }
}
