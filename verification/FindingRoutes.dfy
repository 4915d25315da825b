/**
 * Hash routes: building them from filters, and reading them back
 * (productFindingsRoute.js, routes.js). Permissions of routes are left out.
 */
module FindingRoutes {
  import opened FormUrl
  import opened Options
  import opened Text

  // ----- normalising -----

  function AsciiLower(s: string): string {
    if s == "" then ""
    else [if 'A' <= s[0] <= 'Z' then s[0] - 'A' + 'a' else s[0]] + AsciiLower(s[1..])
  }

  predicate AllAscii(s: string) { forall c <- s :: c < 128 as char }

  /** `toLowerCase` as far as this module depends on it. */
  ghost predicate LowersAscii(lower: string -> string) {
    forall s: string :: AllAscii(s) ==> lower(s) == AsciiLower(s)
  }

  const SEVERITIES: seq<string> := ["Critical", "High", "Medium", "Low"]

  const STATUSES: seq<string> :=
    ["all", "new", "in_progress", "feedback", "risk_acceptance", "resolve", "engineer_approve", "closed"]

  predicate IsGap(c: char) { IsSpace(c) || c == '-' }

  /** `replace(/[\s-]+/g, '_')` */
  function Underscore(s: string): string
    decreases |s|
  {
    if s == "" then ""
    else if !IsGap(s[0]) then [s[0]] + Underscore(s[1..])
    else if |s| > 1 && IsGap(s[1]) then Underscore(s[1..])
    else "_" + Underscore(s[1..])
  }

  function NormalizeStatus(lower: string -> string, value: string): string {
    var status := Underscore(lower(Trim(value)));
    if status in STATUSES then status else "all"
  }

  function FindSeverity(lower: string -> string, lowered: string, options: seq<string>): string {
    if options == [] then "All"
    else if lower(options[0]) == lowered then options[0]
    else FindSeverity(lower, lowered, options[1..])
  }

  function NormalizeSeverity(lower: string -> string, value: string): string {
    FindSeverity(lower, lower(Trim(value)), SEVERITIES)
  }

  lemma {:induction false} UnderscoreKeeps(s: string)
    requires forall c <- s :: !IsGap(c)
    ensures Underscore(s) == s
  {
    if s != "" {
      assert s[0] in s && forall c <- s[1..] :: c in s;
      assert !IsGap(s[0]);
      UnderscoreKeeps(s[1..]);
      assert s == [s[0]] + s[1..];
    }
  }

  lemma {:induction false} AsciiLowerKeeps(s: string)
    requires forall c <- s :: !('A' <= c <= 'Z')
    ensures AsciiLower(s) == s
  {
    if s != "" {
      assert s[0] in s && forall c <- s[1..] :: c in s;
      AsciiLowerKeeps(s[1..]);
      assert s == [s[0]] + s[1..];
    }
  }

  /** Letters that normalising a status leaves alone. */
  predicate IsStatusLetter(c: char) { 'a' <= c <= 'z' || c == '_' }

  lemma PlainLetter(c: char)
    requires IsStatusLetter(c)
    ensures !IsGap(c) && !IsSpace(c) && !('A' <= c <= 'Z') && c < 128 as char
  {
  }

  lemma LettersStay(lower: string -> string, s: string)
    requires LowersAscii(lower) && forall c <- s :: IsStatusLetter(c)
    ensures Trim(s) == s && lower(s) == s && Underscore(s) == s
  {
    hide Trim, Underscore, AsciiLower, IsStatusLetter, IsGap, IsSpace;
    forall c | c in s ensures !IsGap(c) && !IsSpace(c) && !('A' <= c <= 'Z') && c < 128 as char {
      PlainLetter(c);
    }
    TrimTrims(s);
    AsciiLowerKeeps(s);
    UnderscoreKeeps(s);
    assert AllAscii(s);
  }

  lemma StatusesAreLetters(status: string)
    requires status in STATUSES
    ensures forall c <- status :: IsStatusLetter(c)
  {
  }

  lemma StatusIsNormal(lower: string -> string, value: string)
    requires LowersAscii(lower)
    ensures NormalizeStatus(lower, NormalizeStatus(lower, value)) == NormalizeStatus(lower, value)
  {
    hide Trim, Underscore, IsStatusLetter, LowersAscii;
    var status := NormalizeStatus(lower, value);
    assert STATUSES[0] == "all";
    assert status in STATUSES;
    StatusesAreLetters(status);
    LettersStay(lower, status);
  }

  lemma LoweredWord(lower: string -> string, capital: char, small: char, rest: string)
    requires LowersAscii(lower) && 'A' <= capital <= 'Z' && small == capital - 'A' + 'a'
    requires forall c <- rest :: IsStatusLetter(c)
    ensures lower([capital] + rest) == [small] + rest
  {
    AsciiLowerKeeps(rest);
    assert ([capital] + rest)[1..] == rest;
    assert AllAscii([capital] + rest);
  }

  /** How the severities look in lower case. */
  lemma LoweredSeverities(lower: string -> string)
    requires LowersAscii(lower)
    ensures lower("Critical") == "critical" && lower("High") == "high" && lower("Medium") == "medium"
    ensures lower("Low") == "low" && lower("All") == "all" && lower("") == ""
  {
    hide LowersAscii;
    LoweredWord(lower, 'C', 'c', "ritical");
    LoweredWord(lower, 'H', 'h', "igh");
    LoweredWord(lower, 'M', 'm', "edium");
    LoweredWord(lower, 'L', 'l', "ow");
    LoweredWord(lower, 'A', 'a', "ll");
    LettersStay(lower, "");
    assert "Critical" == ['C'] + "ritical" && "critical" == ['c'] + "ritical";
    assert "High" == ['H'] + "igh" && "high" == ['h'] + "igh";
    assert "Medium" == ['M'] + "edium" && "medium" == ['m'] + "edium";
    assert "Low" == ['L'] + "ow" && "low" == ['l'] + "ow";
    assert "All" == ['A'] + "ll" && "all" == ['a'] + "ll";
  }

  lemma SeverityFound(lower: string -> string, lowered: string)
    ensures FindSeverity(lower, lowered, SEVERITIES) ==
      if lower("Critical") == lowered then "Critical"
      else if lower("High") == lowered then "High"
      else if lower("Medium") == lowered then "Medium"
      else if lower("Low") == lowered then "Low"
      else "All"
  {
    var three, two, one: seq<string> := ["High", "Medium", "Low"], ["Medium", "Low"], ["Low"];
    assert SEVERITIES[1..] == three && three[1..] == two && two[1..] == one && one[1..] == [];
    assert FindSeverity(lower, lowered, one) == if lower("Low") == lowered then "Low" else "All";
    assert FindSeverity(lower, lowered, two) ==
      if lower("Medium") == lowered then "Medium" else FindSeverity(lower, lowered, one);
    assert FindSeverity(lower, lowered, three) ==
      if lower("High") == lowered then "High" else FindSeverity(lower, lowered, two);
  }

  lemma SeveritiesTrim()
    ensures forall s <- ["Critical", "High", "Medium", "Low", "All", ""] :: Trim(s) == s
  {
    forall s | s in ["Critical", "High", "Medium", "Low", "All", ""] ensures Trim(s) == s {
      TrimTrims(s);
    }
  }

  lemma SeverityIsNormal(lower: string -> string, value: string)
    requires LowersAscii(lower)
    ensures NormalizeSeverity(lower, NormalizeSeverity(lower, value)) == NormalizeSeverity(lower, value)
    ensures NormalizeSeverity(lower, "") == "All" && NormalizeSeverity(lower, value) != ""
  {
    hide Trim, FindSeverity, LowersAscii;
    LoweredSeverities(lower);
    SeveritiesTrim();
    var severity := NormalizeSeverity(lower, value);
    SeverityFound(lower, lower(Trim(value)));
    assert severity in ["Critical", "High", "Medium", "Low", "All", ""];
    SeverityFound(lower, lower(severity));
    SeverityFound(lower, "");
    assert "" in ["Critical", "High", "Medium", "Low", "All", ""];
  }

  // ----- fields of a query -----

  /** A parameter that is printed unless it has its default value. */
  datatype Field = Field(name: string, value: string, default: string)

  function QueryOf(fields: seq<Field>): Query {
    if fields == [] then []
    else
      var last := fields[|fields| - 1];
      QueryOf(fields[..|fields| - 1]) + if last.value == last.default then [] else [(last.name, last.value)]
  }

  ghost predicate DistinctNames(fields: seq<Field>) {
    forall i, j :: 0 <= i < j < |fields| ==> fields[i].name != fields[j].name
  }

  lemma {:induction false} GetOfConcat(a: Query, b: Query, name: string)
    ensures Get(a + b, name) == if Get(a, name).Some? then Get(a, name) else Get(b, name)
  {
    if a == [] {
      assert a + b == b;
    } else {
      assert (a + b)[1..] == a[1..] + b;
      GetOfConcat(a[1..], b, name);
    }
  }

  lemma GetOfOne(name: string, value: string, other: string)
    ensures Get([(name, value)], other) == if other == name then Some(value) else None
  {
    assert [(name, value)][1..] == [];
  }

  lemma {:induction false} AbsentField(fields: seq<Field>, name: string)
    requires forall field <- fields :: field.name != name
    ensures Get(QueryOf(fields), name) == None
  {
    if fields != [] {
      var init, last := fields[..|fields| - 1], fields[|fields| - 1];
      assert last in fields && forall field <- init :: field in fields;
      AbsentField(init, name);
      assert QueryOf(init) + [] == QueryOf(init);
      GetOfConcat(QueryOf(init), [(last.name, last.value)], name);
      GetOfOne(last.name, last.value, name);
    }
  }

  /** A field is found exactly when it is not at its default. */
  lemma {:induction false} FieldIsFound(fields: seq<Field>, i: nat)
    requires i < |fields| && DistinctNames(fields)
    ensures Get(QueryOf(fields), fields[i].name) ==
      if fields[i].value == fields[i].default then None else Some(fields[i].value)
  {
    var init, last := fields[..|fields| - 1], fields[|fields| - 1];
    GetOfConcat(QueryOf(init), [(last.name, last.value)], fields[i].name);
    GetOfOne(last.name, last.value, fields[i].name);
    assert QueryOf(init) + [] == QueryOf(init);
    if i < |fields| - 1 {
      FieldIsFound(init, i);
    } else {
      AbsentField(init, last.name);
    }
  }

  lemma {:induction false} SetAppends(query: Query, name: string, value: string)
    requires Get(query, name) == None
    ensures Set(query, name, value) == query + [(name, value)]
  {
    if query != [] {
      SetAppends(query[1..], name, value);
    }
  }

  /** Setting the next of `all` fields. */
  method SetField(params: Query, field: Field, ghost all: seq<Field>, ghost k: nat) returns (after: Query)
    requires DistinctNames(all) && k < |all| && all[k] == field
    requires params == QueryOf(all[..k])
    ensures after == QueryOf(all[..k + 1])
  {
    assert all[..k + 1][..k] == all[..k];
    after := params;
    if field.value != field.default {
      AbsentField(all[..k], field.name);
      SetAppends(params, field.name, field.value);
      after := Set(params, field.name, field.value);
    }
  }

  function WithQuery(hash: string, query: Query): string {
    if ToText(query) == "" then hash else hash + "?" + ToText(query)
  }

  // ----- resolving a hash -----

  const HASHES: seq<string> :=
    ["#archive-dashboard", "#dashboard", "#data-management", "#findings", "#log-monitor", "#product-dashboard",
     "#product-findings", "#products", "#mitigation-review", "#management-dashboard", "#settings", "#sync-history",
     "#users"]

  /** Every known hash names its route; all else is the dashboard. */
  function RouteId(routeHash: string): string {
    if routeHash in HASHES && routeHash != "" then routeHash[1..] else "dashboard"
  }

  datatype Route = Route(id: string, query: Query)

  function UpTo(s: string, mark: char): (i: nat)
    ensures i <= |s|
  {
    if s == "" || s[0] == mark then 0 else 1 + UpTo(s[1..], mark)
  }

  /** `text.split('?')`: the first two parts. */
  function SplitHash(text: string): (string, string) {
    var i := UpTo(text, '?');
    if i == |text| then (text, "")
    else
      var rest := text[i + 1..];
      (text[..i], rest[..UpTo(rest, '?')])
  }

  function TrimmedParameter(query: Query, name: string): string { Trim(Get(query, name).GetOr("")) }

  function ResolveAppRoute(lower: string -> string, hash: string): Route {
    var (routeHash, queryString) := SplitHash(hash);
    var id := RouteId(routeHash);
    var query := FromText(queryString);
    if id == "data-management" && lower(TrimmedParameter(query, "tab")) == "archives"
       && TrimmedParameter(query, "archive") != ""
    then Route("archive-dashboard", query)
    else Route(id, query)
  }

  lemma {:induction false} UpToFinds(a: string, mark: char, b: string)
    requires mark !in a
    ensures UpTo(a + [mark] + b, mark) == |a| && UpTo(a, mark) == |a|
  {
    if a != "" {
      assert a[0] in a && (a + [mark] + b)[1..] == a[1..] + [mark] + b;
      UpToFinds(a[1..], mark, b);
    }
  }

  /** The query behind a hash is read back, whatever its values hold. */
  lemma QueryReadsBack(hash: string, query: Query)
    requires '?' !in hash
    ensures SplitHash(WithQuery(hash, query)).0 == hash
    ensures FromText(SplitHash(WithQuery(hash, query)).1) == query
  {
    hide ToText, FromText;
    var text := ToText(query);
    TextReadsBack(query);
    if text == "" {
      UpToFinds(hash, '?', "");
    } else {
      var whole := WithQuery(hash, query);
      UpToFinds(hash, '?', text);
      UpToFinds(text, '?', "");
      assert whole == hash + ['?'] + text;
      assert whole[..|hash|] == hash && whole[|hash| + 1..] == text && text[..|text|] == text;
    }
  }

  // ----- findings routes -----

  datatype Filters = Filters(
    year: string, productId: string, engagementId: string, redmineStatus: string,
    severity: string, search: string, findingKey: string, issueId: string)

  const DEFAULT_FILTERS := Filters("", "", "", "all", "All", "", "", "")

  /** `query.get(name) || query.get(other)` */
  function EitherParameter(query: Query, name: string, other: string): string {
    var value := Get(query, name).GetOr("");
    if value != "" then value else Get(query, other).GetOr("")
  }

  predicate ReadsFilters(id: string) { id in ["product-findings", "findings", "dashboard", "products"] }

  function GetFindingRouteFilters(lower: string -> string, route: Route): Filters {
    if !ReadsFilters(route.id) then DEFAULT_FILTERS
    else Filters(
      TrimmedParameter(route.query, "year"),
      TrimmedParameter(route.query, "productId"),
      TrimmedParameter(route.query, "engagementId"),
      NormalizeStatus(lower, EitherParameter(route.query, "redmineStatus", "redmine")),
      NormalizeSeverity(lower, Get(route.query, "severity").GetOr("")),
      Trim(EitherParameter(route.query, "q", "search")),
      Trim(EitherParameter(route.query, "finding", "findingKey")),
      TrimmedParameter(route.query, "issueId"))
  }

  /** What a hash keeps of filters. */
  function Normalized(lower: string -> string, f: Filters): Filters {
    Filters(Trim(f.year), Trim(f.productId), Trim(f.engagementId), NormalizeStatus(lower, f.redmineStatus),
            NormalizeSeverity(lower, f.severity), Trim(f.search), Trim(f.findingKey), "")
  }

  function ScopeFields(n: Filters): seq<Field> {
    [Field("year", n.year, ""), Field("productId", n.productId, ""), Field("engagementId", n.engagementId, ""),
     Field("severity", n.severity, "All")]
  }

  function FindingFields(n: Filters): seq<Field> {
    ScopeFields(n) +
    [Field("redmineStatus", n.redmineStatus, "all"), Field("q", n.search, ""), Field("finding", n.findingKey, "")]
  }

  lemma NamesAreDistinct(n: Filters)
    ensures DistinctNames(FindingFields(n)) && DistinctNames(ScopeFields(n))
  {
    var fields := FindingFields(n);
    assert |fields[0].name| == 4 && |fields[1].name| == 9 && |fields[2].name| == 12 && |fields[3].name| == 8;
    assert |fields[4].name| == 13 && |fields[5].name| == 1 && |fields[6].name| == 7;
    forall i, j | 0 <= i < j < |fields| ensures fields[i].name != fields[j].name {
      assert |fields[i].name| != |fields[j].name|;
    }
    assert forall i :: 0 <= i < 4 ==> ScopeFields(n)[i] == fields[i];
  }

  method BuildFindingScopeQuery(lower: string -> string, f: Filters) returns (text: string)
    ensures text == WithQuery("", QueryOf(ScopeFields(Normalized(lower, f))))
  {
    hide QueryOf, NormalizeSeverity, NormalizeStatus, Trim, ToText;
    ghost var n := Normalized(lower, f);
    ghost var fields := ScopeFields(n);
    NamesAreDistinct(n);
    var params := [];
    assert params == QueryOf(fields[..0]) by { NoFields(); }
    params := SetField(params, Field("year", Trim(f.year), ""), fields, 0);
    params := SetField(params, Field("productId", Trim(f.productId), ""), fields, 1);
    params := SetField(params, Field("engagementId", Trim(f.engagementId), ""), fields, 2);
    params := SetField(params, Field("severity", NormalizeSeverity(lower, f.severity), "All"), fields, 3);
    assert fields[..4] == fields;
    text := if ToText(params) != "" then "?" + ToText(params) else "";
  }

  lemma NoFields()
    ensures QueryOf([]) == []
  {
  }

  method BuildProductFindingsHash(lower: string -> string, f: Filters) returns (hash: string)
    ensures hash == WithQuery("#product-findings", QueryOf(FindingFields(Normalized(lower, f))))
  {
    hide QueryOf, NormalizeSeverity, NormalizeStatus, Trim, ToText;
    ghost var n := Normalized(lower, f);
    ghost var fields := FindingFields(n);
    NamesAreDistinct(n);
    var params := [];
    assert params == QueryOf(fields[..0]) by { NoFields(); }
    params := SetField(params, Field("year", Trim(f.year), ""), fields, 0);
    params := SetField(params, Field("productId", Trim(f.productId), ""), fields, 1);
    params := SetField(params, Field("engagementId", Trim(f.engagementId), ""), fields, 2);
    params := SetField(params, Field("severity", NormalizeSeverity(lower, f.severity), "All"), fields, 3);
    params := SetField(params, Field("redmineStatus", NormalizeStatus(lower, f.redmineStatus), "all"), fields, 4);
    params := SetField(params, Field("q", Trim(f.search), ""), fields, 5);
    params := SetField(params, Field("finding", Trim(f.findingKey), ""), fields, 6);
    assert fields[..7] == fields;
    hash := "#product-findings" + if ToText(params) != "" then "?" + ToText(params) else "";
  }

  function ProductFindingsHash(lower: string -> string, f: Filters): string {
    WithQuery("#product-findings", QueryOf(FindingFields(Normalized(lower, f))))
  }

  lemma TrimIsNormal(s: string)
    ensures Trim(Trim(s)) == Trim(s)
  {
    TrimTrims(s);
    TrimTrims(Trim(s));
  }

  lemma NormalizedIsNormal(lower: string -> string, f: Filters)
    requires LowersAscii(lower)
    ensures Normalized(lower, Normalized(lower, f)) == Normalized(lower, f)
  {
    hide Trim, NormalizeSeverity, NormalizeStatus, LowersAscii;
    TrimIsNormal(f.year);
    TrimIsNormal(f.productId);
    TrimIsNormal(f.engagementId);
    TrimIsNormal(f.search);
    TrimIsNormal(f.findingKey);
    SeverityIsNormal(lower, f.severity);
    StatusIsNormal(lower, f.redmineStatus);
  }

  /** Filters as the application holds them: trimmed, with a severity and a status that are offered. */
  predicate IsNormal(f: Filters) {
    && Trimmed(f.year) && Trimmed(f.productId) && Trimmed(f.engagementId) && Trimmed(f.search) && Trimmed(f.findingKey)
    && f.severity in ["Critical", "High", "Medium", "Low", "All"] && f.redmineStatus in STATUSES && f.issueId == ""
  }

  lemma SeveritiesStay(lower: string -> string, value: string, severity: string)
    requires LowersAscii(lower) && severity in ["Critical", "High", "Medium", "Low", "All"]
    requires lower(Trim(value)) == lower(severity)
    ensures NormalizeSeverity(lower, value) == severity
  {
    hide Trim, FindSeverity, LowersAscii;
    LoweredSeverities(lower);
    SeverityFound(lower, lower(Trim(value)));
    assert |"critical"| == 8 && |"high"| == 4 && |"medium"| == 6 && |"low"| == |"all"| == 3;
    assert "low"[0] != "all"[0];
  }

  /** Normalising leaves normal filters as they are, each in its own field. */
  lemma NormalFiltersStay(lower: string -> string, f: Filters)
    requires LowersAscii(lower) && IsNormal(f)
    ensures Normalized(lower, f) == f
  {
    hide Trim, NormalizeSeverity, NormalizeStatus, LowersAscii;
    TrimTrims(f.year);
    TrimTrims(f.productId);
    TrimTrims(f.engagementId);
    TrimTrims(f.search);
    TrimTrims(f.findingKey);
    SeveritiesTrim();
    SeveritiesStay(lower, f.severity, f.severity);
    OfferedStatusStays(lower, f.redmineStatus);
  }

  lemma OfferedStatusStays(lower: string -> string, status: string)
    requires LowersAscii(lower) && status in STATUSES
    ensures NormalizeStatus(lower, status) == status
  {
    hide Trim, Underscore, IsStatusLetter, LowersAscii;
    StatusesAreLetters(status);
    LettersStay(lower, status);
  }

  lemma Gaps()
    ensures IsGap(' ') && IsGap('\t') && IsGap('-') && !IsGap('_')
  {
  }

  lemma {:induction false} GapCollapses(gap: string, b: string)
    requires gap != "" && (forall c <- gap :: IsGap(c)) && b != "" && forall c <- b :: !IsGap(c)
    ensures Underscore(gap + b) == "_" + b
  {
    hide IsGap;
    assert gap[0] in gap && b[0] in b && (gap + b)[1..] == gap[1..] + b;
    if |gap| > 1 {
      assert gap[1] in gap && forall c <- gap[1..] :: c in gap;
      GapCollapses(gap[1..], b);
    } else {
      assert gap[1..] + b == b;
      UnderscoreKeeps(b);
    }
  }

  /** Whatever stands between two words, blanks or hyphens, becomes one underscore. */
  lemma {:induction false} GapsBecomeUnderscore(a: string, gap: string, b: string)
    requires gap != "" && (forall c <- gap :: IsGap(c)) && (forall c <- a :: !IsGap(c))
    requires b != "" && forall c <- b :: !IsGap(c)
    ensures Underscore(a + gap + b) == a + "_" + b
    ensures IsGap(' ') && IsGap('\t') && IsGap('-') && !IsGap('_')
  {
    hide IsGap;
    Gaps();
    if a == "" {
      GapCollapses(gap, b);
      assert a + gap + b == gap + b && a + "_" + b == "_" + b;
    } else {
      assert a[0] in a && forall c <- a[1..] :: c in a;
      GapsBecomeUnderscore(a[1..], gap, b);
      assert (a + gap + b)[1..] == a[1..] + gap + b && (a + gap + b)[0] == a[0];
      assert [a[0]] + (a[1..] + "_" + b) == a + "_" + b;
    }
  }

  /** A known hash with any query resolves to its own route and that query, and any other hash to the
      dashboard; only a data-management link that names an archive goes to the archive dashboard. */
  lemma HashResolves(lower: string -> string, hash: string, query: Query)
    requires '?' !in hash
    ensures var route := ResolveAppRoute(lower, WithQuery(hash, query));
      var toArchive := hash == "#data-management" && lower(TrimmedParameter(query, "tab")) == "archives"
        && TrimmedParameter(query, "archive") != "";
      && route.query == query
      && route.id ==
         if toArchive then "archive-dashboard" else if hash != "" && hash in HASHES then hash[1..] else "dashboard"
  {
    hide FromText, ToText, SplitHash, WithQuery, TrimmedParameter;
    QueryReadsBack(hash, query);
    assert HASHES[2] == "#data-management" && "#data-management"[1..] == "data-management";
    if hash != "" && hash in HASHES {
      HashesBeginAlike(hash);
      assert hash[1..] == "data-management" ==> hash == "#" + "data-management";
    }
  }

  lemma HashesBeginAlike(hash: string)
    requires hash in HASHES
    ensures hash != "" && hash == "#" + hash[1..]
  {
  }

  function FieldIn(query: Query, field: Field): string { Get(query, field.name).GetOr(field.default) }

  lemma FieldsAreRead(fields: seq<Field>)
    requires DistinctNames(fields)
    ensures forall field <- fields :: FieldIn(QueryOf(fields), field) == field.value
    ensures forall field <- fields :: field.value == field.default ==> Get(QueryOf(fields), field.name) == None
  {
    forall field | field in fields
      ensures FieldIn(QueryOf(fields), field) == field.value
      ensures field.value == field.default ==> Get(QueryOf(fields), field.name) == None
    {
      var i :| 0 <= i < |fields| && fields[i] == field;
      FieldIsFound(fields, i);
    }
  }

  lemma OtherNameIsAbsent(n: Filters, name: string)
    requires |name| !in {4, 9, 12, 8, 13, 1} && name != "finding"
    ensures Get(QueryOf(FindingFields(n)), name) == None
  {
    hide QueryOf, Get, FindingFields;
    FindingNames(n);
    AbsentField(FindingFields(n), name);
  }

  lemma FindingNames(n: Filters)
    ensures forall f <- FindingFields(n) :: |f.name| in {4, 9, 12, 8, 13, 1} || f.name == "finding"
  {
    var scope, rest := ScopeFields(n), FindingFields(n)[4..];
    assert FindingFields(n) == scope + rest;
    assert forall f <- scope :: |f.name| in {4, 9, 12, 8};
    assert forall f <- rest :: |f.name| in {13, 1} || f.name == "finding";
  }

  lemma OtherNamesAreAbsent(n: Filters)
    ensures var query := QueryOf(FindingFields(n));
      && Get(query, "redmine") == None && Get(query, "search") == None
      && Get(query, "findingKey") == None && Get(query, "issueId") == None
  {
    hide QueryOf, Get, FindingFields;
    assert "redmine"[0] != "finding"[0] && "issueId"[1] != "finding"[1];
    assert |"redmine"| == 7 && |"search"| == 6 && |"findingKey"| == 10 && |"issueId"| == 7 && |"finding"| == 7;
    OtherNameIsAbsent(n, "redmine");
    OtherNameIsAbsent(n, "search");
    OtherNameIsAbsent(n, "findingKey");
    OtherNameIsAbsent(n, "issueId");
  }

  /** What a query of finding fields holds. */
  lemma FindingParameters(n: Filters)
    ensures var query := QueryOf(FindingFields(n));
      && Get(query, "year").GetOr("") == n.year && Get(query, "productId").GetOr("") == n.productId
      && Get(query, "engagementId").GetOr("") == n.engagementId
      && EitherParameter(query, "q", "search") == n.search
      && EitherParameter(query, "finding", "findingKey") == n.findingKey
      && Get(query, "issueId").GetOr("") == ""
      && (n.severity != "" ==> Get(query, "severity").GetOr("") == if n.severity == "All" then "" else n.severity)
      && (n.redmineStatus != "" ==>
            EitherParameter(query, "redmineStatus", "redmine") ==
            if n.redmineStatus == "all" then "" else n.redmineStatus)
  {
    hide QueryOf, Get;
    var fields := FindingFields(n);
    NamesAreDistinct(n);
    FieldsAreRead(fields);
    OtherNamesAreAbsent(n);
    assert fields[0] in fields && fields[1] in fields && fields[2] in fields && fields[3] in fields;
    assert fields[4] in fields && fields[5] in fields && fields[6] in fields;
  }

  lemma NothingIsAllStatuses(lower: string -> string)
    requires LowersAscii(lower)
    ensures NormalizeStatus(lower, "") == "all"
  {
    LettersStay(lower, "");
  }

  /** Resolving the built hash and reading its filters gives the normalised filters, whatever the
      filters hold; only the issue id is not printed. */
  lemma FindingsHashReadsBack(lower: string -> string, f: Filters)
    requires LowersAscii(lower)
    ensures ResolveAppRoute(lower, ProductFindingsHash(lower, f)).id == "product-findings"
    ensures GetFindingRouteFilters(lower, ResolveAppRoute(lower, ProductFindingsHash(lower, f))) == Normalized(lower, f)
  {
    hide QueryOf, Get, NormalizeSeverity, NormalizeStatus, Trim, LowersAscii, FromText, ToText, SplitHash,
        EitherParameter;
    var n := Normalized(lower, f);
    var query := QueryOf(FindingFields(n));
    QueryReadsBack("#product-findings", query);
    ProductFindingsIsKnown();
    FindingParameters(n);
    NormalizedIsNormal(lower, f);
    SeverityIsNormal(lower, f.severity);
    NothingIsAllStatuses(lower);
    NormalStatusIsNotEmpty(lower, f.redmineStatus);
    TrimTrims("");
  }

  lemma NormalStatusIsNotEmpty(lower: string -> string, value: string)
    ensures NormalizeStatus(lower, value) != ""
  {
  }

  lemma ProductFindingsIsKnown()
    ensures RouteId("#product-findings") == "product-findings" && "product-findings" != "data-management"
  {
    assert HASHES[6] == "#product-findings" && "#product-findings"[1..] == "product-findings";
  }

  function ScopeQuery(lower: string -> string, f: Filters): string {
    WithQuery("", QueryOf(ScopeFields(Normalized(lower, f))))
  }

  /** Two scope queries are the same exactly when their normalised year, product, engagement and
      severity are. */
  lemma ScopeQueryIsInjective(lower: string -> string, f: Filters, g: Filters)
    ensures ScopeQuery(lower, f) == ScopeQuery(lower, g) <==>
      && Trim(f.year) == Trim(g.year) && Trim(f.productId) == Trim(g.productId)
      && Trim(f.engagementId) == Trim(g.engagementId)
      && NormalizeSeverity(lower, f.severity) == NormalizeSeverity(lower, g.severity)
  {
    hide QueryOf, Get, NormalizeSeverity, NormalizeStatus, Trim, FromText, ToText, SplitHash, WithQuery;
    var m, n := Normalized(lower, f), Normalized(lower, g);
    var a, b := ScopeFields(m), ScopeFields(n);
    if ScopeQuery(lower, f) == ScopeQuery(lower, g) {
      QueryReadsBack("", QueryOf(a));
      QueryReadsBack("", QueryOf(b));
      NamesAreDistinct(m);
      NamesAreDistinct(n);
      FieldsAreRead(a);
      FieldsAreRead(b);
      forall i | 0 <= i < 4 ensures a[i].value == b[i].value {
        assert a[i] in a && b[i] in b && a[i].name == b[i].name && a[i].default == b[i].default;
      }
      assert a[0].value == m.year && a[1].value == m.productId && a[2].value == m.engagementId
          && a[3].value == m.severity;
      assert b[0].value == n.year && b[1].value == n.productId && b[2].value == n.engagementId
          && b[3].value == n.severity;
    }
  }

  // ----- changing the year -----

  lemma {:induction false} WithoutRemoves(query: Query, name: string)
    ensures Get(Without(query, name), name) == None
  {
    if query != [] {
      WithoutRemoves(query[1..], name);
      if query[0].0 != name {
        assert Without(query, name)[1..] == Without(query[1..], name);
      } else {
        assert Without(query, name) == Without(query[1..], name);
      }
    }
  }

  /** The findings branch of `buildTopbarYearHash`. */
  method BuildFindingsYearHash(route: Route, year: string) returns (hash: string)
    requires route.id == "findings" || route.id == "product-findings"
    ensures hash == WithQuery("#" + route.id, YearQuery(route.query, year))
  {
    var normalizedYear := Trim(year);
    var query := route.query;
    if normalizedYear != "" {
      query := Set(query, "year", normalizedYear);
    } else {
      query := Without(query, "year");
    }
    query := Without(query, "productId");
    query := Without(query, "engagementId");
    hash := "#" + route.id + if ToText(query) != "" then "?" + ToText(query) else "";
  }

  function YearQuery(query: Query, year: string): Query {
    var dated := if Trim(year) != "" then Set(query, "year", Trim(year)) else Without(query, "year");
    Without(Without(dated, "productId"), "engagementId")
  }

  lemma YearQueryHolds(query: Query, year: string, name: string)
    ensures Get(YearQuery(query, year), "year").GetOr("") == Trim(year)
    ensures Get(YearQuery(query, year), "productId") == None && Get(YearQuery(query, year), "engagementId") == None
    ensures name !in ["year", "productId", "engagementId"] ==> Get(YearQuery(query, year), name) == Get(query, name)
  {
    hide Get, Without, Set, Trim;
    var dated := if Trim(year) != "" then Set(query, "year", Trim(year)) else Without(query, "year");
    var bare := Without(dated, "productId");
    assert |"year"| == 4 && |"productId"| == 9 && |"engagementId"| == 12;
    GetOfSet(query, "year", Trim(year), "year");
    GetOfSet(query, "year", Trim(year), name);
    WithoutRemoves(query, "year");
    WithoutRemoves(dated, "productId");
    WithoutRemoves(bare, "engagementId");
    WithoutKeepsOthers(dated, "productId", "year");
    WithoutKeepsOthers(bare, "engagementId", "year");
    WithoutKeepsOthers(bare, "engagementId", "productId");
    if name !in ["year", "productId", "engagementId"] {
      WithoutKeepsOthers(query, "year", name);
      WithoutKeepsOthers(dated, "productId", name);
      WithoutKeepsOthers(bare, "engagementId", name);
    }
  }

  lemma FindingsIsKnown(id: string)
    requires id == "findings" || id == "product-findings"
    ensures '?' !in "#" + id && RouteId("#" + id) == id && id != "data-management" && ReadsFilters(id)
  {
    hide RouteId;
    assert |"data-management"| == 15 && |"product-findings"| == 16 && |"findings"| == 8;
    if id == "findings" {
      PlainFindingsIsKnown();
      assert "#" + id == "#findings";
    } else {
      ProductFindingsIsKnown();
      assert "#" + id == "#product-findings";
    }
  }

  lemma PlainFindingsIsKnown()
    ensures RouteId("#findings") == "findings"
  {
    assert HASHES[3] == "#findings" && "#findings"[1..] == "findings";
  }

  /** Queries that differ in the year, the product and the engagement at most. */
  ghost predicate AgreeElsewhere(a: Query, b: Query) {
    forall name: string :: name !in ["year", "productId", "engagementId"] ==> Get(a, name) == Get(b, name)
  }

  lemma OtherFiltersAgree(lower: string -> string, a: Query, b: Query)
    requires AgreeElsewhere(a, b)
    ensures EitherParameter(a, "redmineStatus", "redmine") == EitherParameter(b, "redmineStatus", "redmine")
    ensures Get(a, "severity") == Get(b, "severity") && Get(a, "issueId") == Get(b, "issueId")
    ensures EitherParameter(a, "q", "search") == EitherParameter(b, "q", "search")
    ensures EitherParameter(a, "finding", "findingKey") == EitherParameter(b, "finding", "findingKey")
  {
    hide Get;
    assert |"year"| == 4 && |"productId"| == 9 && |"engagementId"| == 12;
    assert |"redmineStatus"| == 13 && |"redmine"| == 7 && |"severity"| == 8 && |"issueId"| == 7;
    assert |"q"| == 1 && |"search"| == 6 && |"finding"| == 7 && |"findingKey"| == 10;
  }

  /** Choosing a year on a findings page keeps the page and every other filter, and clears the
      product and the engagement, whatever else the query holds. */
  lemma YearHashKeepsOtherFilters(lower: string -> string, route: Route, year: string)
    requires route.id == "findings" || route.id == "product-findings"
    ensures var after := ResolveAppRoute(lower, WithQuery("#" + route.id, YearQuery(route.query, year)));
      && after.id == route.id
      && GetFindingRouteFilters(lower, after) ==
           GetFindingRouteFilters(lower, route).(year := Trim(year), productId := "", engagementId := "")
  {
    hide Get, YearQuery, NormalizeSeverity, NormalizeStatus, Trim, FromText, ToText, SplitHash, RouteId,
      EitherParameter, WithQuery, ReadsFilters;
    var query := YearQuery(route.query, year);
    FindingsIsKnown(route.id);
    QueryReadsBack("#" + route.id, query);
    forall name: string | name !in ["year", "productId", "engagementId"]
        ensures Get(query, name) == Get(route.query, name) {
      YearQueryHolds(route.query, year, name);
    }
    OtherFiltersAgree(lower, query, route.query);
    YearQueryHolds(route.query, year, "year");
    TrimIsNormal(year);
    TrimTrims("");
  }

  // ----- archive links -----

  const SECTIONS: seq<string> := ["live", "sync", "archives", "storage"]

  function DataManagementFields(section: string, year: string, archiveId: string): seq<Field> {
    [Field("tab", section, "live"), Field("year", Trim(year), ""),
     Field("archive", if section == "archives" then Trim(archiveId) else "", "")]
  }

  method BuildDataManagementHash(section: string, year: string, archiveId: string) returns (hash: string)
    ensures var normal := if section in SECTIONS then section else "live";
      hash == WithQuery("#data-management", QueryOf(DataManagementFields(normal, year, archiveId)))
  {
    hide QueryOf, Trim, ToText;
    var normalizedSection := if section in SECTIONS then section else "live";
    ghost var fields := DataManagementFields(normalizedSection, year, archiveId);
    ArchiveNamesAreDistinct(normalizedSection, year, archiveId);
    var query := [];
    assert query == QueryOf(fields[..0]) by { NoFields(); }
    query := SetField(query, Field("tab", normalizedSection, "live"), fields, 0);
    query := SetField(query, Field("year", Trim(year), ""), fields, 1);
    var archive := if normalizedSection == "archives" then Trim(archiveId) else "";
    query := SetField(query, Field("archive", archive, ""), fields, 2);
    assert fields[..3] == fields;
    hash := "#data-management" + if ToText(query) != "" then "?" + ToText(query) else "";
  }

  lemma ArchiveNamesAreDistinct(section: string, year: string, archiveId: string)
    ensures DistinctNames(DataManagementFields(section, year, archiveId))
  {
    assert |"tab"| == 3 && |"year"| == 4 && |"archive"| == 7;
  }

  datatype ArchiveState = ArchiveState(archiveId: string, year: string, findingKey: string)

  function GetArchiveState(route: Route): ArchiveState {
    ArchiveState(TrimmedParameter(route.query, "archive"), TrimmedParameter(route.query, "year"),
                 Trim(EitherParameter(route.query, "finding", "findingKey")))
  }

  /** A query as earlier releases spelled it. */
  function OlderFields(status: string, search: string, findingKey: string, issueId: string): seq<Field> {
    [Field("redmine", status, ""), Field("search", search, ""), Field("findingKey", findingKey, ""),
     Field("issueId", issueId, "")]
  }

  function NewerFields(status: string, search: string, findingKey: string): seq<Field> {
    [Field("redmineStatus", status, ""), Field("q", search, ""), Field("finding", findingKey, "")]
  }

  lemma OlderNamesAreDistinct(status: string, search: string, findingKey: string, issueId: string)
    ensures DistinctNames(OlderFields(status, search, findingKey, issueId))
  {
    assert |"redmine"| == 7 && |"search"| == 6 && |"findingKey"| == 10 && |"issueId"| == 7;
    assert "redmine"[0] == 'r' && "issueId"[0] == 'i';
  }

  lemma NotAnOlderName(fields: seq<Field>, name: string)
    requires |fields| == 4 && fields[0].name == "redmine" && fields[1].name == "search"
    requires fields[2].name == "findingKey" && fields[3].name == "issueId"
    requires |name| !in [7, 6, 10] || name == "finding"
    ensures Get(QueryOf(fields), name) == None
  {
    hide QueryOf, Get;
    assert |"redmine"| == 7 && |"search"| == 6 && |"findingKey"| == 10 && |"issueId"| == 7 && |"finding"| == 7;
    assert "redmine"[0] == 'r' && "issueId"[0] == 'i' && "finding"[0] == 'f';
    assert fields[0].name != name && fields[1].name != name && fields[2].name != name && fields[3].name != name;
    forall field | field in fields ensures field.name != name {
      var i :| 0 <= i < 4 && fields[i] == field;
    }
    AbsentField(fields, name);
  }

  lemma OlderParameters(status: string, search: string, findingKey: string, issueId: string)
    ensures var query := QueryOf(OlderFields(status, search, findingKey, issueId));
      && Get(query, "redmine").GetOr("") == status && Get(query, "search").GetOr("") == search
      && Get(query, "findingKey").GetOr("") == findingKey && Get(query, "issueId").GetOr("") == issueId
  {
    hide QueryOf, Get, DistinctNames;
    var fields := OlderFields(status, search, findingKey, issueId);
    OlderNamesAreDistinct(status, search, findingKey, issueId);
    FieldsAreRead(fields);
    assert fields[0] in fields && fields[1] in fields && fields[2] in fields && fields[3] in fields;
  }

  lemma OlderQueryHasNoOther(status: string, search: string, findingKey: string, issueId: string)
    ensures var query := QueryOf(OlderFields(status, search, findingKey, issueId));
      && Get(query, "redmineStatus") == None && Get(query, "q") == None && Get(query, "finding") == None
      && Get(query, "year") == None && Get(query, "productId") == None && Get(query, "engagementId") == None
      && Get(query, "severity") == None
  {
    hide QueryOf, Get;
    var fields := OlderFields(status, search, findingKey, issueId);
    assert |"redmineStatus"| == 13 && |"q"| == 1 && |"year"| == 4 && |"productId"| == 9;
    assert |"engagementId"| == 12 && |"severity"| == 8;
    NotAnOlderName(fields, "redmineStatus");
    NotAnOlderName(fields, "q");
    NotAnOlderName(fields, "finding");
    NotAnOlderName(fields, "year");
    NotAnOlderName(fields, "productId");
    NotAnOlderName(fields, "engagementId");
    NotAnOlderName(fields, "severity");
  }

  lemma NewerParameters(status: string, search: string, findingKey: string)
    ensures var query := QueryOf(NewerFields(status, search, findingKey));
      && Get(query, "redmineStatus").GetOr("") == status && Get(query, "q").GetOr("") == search
      && Get(query, "finding").GetOr("") == findingKey
  {
    hide QueryOf, Get;
    var fields := NewerFields(status, search, findingKey);
    assert |"redmineStatus"| == 13 && |"q"| == 1 && |"finding"| == 7;
    FieldsAreRead(fields);
    assert fields[0] in fields && fields[1] in fields && fields[2] in fields;
  }

  /** Links of earlier releases are read as before. */
  lemma OlderLinksRead(lower: string -> string, status: string, search: string, findingKey: string, issueId: string)
    ensures var query := QueryOf(OlderFields(status, search, findingKey, issueId));
      && GetFindingRouteFilters(lower, Route("findings", query)) ==
           Filters("", "", "", NormalizeStatus(lower, status), NormalizeSeverity(lower, ""), Trim(search),
                   Trim(findingKey), Trim(issueId))
      && GetArchiveState(Route("archive-dashboard", query)).findingKey == Trim(findingKey)
  {
    hide Get, QueryOf, Trim, NormalizeStatus, NormalizeSeverity, OlderFields;
    OlderParameters(status, search, findingKey, issueId);
    OlderQueryHasNoOther(status, search, findingKey, issueId);
    TrimTrims("");
  }

  /** And where a link has both spellings, the newer one counts if it says anything. */
  lemma NewerSpellingsCount(lower: string -> string, status: string, search: string, findingKey: string, older: Query)
    requires status != "" && search != "" && findingKey != ""
    ensures var query := QueryOf(NewerFields(status, search, findingKey)) + older;
      var f := GetFindingRouteFilters(lower, Route("findings", query));
      && f.redmineStatus == NormalizeStatus(lower, status) && f.search == Trim(search)
      && f.findingKey == Trim(findingKey)
      && GetArchiveState(Route("archive-dashboard", query)).findingKey == Trim(findingKey)
  {
    hide Get, QueryOf, Trim, NormalizeStatus, NormalizeSeverity, NewerFields;
    var newer := QueryOf(NewerFields(status, search, findingKey));
    NewerParameters(status, search, findingKey);
    GetOfConcat(newer, older, "redmineStatus");
    GetOfConcat(newer, older, "q");
    GetOfConcat(newer, older, "finding");
  }

  datatype DataState = DataState(section: string, year: string, archiveId: string)

  function GetDataState(lower: string -> string, route: Route): DataState {
    var requested := lower(TrimmedParameter(route.query, "tab"));
    var section := if requested in SECTIONS then requested else "live";
    DataState(section, TrimmedParameter(route.query, "year"),
              if section == "archives" then TrimmedParameter(route.query, "archive") else "")
  }

  /** A data-management link to an archive resolves to the archive dashboard, showing that archive and
      year; a link without one stays on the data-management page, in its section. */
  lemma ArchiveLinksResolve(lower: string -> string, section: string, year: string, archiveId: string)
    requires LowersAscii(lower) && section in SECTIONS
    ensures var fields := DataManagementFields(section, year, archiveId);
      var route := ResolveAppRoute(lower, WithQuery("#data-management", QueryOf(fields)));
      if section == "archives" && Trim(archiveId) != ""
      then route.id == "archive-dashboard" && GetArchiveState(route) == ArchiveState(Trim(archiveId), Trim(year), "")
      else route.id == "data-management" && GetDataState(lower, route) == DataState(section, Trim(year), "")
  {
    hide QueryOf, Get, Trim, WithQuery, ResolveAppRoute, GetArchiveState, GetDataState, TrimmedParameter, LowersAscii;
    var query := QueryOf(DataManagementFields(section, year, archiveId));
    HashResolves(lower, "#data-management", query);
    assert HASHES[2] == "#data-management" && "#data-management"[1..] == "data-management";
    LinkStates(lower, section, year, archiveId, "archive-dashboard");
    LinkStates(lower, section, year, archiveId, "data-management");
  }

  /** What the pages read from the query of such a link. */
  lemma LinkStates(lower: string -> string, section: string, year: string, archiveId: string, id: string)
    requires LowersAscii(lower) && section in SECTIONS
    ensures var query := QueryOf(DataManagementFields(section, year, archiveId));
      && (lower(TrimmedParameter(query, "tab")) == "archives" <==> section == "archives")
      && (section == "archives" ==>
            TrimmedParameter(query, "archive") == Trim(archiveId)
            && GetArchiveState(Route(id, query)) == ArchiveState(Trim(archiveId), Trim(year), ""))
      && (section != "archives" || Trim(archiveId) == "" ==>
            GetDataState(lower, Route(id, query)) == DataState(section, Trim(year), ""))
  {
    hide QueryOf, Get, Trim, LowersAscii, IsStatusLetter;
    ArchiveParameters(section, year, archiveId);
    SectionsAreLetters(section);
    LettersStay(lower, section);
    LettersStay(lower, "");
    TrimIsNormal(year);
    TrimIsNormal(archiveId);
  }

  lemma ArchiveParameters(section: string, year: string, archiveId: string)
    ensures var query := QueryOf(DataManagementFields(section, year, archiveId));
      && Get(query, "tab").GetOr("live") == section
      && (section == "live" ==> Get(query, "tab") == None)
      && Get(query, "year").GetOr("") == Trim(year)
      && Get(query, "archive").GetOr("") == (if section == "archives" then Trim(archiveId) else "")
      && Get(query, "finding") == None && Get(query, "findingKey") == None
  {
    hide QueryOf, Get, Trim;
    var fields := DataManagementFields(section, year, archiveId);
    ArchiveNamesAreDistinct(section, year, archiveId);
    FieldsAreRead(fields);
    assert fields[0] in fields && fields[1] in fields && fields[2] in fields;
    assert |"finding"| == 7 && |"findingKey"| == 10 && "finding"[0] != "archive"[0];
    AbsentField(fields, "finding");
    AbsentField(fields, "findingKey");
  }

  lemma SectionsAreLetters(section: string)
    requires section in SECTIONS
    ensures forall c <- section :: IsStatusLetter(c)
  {
  }
}
