/**
 * What findings are compacted by: vulnerability ids, families and group keys (vulnerabilityUtils.js,
 * `getCompactFingerprint` in compactionUtils.js), and a ticket's upgrade target.
 *
 * Texts that the source normalises by regular expressions are given in normalised form.
 */
module Families {
  import opened Options
  import opened OrderedMap
  import opened Text
  import Compaction
  import Orders
  import Versions

  /** An entry of an id list: text, or an object whose first present name field is `inner`. */
  datatype Value = Nothing | Plain(text: string) | Object(inner: Value)

  datatype Texts = Texts(title: string, mitigation: string, description: string, impact: string)

  /** The source keys of description and impact: trimmed texts. */
  datatype Detail = Detail(description: string, impact: string)

  datatype Finding = Finding(
    vulnerabilityIds: seq<Value>, cves: seq<Value>, cveIds: seq<Value>, cve: Value,
    software: Option<string>,      // named by an upgrade target
    known: Option<string>,         // the known family its title speaks of
    texts: Texts,
    detail: Detail,
    product: string, engagement: string)   // of its route, or of the pull filters

  // ----- vulnerability ids -----

  /** The id an entry stands for, '' for none. */
  function IdOf(locale: Locale, value: Value): string {
    match value
    case Object(inner) => IdOf(locale, inner)
    case Nothing => ""
    case Plain(text) =>
      var cleaned := CleanText(text);
      if locale.lower(cleaned) == "none" || locale.lower(cleaned) == "n/a" then "" else cleaned
  }

  function Innermost(value: Value): string {
    match value case Object(inner) => Innermost(inner) case Nothing => "" case Plain(text) => text
  }

  /** It is the innermost text, cleaned, unless that says that there is none. */
  lemma {:induction false} IdOfInnermost(locale: Locale, value: Value)
    ensures IdOf(locale, value) ==
      var id := CleanText(Innermost(value)); if locale.lower(id) in ["none", "n/a"] then "" else id
  {
    match value
    case Object(inner) => IdOfInnermost(locale, inner);
    case Nothing => CleanNothing();
    case Plain(_) =>
  }

  function IdsOf(locale: Locale, values: seq<Value>): seq<string> {
    if values == [] then []
    else
      var before, id := IdsOf(locale, values[..|values| - 1]), IdOf(locale, values[|values| - 1]);
      if id == "" then before else Add(before, id)
  }

  function Listed(f: Finding): seq<Value> { f.vulnerabilityIds + f.cves + f.cveIds + [f.cve] }

  function VulnerabilityIds(locale: Locale, f: Finding): seq<string> {
    locale.SortStrings(IdsOf(locale, Listed(f)))
  }

  method PushId(locale: Locale, ids: seq<string>, value: Value) returns (after: seq<string>)
    ensures after == if IdOf(locale, value) == "" then ids else Add(ids, IdOf(locale, value))
    decreases value
  {
    match value
    case Object(inner) => after := PushId(locale, ids, inner);
    case Nothing => after := ids;
    case Plain(text) =>
      var cleaned := CleanText(text);
      if cleaned != "" && locale.lower(cleaned) != "none" && locale.lower(cleaned) != "n/a" {
        after := Add(ids, cleaned);
      } else {
        after := ids;
      }
  }

  lemma IdsOfSnoc(locale: Locale, values: seq<Value>, value: Value)
    ensures IdsOf(locale, values + [value]) ==
      if IdOf(locale, value) == "" then IdsOf(locale, values) else Add(IdsOf(locale, values), IdOf(locale, value))
  {
    assert (values + [value])[..|values|] == values;
  }

  method PushIds(locale: Locale, ids: seq<string>, values: seq<Value>, ghost before: seq<Value>)
    returns (after: seq<string>)
    requires ids == IdsOf(locale, before)
    ensures after == IdsOf(locale, before + values)
  {
    hide IdsOf, IdOf;
    after := ids;
    assert before + values[..0] == before;
    for i := 0 to |values|
      invariant after == IdsOf(locale, before + values[..i])
    {
      assert before + values[..i + 1] == (before + values[..i]) + [values[i]];
      IdsOfSnoc(locale, before + values[..i], values[i]);
      after := PushId(locale, after, values[i]);
    }
    assert values[..|values|] == values;
  }

  method CollectVulnerabilityIds(locale: Locale, f: Finding) returns (ids: seq<string>)
    ensures ids == VulnerabilityIds(locale, f)
  {
    assert [] + f.vulnerabilityIds == f.vulnerabilityIds;
    ids := PushIds(locale, [], f.vulnerabilityIds, []);
    ids := PushIds(locale, ids, f.cves, f.vulnerabilityIds);
    ids := PushIds(locale, ids, f.cveIds, f.vulnerabilityIds + f.cves);
    assert Listed(f)[..|Listed(f)| - 1] == f.vulnerabilityIds + f.cves + f.cveIds;
    ids := PushId(locale, ids, f.cve);
    ids := locale.SortStrings(ids);
  }

  ghost predicate Names(locale: Locale, values: seq<Value>, id: string) {
    exists v <- values :: IdOf(locale, v) == id
  }

  lemma {:induction false} IdIsClean(locale: Locale, value: Value)
    ensures CleanText(IdOf(locale, value)) == IdOf(locale, value)
    decreases value
  {
    match value
    case Object(inner) => IdIsClean(locale, inner);
    case Nothing => CollapsedStays("");
    case Plain(text) =>
      CleanTextIsClean(text);
      CollapsedStays("");
  }

  lemma {:induction false} IdsOfMembers(locale: Locale, values: seq<Value>, id: string)
    ensures Distinct(IdsOf(locale, values))
    ensures id in IdsOf(locale, values) <==> id != "" && Names(locale, values, id)
  {
    if values != [] {
      var before, last := values[..|values| - 1], values[|values| - 1];
      IdsOfMembers(locale, before, id);
      AddAdds(IdsOf(locale, before), IdOf(locale, last));
      assert values == before + [last];
      assert Names(locale, values, id) <==> Names(locale, before, id) || IdOf(locale, last) == id;
    }
  }

  lemma IdsAreClean(locale: Locale, values: seq<Value>)
    ensures CleanAll(IdsOf(locale, values)) == IdsOf(locale, values)
  {
    forall x | x in IdsOf(locale, values) ensures x != "" && CleanText(x) == x {
      IdsOfMembers(locale, values, x);
      var v :| v in values && IdOf(locale, v) == x;
      IdIsClean(locale, v);
    }
    CleanAllOfClean(IdsOf(locale, values));
  }

  /** The lists and the single field a finding may name ids in. */
  ghost predicate IsEntry(f: Finding, value: Value) {
    value in f.vulnerabilityIds || value in f.cves || value in f.cveIds || value == f.cve
  }

  /** A finding's ids are exactly the texts its lists name, each once, in collation order. */
  lemma VulnerabilityIdsAreListed(locale: Locale, f: Finding, id: string)
    requires locale.Collates()
    ensures id in VulnerabilityIds(locale, f) <==> id != "" && exists v :: IsEntry(f, v) && IdOf(locale, v) == id
    ensures Names(locale, Listed(f), id) <==> exists v :: IsEntry(f, v) && IdOf(locale, v) == id
    ensures |VulnerabilityIds(locale, f)| == |IdsOf(locale, Listed(f))| && Distinct(IdsOf(locale, Listed(f)))
    ensures Orders.Sorted(locale.compare, VulnerabilityIds(locale, f))
  {
    var ids := IdsOf(locale, Listed(f));
    assert forall v :: v in Listed(f) <==> IsEntry(f, v);
    IdsAreClean(locale, Listed(f));
    IdsOfMembers(locale, Listed(f), id);
    Orders.SortSorts(locale.compare, ids);
    Orders.SortKeepsMembers(locale.compare, ids);
    assert id in ids <==> id in multiset(ids);
    assert id in VulnerabilityIds(locale, f) <==> id in multiset(VulnerabilityIds(locale, f));
  }

  /** Two findings that name the same ids. */
  ghost predicate SameNames(locale: Locale, f: Finding, g: Finding) {
    forall id :: id != "" ==> (Names(locale, Listed(f), id) <==> Names(locale, Listed(g), id))
  }

  lemma ListingDoesNotMatter(locale: Locale, f: Finding, g: Finding)
    requires locale.Collates() && Orders.Separates(locale.compare, IdsOf(locale, Listed(f))) && SameNames(locale, f, g)
    ensures VulnerabilityIds(locale, f) == VulnerabilityIds(locale, g)
  {
    var ids, others := IdsOf(locale, Listed(f)), IdsOf(locale, Listed(g));
    IdsAreClean(locale, Listed(f));
    IdsAreClean(locale, Listed(g));
    IdsOfMembers(locale, Listed(f), "");
    IdsOfMembers(locale, Listed(g), "");
    forall id ensures id in ids <==> id in others {
      IdsOfMembers(locale, Listed(f), id);
      IdsOfMembers(locale, Listed(g), id);
    }
    assert Range(ids) == Range(others);
    DistinctSameMembers(ids, others);
    Orders.SortForgetsOrder(locale.compare, ids, others);
  }

  lemma {:induction false} FirstIdStays(locale: Locale, value: Value, rest: seq<Value>)
    requires IdOf(locale, value) != ""
    ensures IdsOf(locale, [value] + rest) != [] && IdsOf(locale, [value] + rest)[0] == IdOf(locale, value)
  {
    hide IdOf;
    if rest == [] {
      assert [value] + rest == [value] && [value][..0] == [];
    } else {
      FirstIdStays(locale, value, rest[..|rest| - 1]);
      assert ([value] + rest)[..|rest|] == [value] + rest[..|rest| - 1];
    }
  }

  /** The same names listed with a given one in front. */
  lemma NamedFirst(locale: Locale, f: Finding, id: string) returns (g: Finding)
    requires locale.Collates() && id in IdsOf(locale, Listed(f))
    ensures SameNames(locale, f, g)
    ensures var ties := Orders.Ties(locale.compare, id, VulnerabilityIds(locale, g)); ties != [] && ties[0] == id
  {
    hide IdOf;
    IdsOfMembers(locale, Listed(f), id);
    var v :| v in Listed(f) && IdOf(locale, v) == id;
    g := f.(vulnerabilityIds := [v] + Listed(f), cves := [], cveIds := [], cve := v);
    assert Listed(g) == [v] + (Listed(f) + [v]);
    forall x ensures Names(locale, Listed(f), x) <==> Names(locale, Listed(g), x) {
      assert forall w :: w in Listed(g) <==> w in Listed(f);
    }
    FirstIdStays(locale, v, Listed(f) + [v]);
    IdsAreClean(locale, Listed(g));
    assert locale.compare(id, id) == 0;
    Orders.SortIsStable(locale.compare, IdsOf(locale, Listed(g)), id);
  }

  /** Whatever list names an id, in what order, how often or how deeply wrapped, comes to the same ids
      exactly when no two different ones tie. */
  lemma ListingDoesNotMatterExactly(locale: Locale, f: Finding)
    requires locale.Collates()
    ensures (forall g :: SameNames(locale, f, g) ==> VulnerabilityIds(locale, g) == VulnerabilityIds(locale, f))
      <==> Orders.Separates(locale.compare, IdsOf(locale, Listed(f)))
  {
    hide IdsOf, SameNames, VulnerabilityIds;
    var ids := IdsOf(locale, Listed(f));
    if Orders.Separates(locale.compare, ids) {
      forall g | SameNames(locale, f, g) ensures VulnerabilityIds(locale, g) == VulnerabilityIds(locale, f) {
        ListingDoesNotMatter(locale, f, g);
      }
    } else {
      var i, j :| 0 <= i < |ids| && 0 <= j < |ids| && locale.compare(ids[i], ids[j]) == 0 && ids[i] != ids[j];
      var g := NamedFirst(locale, f, ids[i]);
      var h := NamedFirst(locale, f, ids[j]);
      Orders.SameTies(locale.compare, ids[i], ids[j], VulnerabilityIds(locale, g));
      assert VulnerabilityIds(locale, g) != VulnerabilityIds(locale, h);
    }
  }

  // ----- families -----

  datatype Kind = Upgrade | Known | SameCve | Strict

  function KindOf(locale: Locale, f: Finding): Kind {
    if f.software.Some? then Upgrade
    else if VulnerabilityIds(locale, f) == [] && f.known.Some? then Known
    else if VulnerabilityIds(locale, f) != [] then SameCve
    else Strict
  }

  function StrictKey(t: Texts): string {
    "strict" + "|" + (t.title + "|" + (t.mitigation + "|" + (t.description + "|" + t.impact)))
  }

  function FamilyKey(locale: Locale, f: Finding): string {
    match KindOf(locale, f)
    case Upgrade => "upgrade|" + f.software.value
    case Known => "known|" + f.known.value
    case SameCve => "cve|" + Join(VulnerabilityIds(locale, f), ",")
    case Strict => StrictKey(f.texts)
  }

  /** What makes two findings one family. */
  predicate SameFamily(locale: Locale, f: Finding, g: Finding) {
    && KindOf(locale, f) == KindOf(locale, g)
    && match KindOf(locale, f) {
         case Upgrade => f.software == g.software
         case Known => f.known == g.known
         case SameCve => VulnerabilityIds(locale, f) == VulnerabilityIds(locale, g)
         case Strict => f.texts == g.texts
       }
  }

  ghost predicate NamesNoId(locale: Locale, f: Finding) {
    forall id :: id != "" ==> !Names(locale, Listed(f), id)
  }

  /** An upgrade target settles the family; without one and without vulnerability ids a known family does;
      else the ids, and with none the finding's own texts. */
  lemma FamilyIsResolved(locale: Locale, f: Finding)
    requires locale.Collates()
    ensures match KindOf(locale, f)
      case Upgrade => f.software.Some?
      case Known => f.software.None? && NamesNoId(locale, f) && f.known.Some?
      case SameCve => f.software.None? && !NamesNoId(locale, f)
      case Strict => f.software.None? && NamesNoId(locale, f) && f.known.None?
  {
    hide VulnerabilityIds, Names;
    var ids := VulnerabilityIds(locale, f);
    if ids == [] {
      forall id | id != "" ensures !Names(locale, Listed(f), id) {
        VulnerabilityIdsAreListed(locale, f, id);
      }
    } else {
      assert ids[0] in ids;
      VulnerabilityIdsAreListed(locale, f, ids[0]);
    }
  }

  function Others(t: Texts): string { t.mitigation + "|" + Rest(t) }

  function Rest(t: Texts): string { t.description + "|" + t.impact }

  lemma StrictKeyIs(t: Texts)
    ensures StrictKey(t) == "strict" + "|" + (t.title + "|" + Others(t))
  {
  }

  /** No title, mitigation or description and a bar begin the other's; impacts may hold anything. */
  predicate AreApart(s: Texts, t: Texts) {
    && !Reaches('|', s.title, t.title) && !Reaches('|', t.title, s.title)
    && !Reaches('|', s.mitigation, t.mitigation) && !Reaches('|', t.mitigation, s.mitigation)
    && !Reaches('|', s.description, t.description) && !Reaches('|', t.description, s.description)
  }

  predicate IsPlain(s: string) { '|' !in s }

  /** Texts without bars are apart. */
  lemma PlainTextsAreApart(s: Texts, t: Texts)
    requires IsPlain(s.title) && IsPlain(s.mitigation) && IsPlain(s.description)
    requires IsPlain(t.title) && IsPlain(t.mitigation) && IsPlain(t.description)
    ensures AreApart(s, t)
  {
    ReachedHoldsMark('|', s.title, t.title);
    ReachedHoldsMark('|', t.title, s.title);
    ReachedHoldsMark('|', s.mitigation, t.mitigation);
    ReachedHoldsMark('|', t.mitigation, s.mitigation);
    ReachedHoldsMark('|', s.description, t.description);
    ReachedHoldsMark('|', t.description, s.description);
  }

  lemma ApartSplits(a: string, b: string, c: string, d: string)
    requires a + "|" + b == c + "|" + d && !Reaches('|', a, c) && !Reaches('|', c, a)
    ensures a == c && b == d
  {
    hide Reaches;
    assert Collide('|', a, b, c, d);
    CollisionAligns('|', a, b, c, d);
    if a != c {
      CollideExactly('|', a, c);
    }
  }

  lemma StrictKeysTellTexts(s: Texts, t: Texts)
    requires AreApart(s, t) && StrictKey(s) == StrictKey(t)
    ensures s == t
  {
    hide Reaches, StrictKey;
    StrictKeyIs(s);
    StrictKeyIs(t);
    Behind("strict" + "|", s.title + "|" + Others(s), t.title + "|" + Others(t));
    ApartSplits(s.title, Others(s), t.title, Others(t));
    ApartSplits(s.mitigation, Rest(s), t.mitigation, Rest(t));
    ApartSplits(s.description, s.impact, t.description, t.impact);
  }

  function Bars(s: string): nat { multiset(s)['|'] }

  lemma BarsAdd(s: string, t: string)
    ensures Bars(s + t) == Bars(s) + Bars(t)
  {
  }

  lemma NoBars(s: string)
    requires '|' !in s
    ensures Bars(s) == 0
  {
    assert '|' !in multiset(s);
  }

  lemma MarkBars()
    ensures Bars("|") == 1 && Bars("|route|") >= 2
  {
    assert multiset("|") == multiset{'|'};
    assert "|route|" == "|" + ("route" + "|");
    BarsAdd("|", "route" + "|");
    BarsAdd("route", "|");
  }

  // ----- when strict families meet -----

  ghost predicate AreClean(t: Texts) {
    && CleanText(t.title) == t.title && CleanText(t.mitigation) == t.mitigation
    && CleanText(t.description) == t.description && CleanText(t.impact) == t.impact
  }

  datatype Part = Title | Mitigation | Description

  function PartOf(part: Part, t: Texts): string {
    match part case Title => t.title case Mitigation => t.mitigation case Description => t.description
  }

  /** What follows a part in the key. */
  function Following(part: Part, t: Texts): string {
    match part case Title => Others(t) case Mitigation => Rest(t) case Description => t.impact
  }

  predicate SameBefore(part: Part, x: Texts, y: Texts) {
    match part
    case Title => true
    case Mitigation => x.title == y.title
    case Description => x.title == y.title && x.mitigation == y.mitigation
  }

  /** Clean texts that agree before a part, have `s` and `t` there, and share their key. */
  ghost predicate Meet(part: Part, s: string, t: string, x: Texts, y: Texts) {
    && AreClean(x) && AreClean(y) && SameBefore(part, x, y)
    && PartOf(part, x) == s && PartOf(part, y) == t && StrictKey(x) == StrictKey(y)
  }

  lemma KeysMeetInPart(part: Part, x: Texts, y: Texts)
    requires SameBefore(part, x, y)
    ensures StrictKey(x) == StrictKey(y) <==>
      Collide('|', PartOf(part, x), Following(part, x), PartOf(part, y), Following(part, y))
  {
    hide StrictKey;
    StrictKeyIs(x);
    StrictKeyIs(y);
    assert StrictKey(x) == StrictKey(y) <==> x.title + "|" + Others(x) == y.title + "|" + Others(y) by {
      SameBehind("strict" + "|", x.title + "|" + Others(x), y.title + "|" + Others(y));
    }
    if x.title == y.title {
      SameBehind(x.title + "|", Others(x), Others(y));
    }
    if x.mitigation == y.mitigation {
      SameBehind(x.mitigation + "|", Rest(x), Rest(y));
    }
  }

  lemma FollowingStartsSolid(part: Part, t: Texts)
    requires AreClean(t)
    ensures StartsSolid(Following(part, t))
  {
    hide CleanText, IsSpace;
    BarIsNoSpace();
    CleanTextIsClean(t.mitigation);
    CleanTextIsClean(t.description);
    CleanTextIsClean(t.impact);
  }

  /** Texts that are empty but for one part, and for the next, which takes up what the other text's part has
      beyond this one's. */
  function Short(part: Part, s: string, next: string): Texts {
    match part
    case Title => Texts(s, next, "", "")
    case Mitigation => Texts("", s, next, "")
    case Description => Texts("", "", s, next)
  }

  lemma BridgesMeet(part: Part, s: string, t: string)
    requires CleanText(s) == s && CleanText(t) == t && Bridges(s, t)
    ensures (exists x, y :: Meet(part, s, t, x, y)) && (exists x, y :: Meet(part, t, s, x, y))
  {
    hide CleanText, StrictKey, Bridges;
    CleanNothing();
    BridgeCollides(s, t, "");
    var rest := t[|s| + 1..];
    var x, y := Short(part, s, rest + "|" + ""), Short(part, t, "");
    ReachingCollides('|', s, t, Following(part, y)) by { BridgeReaches(s, t); }
    assert Following(part, x) == rest + "|" + Following(part, y);
    KeysMeetInPart(part, x, y);
    assert Meet(part, s, t, x, y) && Meet(part, t, s, y, x);
  }

  lemma BridgeReaches(s: string, t: string)
    requires Bridges(s, t)
    ensures Reaches('|', s, t)
  {
  }

  /** Strict families can meet although their titles differ, or their mitigations, or their descriptions, by
      some clean texts behind, exactly if one of the two and a bar begin the other with no blank behind. */
  lemma TextsMeetExactly(part: Part, s: string, t: string)
    requires CleanText(s) == s && CleanText(t) == t && s != t
    ensures (exists x, y :: Meet(part, s, t, x, y)) <==> Bridges(s, t) || Bridges(t, s)
  {
    hide CleanText, Bridges, StrictKey;
    if x, y :| Meet(part, s, t, x, y) {
      KeysMeetInPart(part, x, y);
      FollowingStartsSolid(part, x);
      FollowingStartsSolid(part, y);
      CollisionBridges(s, Following(part, x), t, Following(part, y));
    }
    if Bridges(s, t) {
      BridgesMeet(part, s, t);
    } else if Bridges(t, s) {
      BridgesMeet(part, t, s);
    }
  }

  /** The families' first letters. */
  lemma KindsAreApart(locale: Locale, f: Finding)
    ensures FamilyKey(locale, f) != ""
    ensures FamilyKey(locale, f)[0] ==
      match KindOf(locale, f) case Upgrade => 'u' case Known => 'k' case SameCve => 'c' case Strict => 's'
  {
    hide VulnerabilityIds, Join;
  }

  /** Family keys are equal exactly for findings of one family: the four kinds never meet, and within
      a kind the key tells what the family is about, if id lists and texts are apart. */
  lemma FamilyKeysAreExact(locale: Locale, f: Finding, g: Finding)
    requires ListsApart(',', VulnerabilityIds(locale, f), VulnerabilityIds(locale, g)) && AreApart(f.texts, g.texts)
    ensures FamilyKey(locale, f) == FamilyKey(locale, g) <==> SameFamily(locale, f, g)
  {
    hide VulnerabilityIds, Join, StrictKey, AreApart, ListsApart;
    KindsAreApart(locale, f);
    KindsAreApart(locale, g);
    if FamilyKey(locale, f) == FamilyKey(locale, g) {
      match KindOf(locale, f)
      case Upgrade => Behind("upgrade|", f.software.value, g.software.value);
      case Known => Behind("known|", f.known.value, g.known.value);
      case SameCve =>
        Behind("cve|", Join(VulnerabilityIds(locale, f), ","), Join(VulnerabilityIds(locale, g), ","));
        ApartListsJoinApart(',', VulnerabilityIds(locale, f), VulnerabilityIds(locale, g));
      case Strict => StrictKeysTellTexts(f.texts, g.texts);
    }
  }

  /** Texts without bars, and ids without commas, are apart. */
  lemma PlainFamiliesAreExact(locale: Locale, f: Finding, g: Finding)
    requires forall id <- VulnerabilityIds(locale, f) + VulnerabilityIds(locale, g) :: ',' !in id
    requires IsPlain(f.texts.title) && IsPlain(f.texts.mitigation) && IsPlain(f.texts.description)
    requires IsPlain(g.texts.title) && IsPlain(g.texts.mitigation) && IsPlain(g.texts.description)
    ensures FamilyKey(locale, f) == FamilyKey(locale, g) <==> SameFamily(locale, f, g)
  {
    hide VulnerabilityIds, FamilyKey, SameFamily, AreApart, ListsApart;
    var (a, b) := (VulnerabilityIds(locale, f), VulnerabilityIds(locale, g));
    assert (forall id <- a :: id in a + b) && (forall id <- b :: id in a + b);
    FreeListsAreApart(',', a, b);
    PlainTextsAreApart(f.texts, g.texts);
    FamilyKeysAreExact(locale, f, g);
  }

  // ----- group keys -----

  function DetailKey(d: Detail): string { "detail" + "|" + (d.description + "|" + d.impact) }

  function Content(locale: Locale, f: Finding): string { FamilyKey(locale, f) + "|" + DetailKey(f.detail) }

  function RouteText(f: Finding): string { f.product + "|" + f.engagement }

  function GroupKey(locale: Locale, f: Finding): string { Content(locale, f) + "|route|" + RouteText(f) }

  /** The text `r` of a route ends in a route mark and `q`, so that a content can take what is before. */
  predicate Swallows(r: string, q: string) {
    var (long, short) := ("|" + r, "|route|" + q);
    |long| >= |short| && long[|long| - |short|..] == short
  }

  lemma MarkOverlapsNothing()
    ensures forall i :: 0 < i < 6 ==> "|route|"[i] != '|'
  {
    assert "|route|" == ['|', 'r', 'o', 'u', 't', 'e', '|'];
  }

  /** Two different route texts behind equal keys: the longer ends in a route mark and the shorter. */
  lemma LongerSwallows(a: string, r: string, b: string, q: string)
    requires a + "|route|" + r == b + "|route|" + q && |r| > |q|
    ensures Swallows(r, q)
  {
    var s, t := a + "|route|" + r, b + "|route|" + q;
    var d := |r| - |q|;
    assert |b| == |a| + d;
    assert forall i :: 0 <= i < 7 ==> s[|a| + i] == "|route|"[i];
    assert t[|b|] == '|';
    MarkOverlapsNothing();
    assert d >= 6;
    assert s[|a| + 6..] == "|" + r && t[|b|..] == "|route|" + q;
    assert ("|" + r)[d - 6..] == s[|b|..];
  }

  lemma SwallowingMeets(a: string, r: string, q: string) returns (b: string)
    requires Swallows(r, q)
    ensures |"|" + r| >= |"|route|" + q| && b == ("|" + r)[..|"|" + r| - |"|route|" + q|]
    ensures a + "|route|" + r == a + "|route" + b + "|route|" + q
  {
    b := ("|" + r)[..|"|" + r| - |"|route|" + q|];
    assert "|" + r == b + ("|route|" + q);
    assert a + "|route|" + r == a + "|route" + ("|" + r);
    assert a + "|route" + (b + ("|route|" + q)) == a + "|route" + b + "|route|" + q;
  }

  /** The route text `r` ends in a route mark and `q`, with no blank before the mark. */
  predicate Grabs(r: string, q: string) {
    && Swallows(r, q)
    && (var k := |"|" + r| - |"|route|" + q|; k > 0 ==> !IsSpace(("|" + r)[k - 1]))
  }

  predicate IsDetail(d: Detail) { Trimmed(d.description) && Trimmed(d.impact) }

  predicate IsCleanRoute(f: Finding) { CleanText(f.product) == f.product && CleanText(f.engagement) == f.engagement }

  /** Details under which two findings share a group key. */
  predicate Share(locale: Locale, f: Finding, g: Finding, x: Detail, y: Detail) {
    IsDetail(x) && IsDetail(y) && GroupKey(locale, f.(detail := x)) == GroupKey(locale, g.(detail := y))
  }

  lemma DetailIsNoFamily(locale: Locale, f: Finding, x: Detail)
    ensures FamilyKey(locale, f.(detail := x)) == FamilyKey(locale, f)
  {
    hide IdsOf, Join;
  }

  lemma DetailEndsSolid(head: string, d: Detail)
    requires IsDetail(d)
    ensures var c := head + "|" + DetailKey(d); c != "" && !IsSpace(c[|c| - 1])
  {
    hide IsSpace;
    BarIsNoSpace();
    var c := head + "|" + DetailKey(d);
    assert c == head + "|" + "detail" + "|" + d.description + "|" + d.impact;
    assert d.impact != "" ==> c[|c| - 1] == d.impact[|d.impact| - 1];
    assert d.impact == "" ==> c[|c| - 1] == '|';
  }

  lemma SwallowingGrabs(a: string, r: string, b: string, q: string)
    requires a + "|route|" + r == b + "|route|" + q && Swallows(r, q)
    requires b != "" && !IsSpace(b[|b| - 1])
    ensures Grabs(r, q)
  {
    hide IsSpace, Swallows;
    var c := SwallowingMeets(a, r, q);
    assert |b| == |a + "|route" + c|;
    assert (a + "|route|" + r)[..|b|] == b && (a + "|route" + c + "|route|" + q)[..|b|] == a + "|route" + c;
    var k := |"|" + r| - |"|route|" + q|;
    assert |c| == k && c == ("|" + r)[..k];
    assert k > 0 ==> b[|b| - 1] == c[k - 1];
  }

  /** A route text that grabs another shares a key with it: the other's impact takes up what is before. */
  lemma GrabbingShares(locale: Locale, f: Finding, g: Finding) returns (y: Detail)
    requires FamilyKey(locale, f) == FamilyKey(locale, g) && IsCleanRoute(f) && Grabs(RouteText(f), RouteText(g))
    ensures Share(locale, f, g, Detail("", ""), y) && Share(locale, g, f, y, Detail("", ""))
  {
    hide FamilyKey, Swallows, IsSpace, CleanText;
    var r, q := RouteText(f), RouteText(g);
    var empty := Detail("", "");
    var a := FamilyKey(locale, f) + "|" + DetailKey(empty);
    var b := SwallowingMeets(a, r, q);
    y := Detail("", "|route" + b);
    MarkedIsTrimmed(r, b);
    DetailIsNoFamily(locale, f, empty);
    DetailIsNoFamily(locale, g, y);
    assert FamilyKey(locale, g) + "|" + DetailKey(y) == a + "|route" + b;
  }

  lemma MarkedIsTrimmed(r: string, b: string)
    requires b <= "|" + r && (b != "" ==> !IsSpace(b[|b| - 1]))
    ensures Trimmed("|route" + b)
  {
    assert ("|route" + b)[0] == '|';
    assert "|route" == ['|', 'r', 'o', 'u', 't', 'e'];
    assert b == "" ==> "|route" + b == "|route";
  }

  /** Two clean routes of one family, unless that is strict, can share a group key, by some trimmed details,
      exactly if their texts are the same or one ends in a route mark and the other, with no blank before. A
      strict family is told by its description and impact, which its details follow. */
  lemma RoutesMeetExactly(locale: Locale, f: Finding, g: Finding)
    requires FamilyKey(locale, f) == FamilyKey(locale, g) && KindOf(locale, f) != Strict
    requires IsCleanRoute(f) && IsCleanRoute(g)
    ensures (exists x, y :: Share(locale, f, g, x, y)) <==>
      RouteText(f) == RouteText(g) || Grabs(RouteText(f), RouteText(g)) || Grabs(RouteText(g), RouteText(f))
  {
    hide FamilyKey, Swallows, Grabs, IsSpace, CleanText;
    var (r, q, empty) := (RouteText(f), RouteText(g), Detail("", ""));
    if x, y :| Share(locale, f, g, x, y) {
      DetailIsNoFamily(locale, f, x);
      DetailIsNoFamily(locale, g, y);
      var (a, b) := (FamilyKey(locale, f) + "|" + DetailKey(x), FamilyKey(locale, g) + "|" + DetailKey(y));
      DetailEndsSolid(FamilyKey(locale, f), x);
      DetailEndsSolid(FamilyKey(locale, g), y);
      KeysMeet(a, r, b, q);
      if Swallows(r, q) {
        SwallowingGrabs(a, r, b, q);
      } else if Swallows(q, r) {
        SwallowingGrabs(b, q, a, r);
      }
    }
    if r == q {
      DetailIsNoFamily(locale, f, empty);
      DetailIsNoFamily(locale, g, empty);
      assert Share(locale, f, g, empty, empty);
    } else if Grabs(r, q) {
      var y := GrabbingShares(locale, f, g);
    } else if Grabs(q, r) {
      var x := GrabbingShares(locale, g, f);
    }
  }

  lemma KeysMeet(a: string, r: string, b: string, q: string)
    requires a + "|route|" + r == b + "|route|" + q
    ensures r == q || Swallows(r, q) || Swallows(q, r)
  {
    if |r| > |q| {
      LongerSwallows(a, r, b, q);
    } else if |q| > |r| {
      LongerSwallows(b, q, a, r);
    } else {
      assert (a + "|route|" + r)[|a| + 7..] == r && (b + "|route|" + q)[|b| + 7..] == q;
    }
  }

  /** Compaction stays within a route, whatever family and detail hold: unless one route text ends in a
      route mark and the other, or one product and a bar begin the other, equal group keys mean equal
      product, engagement and content. */
  lemma GroupsStayInTheirRoute(locale: Locale, f: Finding, g: Finding)
    requires !Swallows(RouteText(f), RouteText(g)) && !Swallows(RouteText(g), RouteText(f))
    requires !Reaches('|', f.product, g.product) && !Reaches('|', g.product, f.product)
    ensures GroupKey(locale, f) == GroupKey(locale, g) <==>
      f.product == g.product && f.engagement == g.engagement && Content(locale, f) == Content(locale, g)
  {
    hide Content, Swallows, Reaches;
    var (a, b, r, q) := (Content(locale, f), Content(locale, g), RouteText(f), RouteText(g));
    if GroupKey(locale, f) == GroupKey(locale, g) {
      KeysMeet(a, r, b, q);
      assert (a + "|route|" + r)[..|a|] == a && (b + "|route|" + q)[..|b|] == b;
      assert Collide('|', f.product, f.engagement, g.product, g.engagement);
      CollisionAligns('|', f.product, f.engagement, g.product, g.engagement);
      if f.product != g.product {
        CollideExactly('|', f.product, g.product);
      }
    }
  }

  /** Routes without bars are never crossed. */
  lemma PlainRoutesNeverCross(f: Finding, g: Finding)
    requires '|' !in f.product && '|' !in f.engagement && '|' !in g.product && '|' !in g.engagement
    ensures !Swallows(RouteText(f), RouteText(g)) && !Reaches('|', f.product, g.product)
  {
    ReachedHoldsMark('|', f.product, g.product);
    PlainRouteSwallowsNothing(f.product, f.engagement, g.product, g.engagement);
  }

  lemma PlainRouteSwallowsNothing(p: string, e: string, q: string, d: string)
    requires '|' !in p && '|' !in e
    ensures !Swallows(p + "|" + e, q + "|" + d)
  {
    hide Bars;
    var long, short := "|" + (p + "|" + e), "|route|" + (q + "|" + d);
    MarkBars();
    NoBars(p);
    NoBars(e);
    BarsAdd("|", p + "|" + e);
    BarsAdd(p + "|", e);
    BarsAdd(p, "|");
    BarsAdd("|route|", q + "|" + d);
    BarsAdd(q + "|", d);
    BarsAdd(q, "|");
    assert Bars(long) < Bars(short);
    if |long| >= |short| {
      var k := |long| - |short|;
      assert long == long[..k] + long[k..];
      BarsAdd(long[..k], long[k..]);
    }
  }

  /** Engagements under which two products share a group key. */
  ghost predicate Cross(locale: Locale, f: Finding, p: string, e: string, q: string, d: string) {
    && CleanText(e) == e && CleanText(d) == d
    && GroupKey(locale, f.(product := p, engagement := e)) == GroupKey(locale, f.(product := q, engagement := d))
  }

  /** With bars compaction does cross: under equal contents two different clean products share group keys,
      for some clean engagements, exactly if one of them and a bar begin the other with no blank behind. */
  lemma ProductsCrossExactly(locale: Locale, f: Finding, p: string, q: string)
    requires CleanText(p) == p && CleanText(q) == q && p != q
    ensures (exists e, d :: Cross(locale, f, p, e, q, d)) <==> Bridges(p, q) || Bridges(q, p)
  {
    hide Content, Bridges, CleanText;
    forall e, d ensures Cross(locale, f, p, e, q, d) <==> CleanCollide(p, e, q, d) {
      RouteIsNoContent(locale, f, p, e);
      RouteIsNoContent(locale, f, q, d);
      SameBehind(Content(locale, f) + "|route|", p + "|" + e, q + "|" + d);
    }
    CleanCollideExactly(p, q);
    if Bridges(p, q) || Bridges(q, p) {
      var e, d :| CleanCollide(p, e, q, d);
      assert Cross(locale, f, p, e, q, d);
    }
    if e, d :| Cross(locale, f, p, e, q, d) {
      assert CleanCollide(p, e, q, d);
    }
  }

  lemma RouteIsNoContent(locale: Locale, f: Finding, p: string, e: string)
    ensures Content(locale, f.(product := p, engagement := e)) == Content(locale, f)
  {
    hide IdsOf, Join;
  }

  /** For instance product `a|b`, engagement `c`, and product `a`, engagement `b|c`. */
  lemma BarsCrossRoutes(locale: Locale, f: Finding)
    ensures GroupKey(locale, f.(product := "a|b", engagement := "c")) ==
        GroupKey(locale, f.(product := "a", engagement := "b|c"))
  {
    hide Content;
    RouteIsNoContent(locale, f, "a|b", "c");
    RouteIsNoContent(locale, f, "a", "b|c");
    assert "a|b" + "|" + "c" == "a" + "|" + "b|c";
  }

  // ----- a ticket's upgrade target -----

  /** The usable targets the ticket's texts name. */
  function Targets(parse: string -> Option<Compaction.Target>, candidates: seq<string>): seq<Compaction.Target> {
    if candidates == [] then []
    else
      var target := parse(candidates[0]);
      (if target.Some? && target.value.software != "" && target.value.version != "" then [target.value] else [])
      + Targets(parse, candidates[1..])
  }

  function NewestFirst(locale: Locale): (Compaction.Target, Compaction.Target) -> int {
    (a: Compaction.Target, b: Compaction.Target) => Versions.CompareVersions(locale, b.version, a.version)
  }

  function CollectTicketUpgradeTargets(locale: Locale, parse: string -> Option<Compaction.Target>,
      candidates: seq<string>): seq<Compaction.Target> {
    Orders.Sort(NewestFirst(locale), Targets(parse, candidates))
  }

  function GetTicketUpgradeTarget(locale: Locale, parse: string -> Option<Compaction.Target>,
      candidates: seq<string>): Option<Compaction.Target> {
    var targets := CollectTicketUpgradeTargets(locale, parse, candidates);
    if targets == [] then None else Some(targets[0])
  }

  lemma NewestFirstIsConsistent(locale: Locale)
    requires locale.Collates()
    ensures Orders.Consistent(NewestFirst(locale))
  {
    hide Versions.CompareVersions;
    Versions.VersionsAreOrdered(locale);
    var versions := (v, w) => Versions.CompareVersions(locale, v, w);
    var cmp := NewestFirst(locale);
    forall a ensures cmp(a, a) == 0 {
      assert versions(a.version, a.version) == 0;
    }
    forall a, b ensures Orders.Opposite(cmp, a, b) {
      assert Orders.Opposite(versions, b.version, a.version);
      assert Orders.Opposite(versions, a.version, b.version);
    }
    forall a, b, c ensures Orders.Chains(cmp, a, b, c) {
      assert Orders.Chains(versions, c.version, b.version, a.version);
    }
  }

  /** A ticket shows a target of maximal version among all its texts name, and none only if they
      name none. */
  lemma TicketTargetIsHighest(locale: Locale, parse: string -> Option<Compaction.Target>, candidates: seq<string>)
    requires locale.Collates()
    ensures var shown := GetTicketUpgradeTarget(locale, parse, candidates);
      && (shown.None? <==> Targets(parse, candidates) == [])
      && (shown.Some? ==> shown.value in Targets(parse, candidates))
      && (shown.Some? ==> forall t <- Targets(parse, candidates) ::
            Versions.CompareVersions(locale, t.version, shown.value.version) <= 0)
  {
    hide Versions.CompareVersions, Orders.Sort, Orders.Consistent;
    var targets := Targets(parse, candidates);
    var cmp := NewestFirst(locale);
    var sorted := Orders.Sort(cmp, targets);
    NewestFirstIsConsistent(locale);
    Orders.SortSorts(cmp, targets);
    Orders.SortKeepsMembers(cmp, targets);
    if sorted != [] {
      assert sorted[0] in multiset(targets);
      forall t | t in targets ensures Versions.CompareVersions(locale, t.version, sorted[0].version) <= 0 {
        assert t in multiset(sorted);
        Orders.LeastOfSorted(cmp, sorted, t);
      }
    }
  }
}
