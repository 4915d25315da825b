/**
 * Sync All progress: normalising a message, merging it into what is known, and the figures the
 * view derives (syncAllProgress.js, contract sync-all-progress.v3.json).
 *
 * Payloads the client only carries along (scope, notices, result, error) are opaque texts.
 */
module SyncProgress {
  import opened Options
  import opened Text

  const SCHEMA_VERSION := 3.0
  const PHASES := ["starting", "pulling_defectdojo", "preparing_redmine", "checking_redmine", "preparing_tickets",
                   "ensuring_projects", "creating_tickets", "rechecking_mitigations", "saving_history"]

  /** A field that should hold a number, as it may arrive. */
  datatype NumField = Missing | Null | NotANumber | Num(value: real)

  datatype Field<+T> = Absent | Given(value: T)

  datatype ListField = NoList | NotAList | List(items: seq<string>)

  datatype PhaseField = PhaseObject(id: string, index: NumField, total: NumField) | PhaseText(text: string) | NoPhase

  datatype Work = Work(kind: string, current: NumField, total: NumField)

  /** A progress message as received. */
  datatype Update = Update(
    schemaVersion: NumField,
    runId: string,
    sequence: NumField,
    status: string,
    phase: PhaseField,
    phaseId: string, phaseIndex: NumField, current: NumField, phaseCount: NumField, total: NumField,
    scope: Field<Option<string>>,
    work: Field<Option<Work>>,
    counters: map<string, string>,
    notices: ListField, warnings: ListField,
    startedAt: Option<real>, updatedAt: Option<real>,
    result: Field<string>, error: Field<string>,
    message: string)

  datatype Status = Running | Complete | Failed

  datatype Phase = Phase(id: string, index: real, total: real)

  datatype Progress = Progress(
    runId: string,
    sequence: real,
    status: Status,
    phase: Phase,
    scope: Option<string>,
    work: Option<Work>,
    counters: map<string, string>,
    notices: seq<string>,
    startedAt: real, updatedAt: real,
    result: Field<string>, error: Field<string>,
    legacy: Option<(string, string)>)   // phase label and message of a pre-v3 message

  /** `Number(value)`, when finite. */
  function NumberOf(f: NumField): Option<real> {
    match f
    case Null => Some(0.0)
    case Num(v) => Some(v)
    case _ => None
  }

  function ToNumber(f: NumField, fallback: real): real { NumberOf(f).GetOr(fallback) }

  /** `a ?? b` */
  function OrElse(a: NumField, b: NumField): NumField { if a.Missing? || a.Null? then b else a }

  function AtLeastZero(x: real): real { if x > 0.0 then x else 0.0 }

  function StatusOf(lower: string -> string, status: string, legacyPhase: string): Status {
    var s := lower(Trim(status));
    if s == "running" then Running
    else if s == "complete" then Complete
    else if s == "failed" then Failed
    else
      var p := lower(Trim(legacyPhase));
      if p == "complete" then Complete else if p == "failed" then Failed else Running
  }

  function IndexOf(id: string, phases: seq<string>): Option<nat> {
    if phases == [] then None
    else if phases[0] == id then Some(0)
    else match IndexOf(id, phases[1..]) case Some(i) => Some(i + 1) case None => None
  }

  function PhaseOf(u: Update): Phase {
    var (id, index, total) :=
      if u.phase.PhaseObject? then (u.phase.id, u.phase.index, u.phase.total) else ("", Missing, Missing);
    var name := Trim(if id != "" then id else if Trim(u.phaseId) != "" then Trim(u.phaseId) else PHASES[0]);
    Phase(name,
          AtLeastZero(ToNumber(OrElse(OrElse(index, u.phaseIndex), u.current),
                               IndexOf(name, PHASES).GetOr(0) as real)),
          AtLeastZero(ToNumber(OrElse(OrElse(total, u.phaseCount), u.total), |PHASES| as real)))
  }

  function LegacyNotices(details: seq<string>): seq<string> {
    if details == [] then [] else [Trim(details[0])] + LegacyNotices(details[1..])
  }

  function NoticesOf(u: Update, previous: Option<Progress>): seq<string> {
    match (u.notices, u.warnings)
    case (NoList, NoList) => if previous.Some? then previous.value.notices else []
    case (List(items), _) => items
    case (_, List(details)) => LegacyNotices(details)
    case _ => []
  }

  predicate IsVersion3(u: Update) { NumberOf(u.schemaVersion) == Some(SCHEMA_VERSION) }

  function RunOf(u: Update, previous: Option<Progress>): string {
    Trim(if u.runId != "" then u.runId else if previous.Some? then previous.value.runId else "")
  }

  /** `cleanText(progress.phase)`: an object prints as JavaScript prints objects. */
  function LegacyLabel(phase: PhaseField): string {
    match phase
    case PhaseObject(_, _, _) => "[object Object]"
    case PhaseText(text) => Trim(text)
    case NoPhase => ""
  }

  function Normalize(lower: string -> string, u: Update, previous: Option<Progress>, now: real): Progress {
    var before := if previous.Some? then previous.value.sequence else 0.0;
    Progress(
      RunOf(u, previous),
      AtLeastZero(ToNumber(u.sequence, before + 1.0)),
      StatusOf(lower, u.status, if u.phase.PhaseText? then u.phase.text else ""),
      PhaseOf(u),
      if u.scope.Given? then u.scope.value else if previous.Some? then previous.value.scope else None,
      if u.work.Given? then u.work.value else if previous.Some? then previous.value.work else None,
      (if previous.Some? then previous.value.counters else map[]) + u.counters,
      NoticesOf(u, previous),
      u.startedAt.GetOr(if previous.Some? then previous.value.startedAt else now),
      u.updatedAt.GetOr(now),
      if u.result.Given? || previous.None? then u.result else previous.value.result,
      if u.error.Given? || previous.None? then u.error else previous.value.error,
      if IsVersion3(u) && u.phase.PhaseObject? then None
      else Some((LegacyLabel(u.phase), Trim(u.message))))
  }

  predicate IsServerMessage(u: Update) { IsVersion3(u) && NumberOf(u.sequence).Some? }

  predicate OtherRun(previous: Option<Progress>, u: Update) {
    previous.Some? && previous.value.runId != "" && RunOf(u, previous) != ""
    && previous.value.runId != RunOf(u, previous)
  }

  function Merge(lower: string -> string, previous: Option<Progress>, u: Update, now: real): Option<Progress> {
    var known := if previous.Some? then previous.value.sequence else -1.0;
    if OtherRun(previous, u) then Some(Normalize(lower, u, previous, now))
    else if IsServerMessage(u) && NumberOf(u.sequence).value <= known then previous
    else Some(Normalize(lower, u, previous, now))
  }

  // ----- what a message says, field by field -----

  function NameOf(status: Status): string {
    match status case Running => "running" case Complete => "complete" case Failed => "failed"
  }

  /** The status by name: the message's own, if it is one of the contract's; else what a text phase names, if
      that is an ending; else running. */
  predicate StatusFits(lower: string -> string, status: Status, u: Update) {
    var named := lower(Trim(u.status));
    var phase := if u.phase.PhaseText? then lower(Trim(u.phase.text)) else "";
    NameOf(status) ==
      if named in ["running", "complete", "failed"] then named
      else if phase in ["complete", "failed"] then phase
      else "running"
  }

  predicate IsGiven(f: NumField) { f.Num? || f.NotANumber? }

  /** `x` is what the field says, read as a count. */
  predicate Counts(x: real, f: NumField, fallback: real) {
    match f
    case Num(value) => x == if value < 0.0 then 0.0 else value
    case Null => x == 0.0
    case _ => x == fallback
  }

  /** The first of three fields that is given, and the last if none is. */
  function FirstGiven(a: NumField, b: NumField, c: NumField): NumField {
    if IsGiven(a) then a else if IsGiven(b) then b else c
  }

  /** The phase: the message's own, else as earlier messages spelled it, else by its place in the contract. */
  predicate PhaseFits(phase: Phase, u: Update) {
    && phase.id == Trim(if u.phase.PhaseObject? && u.phase.id != "" then u.phase.id
                        else if Trim(u.phaseId) != "" then u.phaseId else PHASES[0])
    && Counts(phase.index,
              FirstGiven(if u.phase.PhaseObject? then u.phase.index else Missing, u.phaseIndex, u.current),
              PlaceOf(phase.id))
    && Counts(phase.total,
              FirstGiven(if u.phase.PhaseObject? then u.phase.total else Missing, u.phaseCount, u.total),
              |PHASES| as real)
  }

  /** The place of a phase in the contract, 0 for one that is not in it. */
  function PlaceOf(id: string): real { IndexOf(id, PHASES).GetOr(0) as real }

  /** That is, its first place. */
  lemma {:induction false} IndexOfIs(id: string, phases: seq<string>)
    ensures match IndexOf(id, phases)
      case None => id !in phases
      case Some(i) => i < |phases| && phases[i] == id && id !in phases[..i]
  {
    if phases != [] && phases[0] != id {
      IndexOfIs(id, phases[1..]);
      if IndexOf(id, phases[1..]).Some? {
        var i := IndexOf(id, phases[1..]).value;
        assert phases[..i + 1] == [phases[0]] + phases[1..][..i];
      }
    }
  }

  lemma StatusFitsNormalized(lower: string -> string, u: Update, previous: Option<Progress>, now: real)
    requires lower("") == ""
    ensures StatusFits(lower, Normalize(lower, u, previous, now).status, u)
  {
    hide StatusOf, PhaseOf, NoticesOf, RunOf, LegacyLabel, Trim;
    StatusOfFits(lower, u);
  }

  lemma StatusOfFits(lower: string -> string, u: Update)
    requires lower("") == ""
    ensures StatusFits(lower, StatusOf(lower, u.status, if u.phase.PhaseText? then u.phase.text else ""), u)
  {
    hide Trim;
    TrimTrims("");
  }

  lemma PhaseFitsNormalized(u: Update)
    ensures PhaseFits(PhaseOf(u), u)
  {
    hide Trim, IndexOf;
    TrimTrims(u.phaseId);
    TrimTrims(Trim(u.phaseId));
  }

  predicate NoticesFit(notices: seq<string>, u: Update) {
    && (u.notices.List? ==> notices == u.notices.items)
    && (!u.notices.List? && u.warnings.List? ==>
          |notices| == |u.warnings.items| && forall i :: 0 <= i < |notices| ==> notices[i] == Trim(u.warnings.items[i]))
    && (!u.notices.List? && !u.warnings.List? && (u.notices.NotAList? || u.warnings.NotAList?) ==> notices == [])
  }

  lemma {:induction false} LegacyNoticesAre(details: seq<string>)
    ensures |LegacyNotices(details)| == |details|
    ensures forall i :: 0 <= i < |details| ==> LegacyNotices(details)[i] == Trim(details[i])
  {
    if details != [] {
      LegacyNoticesAre(details[1..]);
    }
  }

  /** What an accepted message leaves of the record: given fields replace, absent ones stay, counters add up. */
  ghost predicate Updates(lower: string -> string, p: Progress, u: Update, q: Progress, now: real) {
    && q.runId == Trim(if u.runId != "" then u.runId else p.runId)
    && (u.sequence.Num? ==> q.sequence == if u.sequence.value < 0.0 then 0.0 else u.sequence.value)
    && (NumberOf(u.sequence).None? && p.sequence >= 0.0 ==> q.sequence == p.sequence + 1.0)
    && StatusFits(lower, q.status, u) && PhaseFits(q.phase, u)
    && q.scope == (if u.scope.Given? then u.scope.value else p.scope)
    && q.work == (if u.work.Given? then u.work.value else p.work)
    && (forall k :: k in q.counters <==> k in u.counters || k in p.counters)
    && (forall k <- q.counters :: q.counters[k] == if k in u.counters then u.counters[k] else p.counters[k])
    && (if u.notices == NoList && u.warnings == NoList then q.notices == p.notices else NoticesFit(q.notices, u))
    && q.startedAt == u.startedAt.GetOr(p.startedAt) && q.updatedAt == u.updatedAt.GetOr(now)
    && q.result == (if u.result.Given? then u.result else p.result)
    && q.error == (if u.error.Given? then u.error else p.error)
    && (q.legacy.None? <==> IsVersion3(u) && u.phase.PhaseObject?)
    && (u.phase.PhaseText? ==> q.legacy == Some((Trim(u.phase.text), Trim(u.message))))
  }

  /** Numbered by the server under the contract: version 3, with a number for its sequence. */
  predicate IsNumbered(u: Update) { u.schemaVersion == Num(3.0) && (u.sequence.Num? || u.sequence.Null?) }

  /** Tagged, and with another run than the record. */
  predicate IsOfAnotherRun(p: Progress, u: Update) {
    var run := Trim(if u.runId != "" then u.runId else p.runId);
    p.runId != "" && run != "" && run != p.runId
  }

  /** A message is dropped exactly if the server numbered it, it is of the run of the record, and it is no
      news; any other updates the record field by field. */
  lemma MergeUpdatesFields(lower: string -> string, p: Progress, u: Update, now: real)
    requires lower("") == ""
    ensures var q := Merge(lower, Some(p), u, now);
      q.Some? && if IsNumbered(u) && !IsOfAnotherRun(p, u) && SequenceOf(u) <= p.sequence then q.value == p
                 else Updates(lower, p, u, q.value, now)
  {
    hide Updates, Normalize, Trim;
    NormalizeUpdates(lower, p, u, now);
    NormalizedRun(lower, p, u, now);
  }

  lemma NormalizedRun(lower: string -> string, p: Progress, u: Update, now: real)
    ensures RunOf(u, Some(p)) == Trim(if u.runId != "" then u.runId else p.runId)
  {
  }

  lemma NormalizeUpdates(lower: string -> string, p: Progress, u: Update, now: real)
    requires lower("") == ""
    ensures Updates(lower, p, u, Normalize(lower, u, Some(p), now), now)
  {
    hide PhaseOf, PhaseFits, StatusOf, StatusFits;
    StatusFitsNormalized(lower, u, Some(p), now);
    PhaseFitsNormalized(u);
    if u.warnings.List? {
      LegacyNoticesAre(u.warnings.items);
    }
  }

  // ----- sequences -----

  /** Within a run, a server message changes what is known only by raising the sequence. */
  lemma ServerMessagesAdvance(lower: string -> string, p: Progress, u: Update, now: real)
    requires IsServerMessage(u) && !OtherRun(Some(p), u)
    ensures var m := Merge(lower, Some(p), u, now);
      m.Some? && (m.value == p || m.value.sequence > p.sequence)
  {
  }

  /** Only a message outside the v3 contract that names a lower sequence can turn it back. */
  lemma ExactlyLegacyMessagesRewind(lower: string -> string, p: Progress, u: Update, now: real)
    requires !OtherRun(Some(p), u)
    ensures var m := Merge(lower, Some(p), u, now);
      m.Some? && (m.value.sequence < p.sequence <==>
        !IsVersion3(u) && NumberOf(u.sequence).Some? && AtLeastZero(NumberOf(u.sequence).value) < p.sequence)
  {
  }

  // ----- folding snapshots -----

  type Message = (Update, real)    // with the clock reading at its arrival

  function Fold(lower: string -> string, messages: seq<Message>): Option<Progress> {
    if messages == [] then None
    else
      var last := messages[|messages| - 1];
      Merge(lower, Fold(lower, messages[..|messages| - 1]), last.0, last.1)
  }

  function SequenceOf(u: Update): real { NumberOf(u.sequence).GetOr(0.0) }

  /** A full snapshot of `run` in the v3 contract: nothing is left to earlier messages. */
  predicate IsSnapshot(u: Update, run: string) {
    && IsServerMessage(u) && SequenceOf(u) >= 0.0
    && run != "" && u.runId != "" && Trim(u.runId) == run
    && u.phase.PhaseObject? && u.scope.Given? && u.work.Given?
    && (u.notices != NoList || u.warnings != NoList)
    && u.startedAt.Some? && u.updatedAt.Some?
  }

  /** Of two snapshots the later has every counter and outcome the earlier had, and two snapshots
      of one sequence are the same message. */
  predicate Consecutive(u: Update, v: Update) {
    SequenceOf(u) <= SequenceOf(v) ==>
      && u.counters.Keys <= v.counters.Keys
      && (u.result.Given? ==> v.result.Given?) && (u.error.Given? ==> v.error.Given?)
      && (SequenceOf(u) == SequenceOf(v) ==> u == v)
  }

  ghost predicate IsTranscript(messages: seq<Message>, run: string) {
    && (forall m <- messages :: IsSnapshot(m.0, run))
    && (forall m <- messages, n <- messages :: Consecutive(m.0, n.0))
  }

  ghost predicate Carries(messages: seq<Message>, u: Update) { exists m <- messages :: m.0 == u }

  ghost predicate IsHighest(messages: seq<Message>, u: Update) {
    && Carries(messages, u)
    && (forall m <- messages :: SequenceOf(m.0) <= SequenceOf(u))
  }

  lemma SnapshotOverwrites(lower: string -> string, u: Update, v: Update, run: string, t: real, now: real)
    requires IsSnapshot(u, run) && IsSnapshot(v, run) && Consecutive(u, v) && SequenceOf(u) < SequenceOf(v)
    ensures Merge(lower, Some(Normalize(lower, u, None, t)), v, now) == Some(Normalize(lower, v, None, now))
    ensures Normalize(lower, v, None, now) == Normalize(lower, v, None, t)
  {
    assert u.counters + v.counters == v.counters;
    assert map[] + u.counters == u.counters && map[] + v.counters == v.counters;
  }

  lemma FirstSnapshot(lower: string -> string, u: Update, run: string, now: real)
    requires IsSnapshot(u, run)
    ensures Merge(lower, None, u, now) == Some(Normalize(lower, u, None, 0.0))
  {
  }

  lemma OlderSnapshotIsDropped(lower: string -> string, u: Update, v: Update, run: string, now: real)
    requires IsSnapshot(u, run) && IsSnapshot(v, run) && SequenceOf(v) <= SequenceOf(u)
    ensures Merge(lower, Some(Normalize(lower, u, None, 0.0)), v, now) == Some(Normalize(lower, u, None, 0.0))
  {
  }

  /** Whatever the order and the repetitions, folding a run's snapshots yields the highest one. */
  lemma {:induction false} FoldYieldsHighest(lower: string -> string, messages: seq<Message>, run: string, u: Update)
    requires IsTranscript(messages, run) && IsHighest(messages, u)
    ensures Fold(lower, messages) == Some(Normalize(lower, u, None, 0.0))
  {
    hide Normalize, Merge, IsSnapshot;
    var before, last := messages[..|messages| - 1], messages[|messages| - 1];
    assert messages == before + [last];
    assert last in messages;
    if before == [] {
      assert last.0 == u;
      FirstSnapshot(lower, u, run, last.1);
    } else {
      var top := Highest(before);
      FoldYieldsHighest(lower, before, run, top);
      var m :| m in before && m.0 == top;
      assert m in messages && Consecutive(top, last.0) && Consecutive(last.0, top);
      var n :| n in messages && n.0 == u;
      assert SequenceOf(u) <= (if SequenceOf(top) < SequenceOf(last.0) then SequenceOf(last.0) else SequenceOf(top));
      if SequenceOf(top) < SequenceOf(last.0) {
        SnapshotOverwrites(lower, top, last.0, run, 0.0, last.1);
        assert Consecutive(n.0, last.0);
      } else {
        assert Consecutive(n.0, m.0);
        OlderSnapshotIsDropped(lower, top, last.0, run, last.1);
      }
    }
  }

  /** The record shows what the snapshot says. */
  predicate Mirrors(lower: string -> string, p: Progress, u: Update, run: string)
    requires IsSnapshot(u, run)
  {
    && p.runId == run && p.sequence == SequenceOf(u)
    && StatusFits(lower, p.status, u) && PhaseFits(p.phase, u)
    && p.scope == u.scope.value && p.work == u.work.value && p.counters == u.counters
    && NoticesFit(p.notices, u)
    && p.startedAt == u.startedAt.value && p.updatedAt == u.updatedAt.value
    && p.result == u.result && p.error == u.error && p.legacy == None
  }

  /** So the fold shows every field of the highest snapshot, whatever the order and the repetitions. */
  lemma FoldMirrorsHighest(lower: string -> string, messages: seq<Message>, run: string, u: Update)
    requires lower("") == "" && IsTranscript(messages, run) && IsHighest(messages, u)
    ensures IsSnapshot(u, run) && Fold(lower, messages).Some?
    ensures Mirrors(lower, Fold(lower, messages).value, u, run)
  {
    hide Normalize, Mirrors, IsSnapshot;
    var m :| m in messages && m.0 == u;
    assert IsSnapshot(m.0, run);
    FoldYieldsHighest(lower, messages, run, u);
    NormalizedMirrors(lower, u, run);
  }

  lemma NormalizedMirrors(lower: string -> string, u: Update, run: string)
    requires lower("") == "" && IsSnapshot(u, run)
    ensures Mirrors(lower, Normalize(lower, u, None, 0.0), u, run)
  {
    hide PhaseOf, PhaseFits, StatusOf, StatusFits;
    StatusFitsNormalized(lower, u, None, 0.0);
    PhaseFitsNormalized(u);
    assert map[] + u.counters == u.counters;
    if u.warnings.List? {
      LegacyNoticesAre(u.warnings.items);
    }
  }

  lemma {:induction false} Highest(messages: seq<Message>) returns (u: Update)
    requires messages != []
    ensures IsHighest(messages, u)
  {
    var before, last := messages[..|messages| - 1], messages[|messages| - 1];
    assert messages == before + [last];
    if before == [] {
      u := last.0;
    } else {
      u := Highest(before);
      if SequenceOf(u) < SequenceOf(last.0) {
        u := last.0;
      } else {
        var m :| m in before && m.0 == u;
        assert m in messages;
      }
    }
  }

  /** So any two deliveries of one set of snapshots end in the same state. */
  lemma DeliveryOrderIsIrrelevant(lower: string -> string, a: seq<Message>, b: seq<Message>, run: string)
    requires IsTranscript(a, run) && a != [] && b != []
    requires forall u: Update :: Carries(a, u) <==> Carries(b, u)
    ensures Fold(lower, a) == Fold(lower, b)
  {
    var u := Highest(a);
    SameUpdatesSameTranscript(a, b, run);
    forall m | m in b ensures SequenceOf(m.0) <= SequenceOf(u) {
      assert Carries(b, m.0);
      var n :| n in a && n.0 == m.0;
    }
    FoldYieldsHighest(lower, a, run, u);
    FoldYieldsHighest(lower, b, run, u);
  }

  lemma SameUpdatesSameTranscript(a: seq<Message>, b: seq<Message>, run: string)
    requires IsTranscript(a, run)
    requires forall u: Update :: Carries(a, u) <==> Carries(b, u)
    ensures IsTranscript(b, run)
  {
    forall m | m in b ensures IsSnapshot(m.0, run) {
      assert Carries(b, m.0);
      var n :| n in a && n.0 == m.0;
    }
    forall m, k | m in b && k in b ensures Consecutive(m.0, k.0) {
      assert Carries(b, m.0) && Carries(b, k.0);
      var n :| n in a && n.0 == m.0;
      var l :| l in a && l.0 == k.0;
      assert Consecutive(n.0, l.0);
    }
  }

  // ----- the view -----

  predicate Terminal(p: Option<Progress>) { p.Some? && p.value.status != Running }

  function ClampCount(f: NumField): nat {
    var x := ToNumber(f, 0.0);
    if x < 0.0 then 0 else x.Floor
  }

  function WorkFraction(p: Progress): (f: real)
    ensures 0.0 <= f <= 1.0
  {
    if p.work.None? then 0.0
    else
      var current, total := ClampCount(p.work.value.current), ClampCount(p.work.value.total);
      if total == 0 then 0.0
      else if current >= total then 1.0
      else assert current as real / total as real <= 1.0; current as real / total as real
  }

  /** The share of work done, nothing without a total, and never more than all. */
  lemma WorkFractionIs(p: Progress, kind: string, current: nat, total: nat)
    requires p.work == Some(Work(kind, Num(current as real), Num(total as real)))
    ensures WorkFraction(p) ==
      if total == 0 then 0.0 else if current >= total then 1.0 else current as real / total as real
  {
  }

  /** `Math.round` */
  function Round(x: real): int { (x + 0.5).Floor }

  /** How far along the phases, work within the phase included. */
  function Position(p: Progress): real { AtLeastZero(p.phase.index) + WorkFraction(p) }

  function Percent(p: Progress): int {
    if p.status == Complete then 100
    else
      var total := AtLeastZero(p.phase.total);
      var rounded := Round(if total > 0.0 then Position(p) / total * 100.0 else 0.0);
      if rounded < 0 then 0 else if rounded > 99 then 99 else rounded
  }

  function PhaseNumber(p: Progress): real {
    var total := AtLeastZero(p.phase.total);
    if p.status == Complete || total < AtLeastZero(p.phase.index) + 1.0 then total
    else AtLeastZero(p.phase.index) + 1.0
  }

  /** 100 means complete, and nothing else does; the phase number stays within the total. */
  lemma HundredMeansComplete(p: Progress)
    ensures Percent(p) == 100 <==> p.status == Complete
    ensures 0 <= Percent(p) <= 100
    ensures 0.0 <= PhaseNumber(p) <= AtLeastZero(p.phase.total)
  {
  }

  /** Below the cap the percentage is within half a point of the share of phases done. */
  lemma PercentIsNearest(p: Progress)
    requires p.status != Complete && p.phase.total > 0.0 && Position(p) / p.phase.total * 100.0 <= 99.0
    ensures var share := Position(p) / p.phase.total * 100.0;
      share - 0.5 <= Percent(p) as real <= share + 0.5
  {
    var share := Position(p) / p.phase.total * 100.0;
    DivisionIsMonotone(0.0, Position(p), p.phase.total);
    assert 0.0 <= share && Round(share) as real <= share + 0.5 < Round(share) as real + 1.0;
  }

  lemma DivisionIsMonotone(x: real, y: real, t: real)
    requires x <= y && t > 0.0
    ensures x / t <= y / t
  {
    var d := (y - x) / t;
    assert y / t == x / t + d;
  }

  /** Above it the percentage stays at 99, and with no phases to count at 0. */
  lemma PercentIsCapped(p: Progress)
    requires p.status != Complete
    ensures p.phase.total > 0.0 && Position(p) / p.phase.total * 100.0 > 99.0 ==> Percent(p) == 99
    ensures p.phase.total <= 0.0 ==> Percent(p) == 0
  {
  }

  /** The phase number is the phase under way, counted from one, as long as there is one. */
  lemma PhaseNumberIs(p: Progress)
    requires p.phase.index >= 0.0
    ensures p.status != Complete && p.phase.index + 1.0 <= p.phase.total ==> PhaseNumber(p) == p.phase.index + 1.0
    ensures p.phase.total >= 0.0 && (p.status == Complete || p.phase.index + 1.0 > p.phase.total) ==>
      PhaseNumber(p) == p.phase.total
  {
  }

  /** Until completion the percentage does not fall while the position does not. */
  lemma PercentFollowsPosition(p: Progress, q: Progress)
    requires p.status != Complete && p.phase.total == q.phase.total && Position(p) <= Position(q)
    ensures Percent(p) <= Percent(q)
  {
    var total := AtLeastZero(p.phase.total);
    if total > 0.0 && q.status != Complete {
      DivisionIsMonotone(Position(p), Position(q), total);
    }
  }

  predicate IsWhole(x: real) { x.Floor as real == x }

  /** With whole phase indexes, moving on lexicographically in (index, work fraction) is enough. */
  lemma PercentFollowsPhases(p: Progress, q: Progress)
    requires p.status != Complete && p.phase.total == q.phase.total
    requires IsWhole(p.phase.index) && IsWhole(q.phase.index) && p.phase.index >= 0.0
    requires p.phase.index < q.phase.index || (p.phase.index == q.phase.index && WorkFraction(p) <= WorkFraction(q))
    ensures Percent(p) <= Percent(q)
  {
    if p.phase.index < q.phase.index {
      assert p.phase.index.Floor + 1 <= q.phase.index.Floor;
    }
    PercentFollowsPosition(p, q);
  }

  /** Moving from phase index `i` to `j` never lowers the percentage, whatever work is done or the total. */
  ghost predicate StepIsSafe(i: real, j: real) {
    forall p: Progress, q: Progress ::
      p.status != Complete && p.phase.total == q.phase.total && p.phase.index == i && q.phase.index == j
      ==> Percent(p) <= Percent(q)
  }

  /** A record at a phase index of a total of phases, its work all done or none to do. */
  function At(index: real, total: real, done: bool): Progress {
    Progress("", 0.0, Running, Phase("", index, total), None,
             if done then Some(Work("", Num(1.0), Num(1.0))) else None,
             map[], [], 0.0, 0.0, Absent, Absent, None)
  }

  lemma SmallShare(x: real, d: real)
    requires 0.0 <= 200.0 * x < d
    ensures 0.0 <= x / d * 100.0 < 0.5
  {
    var gap := d / 200.0 - x;
    assert gap / d > 0.0 && x / d >= 0.0;
    assert x / d + gap / d == (d / 200.0) / d == 1.0 / 200.0;
  }

  lemma HalfAPoint(i: real, j: real)
    requires 0.0 <= i < j < i + 1.0
    ensures var total := 200.0 * (i + 1.0);
      Percent(At(i, total, true)) == 1 && Percent(At(j, total, false)) == 0
  {
    var n := i + 1.0;
    assert n / (200.0 * n) == 1.0 / 200.0;
    SmallShare(j, 200.0 * n);
    assert WorkFraction(At(i, 200.0 * n, true)) == 1.0;
    assert Position(At(i, 200.0 * n, true)) == n && Position(At(j, 200.0 * n, false)) == j;
  }

  /** A rising phase index is safe for every work fraction and every total exactly if it rises by a
      whole phase at least. */
  lemma StepIsSafeExactly(i: real, j: real)
    requires 0.0 <= i < j
    ensures StepIsSafe(i, j) <==> j >= i + 1.0
  {
    if j >= i + 1.0 {
      forall p: Progress, q: Progress
        | p.status != Complete && p.phase.total == q.phase.total && p.phase.index == i && q.phase.index == j
        ensures Percent(p) <= Percent(q)
      {
        PercentFollowsPosition(p, q);
      }
    } else {
      HalfAPoint(i, j);
      var p, q := At(i, 200.0 * (i + 1.0), true), At(j, 200.0 * (i + 1.0), false);
      assert Percent(p) > Percent(q);
    }
  }

  /** So with fractional indexes the percentage can fall though the phase index rises. */
  lemma FractionalPhasesCanFallBack(p: Progress, q: Progress)
    requires p.status == q.status == Running && p.phase.total == q.phase.total == 10.0
    requires p.phase.index == 1.0 && p.work == Some(Work("finding", Num(5.0), Num(5.0)))
    requires q.phase.index == 1.5 && q.work == None
    ensures p.phase.index < q.phase.index && Percent(p) == 20 && Percent(q) == 15
  {
    assert WorkFraction(p) == 1.0 && Position(p) == 2.0 && Position(q) == 1.5;
    assert 2.0 / 10.0 * 100.0 == 20.0 && 1.5 / 10.0 * 100.0 == 15.0;
  }
}
