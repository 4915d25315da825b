/**
 * The Sync All run protocol (useSyncAll.js): start, recover, receive and dismiss over one active
 * run id, with replies arriving in any order.
 *
 * `rendered` is the progress of the last committed render: the `start` callback in use closes
 * over it, while `progress` is where the queued state updates have already led.
 */
module SyncRun {
  import opened Options
  import opened Text
  import opened SyncProgress

  datatype Stored = Stored(runId: string, username: string)

  datatype State = State(
    progress: Option<Progress>,
    rendered: Option<Progress>,
    active: string,               // activeRunIdRef, '' for none
    recovering: Option<string>,   // the run whose recovery request is outstanding
    posts: set<string>,           // runs whose POST is outstanding
    stored: Option<Stored>)       // sessionStorage

  datatype PostReply = PostDone(result: string, notices: seq<string>) | PostFailed(error: string)

  datatype RunReply = RunGone | RunUnusable | RunFound(progress: Update)

  datatype Event =
    | Start(canRun: bool, runId: string, username: string, blocked: bool)
    | StartReplies(runId: string, reply: PostReply)
    | Recover(canRun: bool, username: string)
    | RecoverReplies(answer: RunReply)
    | Receive(update: Update)
    | Dismiss
    | PermissionLost
    | Render

  function Local(runId: string, sequence: real, status: string, phaseId: string, phaseIndex: real,
                 counters: map<string, string>, notices: seq<string>,
                 result: Field<string>, error: Field<string>, startedAt: real, updatedAt: real): Update {
    Update(Num(SCHEMA_VERSION), runId, Num(sequence), status,
           PhaseObject(phaseId, Num(phaseIndex), Num(|PHASES| as real)),
           "", Missing, Missing, Missing, Missing,
           Given(None), Given(None), counters, List(notices), NoList,
           Some(startedAt), Some(updatedAt), result, error, "")
  }

  function Beginning(runId: string, counters: map<string, string>, now: real): Update {
    Local(runId, 0.0, "running", PHASES[0], 0.0, counters, [], Absent, Absent, now, now)
  }

  /** The record a run begins with; local records are already in normal form. */
  function Fresh(lower: string -> string, u: Update, now: real): Option<Progress> {
    Some(Normalize(lower, u, None, now))
  }

  function Ending(runId: string, previous: Option<Progress>, reply: PostReply, now: real): Update {
    var sequence := (if previous.Some? then previous.value.sequence else 0.0) + 1.0;
    var startedAt := if previous.Some? then previous.value.startedAt else now;
    match reply
    case PostDone(result, notices) =>
      Local(runId, sequence, "complete", PHASES[|PHASES| - 1], |PHASES| as real, map[], notices,
            Given(result), Absent, startedAt, now)
    case PostFailed(error) =>
      Local(runId, sequence, "failed", PHASES[0], 0.0, map[], [], Absent, Given(error), startedAt, now)
  }

  predicate MayStart(s: State, canRun: bool) {
    canRun && (s.active == "" || Terminal(s.rendered))
  }

  function Next(lower: string -> string, s: State, e: Event, now: real): State {
    match e
    case Start(canRun, runId, username, blocked) =>
      if !MayStart(s, canRun) then s
      else
        var begun := s.(active := runId, stored := Some(Stored(Trim(runId), Trim(username))),
                        progress := Fresh(lower, Beginning(runId, map[], now), now));
        if blocked then
          begun.(stored := None,
                 progress := Fresh(lower, Local(runId, 1.0, "failed", PHASES[0], 0.0, map[], [], Absent,
                                                Given("SYNC_SCOPE_BLOCKED"), now, now), now))
        else
          begun.(posts := s.posts + {runId},
                 progress := Merge(lower, begun.progress,
                                   Local(runId, 1.0, "running", PHASES[1], 1.0,
                                         map[], [], Absent, Absent, now, now), now))
    case StartReplies(runId, reply) =>
      var settled := s.(posts := s.posts - {runId});
      if s.active != runId then settled
      else settled.(progress := Merge(lower, s.progress, Ending(runId, s.progress, reply, now), now))
    case Recover(canRun, username) =>
      if !canRun || s.recovering.Some? || s.stored.None? || s.stored.value.runId == "" then s
      else if s.stored.value.username != "" && s.stored.value.username != username then s.(stored := None)
      else
        var runId := s.stored.value.runId;
        s.(recovering := Some(runId), active := runId,
           progress := if s.progress.Some? && s.progress.value.runId == runId then s.progress
                       else Fresh(lower, Beginning(runId, map["recovering" := "true"], now), now))
    case RecoverReplies(reply) =>
      if s.recovering.None? then s
      else
        var runId := s.recovering.value;
        var settled := s.(recovering := None);
        match reply {
          case RunUnusable => settled
          case RunGone =>
            if s.active != runId then settled
            else settled.(active := "", stored := None,
                          progress := if s.progress.Some? && s.progress.value.runId == runId then None else s.progress)
          case RunFound(update) =>
            if update.runId != runId || s.active != runId then settled
            else settled.(progress := Merge(lower, s.progress, update, now))
        }
    case Receive(update) =>
      if s.active == "" || (update.runId != "" && update.runId != s.active) then s
      else s.(progress := Merge(lower, s.progress, update, now))
    case Dismiss => s.(active := "", stored := None, progress := None)
    case PermissionLost => s.(active := "", progress := None)
    case Render => s.(rendered := s.progress)
  }

  /** Run ids come from `crypto.randomUUID`: never empty, never padded. */
  predicate Enabled(s: State, e: Event) {
    match e
    case Start(_, runId, _, _) => runId != "" && Trimmed(runId)
    case StartReplies(runId, _) => runId in s.posts
    case RecoverReplies(_) => s.recovering.Some?
    case _ => true
  }

  predicate Initial(s: State) {
    && s.progress == None && s.rendered == None && s.active == "" && s.recovering == None && s.posts == {}
    && (s.stored.Some? ==> Trimmed(s.stored.value.runId))
  }

  predicate Inv(s: State) {
    && Trimmed(s.active)
    && (s.stored.Some? ==> Trimmed(s.stored.value.runId))
    && (s.recovering.Some? ==> s.recovering.value != "") && "" !in s.posts
    && (s.active != "" ==> s.progress.Some? && s.progress.value.runId == s.active)
  }

  type Timed = (Event, real)

  function After(lower: string -> string, start: State, es: seq<Timed>): State {
    if es == [] then start
    else
      var last := es[|es| - 1];
      Next(lower, After(lower, start, es[..|es| - 1]), last.0, last.1)
  }

  predicate IsRun(lower: string -> string, start: State, es: seq<Timed>) {
    es == [] ||
    (IsRun(lower, start, es[..|es| - 1]) &&
     Enabled(After(lower, start, es[..|es| - 1]), es[|es| - 1].0))
  }

  /** A message tagged with the known run, or untagged, leaves the record with that run. */
  lemma MergeKeepsRun(lower: string -> string, p: Progress, u: Update, now: real)
    requires p.runId != "" && Trimmed(p.runId) && (u.runId == "" || u.runId == p.runId)
    ensures Merge(lower, Some(p), u, now).Some? && Merge(lower, Some(p), u, now).value.runId == p.runId
  {
    TrimTrims(p.runId);
  }

  lemma FreshBelongs(lower: string -> string, u: Update, now: real)
    requires u.runId != "" && Trimmed(u.runId)
    ensures Fresh(lower, u, now).value.runId == u.runId
  {
    TrimTrims(u.runId);
  }

  lemma StartKeepsInvariant(lower: string -> string, s: State, e: Event, now: real)
    requires Inv(s) && e.Start? && Enabled(s, e)
    ensures Inv(Next(lower, s, e, now))
  {
    hide Normalize, Merge;
    TrimTrims(e.runId);
    FreshBelongs(lower, Beginning(e.runId, map[], now), now);
    FreshBelongs(lower, Local(e.runId, 1.0, "failed", PHASES[0], 0.0, map[], [], Absent,
                              Given("SYNC_SCOPE_BLOCKED"), now, now), now);
    MergeKeepsRun(lower, Fresh(lower, Beginning(e.runId, map[], now), now).value,
                  Local(e.runId, 1.0, "running", PHASES[1], 1.0, map[], [], Absent, Absent, now, now), now);
  }

  lemma StepKeepsInvariant(lower: string -> string, s: State, e: Event, now: real)
    requires Inv(s) && Enabled(s, e)
    ensures Inv(Next(lower, s, e, now))
  {
    hide Normalize, Merge;
    match e
    case Start(_, _, _, _) => StartKeepsInvariant(lower, s, e, now);
    case StartReplies(runId, reply) =>
      if s.active == runId && s.active != "" {
        MergeKeepsRun(lower, s.progress.value, Ending(runId, s.progress, reply, now), now);
      }
    case Recover(_, _) =>
      if s.stored.Some? && s.stored.value.runId != "" {
        FreshBelongs(lower, Beginning(s.stored.value.runId, map["recovering" := "true"], now), now);
      }
    case RecoverReplies(answer) =>
      if answer.RunFound? && s.recovering == Some(s.active) && answer.progress.runId == s.active {
        MergeKeepsRun(lower, s.progress.value, answer.progress, now);
      }
    case Receive(update) =>
      if s.active != "" && (update.runId == "" || update.runId == s.active) {
        MergeKeepsRun(lower, s.progress.value, update, now);
      }
    case _ =>
  }

  /** In every run: while a run is active, the progress held is that run's. */
  lemma {:induction false} ActiveRunOwnsProgress(lower: string -> string, start: State, es: seq<Timed>)
    requires Initial(start) && IsRun(lower, start, es)
    ensures Inv(After(lower, start, es))
  {
    if es != [] {
      var before := es[..|es| - 1];
      ActiveRunOwnsProgress(lower, start, before);
      StepKeepsInvariant(lower, After(lower, start, before), es[|es| - 1].0, es[|es| - 1].1);
    }
  }

  /** What an event or reply says it is about. */
  function Subject(s: State, e: Event): string {
    match e
    case Receive(update) => update.runId
    case StartReplies(runId, _) => runId
    case RecoverReplies(_) => s.recovering.GetOr("")
    case _ => ""
  }

  /** A stream message tagged with another run, or the late reply of another run's request. */
  predicate IsForeign(s: State, e: Event) {
    (e.Receive? || e.StartReplies?) && Subject(s, e) != "" && Subject(s, e) != s.active
  }

  /** Two states that differ in the requests still outstanding at most. */
  predicate SameButPosts(s: State, t: State) { t == s.(posts := t.posts) }

  lemma StepIgnoresPosts(lower: string -> string, s: State, t: State, e: Event, now: real)
    requires SameButPosts(s, t)
    ensures SameButPosts(Next(lower, s, e, now), Next(lower, t, e, now))
  {
    hide Normalize, Merge, Ending, Beginning;
  }

  /** Messages and replies of other runs leave no trace: with such a step taken out, everything that
      happens later comes to the same progress, active run, stored run and recovery. */
  lemma {:induction false} ForeignEventsLeaveNoTrace(lower: string -> string, start: State, a: seq<Timed>, e: Timed,
      b: seq<Timed>)
    requires IsForeign(After(lower, start, a), e.0)
    ensures SameButPosts(After(lower, start, a + b), After(lower, start, a + [e] + b))
  {
    hide Next, SameButPosts;
    if b == [] {
      assert a + b == a && a + [e] + b == a + [e] && (a + [e])[..|a|] == a;
      ForeignStep(lower, After(lower, start, a), e.0, e.1);
    } else {
      var init, last := b[..|b| - 1], b[|b| - 1];
      ForeignEventsLeaveNoTrace(lower, start, a, e, init);
      assert (a + b)[..|a + b| - 1] == a + init && (a + [e] + b)[..|a + [e] + b| - 1] == a + [e] + init;
      StepIgnoresPosts(lower, After(lower, start, a + init), After(lower, start, a + [e] + init), last.0, last.1);
    }
  }

  lemma ForeignStep(lower: string -> string, s: State, e: Event, now: real)
    requires IsForeign(s, e)
    ensures SameButPosts(s, Next(lower, s, e, now))
  {
    hide Merge, Ending;
  }

  /** The late recovery reply of a run that is no longer active. */
  predicate IsForeignRecovery(s: State, e: Event) {
    e.RecoverReplies? && Subject(s, e) != "" && Subject(s, e) != s.active
  }

  predicate IsRecovery(e: Event) { e.Recover? || e.RecoverReplies? }

  /** Two states that differ in the recovery still outstanding at most. */
  predicate SameButRecovery(s: State, t: State) { t == s.(recovering := t.recovering) }

  lemma StepIgnoresRecovery(lower: string -> string, s: State, t: State, e: Event, now: real)
    requires SameButRecovery(s, t) && !IsRecovery(e)
    ensures SameButRecovery(Next(lower, s, e, now), Next(lower, t, e, now))
  {
    hide Normalize, Merge, Ending, Beginning;
  }

  /** Nor does such a recovery reply, whatever it says: it only ends the recovery, and until another recovery
      is tried everything comes to the same. */
  lemma {:induction false} ForeignRecoveryLeavesNoTrace(lower: string -> string, start: State,
                                                        a: seq<Timed>, e: Timed, b: seq<Timed>)
    requires IsForeignRecovery(After(lower, start, a), e.0) && forall x <- b :: !IsRecovery(x.0)
    ensures SameButRecovery(After(lower, start, a + b), After(lower, start, a + [e] + b))
  {
    hide Next, SameButRecovery;
    if b == [] {
      assert a + b == a && a + [e] + b == a + [e] && (a + [e])[..|a|] == a;
      ForeignRecoveryStep(lower, After(lower, start, a), e.0, e.1);
    } else {
      var init, last := b[..|b| - 1], b[|b| - 1];
      assert last in b && forall x <- init :: x in b;
      ForeignRecoveryLeavesNoTrace(lower, start, a, e, init);
      assert (a + b)[..|a + b| - 1] == a + init && (a + [e] + b)[..|a + [e] + b| - 1] == a + [e] + init;
      StepIgnoresRecovery(lower, After(lower, start, a + init), After(lower, start, a + [e] + init), last.0, last.1);
    }
  }

  lemma ForeignRecoveryStep(lower: string -> string, s: State, e: Event, now: real)
    requires IsForeignRecovery(s, e)
    ensures SameButRecovery(s, Next(lower, s, e, now))
  {
    hide Merge;
  }

  /** Messages of the v3 contract, and starts under a fresh id. */
  predicate IsRegular(s: State, e: Event) {
    match e
    case Start(_, runId, _, _) => runId != s.active
    case Receive(update) => IsServerMessage(update)
    case RecoverReplies(RunFound(update)) => IsServerMessage(update)
    case _ => true
  }

  /** A server message of the active run does not turn its sequence back. */
  lemma OwnMessageAdvances(lower: string -> string, s: State, u: Update, now: real)
    requires Inv(s) && s.active != "" && IsServerMessage(u) && (u.runId == "" || u.runId == s.active)
    ensures s.progress.Some? && Merge(lower, s.progress, u, now).Some?
    ensures Merge(lower, s.progress, u, now).value.sequence >= s.progress.value.sequence
  {
    hide Merge, Normalize, Trim;
    TrimTrims(s.active);
    ServerMessagesAdvance(lower, s.progress.value, u, now);
  }

  lemma EndingIsServerMessage(runId: string, previous: Option<Progress>, reply: PostReply, now: real)
    ensures IsServerMessage(Ending(runId, previous, reply, now)) && Ending(runId, previous, reply, now).runId == runId
  {
  }

  lemma ActiveSequenceStep(lower: string -> string, s: State, e: Event, now: real)
    requires Inv(s) && Enabled(s, e) && s.active != "" && IsRegular(s, e)
    requires Next(lower, s, e, now).active == s.active
    ensures var t := Next(lower, s, e, now);
      s.progress.Some? && t.progress.Some? && t.progress.value.sequence >= s.progress.value.sequence
  {
    hide Normalize, Merge, Ending, Beginning, IsServerMessage, Trim;
    match e
    case Start(_, _, _, _) => StartGuard(lower, s, e, now);
    case Receive(update) =>
      if update.runId == "" || update.runId == s.active {
        OwnMessageAdvances(lower, s, update, now);
      }
    case StartReplies(runId, reply) =>
      EndingIsServerMessage(runId, s.progress, reply, now);
      if runId == s.active {
        OwnMessageAdvances(lower, s, Ending(runId, s.progress, reply, now), now);
      }
    case RecoverReplies(RunFound(update)) =>
      if update.runId == s.active {
        OwnMessageAdvances(lower, s, update, now);
      }
    case _ =>
  }

  /** The step at `k` is regular and leaves `active` the active run. */
  predicate StaysActive(lower: string -> string, start: State, es: seq<Timed>, k: nat, active: string)
    requires k < |es|
  {
    After(lower, start, es[..k + 1]).active == active && IsRegular(After(lower, start, es[..k]), es[k].0)
  }

  /** As long as a run stays active, its sequence never falls: over any stretch of any run whose messages
      keep to the v3 contract and whose starts take fresh ids. */
  lemma {:induction false} ActiveSequenceNeverFalls(lower: string -> string, start: State, es: seq<Timed>, i: nat)
    requires Initial(start) && IsRun(lower, start, es) && i <= |es| && After(lower, start, es[..i]).active != ""
    requires forall k :: i <= k < |es| ==> StaysActive(lower, start, es, k, After(lower, start, es[..i]).active)
    ensures var (s, t) := (After(lower, start, es[..i]), After(lower, start, es));
      t.active == s.active && s.progress.Some? && t.progress.Some?
      && t.progress.value.sequence >= s.progress.value.sequence
  {
    hide Next, Inv, IsRegular, Enabled;
    if i == |es| {
      assert es[..i] == es;
      ActiveRunOwnsProgress(lower, start, es);
      ActiveHasProgress(After(lower, start, es));
    } else {
      var before, last := es[..|es| - 1], es[|es| - 1];
      assert before[..i] == es[..i];
      forall k | i <= k < |before|
        ensures StaysActive(lower, start, before, k, After(lower, start, es[..i]).active)
      {
        assert StaysActive(lower, start, es, k, After(lower, start, es[..i]).active);
        assert before[..k] == es[..k] && before[..k + 1] == es[..k + 1];
      }
      ActiveSequenceNeverFalls(lower, start, before, i);
      ActiveRunOwnsProgress(lower, start, before);
      assert StaysActive(lower, start, es, |es| - 1, After(lower, start, es[..i]).active);
      assert es[..|es| - 1 + 1] == es;
      ActiveSequenceStep(lower, After(lower, start, before), last.0, last.1);
    }
  }

  lemma ActiveHasProgress(s: State)
    requires Inv(s) && s.active != ""
    ensures s.progress.Some?
  {
  }

  /** `start` replaces the active run exactly if nothing is active or the screen shows an ended run. */
  lemma StartGuard(lower: string -> string, s: State, e: Event, now: real)
    requires Inv(s) && e.Start? && Enabled(s, e) && e.runId != s.active
    ensures Next(lower, s, e, now).active == e.runId <==>
      e.canRun && (s.active == "" || (s.rendered.Some? && s.rendered.value.status in [Complete, Failed]))
    ensures Next(lower, s, e, now).active != e.runId ==> Next(lower, s, e, now) == s
  {
  }

  lemma StartBegins(lower: string -> string, s: State, runId: string, now: real)
    requires Inv(s) && MayStart(s, true) && runId != "" && Trimmed(runId) && lower("running") == "running"
    ensures var t := Next(lower, s, Start(true, runId, "", false), now);
      && t.active == runId && runId in t.posts && t.rendered == s.rendered
      && t.progress.Some? && t.progress.value.sequence == 1.0 && !Terminal(t.progress)
  {
    hide Trim;
    TrimTrims(runId);
    assert Trimmed("running");
    TrimTrims("running");
  }

  /** But two starts within one render of a finished run both go through, always: the second takes
      over from a run that has only just begun. */
  lemma SecondStartInOneRender(lower: string -> string, s: State, b: string, c: string, now: real)
    requires Inv(s) && s.rendered == s.progress && Terminal(s.progress) && lower("running") == "running"
    requires b != "" && Trimmed(b) && c != "" && Trimmed(c)
    ensures var t := Next(lower, s, Start(true, b, "", false), now);
      && t.active == b && !Terminal(t.progress)
      && Next(lower, t, Start(true, c, "", false), now).active == c
  {
    hide Next, Normalize, Merge;
    StartBegins(lower, s, b, now);
    StepKeepsInvariant(lower, s, Start(true, b, "", false), now);
    StartBegins(lower, Next(lower, s, Start(true, b, "", false), now), c, now);
  }

  // ----- what each event shows -----

  /** The contract's status names are in lower case. */
  predicate LowersNames(lower: string -> string) {
    lower("running") == "running" && lower("complete") == "complete" && lower("failed") == "failed" && lower("") == ""
  }

  /** A record made here is in normal form: it shows the run, the status and the phase it was made with. */
  lemma LocalShows(lower: string -> string, u: Update, previous: Option<Progress>, now: real)
    requires LowersNames(lower) && u.status in ["running", "complete", "failed"]
    requires Trimmed(u.runId) && u.runId != "" && u.phase.PhaseObject? && u.phase.id in PHASES
    requires u.phase.index.Num? && u.phase.index.value >= 0.0 && u.phase.total.Num? && u.phase.total.value >= 0.0
    ensures var p := Normalize(lower, u, previous, now);
      && NameOf(p.status) == u.status && p.runId == u.runId
      && p.phase == Phase(u.phase.id, u.phase.index.value, u.phase.total.value)
  {
    hide Normalize, StatusFits, PhaseFits, PhaseOf, LowersNames, Trim;
    StatusFitsNormalized(lower, u, previous, now) by { LowersNothing(lower); }
    PhaseFitsNormalized(u);
    NormalizedRunAndPhase(lower, u, previous, now);
    NameFits(lower, Normalize(lower, u, previous, now).status, u);
    PhasesAreTrimmed(u.phase.id);
    TrimTrims(u.phase.id);
    PhaseIdFits(PhaseOf(u), u);
  }

  lemma LowersNothing(lower: string -> string)
    requires LowersNames(lower)
    ensures lower("") == ""
  {
  }

  lemma NormalizedRunAndPhase(lower: string -> string, u: Update, previous: Option<Progress>, now: real)
    requires Trimmed(u.runId) && u.runId != ""
    ensures var p := Normalize(lower, u, previous, now); p.runId == u.runId && p.phase == PhaseOf(u)
  {
    hide StatusOf, PhaseOf, Trim;
    TrimTrims(u.runId);
  }

  lemma NameFits(lower: string -> string, status: Status, u: Update)
    requires LowersNames(lower) && u.status in ["running", "complete", "failed"] && StatusFits(lower, status, u)
    ensures NameOf(status) == u.status
  {
    hide Trim;
    TrimTrims(u.status);
  }

  lemma PhaseIdFits(phase: Phase, u: Update)
    requires PhaseFits(phase, u) && u.phase.PhaseObject? && u.phase.id != ""
    requires u.phase.index.Num? && u.phase.index.value >= 0.0 && u.phase.total.Num? && u.phase.total.value >= 0.0
    ensures phase == Phase(Trim(u.phase.id), u.phase.index.value, u.phase.total.value)
  {
    hide Trim, PlaceOf;
  }

  lemma PhasesAreTrimmed(id: string)
    requires id in PHASES
    ensures id != "" && Trimmed(id)
  {
  }

  /** When the request of the active run is answered, the run ends on the screen: complete at 100 percent with
      its result and notices, or failed with its error. */
  lemma AnswerEndsTheRun(lower: string -> string, start: State, es: seq<Timed>, reply: PostReply, now: real)
    requires Initial(start) && IsRun(lower, start, es) && After(lower, start, es).active != "" && LowersNames(lower)
    ensures var s := After(lower, start, es);
      var t := Next(lower, s, StartReplies(s.active, reply), now);
      && t.active == s.active && s.progress.Some? && t.progress.Some? && Ends(s.progress.value, t.progress.value, reply)
  {
    hide Normalize, Inv;
    ActiveRunOwnsProgress(lower, start, es);
    var s := After(lower, start, es);
    ActiveHasProgress(s);
    ActiveIsTrimmed(s);
    EndingMerges(lower, s.progress.value, reply, now);
  }

  lemma ActiveIsTrimmed(s: State)
    requires Inv(s) && s.active != ""
    ensures s.progress.Some? && s.progress.value.runId == s.active && Trimmed(s.active)
  {
  }

  /** `q` is the record `p` with the end of the run put in. */
  predicate Ends(p: Progress, q: Progress, reply: PostReply) {
    && q.runId == p.runId && (p.sequence >= 0.0 ==> q.sequence == p.sequence + 1.0)
    && q.counters == p.counters && q.startedAt == p.startedAt
    && match reply {
         case PostDone(result, notices) =>
           && q.status == Complete && Percent(q) == 100 && q.result == Given(result) && q.error == p.error
           && q.notices == notices && q.phase == Phase(PHASES[|PHASES| - 1], |PHASES| as real, |PHASES| as real)
         case PostFailed(error) =>
           && q.status == Failed && Percent(q) < 100 && q.error == Given(error) && q.result == p.result
           && q.notices == [] && q.phase == Phase(PHASES[0], 0.0, |PHASES| as real)
       }
  }

  lemma EndingMerges(lower: string -> string, p: Progress, reply: PostReply, now: real)
    requires p.runId != "" && Trimmed(p.runId) && LowersNames(lower)
    ensures var m := Merge(lower, Some(p), Ending(p.runId, Some(p), reply, now), now);
      m.Some? && Ends(p, m.value, reply)
  {
    hide Normalize, Merge, Ends, Trim, Percent;
    var u := Ending(p.runId, Some(p), reply, now);
    PhaseNamesAreListed();
    LocalShows(lower, u, Some(p), now);
    EndingIsNews(lower, p, reply, now);
    EndingFields(lower, p, reply, now);
    HundredMeansComplete(Normalize(lower, u, Some(p), now));
    EndsWhen(p, Normalize(lower, u, Some(p), now), reply);
  }

  lemma EndsWhen(p: Progress, q: Progress, reply: PostReply)
    requires q.runId == p.runId && (p.sequence >= 0.0 ==> q.sequence == p.sequence + 1.0) && q.startedAt == p.startedAt
    requires q.counters == p.counters && NameOf(q.status) == (if reply.PostDone? then "complete" else "failed")
    requires q.notices == (if reply.PostDone? then reply.notices else [])
    requires q.result == (if reply.PostDone? then Given(reply.result) else p.result)
    requires q.error == (if reply.PostDone? then p.error else Given(reply.error))
    requires q.phase ==
      if reply.PostDone? then Phase(PHASES[|PHASES| - 1], |PHASES| as real, |PHASES| as real)
      else Phase(PHASES[0], 0.0, |PHASES| as real)
    requires 0 <= Percent(q) <= 100 && (Percent(q) == 100 <==> q.status == Complete)
    ensures Ends(p, q, reply)
  {
    hide Percent;
  }

  lemma EndingIsNews(lower: string -> string, p: Progress, reply: PostReply, now: real)
    requires p.runId != "" && Trimmed(p.runId)
    ensures var u := Ending(p.runId, Some(p), reply, now);
      Merge(lower, Some(p), u, now) == Some(Normalize(lower, u, Some(p), now))
  {
    hide Normalize;
    TrimTrims(p.runId);
  }

  lemma EndingFields(lower: string -> string, p: Progress, reply: PostReply, now: real)
    ensures var q := Normalize(lower, Ending(p.runId, Some(p), reply, now), Some(p), now);
      && (p.sequence >= 0.0 ==> q.sequence == p.sequence + 1.0) && q.startedAt == p.startedAt
      && q.counters == p.counters && q.notices == (if reply.PostDone? then reply.notices else [])
      && q.result == (if reply.PostDone? then Given(reply.result) else p.result)
      && q.error == (if reply.PostDone? then p.error else Given(reply.error))
  {
    hide StatusOf, PhaseOf;
    assert p.counters + map[] == p.counters;
  }

  lemma PhaseNamesAreListed()
    ensures PHASES[0] in PHASES && PHASES[1] in PHASES && PHASES[|PHASES| - 1] in PHASES
  {
  }

  /** A `start` that takes over shows its own run: failed at once if an engagement is blocked, and then not
      stored for recovery; else running in the first phase of work, stored, with its request under way. */
  lemma StartShows(lower: string -> string, s: State, e: Event, now: real)
    requires Inv(s) && e.Start? && Enabled(s, e) && MayStart(s, e.canRun) && LowersNames(lower)
    ensures var t := Next(lower, s, e, now);
      && t.active == e.runId && t.progress.Some? && t.rendered == s.rendered && t.recovering == s.recovering
      && t.progress.value.runId == e.runId && t.progress.value.sequence == 1.0
      && t.progress.value.startedAt == t.progress.value.updatedAt == now
      && if e.blocked then
           && t.progress.value.status == Failed && t.stored == None && t.posts == s.posts
           && t.progress.value.phase == Phase(PHASES[0], 0.0, |PHASES| as real)
           && t.progress.value.error == Given("SYNC_SCOPE_BLOCKED")
         else
           && t.progress.value.status == Running && t.progress.value.error == Absent
           && t.progress.value.phase == Phase(PHASES[1], 1.0, |PHASES| as real)
           && t.stored == Some(Stored(e.runId, Trim(e.username))) && t.posts == s.posts + {e.runId}
  {
    hide Normalize, Trim, Merge, LowersNames;
    TrimTrims(e.runId);
    var blocked := Local(e.runId, 1.0, "failed", PHASES[0], 0.0, map[], [], Absent, Given("SYNC_SCOPE_BLOCKED"),
                         now, now);
    var begun := Local(e.runId, 1.0, "running", PHASES[1], 1.0, map[], [], Absent, Absent, now, now);
    var first := Normalize(lower, Beginning(e.runId, map[], now), None, now);
    PhaseNamesAreListed();
    LocalShows(lower, Beginning(e.runId, map[], now), None, now);
    LocalShows(lower, blocked, None, now);
    LocalShows(lower, begun, Some(first), now);
    LocalTimes(lower, blocked, None, now);
    LocalTimes(lower, Beginning(e.runId, map[], now), None, now);
    LocalTimes(lower, begun, Some(first), now);
    FirstWorkIsNews(lower, first, begun, now);
  }

  lemma FirstWorkIsNews(lower: string -> string, p: Progress, u: Update, now: real)
    requires p.runId == u.runId != "" && Trimmed(u.runId) && p.sequence == 0.0 && u.sequence == Num(1.0)
    ensures Merge(lower, Some(p), u, now) == Some(Normalize(lower, u, Some(p), now))
  {
    hide Normalize, Trim;
    TrimTrims(u.runId);
  }

  lemma LocalTimes(lower: string -> string, u: Update, previous: Option<Progress>, now: real)
    requires u.sequence.Num? && u.sequence.value >= 0.0 && u.startedAt == Some(now) && u.updatedAt == Some(now)
    ensures var p := Normalize(lower, u, previous, now);
      && p.sequence == u.sequence.value && p.startedAt == p.updatedAt == now
      && (u.error.Given? || previous.None? ==> p.error == u.error)
      && (u.error == Absent && previous.Some? ==> p.error == previous.value.error)
  {
  }

  /** `recover` takes a run up exactly if one is stored, for this user or nobody, with permission and no other
      recovery under way: it is then active, and shown as it was or as just starting. */
  lemma RecoverTakesUpExactly(lower: string -> string, s: State, e: Event, now: real)
    requires Inv(s) && e.Recover? && LowersNames(lower)
    ensures var t := Next(lower, s, e, now);
      var mine := s.stored.Some? && s.stored.value.username in ["", e.username];
      var takes := e.canRun && s.recovering.None? && mine && s.stored.value.runId != "";
      && (t.recovering != s.recovering <==> takes)
      && (takes ==>
            && t.active == s.stored.value.runId && t.recovering == Some(t.active) && t.stored == s.stored
            && t.progress.Some? && t.progress.value.runId == t.active
            && (s.progress.Some? && s.progress.value.runId == t.active ==> t.progress == s.progress)
            && (s.progress.None? || s.progress.value.runId != t.active ==>
                  t.progress.value.status == Running
                  && t.progress.value.phase == Phase(PHASES[0], 0.0, |PHASES| as real)))
      && (!takes ==> t == s || (t == s.(stored := None) && s.stored.Some? && !mine))
  {
    hide Normalize, Trim;
    if s.stored.Some? && s.stored.value.runId != "" {
      PhaseNamesAreListed();
      LocalShows(lower, Beginning(s.stored.value.runId, map["recovering" := "true"], now), None, now);
    }
  }

  /** What a recovery's answer does while its run is still active: a run that is gone is forgotten, one that is
      found is merged if it is the one asked for, and anything else changes nothing. */
  lemma RecoveryAnswers(lower: string -> string, start: State, es: seq<Timed>, answer: RunReply, now: real)
    requires Initial(start) && IsRun(lower, start, es)
    requires var s := After(lower, start, es); s.active != "" && s.recovering == Some(s.active)
    ensures var s := After(lower, start, es);
      var t := Next(lower, s, RecoverReplies(answer), now);
      && t.recovering == None
      && match answer {
           case RunGone => t.active == "" && t.stored == None && t.progress == None
           case RunUnusable => t == s.(recovering := None)
           case RunFound(u) =>
             t.active == s.active && t.stored == s.stored
             && t.progress == if u.runId == s.active then Merge(lower, s.progress, u, now) else s.progress
         }
  {
    hide Merge, Normalize;
    ActiveRunOwnsProgress(lower, start, es);
  }

  /** A stream message is merged exactly if a run is active and the message is tagged with it or untagged. */
  lemma ReceivesExactly(lower: string -> string, s: State, u: Update, now: real)
    ensures var t := Next(lower, s, Receive(u), now);
      t == s.(progress := if s.active != "" && u.runId in ["", s.active] then Merge(lower, s.progress, u, now)
                          else s.progress)
  {
    hide Merge;
  }

  /** A dismissed run is gone for good: until another is started nothing is active, shown or stored. */
  lemma {:induction false} DismissedStaysGone(lower: string -> string, start: State, es: seq<Timed>, i: nat)
    requires Initial(start) && IsRun(lower, start, es) && i < |es| && es[i].0 == Dismiss
    requires forall k :: i < k < |es| ==> !es[k].0.Start?
    ensures var s := After(lower, start, es); s.active == "" && s.progress == None && s.stored == None
  {
    var before, last := es[..|es| - 1], es[|es| - 1];
    if i < |es| - 1 {
      assert before[i] == es[i];
      DismissedStaysGone(lower, start, before, i);
      ActiveRunOwnsProgress(lower, start, before);
      GoneStaysGone(lower, After(lower, start, before), last.0, last.1);
    }
  }

  lemma GoneStaysGone(lower: string -> string, s: State, e: Event, now: real)
    requires Inv(s) && Enabled(s, e) && !e.Start? && s.active == "" && s.progress == None && s.stored == None
    ensures var t := Next(lower, s, e, now); t.active == "" && t.progress == None && t.stored == None
  {
    hide Merge;
  }

  /** Losing the permission hides the run, but keeps it stored: with the permission back it can be taken up. */
  lemma LostPermissionIsNoDismissal(lower: string -> string, s: State, now: real)
    ensures var t := Next(lower, s, PermissionLost, now);
      t.active == "" && t.progress == None && t == s.(active := "", progress := None)
  {
  }

  /** What is on the screen follows with the next render. */
  lemma RenderShowsProgress(lower: string -> string, s: State, now: real)
    ensures Next(lower, s, Render, now) == s.(rendered := s.progress)
  {
  }

  class Runner {
    const lower: string -> string
    var progress: Option<Progress>
    var rendered: Option<Progress>
    var activeRunId: string
    var recovering: Option<string>
    var posts: set<string>
    var stored: Option<Stored>

    ghost function View(): State
      reads this
    {
      State(progress, rendered, activeRunId, recovering, posts, stored)
    }

    constructor (lower: string -> string, stored: Option<Stored>)
      ensures View() == State(None, None, "", None, {}, stored) && this.lower == lower
    {
      this.lower := lower;
      progress, rendered, activeRunId, recovering, posts := None, None, "", None, {};
      this.stored := stored;
    }

    method ApplyProgress(update: Update, now: real)
      modifies this`progress
      ensures progress == Merge(lower, old(progress), update, now)
    {
      progress := Merge(lower, progress, update, now);
    }

    method Start(canRun: bool, runId: string, username: string, blocked: bool, now: real) returns (posted: bool)
      modifies this
      ensures View() == Next(lower, old(View()), Event.Start(canRun, runId, username, blocked), now)
      ensures posted <==> MayStart(old(View()), canRun) && !blocked
    {
      hide Normalize, Merge, Local, Beginning;
      if !canRun || (activeRunId != "" && !Terminal(rendered)) { return false; }
      activeRunId := runId;
      stored := Some(Stored(Trim(runId), Trim(username)));
      progress := Fresh(lower, Beginning(runId, map[], now), now);
      if blocked {
        stored := None;
        progress := Fresh(lower, Local(runId, 1.0, "failed", PHASES[0], 0.0, map[], [], Absent,
                                       Given("SYNC_SCOPE_BLOCKED"), now, now), now);
        return false;
      }
      ApplyProgress(Local(runId, 1.0, "running", PHASES[1], 1.0, map[], [], Absent, Absent, now, now), now);
      posts := posts + {runId};
      return true;
    }

    method StartReplies(runId: string, reply: PostReply, now: real)
      modifies this
      ensures View() == Next(lower, old(View()), Event.StartReplies(runId, reply), now)
    {
      posts := posts - {runId};
      if activeRunId != runId { return; }
      ApplyProgress(Ending(runId, progress, reply, now), now);
    }

    method Recover(canRun: bool, username: string, now: real) returns (asked: bool)
      modifies this
      ensures View() == Next(lower, old(View()), Event.Recover(canRun, username), now)
      ensures asked ==> recovering == Some(activeRunId)
    {
      hide Normalize, Beginning;
      if !canRun || recovering.Some? { return false; }
      if stored.None? || stored.value.runId == "" { return false; }
      if stored.value.username != "" && stored.value.username != username {
        stored := None;
        return false;
      }
      var runId := stored.value.runId;
      recovering := Some(runId);
      activeRunId := runId;
      if !(progress.Some? && progress.value.runId == runId) {
        progress := Fresh(lower, Beginning(runId, map["recovering" := "true"], now), now);
      }
      return true;
    }

    method RecoverReplies(reply: RunReply, now: real)
      requires recovering.Some?
      modifies this
      ensures View() == Next(lower, old(View()), Event.RecoverReplies(reply), now)
    {
      var runId := recovering.value;
      recovering := None;
      match reply
      case RunUnusable =>
      case RunGone =>
        if activeRunId == runId {
          activeRunId := "";
          stored := None;
          if progress.Some? && progress.value.runId == runId {
            progress := None;
          }
        }
      case RunFound(update) =>
        if update.runId == runId && activeRunId == runId {
          ApplyProgress(update, now);
        }
    }

    method ReceiveProgress(update: Update, now: real) returns (taken: bool)
      modifies this
      ensures View() == Next(lower, old(View()), Receive(update), now)
      ensures taken <==> activeRunId != "" && (update.runId == "" || update.runId == activeRunId)
    {
      if activeRunId == "" || (update.runId != "" && update.runId != activeRunId) { return false; }
      ApplyProgress(update, now);
      return true;
    }

    method Dismiss()
      modifies this
      ensures View() == Next(lower, old(View()), Event.Dismiss, 0.0)
    {
      activeRunId := "";
      stored := None;
      progress := None;
    }

    method PermissionLost()
      modifies this
      ensures View() == Next(lower, old(View()), Event.PermissionLost, 0.0)
    {
      activeRunId := "";
      progress := None;
    }

    method Render()
      modifies this
      ensures View() == Next(lower, old(View()), Event.Render, 0.0)
    {
      rendered := progress;
    }
  }
}
