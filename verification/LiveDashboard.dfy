/**
 * The stream handler, the refresh runner and the dashboard loads together (App.jsx, the effect from
 * line 1243 on, and `refreshLiveData`): an event that asks for a refresh schedules one, and each refresh
 * the runner starts begins a dashboard load.
 *
 * When the user is gone the effect closes its stream and disposes of its runner.
 */
module LiveDashboard {
  import opened Options
  import D = DashboardSession
  import R = LiveRefresh

  datatype State = State(world: D.World, runner: R.State)

  datatype Step =
    | Page(event: D.Event)                                      // by the dashboard itself, or by the stream
    | Poke                                                      // the window is online or visible again
    | TimerFires(id: nat, query: string, hadSnapshot: bool)
    | RunSettles(query: string, hadSnapshot: bool)
    | StreamCloses

  const START := State(D.START, R.INITIAL)

  function RunnerEvent(s: State, step: Step): Option<R.Event> {
    match step
    case Page(event) => if D.Next(s.world.client, event).refresh then Some(R.Schedule) else None
    case Poke => Some(R.Schedule)
    case TimerFires(id, _, _) => Some(R.TimerFires(id))
    case RunSettles(_, _) => Some(R.RunSettles)
    case StreamCloses => Some(R.Dispose)
  }

  /** The step makes the runner start a refresh. */
  predicate Starts(s: State, step: Step) {
    RunnerEvent(s, step).Some? && R.Next(s.runner, RunnerEvent(s, step).value).started
  }

  function WorldEvent(s: State, step: Step): Option<D.Event> {
    match step
    case Page(event) => Some(event)
    case TimerFires(_, query, hadSnapshot) => if Starts(s, step) then Some(D.Begin(query, hadSnapshot)) else None
    case RunSettles(query, hadSnapshot) => if Starts(s, step) then Some(D.Begin(query, hadSnapshot)) else None
    case _ => None
  }

  function Next(s: State, step: Step): State {
    State(
      match WorldEvent(s, step) case Some(event) => D.Move(s.world, event) case None => s.world,
      match RunnerEvent(s, step) case Some(event) => R.Next(s.runner, event).state case None => s.runner)
  }

  /** A closed stream delivers nothing. */
  predicate Enabled(s: State, step: Step) {
    && (WorldEvent(s, step).Some? ==> D.Enabled(s.world, WorldEvent(s, step).value))
    && (RunnerEvent(s, step).Some? ==> R.Enabled(s.runner, RunnerEvent(s, step).value))
    && (step.Page? && step.event.SyncEvent? ==> !s.runner.disposed)
  }

  predicate Honest(s: State, step: Step) { step.Page? ==> D.Honest(s.world, step.event) }

  function After(steps: seq<Step>): State {
    if steps == [] then START else Next(After(steps[..|steps| - 1]), steps[|steps| - 1])
  }

  predicate IsRun(steps: seq<Step>) {
    steps == [] ||
    (IsRun(steps[..|steps| - 1])
     && Enabled(After(steps[..|steps| - 1]), steps[|steps| - 1])
     && Honest(After(steps[..|steps| - 1]), steps[|steps| - 1]))
  }

  ghost predicate Inv(s: State) { R.Inv(s.runner) && D.Inv(s.world.client) && D.FreshInv(s.world) }

  lemma StepKeepsInvariant(s: State, step: Step)
    requires Inv(s) && Enabled(s, step) && Honest(s, step)
    ensures Inv(Next(s, step))
    ensures step != Page(D.SignOut) ==> s.world.client.published <= Next(s, step).world.client.published
  {
    hide R.Inv, R.Next, R.Enabled, D.Inv, D.FreshInv, D.Enabled, D.Next;
    if event :| WorldEvent(s, step) == Some(event) {
      BeginsAreHonest(s, step, event);
      D.StepKeepsInvariant(s.world.client, event);
      D.StepKeepsFresh(s.world, event);
      D.MoveIsNext(s.world, event);
    }
    if event :| RunnerEvent(s, step) == Some(event) {
      R.StepKeepsInvariant(s.runner, event);
    }
  }

  lemma BeginsAreHonest(s: State, step: Step, event: D.Event)
    requires Honest(s, step) && WorldEvent(s, step) == Some(event)
    ensures D.Honest(s.world, event) && (event == D.SignOut ==> step == Page(D.SignOut))
  {
  }

  lemma {:induction false} RunsKeepInvariant(steps: seq<Step>)
    requires IsRun(steps)
    ensures Inv(After(steps))
  {
    if steps != [] {
      RunsKeepInvariant(steps[..|steps| - 1]);
      StepKeepsInvariant(After(steps[..|steps| - 1]), steps[|steps| - 1]);
    }
  }

  // ----- an announced revision is pursued -----

  function Requested(steps: seq<Step>): nat { After(steps).world.client.requested }

  /** The stream announced the revision now requested, with no sign-out since. */
  predicate Announces(steps: seq<Step>, i: nat)
    requires i < |steps|
  {
    steps[i] == Page(D.SyncEvent(Some(Requested(steps)), true)) && Page(D.SignOut) !in steps[i..]
  }

  /** A refresh of the runner begins a load that wants no less than the revision now requested. */
  predicate Pursues(steps: seq<Step>, j: nat)
    requires j < |steps|
  {
    var w := After(steps[..j + 1]).world;
    && (steps[j].TimerFires? || steps[j].RunSettles?)
    && w.client.current == Some(w.client.sequence) && w.client.sequence in w.wanted
    && w.wanted[w.client.sequence] == Requested(steps)
  }

  ghost predicate IsPursued(steps: seq<Step>, i: nat) {
    || R.Owes(After(steps).runner)
    || (exists j :: i < j < |steps| && (Pursues(steps, j) || steps[j] == StreamCloses))
  }

  /** What can put the requested watermark ahead, and what that leaves owed. */
  lemma RaisingIsOwed(s: State, step: Step)
    requires Inv(s) && Enabled(s, step)
    requires var c := Next(s, step).world.client; c.requested > c.published
    requires Next(s, step).world.client.requested != s.world.client.requested || step == Page(D.SignOut)
    ensures step == Page(D.SyncEvent(Some(Next(s, step).world.client.requested), true))
    ensures R.Owes(Next(s, step).runner)
  {
    hide D.Next, D.Inv, D.FreshInv, R.Inv;
    var event :| WorldEvent(s, step) == Some(event);
    D.StepRaises(s.world, event);
  }

  /** A debt is paid by a load that wants what is requested, or dropped with the stream. */
  lemma DebtIsPaid(s: State, step: Step)
    requires Inv(s) && Enabled(s, step) && R.Owes(s.runner) && !R.Owes(Next(s, step).runner)
    requires step != StreamCloses
    ensures step.TimerFires? || step.RunSettles?
    ensures var w := Next(s, step).world;
      && w.client.current == Some(w.client.sequence) && w.client.sequence in w.wanted
      && w.wanted[w.client.sequence] == s.world.client.requested == w.client.requested
  {
    hide D.Inv, D.FreshInv, D.ReceiveEvent, D.Settle;
  }

  lemma AnnouncementStays(steps: seq<Step>, i: nat)
    requires i < |steps| - 1 && Announces(steps[..|steps| - 1], i)
    requires steps[|steps| - 1] != Page(D.SignOut) && Requested(steps) == Requested(steps[..|steps| - 1])
    ensures Announces(steps, i)
  {
    hide After, Requested;
    var before, last := steps[..|steps| - 1], steps[|steps| - 1];
    assert steps[i..] == before[i..] + [last];
  }

  lemma PursuitStays(steps: seq<Step>, i: nat)
    requires IsRun(steps) && i < |steps| - 1 && IsPursued(steps[..|steps| - 1], i)
    requires Requested(steps) == Requested(steps[..|steps| - 1])
    ensures IsPursued(steps, i)
  {
    hide Next, R.Owes, Enabled, Honest, Inv;
    var before, last := steps[..|steps| - 1], |steps| - 1;
    if R.Owes(After(before).runner) {
      RunsKeepInvariant(before);
      if !R.Owes(After(steps).runner) && steps[last] != StreamCloses {
        DebtIsPaid(After(before), steps[last]);
        assert steps[..last + 1] == steps;
        assert Pursues(steps, last);
      }
    } else {
      var j :| i < j < |before| && (Pursues(before, j) || before[j] == StreamCloses);
      assert before[..j + 1] == steps[..j + 1];
      assert Pursues(steps, j) || steps[j] == StreamCloses;
    }
  }

  /** Whatever overlaps in between: while a requested revision is not yet published, some event announced it,
      and since then a refresh is owed, or a load that wants that revision has begun, or the stream was closed. */
  lemma {:induction false} AnnouncedRevisionIsPursued(steps: seq<Step>)
    requires IsRun(steps) && Requested(steps) > After(steps).world.client.published
    ensures exists i :: 0 <= i < |steps| && Announces(steps, i) && IsPursued(steps, i)
  {
    hide Next, Announces, IsPursued, Enabled, Honest, Inv;
    if steps == [] {
      NothingAhead();
    } else {
      var before, last := steps[..|steps| - 1], steps[|steps| - 1];
      RunsKeepInvariant(before);
      StepKeepsInvariant(After(before), last);
      if Requested(steps) == Requested(before) && last != Page(D.SignOut) {
        AnnouncedRevisionIsPursued(before);
        var i :| 0 <= i < |before| && Announces(before, i) && IsPursued(before, i);
        AnnouncementStays(steps, i);
        PursuitStays(steps, i);
      } else {
        RaisingIsOwed(After(before), last);
        JustAnnounced(steps);
      }
    }
  }

  lemma NothingAhead()
    ensures Requested([]) == After([]).world.client.published
  {
  }

  lemma JustAnnounced(steps: seq<Step>)
    requires steps != [] && steps[|steps| - 1] == Page(D.SyncEvent(Some(Requested(steps)), true))
    requires R.Owes(After(steps).runner)
    ensures Announces(steps, |steps| - 1) && IsPursued(steps, |steps| - 1)
  {
    assert steps[|steps| - 1..] == [steps[|steps| - 1]];
  }

  /** Coming back online or into view leaves a refresh owed, unless the stream is closed; closing it leaves
      none owed, and none starts after. */
  lemma PokedRefreshIsOwed(steps: seq<Step>)
    requires IsRun(steps)
    ensures R.Owes(Next(After(steps), Poke).runner) <==> StreamCloses !in steps
    ensures !R.Owes(Next(After(steps), StreamCloses).runner)
  {
    hide D.Inv, D.FreshInv;
    RunsKeepInvariant(steps);
    ClosedExactlyByClosing(steps);
  }

  lemma {:induction false} ClosedExactlyByClosing(steps: seq<Step>)
    ensures After(steps).runner.disposed <==> StreamCloses in steps
  {
    hide D.Next, D.Move;
    if steps != [] {
      var before, last := steps[..|steps| - 1], steps[|steps| - 1];
      ClosedExactlyByClosing(before);
      assert steps == before + [last];
    }
  }

  /** And the debt can always be paid: some step of the runner is due, and any such step begins a load that
      wants what is requested. */
  lemma OwedLoadBeginsNext(steps: seq<Step>, step: Step)
    requires IsRun(steps) && R.Owes(After(steps).runner)
    requires (step.TimerFires? || step.RunSettles?) && Enabled(After(steps), step)
    ensures var w := Next(After(steps), step).world;
      && w.client.current == Some(w.client.sequence) && w.client.sequence in w.wanted
      && w.wanted[w.client.sequence] == Requested(steps)
  {
    hide D.Inv, D.FreshInv, D.ReceiveEvent, D.Settle;
    RunsKeepInvariant(steps);
  }
}
