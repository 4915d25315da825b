/**
 * The debounced single-flight refresh runner (liveDataRefreshCoordinator.js).
 *
 * `Next` says what one atomic step between two `await`s does; a run of the coordinator is a
 * sequence of events in which the environment only delivers what can happen: a timer fires
 * only while the platform still holds it, and a refresh settles only while one is outstanding.
 * `Coordinator` is the mutable object of the source, each method proved to take that step.
 */
module LiveRefresh {
  import opened Options

  datatype State = State(
    timerId: Option<nat>,   // the closure variable of the same name
    armed: set<nat>,        // timers the platform still holds
    nextTimer: nat,         // the id the platform hands out next
    running: bool,
    queued: bool,
    disposed: bool)

  datatype Event =
    | Schedule
    | TimerFires(id: nat)
    | RunSettles            // the awaited `run()` resolves, or rejects and is reported
    | Cancel
    | Dispose

  datatype Effect = Effect(state: State, accepted: bool, started: bool)

  const INITIAL := State(None, {}, 0, false, false, false)

  function Cancelled(s: State): State {
    var armed := if s.timerId.Some? then s.armed - {s.timerId.value} else s.armed;
    s.(timerId := None, armed := armed, queued := false)
  }

  function Next(s: State, e: Event): Effect {
    match e
    case Schedule =>
      if s.disposed then Effect(s, false, false)
      else if s.running then Effect(s.(queued := true), true, false)
      else if s.timerId.Some? then Effect(s, true, false)
      else Effect(s.(timerId := Some(s.nextTimer), armed := s.armed + {s.nextTimer},
                     nextTimer := s.nextTimer + 1), true, false)
    case TimerFires(id) =>
      var fired := s.(timerId := None, armed := s.armed - {id});
      if s.disposed then Effect(fired, false, false)
      else if s.running then Effect(fired.(queued := true), false, false)
      else Effect(fired.(running := true, queued := false), false, true)
    case RunSettles =>
      if s.queued && !s.disposed then Effect(s.(queued := false), false, true)
      else Effect(s.(running := false), false, false)
    case Cancel => Effect(Cancelled(s), false, false)
    case Dispose => Effect(Cancelled(s.(disposed := true)), false, false)
  }

  /** What the environment may deliver in state `s`. */
  predicate Enabled(s: State, e: Event) {
    match e
    case TimerFires(id) => id in s.armed
    case RunSettles => s.running
    case _ => true
  }

  function After(es: seq<Event>): State {
    if es == [] then INITIAL else Next(After(es[..|es| - 1]), es[|es| - 1]).state
  }

  predicate IsRun(es: seq<Event>) {
    es == [] || (IsRun(es[..|es| - 1]) && Enabled(After(es[..|es| - 1]), es[|es| - 1]))
  }

  function At(es: seq<Event>, i: nat): Effect
    requires i < |es|
  {
    Next(After(es[..i]), es[i])
  }

  function Accepted(es: seq<Event>): nat {
    if es == [] then 0
    else Accepted(es[..|es| - 1]) + if At(es, |es| - 1).accepted then 1 else 0
  }

  function Started(es: seq<Event>): nat {
    if es == [] then 0
    else Started(es[..|es| - 1]) + if At(es, |es| - 1).started then 1 else 0
  }

  function Settled(es: seq<Event>): nat {
    if es == [] then 0
    else Settled(es[..|es| - 1]) + if es[|es| - 1] == RunSettles then 1 else 0
  }

  /** A refresh is still owed: a timer will start one, or the runner will go round again. */
  predicate Owes(s: State) { s.timerId.Some? || s.queued }

  predicate Inv(s: State) {
    && s.armed == (if s.timerId.Some? then {s.timerId.value} else {})
    && (s.timerId.Some? ==> s.timerId.value < s.nextTimer && !s.running)
    && (s.queued ==> s.running)
    && (s.disposed ==> !Owes(s))
  }

  lemma StepKeepsInvariant(s: State, e: Event)
    requires Inv(s) && Enabled(s, e)
    ensures Inv(Next(s, e).state)
  {
  }

  /** The platform holds exactly the coordinator's timer, and none while a refresh runs. */
  lemma {:induction false} RunsKeepInvariant(es: seq<Event>)
    requires IsRun(es)
    ensures Inv(After(es))
  {
    if es != [] {
      RunsKeepInvariant(es[..|es| - 1]);
      StepKeepsInvariant(After(es[..|es| - 1]), es[|es| - 1]);
    }
  }

  /** Refreshes never overlap: the outstanding ones number one while `running`, else none. */
  lemma {:induction false} RunsNeverOverlap(es: seq<Event>)
    requires IsRun(es)
    ensures Started(es) == Settled(es) + if After(es).running then 1 else 0
  {
    if es != [] {
      var before := es[..|es| - 1];
      RunsNeverOverlap(before);
      RunsKeepInvariant(before);
    }
  }

  /** Every refresh started or still owed was paid for by its own accepted `schedule`. */
  lemma {:induction false} StartsNeverExceedSchedules(es: seq<Event>)
    requires IsRun(es)
    ensures Started(es) + (if Owes(After(es)) then 1 else 0) <= Accepted(es)
  {
    if es != [] {
      var before := es[..|es| - 1];
      StartsNeverExceedSchedules(before);
      RunsKeepInvariant(before);
    }
  }

  predicate DischargedAt(es: seq<Event>, j: nat)
    requires j < |es|
  {
    At(es, j).started || es[j] == Cancel || es[j] == Dispose
  }

  /** An accepted `schedule` stays owed until a later refresh starts or it is called off. */
  lemma {:induction false} AcceptedScheduleIsOwed(es: seq<Event>, i: nat)
    requires IsRun(es) && i < |es| && At(es, i).accepted
    ensures Owes(After(es)) || exists j :: i < j < |es| && DischargedAt(es, j)
  {
    var last := |es| - 1;
    var before := es[..last];
    if i < last {
      assert before[..i] == es[..i];
      AcceptedScheduleIsOwed(before, i);
      if !Owes(After(before)) {
        var j :| i < j < last && DischargedAt(before, j);
        assert before[..j] == es[..j];
        assert DischargedAt(es, j);
      } else if !Owes(After(es)) {
        RunsKeepInvariant(before);
        assert DischargedAt(es, last);
      }
    }
  }

  lemma {:induction false} DisposedExactlyByDispose(es: seq<Event>)
    ensures After(es).disposed <==> Dispose in es
  {
    if es != [] {
      var before, last := es[..|es| - 1], es[|es| - 1];
      DisposedExactlyByDispose(before);
      assert es == before + [last];
    }
  }

  /** A `schedule` is accepted unless the coordinator was disposed of before, whatever it is doing. */
  lemma SchedulesAreAcceptedExactly(es: seq<Event>, i: nat)
    requires i < |es|
    ensures At(es, i).accepted <==> es[i] == Schedule && Dispose !in es[..i]
  {
    DisposedExactlyByDispose(es[..i]);
  }

  /** A `schedule` with no `dispose` before it, and nothing since that started a refresh or called it off. */
  ghost predicate Pending(es: seq<Event>, i: nat)
    requires i < |es|
  {
    es[i] == Schedule && Dispose !in es[..i] && forall j :: i < j < |es| ==> !DischargedAt(es, j)
  }

  /** A refresh is owed exactly if some `schedule` is pending. */
  lemma RefreshIsOwedExactly(es: seq<Event>)
    requires IsRun(es)
    ensures Owes(After(es)) <==> exists i :: 0 <= i < |es| && Pending(es, i)
  {
    if i :| 0 <= i < |es| && Pending(es, i) {
      SchedulesAreAcceptedExactly(es, i);
      AcceptedScheduleIsOwed(es, i);
    }
    if Owes(After(es)) {
      OwedSincePendingSchedule(es);
    }
  }

  /** The platform steps that can happen all pay what is owed, so the latest event is the one. */
  lemma OwedSincePendingSchedule(es: seq<Event>)
    requires IsRun(es) && Owes(After(es))
    ensures es != [] && Pending(es, |es| - 1)
  {
    RunsKeepInvariant(es);
    RunsKeepInvariant(es[..|es| - 1]);
    DisposedExactlyByDispose(es[..|es| - 1]);
  }

  /** Calling off leaves no timer and nothing owed, and does not touch a refresh under way. */
  lemma CallingOffClears(es: seq<Event>, e: Event)
    requires IsRun(es) && (e == Cancel || e == Dispose)
    ensures var s := Next(After(es), e).state;
      !Owes(s) && s.armed == {} && s.running == After(es).running
  {
    RunsKeepInvariant(es);
  }

  /** A debt is payable: some step of the environment is due, and any such step starts a refresh. */
  lemma OwedRefreshIsServedNext(es: seq<Event>, e: Event)
    requires IsRun(es) && Owes(After(es))
    ensures var s := After(es);
      && (s.running <==> Enabled(s, RunSettles))
      && (!s.running <==> s.timerId.Some? && Enabled(s, TimerFires(s.timerId.value)))
      && ((e.TimerFires? || e.RunSettles?) && Enabled(s, e) ==>
        Next(s, e).started && Next(s, e).state.running && !Owes(Next(s, e).state))
  {
    RunsKeepInvariant(es);
  }

  /** After `dispose` nothing is accepted and nothing starts, whatever happens next. */
  lemma {:induction false} DisposalIsFinal(es: seq<Event>, i: nat, j: nat)
    requires IsRun(es) && i < j < |es| && es[i] == Dispose
    ensures !At(es, j).accepted && !At(es, j).started
  {
    StaysDisposed(es, i, j);
    PrefixIsRun(es, j);
    RunsKeepInvariant(es[..j]);
  }

  lemma {:induction false} StaysDisposed(es: seq<Event>, i: nat, j: nat)
    requires i < j <= |es| && es[i] == Dispose
    ensures After(es[..j]).disposed
  {
    assert es[..j][..j - 1] == es[..j - 1];
    if i < j - 1 {
      StaysDisposed(es, i, j - 1);
    }
  }

  lemma {:induction false} PrefixIsRun(es: seq<Event>, j: nat)
    requires IsRun(es) && j <= |es|
    ensures IsRun(es[..j])
    decreases |es| - j
  {
    if j < |es| {
      PrefixIsRun(es, j + 1);
      assert es[..j + 1][..j] == es[..j];
    } else {
      assert es[..j] == es;
    }
  }

  /** A refresh asked for while one runs does run: the loop goes round, and stops when nothing is queued. */
  lemma LoopGoesRound()
    ensures var es := [Schedule, TimerFires(0), Schedule, RunSettles, RunSettles];
      && IsRun(es) && Started(es) == 2 && Accepted(es) == 2 && After(es) == INITIAL.(nextTimer := 1)
  {
    var es := [Schedule, TimerFires(0), Schedule, RunSettles, RunSettles];
    var armed := INITIAL.(timerId := Some(0), armed := {0}, nextTimer := 1);
    var busy := INITIAL.(nextTimer := 1, running := true);
    assert {0} - {0} == {} && {} + {0} == {0};
    assert es[..0] == [] && es[..5] == es;
    StepTo(es, 0, INITIAL, armed);
    StepTo(es, 1, armed, busy);
    StepTo(es, 2, busy, busy.(queued := true));
    StepTo(es, 3, busy.(queued := true), busy);
    StepTo(es, 4, busy, INITIAL.(nextTimer := 1));
  }

  lemma StepTo(es: seq<Event>, i: nat, s: State, t: State)
    requires i < |es| && After(es[..i]) == s && Next(s, es[i]).state == t
    requires IsRun(es[..i]) && Enabled(s, es[i])
    ensures After(es[..i + 1]) == t && IsRun(es[..i + 1])
    ensures Started(es[..i + 1]) == Started(es[..i]) + (if Next(s, es[i]).started then 1 else 0)
    ensures Accepted(es[..i + 1]) == Accepted(es[..i]) + (if Next(s, es[i]).accepted then 1 else 0)
  {
    assert es[..i + 1][..i] == es[..i];
  }

  /** What line 37 leaves behind when the `onError` callback itself throws. */
  function HandlerThrows(s: State): State { s.(running := false) }

  /** A throwing `onError` strands a refresh exactly when one was queued behind the failed one. */
  lemma ThrowingHandlerStrands(es: seq<Event>)
    requires IsRun(es) && After(es).running
    ensures var s := HandlerThrows(After(es));
      After(es).queued <==>
      Owes(s) && forall e: Event :: e.TimerFires? || e.RunSettles? ==> !Enabled(s, e)
  {
    RunsKeepInvariant(es);
  }

  class Coordinator {
    var timerId: Option<nat>
    var armed: set<nat>
    var nextTimer: nat
    var running: bool
    var queued: bool
    var disposed: bool

    ghost function View(): State
      reads this
    {
      State(timerId, armed, nextTimer, running, queued, disposed)
    }

    constructor ()
      ensures View() == INITIAL
    {
      timerId, armed, nextTimer := None, {}, 0;
      running, queued, disposed := false, false, false;
    }

    method Schedule() returns (accepted: bool)
      modifies this
      ensures Effect(View(), accepted, false) == Next(old(View()), Event.Schedule)
    {
      if disposed { return false; }
      if running {
        queued := true;
        return true;
      }
      if timerId.Some? { return true; }
      timerId, armed, nextTimer := Some(nextTimer), armed + {nextTimer}, nextTimer + 1;
      return true;
    }

    /** `runScheduledRefresh` up to its first `await run()`. */
    method TimerFires(id: nat) returns (started: bool)
      requires id in armed
      modifies this
      ensures Effect(View(), false, started) == Next(old(View()), Event.TimerFires(id))
    {
      armed := armed - {id};
      timerId := None;
      if disposed { return false; }
      if running {
        queued := true;
        return false;
      }
      running := true;
      queued := false;
      return true;
    }

    /** From the settled `await run()` to the next one, or out of the loop. */
    method RunSettles() returns (started: bool)
      requires running
      modifies this
      ensures Effect(View(), false, started) == Next(old(View()), Event.RunSettles)
    {
      if queued && !disposed {
        queued := false;
        return true;
      }
      running := false;
      return false;
    }

    method Cancel()
      modifies this
      ensures Effect(View(), false, false) == Next(old(View()), Event.Cancel)
    {
      if timerId.Some? {
        armed := armed - {timerId.value};
        timerId := None;
      }
      queued := false;
    }

    method Dispose()
      modifies this
      ensures Effect(View(), false, false) == Next(old(View()), Event.Dispose)
    {
      disposed := true;
      Cancel();
    }
  }
}
