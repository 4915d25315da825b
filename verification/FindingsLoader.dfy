/**
 * The generation-guarded findings loader (App.jsx, `fetchFindings` and its route effect).
 *
 * A load that no longer belongs to the current generation has lost its right to publish. A
 * refresh asked for while a load is under way is remembered in `queued`.
 */
module FindingsLoader {
  import opened Options

  datatype Route = Dashboard | Findings | Elsewhere   // `Findings`: any route that needs raw findings

  datatype Outcome = Loaded | Aborted | Failed

  datatype State = State(
    route: Route,
    inFlight: bool,
    queued: bool,
    generation: nat,
    loads: map<nat, nat>,        // the generation of each outstanding load
    nextLoad: nat,
    snapshotReady: bool,
    pendingFetch: bool,          // the route effect's microtask
    shown: Option<nat>)          // the generation whose findings are on display

  datatype Event =
    | Fetch(user: bool)
    | Settles(load: nat, outcome: Outcome)
    | RouteEffect(route: Route, user: bool)
    | Microtask

  datatype Effect = Effect(state: State, began: bool)

  const INITIAL := State(Elsewhere, false, false, 0, map[], 0, false, false, None)

  function BeginLoad(s: State): State {
    s.(generation := s.generation + 1, inFlight := true,
       loads := s.loads[s.nextLoad := s.generation + 1], nextLoad := s.nextLoad + 1)
  }

  function FetchFindings(s: State, user: bool): Effect {
    if !user || s.route != Findings then Effect(s, false)
    else if s.inFlight then Effect(s.(queued := true), false)
    else Effect(BeginLoad(s), true)
  }

  function Settle(s: State, load: nat, outcome: Outcome): Effect {
    if load !in s.loads then Effect(s, false)
    else
      var current := s.loads[load] == s.generation;
      var left := s.(loads := s.loads - {load});
      var shown :=
        if outcome == Loaded && current && s.route == Findings then
          left.(shown := Some(s.generation), snapshotReady := true)
        else left;
      if !current then Effect(shown, false)
      else if s.queued && s.route == Findings then
        Effect(BeginLoad(shown.(inFlight := false, queued := false)), true)
      else Effect(shown.(inFlight := false), false)
  }

  function Next(s: State, e: Event): Effect {
    match e
    case Fetch(user) => FetchFindings(s, user)
    case Settles(load, outcome) => Settle(s, load, outcome)
    case RouteEffect(route, user) =>
      if route == Dashboard then
        Effect(s.(route := route, generation := s.generation + 1, inFlight := false, queued := false,
                  snapshotReady := false, shown := None, pendingFetch := false), false)
      else
        Effect(s.(route := route, pendingFetch := user && route == Findings && !s.snapshotReady), false)
    case Microtask =>
      if s.pendingFetch then FetchFindings(s.(pendingFetch := false), true) else Effect(s, false)
  }

  function After(es: seq<Event>): State {
    if es == [] then INITIAL else Next(After(es[..|es| - 1]), es[|es| - 1]).state
  }

  function At(es: seq<Event>, i: nat): Effect
    requires i < |es|
  {
    Next(After(es[..i]), es[i])
  }

  predicate Inv(s: State) {
    && (forall l <- s.loads :: l < s.nextLoad && s.loads[l] <= s.generation)
    && (forall l <- s.loads, m <- s.loads :: s.loads[l] == s.loads[m] == s.generation ==> l == m)
    && (s.inFlight <==> s.generation in s.loads.Values)
    && (s.shown.Some? ==> s.shown.value <= s.generation && (s.inFlight ==> s.shown.value < s.generation))
    && (s.snapshotReady <==> s.shown.Some?)
  }

  lemma BeginLoadKeepsInvariant(s: State)
    requires Inv(s) && !s.inFlight
    ensures Inv(BeginLoad(s))
  {
    var t := BeginLoad(s);
    assert t.loads[s.nextLoad] == t.generation;
  }

  lemma RetiringKeepsInvariant(s: State, load: nat)
    requires Inv(s) && load in s.loads
    ensures s.loads[load] == s.generation ==> Inv(s.(loads := s.loads - {load}, inFlight := false))
    ensures s.loads[load] != s.generation ==> Inv(s.(loads := s.loads - {load}))
  {
    var rest := s.loads - {load};
    if s.loads[load] == s.generation {
      assert s.generation !in rest.Values;
    } else if s.inFlight {
      var l :| l in s.loads && s.loads[l] == s.generation;
      assert l in rest && rest[l] == s.generation;
    }
  }

  lemma SettleKeepsInvariant(s: State, load: nat, outcome: Outcome)
    requires Inv(s)
    ensures Inv(Settle(s, load, outcome).state)
  {
    if load in s.loads {
      RetiringKeepsInvariant(s, load);
      if s.loads[load] == s.generation {
        var done := s.(loads := s.loads - {load}, inFlight := false);
        var shown := if outcome == Loaded && s.route == Findings
                     then done.(shown := Some(s.generation), snapshotReady := true) else done;
        assert Inv(shown) && Inv(shown.(queued := false));
        BeginLoadKeepsInvariant(shown.(queued := false));
      }
    }
  }

  lemma StepKeepsInvariant(s: State, e: Event)
    requires Inv(s)
    ensures Inv(Next(s, e).state)
  {
    hide Settle, BeginLoad;
    match e
    case Settles(load, outcome) => SettleKeepsInvariant(s, load, outcome);
    case RouteEffect(route, user) => RouteKeepsInvariant(s, route, user);
    case _ =>
      if !s.inFlight {
        BeginLoadKeepsInvariant(s);
        BeginLoadKeepsInvariant(s.(pendingFetch := false));
      }
  }

  lemma RouteKeepsInvariant(s: State, route: Route, user: bool)
    requires Inv(s)
    ensures Inv(Next(s, RouteEffect(route, user)).state)
  {
  }

  /** In every run there is never more than one outstanding load of the current generation, and
      there is one exactly while `inFlight`. */
  lemma {:induction false} RunsKeepInvariant(es: seq<Event>)
    ensures Inv(After(es))
  {
    if es != [] {
      RunsKeepInvariant(es[..|es| - 1]);
      StepKeepsInvariant(After(es[..|es| - 1]), es[|es| - 1]);
    }
  }

  /** The load of the current generation brings its findings, on a route that needs them. */
  predicate Publishes(s: State, e: Event) {
    && e.Settles? && e.outcome == Loaded && s.route == Findings
    && e.load in s.loads && s.loads[e.load] == s.generation
  }

  /** After any run findings go on display exactly when the load of the current generation brings them, and
      in place of findings from an older generation; they go down exactly with the dashboard. */
  lemma OnlyTheCurrentLoadPublishes(es: seq<Event>, e: Event)
    ensures var s, t := After(es), Next(After(es), e).state;
      && (t.shown.Some? && t.shown != s.shown <==> Publishes(s, e))
      && (Publishes(s, e) ==> t.shown == Some(s.generation) && (s.shown.Some? ==> s.shown.value < s.generation))
      && (t.shown.None? && s.shown.Some? <==> s.shown.Some? && e.RouteEffect? && e.route == Dashboard)
  {
    RunsKeepInvariant(es);
    if Publishes(After(es), e) {
      GenerationIsFresh(es, e);
    }
  }

  lemma GenerationIsFresh(es: seq<Event>, e: Event)
    requires Publishes(After(es), e)
    ensures After(es).inFlight
  {
    var s := After(es);
    RunsKeepInvariant(es);
    assert s.loads[e.load] in s.loads.Values;
  }

  /** Entering a route that needs findings with none on display leaves a load under way: a new one, unless one
      of the current generation was already. */
  lemma EnteringFetches(es: seq<Event>)
    requires After(es).shown.None?
    ensures var s := After(es);
      var entered := Next(s, RouteEffect(Findings, true)).state;
      var fetched := Next(entered, Microtask);
      && fetched.state.inFlight && (fetched.began <==> !s.inFlight)
      && (s.inFlight ==> fetched.state.queued)
  {
    RunsKeepInvariant(es);
  }

  /** With findings on display it fetches nothing, and neither does it without a user. */
  lemma EnteringKeepsSnapshot(es: seq<Event>, user: bool)
    requires After(es).shown.Some? || !user
    ensures var entered := Next(After(es), RouteEffect(Findings, user)).state;
      && entered == After(es).(route := Findings, pendingFetch := false)
      && Next(entered, Microtask) == Effect(entered, false)
  {
    RunsKeepInvariant(es);
  }

  /** A load begins exactly with a request of its own, which is then the one of the current generation. */
  lemma BeginsWithARequest(es: seq<Event>, e: Event)
    ensures var (s, r) := (After(es), Next(After(es), e));
      && (r.began <==> r.state.nextLoad != s.nextLoad)
      && (r.began ==>
            && r.state.nextLoad == s.nextLoad + 1 && s.nextLoad in r.state.loads
            && r.state.loads[s.nextLoad] == r.state.generation > s.generation)
  {
  }

  /** Entering the dashboard leaves nothing on display, under way, queued or due. */
  lemma DashboardClears(es: seq<Event>, user: bool)
    ensures var s := Next(After(es), RouteEffect(Dashboard, user)).state;
      && s.route == Dashboard && s.shown.None? && !s.inFlight && !s.queued
      && Next(s, Microtask) == Effect(s, false)
  {
  }

  /** A direct call begins a load exactly on a route that needs findings, for a user, with none under way. */
  lemma FetchBeginsExactly(es: seq<Event>, user: bool)
    ensures var (s, r) := (After(es), Next(After(es), Fetch(user)));
      && (r.began <==> user && s.route == Findings && s.generation !in s.loads.Values)
      && (r.began ==> r.state.generation == s.generation + 1 && r.state.generation in r.state.loads.Values)
      && (!r.began ==> r.state == s.(queued := s.queued || (user && s.route == Findings)))
  {
    RunsKeepInvariant(es);
    var t := BeginLoad(After(es));
    assert t.loads[After(es).nextLoad] == t.generation;
  }

  /** Leaving for the dashboard strips every outstanding load of its right to publish, for good. */
  lemma {:induction false} DashboardDisownsLoads(es: seq<Event>, i: nat, load: nat)
    requires i < |es| && es[i].RouteEffect? && es[i].route == Dashboard
    requires load in After(es[..i]).loads
    ensures load in After(es).loads ==> After(es).loads[load] < After(es).generation
    ensures load < After(es).nextLoad
  {
    var last := |es| - 1;
    var before := es[..last];
    RunsKeepInvariant(before);
    if i < last {
      assert before[..i] == es[..i];
      DashboardDisownsLoads(before, i, load);
    }
    StaleStaysStale(After(before), es[last], load);
  }

  lemma StaleStaysStale(s: State, e: Event, load: nat)
    requires Inv(s) && load < s.nextLoad
    requires load in s.loads ==>
      s.loads[load] < s.generation || (e.RouteEffect? && e.route == Dashboard)
    ensures var t := Next(s, e).state;
      load < t.nextLoad && (load in t.loads ==> t.loads[load] < t.generation)
  {
    hide Inv;
    match e
    case Settles(_, _) => assert Stale(s, load);
    case RouteEffect(_, _) => GenerationsBound(s);
    case _ => assert Stale(s, load);
  }

  predicate Stale(s: State, load: nat) {
    load < s.nextLoad && (load in s.loads ==> s.loads[load] < s.generation)
  }

  lemma GenerationsBound(s: State)
    requires Inv(s)
    ensures forall l <- s.loads :: s.loads[l] <= s.generation
  {
  }

  /** When the current load settles, another begins exactly if a refresh is queued and the route
      still needs findings; the queue is then empty. */
  lemma QueuedRefreshBeginsOnSettling(s: State, load: nat, outcome: Outcome)
    requires Inv(s) && load in s.loads && s.loads[load] == s.generation
    ensures var r := Settle(s, load, outcome);
      && (r.began <==> s.queued && s.route == Findings)
      && (r.began ==> !r.state.queued && r.state.inFlight && r.state.generation == s.generation + 1)
      && (!r.began ==> !r.state.inFlight && r.state.queued == s.queued)
  {
  }

  /** A `fetchFindings` call that found a load under way. */
  predicate AskedMidFlight(es: seq<Event>, i: nat)
    requires i < |es|
  {
    es[i] == Fetch(true) && After(es[..i]).route == Findings && After(es[..i]).inFlight
  }

  predicate AnsweredAt(es: seq<Event>, j: nat)
    requires j < |es|
  {
    At(es, j).began || (es[j].RouteEffect? && es[j].route == Dashboard)
  }

  /** A refresh asked for mid-flight stays queued until a load begins or the dashboard resets. */
  lemma {:induction false} MidFlightRefreshIsRemembered(es: seq<Event>, i: nat)
    requires i < |es| && AskedMidFlight(es, i)
    ensures After(es).queued || exists j :: i < j < |es| && AnsweredAt(es, j)
  {
    var last := |es| - 1;
    if i < last {
      var before := es[..last];
      assert before[..i] == es[..i];
      MidFlightRefreshIsRemembered(before, i);
      if !After(before).queued {
        var j :| i < j < last && AnsweredAt(before, j);
        assert before[..j] == es[..j];
        assert AnsweredAt(es, j);
      } else if !After(es).queued {
        assert AnsweredAt(es, last);
      }
    }
  }

  lemma WaitingStepServes(s: State, e: Event)
    requires s.queued && s.inFlight && s.route == Findings && (e.RouteEffect? ==> e.route == Findings)
    ensures var r := Next(s, e); r.state.route == Findings && ((r.state.queued && r.state.inFlight) || r.began)
  {
  }

  lemma StaysOnRoute(s: State, e: Event)
    requires s.route == Findings && (e.RouteEffect? ==> e.route == Findings)
    ensures Next(s, e).state.route == Findings
  {
  }

  /** While the route keeps needing findings, such a refresh is answered, or a load is still under
      way whose settling will answer it. */
  lemma {:induction false} MidFlightRefreshIsServed(es: seq<Event>, i: nat)
    requires i < |es| && AskedMidFlight(es, i)
    requires forall j :: i < j < |es| && es[j].RouteEffect? ==> es[j].route == Findings
    ensures After(es).route == Findings
    ensures (After(es).queued && After(es).inFlight) || exists j :: i < j < |es| && At(es, j).began
  {
    var last := |es| - 1;
    if i < last {
      var before := es[..last];
      assert before[..i] == es[..i];
      hide Next;
      MidFlightRefreshIsServed(before, i);
      StaysOnRoute(After(before), es[last]);
      if After(before).queued && After(before).inFlight {
        WaitingStepServes(After(before), es[last]);
        assert (After(es).queued && After(es).inFlight) || At(es, last).began;
      } else {
        var j :| i < j < last && At(before, j).began;
        assert before[..j] == es[..j];
        assert At(es, j).began;
      }
    }
  }

  /** A snapshot is on display, and nothing is under way. */
  const READY := INITIAL.(route := Findings, generation := 1, nextLoad := 1, shown := Some(1), snapshotReady := true)

  /** A refresh under way, and another queued behind it. */
  const BUSY := READY.(inFlight := true, generation := 2, loads := map[1 := 2], nextLoad := 2, queued := true)

  lemma GetsReady(es: seq<Event>)
    requires |es| >= 3 && es[..3] == [RouteEffect(Findings, true), Microtask, Settles(0, Loaded)]
    ensures After(es[..3]) == READY
  {
    var s1 := INITIAL.(route := Findings, pendingFetch := true);
    var s2 := s1.(pendingFetch := false, inFlight := true, generation := 1, loads := map[0 := 1], nextLoad := 1);
    assert es[0] == es[..3][0] && es[1] == es[..3][1] && es[2] == es[..3][2] && es[..0] == [];
    Step(es, 0, INITIAL, s1);
    assert map[][0 := 1] == map[0 := 1];
    Step(es, 1, s1, s2);
    assert map[0 := 1] - {0} == map[];
    Step(es, 2, s2, READY);
  }

  lemma GetsBusy(es: seq<Event>)
    requires |es| >= 5 && After(es[..3]) == READY && es[3] == es[4] == Fetch(true)
    ensures After(es[..4]) == BUSY.(queued := false) && After(es[..5]) == BUSY
  {
    Step(es, 3, READY, BUSY.(queued := false));
    Step(es, 4, BUSY.(queued := false), BUSY);
  }

  lemma GetsStranded(es: seq<Event>)
    requires |es| == 8 && After(es[..5]) == BUSY
    requires es[5] == RouteEffect(Elsewhere, true) && es[6] == Settles(1, Loaded)
        && es[7] == RouteEffect(Findings, true)
    ensures After(es) == READY.(queued := true, generation := 2, nextLoad := 2)
    ensures forall j :: 4 < j < 8 ==> !AnsweredAt(es, j)
  {
    var away := BUSY.(route := Elsewhere);
    var left := away.(inFlight := false, loads := map[]);
    Step(es, 5, BUSY, away);
    assert map[1 := 2] - {1} == map[];
    Step(es, 6, away, left);
    Step(es, 7, left, left.(route := Findings));
    assert es[..8] == es;
  }

  /** Without that condition it can be stranded: the load settles while the user is elsewhere, and
      on return the old snapshot still counts as ready. Nothing is under way, nothing is due. */
  lemma RefreshCanBeStranded() returns (es: seq<Event>)
    ensures |es| == 8 && AskedMidFlight(es, 4)
    ensures var s := After(es);
      s.route == Findings && s.queued && !s.inFlight && !s.pendingFetch && s.shown == Some(1)
    ensures !(exists j :: 4 < j < 8 && AnsweredAt(es, j))
  {
    hide Next, AnsweredAt;
    es := [RouteEffect(Findings, true), Microtask, Settles(0, Loaded), Fetch(true), Fetch(true),
           RouteEffect(Elsewhere, true), Settles(1, Loaded), RouteEffect(Findings, true)];
    GetsReady(es);
    GetsBusy(es);
    GetsStranded(es);
  }

  lemma Step(es: seq<Event>, i: nat, s: State, t: State)
    requires i < |es| && After(es[..i]) == s && Next(s, es[i]).state == t
    ensures After(es[..i + 1]) == t
  {
    assert es[..i + 1][..i] == es[..i];
  }

  class Loader {
    var route: Route
    var inFlight: bool
    var queued: bool
    var generation: nat
    var loads: map<nat, nat>
    var nextLoad: nat
    var snapshotReady: bool
    var pendingFetch: bool
    var shown: Option<nat>

    ghost function View(): State
      reads this
    {
      State(route, inFlight, queued, generation, loads, nextLoad, snapshotReady, pendingFetch, shown)
    }

    constructor ()
      ensures View() == INITIAL
    {
      route, inFlight, queued, generation := Elsewhere, false, false, 0;
      loads, nextLoad := map[], 0;
      snapshotReady, pendingFetch, shown := false, false, None;
    }

    /** `fetchFindings` up to its `await`. */
    method Fetch(user: bool) returns (began: bool)
      modifies this
      ensures Effect(View(), began) == Next(old(View()), Event.Fetch(user))
    {
      if !user || route != Findings { return false; }
      if inFlight {
        queued := true;
        return false;
      }
      generation := generation + 1;
      inFlight := true;
      loads, nextLoad := loads[nextLoad := generation], nextLoad + 1;
      return true;
    }

    /** From the `await` to the end, `finally` included. The renewed fetch runs in the closure of
        the settled one, which was signed in. */
    method Settles(load: nat, outcome: Outcome) returns (began: bool)
      requires load in loads
      modifies this
      ensures Effect(View(), began) == Next(old(View()), Event.Settles(load, outcome))
    {
      var mine := loads[load];
      loads := loads - {load};
      if outcome == Loaded && generation == mine && route == Findings {
        shown := Some(mine);
        snapshotReady := true;
      }
      began := false;
      if generation == mine {
        inFlight := false;
        if queued && route == Findings {
          queued := false;
          began := Fetch(true);
        }
      }
    }

    method RouteEffect(to: Route, user: bool)
      modifies this
      ensures Effect(View(), false) == Next(old(View()), Event.RouteEffect(to, user))
    {
      route := to;
      if to == Dashboard {
        generation := generation + 1;
        inFlight, queued := false, false;
        snapshotReady, shown, pendingFetch := false, None, false;
      } else {
        pendingFetch := user && to == Findings && !snapshotReady;
      }
    }

    method Microtask() returns (began: bool)
      modifies this
      ensures Effect(View(), began) == Next(old(View()), Event.Microtask)
    {
      began := false;
      if pendingFetch {
        pendingFetch := false;
        began := Fetch(true);
      }
    }
  }
}
