/**
 * Dashboard loading and the two revision watermarks (App.jsx, `fetchDashboardData`, the stream
 * handler `onEvent`, and sign-out).
 *
 * `Next` is one step of the client between two `await`s. `World` adds what the client cannot
 * see: the server's own revision, and the revision it had when each load's outstanding fetches
 * were issued. Revisions are numbers here; `Revisions` ties them to the texts that travel.
 *
 * Selecting a year is one step: the state change that clears the list, the effects of its commit,
 * and the load begun by the microtask they queue.
 */
module DashboardSession {
  import opened Options
  import LatestRequest

  datatype Reply = Rejected | NotOk | Ok(revision: Option<nat>)

  datatype Stage = Attempt(n: nat) | Recovery | Finished

  datatype Load = Load(scope: string, hadSnapshot: bool, stage: Stage)

  const ATTEMPTS := 3

  datatype Client = Client(
    sequence: nat,
    current: Option<nat>,         // id of the coordinator's current request
    scopeKey: string,             // the year scope on display
    loads: map<nat, Load>,        // by request id
    published: nat,               // revision of the list last put up since sign-in; outlives that list
    requested: nat,               // highest revision asked for
    sseInitialized: bool,
    summaryBy: Option<nat>,       // the load whose summary is on display
    listBy: Option<nat>)          // the load whose list is on display

  datatype Event =
    | Begin(query: string, hadSnapshot: bool)
    | Settles(id: nat, summary: Reply, list: Reply)
    | SelectYear(year: string)
    | ClearList
    | SyncEvent(revision: Option<nat>, refreshable: bool)
    | Unmount
    | SignOut
    | ServerMoves(to: nat)

  datatype Effect = Effect(client: Client, refresh: bool)

  const INITIAL := Client(0, None, "", map[], 0, 0, false, None, None)

  predicate IsCurrent(c: Client, id: nat) {
    c.current == Some(id) && id in c.loads && c.loads[id].scope == c.scopeKey
  }

  predicate Open(c: Client, id: nat) {
    id in c.loads && c.loads[id].stage != Finished
  }

  function WithStage(c: Client, id: nat, stage: Stage): Client
    requires id in c.loads
  {
    c.(loads := c.loads[id := c.loads[id].(stage := stage)])
  }

  /** Lines 658-709: the summary goes up unconditionally, the list only if still current. */
  function PutUp(c: Client, id: nat, summary: Reply, list: Reply): Client {
    var withSummary := if summary.Ok? then c.(summaryBy := Some(id)) else c;
    if list.Ok? && IsCurrent(c, id) then
      var revision := list.revision.GetOr(0);
      withSummary.(listBy := Some(id), published := revision,
                   requested := if revision >= c.requested then revision else c.requested)
    else withSummary
  }

  function Publish(c: Client, id: nat, summary: Reply, list: Reply): Client
    requires id in c.loads
  {
    WithStage(PutUp(c, id, summary, list), id, Finished)
  }

  function Settle(c: Client, id: nat, summary: Reply, list: Reply): Client {
    if !Open(c, id) then c else
    match c.loads[id].stage
    case Attempt(n) =>
      if !IsCurrent(c, id) then WithStage(c, id, Finished)
      else if !summary.Ok? || !list.Ok? then Publish(c, id, summary, list)
      else if summary.revision.Some? && summary.revision == list.revision then Publish(c, id, summary, list)
      else if n + 1 < ATTEMPTS then WithStage(c, id, Attempt(n + 1))
      else if c.loads[id].hadSnapshot then WithStage(c, id, Finished)
      else WithStage(c, id, Recovery)
    case Recovery =>
      if summary.Ok? && list.Ok? then Publish(c, id, summary, list)
      else WithStage(c, id, Finished)
    case Finished => c
  }

  function Max(a: nat, b: nat): nat { if a > b then a else b }

  function ReceiveEvent(c: Client, revision: Option<nat>, refreshable: bool): Effect {
    var first := !c.sseInitialized;
    var seen := c.(sseInitialized := true);
    if first && c.published == 0 then Effect(seen, false)
    else if !refreshable then Effect(seen, false)
    else if revision.None? then Effect(seen, true)
    else if revision.value > Max(c.requested, c.published) then Effect(seen.(requested := revision.value), true)
    else Effect(seen, false)
  }

  function BeginLoad(c: Client, query: string, hadSnapshot: bool): Client {
    var id := c.sequence + 1;
    c.(sequence := id, current := Some(id), loads := c.loads[id := Load(query, hadSnapshot, Attempt(0))])
  }

  function Next(c: Client, e: Event): Effect {
    match e
    case Begin(query, hadSnapshot) => Effect(BeginLoad(c, query, hadSnapshot), false)
    case Settles(id, summary, list) => Effect(Settle(c, id, summary, list), false)
    case SelectYear(year) => Effect(BeginLoad(c.(scopeKey := year, listBy := None), year, false), false)
    case ClearList => Effect(c.(listBy := None), false)
    case SyncEvent(revision, refreshable) => ReceiveEvent(c, revision, refreshable)
    case Unmount => Effect(c.(current := None, sequence := c.sequence + 1), false)
    case SignOut =>
      Effect(c.(current := None, sequence := c.sequence + 1,
                sseInitialized := false, published := 0, requested := 0), false)
    case ServerMoves(_) => Effect(c, false)
  }

  // ----- the client inside its world -----

  /** `floors[id]`: the server's revision when the open fetches of load `id` were issued;
      `wanted[id]`: the requested watermark when load `id` began. */
  datatype World = World(client: Client, server: nat, floors: map<nat, nat>, wanted: map<nat, nat>)

  const START := World(INITIAL, 0, map[], map[])

  function Begun(w: World, client: Client): World {
    World(client, w.server, w.floors[client.sequence := w.server], w.wanted[client.sequence := w.client.requested])
  }

  function Move(w: World, e: Event): World {
    var client := Next(w.client, e).client;
    match e
    case Begin(_, _) => Begun(w, client)
    case SelectYear(_) => Begun(w, client)
    case Settles(id, _, _) =>
      // a further attempt, or the recovery fetch, is issued now
      World(client, w.server, w.floors[id := w.server], w.wanted)
    case ServerMoves(to) => World(client, to, w.floors, w.wanted)
    case _ => w.(client := client)
  }

  predicate FreshEnough(w: World, id: nat, reply: Reply) {
    reply.Ok? && reply.revision.Some? && id in w.floors ==>
      w.floors[id] <= reply.revision.value <= w.server
  }

  /** The server's side of the bargain: its revision only grows, a reply reports a revision read
      after its fetch was issued, list replies report one, and events announce a reached one. */
  predicate Honest(w: World, e: Event) {
    match e
    case ServerMoves(to) => w.server <= to
    case Settles(id, summary, list) =>
      FreshEnough(w, id, summary) && FreshEnough(w, id, list) && (list.Ok? ==> list.revision.Some?)
    case SyncEvent(revision, _) => revision.Some? ==> revision.value <= w.server
    case _ => true
  }

  predicate Enabled(w: World, e: Event) { e.Settles? ==> Open(w.client, e.id) }

  predicate IsRun(es: seq<Event>) {
    es == [] || (IsRun(es[..|es| - 1]) && Enabled(After(es[..|es| - 1]), es[|es| - 1]))
  }

  function After(es: seq<Event>): World {
    if es == [] then START else Move(After(es[..|es| - 1]), es[|es| - 1])
  }

  predicate HonestRun(es: seq<Event>) {
    es == [] || (HonestRun(es[..|es| - 1]) && Honest(After(es[..|es| - 1]), es[|es| - 1]))
  }

  /** What every run keeps, trusting nobody. */
  predicate Inv(c: Client) {
    && c.published <= c.requested
    && (forall id <- c.loads :: 1 <= id <= c.sequence)
    && (c.current.Some? ==> c.current.value in c.loads)
    && (c.listBy.Some? ==> c.listBy.value in c.loads && c.loads[c.listBy.value].stage == Finished)
  }

  /** What an honest server adds: an open current load reads no older than what is on display. */
  predicate FreshInv(w: World) {
    && w.client.requested <= w.server
    && (forall id <- w.client.loads ::
          id in w.floors && id in w.wanted && w.wanted[id] <= w.floors[id] <= w.server)
    && (w.client.current.Some? && Open(w.client, w.client.current.value) ==>
          w.client.current.value in w.floors && w.client.published <= w.floors[w.client.current.value])
  }

  lemma MoveIsNext(w: World, e: Event)
    ensures Move(w, e).client == Next(w.client, e).client
  {
  }

  lemma PublishKeepsInvariant(c: Client, id: nat, summary: Reply, list: Reply)
    requires Inv(c) && id in c.loads
    ensures Inv(Publish(c, id, summary, list))
  {
  }

  lemma StageKeepsInvariant(c: Client, id: nat, stage: Stage)
    requires Inv(c) && Open(c, id)
    ensures Inv(WithStage(c, id, stage))
  {
  }

  lemma SettleKeepsInvariant(c: Client, id: nat, summary: Reply, list: Reply)
    requires Inv(c)
    ensures Inv(Settle(c, id, summary, list))
  {
    hide Inv, Publish, WithStage, IsCurrent;
    if Open(c, id) {
      PublishKeepsInvariant(c, id, summary, list);
      StageKeepsInvariant(c, id, Finished);
      StageKeepsInvariant(c, id, Recovery);
      if c.loads[id].stage.Attempt? {
        StageKeepsInvariant(c, id, Attempt(c.loads[id].stage.n + 1));
      }
    }
  }

  lemma StepKeepsInvariant(c: Client, e: Event)
    requires Inv(c)
    ensures Inv(Next(c, e).client)
  {
    hide Settle;
    if e.Settles? {
      SettleKeepsInvariant(c, e.id, e.summary, e.list);
    }
  }

  lemma {:induction false} RunsKeepInvariant(es: seq<Event>)
    ensures Inv(After(es).client)
  {
    if es != [] {
      var before := es[..|es| - 1];
      RunsKeepInvariant(before);
      StepKeepsInvariant(After(before).client, es[|es| - 1]);
      assert After(es).client == Next(After(before).client, es[|es| - 1]).client;
    }
  }

  lemma {:induction false} HonestRunsKeepFresh(es: seq<Event>)
    requires IsRun(es) && HonestRun(es)
    ensures FreshInv(After(es))
  {
    if es != [] {
      var before := es[..|es| - 1];
      RunsKeepInvariant(before);
      HonestRunsKeepFresh(before);
      StepKeepsFresh(After(before), es[|es| - 1]);
    }
  }

  lemma StepKeepsFresh(w: World, e: Event)
    requires Inv(w.client) && FreshInv(w) && Enabled(w, e) && Honest(w, e)
    ensures FreshInv(Move(w, e))
    ensures e != SignOut ==> w.client.published <= Move(w, e).client.published
  {
    if e.Settles? {
      SettlingKeepsFresh(w, e);
    } else {
      hide Settle;
    }
  }

  lemma SettlingKeepsFresh(w: World, e: Event)
    requires e.Settles? && Inv(w.client) && FreshInv(w) && Enabled(w, e) && Honest(w, e)
    ensures FreshInv(Move(w, e)) && w.client.published <= Move(w, e).client.published
  {
    hide Publish;
    PublishingKeepsFresh(w, e.id, e.summary, e.list);
  }

  lemma PublishingKeepsFresh(w: World, id: nat, summary: Reply, list: Reply)
    requires var e := Settles(id, summary, list); Inv(w.client) && FreshInv(w) && Enabled(w, e) && Honest(w, e)
    ensures var c := Publish(w.client, id, summary, list);
      && c.published >= w.client.published && c.requested <= w.server
      && c.current == w.client.current && c.loads.Keys == w.client.loads.Keys
      && (c.current.Some? ==> Open(c, c.current.value) ==> c.current.value != id && c.published == w.client.published)
      && (forall other :: other != id ==> (Open(c, other) <==> Open(w.client, other)))
  {
  }

  /** Between sign-outs the published list revision never goes backwards. */
  lemma {:induction false} PublishedNeverGoesBack(es: seq<Event>, i: nat)
    requires IsRun(es) && HonestRun(es) && i <= |es|
    requires forall j :: i <= j < |es| ==> es[j] != SignOut
    ensures After(es[..i]).client.published <= After(es).client.published
  {
    if i == |es| {
      assert es[..i] == es;
    } else {
      var before := es[..|es| - 1];
      assert before[..i] == es[..i];
      PublishedNeverGoesBack(before, i);
      RunsKeepInvariant(before);
      HonestRunsKeepFresh(before);
      StepKeepsFresh(After(before), es[|es| - 1]);
    }
  }

  /** A list goes up only by the settling of the one current load, which is then finished, and goes
      down only when a year is selected or the list is cleared. */
  lemma ListComesFromCurrentLoad(es: seq<Event>, e: Event)
    requires Next(After(es).client, e).client.listBy != After(es).client.listBy
    ensures var c, d := After(es).client, Next(After(es).client, e).client;
      match d.listBy {
        case None => e.SelectYear? || e.ClearList?
        case Some(id) => e.Settles? && e.id == id && IsCurrent(c, id) && e.list.Ok? && !Open(d, id)
      }
  {
    hide Settle, IsCurrent, Open;
    if e.Settles? {
      SettlingPutsOwnListUp(After(es).client, e.id, e.summary, e.list);
    }
  }

  lemma SettlingPutsOwnListUp(c: Client, id: nat, summary: Reply, list: Reply)
    requires Settle(c, id, summary, list).listBy != c.listBy
    ensures var d := Settle(c, id, summary, list);
      d.listBy == Some(id) && IsCurrent(c, id) && list.Ok? && !Open(d, id)
  {
  }

  // ----- the year on display -----

  predicate Advanced(stage: Stage) { stage.Recovery? || (stage.Attempt? && stage.n > 0) }

  /** The latest request is of the year on display once past its first attempt, and so is the list. */
  predicate YearInv(c: Client) {
    && (c.current.Some? && c.current.value in c.loads && Advanced(c.loads[c.current.value].stage) ==>
          c.loads[c.current.value].scope == c.scopeKey)
    && (c.listBy.Some? ==> c.listBy.value in c.loads && c.loads[c.listBy.value].scope == c.scopeKey)
  }

  lemma SettleKeepsYear(c: Client, id: nat, summary: Reply, list: Reply)
    requires Inv(c) && YearInv(c)
    ensures YearInv(Settle(c, id, summary, list))
  {
  }

  lemma StepKeepsYear(c: Client, e: Event)
    requires Inv(c) && YearInv(c)
    ensures YearInv(Next(c, e).client)
  {
    hide Settle;
    if e.Settles? {
      SettleKeepsYear(c, e.id, e.summary, e.list);
    }
  }

  lemma {:induction false} RunsKeepYear(es: seq<Event>)
    ensures YearInv(After(es).client)
  {
    if es != [] {
      var before := es[..|es| - 1];
      RunsKeepInvariant(before);
      RunsKeepYear(before);
      StepKeepsYear(After(before).client, es[|es| - 1]);
      assert After(es).client == Next(After(before).client, es[|es| - 1]).client;
    }
  }

  predicate IsFinishedOf(c: Client, id: nat, year: string) {
    id in c.loads && c.loads[id].scope == year && c.loads[id].stage == Finished
  }

  /** In every run the list on display is of the year on display, by a finished load. */
  lemma ListIsOfItsYear(es: seq<Event>)
    ensures var c := After(es).client; c.listBy.Some? ==> IsFinishedOf(c, c.listBy.value, c.scopeKey)
  {
    RunsKeepInvariant(es);
    RunsKeepYear(es);
  }

  /** A load that publishes shows at least the watermark wanted when it began; if nothing newer
      was asked for meanwhile, display and watermark meet. */
  lemma PublishingCatchesUp(es: seq<Event>, e: Event)
    requires IsRun(es) && HonestRun(es) && e.Settles?
    requires Enabled(After(es), e) && Honest(After(es), e)
    requires Move(After(es), e).client.listBy != After(es).client.listBy
    ensures var w := After(es); var c := Move(w, e).client;
      && e.id in w.wanted && w.wanted[e.id] <= c.published
      && (w.client.requested == w.wanted[e.id] ==> c.requested == c.published)
  {
    RunsKeepInvariant(es);
    HonestRunsKeepFresh(es);
  }

  /** A request that has been superseded or cancelled is never current again. */
  lemma {:induction false} SupersededStaysSuperseded(es: seq<Event>, i: nat, id: nat)
    requires i <= |es|
    requires id in After(es[..i]).client.loads && After(es[..i]).client.current != Some(id)
    ensures id in After(es).client.loads && After(es).client.current != Some(id)
  {
    if i == |es| {
      assert es[..i] == es;
    } else {
      var before := es[..|es| - 1];
      assert before[..i] == es[..i];
      SupersededStaysSuperseded(before, i, id);
      RunsKeepInvariant(before);
      StepKeepsSuperseded(After(before).client, es[|es| - 1], id);
      assert After(es).client == Next(After(before).client, es[|es| - 1]).client;
    }
  }

  lemma StepKeepsSuperseded(c: Client, e: Event, id: nat)
    requires Inv(c) && id in c.loads && c.current != Some(id)
    ensures id in Next(c, e).client.loads && Next(c, e).client.current != Some(id)
  {
    hide Settle;
    if e.Settles? {
      SettlingKeepsRequests(c, e.id, e.summary, e.list);
    }
  }

  lemma SettlingKeepsRequests(c: Client, id: nat, summary: Reply, list: Reply)
    ensures var d := Settle(c, id, summary, list); d.current == c.current && d.loads.Keys == c.loads.Keys
  {
    hide IsCurrent;
  }

  /** The summary, unlike the list, is not held back from a load that is no longer current: exactly
      when that load had reached the recovery fetch and both of its replies succeed. */
  lemma StaleSummaryExactlyFromRecovery(c: Client, id: nat, summary: Reply, list: Reply)
    requires Inv(c) && Open(c, id) && !IsCurrent(c, id) && c.summaryBy != Some(id)
    ensures Settle(c, id, summary, list).summaryBy == Some(id) <==>
            c.loads[id].stage == Recovery && summary.Ok? && list.Ok?
    ensures Settle(c, id, summary, list).listBy == c.listBy
  {
  }

  /** Summary and list put up together report one revision, unless they came by recovery. */
  lemma DivergentPairOnlyFromRecovery(c: Client, id: nat, summary: Reply, list: Reply)
    requires Inv(c) && Open(c, id) && summary.Ok? && list.Ok?
    requires Settle(c, id, summary, list).listBy != c.listBy
    ensures c.loads[id].stage != Recovery ==>
              summary.revision.Some? && summary.revision == list.revision
    ensures Settle(c, id, summary, list).summaryBy == Some(id)
  {
  }

  /** Beginning a load, and cancelling, abort the request before: its fetches reject. */
  predicate AbortHonoured(c: Client, e: Event) {
    e.Settles? && c.current != Some(e.id) ==> e.summary == Rejected && e.list == Rejected
  }

  /** So although the recovery fetch does not check, in every run with aborts honoured a summary goes up
      only by the settling of the one current load, for the year on display. */
  lemma SummaryComesFromLatestRequest(es: seq<Event>, e: Event)
    requires Enabled(After(es), e) && AbortHonoured(After(es).client, e)
    requires Next(After(es).client, e).client.summaryBy != After(es).client.summaryBy
    ensures e.Settles? && IsCurrent(After(es).client, e.id) && e.summary.Ok?
    ensures Next(After(es).client, e).client.summaryBy == Some(e.id)
  {
    RunsKeepInvariant(es);
    RunsKeepYear(es);
  }

  /** The latest load is not of the year on display, and has not got past its first attempt. */
  predicate Stranded(c: Client) { c.current.Some? ==> IsForeign(c, c.current.value) }

  predicate IsForeign(c: Client, id: nat) {
    id in c.loads && c.loads[id].scope != c.scopeKey && !Advanced(c.loads[id].stage)
  }

  lemma StepKeepsStranded(c: Client, e: Event)
    requires Inv(c) && Stranded(c) && AbortHonoured(c, e) && !e.Begin? && !e.SelectYear?
    ensures var d := Next(c, e).client;
      Stranded(d) && d.summaryBy == c.summaryBy && (d.listBy == c.listBy || d.listBy == None)
  {
  }

  lemma BeginStrands(c: Client, e: Event)
    requires e.Begin? && e.query != c.scopeKey
    ensures var d := Next(c, e).client; Stranded(d) && d.summaryBy == c.summaryBy && d.listBy == c.listBy
  {
  }

  lemma AfterIsNext(es: seq<Event>)
    requires es != []
    ensures After(es).client == Next(After(es[..|es| - 1]).client, es[|es| - 1]).client
  {
  }

  /** A load begun for another year than the one on display supersedes the load of that year and can put
      up nothing itself: until another load begins, nothing goes up. */
  lemma {:induction false} OtherYearLoadStrands(es: seq<Event>, i: nat)
    requires i < |es| && es[i].Begin? && es[i].query != After(es[..i]).client.scopeKey
    requires forall k :: i < k < |es| ==>
      !es[k].Begin? && !es[k].SelectYear? && AbortHonoured(After(es[..k]).client, es[k])
    ensures var (c, d) := (After(es[..i]).client, After(es).client);
      Stranded(d) && d.summaryBy == c.summaryBy && (d.listBy == c.listBy || d.listBy == None)
  {
    hide Next, AbortHonoured, Stranded, Inv;
    var last := |es| - 1;
    var before := es[..last];
    AfterIsNext(es);
    if i == last {
      BeginStrands(After(before).client, es[i]);
    } else {
      assert before[..i] == es[..i];
      forall k | i < k < last ensures AbortHonoured(After(before[..k]).client, before[k]) {
        assert before[..k] == es[..k];
      }
      OtherYearLoadStrands(before, i);
      RunsKeepInvariant(before);
      StepKeepsStranded(After(before).client, es[last]);
    }
  }

  /** After `es` and the beginning `e` of a load, `more` puts up a new list: without another load beginning,
      with an honest server, and with aborts honoured. */
  ghost predicate PutsUp(es: seq<Event>, e: Event, more: seq<Event>) {
    var all := es + [e] + more;
    && (forall k :: |es| < k < |all| ==> IsOwn(all, k))
    && After(all).client.listBy.Some? && After(all).client.listBy != After(es).client.listBy
  }

  predicate IsOwn(all: seq<Event>, k: nat)
    requires k < |all|
  {
    && !all[k].Begin? && !all[k].SelectYear? && AbortHonoured(After(all[..k]).client, all[k])
    && Enabled(After(all[..k]), all[k]) && Honest(After(all[..k]), all[k])
  }

  /** A load that begins after any run can put up its list, before another begins, exactly if it is for the
      year on display. */
  lemma LoadServesItsYearExactly(es: seq<Event>, query: string, hadSnapshot: bool)
    ensures (exists more :: PutsUp(es, Begin(query, hadSnapshot), more)) <==> query == After(es).client.scopeKey
  {
    var e := Begin(query, hadSnapshot);
    if more :| PutsUp(es, e, more) {
      var all := es + [e] + more;
      assert all[..|es|] == es && all[|es|] == e;
      forall k | |es| < k < |all|
        ensures !all[k].Begin? && !all[k].SelectYear? && AbortHonoured(After(all[..k]).client, all[k])
      {
        assert IsOwn(all, k);
      }
      if query != After(es).client.scopeKey {
        OtherYearLoadStrands(all, |es|);
      }
    }
    if query == After(es).client.scopeKey {
      var reply := Ok(Some(After(es).server));
      var settles := Settles(After(es).client.sequence + 1, reply, reply);
      OwnYearServes(es, e, settles);
      assert PutsUp(es, e, [settles]);
    }
  }

  /** A load just begun for the year on display. */
  predicate IsReady(w: World, id: nat) {
    && IsCurrent(w.client, id) && w.client.loads[id].stage == Attempt(0)
    && id in w.floors && w.floors[id] == w.server
  }

  lemma OwnBeginIsReady(w: World, e: Event)
    requires e.Begin? && e.query == w.client.scopeKey
    ensures IsReady(Move(w, e), w.client.sequence + 1) && Move(w, e).server == w.server
  {
  }

  lemma ReadyServes(w: World, e: Event)
    requires e.Settles? && IsReady(w, e.id) && e.summary == Ok(Some(w.server)) && e.list == e.summary
    ensures Enabled(w, e) && Honest(w, e) && AbortHonoured(w.client, e)
    ensures Move(w, e).client.listBy == Some(e.id)
  {
  }

  lemma OwnYearServes(es: seq<Event>, e: Event, settles: Event)
    requires e.Begin? && e.query == After(es).client.scopeKey
    requires var reply := Ok(Some(After(es).server)); settles == Settles(After(es).client.sequence + 1, reply, reply)
    ensures var all := es + [e] + [settles];
      && (forall k :: |es| < k < |all| ==> IsOwn(all, k))
      && After(all).client.listBy == Some(settles.id) && After(es).client.listBy != Some(settles.id)
  {
    hide Move, Next, After, Enabled, Honest, AbortHonoured, IsReady;
    RunsKeepInvariant(es);
    var all := es + [e] + [settles];
    assert all[..|es|] == es && all[..|es| + 1] == es + [e] && all[..|es| + 2] == all;
    AfterStep(all, |es|);
    AfterStep(all, |es| + 1);
    OwnBeginIsReady(After(es), e);
    ReadyServes(After(es + [e]), settles);
  }

  // ----- attempts -----

  predicate StageFits(load: Load) {
    match load.stage
    case Attempt(n) => n < 3
    case Recovery => !load.hadSnapshot
    case Finished => true
  }

  lemma StepKeepsStages(c: Client, e: Event)
    requires forall id <- c.loads :: StageFits(c.loads[id])
    ensures forall id <- Next(c, e).client.loads :: StageFits(Next(c, e).client.loads[id])
  {
  }

  /** In every run a load makes three attempts at most, and only one without a snapshot a recovery fetch. */
  lemma {:induction false} AttemptsAreBounded(es: seq<Event>)
    ensures forall id <- After(es).client.loads :: StageFits(After(es).client.loads[id])
  {
    hide Next, Begun;
    if es != [] {
      AttemptsAreBounded(es[..|es| - 1]);
      StepKeepsStages(After(es[..|es| - 1]).client, es[|es| - 1]);
      AfterIsNext(es);
    }
  }

  predicate Agree(summary: Reply, list: Reply)
    requires summary.Ok? && list.Ok?
  {
    summary.revision.Some? && summary.revision == list.revision
  }

  /** How the current load goes on when an attempt settles: replies that agree, or of which one failed, go on
      display and end it; replies that diverge show nothing and are tried again, up to the third time. Then a
      load with a snapshot gives up, and one without makes a recovery fetch. */
  lemma AttemptSettles(es: seq<Event>, id: nat, summary: Reply, list: Reply)
    requires var c := After(es).client; IsCurrent(c, id) && c.loads[id].stage.Attempt?
    ensures var (c, d) := (After(es).client, Next(After(es).client, Settles(id, summary, list)).client);
      var load := c.loads[id];
      && d.loads.Keys == c.loads.Keys
      && if summary.Ok? && list.Ok? && !Agree(summary, list) then
           d == c.(loads := c.loads[id := load.(stage :=
             if load.stage.n < 2 then Attempt(load.stage.n + 1) else if load.hadSnapshot then Finished else Recovery)])
         else
           && d.loads[id].stage == Finished
           && d.summaryBy == (if summary.Ok? then Some(id) else c.summaryBy)
           && d.listBy == (if list.Ok? then Some(id) else c.listBy)
           && d.published == (if list.Ok? then list.revision.GetOr(0) else c.published)
           && d.requested == (if d.published > c.requested then d.published else c.requested)
  {
    RunsKeepInvariant(es);
    AttemptsAreBounded(es);
  }

  /** A recovery fetch shows both replies, agreeing or not, if both succeed, and else nothing; it ends the load
      either way. */
  lemma RecoverySettles(es: seq<Event>, id: nat, summary: Reply, list: Reply)
    requires var c := After(es).client; IsCurrent(c, id) && c.loads[id].stage.Recovery?
    ensures var (c, d) := (After(es).client, Next(After(es).client, Settles(id, summary, list)).client);
      && d.loads[id].stage == Finished
      && if summary.Ok? && list.Ok? then
           d.summaryBy == d.listBy == Some(id) && d.published == list.revision.GetOr(0)
         else
           d == c.(loads := d.loads)
  {
    RunsKeepInvariant(es);
  }

  /** What each other step of the page leaves: a year selected is on display, without a list, and its load is
      the current one; leaving the page or signing out ends that, and signing out resets the watermarks. */
  lemma PageStepsLeave(es: seq<Event>, year: string)
    ensures var c := After(es).client;
      && (var d := Next(c, SelectYear(year)).client;
          && d.scopeKey == year && d.listBy == None
          && IsCurrent(d, c.sequence + 1) && !d.loads[c.sequence + 1].hadSnapshot
          && d.summaryBy == c.summaryBy && d.published == c.published && d.requested == c.requested)
      && Next(c, ClearList).client == c.(listBy := None)
      && (var d := Next(c, Unmount).client; d == c.(current := None, sequence := d.sequence) && d.sequence > c.sequence)
      && (var d := Next(c, SignOut).client;
          && d.current == None && d.sequence > c.sequence && d.published == d.requested == 0 && !d.sseInitialized
          && d.loads == c.loads && d.scopeKey == c.scopeKey && d.listBy == c.listBy && d.summaryBy == c.summaryBy)
  {
  }

  // ----- a retry can be of a year no longer on display -----

  predicate HonouredRun(es: seq<Event>) {
    es == [] || (HonouredRun(es[..|es| - 1]) && AbortHonoured(After(es[..|es| - 1]).client, es[|es| - 1]))
  }

  /** Runs the browser and an honest server can make. */
  predicate IsRealRun(es: seq<Event>) { IsRun(es) && HonestRun(es) && HonouredRun(es) }

  lemma RunGrows(es: seq<Event>, e: Event)
    requires IsRealRun(es)
    requires Enabled(After(es), e) && Honest(After(es), e) && AbortHonoured(After(es).client, e)
    ensures IsRealRun(es + [e]) && After(es + [e]) == Move(After(es), e)
  {
    assert (es + [e])[..|es|] == es;
  }

  lemma NoEventsYet()
    ensures IsRealRun([]) && After([]) == START
  {
  }

  /** The last diverging attempt of a load whose list is on display: lines 626-634 set a timer that begins a
      load for the same query. */
  predicate ArmsRetry(c: Client, e: Event) {
    && e.Settles? && IsCurrent(c, e.id) && c.loads[e.id].hadSnapshot
    && c.loads[e.id].stage == Attempt(ATTEMPTS - 1) && e.summary.Ok? && e.list.Ok?
    && !(e.summary.revision.Some? && e.summary.revision == e.list.revision)
  }

  /** The first year is on display, and a second load of it has begun. */
  lemma ShownYear(a: string) returns (es: seq<Event>)
    ensures IsRealRun(es) && |es| == 3
    ensures var w := After(es); var c := w.client;
      && c.loads.Keys == {1, 2} && c.loads[2] == Load(a, true, Attempt(0)) && c.current == Some(2) && c.sequence == 2
      && c.scopeKey == a && c.listBy == Some(1) && w.server == 0 && w.floors == map[1 := 0, 2 := 0]
  {
    hide IsRealRun, After;
    var select, agree, start := SelectYear(a), Settles(1, Ok(Some(0)), Ok(Some(0))), Begin(a, true);
    NoEventsYet();
    RunGrows([], select);
    RunGrows([] + [select], agree);
    RunGrows([] + [select] + [agree], start);
    es := [] + [select] + [agree] + [start];
  }

  /** That load diverges three times; the list stays, and a retry is set. */
  lemma RetriedYear(a: string) returns (es: seq<Event>)
    ensures IsRealRun(es) && |es| == 6 && ArmsRetry(After(es[..5]).client, es[5]) && es[5].id == 2
    ensures var w := After(es); var c := w.client;
      && 2 in c.loads && c.loads[2].scope == a && c.current == Some(2) && c.sequence == 2
      && c.scopeKey == a && c.listBy == Some(1) && w.server == 0
  {
    hide IsRealRun, After;
    var differ := Settles(2, Ok(None), Ok(Some(0)));
    var shown := ShownYear(a);
    RunGrows(shown, differ);
    RunGrows(shown + [differ], differ);
    RunGrows(shown + [differ] + [differ], differ);
    es := shown + [differ] + [differ] + [differ];
    assert es[..5] == shown + [differ] + [differ] && es[5] == differ;
  }

  /** It happens: another year is selected before the timer fires, whose retry then supersedes the load of
      the selected year. That year is on display without a list, and nothing will put one up before another
      load begins. */
  lemma OldRetryStrandsNewYear(a: string, b: string) returns (es: seq<Event>)
    requires a != b
    ensures IsRealRun(es) && |es| == 8
    ensures ArmsRetry(After(es[..5]).client, es[5]) && es[6] == SelectYear(b)
    ensures es[7] == Begin(After(es[..5]).client.loads[es[5].id].scope, true)
    ensures var c := After(es).client; Stranded(c) && c.scopeKey == b && c.listBy == None && c.current == Some(4)
  {
    hide IsRealRun, After, ArmsRetry;
    var retried := RetriedYear(a);
    var select, retry := SelectYear(b), Begin(a, true);
    RunGrows(retried, select);
    RunGrows(retried + [select], retry);
    es := retried + [select] + [retry];
    assert es[..5] == retried[..5] && es[5] == retried[5];
    RetryIsOfItsLoad(retried, a);
  }

  lemma RetryIsOfItsLoad(es: seq<Event>, a: string)
    requires |es| == 6 && ArmsRetry(After(es[..5]).client, es[5])
    requires es[5].id in After(es).client.loads && After(es).client.loads[es[5].id].scope == a
    ensures After(es[..5]).client.loads[es[5].id].scope == a
  {
    AfterStep(es, 5);
    assert es[..6] == es;
  }

  // ----- events reach the display -----

  lemma PrefixOfRun(es: seq<Event>, k: nat)
    requires IsRun(es) && HonestRun(es) && k <= |es|
    ensures IsRun(es[..k]) && HonestRun(es[..k])
    decreases |es| - k
  {
    if k < |es| {
      PrefixOfRun(es, k + 1);
      assert es[..k + 1][..k] == es[..k];
    } else {
      assert es[..k] == es;
    }
  }

  lemma AfterStep(es: seq<Event>, k: nat)
    requires k < |es|
    ensures After(es[..k + 1]) == Move(After(es[..k]), es[k])
  {
    assert es[..k + 1][..k] == es[..k];
  }

  lemma StepKeepsRequested(w: World, e: Event)
    requires e != SignOut
    ensures w.client.requested <= Move(w, e).client.requested
  {
  }

  /** Between sign-outs the requested watermark never falls. */
  lemma {:induction false} RequestedNeverFalls(es: seq<Event>, i: nat, j: nat)
    requires i <= j <= |es| && forall k :: i <= k < j ==> es[k] != SignOut
    ensures After(es[..i]).client.requested <= After(es[..j]).client.requested
  {
    if i < j {
      RequestedNeverFalls(es, i, j - 1);
      AfterStep(es, j - 1);
      StepKeepsRequested(After(es[..j - 1]), es[j - 1]);
    }
  }

  lemma StepKeepsWanted(w: World, e: Event, id: nat)
    requires id <= w.client.sequence && id in w.wanted
    ensures id <= Move(w, e).client.sequence && id in Move(w, e).wanted && Move(w, e).wanted[id] == w.wanted[id]
  {
  }

  lemma {:induction false} WantedStays(es: seq<Event>, j: nat, k: nat, id: nat)
    requires j <= k <= |es| && id <= After(es[..j]).client.sequence && id in After(es[..j]).wanted
    ensures id <= After(es[..k]).client.sequence && id in After(es[..k]).wanted
    ensures After(es[..k]).wanted[id] == After(es[..j]).wanted[id]
  {
    if j < k {
      WantedStays(es, j, k - 1, id);
      AfterStep(es, k - 1);
      StepKeepsWanted(After(es[..k - 1]), es[k - 1], id);
    }
  }

  predicate Begins(e: Event) { e.Begin? || e.SelectYear? }

  /** Refresh-worthy, and not the first event since sign-in with nothing published. */
  predicate IsHeeded(c: Client, refreshable: bool) { refreshable && (c.sseInitialized || c.published != 0) }

  /** The stream handler asks for a refresh exactly for a heeded event that names no revision, or one above
      both watermarks; anything else leaves the watermarks alone. */
  lemma RefreshIsAskedExactly(es: seq<Event>, revision: Option<nat>, refreshable: bool)
    ensures var (c, effect) := (After(es).client, Next(After(es).client, SyncEvent(revision, refreshable)));
      && (effect.refresh <==>
            IsHeeded(c, refreshable)
            && (revision.None? || (revision.value > c.requested && revision.value > c.published)))
      && effect.client == c.(sseInitialized := true,
                             requested := if effect.refresh && revision.Some? then revision.value else c.requested)
  {
    RunsKeepInvariant(es);
  }

  /** No other step asks for one. */
  lemma OnlyEventsAskForRefresh(c: Client, e: Event)
    ensures Next(c, e).refresh ==> e.SyncEvent?
  {
  }

  /** Since the last sign-out an event announced the revision now requested, and asked for a refresh. */
  predicate AnnouncedAt(es: seq<Event>, i: nat)
    requires i < |es|
  {
    && es[i] == SyncEvent(Some(After(es).client.requested), true)
    && Next(After(es[..i]).client, es[i]).refresh
    && SignOut !in es[i..]
  }

  lemma AnnouncementStays(es: seq<Event>, i: nat)
    requires i < |es| - 1 && AnnouncedAt(es[..|es| - 1], i)
    requires es[|es| - 1] != SignOut && After(es).client.requested == After(es[..|es| - 1]).client.requested
    ensures AnnouncedAt(es, i)
  {
    hide After, Next;
    var before, last := es[..|es| - 1], es[|es| - 1];
    assert before[..i] == es[..i] && es[i..] == before[i..] + [last];
  }

  /** The requested watermark is ahead of what is published only because the stream announced that very
      revision and asked for a refresh: no announcement raises it silently. */
  lemma {:induction false} AheadMeansAskedFor(es: seq<Event>)
    requires IsRun(es) && HonestRun(es) && After(es).client.requested > After(es).client.published
    ensures exists i :: 0 <= i < |es| && AnnouncedAt(es, i)
  {
    hide Next, AnnouncedAt, Honest, Enabled, FreshInv, Inv;
    if es == [] {
      NothingIsAhead();
    } else {
      var before, last := es[..|es| - 1], es[|es| - 1];
      RunsKeepInvariant(before);
      HonestRunsKeepFresh(before);
      StepKeepsFresh(After(before), last);
      StepRaises(After(before), last);
      if After(es).client.requested == After(before).client.requested && last != SignOut {
        AheadMeansAskedFor(before);
        var i :| 0 <= i < |before| && AnnouncedAt(before, i);
        AnnouncementStays(es, i);
      } else {
        AnnouncedLast(es);
      }
    }
  }

  lemma NothingIsAhead()
    ensures After([]).client.requested == After([]).client.published
  {
  }

  /** What can put the requested watermark ahead. */
  lemma StepRaises(w: World, e: Event)
    requires Inv(w.client)
    ensures var (c, effect) := (w.client, Next(w.client, e));
      && effect.client == Move(w, e).client
      && (effect.client.requested != c.requested && effect.client.requested > effect.client.published ==>
            e == SyncEvent(Some(effect.client.requested), true) && effect.refresh)
      && (e == SignOut ==> effect.client.requested == effect.client.published)
  {
  }

  lemma AnnouncedLast(es: seq<Event>)
    requires es != [] && es[|es| - 1] == SyncEvent(Some(After(es).client.requested), true)
    requires Next(After(es[..|es| - 1]).client, es[|es| - 1]).refresh
    ensures AnnouncedAt(es, |es| - 1)
  {
    assert es[|es| - 1..] == [es[|es| - 1]];
  }

  /** End to end: once the stream announces a revision, whatever overlaps in between, every load begun
      after that and publishing shows that revision or a later one, until sign-out. */
  lemma AnnouncedRevisionsAreShown(es: seq<Event>, i: nat, r: nat, j: nat, k: nat)
    requires IsRun(es) && HonestRun(es) && i < j < k < |es|
    requires es[i] == SyncEvent(Some(r), true) && IsHeeded(After(es[..i]).client, true)
    requires Begins(es[j]) && forall n :: i <= n < k ==> es[n] != SignOut
    requires es[k].Settles? && es[k].id == After(es[..j + 1]).client.sequence
    requires After(es[..k + 1]).client.listBy != After(es[..k]).client.listBy
    ensures After(es[..k + 1]).client.published >= r
  {
    hide IsRun, HonestRun, Honest, Enabled, After, Move;
    RequestedAfterEvent(es, i, r);
    RequestedNeverFalls(es, i + 1, j);
    var id := es[k].id;
    WantedWhenBegun(es, j);
    WantedStays(es, j + 1, k, id);
    PrefixOfRun(es, k);
    StepIsProper(es, k);
    AfterStep(es, k);
    PublishingCatchesUp(es[..k], es[k]);
  }

  lemma RequestedAfterEvent(es: seq<Event>, i: nat, r: nat)
    requires i < |es| && es[i] == SyncEvent(Some(r), true) && IsHeeded(After(es[..i]).client, true)
    ensures After(es[..i + 1]).client.requested >= r
  {
    AfterStep(es, i);
    RunsKeepInvariant(es[..i]);
  }

  lemma WantedWhenBegun(es: seq<Event>, j: nat)
    requires j < |es| && Begins(es[j])
    ensures var (v, w) := (After(es[..j]), After(es[..j + 1]));
      w.client.sequence in w.wanted && w.wanted[w.client.sequence] == v.client.requested
  {
    AfterStep(es, j);
  }

  lemma StepIsProper(es: seq<Event>, k: nat)
    requires IsRun(es) && HonestRun(es) && k < |es|
    ensures Enabled(After(es[..k]), es[k]) && Honest(After(es[..k]), es[k])
  {
    PrefixOfRun(es, k + 1);
    assert es[..k + 1][..k] == es[..k];
  }

  // ----- the object of the source -----

  class Session {
    const coordinator: LatestRequest.Coordinator
    var requests: map<nat, LatestRequest.Request>
    var loads: map<nat, Load>
    var scopeKey: string
    var published: nat
    var requested: nat
    var sseInitialized: bool
    var summaryBy: Option<nat>
    var listBy: Option<nat>

    ghost predicate Valid()
      reads this, coordinator, coordinator.issued
    {
      && coordinator.Valid()
      && requests.Keys == loads.Keys
      && (forall id <- requests ::
            requests[id] in coordinator.issued && requests[id].id == id && requests[id].scopeKey == loads[id].scope)
      && (coordinator.currentRequest != null ==>
            coordinator.currentRequest.id in requests
            && requests[coordinator.currentRequest.id] == coordinator.currentRequest)
    }

    ghost function View(): Client
      reads this, coordinator, coordinator.currentRequest
    {
      Client(coordinator.sequence,
             if coordinator.currentRequest == null then None else Some(coordinator.currentRequest.id),
             scopeKey, loads, published, requested, sseInitialized, summaryBy, listBy)
    }

    constructor ()
      ensures Valid() && View() == INITIAL && fresh(coordinator)
    {
      coordinator := new LatestRequest.Coordinator();
      requests, loads, scopeKey := map[], map[], "";
      published, requested, sseInitialized := 0, 0, false;
      summaryBy, listBy := None, None;
    }

    /** `fetchDashboardData` up to its first `await`. */
    method Begin(query: string, hadSnapshot: bool)
      requires Valid()
      modifies this, coordinator, coordinator.issued
      ensures Valid() && View() == Next(old(View()), Event.Begin(query, hadSnapshot)).client
    {
      var request := coordinator.Begin(query);
      requests := requests[request.id := request];
      loads := loads[request.id := Load(query, hadSnapshot, Attempt(0))];
    }

    method SetStage(id: nat, stage: Stage)
      requires Valid() && id in loads
      modifies this`loads
      ensures Valid() && View() == WithStage(old(View()), id, stage)
    {
      loads := loads[id := loads[id].(stage := stage)];
    }

    /** Lines 658-709: what a load whose replies are accepted puts on display. */
    method PutOnDisplay(id: nat, summary: Reply, list: Reply)
      requires Valid() && id in loads
      modifies this`summaryBy, this`listBy, this`published, this`requested
      ensures Valid() && View() == PutUp(old(View()), id, summary, list)
    {
      var current := coordinator.IsCurrent(requests[id], scopeKey);
      assert current == IsCurrent(View(), id);
      if summary.Ok? {
        summaryBy := Some(id);
      }
      if list.Ok? && current {
        listBy := Some(id);
        published := list.revision.GetOr(0);
        if published >= requested {
          requested := published;
        }
      }
    }

    method Finish(id: nat, summary: Reply, list: Reply)
      requires Valid() && id in loads
      modifies this`summaryBy, this`listBy, this`published, this`requested, this`loads
      ensures Valid() && View() == Publish(old(View()), id, summary, list)
    {
      hide PutUp, WithStage;
      PutOnDisplay(id, summary, list);
      SetStage(id, Finished);
    }

    /** From both settled replies of load `id` to its next fetch, or to its end. */
    method Settles(id: nat, summary: Reply, list: Reply)
      requires Valid() && Open(View(), id)
      modifies this
      ensures Valid() && View() == Settle(old(View()), id, summary, list)
    {
      hide Publish, WithStage;
      match loads[id].stage
      case Attempt(n) =>
        if !coordinator.IsCurrent(requests[id], scopeKey) {
          SetStage(id, Finished);
        } else if !summary.Ok? || !list.Ok?
               || (summary.revision.Some? && summary.revision == list.revision) {
          Finish(id, summary, list);
        } else if n + 1 < ATTEMPTS {
          SetStage(id, Attempt(n + 1));
        } else if loads[id].hadSnapshot {
          SetStage(id, Finished);
        } else {
          SetStage(id, Recovery);
        }
      case Recovery =>
        if summary.Ok? && list.Ok? {
          Finish(id, summary, list);
        } else {
          SetStage(id, Finished);
        }
    }

    /** A year is selected: lines 483-491 or 2110-2119, then the effects of lines 459-463 and 1375-1381. */
    method SelectYear(year: string)
      requires Valid()
      modifies this, coordinator, coordinator.issued
      ensures Valid() && View() == Next(old(View()), Event.SelectYear(year)).client
    {
      listBy := None;
      scopeKey := year;
      Begin(year, false);
    }

    /** Lines 2111-2112 when the year stays as it is. */
    method ClearList()
      requires Valid()
      modifies this`listBy
      ensures Valid() && View() == Next(old(View()), Event.ClearList).client
    {
      listBy := None;
    }

    /** The stream handler `onEvent`; the result asks the refresh runner for a refresh. */
    method OnEvent(revision: Option<nat>, refreshable: bool) returns (refresh: bool)
      requires Valid()
      modifies this
      ensures Valid() && Effect(View(), refresh) == Next(old(View()), SyncEvent(revision, refreshable))
    {
      if !sseInitialized {
        sseInitialized := true;
        if published == 0 { return false; }
      }
      if !refreshable { return false; }
      var known := if requested > published then requested else published;
      if revision.None? || revision.value > known {
        if revision.Some? { requested := revision.value; }
        return true;
      }
      return false;
    }

    method Unmount()
      requires Valid()
      modifies this, coordinator, coordinator.issued
      ensures Valid() && View() == Next(old(View()), Event.Unmount).client
    {
      coordinator.Cancel();
    }

    method SignOut()
      requires Valid()
      modifies this, coordinator, coordinator.issued
      ensures Valid() && View() == Next(old(View()), Event.SignOut).client
    {
      coordinator.Cancel();
      sseInitialized := false;
      published, requested := 0, 0;
    }
  }
}
