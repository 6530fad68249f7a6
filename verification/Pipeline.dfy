/** From code location definitions to served endpoints: sync, reconcile, heartbeat, query. */
module Pipeline {
  import opened Collections
  import opened Endpoints
  import opened Launcher
  import opened LauncherRuns
  import opened Heartbeats
  import opened HeartbeatRuns
  import RequestQueue

  type Labels = RequestQueue.Labels

  datatype Definition = Definition(
    name: Location,
    deployMetadata: map<string, string>,
    labels: Option<Labels>,
    status: string)

  // ---- The webserver's workspace-entries query ----

  predicate Selected(d: Definition, labels: Option<Labels>, names: Option<seq<Location>>) {
    && d.status == "active"
    && (names.None? || names.value == [] || d.name in names.value)
    && (labels.None? || labels.value == map[] || RequestQueue.LabelsMatch(d.labels, labels.value))
  }

  function IsSelected(labels: Option<Labels>, names: Option<seq<Location>>): Definition -> bool {
    (d: Definition) => Selected(d, labels, names)
  }

  function WorkspaceEntries(
      defs: seq<Definition>, labels: Option<Labels>, names: Option<seq<Location>>): seq<Definition>
  {
    Filter(defs, IsSelected(labels, names))
  }

  function Join(names: seq<Location>, separator: string): string
    requires names != []
  {
    if |names| == 1 then names[0] else names[0] + separator + Join(names[1..], separator)
  }

  /** The client sends one location_name parameter, the names joined by commas; the server does not split it. */
  function QueriedNames(allowed: Option<seq<Location>>): Option<seq<Location>> {
    if allowed.None? || allowed.value == [] then None else Some([Join(allowed.value, ",")])
  }

  function Fetched(defs: seq<Definition>, labels: Labels, allowed: Option<seq<Location>>): seq<Definition> {
    WorkspaceEntries(defs, if labels == map[] then None else Some(labels), QueriedNames(allowed))
  }

  // ---- The agent ----

  function EntryOf(d: Definition): Entry {
    Entry(d.name, d.deployMetadata, d.labels)
  }

  /** The desired map, later definitions overwriting earlier ones of the same name. */
  function DesiredOf(locs: seq<Definition>): map<Location, Entry>
    decreases |locs|
  {
    if locs == [] then map[]
    else DesiredOf(locs[..|locs| - 1])[locs[|locs| - 1].name := EntryOf(locs[|locs| - 1])]
  }

  function ServerReport(e: Endpoint): Json {
    JObject(map["status" := JString("running"), "endpoint" := JString(e.Address())])
  }

  function ReportMap(s: State): map<string, Json> {
    map k | k in s.servers && s.servers[k].Up? :: ServerReport(s.servers[k].endpoint)
  }

  /** The code_server_heartbeats an agent sends: one running entry per endpoint, or null when it has none. */
  function ReportOf(s: State): Json {
    if ReportMap(s) == map[] then JNull else JObject(ReportMap(s))
  }

  class Agent {
    const labels: Labels
    const allowedLocations: Option<seq<Location>>
    var workspaceSyncs: nat
    var heartbeatsSent: nat

    constructor (labels: Labels, allowedLocations: Option<seq<Location>>)
      ensures this.labels == labels && this.allowedLocations == allowedLocations
      ensures workspaceSyncs == 0 && heartbeatsSent == 0
    {
      this.labels, this.allowedLocations := labels, allowedLocations;
      workspaceSyncs, heartbeatsSent := 0, 0;
    }

    /** Fetches the definitions and replaces the launcher's desired set. */
    method SyncWorkspace(defs: seq<Definition>, launcher: ProcessLauncher)
      modifies this`workspaceSyncs, launcher`desiredEntries
      ensures launcher.Contents() ==
        old(launcher.Contents()).(desired := DesiredOf(Fetched(defs, labels, allowedLocations)))
      ensures workspaceSyncs == old(workspaceSyncs) + 1
    {
      var locations := Fetched(defs, labels, allowedLocations);
      var desired: map<Location, Entry> := map[];
      var i := 0;
      while i < |locations|
        invariant 0 <= i <= |locations| && desired == DesiredOf(locations[..i])
      {
        assert locations[..i + 1][..i] == locations[..i];
        desired := desired[locations[i].name := EntryOf(locations[i])];
        i := i + 1;
      }
      assert locations[..i] == locations;
      launcher.UpdateGrpcMetadata(desired);
      workspaceSyncs := workspaceSyncs + 1;
    }

    /** Collects one entry per running location and submits the heartbeat. */
    method SendHeartbeat(launcher: ProcessLauncher, table: HeartbeatTable, agentId: string, now: int)
      modifies this`heartbeatsSent, table`rows
      ensures old(Ordered(table.rows, now)) ==> Ordered(table.rows, now)
      ensures table.rows == old(table.rows) + [Heartbeat(agentId, now, Some(ReportOf(launcher.Contents())))]
      ensures heartbeatsSent == old(heartbeatsSent) + 1
    {
      var names := launcher.RunningLocations();
      var reports: map<string, Json> := map[];
      ghost var s := launcher.Contents();
      var i := 0;
      while i < |names|
        invariant 0 <= i <= |names|
        invariant reports == ReportsFor(s, names[..i])
        modifies {}
      {
        hide ReportsFor;
        var endpoint := launcher.GetGrpcEndpoint(names[i]);
        ReportsForMore(s, names, i);
        if endpoint.Some? {
          reports := reports[names[i] := ServerReport(endpoint.value)];
        }
        i := i + 1;
      }
      assert names[..i] == names;
      AllReports(s, names);
      table.Submit(agentId, now, Some(if reports == map[] then JNull else JObject(reports)));
      heartbeatsSent := heartbeatsSent + 1;
    }
  }

  ghost function ReportsFor(s: State, names: seq<Location>): map<string, Json> {
    map k | k in s.servers && s.servers[k].Up? && k in names :: ServerReport(s.servers[k].endpoint)
  }

  lemma ReportsForMore(s: State, names: seq<Location>, i: nat)
    requires i < |names|
    ensures ReportsFor(s, names[..i + 1]) ==
      if names[i] in s.servers && s.servers[names[i]].Up?
      then ReportsFor(s, names[..i])[names[i] := ServerReport(s.servers[names[i]].endpoint)]
      else ReportsFor(s, names[..i])
  {
    assert names[..i + 1] == names[..i] + [names[i]];
  }

  lemma AllReports(s: State, names: seq<Location>)
    requires Enumerates(names, Running(s))
    ensures ReportsFor(s, names) == ReportMap(s)
  {
  }

  // ---- What the agent is asked to run ----

  lemma {:induction false} DesiredNames(locs: seq<Definition>, name: Location)
    ensures name in DesiredOf(locs) <==> exists i :: 0 <= i < |locs| && locs[i].name == name
    decreases |locs|
  {
    if locs != [] {
      var n := |locs| - 1;
      DesiredNames(locs[..n], name);
      if name in DesiredOf(locs[..n]) {
        var i :| 0 <= i < |locs[..n]| && locs[..n][i].name == name;
        assert locs[i].name == name;
      } else if locs[n].name != name {
        forall i | 0 <= i < |locs| && locs[i].name == name ensures locs[..n][i].name == name {
        }
      }
    }
  }

  lemma FetchedIs(defs: seq<Definition>, labels: Labels, d: Definition)
    ensures d in Fetched(defs, labels, None) <==>
      d in defs && d.status == "active" && RequestQueue.LabelsMatch(d.labels, labels)
  {
    InFilter(defs, IsSelected(if labels == map[] then None else Some(labels), None));
  }

  /** Without allowed_locations the agent is asked for exactly the active definitions whose labels match. */
  lemma DesiredIsActiveMatching(defs: seq<Definition>, labels: Labels, name: Location)
    ensures name in DesiredOf(Fetched(defs, labels, None)) <==>
      exists d :: d in defs && d.name == name && d.status == "active" && RequestQueue.LabelsMatch(d.labels, labels)
  {
    var locs := Fetched(defs, labels, None);
    DesiredNames(locs, name);
    if name in DesiredOf(locs) {
      var i :| 0 <= i < |locs| && locs[i].name == name;
      assert locs[i] in locs;
      FetchedIs(defs, labels, locs[i]);
    }
    forall d | d in defs && d.name == name && d.status == "active" && RequestQueue.LabelsMatch(d.labels, labels)
      ensures name in DesiredOf(locs)
    {
      FetchedIs(defs, labels, d);
      var i :| 0 <= i < |locs| && locs[i] == d;
    }
  }

  /** What the query selects for any labels and names: empty ones of either kind select everything active. */
  lemma WorkspaceEntriesAre(
      defs: seq<Definition>, labels: Option<Labels>, names: Option<seq<Location>>, d: Definition)
    ensures d in WorkspaceEntries(defs, labels, names) <==>
      && d in defs && d.status == "active"
      && (names.Some? && names.value != [] ==> d.name in names.value)
      && (labels.Some? && labels.value != map[] ==>
            d.labels.None? || d.labels.value == map[] || d.labels.value + labels.value == d.labels.value)
  {
    InFilter(defs, IsSelected(labels, names));
    if labels.Some? {
      RequestQueue.LabelsMatchIff(d.labels, labels.value);
    }
  }

  /** Spelled out: an active definition without labels, or with all of the agent's labels at their values. */
  lemma FetchedFitTheAgent(defs: seq<Definition>, labels: Labels, d: Definition)
    ensures d in Fetched(defs, labels, None) <==>
      d in defs && d.status == "active" &&
      (d.labels.None? || d.labels.value == map[] || d.labels.value + labels == d.labels.value)
  {
    FetchedIs(defs, labels, d);
    RequestQueue.LabelsMatchIff(d.labels, labels);
  }

  /** The definitions keep their order, and an empty list of allowed locations is as good as none. */
  lemma EmptyAllowedListIsNone(defs: seq<Definition>, labels: Labels)
    ensures Fetched(defs, labels, Some([])) == Fetched(defs, labels, None)
  {
  }

  /** The last definition of a name decides what is desired for it, with its metadata and its labels. */
  lemma {:induction false} DesiredIsTheLastOfItsName(locs: seq<Definition>, i: nat)
    requires i < |locs| && forall j :: i < j < |locs| ==> locs[j].name != locs[i].name
    ensures locs[i].name in DesiredOf(locs)
    ensures DesiredOf(locs)[locs[i].name] == Entry(locs[i].name, locs[i].deployMetadata, locs[i].labels)
    decreases |locs|
  {
    var n := |locs| - 1;
    if i < n {
      assert locs[n].name != locs[i].name;
      forall j | i < j < n ensures locs[..n][j].name != locs[..n][i].name {
        assert locs[..n][j] == locs[j];
      }
      DesiredIsTheLastOfItsName(locs[..n], i);
    }
  }

  /** Joining puts one separator between two lists of names, and a single name is left as it is. */
  lemma {:induction false} JoinAppend(a: seq<Location>, b: seq<Location>, separator: string)
    requires a != [] && b != []
    ensures Join(a + b, separator) == Join(a, separator) + separator + Join(b, separator)
    ensures |a| == 1 ==> Join(a, separator) == a[0]
    decreases |a|
  {
    assert (a + b)[0] == a[0];
    if |a| == 1 {
      assert (a + b)[1..] == b;
    } else {
      assert (a + b)[1..] == a[1..] + b;
      JoinAppend(a[1..], b, separator);
    }
  }

  /** With allowed_locations, only a location named by the whole comma-joined list is ever fetched. */
  lemma AllowedListFetches(defs: seq<Definition>, labels: Labels, names: seq<Location>, d: Definition)
    requires names != []
    ensures d in Fetched(defs, labels, Some(names)) <==>
      d in defs && d.status == "active" && RequestQueue.LabelsMatch(d.labels, labels) && d.name == Join(names, ",")
  {
    InFilter(defs, IsSelected(if labels == map[] then None else Some(labels), QueriedNames(Some(names))));
  }

  lemma {:induction false} JoinIsLonger(names: seq<Location>, n: Location)
    requires |names| >= 2 && n in names
    ensures |Join(names, ",")| > |n|
  {
    if |names| > 2 && n in names[1..] {
      JoinIsLonger(names[1..], n);
    } else if |names| == 2 {
      assert names[1..] == [names[1]];
    }
  }

  /** So an active, matching location on the list is fetched exactly when the list has one entry. */
  lemma AllowedListHonouredOnlyAlone(defs: seq<Definition>, labels: Labels, names: seq<Location>, d: Definition)
    requires d in defs && d.status == "active" && RequestQueue.LabelsMatch(d.labels, labels)
    requires d.name in names
    ensures d in Fetched(defs, labels, Some(names)) <==> |names| == 1
  {
    AllowedListFetches(defs, labels, names, d);
    if |names| >= 2 {
      JoinIsLonger(names, d.name);
    }
  }

  // ---- From the launcher's endpoints to the webserver's map ----

  /** What the webserver reads back from an agent's own heartbeat. */
  lemma ReportReadsBack(s: State, agentId: string, at: int, l: Location)
    ensures
      var hb := Heartbeat(agentId, at, Some(ReportOf(s)));
      && !Raises(hb)
      && DecisionAt(hb, l) == if l in s.servers && s.servers[l].Up? then Serve(s.servers[l].endpoint) else Keep
  {
    hide ServerReport, Decide;
    var entries := ReportMap(s);
    forall k | k in entries ensures Decide(entries[k]) == Serve(s.servers[k].endpoint) {
      ServerReportReadsBack(s.servers[k].endpoint);
    }
  }

  lemma ServerReportReadsBack(e: Endpoint)
    ensures Decide(ServerReport(e)) == Serve(e)
  {
    AddressRoundTrip(e);
    assert ':' in e.Address();
    var fields := ServerReport(e).fields;
    assert "status" in fields && fields["status"] == JString("running");
    assert "endpoint" in fields && fields["endpoint"] == JString(e.Address());
  }

  /** The window with an agent's own heartbeat in it. */
  lemma OwnWindow(rows: seq<Heartbeat>, s: State, agentId: string, at: int, now: int, staleness: int)
    requires at >= now - staleness && !AnyRaises(Window(rows, now, staleness))
    ensures
      var hb := Heartbeat(agentId, at, Some(ReportOf(s)));
      && Window(rows + [hb], now, staleness) == Window(rows, now, staleness) + [hb]
      && !AnyRaises(Window(rows + [hb], now, staleness))
  {
    hide Window, Raises;
    var hb := Heartbeat(agentId, at, Some(ReportOf(s)));
    ReportReadsBack(s, agentId, at, "");
    WindowOfMore(rows, hb, now, staleness);
  }

  /**
   * A running location is served at its launcher's endpoint, however the database orders equal timestamps, exactly
   * when all the newest heartbeats that decide it say so; its own report is one of those unless another is newer.
   */
  lemma OwnReportIsServedIff(
      rows: seq<Heartbeat>, s: State, agentId: string, at: int, now: int, staleness: int, l: Location)
    requires at >= now - staleness && !AnyRaises(Window(rows, now, staleness))
    requires l in s.servers && s.servers[l].Up?
    ensures
      var all := rows + [Heartbeat(agentId, at, Some(ReportOf(s)))];
      var own := Serve(s.servers[l].endpoint);
      (forall endpoints :: Serves(all, now, staleness, endpoints) ==> ServedAs(endpoints, l, own)) <==>
      (forall o :: Top(Window(all, now, staleness), l, o) ==> DecisionAt(o, l) == own)
  {
    hide Window, Serves, ReportOf, DecisionAt, AnyRaises;
    var hb := Heartbeat(agentId, at, Some(ReportOf(s)));
    var all := rows + [hb];
    var own := Serve(s.servers[l].endpoint);
    OwnWindow(rows, s, agentId, at, now, staleness);
    ReportReadsBack(s, agentId, at, l);
    if forall o :: Top(Window(all, now, staleness), l, o) ==> DecisionAt(o, l) == own {
      forall endpoints | Serves(all, now, staleness, endpoints) ensures ServedAs(endpoints, l, own) {
        OnlyNewestTimestampsDecide(all, now, staleness, endpoints, l);
        assert hb in Window(all, now, staleness);
      }
    } else {
      var o :| Top(Window(all, now, staleness), l, o) && DecisionAt(o, l) != own;
      var endpoints := AnyNewestTimestampMayDecide(all, now, staleness, l, o);
      assert !ServedAs(endpoints, l, own);
    }
  }

  /**
   * A heartbeat newer than every other that decides l overrides them if it reports l; and if it does not, then what
   * is served for l is something the other heartbeats serve without it.
   */
  lemma NewestReportWins(
      rows: seq<Heartbeat>, s: State, agentId: string, at: int, now: int, staleness: int,
      endpoints: map<string, Endpoint>, l: Location)
    requires at >= now - staleness && !AnyRaises(Window(rows, now, staleness))
    requires forall o :: o in Window(rows, now, staleness) && DecisionAt(o, l).Decisive() ==> o.timestamp < at
    requires Serves(rows + [Heartbeat(agentId, at, Some(ReportOf(s)))], now, staleness, endpoints)
    ensures if l in s.servers && s.servers[l].Up?
      then l in endpoints && endpoints[l] == s.servers[l].endpoint
      else exists others :: Serves(rows, now, staleness, others) && AgreeAt(endpoints, others, l)
  {
    hide Window, Serves, ReportOf, DecisionAt, AnyRaises;
    var hb := Heartbeat(agentId, at, Some(ReportOf(s)));
    OwnWindow(rows, s, agentId, at, now, staleness);
    ReportReadsBack(s, agentId, at, l);
    OnlyNewestTimestampsDecide(rows + [hb], now, staleness, endpoints, l);
    if l in s.servers && s.servers[l].Up? {
      assert hb in Window(rows + [hb], now, staleness);
    } else {
      SilentReportLeavesOthers(rows, hb, now, staleness, endpoints, l);
    }
  }

  /** A heartbeat that does not decide l changes nothing about what may be served for it. */
  lemma SilentReportLeavesOthers(
      rows: seq<Heartbeat>, hb: Heartbeat, now: int, staleness: int, endpoints: map<string, Endpoint>, l: Location)
    requires Serves(rows + [hb], now, staleness, endpoints) && !DecisionAt(hb, l).Decisive()
    requires Window(rows + [hb], now, staleness) == Window(rows, now, staleness) + [hb]
    requires !AnyRaises(Window(rows, now, staleness)) && !AnyRaises(Window(rows + [hb], now, staleness))
    ensures exists others :: Serves(rows, now, staleness, others) && AgreeAt(endpoints, others, l)
  {
    hide Window, Serves, DecisionAt, AnyRaises;
    OnlyNewestTimestampsDecide(rows + [hb], now, staleness, endpoints, l);
    if t :| Top(Window(rows + [hb], now, staleness), l, t) && ServedAs(endpoints, l, DecisionAt(t, l)) {
      assert Top(Window(rows, now, staleness), l, t);
      var others := AnyNewestTimestampMayDecide(rows, now, staleness, l, t);
      assert AgreeAt(endpoints, others, l);
    } else {
      assert forall o :: o in Window(rows, now, staleness) ==> o in Window(rows + [hb], now, staleness);
      var others := SomethingIsServed(rows, now, staleness);
      OnlyNewestTimestampsDecide(rows, now, staleness, others, l);
      assert AgreeAt(endpoints, others, l);
    }
  }

  lemma WindowOfMore(rows: seq<Heartbeat>, hb: Heartbeat, now: int, staleness: int)
    requires Recent(hb, now, staleness) && hb.reports.Some?
    ensures Window(rows + [hb], now, staleness) == Window(rows, now, staleness) + [hb]
  {
    var p := IsRecent(now, staleness);
    FilterAppend(rows, [hb], p);
    FilterAppend(Filter(rows, p), [hb], HasReports());
    FilterAll([hb], p);
    FilterAll([hb], HasReports());
  }

  /**
   * End to end. A sync without allowed_locations, a reconcile in which nothing desired fails, and a heartbeat inside
   * the window that is newer than every other that decides l: then the webserver serves l, if it is an active
   * definition whose labels match, at exactly the address and port of the process its launcher holds, and otherwise
   * only as the other heartbeats do.
   */
  lemma EndToEnd(
      defs: seq<Definition>, labels: Labels, before: State, starts: Starts, unresponsive: set<Location>, plan: Plan,
      rows: seq<Heartbeat>, agentId: string, at: int, now: int, staleness: int,
      endpoints: map<string, Endpoint>, l: Location)
    requires Inv(before)
    requires
      var synced := before.(desired := DesiredOf(Fetched(defs, labels, None)));
      FreshPids(synced, starts, Missing(synced)) && PlanOf(synced, starts, unresponsive, plan) &&
      FailureFree(synced, starts, unresponsive)
    requires at >= now - staleness && !AnyRaises(Window(rows, now, staleness))
    requires forall o :: o in Window(rows, now, staleness) && DecisionAt(o, l).Decisive() ==> o.timestamp < at
    requires
      var after := AfterReconcile(before.(desired := DesiredOf(Fetched(defs, labels, None))), starts, plan);
      Serves(rows + [Heartbeat(agentId, at, Some(ReportOf(after)))], now, staleness, endpoints)
    ensures
      var after := AfterReconcile(before.(desired := DesiredOf(Fetched(defs, labels, None))), starts, plan);
      if exists d :: d in defs && d.name == l && d.status == "active" && RequestQueue.LabelsMatch(d.labels, labels)
      then l in endpoints && l in after.handles && after.handles[l] in after.ports &&
           endpoints[l] == Endpoint("127.0.0.1", after.ports[after.handles[l]])
      else exists others :: Serves(rows, now, staleness, others) && AgreeAt(endpoints, others, l)
  {
    hide AfterReconcile, FreshPids, PlanOf, Conserved;
    hide Window, AnyRaises, Serves, DecisionAt, DesiredOf, Fetched, ReportOf;
    var synced := before.(desired := DesiredOf(Fetched(defs, labels, None)));
    var after := AfterReconcile(synced, starts, plan);
    assert Stored(synced) == Stored(before) && Running(synced) == Running(before);
    SyncKeepsInv(before, synced.desired);
    ReconcileKeepsInv(synced, starts, unresponsive, plan);
    ReconcileReachesDesired(synced, starts, unresponsive, plan);
    DesiredIsActiveMatching(defs, labels, l);
    NewestReportWins(rows, after, agentId, at, now, staleness, endpoints, l);
    AgreedAt(after, l);
  }

  lemma SyncKeepsInv(s: State, desired: map<Location, Entry>)
    requires Inv(s)
    ensures Inv(s.(desired := desired))
  {
  }
}
