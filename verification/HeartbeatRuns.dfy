/** Which heartbeat decides, and why the cleanup never shows. */
module HeartbeatRuns {
  import opened Collections
  import opened Endpoints
  import opened Heartbeats

  // ---- The newest decisive entry wins ----

  /** answer[i] is the first heartbeat that is decisive for l. */
  ghost predicate Decides(answer: seq<Heartbeat>, l: string, i: int) {
    && 0 <= i < |answer| && DecisionAt(answer[i], l).Decisive()
    && forall j :: 0 <= j < i ==> !DecisionAt(answer[j], l).Decisive()
  }

  lemma {:induction false} NewestDecisiveWins(answer: seq<Heartbeat>, l: string)
    ensures forall i :: Decides(answer, l, i) ==> Newest(answer, l) == DecisionAt(answer[i], l)
    ensures !Newest(answer, l).Decisive() ==>
      Newest(answer, l) == Keep && forall hb :: hb in answer ==> !DecisionAt(hb, l).Decisive()
    ensures Newest(answer, l).Decisive() ==> exists i :: Decides(answer, l, i)
    decreases |answer|
  {
    hide DecisionAt;
    if answer != [] {
      var rest := answer[1..];
      NewestDecisiveWins(rest, l);
      if DecisionAt(answer[0], l).Decisive() {
        assert Decides(answer, l, 0);
      } else {
        forall i | Decides(answer, l, i) ensures Decides(rest, l, i - 1) {
        }
        if Newest(rest, l).Decisive() {
          var i :| Decides(rest, l, i);
          assert Decides(answer, l, i + 1);
        }
      }
    }
  }

  // ---- What the database may answer ----

  lemma InWindow(rows: seq<Heartbeat>, now: int, staleness: int, hb: Heartbeat)
    ensures hb in Window(rows, now, staleness) <==> hb in rows && Recent(hb, now, staleness) && hb.reports.Some?
  {
    InFilter(rows, IsRecent(now, staleness));
    InFilter(Filter(rows, IsRecent(now, staleness)), HasReports());
  }

  /** An answer has the rows of the window and no others, so it raises exactly when the window does. */
  lemma InAnswer(rows: seq<Heartbeat>, now: int, staleness: int, answer: seq<Heartbeat>)
    requires Answers(rows, now, staleness, answer)
    ensures forall hb :: hb in answer <==> hb in Window(rows, now, staleness)
    ensures AnyRaises(answer) <==> AnyRaises(Window(rows, now, staleness))
  {
    forall hb ensures hb in answer <==> hb in Window(rows, now, staleness) {
      assert hb in answer <==> hb in multiset(answer);
    }
  }

  /** hb before everything that is not newer. */
  function Insert(hb: Heartbeat, hbs: seq<Heartbeat>): seq<Heartbeat> {
    if hbs == [] || hbs[0].timestamp <= hb.timestamp then [hb] + hbs else [hbs[0]] + Insert(hb, hbs[1..])
  }

  lemma {:induction false} InsertAdds(hb: Heartbeat, hbs: seq<Heartbeat>)
    ensures multiset(Insert(hb, hbs)) == multiset(hbs) + multiset{hb}
    ensures forall o :: o in Insert(hb, hbs) <==> o == hb || o in hbs
  {
    if hbs != [] && hbs[0].timestamp > hb.timestamp {
      InsertAdds(hb, hbs[1..]);
      assert hbs == [hbs[0]] + hbs[1..];
    }
  }

  lemma {:induction false} InsertKeepsOrder(hb: Heartbeat, hbs: seq<Heartbeat>)
    requires NewestFirst(hbs)
    ensures NewestFirst(Insert(hb, hbs))
  {
    if hbs != [] && hbs[0].timestamp > hb.timestamp {
      InsertKeepsOrder(hb, hbs[1..]);
      InsertAdds(hb, hbs[1..]);
      assert forall o :: o in hbs[1..] ==> o.timestamp <= hbs[0].timestamp;
      var tail := Insert(hb, hbs[1..]);
      assert forall i :: 0 <= i < |tail| ==> tail[i] in tail;
    }
  }

  /** Everything in front of the inserted heartbeat is newer. */
  lemma {:induction false} InsertedIsFirstOfItsTime(hb: Heartbeat, hbs: seq<Heartbeat>) returns (i: nat)
    ensures i < |Insert(hb, hbs)| && Insert(hb, hbs)[i] == hb
    ensures forall j :: 0 <= j < i ==> Insert(hb, hbs)[j].timestamp > hb.timestamp
    decreases |hbs|
  {
    if hbs == [] || hbs[0].timestamp <= hb.timestamp {
      i := 0;
    } else {
      var k := InsertedIsFirstOfItsTime(hb, hbs[1..]);
      i := k + 1;
    }
  }

  function Sort(hbs: seq<Heartbeat>): seq<Heartbeat> {
    if hbs == [] then [] else Insert(hbs[0], Sort(hbs[1..]))
  }

  lemma {:induction false} SortIsSorted(hbs: seq<Heartbeat>)
    ensures NewestFirst(Sort(hbs)) && multiset(Sort(hbs)) == multiset(hbs)
  {
    if hbs != [] {
      SortIsSorted(hbs[1..]);
      InsertKeepsOrder(hbs[0], Sort(hbs[1..]));
      InsertAdds(hbs[0], Sort(hbs[1..]));
      assert hbs == [hbs[0]] + hbs[1..];
    }
  }

  /** The database can always answer, and can list any row of the window before the others of its time. */
  lemma AnswerWithFirst(rows: seq<Heartbeat>, now: int, staleness: int, hb: Heartbeat)
    returns (answer: seq<Heartbeat>, i: nat)
    requires hb in Window(rows, now, staleness)
    ensures Answers(rows, now, staleness, answer) && i < |answer| && answer[i] == hb
    ensures forall j :: 0 <= j < i ==> answer[j].timestamp > hb.timestamp
  {
    var window := Window(rows, now, staleness);
    var k :| 0 <= k < |window| && window[k] == hb;
    var others := window[..k] + window[k + 1..];
    assert window == window[..k] + [hb] + window[k + 1..];
    SortIsSorted(others);
    InsertKeepsOrder(hb, Sort(others));
    InsertAdds(hb, Sort(others));
    i := InsertedIsFirstOfItsTime(hb, Sort(others));
    answer := Insert(hb, Sort(others));
  }

  // ---- Every map an answer can lead to ----

  function Named(hbs: seq<Heartbeat>): set<string> {
    if hbs == [] then {}
    else (if Entries(hbs[0]).Some? then Entries(hbs[0]).value.Keys else {}) + Named(hbs[1..])
  }

  lemma {:induction false} ServedIsNamed(answer: seq<Heartbeat>, l: string)
    requires Newest(answer, l).Serve?
    ensures l in Named(answer)
    decreases |answer|
  {
    if !DecisionAt(answer[0], l).Decisive() {
      ServedIsNamed(answer[1..], l);
    }
  }

  ghost function MapOf(answer: seq<Heartbeat>): map<string, Endpoint> {
    if AnyRaises(answer) then map[]
    else map l | l in Named(answer) && Newest(answer, l).Serve? :: Newest(answer, l).endpoint
  }

  lemma MapOfShows(answer: seq<Heartbeat>)
    ensures Shows(MapOf(answer), answer)
  {
    forall l | Newest(answer, l).Serve? ensures l in Named(answer) {
      ServedIsNamed(answer, l);
    }
  }

  /** A query has a result whatever the table holds. */
  lemma SomethingIsServed(rows: seq<Heartbeat>, now: int, staleness: int) returns (endpoints: map<string, Endpoint>)
    ensures Serves(rows, now, staleness, endpoints)
  {
    var answer := Sort(Window(rows, now, staleness));
    SortIsSorted(Window(rows, now, staleness));
    MapOfShows(answer);
    assert Answers(rows, now, staleness, answer);
    endpoints := MapOf(answer);
  }

  /** The map serves l as the decision says. */
  predicate ServedAs(endpoints: map<string, Endpoint>, l: string, d: Decision) {
    match d
    case Serve(e) => l in endpoints && endpoints[l] == e
    case _ => l !in endpoints
  }

  /** hb decides l, and nothing that does is newer. */
  ghost predicate Top(hbs: seq<Heartbeat>, l: string, hb: Heartbeat) {
    && hb in hbs && DecisionAt(hb, l).Decisive()
    && forall o :: o in hbs && DecisionAt(o, l).Decisive() ==> o.timestamp <= hb.timestamp
  }

  /**
   * By timestamps: each location is served or not as some newest decisive heartbeat of the window says, and not
   * served when the window has none.
   */
  lemma OnlyNewestTimestampsDecide(
      rows: seq<Heartbeat>, now: int, staleness: int, endpoints: map<string, Endpoint>, l: string)
    requires Serves(rows, now, staleness, endpoints) && !AnyRaises(Window(rows, now, staleness))
    ensures
      var window := Window(rows, now, staleness);
      if exists hb :: hb in window && DecisionAt(hb, l).Decisive()
      then exists hb :: Top(window, l, hb) && ServedAs(endpoints, l, DecisionAt(hb, l))
      else l !in endpoints
  {
    hide DecisionAt, Window;
    var answer :| Answers(rows, now, staleness, answer) && Shows(endpoints, answer);
    InAnswer(rows, now, staleness, answer);
    NewestDecisiveWins(answer, l);
    if Newest(answer, l).Decisive() {
      var i :| Decides(answer, l, i);
      assert answer[i] in answer;
      FirstDecisiveIsTop(rows, now, staleness, answer, l, i);
    }
  }

  lemma FirstDecisiveIsTop(
      rows: seq<Heartbeat>, now: int, staleness: int, answer: seq<Heartbeat>, l: string, i: int)
    requires Answers(rows, now, staleness, answer) && Decides(answer, l, i)
    ensures Top(Window(rows, now, staleness), l, answer[i])
  {
    hide DecisionAt;
    InAnswer(rows, now, staleness, answer);
    forall o | o in answer && DecisionAt(o, l).Decisive() ensures o.timestamp <= answer[i].timestamp {
      var j :| 0 <= j < |answer| && answer[j] == o;
      assert j >= i;
    }
  }

  /** And each newest decisive heartbeat may be the one: at equal timestamps either row may win. */
  lemma AnyNewestTimestampMayDecide(rows: seq<Heartbeat>, now: int, staleness: int, l: string, hb: Heartbeat)
    returns (endpoints: map<string, Endpoint>)
    requires Top(Window(rows, now, staleness), l, hb) && !AnyRaises(Window(rows, now, staleness))
    ensures Serves(rows, now, staleness, endpoints) && ServedAs(endpoints, l, DecisionAt(hb, l))
  {
    hide DecisionAt, Window;
    var answer, i := AnswerWithFirst(rows, now, staleness, hb);
    InAnswer(rows, now, staleness, answer);
    forall j | 0 <= j < i ensures !DecisionAt(answer[j], l).Decisive() {
      assert answer[j] in answer;
    }
    assert Decides(answer, l, i);
    NewestDecisiveWins(answer, l);
    MapOfShows(answer);
    endpoints := MapOf(answer);
  }

  /** No two newest decisive heartbeats of a location differ about it. */
  ghost predicate Unambiguous(hbs: seq<Heartbeat>, l: string) {
    forall a, b :: Top(hbs, l, a) && Top(hbs, l, b) ==> DecisionAt(a, l) == DecisionAt(b, l)
  }

  ghost predicate AgreeAt(a: map<string, Endpoint>, b: map<string, Endpoint>, l: string) {
    (l in a <==> l in b) && (l in a ==> a[l] == b[l])
  }

  /**
   * Two queries of one table at one time always agree about l exactly when its newest decisive rows do, or some row
   * makes the query raise.
   */
  lemma ServedIsDeterminedIff(rows: seq<Heartbeat>, now: int, staleness: int, l: string)
    ensures
      (forall a, b :: Serves(rows, now, staleness, a) && Serves(rows, now, staleness, b) ==> AgreeAt(a, b, l)) <==>
      (AnyRaises(Window(rows, now, staleness)) || Unambiguous(Window(rows, now, staleness), l))
  {
    hide DecisionAt, Serves, Window, AnyRaises, Top;
    var window := Window(rows, now, staleness);
    if AnyRaises(window) {
      forall a | Serves(rows, now, staleness, a) ensures a == map[] {
        RaisingHeartbeatBlanksTheMap(rows, now, staleness, a);
      }
    } else if Unambiguous(window, l) {
      forall a, b | Serves(rows, now, staleness, a) && Serves(rows, now, staleness, b) ensures AgreeAt(a, b, l) {
        OnlyNewestTimestampsDecide(rows, now, staleness, a, l);
        OnlyNewestTimestampsDecide(rows, now, staleness, b, l);
      }
    } else {
      var x, y :| Top(window, l, x) && Top(window, l, y) && DecisionAt(x, l) != DecisionAt(y, l);
      var a := AnyNewestTimestampMayDecide(rows, now, staleness, l, x);
      var b := AnyNewestTimestampMayDecide(rows, now, staleness, l, y);
      TopIsDecisive(window, l, x);
      TopIsDecisive(window, l, y);
      assert !AgreeAt(a, b, l);
    }
  }

  lemma TopIsDecisive(hbs: seq<Heartbeat>, l: string, hb: Heartbeat)
    requires Top(hbs, l, hb)
    ensures DecisionAt(hb, l).Decisive()
  {
  }

  /** Without such ties the table determines the whole map. */
  lemma ServedIsDetermined(
      rows: seq<Heartbeat>, now: int, staleness: int, a: map<string, Endpoint>, b: map<string, Endpoint>)
    requires Serves(rows, now, staleness, a) && Serves(rows, now, staleness, b)
    requires AnyRaises(Window(rows, now, staleness)) || forall l :: Unambiguous(Window(rows, now, staleness), l)
    ensures a == b
  {
    hide Serves, Window, AnyRaises, Unambiguous;
    forall l ensures (l in a.Keys <==> l in b.Keys) && (l in a ==> a[l] == b[l]) {
      ServedIsDeterminedIff(rows, now, staleness, l);
      assert AgreeAt(a, b, l);
    }
  }

  /** No heartbeat that decides a served location is newer than the one it is served from. */
  lemma ServedByNewestTimestamp(
      rows: seq<Heartbeat>, now: int, staleness: int, endpoints: map<string, Endpoint>, l: string)
    requires Serves(rows, now, staleness, endpoints) && l in endpoints
    ensures exists hb ::
      && hb in Window(rows, now, staleness) && DecisionAt(hb, l) == Serve(endpoints[l])
      && forall o :: o in Window(rows, now, staleness) && DecisionAt(o, l).Decisive() ==> o.timestamp <= hb.timestamp
  {
    hide DecisionAt, Window, Serves;
    RaisingHeartbeatBlanksTheMap(rows, now, staleness, endpoints);
    OnlyNewestTimestampsDecide(rows, now, staleness, endpoints, l);
  }

  /** Every served endpoint is one that a heartbeat inside the staleness window reports as running. */
  lemma ServedComesFromWindow(
      rows: seq<Heartbeat>, now: int, staleness: int, endpoints: map<string, Endpoint>, l: string)
    requires Serves(rows, now, staleness, endpoints) && l in endpoints
    ensures exists hb :: hb in rows && hb.timestamp >= now - staleness && DecisionAt(hb, l) == Serve(endpoints[l])
  {
    hide DecisionAt, Window;
    var answer :| Answers(rows, now, staleness, answer) && Shows(endpoints, answer);
    NewestDecisiveWins(answer, l);
    var i :| Decides(answer, l, i);
    assert answer[i] in answer;
    InAnswer(rows, now, staleness, answer);
    InWindow(rows, now, staleness, answer[i]);
  }

  // ---- Raising ----

  /** A running entry whose endpoint is neither empty nor text. */
  predicate BadEntry(info: Json) {
    && info.JObject? && "status" in info.fields && info.fields["status"] == JString("running")
    && "endpoint" in info.fields && info.fields["endpoint"].Truthy() && !info.fields["endpoint"].JString?
  }

  /** The two ways a heartbeat makes the query raise: its reports are no dict, or they hold a bad entry. */
  lemma RaisesIff(hb: Heartbeat)
    ensures Raises(hb) <==>
      hb.reports.Some? && hb.reports.value.Truthy() &&
      (hb.reports.value.JObject? ==> exists l :: l in hb.reports.value.fields && BadEntry(hb.reports.value.fields[l]))
  {
    forall info: Json ensures Decide(info).Raise? <==> BadEntry(info) {
    }
  }

  /**
   * If any heartbeat in the window makes the query raise, then nothing at all is served; otherwise what is served
   * reflects some answer of the database.
   */
  lemma RaisingHeartbeatBlanksTheMap(rows: seq<Heartbeat>, now: int, staleness: int, endpoints: map<string, Endpoint>)
    requires Serves(rows, now, staleness, endpoints)
    ensures if AnyRaises(Window(rows, now, staleness)) then endpoints == map[]
      else exists answer :: Answers(rows, now, staleness, answer) && Reflects(endpoints, answer)
  {
    var answer :| Answers(rows, now, staleness, answer) && Shows(endpoints, answer);
    InAnswer(rows, now, staleness, answer);
  }

  /** So one running entry with an endpoint that is not text, anywhere in the window, leaves no location served. */
  lemma RaisingEntryBlanksTheMap(
      rows: seq<Heartbeat>, now: int, staleness: int, endpoints: map<string, Endpoint>,
      hb: Heartbeat, entries: map<string, Json>, l: string)
    requires Serves(rows, now, staleness, endpoints)
    requires hb in rows && Recent(hb, now, staleness) && hb.reports == Some(JObject(entries))
    requires l in entries && BadEntry(entries[l])
    ensures endpoints == map[]
  {
    hide Window;
    InWindow(rows, now, staleness, hb);
    RaisesIff(hb);
    RaisingHeartbeatBlanksTheMap(rows, now, staleness, endpoints);
  }

  /** When no reporter ever says "stopped", a location is served exactly while some report of it is in the window. */
  lemma OnlyStalenessRemoves(
      rows: seq<Heartbeat>, now: int, staleness: int, endpoints: map<string, Endpoint>, l: string)
    requires Serves(rows, now, staleness, endpoints)
    requires forall hb :: hb in Window(rows, now, staleness) ==> !Raises(hb) && !DecisionAt(hb, l).Forget?
    ensures l in endpoints <==> exists hb :: hb in Window(rows, now, staleness) && DecisionAt(hb, l).Serve?
  {
    hide DecisionAt, Window, Raises;
    OnlyNewestTimestampsDecide(rows, now, staleness, endpoints, l);
  }

  // ---- What an entry says, in terms of the JSON ----

  /** The entry of l is an object whose status is missing or anything but the text "running". */
  predicate StopEntry(hb: Heartbeat, l: string) {
    && hb.reports.Some? && hb.reports.value.JObject? && l in hb.reports.value.fields
    && hb.reports.value.fields[l].JObject?
    && ("status" !in hb.reports.value.fields[l].fields ||
        hb.reports.value.fields[l].fields["status"] != JString("running"))
  }

  /** The entry of l is running, at a text that ends in a colon and something int() reads as the port. */
  ghost predicate RunningEntry(hb: Heartbeat, l: string, e: Endpoint) {
    && hb.reports.Some? && hb.reports.value.JObject? && l in hb.reports.value.fields
    && hb.reports.value.fields[l].JObject?
    && var entry := hb.reports.value.fields[l].fields;
    && "status" in entry && entry["status"] == JString("running") && "endpoint" in entry
    && exists port ::
         entry["endpoint"] == JString(e.host + ":" + port) && ':' !in port && ParseInt(port) == Some(e.port)
  }

  lemma ForgetsIff(hb: Heartbeat, l: string)
    ensures DecisionAt(hb, l) == Forget <==> StopEntry(hb, l)
  {
  }

  lemma ServesIff(hb: Heartbeat, l: string, e: Endpoint)
    ensures DecisionAt(hb, l) == Serve(e) <==> RunningEntry(hb, l, e)
  {
    hide ParseEndpoint, ParseInt;
    if hb.reports.Some? && hb.reports.value.JObject? && l in hb.reports.value.fields {
      var info := hb.reports.value.fields[l];
      if info.JObject? && "endpoint" in info.fields && info.fields["endpoint"].JString? {
        var text := info.fields["endpoint"].text;
        EndpointTexts(text, e);
        assert forall port :: ':' in e.host + ":" + port by {
          forall port ensures ':' in e.host + ":" + port {
            assert (e.host + ":" + port)[|e.host|] == ':';
          }
        }
      }
    }
  }

  /** A location whose newest decisive heartbeats all stop it is in no map the query may give. */
  lemma StoppedIsNotServed(
      rows: seq<Heartbeat>, now: int, staleness: int, endpoints: map<string, Endpoint>, l: string)
    requires Serves(rows, now, staleness, endpoints)
    requires forall hb :: Top(Window(rows, now, staleness), l, hb) ==> StopEntry(hb, l)
    ensures l !in endpoints
  {
    hide Serves, Window, AnyRaises, StopEntry, DecisionAt;
    RaisingHeartbeatBlanksTheMap(rows, now, staleness, endpoints);
    if !AnyRaises(Window(rows, now, staleness)) {
      OnlyNewestTimestampsDecide(rows, now, staleness, endpoints, l);
      forall hb | StopEntry(hb, l) ensures DecisionAt(hb, l) == Forget {
        ForgetsIff(hb, l);
      }
    }
  }

  /** A location whose newest decisive heartbeats all run it at e is served there, if nothing raises. */
  lemma RunningIsServed(
      rows: seq<Heartbeat>, now: int, staleness: int, endpoints: map<string, Endpoint>, l: string, hb: Heartbeat,
      e: Endpoint)
    requires Serves(rows, now, staleness, endpoints) && !AnyRaises(Window(rows, now, staleness))
    requires Top(Window(rows, now, staleness), l, hb)
    requires forall o :: Top(Window(rows, now, staleness), l, o) ==> RunningEntry(o, l, e)
    ensures l in endpoints && endpoints[l] == e
  {
    hide Serves, Window, AnyRaises, RunningEntry, DecisionAt;
    OnlyNewestTimestampsDecide(rows, now, staleness, endpoints, l);
    forall o | RunningEntry(o, l, e) ensures DecisionAt(o, l) == Serve(e) {
      ServesIff(o, l, e);
    }
  }

  /** The falsy values: null, false, zero, and the empty text, list and object. */
  lemma TruthyIff(value: Json)
    ensures value.Truthy() <==>
      value !in {JNull, JBool(false), JNumber(0.0), JString(""), JArray([]), JObject(map[])}
  {
  }

  // ---- The cleanup is invisible ----

  lemma {:induction false} FilterImplied(s: seq<Heartbeat>, p: Heartbeat -> bool, q: Heartbeat -> bool)
    requires forall x :: x in s && q(x) ==> p(x)
    ensures Filter(Filter(s, p), q) == Filter(s, q)
  {
    if s != [] {
      FilterImplied(s[1..], p, q);
      if p(s[0]) {
        assert Filter(s, p) == [s[0]] + Filter(s[1..], p);
      }
    }
  }

  /** A cleanup keeps each row inside the retention as often as it was there, and no other. */
  lemma {:induction false} CleanedRows(rows: seq<Heartbeat>, now: int, retention: int, hb: Heartbeat)
    ensures multiset(Cleaned(rows, now, retention))[hb] ==
      if hb.timestamp >= now - retention then multiset(rows)[hb] else 0
  {
    if rows != [] {
      assert rows == [rows[0]] + rows[1..];
      CleanedRows(rows[1..], now, retention, hb);
    }
  }

  /** Deleting at time t what is older than the retention changes no later query, given retention >= staleness. */
  lemma CleanupKeepsWindow(rows: seq<Heartbeat>, t: int, later: int, retention: int, staleness: int)
    requires t <= later && retention >= staleness
    ensures Window(Cleaned(rows, t, retention), later, staleness) == Window(rows, later, staleness)
  {
    FilterImplied(rows, IsRecent(t, retention), IsRecent(later, staleness));
  }

  lemma CleanupKeepsServed(
      rows: seq<Heartbeat>, t: int, later: int, retention: int, staleness: int, endpoints: map<string, Endpoint>)
    requires t <= later && retention >= staleness
    ensures Serves(Cleaned(rows, t, retention), later, staleness, endpoints) <==>
      Serves(rows, later, staleness, endpoints)
  {
    CleanupKeepsWindow(rows, t, later, retention, staleness);
  }

  /** And with a shorter retention a cleanup does remove a location that was being served. */
  lemma ShortRetentionShows(retention: int, staleness: int, e: Endpoint)
    requires retention < staleness
    ensures
      var entry := JObject(map["status" := JString("running"), "endpoint" := JString(e.Address())]);
      var rows := [Heartbeat("agent", 0, Some(JObject(map["location" := entry])))];
      && Serves(rows, staleness, staleness, map["location" := e])
      && Serves(Cleaned(rows, staleness, retention), staleness, staleness, map[])
  {
    var entry := JObject(map["status" := JString("running"), "endpoint" := JString(e.Address())]);
    var hb := Heartbeat("agent", 0, Some(JObject(map["location" := entry])));
    AddressRoundTrip(e);
    assert entry.fields["status"] == JString("running") && entry.fields["endpoint"] == JString(e.Address());
    assert e.Address() != "" by {
      assert ':' in e.Address();
    }
    assert Decide(entry) == Serve(e);
    FilterAll([hb], IsRecent(staleness, staleness));
    FilterAll([hb], HasReports());
    assert Answers([hb], staleness, staleness, [hb]);
    SingleHeartbeat(hb, map["location" := entry], "location", e);
    FilterNone([hb], IsRecent(staleness, retention));
    assert Answers([], staleness, staleness, []) && Shows(map[], []);
  }

  lemma SingleHeartbeat(hb: Heartbeat, entries: map<string, Json>, name: string, e: Endpoint)
    requires hb.reports == Some(JObject(entries)) && entries.Keys == {name} && Decide(entries[name]) == Serve(e)
    ensures !AnyRaises([hb]) && Reflects(map[name := e], [hb])
  {
  }

  // ---- Whole runs ----

  datatype Step =
    | Report(agent: string, reports: Option<Json>)
    | Cleanup
    | Wait(elapsed: nat)

  datatype World = World(rows: seq<Heartbeat>, now: int)

  function Next(w: World, step: Step, retention: int): World {
    match step
    case Report(agent, reports) => w.(rows := w.rows + [Heartbeat(agent, w.now, reports)])
    case Cleanup => w.(rows := Cleaned(w.rows, w.now, retention))
    case Wait(elapsed) => w.(now := w.now + elapsed)
  }

  function Run(w: World, steps: seq<Step>, retention: int): World
    decreases |steps|
  {
    if steps == [] then w else Run(Next(w, steps[0], retention), steps[1..], retention)
  }

  /** What one step of a run is: a submission at the clock's time, a cleanup, or time passing. */
  lemma StepsAre(w: World, agent: string, reports: Option<Json>, elapsed: nat, retention: int, hb: Heartbeat)
    ensures Next(w, Report(agent, reports), retention) == World(w.rows + [Heartbeat(agent, w.now, reports)], w.now)
    ensures Next(w, Wait(elapsed), retention) == World(w.rows, w.now + elapsed)
    ensures
      var cleaned := Next(w, Cleanup, retention);
      cleaned.now == w.now &&
      multiset(cleaned.rows)[hb] == if hb.timestamp >= w.now - retention then multiset(w.rows)[hb] else 0
  {
    CleanedRows(w.rows, w.now, retention, hb);
  }

  /** The same run without its cleanups. */
  function WithoutCleanups(steps: seq<Step>): seq<Step> {
    if steps == [] then []
    else if steps[0].Cleanup? then WithoutCleanups(steps[1..])
    else [steps[0]] + WithoutCleanups(steps[1..])
  }

  /** Two worlds no query can tell apart, now or later. */
  ghost predicate Alike(a: World, b: World, staleness: int) {
    a.now == b.now && Filter(a.rows, IsRecent(a.now, staleness)) == Filter(b.rows, IsRecent(b.now, staleness))
  }

  lemma CleanupStaysAlike(a: World, b: World, retention: int, staleness: int)
    requires Alike(a, b, staleness) && retention >= staleness
    ensures Alike(Next(a, Cleanup, retention), b, staleness)
  {
    FilterImplied(a.rows, IsRecent(a.now, retention), IsRecent(a.now, staleness));
  }

  lemma SameStepStaysAlike(a: World, b: World, step: Step, retention: int, staleness: int)
    requires Alike(a, b, staleness) && !step.Cleanup?
    ensures Alike(Next(a, step, retention), Next(b, step, retention), staleness)
  {
    var p := IsRecent(a.now, staleness);
    match step
    case Report(agent, reports) =>
      FilterAppend(a.rows, [Heartbeat(agent, a.now, reports)], p);
      FilterAppend(b.rows, [Heartbeat(agent, a.now, reports)], p);
    case Wait(elapsed) =>
      var q := IsRecent(a.now + elapsed, staleness);
      FilterImplied(a.rows, p, q);
      FilterImplied(b.rows, p, q);
  }

  lemma {:induction false} RunsStayAlike(a: World, b: World, steps: seq<Step>, retention: int, staleness: int)
    requires Alike(a, b, staleness) && retention >= staleness
    ensures Alike(Run(a, steps, retention), Run(b, WithoutCleanups(steps), retention), staleness)
    decreases |steps|
  {
    hide Alike, Next;
    if steps != [] {
      var step, rest := steps[0], steps[1..];
      if step.Cleanup? {
        CleanupStaysAlike(a, b, retention, staleness);
        RunsStayAlike(Next(a, step, retention), b, rest, retention, staleness);
      } else {
        SameStepStaysAlike(a, b, step, retention, staleness);
        RunsStayAlike(Next(a, step, retention), Next(b, step, retention), rest, retention, staleness);
        assert WithoutCleanups(steps)[1..] == WithoutCleanups(rest);
      }
    }
  }

  lemma {:induction false} RunsKeepOrdered(w: World, steps: seq<Step>, retention: int)
    requires Ordered(w.rows, w.now)
    ensures Ordered(Run(w, steps, retention).rows, Run(w, steps, retention).now)
    decreases |steps|
  {
    if steps != [] {
      if steps[0].Cleanup? {
        FilterKeepsOrdered(w.rows, IsRecent(w.now, retention), w.now);
      }
      RunsKeepOrdered(Next(w, steps[0], retention), steps[1..], retention);
    }
  }

  /** In any run, however reports, waits and cleanups interleave, the served map is the one without any cleanup. */
  lemma CleanupIsInvisible(w: World, steps: seq<Step>, retention: int, staleness: int, endpoints: map<string, Endpoint>)
    requires retention >= staleness
    ensures
      var cleaned, full := Run(w, steps, retention), Run(w, WithoutCleanups(steps), retention);
      && cleaned.now == full.now
      && (Serves(cleaned.rows, cleaned.now, staleness, endpoints) <==>
            Serves(full.rows, full.now, staleness, endpoints))
  {
    RunsStayAlike(w, w, steps, retention, staleness);
  }
}
