/** Agent heartbeats and the endpoint map the webserver derives from them. */
module Heartbeats {
  import opened Collections
  import opened Endpoints

  datatype Json =
    | JNull
    | JBool(flag: bool)
    | JNumber(number: real)
    | JString(text: string)
    | JArray(items: seq<Json>)
    | JObject(fields: map<string, Json>)
  {
    predicate Truthy() {
      match this
      case JNull => false
      case JBool(b) => b
      case JNumber(n) => n != 0.0
      case JString(s) => s != ""
      case JArray(items) => items != []
      case JObject(fields) => fields != map[]
    }
  }

  /** One row; `reports` is the code_server_heartbeats column, None for SQL NULL. */
  datatype Heartbeat = Heartbeat(agent: string, timestamp: int, reports: Option<Json>)

  // ---- What one heartbeat says about one location ----

  /** Leave the location as it is, forget it, serve it at an endpoint, or raise. */
  datatype Decision = Keep | Forget | Serve(endpoint: Endpoint) | Raise
  {
    predicate Decisive() { Forget? || Serve? }
  }

  function Decide(info: Json): Decision {
    if !info.JObject? then Keep
    else if !("status" in info.fields && info.fields["status"] == JString("running")) then Forget
    else
      var endpoint := if "endpoint" in info.fields then info.fields["endpoint"] else JString("");
      if !endpoint.Truthy() then Keep
      else if !endpoint.JString? then Raise // only text has rsplit
      else
        match ParseEndpoint(endpoint.text)
        case None => Keep
        case Some(e) => Serve(e)
  }

  /** The entries of a heartbeat; None when the column holds something truthy that has no items. */
  function Entries(hb: Heartbeat): Option<map<string, Json>> {
    if hb.reports.None? || !hb.reports.value.Truthy() then Some(map[])
    else if hb.reports.value.JObject? then Some(hb.reports.value.fields)
    else None
  }

  function DecisionAt(hb: Heartbeat, l: string): Decision {
    match Entries(hb)
    case None => Raise
    case Some(entries) => if l in entries then Decide(entries[l]) else Keep
  }

  /** Reading this heartbeat raises. */
  predicate Raises(hb: Heartbeat) {
    match Entries(hb)
    case None => true
    case Some(entries) => exists l :: l in entries && Decide(entries[l]).Raise?
  }

  ghost predicate AnyRaises(hbs: seq<Heartbeat>) {
    exists hb :: hb in hbs && Raises(hb)
  }

  /** The first decisive entry for l in an answer that lists the newest heartbeat first; Keep when there is none. */
  function Newest(answer: seq<Heartbeat>, l: string): Decision
    decreases |answer|
  {
    if answer == [] then Keep
    else
      var d := DecisionAt(answer[0], l);
      if d.Decisive() then d else Newest(answer[1..], l)
  }

  /** The endpoint map serves exactly the locations whose newest decisive entry serves them. */
  ghost predicate Reflects(endpoints: map<string, Endpoint>, answer: seq<Heartbeat>) {
    && (forall l :: l in endpoints <==> Newest(answer, l).Serve?)
    && (forall l :: l in endpoints ==> endpoints[l] == Newest(answer, l).endpoint)
  }

  // ---- The oldest-first fold ----

  ghost predicate AppliedAt(before: map<string, Endpoint>, after: map<string, Endpoint>, l: string, d: Decision) {
    match d
    case Serve(e) => l in after && after[l] == e
    case Forget => l !in after
    case _ => (l in after <==> l in before) && (l in after ==> after[l] == before[l])
  }

  /** The inner loop: one heartbeat's entries, in any order; None when one of them raises. */
  method ApplyHeartbeat(endpoints: map<string, Endpoint>, hb: Heartbeat) returns (r: Option<map<string, Endpoint>>)
    ensures r.None? <==> Raises(hb)
    ensures r.Some? ==> forall l :: AppliedAt(endpoints, r.value, l, DecisionAt(hb, l))
  {
    if Entries(hb).None? {
      return None;
    }
    var entries := Entries(hb).value;
    var current := endpoints;
    var todo := entries.Keys;
    while todo != {}
      invariant todo <= entries.Keys
      invariant forall l :: l in entries && l !in todo ==> !Decide(entries[l]).Raise?
      invariant forall l :: AppliedAt(endpoints, current, l, if l in todo then Keep else DecisionAt(hb, l))
    {
      var l :| l in todo;
      todo := todo - {l};
      var d := Decide(entries[l]);
      ghost var before := current;
      match d {
        case Keep =>
        case Forget => current := current - {l};
        case Serve(e) => current := current[l := e];
        case Raise => return None;
      }
    }
    return Some(current);
  }

  lemma NewestOfMore(answer: seq<Heartbeat>, i: nat, l: string)
    requires i < |answer|
    ensures Newest(answer[i..], l) ==
      if DecisionAt(answer[i], l).Decisive() then DecisionAt(answer[i], l) else Newest(answer[i + 1..], l)
  {
    assert answer[i..][1..] == answer[i + 1..];
  }

  lemma ReflectsMore(before: map<string, Endpoint>, after: map<string, Endpoint>, answer: seq<Heartbeat>, i: nat)
    requires i < |answer| && !Raises(answer[i])
    requires Reflects(before, answer[i + 1..])
    requires forall l :: AppliedAt(before, after, l, DecisionAt(answer[i], l))
    ensures Reflects(after, answer[i..])
  {
    forall l ensures l in after <==> Newest(answer[i..], l).Serve?
             ensures l in after ==> after[l] == Newest(answer[i..], l).endpoint
    {
      NewestOfMore(answer, i, l);
      assert AppliedAt(before, after, l, DecisionAt(answer[i], l));
    }
  }

  /** The fold over an answer in reverse, oldest first, so that newer entries overwrite older ones. */
  method FoldEndpoints(answer: seq<Heartbeat>) returns (r: Option<map<string, Endpoint>>)
    ensures r.None? <==> AnyRaises(answer)
    ensures r.Some? ==> Reflects(r.value, answer)
  {
    var endpoints: map<string, Endpoint> := map[];
    var i := |answer|;
    while i > 0
      invariant 0 <= i <= |answer|
      invariant forall j :: i <= j < |answer| ==> !Raises(answer[j])
      invariant Reflects(endpoints, answer[i..])
    {
      i := i - 1;
      var next := ApplyHeartbeat(endpoints, answer[i]);
      if next.None? {
        assert answer[i] in answer;
        return None;
      }
      ReflectsMore(endpoints, next.value, answer, i);
      endpoints := next.value;
    }
    return Some(endpoints);
  }

  // ---- The table, the staleness window and the cleanup ----

  /** Rows are stored oldest first, and none is newer than `now`. */
  ghost predicate Ordered(rows: seq<Heartbeat>, now: int) {
    && (forall i, j :: 0 <= i < j < |rows| ==> rows[i].timestamp <= rows[j].timestamp)
    && (forall i :: 0 <= i < |rows| ==> rows[i].timestamp <= now)
  }

  lemma OrderedParts(rows: seq<Heartbeat>, now: int)
    requires Ordered(rows, now) && rows != []
    ensures Ordered(rows[1..], now) && rows[0].timestamp <= now
    ensures forall hb :: hb in rows[1..] ==> rows[0].timestamp <= hb.timestamp
  {
  }

  lemma OrderedCons(first: Heartbeat, rest: seq<Heartbeat>, now: int)
    requires Ordered(rest, now) && first.timestamp <= now
    requires forall hb :: hb in rest ==> first.timestamp <= hb.timestamp
    ensures Ordered([first] + rest, now)
  {
  }

  lemma {:induction false} FilterKeepsOrdered(rows: seq<Heartbeat>, p: Heartbeat -> bool, now: int)
    requires Ordered(rows, now)
    ensures Ordered(Filter(rows, p), now)
  {
    if rows != [] {
      hide Ordered;
      OrderedParts(rows, now);
      FilterKeepsOrdered(rows[1..], p, now);
      InFilter(rows[1..], p);
      OrderedCons(rows[0], Filter(rows[1..], p), now);
    }
  }

  predicate Recent(hb: Heartbeat, now: int, staleness: int) {
    hb.timestamp >= now - staleness
  }

  function IsRecent(now: int, staleness: int): Heartbeat -> bool {
    hb => Recent(hb, now, staleness)
  }

  function HasReports(): Heartbeat -> bool {
    (hb: Heartbeat) => hb.reports.Some?
  }

  /** The rows the endpoint query selects: inside the window, and not NULL. */
  function Window(rows: seq<Heartbeat>, now: int, staleness: int): seq<Heartbeat> {
    Filter(Filter(rows, IsRecent(now, staleness)), HasReports())
  }

  ghost predicate NewestFirst(hbs: seq<Heartbeat>) {
    forall i, j :: 0 <= i < j < |hbs| ==> hbs[i].timestamp >= hbs[j].timestamp
  }

  /** What the database may answer: the selected rows by descending timestamp, ties in any order. */
  ghost predicate Answers(rows: seq<Heartbeat>, now: int, staleness: int, answer: seq<Heartbeat>) {
    multiset(answer) == multiset(Window(rows, now, staleness)) && NewestFirst(answer)
  }

  /** What the cleanup leaves. */
  function Cleaned(rows: seq<Heartbeat>, now: int, retention: int): seq<Heartbeat> {
    Filter(rows, IsRecent(now, retention))
  }

  /** What an answer leads to: nothing when reading it raises. */
  ghost predicate Shows(endpoints: map<string, Endpoint>, answer: seq<Heartbeat>) {
    if AnyRaises(answer) then endpoints == map[] else Reflects(endpoints, answer)
  }

  /** Some answer of the database leads to this map. */
  ghost predicate Serves(rows: seq<Heartbeat>, now: int, staleness: int, endpoints: map<string, Endpoint>) {
    exists answer :: Answers(rows, now, staleness, answer) && Shows(endpoints, answer)
  }

  class HeartbeatTable {
    var rows: seq<Heartbeat>

    constructor ()
      ensures rows == []
    {
      rows := [];
    }

    /** The database stamps the row with its clock; under a clock that does not go back the rows stay in order. */
    method Submit(agent: string, now: int, reports: Option<Json>)
      modifies this`rows
      ensures old(Ordered(rows, now)) ==> Ordered(rows, now)
      ensures rows == old(rows) + [Heartbeat(agent, now, reports)]
    {
      rows := rows + [Heartbeat(agent, now, reports)];
    }

    method DeleteOld(now: int, retention: int) returns (deleted: nat)
      modifies this`rows
      ensures rows == Cleaned(old(rows), now, retention)
      ensures deleted == |old(rows)| - |rows|
      ensures old(Ordered(rows, now)) ==> Ordered(rows, now)
    {
      if Ordered(rows, now) {
        FilterKeepsOrdered(rows, IsRecent(now, retention), now);
      }
      var kept := Filter(rows, IsRecent(now, retention));
      deleted := |rows| - |kept|;
      rows := kept;
    }

    /** What a workspace reload sees: the map, or nothing at all when the query raised. */
    method QueryEndpoints(now: int, staleness: int, answer: seq<Heartbeat>) returns (endpoints: map<string, Endpoint>)
      requires Answers(rows, now, staleness, answer)
      ensures Shows(endpoints, answer) && Serves(rows, now, staleness, endpoints)
    {
      var r := FoldEndpoints(answer);
      endpoints := if r.Some? then r.value else map[];
    }
  }
}
