/** What the webserver loads: the served endpoints as a list of origins in name order. */
module Workspace {
  import opened Endpoints
  import opened Heartbeats
  import HeartbeatRuns

  /** A gRPC server of the workspace, for the loader and for the workspace file alike. */
  datatype Origin = Origin(location: string, host: string, port: int)

  /** The order of Python strings: by code point, a proper prefix first. */
  predicate Before(a: string, b: string) {
    b != "" && (a == "" || a[0] < b[0] || (a[0] == b[0] && Before(a[1..], b[1..])))
  }

  lemma {:induction false} BeforeIsTotal(a: string, b: string)
    ensures a == b || Before(a, b) || Before(b, a)
    ensures !(Before(a, b) && Before(b, a))
  {
    if a != "" && b != "" {
      BeforeIsTotal(a[1..], b[1..]);
      assert a == [a[0]] + a[1..] && b == [b[0]] + b[1..];
    }
  }

  lemma {:induction false} BeforeIsTransitive(a: string, b: string, c: string)
    requires Before(a, b) && Before(b, c)
    ensures Before(a, c)
  {
    if a != "" && a[0] == b[0] == c[0] {
      BeforeIsTransitive(a[1..], b[1..], c[1..]);
    }
  }

  ghost predicate Ascending(names: seq<string>) {
    forall i, j :: 0 <= i < j < |names| ==> Before(names[i], names[j])
  }

  /** Every served location once, with its host and port, in name order. */
  ghost predicate Lists(origins: seq<Origin>, endpoints: map<string, Endpoint>) {
    && (forall i, j :: 0 <= i < j < |origins| ==> Before(origins[i].location, origins[j].location))
    && (forall i :: 0 <= i < |origins| ==> FromMap(origins[i], endpoints))
    && (forall l :: l in endpoints ==> exists i :: 0 <= i < |origins| && origins[i].location == l)
  }

  predicate FromMap(o: Origin, endpoints: map<string, Endpoint>) {
    o.location in endpoints && endpoints[o.location] == Endpoint(o.host, o.port)
  }

  /** Where `name` belongs among ascending names that do not hold it. */
  method Position(names: seq<string>, name: string) returns (p: nat)
    requires Ascending(names) && name !in names
    ensures p <= |names|
    ensures forall i :: 0 <= i < p ==> Before(names[i], name)
    ensures forall i :: p <= i < |names| ==> Before(name, names[i])
  {
    p := 0;
    while p < |names| && Before(names[p], name)
      invariant p <= |names|
      invariant forall i :: 0 <= i < p ==> Before(names[i], name)
    {
      p := p + 1;
    }
    forall i | p <= i < |names| ensures Before(name, names[i]) {
      BeforeIsTotal(name, names[p]);
      if i > p {
        BeforeIsTransitive(name, names[p], names[i]);
      }
    }
  }

  /** sorted() over the names of a dict. */
  method Sorted(all: set<string>) returns (names: seq<string>)
    ensures Ascending(names) && forall l :: l in names <==> l in all
  {
    names := [];
    var todo := all;
    while todo != {}
      invariant todo <= all && Ascending(names)
      invariant forall l :: l in names <==> l in all - todo
    {
      var l :| l in todo;
      var p := Position(names, l);
      InsertKeepsAscending(names, p, l);
      todo := todo - {l};
      names := names[..p] + [l] + names[p..];
    }
  }

  lemma InsertKeepsAscending(names: seq<string>, p: nat, l: string)
    requires Ascending(names) && p <= |names|
    requires forall i :: 0 <= i < p ==> Before(names[i], l)
    requires forall i :: p <= i < |names| ==> Before(l, names[i])
    ensures Ascending(names[..p] + [l] + names[p..])
    ensures forall x :: x in names[..p] + [l] + names[p..] <==> x in names || x == l
  {
  }

  /** The loop over the sorted items that builds the origins. */
  method ListOrigins(endpoints: map<string, Endpoint>) returns (origins: seq<Origin>)
    ensures Lists(origins, endpoints)
  {
    var names := Sorted(endpoints.Keys);
    origins := [];
    var i := 0;
    while i < |names|
      invariant 0 <= i <= |names| == |names| && |origins| == i
      invariant forall j :: 0 <= j < i ==> origins[j].location == names[j] && FromMap(origins[j], endpoints)
    {
      assert names[i] in names;
      var e := endpoints[names[i]];
      origins := origins + [Origin(names[i], e.host, e.port)];
      i := i + 1;
    }
    forall l | l in endpoints ensures exists j :: 0 <= j < |origins| && origins[j].location == l {
      assert l in names;
    }
  }

  /** The origins of one reload, from what the database answers. */
  method CreateOrigins(table: HeartbeatTable, now: int, staleness: int, answer: seq<Heartbeat>)
    returns (origins: seq<Origin>)
    requires Answers(table.rows, now, staleness, answer)
    ensures exists endpoints ::
      Shows(endpoints, answer) && Serves(table.rows, now, staleness, endpoints) && Lists(origins, endpoints)
  {
    var endpoints := table.QueryEndpoints(now, staleness, answer);
    origins := ListOrigins(endpoints);
  }

  lemma LeastIsFirst(origins: seq<Origin>, endpoints: map<string, Endpoint>, l: string)
    requires Lists(origins, endpoints) && l in endpoints
    ensures origins != [] && (origins[0].location == l || Before(origins[0].location, l))
  {
  }

  lemma RestIsListed(origins: seq<Origin>, endpoints: map<string, Endpoint>)
    requires Lists(origins, endpoints) && origins != []
    ensures Lists(origins[1..], endpoints - {origins[0].location})
  {
    hide Before;
    var first, rest := origins[0].location, origins[1..];
    forall i | 0 <= i < |rest| ensures FromMap(rest[i], endpoints - {first}) {
      BeforeIsTotal(first, rest[i].location);
      assert Before(first, origins[i + 1].location);
    }
    forall l | l in endpoints && l != first ensures exists i :: 0 <= i < |rest| && rest[i].location == l {
      var i :| 0 <= i < |origins| && origins[i].location == l;
      assert rest[i - 1].location == l;
    }
  }

  lemma EmptyListing(origins: seq<Origin>, endpoints: map<string, Endpoint>)
    requires Lists(origins, endpoints)
    ensures origins == [] <==> endpoints.Keys == {}
    ensures origins != [] ==> FromMap(origins[0], endpoints)
  {
    hide Before;
    if endpoints.Keys != {} {
      var l :| l in endpoints.Keys;
      LeastIsFirst(origins, endpoints, l);
    }
    assert origins != [] ==> origins[0].location in endpoints.Keys;
  }

  /** A map has one listing only. */
  lemma {:induction false} ListingIsUnique(a: seq<Origin>, b: seq<Origin>, endpoints: map<string, Endpoint>)
    requires Lists(a, endpoints) && Lists(b, endpoints)
    ensures a == b
    decreases |a|
  {
    hide Before, Lists;
    EmptyListing(a, endpoints);
    EmptyListing(b, endpoints);
    if a != [] {
      LeastIsFirst(b, endpoints, a[0].location);
      LeastIsFirst(a, endpoints, b[0].location);
      BeforeIsTotal(a[0].location, b[0].location);
      RestIsListed(a, endpoints);
      RestIsListed(b, endpoints);
      ListingIsUnique(a[1..], b[1..], endpoints - {a[0].location});
      assert a == [a[0]] + a[1..] && b == [b[0]] + b[1..];
    }
  }

  /** And a listing is of one map only. */
  lemma ListedMapIsUnique(origins: seq<Origin>, a: map<string, Endpoint>, b: map<string, Endpoint>)
    requires Lists(origins, a) && Lists(origins, b)
    ensures a == b
  {
    hide Before;
    forall l ensures (l in a.Keys <==> l in b.Keys) && (l in a && l in b ==> a[l] == b[l]) {
      if l in a || l in b {
        var i :| 0 <= i < |origins| && origins[i].location == l;
        assert FromMap(origins[i], a) && FromMap(origins[i], b);
      }
    }
  }

  /**
   * With the same staleness, the workspace file and the loader list the same servers exactly when their queries came
   * to the same map, even if a cleanup ran in between; and so they do unless the newest heartbeats of some location
   * have one timestamp and differ about it.
   */
  lemma FileAgreesWithLoader(
      rows: seq<Heartbeat>, cleanedAt: int, retention: int, now: int, staleness: int,
      loaded: seq<Origin>, served: map<string, Endpoint>, written: seq<Origin>, queried: map<string, Endpoint>)
    requires Serves(rows, now, staleness, served) && Lists(loaded, served)
    requires cleanedAt <= now && retention >= staleness
    requires Serves(Cleaned(rows, cleanedAt, retention), now, staleness, queried) && Lists(written, queried)
    ensures loaded == written <==> served == queried
    ensures
      var window := Window(rows, now, staleness);
      (AnyRaises(window) || forall l :: HeartbeatRuns.Unambiguous(window, l)) ==> loaded == written
  {
    hide Serves, Lists, Window, AnyRaises, HeartbeatRuns.Unambiguous;
    HeartbeatRuns.CleanupKeepsServed(rows, cleanedAt, now, retention, staleness, queried);
    if AnyRaises(Window(rows, now, staleness)) ||
       forall l :: HeartbeatRuns.Unambiguous(Window(rows, now, staleness), l) {
      HeartbeatRuns.ServedIsDetermined(rows, now, staleness, served, queried);
    }
    if served == queried {
      ListingIsUnique(loaded, written, served);
    }
    if loaded == written {
      ListedMapIsUnique(loaded, served, queried);
    }
  }

  /** Up to index i the texts agree, and there a ends or has the smaller character. */
  predicate FirstDifference(a: string, b: string, i: int) {
    0 <= i <= |a| && i < |b| && a[..i] == b[..i] && (i == |a| || a[i] < b[i])
  }

  lemma SameStart(a: string, b: string, i: int)
    requires 0 <= i <= |a| && i <= |b| && a[..i] == b[..i]
    ensures i > 0 ==> a[0] == b[0]
  {
    assert forall j :: 0 <= j < i ==> a[..i][j] == a[j] && b[..i][j] == b[j];
  }

  lemma {:induction false} BeforeByFirstDifference(a: string, b: string)
    ensures Before(a, b) <==> exists i :: FirstDifference(a, b, i)
  {
    if a == "" || b == "" {
      assert b != "" ==> FirstDifference(a, b, 0);
    } else if a[0] != b[0] {
      if a[0] < b[0] {
        assert FirstDifference(a, b, 0);
      }
      forall i: int | FirstDifference(a, b, i) ensures i == 0 {
        SameStart(a, b, i);
      }
    } else {
      BeforeByFirstDifference(a[1..], b[1..]);
      if i :| FirstDifference(a[1..], b[1..], i) {
        assert a[..i + 1] == [a[0]] + a[1..][..i] && b[..i + 1] == [b[0]] + b[1..][..i];
        assert FirstDifference(a, b, i + 1);
      }
      if i :| FirstDifference(a, b, i) {
        assert i > 0;
        assert a[1..][..i - 1] == a[..i][1..] && b[1..][..i - 1] == b[..i][1..];
        assert FirstDifference(a[1..], b[1..], i - 1);
      }
    }
  }
}
