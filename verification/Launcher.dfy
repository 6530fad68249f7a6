/** The agent's user code launcher: the reconcile loop over local server processes. */
module Launcher {
  import opened Collections
  import opened Endpoints

  type Location = string
  /** A spawned process. Pids name processes for good here: a pid is never handed out twice. */
  type Pid = nat

  datatype Entry = Entry(location: Location, deployMetadata: map<string, string>, labels: Option<map<string, string>>)

  datatype Failure = NoFreePort | BindFailed | SpawnFailed | DiedDuringStartup | StartupTimeout | PingFailed

  /** What the launcher knows of a location's server: its endpoint, or why it has none. */
  datatype Server = Up(endpoint: Endpoint) | Down(error: Failure)

  // ---- The outside world, for one start attempt ----

  datatype Probe = Exited | Refused | Accepting

  /** Ports already in use, the port the OS would assign, the pid a spawn yields, and what the readiness polls see. */
  datatype StartEnv = StartEnv(taken: set<int>, osPort: Option<int>, spawn: Option<Pid>, probes: seq<Probe>)

  datatype Start =
    | NotSpawned(error: Failure)
    | NeverReady(pid: Pid, port: int, error: Failure)
    | Ready(pid: Pid, port: int)
  {
    predicate Spawned() { !NotSpawned? }

    function Outcome(): Server {
      if Ready? then Up(Endpoint("127.0.0.1", port)) else Down(error)
    }
  }

  /** The least untaken port of lo..hi. */
  function LeastFree(lo: int, hi: int, taken: set<int>): (port: Option<int>)
    ensures port.Some? ==> lo <= port.value <= hi && port.value !in taken
    ensures port.Some? ==> forall q :: lo <= q < port.value ==> q in taken
    ensures port.None? ==> forall q :: lo <= q <= hi ==> q in taken
    decreases hi - lo
  {
    if lo > hi then None else if lo !in taken then Some(lo) else LeastFree(lo + 1, hi, taken)
  }

  function AllocatedPort(portRange: Option<(int, int)>, env: StartEnv): Option<int> {
    if portRange.Some? then LeastFree(portRange.value.0, portRange.value.1, env.taken) else env.osPort
  }

  /** The first poll that settles the matter; running out of polls is the timeout. */
  function Settled(probes: seq<Probe>): Probe {
    if probes == [] then Refused else if probes[0] != Refused then probes[0] else Settled(probes[1..])
  }

  /** What _start_new_server_spinup comes to: an exception, or a process and its port. */
  datatype Spinup = Fails(error: Failure) | Spawns(pid: Pid, port: int)

  function SpinupOf(portRange: Option<(int, int)>, env: StartEnv): Spinup {
    match AllocatedPort(portRange, env)
    case None => Fails(if portRange.Some? then NoFreePort else BindFailed)
    case Some(port) => if env.spawn.None? then Fails(SpawnFailed) else Spawns(env.spawn.value, port)
  }

  function StartOutcome(portRange: Option<(int, int)>, env: StartEnv): Start {
    match SpinupOf(portRange, env)
    case Fails(error) => NotSpawned(error)
    case Spawns(pid, port) =>
      match Settled(env.probes)
      case Exited => NeverReady(pid, port, DiedDuringStartup)
      case Refused => NeverReady(pid, port, StartupTimeout)
      case Accepting => Ready(pid, port)
  }

  /** What starting each location would lead to; a location without an entry cannot be spawned. */
  type Starts = map<Location, Start>

  function OutcomeOf(starts: Starts, k: Location): Start {
    if k in starts then starts[k] else NotSpawned(SpawnFailed)
  }

  // ---- Launcher state ----

  /**
   * The fields of the launcher, with three histories: every pid ever spawned, every call of
   * _remove_server_handle, and the pids whose readiness wait raised.
   */
  datatype State = State(
    desired: map<Location, Entry>,
    handles: map<Location, Pid>,
    servers: map<Location, Server>,
    processes: set<Pid>,
    ports: map<Pid, int>,
    count: nat,
    started: bool,
    spawned: set<Pid>,
    removals: multiset<Pid>,
    abandoned: set<Pid>)

  const INITIAL := State(map[], map[], map[], {}, map[], 0, false, {}, multiset{}, {})

  function Pids(handles: map<Location, Pid>, keys: set<Location>): set<Pid> {
    set k | k in keys && k in handles :: handles[k]
  }

  function Stored(s: State): set<Pid> {
    Pids(s.handles, s.handles.Keys)
  }

  function Running(s: State): set<Location> {
    set k | k in s.servers && s.servers[k].Up?
  }

  function EndpointOf(s: State, k: Location): Option<Endpoint> {
    if k in s.servers && s.servers[k].Up? then Some(s.servers[k].endpoint) else None
  }

  function ErrorOf(s: State, k: Location): Option<Failure> {
    if k in s.servers && s.servers[k].Down? then Some(s.servers[k].error) else None
  }

  predicate ReadyIn(s: State) {
    s.count > 0
  }

  // ---- The loop bodies ----

  function WithProcess(s: State, pid: Pid, port: int): State {
    s.(processes := s.processes + {pid}, ports := s.ports[pid := port], spawned := s.spawned + {pid})
  }

  /** The add loop's body: every attempt leaves an endpoint or an error, and only a ready server is stored. */
  function AddOne(s: State, k: Location, start: Start): State {
    var s1 := s.(servers := s.servers[k := start.Outcome()]);
    if start.NotSpawned? then s1
    else
      var s2 := WithProcess(s1, start.pid, start.port);
      if start.Ready? then s2.(handles := s2.handles[k := start.pid]) else s2.(abandoned := s2.abandoned + {start.pid})
  }

  /** A call of _remove_server_handle. */
  function TornDown(s: State, pid: Pid): State {
    var s1 := s.(removals := s.removals + multiset{pid});
    if pid in s.processes then s1.(processes := s1.processes - {pid}, ports := s1.ports - {pid}) else s1
  }

  /** The handle stored for k is torn down and forgotten. */
  function Dropped(s: State, k: Location): State
    requires k in s.handles
  {
    TornDown(s, s.handles[k]).(handles := s.handles - {k})
  }

  function RemoveOne(s: State, k: Location): State {
    if k in s.handles then Dropped(s, k).(servers := s.servers - {k}) else s
  }

  /** The health loop's body for a server whose ping raises. */
  function FailOne(s: State, k: Location): State {
    (if k in s.handles then Dropped(s, k) else s).(servers := s.servers[k := Down(PingFailed)])
  }

  // ---- The loops, over their keys in dict order ----

  function AddAll(s: State, starts: Starts, keys: seq<Location>): State
    decreases |keys|
  {
    if keys == [] then s
    else
      var k := keys[|keys| - 1];
      AddOne(AddAll(s, starts, keys[..|keys| - 1]), k, OutcomeOf(starts, k))
  }

  function RemoveAll(s: State, keys: seq<Location>): State
    decreases |keys|
  {
    if keys == [] then s else RemoveOne(RemoveAll(s, keys[..|keys| - 1]), keys[|keys| - 1])
  }

  function FailAll(s: State, keys: seq<Location>): State
    decreases |keys|
  {
    if keys == [] then s else FailOne(FailAll(s, keys[..|keys| - 1]), keys[|keys| - 1])
  }

  /** The keys the three loops act on, in whatever order the dicts yield them. */
  datatype Plan = Plan(adds: seq<Location>, removes: seq<Location>, fails: seq<Location>)

  ghost predicate Enumerates(keys: seq<Location>, all: set<Location>) {
    NoDup(keys) && forall k :: k in keys <==> k in all
  }

  /** Two spawns of one reconcile never yield the same pid, nor one seen before. */
  ghost predicate FreshPids(s: State, starts: Starts, keys: set<Location>) {
    && (forall k :: k in keys && OutcomeOf(starts, k).Spawned() ==> OutcomeOf(starts, k).pid !in s.spawned)
    && (forall j, k ::
          j in keys && k in keys && j != k && OutcomeOf(starts, j).Spawned() && OutcomeOf(starts, k).Spawned() ==>
          OutcomeOf(starts, j).pid != OutcomeOf(starts, k).pid)
  }

  function Missing(s: State): set<Location> {
    s.desired.Keys - s.handles.Keys
  }

  predicate Idle(s: State) {
    s.desired == map[] && s.handles == map[]
  }

  function Added(s: State, starts: Starts, plan: Plan): State {
    AddAll(s.(count := s.count + 1), starts, plan.adds)
  }

  function Trimmed(s: State, starts: Starts, plan: Plan): State {
    RemoveAll(Added(s, starts, plan), plan.removes)
  }

  function AfterReconcile(s: State, starts: Starts, plan: Plan): State {
    if Idle(s) then s else FailAll(Trimmed(s, starts, plan), plan.fails)
  }

  /** The plan names what each loop finds: missing locations, undesired handles, and endpoints that do not answer. */
  ghost predicate PlanOf(s: State, starts: Starts, unresponsive: set<Location>, plan: Plan) {
    && Enumerates(plan.adds, Missing(s))
    && Enumerates(plan.removes, Added(s, starts, plan).handles.Keys - s.desired.Keys)
    && Enumerates(plan.fails, Running(Trimmed(s, starts, plan)) * unresponsive)
  }

  function TearAll(s: State, keys: seq<Location>): State
    requires forall k :: k in keys ==> k in s.handles
    ensures TearAll(s, keys).handles == s.handles
    decreases |keys|
  {
    if keys == [] then s else TornDown(TearAll(s, keys[..|keys| - 1]), s.handles[keys[|keys| - 1]])
  }

  function AfterStop(s: State, keys: seq<Location>): State
    requires forall k :: k in keys ==> k in s.handles
  {
    if !s.started && s.handles == map[] then s
    else TearAll(s, keys).(handles := map[], servers := map[], started := false)
  }

  // ---- The invariant ----

  ghost predicate Injective(handles: map<Location, Pid>) {
    forall j, k :: j in handles && k in handles && j != k ==> handles[j] != handles[k]
  }

  /** Every spawned pid is stored, removed once, or abandoned, and never two of these. */
  ghost predicate Conserved(s: State) {
    && Injective(s.handles)
    && (forall k :: k in s.handles ==>
          s.handles[k] in s.spawned && s.handles[k] !in s.removals && s.handles[k] !in s.abandoned)
    && (forall p :: p in s.removals ==> p in s.spawned && p !in s.abandoned && s.removals[p] == 1)
    && s.abandoned <= s.spawned
    && (forall p :: p in s.spawned ==> p in Stored(s) || p in s.removals || p in s.abandoned)
  }

  /** Handles and endpoints agree, and the process tables hold exactly the stored and the abandoned servers. */
  ghost predicate Agreed(s: State) {
    && s.handles.Keys == Running(s)
    && s.processes == s.ports.Keys == Stored(s) + s.abandoned
    && (forall k :: k in s.handles ==>
          s.handles[k] in s.ports && s.servers[k] == Up(Endpoint("127.0.0.1", s.ports[s.handles[k]])))
  }

  ghost predicate Inv(s: State) {
    Conserved(s) && Agreed(s)
  }

  lemma AddOneKeepsInv(s: State, k: Location, start: Start)
    requires Inv(s) && k !in s.handles && (start.Spawned() ==> start.pid !in s.spawned)
    ensures Inv(AddOne(s, k, start))
  {
    AddOneConserves(s, k, start);
    AddOneAgrees(s, k, start);
  }

  lemma AddOneConserves(s: State, k: Location, start: Start)
    requires Conserved(s) && k !in s.handles && (start.Spawned() ==> start.pid !in s.spawned)
    ensures Conserved(AddOne(s, k, start))
  {
    if start.Ready? {
      StoredAfterAdd(s.handles, k, start.pid);
    }
  }

  lemma AddOneAgrees(s: State, k: Location, start: Start)
    requires Inv(s) && k !in s.handles && (start.Spawned() ==> start.pid !in s.spawned)
    ensures Agreed(AddOne(s, k, start))
  {
    assert s.ports.Keys <= s.spawned;
    assert s.servers.Keys - {k} >= Running(s);
    if start.Ready? {
      ReadyAgrees(s, k, start);
    } else {
      UnreadyAgrees(s, k, start);
    }
  }

  lemma ReadyAgrees(s: State, k: Location, start: Start)
    requires Agreed(s) && k !in s.handles && start.Ready? && start.pid !in s.ports
    ensures Agreed(AddOne(s, k, start))
  {
    StoredAfterAdd(s.handles, k, start.pid);
    assert Running(AddOne(s, k, start)) == Running(s) + {k};
  }

  lemma UnreadyAgrees(s: State, k: Location, start: Start)
    requires Agreed(s) && k !in s.handles && !start.Ready? && (start.Spawned() ==> start.pid !in s.ports)
    ensures Agreed(AddOne(s, k, start))
  {
  }

  lemma StoredAfterAdd(h: map<Location, Pid>, k: Location, pid: Pid)
    requires k !in h
    ensures Pids(h[k := pid], h.Keys + {k}) == Pids(h, h.Keys) + {pid}
  {
  }

  lemma StoredAfterDrop(h: map<Location, Pid>, k: Location)
    requires Injective(h) && k in h
    ensures Pids(h - {k}, h.Keys - {k}) == Pids(h, h.Keys) - {h[k]}
  {
    forall p | p in Pids(h, h.Keys) && p != h[k] ensures p in Pids(h - {k}, h.Keys - {k}) {
      var j :| j in h && h[j] == p;
      assert j in h - {k};
    }
  }

  /** Dropping a handle together with its endpoint keeps the invariant, whether or not an error is recorded. */
  lemma DropKeepsInv(s: State, k: Location, servers: map<Location, Server>)
    requires Inv(s) && k in s.handles
    requires servers == s.servers - {k} || servers == s.servers[k := Down(PingFailed)]
    ensures Inv(Dropped(s, k).(servers := servers))
  {
    DropConserves(s, k);
    DropAgrees(s, k, servers);
  }

  lemma DropAgrees(s: State, k: Location, servers: map<Location, Server>)
    requires Inv(s) && k in s.handles
    requires servers == s.servers - {k} || servers == s.servers[k := Down(PingFailed)]
    ensures Agreed(Dropped(s, k).(servers := servers))
  {
    StoredAfterDrop(s.handles, k);
    assert s.handles[k] !in s.abandoned;
    assert Running(Dropped(s, k).(servers := servers)) == Running(s) - {k};
  }

  lemma DropConserves(s: State, k: Location)
    requires Conserved(s) && k in s.handles
    ensures Conserved(Dropped(s, k))
  {
    StoredAfterDrop(s.handles, k);
  }

  lemma RemoveOneKeepsInv(s: State, k: Location)
    requires Inv(s)
    ensures Inv(RemoveOne(s, k))
  {
    if k in s.handles {
      DropKeepsInv(s, k, s.servers - {k});
    }
  }

  lemma FailOneKeepsInv(s: State, k: Location)
    requires Inv(s) && k in s.handles
    ensures Inv(FailOne(s, k))
  {
    DropKeepsInv(s, k, s.servers[k := Down(PingFailed)]);
  }

  // ---- What each loop does, location by location ----

  /** Nothing changed for location k. */
  predicate SameAt(s: State, t: State, k: Location) {
    && (k in s.handles <==> k in t.handles) && (k in s.handles ==> s.handles[k] == t.handles[k])
    && (k in s.servers <==> k in t.servers) && (k in s.servers ==> s.servers[k] == t.servers[k])
  }

  lemma AddOneElsewhere(s: State, j: Location, start: Start, k: Location)
    requires j != k
    ensures SameAt(s, AddOne(s, j, start), k)
  {
  }

  lemma {:induction false} AddAllElsewhere(s: State, starts: Starts, keys: seq<Location>, k: Location)
    requires k !in keys
    ensures SameAt(s, AddAll(s, starts, keys), k)
    decreases |keys|
  {
    hide AddOne;
    if keys != [] {
      var n := |keys| - 1;
      AddAllElsewhere(s, starts, keys[..n], k);
      AddOneElsewhere(AddAll(s, starts, keys[..n]), keys[n], OutcomeOf(starts, keys[n]), k);
    }
  }

  /** What one start attempt leaves at its location. */
  predicate Attempted(s: State, k: Location, start: Start) {
    && k in s.servers && s.servers[k] == start.Outcome()
    && (k in s.handles <==> start.Ready?) && (start.Ready? ==> s.handles[k] == start.pid)
  }

  lemma AttemptedSame(s: State, t: State, k: Location, start: Start)
    requires Attempted(s, k, start) && SameAt(s, t, k)
    ensures Attempted(t, k, start)
  {
  }

  lemma AddOneAttempts(s: State, t: State, k: Location, start: Start)
    requires k !in s.handles && SameAt(s, t, k)
    ensures Attempted(AddOne(t, k, start), k, start)
  {
  }

  lemma {:induction false} AddAllAttempts(s: State, starts: Starts, keys: seq<Location>, k: Location)
    requires NoDup(keys) && k in keys && k !in s.handles
    ensures Attempted(AddAll(s, starts, keys), k, OutcomeOf(starts, k))
    decreases |keys|
  {
    hide AddOne, Attempted, SameAt;
    var n := |keys| - 1;
    var before := AddAll(s, starts, keys[..n]);
    assert keys == keys[..n] + [keys[n]];
    if keys[n] == k {
      assert k !in keys[..n];
      AddAllElsewhere(s, starts, keys[..n], k);
      AddOneAttempts(s, before, k, OutcomeOf(starts, k));
    } else {
      AddAllAttempts(s, starts, keys[..n], k);
      AddOneElsewhere(before, keys[n], OutcomeOf(starts, keys[n]), k);
      AttemptedSame(before, AddAll(s, starts, keys), k, OutcomeOf(starts, k));
    }
  }

  lemma {:induction false} AddAllSpawned(s: State, starts: Starts, keys: seq<Location>, p: Pid)
    requires p in AddAll(s, starts, keys).spawned && p !in s.spawned
    ensures exists k :: k in keys && OutcomeOf(starts, k).Spawned() && OutcomeOf(starts, k).pid == p
    decreases |keys|
  {
    var n := |keys| - 1;
    if p in AddAll(s, starts, keys[..n]).spawned {
      AddAllSpawned(s, starts, keys[..n], p);
    } else {
      assert keys[n] in keys;
    }
  }

  lemma {:induction false} AddAllKeepsInv(s: State, starts: Starts, keys: seq<Location>)
    requires Inv(s) && NoDup(keys) && (forall k :: k in keys ==> k !in s.handles)
    requires FreshPids(s, starts, set k | k in keys)
    ensures Inv(AddAll(s, starts, keys)) && AddAll(s, starts, keys).desired == s.desired
    decreases |keys|
  {
    hide Inv;
    if keys != [] {
      var n := |keys| - 1;
      var front, k := keys[..n], keys[n];
      var before, start := AddAll(s, starts, front), OutcomeOf(starts, k);
      assert keys == front + [k] && k !in front;
      AddAllKeepsInv(s, starts, front);
      AddAllElsewhere(s, starts, front, k);
      if start.Spawned() && start.pid in before.spawned {
        AddAllSpawned(s, starts, front, start.pid);
        assert false;
      }
      AddOneKeepsInv(before, k, start);
    }
  }

  /** k is stored nowhere and has no server entry, or the entry of a failed ping. */
  predicate Gone(s: State, k: Location) {
    k !in s.handles && k !in s.servers
  }

  predicate Failed(s: State, k: Location) {
    k !in s.handles && k in s.servers && s.servers[k] == Down(PingFailed)
  }

  lemma RemoveOneEffect(s: State, j: Location, k: Location)
    requires j in s.handles
    ensures if k == j then Gone(RemoveOne(s, j), k) else SameAt(s, RemoveOne(s, j), k)
    ensures RemoveOne(s, j).spawned == s.spawned && RemoveOne(s, j).desired == s.desired
  {
  }

  lemma FailOneEffect(s: State, j: Location, k: Location)
    requires j in s.handles
    ensures if k == j then Failed(FailOne(s, j), k) else SameAt(s, FailOne(s, j), k)
    ensures FailOne(s, j).spawned == s.spawned && FailOne(s, j).desired == s.desired
  {
  }

  lemma {:induction false} RemoveAllEffect(s: State, keys: seq<Location>, k: Location)
    requires Inv(s) && NoDup(keys) && forall j :: j in keys ==> j in s.handles
    ensures Inv(RemoveAll(s, keys))
    ensures RemoveAll(s, keys).spawned == s.spawned && RemoveAll(s, keys).desired == s.desired
    ensures if k in keys then Gone(RemoveAll(s, keys), k) else SameAt(s, RemoveAll(s, keys), k)
    decreases |keys|
  {
    hide Inv, RemoveOne;
    if keys != [] {
      var n := |keys| - 1;
      assert keys == keys[..n] + [keys[n]] && keys[n] !in keys[..n];
      RemoveAllEffect(s, keys[..n], keys[n]);
      RemoveAllEffect(s, keys[..n], k);
      RemoveOneKeepsInv(RemoveAll(s, keys[..n]), keys[n]);
      RemoveOneEffect(RemoveAll(s, keys[..n]), keys[n], k);
    }
  }

  lemma {:induction false} FailAllEffect(s: State, keys: seq<Location>, k: Location)
    requires Inv(s) && NoDup(keys) && forall j :: j in keys ==> j in s.handles
    ensures Inv(FailAll(s, keys))
    ensures FailAll(s, keys).spawned == s.spawned && FailAll(s, keys).desired == s.desired
    ensures if k in keys then Failed(FailAll(s, keys), k) else SameAt(s, FailAll(s, keys), k)
    decreases |keys|
  {
    hide Inv, FailOne;
    if keys != [] {
      var n := |keys| - 1;
      assert keys == keys[..n] + [keys[n]] && keys[n] !in keys[..n];
      FailAllEffect(s, keys[..n], keys[n]);
      FailAllEffect(s, keys[..n], k);
      FailOneKeepsInv(FailAll(s, keys[..n]), keys[n]);
      FailOneEffect(FailAll(s, keys[..n]), keys[n], k);
    }
  }

  // ---- The launcher itself ----

  function StartsOf(portRange: Option<(int, int)>, envs: map<Location, StartEnv>): Starts {
    map k | k in envs :: StartOutcome(portRange, envs[k])
  }

  /** Scans the configured range, or takes the port the OS assigns. */
  method AllocatePort(portRange: Option<(int, int)>, env: StartEnv) returns (port: Option<int>)
    ensures port == AllocatedPort(portRange, env)
  {
    if portRange.None? {
      return env.osPort;
    }
    var (lo, hi) := portRange.value;
    var p := lo;
    while p <= hi
      invariant lo <= p && (lo <= hi ==> p <= hi + 1)
      invariant LeastFree(lo, hi, env.taken) == LeastFree(p, hi, env.taken)
      decreases hi - p
    {
      if p !in env.taken {
        return Some(p);
      }
      p := p + 1;
    }
    return None;
  }

  /** Polls until the process dies, its port accepts, or the polls run out. */
  method WaitForNewServerReady(probes: seq<Probe>) returns (seen: Probe)
    ensures seen == Settled(probes)
  {
    var i := 0;
    while i < |probes|
      invariant 0 <= i <= |probes| && Settled(probes) == Settled(probes[i..])
    {
      if probes[i] != Refused {
        return probes[i];
      }
      i := i + 1;
    }
    return Refused;
  }

  class ProcessLauncher {
    const portRange: Option<(int, int)>
    var desiredEntries: map<Location, Entry>
    var serverHandles: map<Location, Pid>
    var grpcServers: map<Location, Server>
    var processes: set<Pid>
    var pidToPort: map<Pid, int>
    var reconcileCount: nat
    var started: bool
    ghost var spawned: set<Pid>
    ghost var removals: multiset<Pid>
    ghost var abandoned: set<Pid>

    ghost function Contents(): State
      reads this
    {
      State(desiredEntries, serverHandles, grpcServers, processes, pidToPort, reconcileCount, started,
            spawned, removals, abandoned)
    }

    constructor (portRange: Option<(int, int)>)
      ensures Contents() == INITIAL && this.portRange == portRange
    {
      this.portRange := portRange;
      desiredEntries, serverHandles, grpcServers := map[], map[], map[];
      processes, pidToPort, reconcileCount, started := {}, map[], 0, false;
      spawned, removals, abandoned := {}, multiset{}, {};
    }

    method UpdateGrpcMetadata(entries: map<Location, Entry>)
      modifies this`desiredEntries
      ensures Contents() == old(Contents()).(desired := entries)
    {
      desiredEntries := entries;
    }

    method Start()
      modifies this`started
      ensures Contents() == old(Contents()).(started := true)
    {
      started := true;
    }

    /** Allocates a port and spawns a process on it. */
    method StartNewServerSpinup(env: StartEnv) returns (r: Spinup)
      modifies this`processes, this`pidToPort, this`spawned
      ensures r == SpinupOf(portRange, env)
      ensures Contents() == if r.Fails? then old(Contents()) else WithProcess(old(Contents()), r.pid, r.port)
    {
      var port := AllocatePort(portRange, env);
      if port.None? {
        return Fails(if portRange.Some? then NoFreePort else BindFailed);
      }
      if env.spawn.None? {
        return Fails(SpawnFailed);
      }
      var pid := env.spawn.value;
      processes := processes + {pid};
      pidToPort := pidToPort[pid := port.value];
      spawned := spawned + {pid};
      return Spawns(pid, port.value);
    }

    /** One start attempt for location k: spawn, wait, and store the server or the error. */
    method StartServer(k: Location, env: StartEnv)
      modifies this
      ensures Contents() == AddOne(old(Contents()), k, StartOutcome(portRange, env))
    {
      hide SpinupOf, Settled;
      var r := StartNewServerSpinup(env);
      if r.Fails? {
        grpcServers := grpcServers[k := Down(r.error)];
        return;
      }
      var seen := WaitForNewServerReady(env.probes);
      if seen == Accepting {
        serverHandles := serverHandles[k := r.pid];
        grpcServers := grpcServers[k := Up(Endpoint("127.0.0.1", r.port))];
      } else {
        abandoned := abandoned + {r.pid};
        grpcServers := grpcServers[k := Down(if seen == Exited then DiedDuringStartup else StartupTimeout)];
      }
    }

    /** Forgets the process and its port; whatever termination raises, both tables are already updated. */
    method RemoveServerHandle(pid: Pid)
      modifies this`processes, this`pidToPort, this`removals
      ensures Contents() == TornDown(old(Contents()), pid)
    {
      removals := removals + multiset{pid};
      if pid in processes {
        processes := processes - {pid};
        pidToPort := pidToPort - {pid};
      }
    }

    method AddMissing(desired: map<Location, Entry>, envs: map<Location, StartEnv>) returns (ghost adds: seq<Location>)
      requires desired.Keys - serverHandles.Keys <= envs.Keys
      modifies this
      ensures Enumerates(adds, desired.Keys - old(serverHandles).Keys)
      ensures Contents() == AddAll(old(Contents()), StartsOf(portRange, envs), adds)
    {
      ghost var before, starts := Contents(), StartsOf(portRange, envs);
      adds := [];
      var todo := desired.Keys;
      while todo != {}
        invariant todo <= desired.Keys
        invariant Enumerates(adds, desired.Keys - todo - before.handles.Keys)
        invariant Contents() == AddAll(before, starts, adds)
      {
        hide AddOne, AddAll, OutcomeOf, StartsOf, Enumerates;
        var k :| k in todo;
        OneFewer(desired.Keys, todo, before.handles.Keys, k);
        NotEnumerated(adds, desired.Keys - todo - before.handles.Keys, k);
        todo := todo - {k};
        AddAllElsewhere(before, starts, adds, k);
        if k !in serverHandles {
          StartServer(k, envs[k]);
          AddAllSnoc(before, starts, adds, k);
          EnumeratesSnoc(adds, desired.Keys - (todo + {k}) - before.handles.Keys, k);
          adds := adds + [k];
        }
      }
      assert desired.Keys - todo - before.handles.Keys == desired.Keys - before.handles.Keys;
    }

    /** Tears down the server of an undesired location and forgets it. */
    method ForgetServer(k: Location, pid: Pid)
      requires k in serverHandles && serverHandles[k] == pid
      modifies this`serverHandles, this`grpcServers, this`processes, this`pidToPort, this`removals
      ensures Contents() == RemoveOne(old(Contents()), k) && serverHandles == old(serverHandles) - {k}
    {
      RemoveServerHandle(pid);
      serverHandles := serverHandles - {k};
      grpcServers := grpcServers - {k};
    }

    /** Records a failed ping and drops the handle, so that the next reconcile restarts the server. */
    method FailServer(k: Location)
      modifies this`serverHandles, this`grpcServers, this`processes, this`pidToPort, this`removals
      ensures Contents() == FailOne(old(Contents()), k)
    {
      grpcServers := grpcServers[k := Down(PingFailed)];
      if k in serverHandles {
        var pid := serverHandles[k];
        serverHandles := serverHandles - {k};
        RemoveServerHandle(pid);
      }
    }

    method RemoveStale(desired: map<Location, Entry>) returns (ghost removes: seq<Location>)
      modifies this`serverHandles, this`grpcServers, this`processes, this`pidToPort, this`removals
      ensures Enumerates(removes, old(serverHandles).Keys - desired.Keys)
      ensures Contents() == RemoveAll(old(Contents()), removes)
    {
      ghost var before := Contents();
      var current := serverHandles;
      removes := [];
      var todo := current.Keys;
      while todo != {}
        invariant todo <= current.Keys
        invariant Enumerates(removes, current.Keys - todo - desired.Keys)
        invariant Contents() == RemoveAll(before, removes)
        invariant forall k :: k in todo ==> k in serverHandles && serverHandles[k] == current[k]
      {
        hide RemoveAll, RemoveOne, Enumerates, Contents;
        var k :| k in todo;
        OneFewer(current.Keys, todo, desired.Keys, k);
        todo := todo - {k};
        if k !in desired {
          ForgetServer(k, current[k]);
          RemoveAllSnoc(before, removes, k);
          EnumeratesSnoc(removes, current.Keys - (todo + {k}) - desired.Keys, k);
          removes := removes + [k];
        }
      }
      assert current.Keys - todo - desired.Keys == current.Keys - desired.Keys;
    }

    method CheckServerHealth(unresponsive: set<Location>) returns (ghost fails: seq<Location>)
      modifies this`serverHandles, this`grpcServers, this`processes, this`pidToPort, this`removals
      ensures Enumerates(fails, Running(old(Contents())) * unresponsive)
      ensures Contents() == FailAll(old(Contents()), fails)
    {
      ghost var before := Contents();
      var current := set k | k in grpcServers && grpcServers[k].Up?;
      fails := [];
      var todo := current;
      while todo != {}
        invariant todo <= current
        invariant Enumerates(fails, (current - todo) * unresponsive)
        invariant Contents() == FailAll(before, fails)
      {
        hide FailAll, FailOne, Enumerates, Contents;
        var k :| k in todo;
        todo := todo - {k};
        if k in unresponsive {
          FailServer(k);
          FailAllSnoc(before, fails, k);
          EnumeratesSnoc(fails, (current - todo - {k}) * unresponsive, k);
          fails := fails + [k];
          assert (current - todo) * unresponsive == (current - todo - {k}) * unresponsive + {k};
        } else {
          assert (current - todo) * unresponsive == (current - todo - {k}) * unresponsive;
        }
      }
      assert (current - todo) * unresponsive == current * unresponsive;
    }

    method Reconcile(envs: map<Location, StartEnv>, unresponsive: set<Location>) returns (ghost plan: Plan)
      requires Missing(Contents()) <= envs.Keys
      modifies this
      ensures Contents() == AfterReconcile(old(Contents()), StartsOf(portRange, envs), plan)
      ensures Idle(old(Contents())) || PlanOf(old(Contents()), StartsOf(portRange, envs), unresponsive, plan)
    {
      hide AddAll, RemoveAll, FailAll;
      plan := Plan([], [], []);
      var desired := desiredEntries;
      if desired == map[] && serverHandles == map[] {
        return;
      }
      reconcileCount := reconcileCount + 1;
      ghost var adds := AddMissing(desired, envs);
      ghost var removes := RemoveStale(desired);
      ghost var fails := CheckServerHealth(unresponsive);
      plan := Plan(adds, removes, fails);
    }

    method Stop() returns (ghost keys: seq<Location>)
      modifies this
      ensures Enumerates(keys, old(serverHandles).Keys)
      ensures Contents() == AfterStop(old(Contents()), keys)
    {
      ghost var before := Contents();
      keys := [];
      var handles := serverHandles;
      if !started && handles == map[] {
        return;
      }
      var todo := handles.Keys;
      while todo != {}
        invariant todo <= handles.Keys
        invariant Enumerates(keys, handles.Keys - todo)
        invariant Contents() == TearAll(before, keys)
      {
        hide TearAll, TornDown;
        var k :| k in todo;
        todo := todo - {k};
        RemoveServerHandle(handles[k]);
        TearAllSnoc(before, keys, k);
        EnumeratesSnoc(keys, handles.Keys - todo - {k}, k);
        keys := keys + [k];
        assert handles.Keys - todo == handles.Keys - todo - {k} + {k};
      }
      assert handles.Keys - todo == handles.Keys;
      serverHandles := map[];
      grpcServers := map[];
      started := false;
    }

    function GetGrpcEndpoint(k: Location): (e: Option<Endpoint>)
      reads this
      ensures e == EndpointOf(Contents(), k)
    {
      if k in grpcServers && grpcServers[k].Up? then Some(grpcServers[k].endpoint) else None
    }

    function GetError(k: Location): (e: Option<Failure>)
      reads this
      ensures e == ErrorOf(Contents(), k)
    {
      if k in grpcServers && grpcServers[k].Down? then Some(grpcServers[k].error) else None
    }

    predicate ReadyToServeRequests()
      reads this
      ensures ReadyToServeRequests() == ReadyIn(Contents())
    {
      reconcileCount > 0
    }

    /** The names of the running locations, once each, in some order. */
    method RunningLocations() returns (names: seq<Location>)
      ensures Enumerates(names, Running(Contents()))
    {
      names := [];
      var todo := grpcServers.Keys;
      while todo != {}
        invariant todo <= grpcServers.Keys
        invariant Enumerates(names, Running(Contents()) - todo)
      {
        var k :| k in todo;
        todo := todo - {k};
        if grpcServers[k].Up? {
          EnumeratesSnoc(names, Running(Contents()) - todo - {k}, k);
          names := names + [k];
          assert Running(Contents()) - todo == Running(Contents()) - todo - {k} + {k};
        } else {
          assert Running(Contents()) - todo == Running(Contents()) - todo - {k};
        }
      }
      assert Running(Contents()) - todo == Running(Contents());
    }
  }

  /** Taking k off the todo set moves it to the done set, unless it is left out. */
  lemma OneFewer(all: set<Location>, todo: set<Location>, out: set<Location>, k: Location)
    requires k in todo && todo <= all
    ensures todo - {k} + {k} == todo
    ensures all - (todo - {k}) - out == all - todo - out + (if k in out then {} else {k})
  {
  }

  lemma RemoveOneHandles(s: State, k: Location)
    ensures RemoveOne(s, k).handles == s.handles - {k}
  {
  }

  lemma TearAllSnoc(s: State, keys: seq<Location>, k: Location)
    requires k in s.handles && forall j :: j in keys ==> j in s.handles
    ensures TearAll(s, keys + [k]) == TornDown(TearAll(s, keys), s.handles[k])
  {
  }

  lemma RemoveAllSnoc(s: State, keys: seq<Location>, k: Location)
    ensures RemoveAll(s, keys + [k]) == RemoveOne(RemoveAll(s, keys), k)
  {
  }

  lemma FailAllSnoc(s: State, keys: seq<Location>, k: Location)
    ensures FailAll(s, keys + [k]) == FailOne(FailAll(s, keys), k)
  {
  }

  lemma EnumeratesSnoc(keys: seq<Location>, all: set<Location>, k: Location)
    requires Enumerates(keys, all) && k !in all
    ensures Enumerates(keys + [k], all + {k})
  {
  }

  lemma NotEnumerated(keys: seq<Location>, all: set<Location>, k: Location)
    requires Enumerates(keys, all) && k !in all
    ensures k !in keys
  {
  }

  lemma AddAllSnoc(s: State, starts: Starts, keys: seq<Location>, k: Location)
    ensures AddAll(s, starts, keys + [k]) == AddOne(AddAll(s, starts, keys), k, OutcomeOf(starts, k))
  {
  }
}
