/** What a start attempt comes to, what a reconcile spawns and removes, and what a stop leaves. */
module LauncherOutcomes {
  import opened Collections
  import opened Endpoints
  import opened Launcher
  import opened LauncherRuns

  // ---- One start attempt, poll by poll ----

  /** Poll i is the first that is no refusal, and it sees `what`. */
  predicate FirstSight(probes: seq<Probe>, i: int, what: Probe) {
    0 <= i < |probes| && probes[i] == what && forall j :: 0 <= j < i ==> probes[j] == Refused
  }

  lemma {:induction false} SettledBySight(probes: seq<Probe>)
    ensures Settled(probes) == Accepting <==> exists i :: FirstSight(probes, i, Accepting)
    ensures Settled(probes) == Exited <==> exists i :: FirstSight(probes, i, Exited)
    ensures Settled(probes) == Refused <==> forall i :: 0 <= i < |probes| ==> probes[i] == Refused
  {
    if probes != [] {
      if probes[0] != Refused {
        assert FirstSight(probes, 0, probes[0]);
      } else {
        SettledBySight(probes[1..]);
        SightLater(probes, Accepting);
        SightLater(probes, Exited);
      }
    }
  }

  lemma SightLater(probes: seq<Probe>, what: Probe)
    requires probes != [] && probes[0] == Refused && what != Refused
    ensures (exists i :: FirstSight(probes, i, what)) <==> exists i :: FirstSight(probes[1..], i, what)
  {
    if i :| FirstSight(probes, i, what) {
      assert FirstSight(probes[1..], i - 1, what);
    }
    if i :| FirstSight(probes[1..], i, what) {
      assert FirstSight(probes, i + 1, what);
    }
  }

  /** The port is the least free one of the configured range, or without a range the one the OS assigns. */
  predicate PortIs(portRange: Option<(int, int)>, env: StartEnv, port: int) {
    match portRange
    case None => env.osPort == Some(port)
    case Some((lo, hi)) => lo <= port <= hi && port !in env.taken && forall q :: lo <= q < port ==> q in env.taken
  }

  lemma AllocatedPortIs(portRange: Option<(int, int)>, env: StartEnv)
    ensures forall port :: AllocatedPort(portRange, env) == Some(port) <==> PortIs(portRange, env, port)
    ensures AllocatedPort(portRange, env).None? <==>
      if portRange.Some? then forall q :: portRange.value.0 <= q <= portRange.value.1 ==> q in env.taken
      else env.osPort.None?
  {
    forall port ensures AllocatedPort(portRange, env) == Some(port) <==> PortIs(portRange, env, port) {
      if portRange.Some? && PortIs(portRange, env, port) && AllocatedPort(portRange, env).Some? {
        var found := AllocatedPort(portRange, env).value;
        assert !(found < port) && !(port < found);
      }
    }
  }

  /**
   * An attempt succeeds exactly when a port was allocated, the process was spawned, and the first poll that is no
   * refusal finds the port open.
   */
  lemma ReadyIff(portRange: Option<(int, int)>, env: StartEnv, pid: Pid, port: int)
    ensures StartOutcome(portRange, env) == Ready(pid, port) <==>
      PortIs(portRange, env, port) && env.spawn == Some(pid) && exists i :: FirstSight(env.probes, i, Accepting)
  {
    hide PortIs, AllocatedPort, Settled;
    AllocatedPortIs(portRange, env);
    SettledBySight(env.probes);
  }

  /** A spawned process fails by dying before its port opens, or by refusing until the time is up. */
  lemma NeverReadyIff(portRange: Option<(int, int)>, env: StartEnv, pid: Pid, port: int, error: Failure)
    ensures StartOutcome(portRange, env) == NeverReady(pid, port, error) <==>
      && PortIs(portRange, env, port) && env.spawn == Some(pid)
      && ((error == DiedDuringStartup && exists i :: FirstSight(env.probes, i, Exited)) ||
          (error == StartupTimeout && forall i :: 0 <= i < |env.probes| ==> env.probes[i] == Refused))
  {
    hide PortIs, AllocatedPort, Settled;
    AllocatedPortIs(portRange, env);
    SettledBySight(env.probes);
  }

  /** Nothing is spawned exactly when the range is used up, no port can be bound, or the spawn raises. */
  lemma NotSpawnedIff(portRange: Option<(int, int)>, env: StartEnv, error: Failure)
    ensures
      var full := if portRange.Some?
        then forall q :: portRange.value.0 <= q <= portRange.value.1 ==> q in env.taken
        else env.osPort.None?;
      StartOutcome(portRange, env) == NotSpawned(error) <==>
        if full then error == (if portRange.Some? then NoFreePort else BindFailed)
        else env.spawn.None? && error == SpawnFailed
  {
    hide PortIs, AllocatedPort, Settled;
    AllocatedPortIs(portRange, env);
  }

  /** Exactly then the location is handled after a reconcile, by that process, if it also answers its ping. */
  lemma ReconcileStoresReadyServers(
      s: State, portRange: Option<(int, int)>, envs: map<Location, StartEnv>, unresponsive: set<Location>, plan: Plan,
      k: Location, pid: Pid)
    requires Inv(s) && FreshPids(s, StartsOf(portRange, envs), Missing(s))
    requires PlanOf(s, StartsOf(portRange, envs), unresponsive, plan) && Missing(s) <= envs.Keys
    requires k in s.desired && k !in s.handles
    ensures
      var t := AfterReconcile(s, StartsOf(portRange, envs), plan);
      k in t.handles && t.handles[k] == pid <==>
        && k !in unresponsive && envs[k].spawn == Some(pid)
        && (exists port :: PortIs(portRange, envs[k], port))
        && (exists i :: FirstSight(envs[k].probes, i, Accepting))
  {
    hide AfterReconcile, PlanOf, FreshPids, Inv, PortIs, StartOutcome;
    var starts := StartsOf(portRange, envs);
    assert k in Missing(s) && OutcomeOf(starts, k) == StartOutcome(portRange, envs[k]);
    ReconcileResult(s, starts, unresponsive, plan, k);
    forall port ensures StartOutcome(portRange, envs[k]) == Ready(pid, port) <==>
      PortIs(portRange, envs[k], port) && envs[k].spawn == Some(pid) &&
      exists i :: FirstSight(envs[k].probes, i, Accepting)
    {
      ReadyIff(portRange, envs[k], pid, port);
    }
  }

  /** And its endpoint is at that port; a missing location that fails to start has just the error of its attempt. */
  lemma ReconcileServesReadyServers(
      s: State, portRange: Option<(int, int)>, envs: map<Location, StartEnv>, unresponsive: set<Location>, plan: Plan,
      k: Location)
    requires Inv(s) && FreshPids(s, StartsOf(portRange, envs), Missing(s))
    requires PlanOf(s, StartsOf(portRange, envs), unresponsive, plan) && Missing(s) <= envs.Keys
    requires k in s.desired && k !in s.handles
    ensures
      var t, env := AfterReconcile(s, StartsOf(portRange, envs), plan), envs[k];
      && (forall e :: EndpointOf(t, k) == Some(e) ==> e.host == "127.0.0.1" && PortIs(portRange, env, e.port))
      && (ErrorOf(t, k) == Some(StartupTimeout) <==>
            env.spawn.Some? && (exists port :: PortIs(portRange, env, port)) &&
            forall i :: 0 <= i < |env.probes| ==> env.probes[i] == Refused)
      && (ErrorOf(t, k) == Some(DiedDuringStartup) <==>
            env.spawn.Some? && (exists port :: PortIs(portRange, env, port)) &&
            exists i :: FirstSight(env.probes, i, Exited))
  {
    hide AfterReconcile, PlanOf, FreshPids, Inv, PortIs;
    var starts := StartsOf(portRange, envs);
    assert k in Missing(s) && OutcomeOf(starts, k) == StartOutcome(portRange, envs[k]);
    ReconcileResult(s, starts, unresponsive, plan, k);
    hide AllocatedPort, Settled;
    AllocatedPortIs(portRange, envs[k]);
    SettledBySight(envs[k].probes);
  }

  // ---- The processes of one reconcile ----

  /** A spawned process is recorded with its port, ready or not, and no other process is touched. */
  lemma AttemptRecordsProcess(s: State, k: Location, start: Start)
    ensures
      var t := AddOne(s, k, start);
      if start.Spawned()
      then t.processes == s.processes + {start.pid} && t.ports == s.ports[start.pid := start.port]
      else t.processes == s.processes && t.ports == s.ports
  {
  }

  predicate SpawnsAt(starts: Starts, k: Location, p: Pid) {
    OutcomeOf(starts, k).Spawned() && OutcomeOf(starts, k).pid == p
  }

  predicate AbandonsAt(starts: Starts, k: Location, p: Pid) {
    OutcomeOf(starts, k).NeverReady? && OutcomeOf(starts, k).pid == p
  }

  lemma {:induction false} AddAllHistory(s: State, starts: Starts, keys: seq<Location>, p: Pid)
    ensures p in AddAll(s, starts, keys).spawned <==> p in s.spawned || exists k :: k in keys && SpawnsAt(starts, k, p)
    ensures p in AddAll(s, starts, keys).abandoned <==>
      p in s.abandoned || exists k :: k in keys && AbandonsAt(starts, k, p)
    decreases |keys|
  {
    if keys != [] {
      var front, k := keys[..|keys| - 1], keys[|keys| - 1];
      assert keys == front + [k];
      AddAllHistory(s, starts, front, p);
      AddOneHistory(AddAll(s, starts, front), starts, k, p);
    }
  }

  lemma AddOneHistory(s: State, starts: Starts, k: Location, p: Pid)
    ensures
      var t := AddOne(s, k, OutcomeOf(starts, k));
      && (p in t.spawned <==> p in s.spawned || SpawnsAt(starts, k, p))
      && (p in t.abandoned <==> p in s.abandoned || AbandonsAt(starts, k, p))
  {
    hide OutcomeOf;
  }

  lemma {:induction false} DropsKeepHistory(s: State, keys: seq<Location>)
    ensures RemoveAll(s, keys).spawned == FailAll(s, keys).spawned == s.spawned
    ensures RemoveAll(s, keys).abandoned == FailAll(s, keys).abandoned == s.abandoned
    decreases |keys|
  {
    hide RemoveOne, FailOne;
    if keys != [] {
      var front, k := keys[..|keys| - 1], keys[|keys| - 1];
      DropsKeepHistory(s, front);
      DropKeepsHistory(RemoveAll(s, front), k);
      DropKeepsHistory(FailAll(s, front), k);
    }
  }

  lemma DropKeepsHistory(s: State, k: Location)
    ensures RemoveOne(s, k).spawned == FailOne(s, k).spawned == s.spawned
    ensures RemoveOne(s, k).abandoned == FailOne(s, k).abandoned == s.abandoned
  {
  }

  /**
   * A reconcile spawns exactly the processes of its attempts, abandons exactly those whose readiness wait raised, and
   * what else was ever spawned is afterwards either stored or removed.
   */
  lemma ReconcileHistory(s: State, starts: Starts, unresponsive: set<Location>, plan: Plan, p: Pid)
    requires Inv(s) && FreshPids(s, starts, Missing(s)) && PlanOf(s, starts, unresponsive, plan) && !Idle(s)
    ensures
      var t := AfterReconcile(s, starts, plan);
      && (p in t.spawned <==> p in s.spawned || exists k :: k in Missing(s) && SpawnsAt(starts, k, p))
      && (p in t.abandoned <==> p in s.abandoned || exists k :: k in Missing(s) && AbandonsAt(starts, k, p))
      && (t.removals[p] == if p in t.spawned && p !in t.abandoned && p !in Stored(t) then 1 else 0)
  {
    hide AddAll, RemoveAll, FailAll, SpawnsAt, AbandonsAt, Agreed, FreshPids;
    AddAllHistory(s.(count := s.count + 1), starts, plan.adds, p);
    assert forall k :: k in plan.adds <==> k in Missing(s);
    DropsKeepHistory(Added(s, starts, plan), plan.removes);
    DropsKeepHistory(Trimmed(s, starts, plan), plan.fails);
    ReconcileKeepsInv(s, starts, unresponsive, plan);
  }

  /** A reconcile with nothing desired and nothing held does nothing; any other counts as one. */
  lemma IdleReconcile(s: State, starts: Starts, plan: Plan)
    ensures s.desired == map[] && s.handles == map[] ==> AfterReconcile(s, starts, plan) == s
    ensures s.desired != map[] || s.handles != map[] ==> AfterReconcile(s, starts, plan).count == s.count + 1
  {
    if !Idle(s) {
      ReconcileCounts(s, starts, plan);
    }
  }

  // ---- Stopping ----

  lemma {:induction false} TearAllKeeps(s: State, keys: seq<Location>)
    requires forall k :: k in keys ==> k in s.handles
    ensures
      var t := TearAll(s, keys);
      && t.desired == s.desired && t.count == s.count && t.spawned == s.spawned && t.abandoned == s.abandoned
      && forall p :: p in t.ports ==> p in s.ports && t.ports[p] == s.ports[p]
    decreases |keys|
  {
    if keys != [] {
      TearAllKeeps(s, keys[..|keys| - 1]);
    }
  }

  /**
   * A stop removes every held process exactly once and no other, and leaves no handle and no endpoint. The process
   * tables then hold just the abandoned processes, at their ports.
   */
  lemma StopResult(s: State, keys: seq<Location>)
    requires Inv(s) && Enumerates(keys, s.handles.Keys) && (s.started || s.handles != map[])
    ensures
      var t := AfterStop(s, keys);
      && t.handles == map[] && t.servers == map[] && !t.started
      && t.removals == s.removals + multiset(Stored(s))
      && t.processes == s.abandoned && t.ports.Keys == s.abandoned
      && (forall p :: p in t.ports ==> p in s.ports && t.ports[p] == s.ports[p])
      && t.desired == s.desired && t.count == s.count && t.spawned == s.spawned && t.abandoned == s.abandoned
  {
    hide TearAll;
    StopKeepsInv(s, keys);
    TearAllKeeps(s, keys);
    var t := AfterStop(s, keys);
    assert Stored(t) == {};
    assert t.removals == s.removals + multiset(Stored(s)) by {
      forall p ensures t.removals[p] == s.removals[p] + (if p in Stored(s) then 1 else 0) {
        RemovalsOf(s, p);
        RemovalsOf(t, p);
      }
    }
  }

  /** In a state that conserves handles, what was removed is what was spawned and is neither stored nor abandoned. */
  lemma RemovalsOf(s: State, p: Pid)
    requires Conserved(s)
    ensures s.removals[p] == if p in s.spawned && p !in s.abandoned && p !in Stored(s) then 1 else 0
  {
  }

  /** Stopping a launcher that was never started and holds nothing changes nothing. */
  lemma IdleStop(s: State)
    requires !s.started && s.handles == map[]
    ensures AfterStop(s, []) == s
  {
  }
}
