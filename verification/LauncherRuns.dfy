/** What one reconcile achieves, and what holds after any run of the launcher. */
module LauncherRuns {
  import opened Collections
  import opened Endpoints
  import opened Launcher

  // ---- One reconcile ----

  /** The three loops, with what each finds: the invariant holds after each of them. */
  lemma ReconcilePhases(s: State, starts: Starts, unresponsive: set<Location>, plan: Plan)
    requires Inv(s) && FreshPids(s, starts, Missing(s)) && PlanOf(s, starts, unresponsive, plan)
    ensures Inv(Added(s, starts, plan)) && Inv(Trimmed(s, starts, plan))
    ensures Inv(FailAll(Trimmed(s, starts, plan), plan.fails))
    ensures Added(s, starts, plan).desired == Trimmed(s, starts, plan).desired == s.desired
    ensures FailAll(Trimmed(s, starts, plan), plan.fails).desired == s.desired
    ensures s.spawned <= Added(s, starts, plan).spawned
    ensures FailAll(Trimmed(s, starts, plan), plan.fails).spawned == Added(s, starts, plan).spawned
    ensures forall k :: k in plan.removes ==> k in Added(s, starts, plan).handles
    ensures forall k :: k in plan.fails ==> k in Trimmed(s, starts, plan).handles
  {
    hide AddAll, RemoveAll, FailAll;
    var s1 := s.(count := s.count + 1);
    assert Running(s1) == Running(s) && Stored(s1) == Stored(s);
    var keys := set k | k in plan.adds;
    assert keys == Missing(s);
    AddAllKeepsInv(s1, starts, plan.adds);
    AddAllSpawnedGrows(s1, starts, plan.adds);
    var added, trimmed := Added(s, starts, plan), Trimmed(s, starts, plan);
    RemoveAllEffect(added, plan.removes, "");
    FailAllEffect(trimmed, plan.fails, "");
  }

  lemma {:induction false} AddAllSpawnedGrows(s: State, starts: Starts, keys: seq<Location>)
    ensures s.spawned <= AddAll(s, starts, keys).spawned
    decreases |keys|
  {
    if keys != [] {
      AddAllSpawnedGrows(s, starts, keys[..|keys| - 1]);
    }
  }

  /** The exact outcome at location k. */
  ghost predicate ReconciledAt(s: State, t: State, starts: Starts, unresponsive: set<Location>, k: Location) {
    var start := OutcomeOf(starts, k);
    if k !in s.desired then
      // an undesired server is gone without a trace; an old start error of an undesired location stays
      if k in s.handles then k !in t.handles && k !in t.servers else SameAt(s, t, k)
    else if k !in s.handles && !start.Ready? then
      k !in t.handles && k in t.servers && t.servers[k] == Down(start.error)
    else if k in unresponsive then
      k !in t.handles && k in t.servers && t.servers[k] == Down(PingFailed)
    else if k in s.handles then
      k in t.handles && SameAt(s, t, k)
    else
      && k in t.handles && t.handles[k] == start.pid
      && k in t.servers && t.servers[k] == Up(Endpoint("127.0.0.1", start.port))
  }

  predicate UpAt(s: State, k: Location) {
    k in s.servers && s.servers[k].Up?
  }

  /** The three loops compose at one location, given what each did there. */
  lemma LoopsCompose(s: State, a: State, r: State, t: State, starts: Starts, unresponsive: set<Location>, k: Location)
    requires UpAt(s, k) == (k in s.handles) && UpAt(r, k) == (k in r.handles)
    requires if k in s.desired && k !in s.handles then Attempted(a, k, OutcomeOf(starts, k)) else SameAt(s, a, k)
    requires if k in a.handles && k !in s.desired then k !in r.handles && k !in r.servers else SameAt(a, r, k)
    requires if UpAt(r, k) && k in unresponsive
      then k !in t.handles && k in t.servers && t.servers[k] == Down(PingFailed)
      else SameAt(r, t, k)
    ensures ReconciledAt(s, t, starts, unresponsive, k)
  {
    hide OutcomeOf;
  }

  lemma AgreedAt(s: State, k: Location)
    requires Agreed(s)
    ensures UpAt(s, k) == (k in s.handles)
  {
  }

  lemma AddedAt(s: State, starts: Starts, plan: Plan, k: Location)
    requires Enumerates(plan.adds, Missing(s))
    ensures
      var a := Added(s, starts, plan);
      if k in s.desired && k !in s.handles then Attempted(a, k, OutcomeOf(starts, k)) else SameAt(s, a, k)
  {
    hide AddAll, Attempted;
    if k in plan.adds {
      AddAllAttempts(s.(count := s.count + 1), starts, plan.adds, k);
    } else {
      AddAllElsewhere(s.(count := s.count + 1), starts, plan.adds, k);
    }
  }

  lemma TrimmedAt(s: State, starts: Starts, unresponsive: set<Location>, plan: Plan, k: Location)
    requires Inv(s) && FreshPids(s, starts, Missing(s)) && PlanOf(s, starts, unresponsive, plan)
    ensures
      var a, r := Added(s, starts, plan), Trimmed(s, starts, plan);
      && UpAt(r, k) == (k in r.handles)
      && if k in a.handles && k !in s.desired then k !in r.handles && k !in r.servers else SameAt(a, r, k)
  {
    hide AddAll, RemoveAll, FailAll, SameAt;
    ReconcilePhases(s, starts, unresponsive, plan);
    RemoveAllEffect(Added(s, starts, plan), plan.removes, k);
    AgreedAt(Trimmed(s, starts, plan), k);
  }

  lemma FailedAt(s: State, starts: Starts, unresponsive: set<Location>, plan: Plan, k: Location)
    requires Inv(s) && FreshPids(s, starts, Missing(s)) && PlanOf(s, starts, unresponsive, plan)
    ensures
      var r, t := Trimmed(s, starts, plan), FailAll(Trimmed(s, starts, plan), plan.fails);
      if UpAt(r, k) && k in unresponsive
      then k !in t.handles && k in t.servers && t.servers[k] == Down(PingFailed)
      else SameAt(r, t, k)
  {
    hide AddAll, RemoveAll, FailAll, SameAt;
    ReconcilePhases(s, starts, unresponsive, plan);
    FailAllEffect(Trimmed(s, starts, plan), plan.fails, k);
    assert k in Running(Trimmed(s, starts, plan)) <==> UpAt(Trimmed(s, starts, plan), k);
  }

  /** After a reconcile, every location is exactly as ReconciledAt says, whatever fails and in whatever order. */
  lemma ReconcileResult(s: State, starts: Starts, unresponsive: set<Location>, plan: Plan, k: Location)
    requires Inv(s) && FreshPids(s, starts, Missing(s)) && PlanOf(s, starts, unresponsive, plan) && !Idle(s)
    ensures ReconciledAt(s, AfterReconcile(s, starts, plan), starts, unresponsive, k)
  {
    hide AddAll, RemoveAll, FailAll, SameAt, UpAt, ReconciledAt, Attempted, Added, Trimmed, FreshPids, PlanOf;
    AgreedAt(s, k);
    AddedAt(s, starts, plan, k) by {
      PlanAdds(s, starts, unresponsive, plan);
    }
    TrimmedAt(s, starts, unresponsive, plan, k);
    FailedAt(s, starts, unresponsive, plan, k);
    LoopsCompose(s, Added(s, starts, plan), Trimmed(s, starts, plan), AfterReconcile(s, starts, plan),
                 starts, unresponsive, k);
  }

  lemma PlanAdds(s: State, starts: Starts, unresponsive: set<Location>, plan: Plan)
    requires PlanOf(s, starts, unresponsive, plan)
    ensures Enumerates(plan.adds, Missing(s))
  {
  }

  // ---- Convergence ----

  /** Every missing location starts and every desired one answers its ping. */
  ghost predicate FailureFree(s: State, starts: Starts, unresponsive: set<Location>) {
    && (forall k :: k in Missing(s) ==> OutcomeOf(starts, k).Ready?)
    && s.desired.Keys !! unresponsive
  }

  lemma ReconcileHandles(s: State, starts: Starts, unresponsive: set<Location>, plan: Plan, k: Location)
    requires Inv(s) && FreshPids(s, starts, Missing(s)) && PlanOf(s, starts, unresponsive, plan)
    ensures k in AfterReconcile(s, starts, plan).handles <==>
      k in s.desired && (k in s.handles || OutcomeOf(starts, k).Ready?) && (k !in unresponsive || Idle(s))
  {
    if !Idle(s) {
      hide AfterReconcile;
      ReconcileResult(s, starts, unresponsive, plan, k);
    }
  }

  /** The handled locations become exactly the desired ones if and only if nothing desired fails. */
  lemma ReconcileReachesDesired(s: State, starts: Starts, unresponsive: set<Location>, plan: Plan)
    requires Inv(s) && FreshPids(s, starts, Missing(s)) && PlanOf(s, starts, unresponsive, plan)
    ensures AfterReconcile(s, starts, plan).handles.Keys == s.desired.Keys <==> FailureFree(s, starts, unresponsive)
  {
    hide AfterReconcile, PlanOf, FreshPids, Inv;
    var t := AfterReconcile(s, starts, plan);
    forall k ensures k in t.handles <==>
      k in s.desired && (k in s.handles || OutcomeOf(starts, k).Ready?) && (k !in unresponsive || Idle(s))
    {
      ReconcileHandles(s, starts, unresponsive, plan, k);
    }
  }

  lemma ReconcileKeepsInv(s: State, starts: Starts, unresponsive: set<Location>, plan: Plan)
    requires Inv(s) && FreshPids(s, starts, Missing(s)) && PlanOf(s, starts, unresponsive, plan)
    ensures Inv(AfterReconcile(s, starts, plan)) && AfterReconcile(s, starts, plan).desired == s.desired
    ensures s.spawned <= AfterReconcile(s, starts, plan).spawned
  {
    hide Inv, PlanOf, FreshPids;
    ReconcilePhases(s, starts, unresponsive, plan);
  }

  /** Once the desired set is reached, a reconcile whose pings succeed starts, stops and moves nothing. */
  lemma ReconcileIsStable(s: State, starts: Starts, unresponsive: set<Location>, plan: Plan)
    requires Inv(s) && s.handles.Keys == s.desired.Keys && s.desired.Keys !! unresponsive
    requires PlanOf(s, starts, unresponsive, plan)
    ensures AfterReconcile(s, starts, plan) == s.(count := if Idle(s) then s.count else s.count + 1)
  {
    EnumeratesNothing(plan.adds, Missing(s));
    assert Added(s, starts, plan) == s.(count := s.count + 1);
    EnumeratesNothing(plan.removes, Added(s, starts, plan).handles.Keys - s.desired.Keys);
    assert Trimmed(s, starts, plan) == s.(count := s.count + 1);
    assert Running(Trimmed(s, starts, plan)) == Running(s);
    EnumeratesNothing(plan.fails, Running(Trimmed(s, starts, plan)) * unresponsive);
  }

  lemma EnumeratesNothing(keys: seq<Location>, all: set<Location>)
    requires Enumerates(keys, all)
    ensures keys == [] <==> all == {}
  {
    if keys != [] {
      assert keys[0] in keys;
    }
  }

  /** A desired server that fails its ping is replaced by a new process at the next reconcile that can start it. */
  lemma UnresponsiveIsRestarted(
      s: State, starts: Starts, deaf: set<Location>, plan: Plan,
      starts': Starts, deaf': set<Location>, plan': Plan, k: Location)
    requires Inv(s) && FreshPids(s, starts, Missing(s)) && PlanOf(s, starts, deaf, plan)
    requires
      var t := AfterReconcile(s, starts, plan);
      FreshPids(t, starts', Missing(t)) && PlanOf(t, starts', deaf', plan')
    requires k in s.desired && k in s.handles && k in deaf && k !in deaf' && OutcomeOf(starts', k).Ready?
    ensures
      var u := AfterReconcile(AfterReconcile(s, starts, plan), starts', plan');
      k in u.handles && u.handles[k] != s.handles[k] && u.handles[k] == OutcomeOf(starts', k).pid
  {
    hide AfterReconcile, PlanOf;
    var t := AfterReconcile(s, starts, plan);
    ReconcileKeepsInv(s, starts, deaf, plan);
    ReconcileResult(s, starts, deaf, plan, k);
    assert !Idle(t) && k in Missing(t);
    ReconcileResult(t, starts', deaf', plan', k);
  }

  // ---- A desired-set update during a reconcile ----

  lemma DropsIgnoreDesired(s: State, k: Location, d: map<Location, Entry>)
    ensures RemoveOne(s.(desired := d), k) == RemoveOne(s, k).(desired := d)
    ensures FailOne(s.(desired := d), k) == FailOne(s, k).(desired := d)
  {
    if k in s.handles {
      assert Dropped(s.(desired := d), k) == Dropped(s, k).(desired := d);
    }
  }

  /**
   * The desired set as other threads leave it around one iteration: when it begins, and while it waits for a process
   * to start or to stop. Without an update both are what was there before.
   */
  datatype Late = Late(before: map<Location, Entry>, during: map<Location, Entry>)

  /** One start attempt in its two halves, the spin-up and what follows the readiness wait. */
  function SpunUp(s: State, start: Start): State {
    if start.NotSpawned? then s else WithProcess(s, start.pid, start.port)
  }

  function Waited(s: State, k: Location, start: Start): State {
    var s1 := s.(servers := s.servers[k := start.Outcome()]);
    match start
    case NotSpawned(_) => s1
    case NeverReady(pid, _, _) => s1.(abandoned := s1.abandoned + {pid})
    case Ready(pid, _) => s1.(handles := s1.handles[k := pid])
  }

  /** The add loop as written, over the names of the snapshot: each iteration looks only for a handle. */
  function AddLoop(s: State, starts: Starts, names: seq<Location>, late: seq<Late>): State
    requires |late| == |names|
    decreases |names|
  {
    if names == [] then s
    else
      var n := |names| - 1;
      var s1 := AddLoop(s, starts, names[..n], late[..n]).(desired := late[n].before);
      if names[n] in s1.handles then s1.(desired := late[n].during)
      else
        var start := OutcomeOf(starts, names[n]);
        Waited(SpunUp(s1, start).(desired := late[n].during), names[n], start)
  }

  /**
   * The remove loop as written, over the handles it found: each iteration asks the snapshot, not the desired set. A
   * name without a handle, on which deleting would raise, does not come up: only its own iteration drops a handle.
   */
  function RemoveLoop(s: State, snapshot: set<Location>, names: seq<Location>, late: seq<Late>): State
    requires |late| == |names|
    decreases |names|
  {
    if names == [] then s
    else
      var n := |names| - 1;
      var s1 := RemoveLoop(s, snapshot, names[..n], late[..n]).(desired := late[n].before);
      if names[n] in snapshot || names[n] !in s1.handles then s1.(desired := late[n].during)
      else
        var s2 := TornDown(s1, s1.handles[names[n]]).(desired := late[n].during);
        s2.(handles := s2.handles - {names[n]}, servers := s2.servers - {names[n]})
  }

  /** The health loop as written, over the endpoints it found. */
  function HealthLoop(s: State, unresponsive: set<Location>, names: seq<Location>, late: seq<Late>): State
    requires |late| == |names|
    decreases |names|
  {
    if names == [] then s
    else
      var n := |names| - 1;
      var s1 := HealthLoop(s, unresponsive, names[..n], late[..n]).(desired := late[n].before);
      if names[n] !in unresponsive then s1.(desired := late[n].during)
      else
        var s2 := s1.(servers := s1.servers[names[n] := Down(PingFailed)], handles := s1.handles - {names[n]},
                      desired := late[n].during);
        if names[n] in s1.handles then TornDown(s2, s1.handles[names[n]]) else s2
  }

  function LastDesired(d: map<Location, Entry>, late: seq<Late>): map<Location, Entry> {
    if late == [] then d else late[|late| - 1].during
  }

  function Without(handles: map<Location, Pid>): Location -> bool {
    k => k !in handles
  }

  function Outside(snapshot: set<Location>): Location -> bool {
    k => k !in snapshot
  }

  function Inside(unresponsive: set<Location>): Location -> bool {
    k => k in unresponsive
  }

  lemma LateStart(s: State, k: Location, start: Start, d: map<Location, Entry>, late: Late)
    ensures Waited(SpunUp(s.(desired := d).(desired := late.before), start).(desired := late.during), k, start) ==
      AddOne(s, k, start).(desired := late.during)
  {
  }

  lemma LateRemove(s: State, k: Location, d: map<Location, Entry>, late: Late)
    requires k in s.handles
    ensures
      var s2 := TornDown(s.(desired := d).(desired := late.before), s.handles[k]).(desired := late.during);
      s2.(handles := s2.handles - {k}, servers := s2.servers - {k}) == RemoveOne(s, k).(desired := late.during)
  {
  }

  lemma LateFail(s: State, k: Location, d: map<Location, Entry>, late: Late)
    ensures
      var s1 := s.(desired := d).(desired := late.before);
      var s2 := s1.(servers := s1.servers[k := Down(PingFailed)], handles := s1.handles - {k}, desired := late.during);
      (if k in s1.handles then TornDown(s2, s1.handles[k]) else s2) == FailOne(s, k).(desired := late.during)
  {
    assert k !in s.handles ==> s.handles - {k} == s.handles;
  }

  /** Whatever lands meanwhile, the add loop attempts the names of the snapshot that had no handle when it began. */
  lemma {:induction false} AddLoopIsAddAll(s: State, starts: Starts, names: seq<Location>, late: seq<Late>)
    requires NoDup(names) && |late| == |names|
    ensures AddLoop(s, starts, names, late) ==
      AddAll(s, starts, Filter(names, Without(s.handles))).(desired := LastDesired(s.desired, late))
    decreases |names|
  {
    if names != [] {
      hide AddOne, Waited, SpunUp, OutcomeOf, AddAll;
      var n := |names| - 1;
      var front, k := names[..n], names[n];
      var keys := Filter(front, Without(s.handles));
      assert names == front + [k] && k !in front;
      AddLoopIsAddAll(s, starts, front, late[..n]);
      InFilter(front, Without(s.handles));
      AddAllElsewhere(s, starts, keys, k);
      FilterSnoc(names, n, Without(s.handles));
      assert names[..n + 1] == names;
      if k !in s.handles {
        AddAllSnoc(s, starts, keys, k);
        LateStart(AddAll(s, starts, keys), k, OutcomeOf(starts, k), LastDesired(s.desired, late[..n]), late[n]);
      } else {
        assert keys + [] == keys;
      }
    } else {
      assert AddLoop(s, starts, names, late) == s.(desired := s.desired);
    }
  }

  lemma RemoveAllElsewhere(s: State, keys: seq<Location>, k: Location)
    requires k !in keys
    ensures k in RemoveAll(s, keys).handles <==> k in s.handles
  {
    RemoveAllHandles(s, keys);
  }

  /** The remove loop removes what it found outside the snapshot. */
  lemma {:induction false} RemoveLoopIsRemoveAll(
      s: State, snapshot: set<Location>, names: seq<Location>, late: seq<Late>)
    requires NoDup(names) && |late| == |names| && forall k :: k in names ==> k in s.handles
    ensures RemoveLoop(s, snapshot, names, late) ==
      RemoveAll(s, Filter(names, Outside(snapshot))).(desired := LastDesired(s.desired, late))
    decreases |names|
  {
    if names != [] {
      hide RemoveOne, TornDown, RemoveAll;
      var n := |names| - 1;
      var front, k := names[..n], names[n];
      var keys := Filter(front, Outside(snapshot));
      assert names == front + [k] && k !in front;
      RemoveLoopIsRemoveAll(s, snapshot, front, late[..n]);
      InFilter(front, Outside(snapshot));
      RemoveAllElsewhere(s, keys, k);
      FilterSnoc(names, n, Outside(snapshot));
      assert names[..n + 1] == names;
      if k !in snapshot {
        RemoveAllSnoc(s, keys, k);
        LateRemove(RemoveAll(s, keys), k, LastDesired(s.desired, late[..n]), late[n]);
      } else {
        assert keys + [] == keys;
      }
    } else {
      assert RemoveLoop(s, snapshot, names, late) == s.(desired := s.desired);
    }
  }

  /** The health loop fails what it found and could not ping. */
  lemma {:induction false} HealthLoopIsFailAll(
      s: State, unresponsive: set<Location>, names: seq<Location>, late: seq<Late>)
    requires |late| == |names|
    ensures HealthLoop(s, unresponsive, names, late) ==
      FailAll(s, Filter(names, Inside(unresponsive))).(desired := LastDesired(s.desired, late))
    decreases |names|
  {
    if names != [] {
      hide FailOne, TornDown, FailAll;
      var n := |names| - 1;
      var front, k := names[..n], names[n];
      var keys := Filter(front, Inside(unresponsive));
      assert names == front + [k];
      HealthLoopIsFailAll(s, unresponsive, front, late[..n]);
      FilterSnoc(names, n, Inside(unresponsive));
      assert names[..n + 1] == names;
      if k in unresponsive {
        FailAllSnoc(s, keys, k);
        LateFail(FailAll(s, keys), k, LastDesired(s.desired, late[..n]), late[n]);
      } else {
        assert keys + [] == keys;
      }
    } else {
      assert HealthLoop(s, unresponsive, names, late) == s.(desired := s.desired);
    }
  }

  /** The names each loop goes over, and the updates that land meanwhile. */
  datatype Course = Course(names: seq<Location>, late: seq<Late>)

  /** A reconcile while updates land: the snapshot is what s desires, and the later loops find what is there. */
  ghost predicate Disturbed(
      s: State, starts: Starts, unresponsive: set<Location>, add: Course, remove: Course, health: Course, t: State)
  {
    && |add.late| == |add.names| && |remove.late| == |remove.names| && |health.late| == |health.names|
    && Enumerates(add.names, s.desired.Keys)
    && var added := AddLoop(s.(count := s.count + 1), starts, add.names, add.late);
    && Enumerates(remove.names, added.handles.Keys)
    && var trimmed := RemoveLoop(added, s.desired.Keys, remove.names, remove.late);
    && Enumerates(health.names, Running(trimmed))
    && t == HealthLoop(trimmed, unresponsive, health.names, health.late)
  }

  /** What the disturbed loops act on. */
  function PlanFor(s: State, unresponsive: set<Location>, add: Course, remove: Course, health: Course): Plan {
    Plan(Filter(add.names, Without(s.handles)), Filter(remove.names, Outside(s.desired.Keys)),
         Filter(health.names, Inside(unresponsive)))
  }

  lemma FilterEnumerates(names: seq<Location>, all: set<Location>, p: Location -> bool, some: set<Location>)
    requires Enumerates(names, all) && forall k :: k in some <==> k in all && p(k)
    ensures Enumerates(Filter(names, p), some)
  {
    FilterNoDup(names, p);
    InFilter(names, p);
  }

  lemma {:induction false} LoopsIgnoreDesired(s: State, keys: seq<Location>, d: map<Location, Entry>)
    ensures RemoveAll(s.(desired := d), keys) == RemoveAll(s, keys).(desired := d)
    ensures FailAll(s.(desired := d), keys) == FailAll(s, keys).(desired := d)
    decreases |keys|
  {
    hide RemoveOne, FailOne;
    if keys != [] {
      var front, k := keys[..|keys| - 1], keys[|keys| - 1];
      LoopsIgnoreDesired(s, front, d);
      DropsIgnoreDesired(RemoveAll(s, front), k, d);
      DropsIgnoreDesired(FailAll(s, front), k, d);
    }
  }

  /**
   * A reconcile works from the snapshot it took. Whatever updates of the desired set land between or inside the
   * iterations of its loops, it starts, removes and fails what an undisturbed one may: the loops act on a plan for s,
   * and the result is that plan's, with the last update stored for the next reconcile.
   */
  lemma LateUpdatesWaitForNextReconcile(
      s: State, starts: Starts, unresponsive: set<Location>, add: Course, remove: Course, health: Course, t: State)
    requires !Idle(s) && Disturbed(s, starts, unresponsive, add, remove, health, t)
    ensures PlanOf(s, starts, unresponsive, PlanFor(s, unresponsive, add, remove, health))
    ensures t == AfterReconcile(s, starts, PlanFor(s, unresponsive, add, remove, health)).(desired :=
      LastDesired(s.desired, add.late + remove.late + health.late))
  {
    hide AddAll, RemoveAll, FailAll, AddLoop, RemoveLoop, HealthLoop, Enumerates, Filter;
    var s1 := s.(count := s.count + 1);
    var plan := PlanFor(s, unresponsive, add, remove, health);
    var d1 := LastDesired(s.desired, add.late);
    var d2 := LastDesired(d1, remove.late);
    AddedWhileDisturbed(s, starts, add);
    TrimmedWhileDisturbed(s, starts, plan, remove, d1);
    HealthLoopIsFailAll(Trimmed(s, starts, plan).(desired := d2), unresponsive, health.names, health.late);
    LoopsIgnoreDesired(Trimmed(s, starts, plan), plan.fails, d2);
    assert Running(Trimmed(s, starts, plan).(desired := d2)) == Running(Trimmed(s, starts, plan));
    FilterEnumerates(add.names, s.desired.Keys, Without(s.handles), Missing(s));
    FilterEnumerates(remove.names, Added(s, starts, plan).handles.Keys, Outside(s.desired.Keys),
                     Added(s, starts, plan).handles.Keys - s.desired.Keys);
    FilterEnumerates(health.names, Running(Trimmed(s, starts, plan)), Inside(unresponsive),
                     Running(Trimmed(s, starts, plan)) * unresponsive);
    LastOfAll(s.desired, add.late, remove.late, health.late);
  }

  lemma AddedWhileDisturbed(s: State, starts: Starts, add: Course)
    requires |add.late| == |add.names| && Enumerates(add.names, s.desired.Keys)
    ensures AddLoop(s.(count := s.count + 1), starts, add.names, add.late) ==
      AddAll(s.(count := s.count + 1), starts, Filter(add.names, Without(s.handles))).(desired :=
        LastDesired(s.desired, add.late))
  {
    AddLoopIsAddAll(s.(count := s.count + 1), starts, add.names, add.late);
  }

  lemma TrimmedWhileDisturbed(s: State, starts: Starts, plan: Plan, remove: Course, d: map<Location, Entry>)
    requires |remove.late| == |remove.names| && Enumerates(remove.names, Added(s, starts, plan).handles.Keys)
    requires plan.removes == Filter(remove.names, Outside(s.desired.Keys))
    ensures
      RemoveLoop(Added(s, starts, plan).(desired := d), s.desired.Keys, remove.names, remove.late) ==
      Trimmed(s, starts, plan).(desired := LastDesired(d, remove.late))
  {
    hide RemoveAll, AddAll, RemoveLoop, Filter;
    var added := Added(s, starts, plan);
    RemoveLoopIsRemoveAll(added.(desired := d), s.desired.Keys, remove.names, remove.late);
    LoopsIgnoreDesired(added, plan.removes, d);
  }

  lemma LastOfAll(d: map<Location, Entry>, a: seq<Late>, b: seq<Late>, c: seq<Late>)
    ensures LastDesired(LastDesired(LastDesired(d, a), b), c) == LastDesired(d, a + b + c)
  {
    assert a + b + [] == a + b;
    assert a + [] == a;
  }

  // ---- What the accessors say after a reconcile ----

  /** Each desired location then has either an endpoint or an error, and the launcher says that it is ready. */
  lemma EveryDesiredLocationAnswers(s: State, starts: Starts, unresponsive: set<Location>, plan: Plan, k: Location)
    requires Inv(s) && FreshPids(s, starts, Missing(s)) && PlanOf(s, starts, unresponsive, plan) && !Idle(s)
    ensures
      var t := AfterReconcile(s, starts, plan);
      && ReadyIn(t)
      && (k in s.desired ==> (EndpointOf(t, k).Some? <==> ErrorOf(t, k).None?))
      && (k in s.desired ==> (EndpointOf(t, k).Some? <==> k in t.handles))
  {
    hide AddAll, RemoveAll, FailAll, AfterReconcile;
    ReconcileResult(s, starts, unresponsive, plan, k);
    ReconcileKeepsInv(s, starts, unresponsive, plan);
    AgreedAt(AfterReconcile(s, starts, plan), k);
    ReconcileCounts(s, starts, plan);
  }

  lemma ReconcileCounts(s: State, starts: Starts, plan: Plan)
    requires !Idle(s)
    ensures AfterReconcile(s, starts, plan).count == s.count + 1
  {
    CountIsKept(s.(count := s.count + 1), starts, plan.adds);
    CountIsKept(Added(s, starts, plan), starts, plan.removes);
    CountIsKept(Trimmed(s, starts, plan), starts, plan.fails);
  }

  lemma OneStepKeepsCount(s: State, k: Location, start: Start)
    ensures AddOne(s, k, start).count == RemoveOne(s, k).count == FailOne(s, k).count == s.count
  {
  }

  lemma {:induction false} CountIsKept(s: State, starts: Starts, keys: seq<Location>)
    ensures AddAll(s, starts, keys).count == RemoveAll(s, keys).count == FailAll(s, keys).count == s.count
    decreases |keys|
  {
    hide AddOne, RemoveOne, FailOne, OutcomeOf;
    if keys != [] {
      var front, k := keys[..|keys| - 1], keys[|keys| - 1];
      CountIsKept(s, starts, front);
      OneStepKeepsCount(AddAll(s, starts, front), k, OutcomeOf(starts, k));
      OneStepKeepsCount(RemoveAll(s, front), k, OutcomeOf(starts, k));
      OneStepKeepsCount(FailAll(s, front), k, OutcomeOf(starts, k));
    }
  }

  // ---- Whole runs ----

  datatype Step =
    | DoUpdate(entries: map<Location, Entry>)
    | DoStart
    | DoReconcile(starts: Starts, unresponsive: set<Location>, plan: Plan)
    | DoStop(keys: seq<Location>)

  /** What the environment and the dict orders may supply in state s. */
  ghost predicate Possible(s: State, step: Step) {
    match step
    case DoReconcile(starts, unresponsive, plan) =>
      FreshPids(s, starts, Missing(s)) && PlanOf(s, starts, unresponsive, plan)
    case DoStop(keys) => Enumerates(keys, s.handles.Keys)
    case _ => true
  }

  function Next(s: State, step: Step): State
    requires step.DoStop? ==> forall k :: k in step.keys ==> k in s.handles
  {
    match step
    case DoUpdate(entries) => s.(desired := entries)
    case DoStart => s.(started := true)
    case DoReconcile(starts, _, plan) => AfterReconcile(s, starts, plan)
    case DoStop(keys) => AfterStop(s, keys)
  }

  /** An update replaces the desired set and a start sets the flag; neither touches anything else. */
  lemma OtherStepsAre(s: State, entries: map<Location, Entry>)
    ensures Next(s, DoUpdate(entries)) ==
      State(entries, s.handles, s.servers, s.processes, s.ports, s.count, s.started, s.spawned, s.removals, s.abandoned)
    ensures Next(s, DoStart) ==
      State(s.desired, s.handles, s.servers, s.processes, s.ports, s.count, true, s.spawned, s.removals, s.abandoned)
  {
  }

  ghost predicate PossibleRun(s: State, steps: seq<Step>)
    decreases |steps|
  {
    steps == [] || (Possible(s, steps[0]) && PossibleRun(Next(s, steps[0]), steps[1..]))
  }

  ghost function Run(s: State, steps: seq<Step>): State
    requires PossibleRun(s, steps)
    decreases |steps|
  {
    if steps == [] then s else Run(Next(s, steps[0]), steps[1..])
  }

  lemma TearOneIsRemoveOne(r: State, k: Location, h: map<Location, Pid>, v: map<Location, Server>)
    requires k in r.handles
    ensures TornDown(r.(handles := h, servers := v), r.handles[k]) == RemoveOne(r, k).(handles := h, servers := v)
  {
  }

  lemma {:induction false} RemoveAllHandles(s: State, keys: seq<Location>)
    ensures RemoveAll(s, keys).handles == s.handles - (set k | k in keys)
    decreases |keys|
  {
    hide RemoveOne;
    if keys != [] {
      var n := |keys| - 1;
      assert keys == keys[..n] + [keys[n]];
      RemoveAllHandles(s, keys[..n]);
      RemoveOneHandles(RemoveAll(s, keys[..n]), keys[n]);
    }
  }

  /** Stopping tears down what removing every location would. */
  lemma {:induction false} TearAllIsRemoveAll(s: State, keys: seq<Location>)
    requires NoDup(keys) && forall k :: k in keys ==> k in s.handles
    ensures TearAll(s, keys) == RemoveAll(s, keys).(handles := s.handles, servers := s.servers)
    decreases |keys|
  {
    hide TornDown, RemoveOne;
    if keys != [] {
      var front, k := keys[..|keys| - 1], keys[|keys| - 1];
      assert keys == front + [k] && k !in front;
      TearAllIsRemoveAll(s, front);
      RemoveAllHandles(s, front);
      TearOneIsRemoveOne(RemoveAll(s, front), k, s.handles, s.servers);
      assert TearAll(s, keys) == TornDown(TearAll(s, front), s.handles[k]);
    }
  }

  lemma StopKeepsInv(s: State, keys: seq<Location>)
    requires Inv(s) && Enumerates(keys, s.handles.Keys)
    ensures Inv(AfterStop(s, keys))
  {
    hide TearAll, RemoveAll;
    TearAllIsRemoveAll(s, keys);
    RemoveAllHandles(s, keys);
    RemoveAllEffect(s, keys, "");
    var r := RemoveAll(s, keys);
    assert (set k | k in keys) == s.handles.Keys;
    assert r.handles == map[];
    ClearKeepsInv(r);
  }

  lemma ClearKeepsInv(r: State)
    requires Inv(r) && r.handles == map[]
    ensures Inv(r.(servers := map[], started := false))
  {
  }

  lemma NextKeepsInv(s: State, step: Step)
    requires Inv(s) && Possible(s, step)
    ensures Inv(Next(s, step))
  {
    match step
    case DoReconcile(starts, unresponsive, plan) =>
      hide Inv;
      ReconcileKeepsInv(s, starts, unresponsive, plan);
    case DoStop(keys) =>
      hide Inv;
      StopKeepsInv(s, keys);
    case _ =>
      var t := Next(s, step);
      assert Stored(t) == Stored(s) && Running(t) == Running(s);
  }

  lemma {:induction false} RunKeepsInv(s: State, steps: seq<Step>)
    requires Inv(s) && PossibleRun(s, steps)
    ensures Inv(Run(s, steps))
    decreases |steps|
  {
    hide Inv;
    if steps != [] {
      NextKeepsInv(s, steps[0]);
      RunKeepsInv(Next(s, steps[0]), steps[1..]);
    }
  }

  /**
   * Handle conservation. Over any run from a fresh launcher, every pid ever spawned is in exactly one of three
   * places: stored under exactly one location, passed to _remove_server_handle exactly once, or abandoned by a
   * readiness wait that raised. Nothing else is ever removed.
   */
  lemma HandleConservation(steps: seq<Step>, p: Pid)
    requires PossibleRun(INITIAL, steps)
    ensures
      var s := Run(INITIAL, steps);
      && Injective(s.handles)
      && (p in s.spawned <==> p in Stored(s) || p in s.removals || p in s.abandoned)
      && (p in Stored(s) ==> s.removals[p] == 0 && p !in s.abandoned)
      && (p in s.removals ==> s.removals[p] == 1 && p !in s.abandoned)
  {
    assert Stored(INITIAL) == {} && Running(INITIAL) == {};
    RunKeepsInv(INITIAL, steps);
  }

  /**
   * Agreement. After any run the handled locations are the running ones; each runs on 127.0.0.1 at the port
   * recorded for its process; and both process tables hold exactly the stored and the abandoned processes.
   */
  lemma HandlesAndEndpointsAgree(steps: seq<Step>, k: Location)
    requires PossibleRun(INITIAL, steps)
    ensures
      var s := Run(INITIAL, steps);
      && s.handles.Keys == Running(s)
      && s.processes == s.ports.Keys == Stored(s) + s.abandoned
      && (k in s.handles ==>
            s.handles[k] in s.ports && s.servers[k] == Up(Endpoint("127.0.0.1", s.ports[s.handles[k]])))
  {
    assert Stored(INITIAL) == {} && Running(INITIAL) == {};
    RunKeepsInv(INITIAL, steps);
  }
}
