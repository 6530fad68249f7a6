/** Whole runs of the work queue: every interleaving of sessions under a clock that never goes back. */
module QueueRuns {
  import opened Collections
  import opened RequestQueue

  datatype Step =
    | DoEnqueue(id: Id, api: string, body: string, location: Option<string>, labels: Option<Labels>, ttl: int)
    | DoPop(agent: string, agentLabels: Option<Labels>, limit: nat)
    | DoFinish(request: Id, sender: Option<string>, outcome: Status, response: Option<string>)
    | DoRequeue
    | Tick(elapsed: nat)
  {
    /** The REST handlers answer 401 without an agent id, so every session names its agent. */
    predicate Authenticated() {
      DoFinish? ==> outcome in {Completed, Failed} && sender.Some? && sender.value != ""
    }
  }

  datatype World = World(table: Table, now: int)
  {
    ghost predicate Valid() {
      table.Valid()
    }
  }

  function Next(w: World, step: Step): World {
    match step
    case DoEnqueue(id, api, body, location, labels, ttl) =>
      w.(table := AfterEnqueue(w.table, id, w.now, api, body, location, labels, ttl))
    case DoPop(agent, labels, limit) =>
      w.(table := AfterPop(w.table, Popped(w.table, w.now, labels, limit), agent, w.now))
    case DoFinish(id, agent, outcome, response) =>
      w.(table := Finish(w.table, id, agent, outcome, response))
    case DoRequeue =>
      w.(table := AfterRequeue(w.table, w.now))
    case Tick(elapsed) =>
      w.(now := w.now + elapsed)
  }

  /** The requests one step hands to an agent. */
  function Claims(w: World, step: Step): seq<Id> {
    if step.DoPop? then Popped(w.table, w.now, step.agentLabels, step.limit) else []
  }

  function Run(w: World, steps: seq<Step>): World
    decreases |steps|
  {
    if steps == [] then w else Run(Next(w, steps[0]), steps[1..])
  }

  /** All requests handed out over a run, in order. */
  function RunClaims(w: World, steps: seq<Step>): seq<Id>
    decreases |steps|
  {
    if steps == [] then [] else Claims(w, steps[0]) + RunClaims(Next(w, steps[0]), steps[1..])
  }

  ghost predicate AllAuthenticated(steps: seq<Step>) {
    forall s :: s in steps ==> s.Authenticated()
  }

  lemma NextValid(w: World, step: Step)
    requires w.Valid()
    ensures Next(w, step).Valid()
    ensures w.table.rows.Keys <= Next(w, step).table.rows.Keys && w.now <= Next(w, step).now
  {
    if step.DoEnqueue? {
      EnqueueValid(w.table, step.id, w.now, step.api, step.body, step.location, step.labels, step.ttl);
    }
  }

  /** The row order stays the order of created_at, so the oldest rows are always the first. */
  lemma {:induction false} RunStaysChronological(w: World, steps: seq<Step>)
    requires w.Valid() && w.table.Chronological(w.now)
    ensures Run(w, steps).Valid() && Run(w, steps).table.Chronological(Run(w, steps).now)
    decreases |steps|
  {
    if steps != [] {
      NextValid(w, steps[0]);
      NextIsChronological(w, steps[0]);
      RunStaysChronological(Next(w, steps[0]), steps[1..]);
    }
  }

  lemma SameTimesSameOrder(t: Table, u: Table, now: int, later: int)
    requires t.Valid() && t.Chronological(now) && now <= later
    requires u.order == t.order && u.rows.Keys == t.rows.Keys
    requires forall id :: id in t.rows ==> u.rows[id].createdAt == t.rows[id].createdAt
    ensures u.Valid() && u.Chronological(later)
  {
  }

  lemma NextIsChronological(w: World, step: Step)
    requires w.Valid() && w.table.Chronological(w.now)
    ensures Next(w, step).Valid() && Next(w, step).table.Chronological(Next(w, step).now)
  {
    hide Popped, Table.Valid, Table.Chronological;
    if step.DoEnqueue? {
      EnqueueValid(w.table, step.id, w.now, step.api, step.body, step.location, step.labels, step.ttl);
    } else {
      SameTimesSameOrder(w.table, Next(w, step).table, w.now, Next(w, step).now);
    }
  }

  // ---- A request is handed out at most once ----

  /** Claimed before, finished, or back in the queue with its expiry already behind the clock. */
  predicate Spent(w: World, id: Id) {
    id in w.table.rows &&
    (w.table.rows[id].status == Pending ==>
       w.table.rows[id].expiresAt.Some? && w.table.rows[id].expiresAt.value < w.now)
  }

  lemma SpentStaysSpent(w: World, step: Step, id: Id)
    requires w.Valid() && step.Authenticated() && Spent(w, id)
    ensures Spent(Next(w, step), id) && id !in Claims(w, step)
  {
    if step.DoPop? {
      PoppedAreClaimable(w.table, w.now, step.agentLabels, step.limit);
    }
  }

  lemma {:induction false} SpentIsNeverClaimed(w: World, steps: seq<Step>, id: Id)
    requires w.Valid() && AllAuthenticated(steps) && Spent(w, id)
    ensures id !in RunClaims(w, steps)
    decreases |steps|
  {
    if steps != [] {
      NextValid(w, steps[0]);
      SpentStaysSpent(w, steps[0], id);
      SpentIsNeverClaimed(Next(w, steps[0]), steps[1..], id);
    }
  }

  /** In any run from any valid table, no request id is returned twice, by one pop or by two. */
  lemma {:induction false} ClaimedAtMostOnce(w: World, steps: seq<Step>)
    requires w.Valid() && AllAuthenticated(steps)
    ensures NoDup(RunClaims(w, steps))
    decreases |steps|
  {
    if steps != [] {
      var w' := Next(w, steps[0]);
      NextValid(w, steps[0]);
      ClaimedAtMostOnce(w', steps[1..]);
      if steps[0].DoPop? {
        PoppedAreClaimable(w.table, w.now, steps[0].agentLabels, steps[0].limit);
        forall id | id in Claims(w, steps[0]) ensures id !in RunClaims(w', steps[1..]) {
          SpentIsNeverClaimed(w', steps[1..], id);
        }
      }
    }
  }

  // ---- Ownership ----

  /** Unowned, unclaimed and pending are the same thing. */
  predicate Owned(row: Row) {
    && (row.status == Pending <==> row.owner.None?)
    && (row.owner.None? <==> row.poppedAt.None?)
  }

  ghost predicate AllOwned(w: World) {
    forall id :: id in w.table.rows ==> Owned(w.table.rows[id])
  }

  lemma OwnershipStep(w: World, step: Step)
    requires w.Valid() && step.Authenticated() && AllOwned(w)
    ensures AllOwned(Next(w, step))
  {
  }

  lemma {:induction false} OwnershipHolds(w: World, steps: seq<Step>)
    requires w.Valid() && AllAuthenticated(steps) && AllOwned(w)
    ensures Run(w, steps).Valid() && AllOwned(Run(w, steps))
    decreases |steps|
  {
    if steps != [] {
      NextValid(w, steps[0]);
      assert steps[0].Authenticated();
      OwnershipStep(w, steps[0]);
      OwnershipHolds(Next(w, steps[0]), steps[1..]);
    }
  }

  predicate Terminal(row: Row) {
    row.status in {Completed, Failed}
  }

  /** A finished request stays finished, with the agent that finished it and the claim time it had. */
  lemma {:induction false} FinishedStaysFinished(w: World, steps: seq<Step>, id: Id)
    requires w.Valid() && AllAuthenticated(steps)
    requires id in w.table.rows && Terminal(w.table.rows[id])
    ensures id in Run(w, steps).table.rows
    ensures
      var was, end := w.table.rows[id], Run(w, steps).table.rows[id];
      Terminal(end) && end.owner == was.owner && end.poppedAt == was.poppedAt && end.expiresAt == was.expiresAt
    decreases |steps|
  {
    if steps != [] {
      NextValid(w, steps[0]);
      assert steps[0].Authenticated();
      if steps[0].DoPop? {
        PoppedAreClaimable(w.table, w.now, steps[0].agentLabels, steps[0].limit);
      }
      FinishedStaysFinished(Next(w, steps[0]), steps[1..], id);
    }
  }

  /** Only its owner can move a claimed request to a finished one; anybody else is told it was not found. */
  lemma OnlyOwnerFinishes(w: World, step: Step, id: Id)
    requires w.Valid() && step.Authenticated() && id in w.table.rows
    requires !Terminal(w.table.rows[id])
    ensures id in Next(w, step).table.rows
    ensures Terminal(Next(w, step).table.rows[id]) <==>
      step.DoFinish? && step.request == id && w.table.rows[id].owner == step.sender
    ensures Terminal(Next(w, step).table.rows[id]) && Owned(w.table.rows[id]) ==> w.table.rows[id].status == Processing
  {
    if step.DoPop? {
      PoppedAreClaimable(w.table, w.now, step.agentLabels, step.limit);
    }
  }

  /** What a step does to the verdict on a request, when it is its owner that completes or fails it. */
  function Verdict(step: Step, id: Id, owner: Option<string>): Option<(Status, Option<string>)> {
    if step.DoFinish? && step.request == id && step.sender == owner then Some((step.outcome, step.response)) else None
  }

  /**
   * A completed request becomes failed in a step exactly when its owner fails it; the statements do not look at the
   * status.
   */
  lemma CompletedFailsIff(w: World, step: Step, id: Id)
    requires w.Valid() && step.Authenticated()
    requires id in w.table.rows && w.table.rows[id].status == Completed
    ensures id in Next(w, step).table.rows
    ensures Next(w, step).table.rows[id].status == Failed <==>
      step.DoFinish? && step.request == id && step.outcome == Failed && w.table.rows[id].owner == step.sender
  {
    if step.DoPop? {
      PoppedAreClaimable(w.table, w.now, step.agentLabels, step.limit);
    }
  }

  /** The last verdict of the owner in a run, newest first. */
  function LastVerdict(steps: seq<Step>, id: Id, owner: Option<string>): Option<(Status, Option<string>)>
    decreases |steps|
  {
    if steps == [] then None
    else
      var later := LastVerdict(steps[1..], id, owner);
      if later.Some? then later else Verdict(steps[0], id, owner)
  }

  lemma FinishedStep(w: World, step: Step, id: Id)
    requires w.Valid() && step.Authenticated() && id in w.table.rows && Terminal(w.table.rows[id])
    ensures id in Next(w, step).table.rows
    ensures
      var was := w.table.rows[id];
      var verdict := Verdict(step, id, was.owner);
      Next(w, step).table.rows[id] ==
        if verdict.Some? then was.(status := verdict.value.0, response := verdict.value.1) else was
  {
    if step.DoPop? {
      PoppedAreClaimable(w.table, w.now, step.agentLabels, step.limit);
    }
  }

  /**
   * Over any run, a finished request ends with the last verdict of its owner, and in every other field, and without
   * one entirely, as it was. So a completed request ends failed exactly when the owner's last verdict is a failure.
   */
  lemma {:induction false} LastVerdictDecides(w: World, steps: seq<Step>, id: Id)
    requires w.Valid() && AllAuthenticated(steps)
    requires id in w.table.rows && Terminal(w.table.rows[id])
    ensures id in Run(w, steps).table.rows
    ensures
      var was := w.table.rows[id];
      var verdict := LastVerdict(steps, id, was.owner);
      Run(w, steps).table.rows[id] ==
        if verdict.Some? then was.(status := verdict.value.0, response := verdict.value.1) else was
    decreases |steps|
  {
    if steps != [] {
      hide World.Valid, Next, Verdict, Terminal;
      NextValid(w, steps[0]);
      assert steps[0].Authenticated();
      FinishedStep(w, steps[0], id);
      FinishedIsTerminal(w, steps[0], id);
      LastVerdictDecides(Next(w, steps[0]), steps[1..], id);
    }
  }

  lemma FinishedIsTerminal(w: World, step: Step, id: Id)
    requires w.Valid() && step.Authenticated() && id in w.table.rows && Terminal(w.table.rows[id])
    ensures id in Next(w, step).table.rows && Terminal(Next(w, step).table.rows[id])
  {
    FinishedStep(w, step, id);
  }

  /** An empty queue, one request, one agent: the request is completed and then failed. */
  lemma CompletedThenFailed(id: Id, agent: string, ttl: int, response: Option<string>, error: Option<string>)
    requires ttl > 0 && agent != ""
    ensures
      var empty := World(Table(map[], []), 0);
      var before := [DoEnqueue(id, "PING_LOCATION", "{}", None, None, ttl), DoPop(agent, None, 10)];
      var complete, fail := DoFinish(id, Some(agent), Completed, response), DoFinish(id, Some(agent), Failed, error);
      var completed := Next(Run(empty, before), complete);
      && empty.Valid() && RunClaims(empty, before) == [id]
      && id in completed.table.rows && completed.table.rows[id].status == Completed
      && id in Next(completed, fail).table.rows && Next(completed, fail).table.rows[id].status == Failed
  {
    var empty := World(Table(map[], []), 0);
    var enqueue, pop := DoEnqueue(id, "PING_LOCATION", "{}", None, None, ttl), DoPop(agent, None, 10);
    var queued := Next(empty, enqueue);
    TwoSteps(empty, enqueue, pop);
    EnqueuedIsLast(empty.table, id, 0, "PING_LOCATION", "{}", None, None, ttl, 0);
    UnlabelledPopIsFifo(queued.table, 0, None, 10);
    assert Popped(queued.table, 0, None, 10) == [id];
  }

  // ---- What requeueing does ----

  /** Pending, unowned and past its expiry. */
  predicate Dead(w: World, id: Id) {
    id in w.table.rows && w.table.rows[id].status == Pending && w.table.rows[id].owner.None? &&
    w.table.rows[id].expiresAt.Some? && w.table.rows[id].expiresAt.value < w.now
  }

  lemma {:induction false} DeadRowsAreFrozen(w: World, steps: seq<Step>, id: Id)
    requires w.Valid() && AllAuthenticated(steps) && Dead(w, id)
    ensures Dead(Run(w, steps), id) && Run(w, steps).table.rows[id] == w.table.rows[id]
    decreases |steps|
  {
    if steps != [] {
      NextValid(w, steps[0]);
      SpentStaysSpent(w, steps[0], id);
      DeadRowsAreFrozen(Next(w, steps[0]), steps[1..], id);
    }
  }

  /** A requeued request is never delivered again: no later pop returns it, to anybody. */
  lemma RequeuedIsNeverRedelivered(w: World, id: Id, steps: seq<Step>)
    requires w.Valid() && AllAuthenticated(steps)
    requires id in w.table.rows && Stale(w.table.rows[id], w.now)
    ensures id !in RunClaims(Next(w, DoRequeue), steps)
  {
    NextValid(w, DoRequeue);
    SpentIsNeverClaimed(Next(w, DoRequeue), steps, id);
  }

  /**
   * The row a requeue resets is frozen from then on, and complete and fail find nothing for any agent, its former
   * owner included.
   */
  lemma RequeuedIsLostToItsOwner(w: World, id: Id, steps: seq<Step>, agent: string)
    requires w.Valid() && AllAuthenticated(steps) && agent != ""
    requires id in w.table.rows && Stale(w.table.rows[id], w.now)
    ensures id in Run(Next(w, DoRequeue), steps).table.rows
    ensures Run(Next(w, DoRequeue), steps).table.rows[id] == Requeued(w.table.rows[id])
    ensures !MayFinish(Run(Next(w, DoRequeue), steps).table, id, Some(agent))
  {
    NextValid(w, DoRequeue);
    DeadRowsAreFrozen(Next(w, DoRequeue), steps, id);
  }

  // ---- Draining ----

  function Sum(delays: seq<nat>): nat {
    if delays == [] then 0 else delays[0] + Sum(delays[1..])
  }

  /** One polling round: wait, then pop. */
  function AfterPoll(w: World, delay: nat, agent: string, limit: nat): World {
    var now := w.now + delay;
    World(AfterPop(w.table, Popped(w.table, now, None, limit), agent, now), now)
  }

  lemma TwoSteps(w: World, a: Step, b: Step)
    ensures Run(w, [a, b]) == Next(Next(w, a), b)
    ensures RunClaims(w, [a, b]) == Claims(w, a) + Claims(Next(w, a), b)
  {
    hide Next, Claims;
    assert [a, b][1..] == [b] && [b][1..] == [];
    assert Run(Next(w, a), [b]) == Next(Next(w, a), b);
    assert RunClaims(Next(w, a), [b]) == Claims(Next(w, a), b);
  }

  lemma PollIsTwoSteps(w: World, delay: nat, agent: string, limit: nat)
    ensures AfterPoll(w, delay, agent, limit) == Run(w, [Tick(delay), DoPop(agent, None, limit)])
    ensures Popped(w.table, w.now + delay, None, limit) == RunClaims(w, [Tick(delay), DoPop(agent, None, limit)])
  {
    hide Popped, AfterPop, Run, RunClaims;
    TwoSteps(w, Tick(delay), DoPop(agent, None, limit));
  }

  /** One polling round per delay: the world they lead to and what they claim. */
  function AfterPolls(w: World, delays: seq<nat>, agent: string, limit: nat): World
    decreases |delays|
  {
    if delays == [] then w else AfterPolls(AfterPoll(w, delays[0], agent, limit), delays[1..], agent, limit)
  }

  function PollClaims(w: World, delays: seq<nat>, agent: string, limit: nat): seq<Id>
    decreases |delays|
  {
    if delays == [] then []
    else Popped(w.table, w.now + delays[0], None, limit)
           + PollClaims(AfterPoll(w, delays[0], agent, limit), delays[1..], agent, limit)
  }

  lemma QueueAfterClaim(t: Table, n: nat, agent: string, now: int)
    requires t.Valid() && n <= |Queue(t, now)|
    ensures Queue(AfterPop(t, Queue(t, now)[..n], agent, now), now) == Queue(t, now)[n..]
  {
    FilterDropsHead(t.order, IsClaimable(t.rows, now), n,
                    IsClaimable(AfterPop(t, Queue(t, now)[..n], agent, now).rows, now));
  }

  /** No request that is claimable now expires before `until`. */
  ghost predicate AllUnexpired(w: World, until: int) {
    forall id :: id in w.table.rows && Claimable(w.table.rows[id], w.now) ==> Unexpired(w.table.rows[id], until)
  }

  lemma UnexpiredSooner(w: World, sooner: int, until: int)
    requires AllUnexpired(w, until) && sooner <= until
    ensures AllUnexpired(w, sooner)
  {
  }

  lemma QueueUnchangedByWaiting(w: World, later: int)
    requires w.now <= later && AllUnexpired(w, later)
    ensures Queue(w.table, later) == Queue(w.table, w.now)
  {
    FilterCongruent(w.table.order, IsClaimable(w.table.rows, w.now), IsClaimable(w.table.rows, later));
  }

  /** A pop by an unlabelled agent takes the head of the queue. */
  lemma PollTakesHead(w: World, delay: nat, limit: nat)
    requires AllUnexpired(w, w.now + delay)
    ensures Popped(w.table, w.now + delay, None, limit) == FirstN(Queue(w.table, w.now), limit)
  {
    QueueUnchangedByWaiting(w, w.now + delay);
    UnlabelledPopIsFifo(w.table, w.now + delay, None, limit);
  }

  /** And leaves the tail in order. */
  lemma PollLeavesTail(w: World, delay: nat, agent: string, limit: nat)
    requires w.Valid() && AllUnexpired(w, w.now + delay)
    ensures
      var after := AfterPoll(w, delay, agent, limit);
      Queue(after.table, after.now) == Rest(Queue(w.table, w.now), limit)
  {
    hide AllUnexpired, Popped;
    var q := Queue(w.table, w.now);
    QueueUnchangedByWaiting(w, w.now + delay);
    PollTakesHead(w, delay, limit);
    QueueAfterClaim(w.table, |FirstN(q, limit)|, agent, w.now + delay);
    assert q[..|FirstN(q, limit)|] == FirstN(q, limit);
  }

  lemma PollKeepsUnexpired(w: World, delay: nat, agent: string, limit: nat, until: int)
    requires w.Valid() && AllUnexpired(w, until) && w.now + delay <= until
    ensures
      var after := AfterPoll(w, delay, agent, limit);
      after.Valid() && after.now == w.now + delay && AllUnexpired(after, until)
  {
  }

  /** What m polls take from q, and what they leave. */
  function Taken(q: seq<Id>, limit: nat, m: nat): seq<Id>
    decreases m
  {
    if m == 0 then [] else FirstN(q, limit) + Taken(Rest(q, limit), limit, m - 1)
  }

  function Left(q: seq<Id>, limit: nat, m: nat): seq<Id>
    decreases m
  {
    if m == 0 then q else Left(Rest(q, limit), limit, m - 1)
  }

  lemma FirstNSplits(q: seq<Id>, a: nat, b: nat)
    ensures FirstN(q, a + b) == FirstN(q, a) + FirstN(Rest(q, a), b)
    ensures Rest(q, a + b) == Rest(Rest(q, a), b)
  {
  }

  lemma {:induction false} TakenIsFirstN(q: seq<Id>, limit: nat, m: nat)
    ensures m * limit >= 0
    ensures Taken(q, limit, m) == FirstN(q, m * limit) && Left(q, limit, m) == Rest(q, m * limit)
    decreases m
  {
    hide FirstN, Rest;
    if m == 0 {
      assert FirstN(q, 0) == [];
      NothingTaken(q);
    } else {
      TakenIsFirstN(Rest(q, limit), limit, m - 1);
      assert m * limit == limit + (m - 1) * limit;
      FirstNSplits(q, limit, (m - 1) * limit);
    }
  }

  lemma NothingTaken(q: seq<Id>)
    ensures Rest(q, 0) == q
  {
  }

  lemma {:induction false} PollsTake(w: World, delays: seq<nat>, agent: string, limit: nat)
    requires w.Valid() && AllUnexpired(w, w.now + Sum(delays))
    ensures PollClaims(w, delays, agent, limit) == Taken(Queue(w.table, w.now), limit, |delays|)
    decreases |delays|
  {
    hide Queue, Popped, AfterPoll, AllUnexpired, World.Valid;
    if delays != [] {
      UnexpiredSooner(w, w.now + delays[0], w.now + Sum(delays));
      PollTakesHead(w, delays[0], limit);
      PollLeavesTail(w, delays[0], agent, limit);
      PollKeepsUnexpired(w, delays[0], agent, limit, w.now + Sum(delays));
      PollsTake(AfterPoll(w, delays[0], agent, limit), delays[1..], agent, limit);
    }
  }

  lemma {:induction false} PollsLeave(w: World, delays: seq<nat>, agent: string, limit: nat)
    requires w.Valid() && AllUnexpired(w, w.now + Sum(delays))
    ensures
      var after := AfterPolls(w, delays, agent, limit);
      Queue(after.table, after.now) == Left(Queue(w.table, w.now), limit, |delays|)
    decreases |delays|
  {
    hide Queue, Popped, AfterPoll, AllUnexpired, World.Valid;
    if delays != [] {
      UnexpiredSooner(w, w.now + delays[0], w.now + Sum(delays));
      PollLeavesTail(w, delays[0], agent, limit);
      PollKeepsUnexpired(w, delays[0], agent, limit, w.now + Sum(delays));
      PollsLeave(AfterPoll(w, delays[0], agent, limit), delays[1..], agent, limit);
    }
  }

  /** The steps of a run that waits and polls, once per delay. */
  function PollSteps(delays: seq<nat>, agent: string, limit: nat): seq<Step> {
    if delays == [] then []
    else [Tick(delays[0]), DoPop(agent, None, limit)] + PollSteps(delays[1..], agent, limit)
  }

  lemma {:induction false} RunAppend(w: World, a: seq<Step>, b: seq<Step>)
    ensures Run(w, a + b) == Run(Run(w, a), b)
    ensures RunClaims(w, a + b) == RunClaims(w, a) + RunClaims(Run(w, a), b)
    decreases |a|
  {
    hide Next, Claims;
    if a == [] {
      assert a + b == b;
    } else {
      assert (a + b)[1..] == a[1..] + b;
      RunAppend(Next(w, a[0]), a[1..], b);
    }
  }

  lemma OnePollThenRest(w: World, delay: nat, agent: string, limit: nat, rest: seq<Step>)
    ensures
      var poll := [Tick(delay), DoPop(agent, None, limit)];
      var after := AfterPoll(w, delay, agent, limit);
      && Run(w, poll + rest) == Run(after, rest)
      && RunClaims(w, poll + rest) == Popped(w.table, w.now + delay, None, limit) + RunClaims(after, rest)
  {
    hide Run, RunClaims, AfterPoll, Popped;
    PollIsTwoSteps(w, delay, agent, limit);
    RunAppend(w, [Tick(delay), DoPop(agent, None, limit)], rest);
  }

  /** Polling is such a run. */
  lemma {:induction false} PollsAreARun(w: World, delays: seq<nat>, agent: string, limit: nat)
    ensures Run(w, PollSteps(delays, agent, limit)) == AfterPolls(w, delays, agent, limit)
    ensures RunClaims(w, PollSteps(delays, agent, limit)) == PollClaims(w, delays, agent, limit)
    decreases |delays|
  {
    hide AfterPoll, Popped;
    if delays != [] {
      hide Run, RunClaims;
      OnePollThenRest(w, delays[0], agent, limit, PollSteps(delays[1..], agent, limit));
      PollsAreARun(AfterPoll(w, delays[0], agent, limit), delays[1..], agent, limit);
    }
  }

  /**
   * m polls of size `limit` by an unlabelled agent claim exactly the oldest min(n, m * limit) of the n
   * claimable requests, in order, and leave the others in order, as long as none expires meanwhile.
   */
  lemma PollsDrainInOrder(w: World, delays: seq<nat>, agent: string, limit: nat)
    requires w.Valid() && AllUnexpired(w, w.now + Sum(delays))
    ensures |delays| * limit >= 0
    ensures RunClaims(w, PollSteps(delays, agent, limit)) == FirstN(Queue(w.table, w.now), |delays| * limit)
    ensures
      var after := Run(w, PollSteps(delays, agent, limit));
      Queue(after.table, after.now) == Rest(Queue(w.table, w.now), |delays| * limit)
  {
    hide Queue, PollClaims, AfterPolls, AllUnexpired, World.Valid, Run, RunClaims;
    PollsAreARun(w, delays, agent, limit);
    PollsTake(w, delays, agent, limit);
    PollsLeave(w, delays, agent, limit);
    TakenIsFirstN(Queue(w.table, w.now), limit, |delays|);
  }

  /** So m polls empty a queue of n claimable requests exactly when m * limit >= n: ceil(n / limit) polls, no fewer. */
  lemma EnoughPollsEmptyTheQueue(w: World, delays: seq<nat>, agent: string, limit: nat)
    requires w.Valid() && AllUnexpired(w, w.now + Sum(delays))
    ensures
      var after := Run(w, PollSteps(delays, agent, limit));
      Queue(after.table, after.now) == [] <==> |delays| * limit >= |Queue(w.table, w.now)|
  {
    hide Queue, Run, RunClaims, AllUnexpired, World.Valid;
    PollsDrainInOrder(w, delays, agent, limit);
  }
}
