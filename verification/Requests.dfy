/** The agent's request loop: pop a batch, dispatch each request, report back, and count. */
module Requests {
  import opened Collections
  import opened RequestQueue

  // ---- Metrics ----

  const ERROR_LIMIT := 10

  /** The last n elements. */
  function LastN<T>(s: seq<T>, n: nat): seq<T> {
    if |s| <= n then s else s[|s| - n..]
  }

  class AgentMetrics {
    var requestsProcessed: nat
    var requestsFailed: nat
    var errors: seq<string>
    /** Every failure ever recorded. */
    ghost var failures: seq<string>

    ghost predicate Valid()
      reads this
    {
      errors == LastN(failures, ERROR_LIMIT) && requestsFailed == |failures|
    }

    constructor ()
      ensures Valid() && requestsProcessed == 0 && failures == []
    {
      requestsProcessed, requestsFailed, errors, failures := 0, 0, [], [];
    }

    method RecordRequestProcessed()
      requires Valid()
      modifies this`requestsProcessed
      ensures Valid() && requestsProcessed == old(requestsProcessed) + 1
    {
      requestsProcessed := requestsProcessed + 1;
    }

    method RecordRequestFailed(error: string)
      requires Valid()
      modifies this`requestsFailed, this`errors, this`failures
      ensures Valid() && failures == old(failures) + [error]
    {
      requestsFailed := requestsFailed + 1;
      errors := errors + [error];
      if |errors| > ERROR_LIMIT {
        errors := errors[1..];
      }
      failures := failures + [error];
    }
  }

  // ---- Dispatch ----

  const API_NAMES := {
    "LAUNCH_RUN", "TERMINATE_RUN", "GET_EXTERNAL_EXECUTION_PLAN", "GET_EXTERNAL_SCHEDULE_EXECUTION_DATA",
    "GET_EXTERNAL_SENSOR_EXECUTION_DATA", "GET_EXTERNAL_PARTITION_CONFIG", "GET_EXTERNAL_PARTITION_NAMES",
    "GET_EXTERNAL_PARTITION_TAGS", "PING_LOCATION", "CHECK_FOR_WORKSPACE_UPDATES"
  }

  predicate Known(api: string) {
    api in API_NAMES
  }

  datatype Handled = Response(body: string) | NoResponse | HandlerRaises(error: string)

  /** A call to the webserver: answered, carried out with the reply lost, or never carried out. */
  datatype Call = Answered | ReplyLost | NotSent

  /** What one request meets: a custom handler's outcome if one is registered, and the fate of the two calls. */
  datatype Scenario = Scenario(
    custom: Option<Handled>,
    bodyIsObject: bool,
    reply: string,
    complete: Call,
    fail: Call,
    clientError: string)

  /** Routing: a custom handler first; of the built-in ones only TERMINATE_RUN parses the body and can raise. */
  function Dispatch(api: string, sc: Scenario): Handled {
    if sc.custom.Some? then sc.custom.value
    else if api == "TERMINATE_RUN" && !sc.bodyIsObject then HandlerRaises(sc.reply)
    else Response(sc.reply)
  }

  predicate Reaches(call: Call) {
    !call.NotSent?
  }

  /** The call goes through without raising: it was answered, and the webserver found the request. */
  predicate Succeeds(t: Table, id: Id, agent: string, call: Call) {
    call.Answered? && MayFinish(t, id, Some(agent))
  }

  function Delivered(t: Table, id: Id, agent: string, call: Call, status: Status, body: string): Table {
    if Reaches(call) then Finish(t, id, Some(agent), status, Some(body)) else t
  }

  /** The error the loop body catches for this request, if any. */
  function Caught(t: Table, id: Id, api: string, agent: string, sc: Scenario): Option<string> {
    match Dispatch(api, sc)
    case HandlerRaises(error) => Some(error)
    case NoResponse => None
    case Response(_) => if Succeeds(t, id, agent, sc.complete) then None else Some(sc.clientError)
  }

  /** The queue after one request was handled. */
  function Handle(t: Table, id: Id, api: string, agent: string, sc: Scenario): Table {
    var h := Dispatch(api, sc);
    var t1 := if h.Response? then Delivered(t, id, agent, sc.complete, Completed, h.body) else t;
    match Caught(t, id, api, agent, sc)
    case None => t1
    case Some(error) => Delivered(t1, id, agent, sc.fail, Failed, error)
  }

  function ApiOf(t: Table, id: Id): string {
    if id in t.rows then t.rows[id].api else ""
  }

  /** The queue after a whole batch, in order. */
  function HandleAll(t: Table, batch: seq<Id>, agent: string, scs: Id -> Scenario): Table
    decreases |batch|
  {
    if batch == [] then t
    else
      var id := batch[|batch| - 1];
      Handle(HandleAll(t, batch[..|batch| - 1], agent, scs), id, ApiOf(t, id), agent, scs(id))
  }

  /** How many requests are handled before one with an unknown API name makes the loop raise. */
  function Handleable(t: Table, batch: seq<Id>): (n: nat)
    ensures n <= |batch|
    ensures forall i :: 0 <= i < n ==> Known(ApiOf(t, batch[i]))
    ensures n < |batch| ==> !Known(ApiOf(t, batch[n]))
  {
    if batch == [] || !Known(ApiOf(t, batch[0])) then 0 else 1 + Handleable(t, batch[1..])
  }

  lemma HandleableIs(t: Table, batch: seq<Id>, n: nat)
    requires n <= |batch| && forall i :: 0 <= i < n ==> Known(ApiOf(t, batch[i]))
    requires n < |batch| ==> !Known(ApiOf(t, batch[n]))
    ensures Handleable(t, batch) == n
  {
  }

  function LabelsOrNone(labels: Labels): Option<Labels> {
    if labels == map[] then None else Some(labels)
  }

  /**
   * One polling round for an agent: pop at most ten requests and put each through the loop body. `handled` counts
   * those that went through it; an unknown API name raises outside the body and ends the round early.
   */
  method PollAndProcessRequests(
      queue: RequestTable, metrics: AgentMetrics, now: int, agent: string, labels: Labels, scs: Id -> Scenario)
    returns (batch: seq<Id>, handled: nat)
    requires queue.Contents().Valid()
    requires metrics.Valid()
    modifies queue`rows, metrics
    ensures batch == Popped(old(queue.Contents()), now, LabelsOrNone(labels), 10)
    ensures handled == Handleable(old(queue.Contents()), batch)
    ensures queue.Contents() ==
      HandleAll(AfterPop(old(queue.Contents()), batch, agent, now), batch[..handled], agent, scs)
    ensures metrics.Valid()
    ensures metrics.requestsProcessed + metrics.requestsFailed
         == old(metrics.requestsProcessed) + old(metrics.requestsFailed) + handled
  {
    ghost var before := queue.Contents();
    PoppedAreClaimable(before, now, LabelsOrNone(labels), 10);
    batch := queue.Pop(now, agent, LabelsOrNone(labels), 10);
    PopKeepsHandleable(before, batch, batch, agent, now);
    handled := HandleBatch(queue, metrics, batch, agent, scs);
  }

  /** The loop over the popped requests, as the pop returned them. */
  method HandleBatch(
      queue: RequestTable, metrics: AgentMetrics, batch: seq<Id>, agent: string, scs: Id -> Scenario)
    returns (handled: nat)
    requires metrics.Valid() && forall id :: id in batch ==> id in queue.rows
    modifies queue`rows, metrics
    ensures handled == Handleable(old(queue.Contents()), batch)
    ensures queue.Contents() == HandleAll(old(queue.Contents()), batch[..handled], agent, scs)
    ensures metrics.Valid()
    ensures metrics.requestsProcessed + metrics.requestsFailed
         == old(metrics.requestsProcessed) + old(metrics.requestsFailed) + handled
  {
    hide Known;
    ghost var popped := queue.Contents();
    var raws := queue.rows;
    handled := 0;
    while handled < |batch|
      invariant 0 <= handled <= |batch|
      invariant queue.Contents() == HandleAll(popped, batch[..handled], agent, scs)
      invariant forall i :: 0 <= i < handled ==> Known(ApiOf(popped, batch[i]))
      invariant metrics.Valid()
      invariant metrics.requestsProcessed + metrics.requestsFailed
             == old(metrics.requestsProcessed) + old(metrics.requestsFailed) + handled
    {
      hide HandleAll, Handle, Handleable, Caught, Known;
      var id := batch[handled];
      assert id in batch;
      if !Known(raws[id].api) {
        break;
      }
      HandleOne(queue, metrics, id, raws[id].api, agent, scs(id));
      HandleAllSnoc(popped, batch, handled, agent, scs);
      handled := handled + 1;
    }
    HandleableIs(popped, batch, handled);
  }

  /** A pop changes no API name, so what can be handled is the same before and after it. */
  lemma {:induction false} PopKeepsHandleable(t: Table, ids: seq<Id>, batch: seq<Id>, agent: string, now: int)
    ensures Handleable(AfterPop(t, ids, agent, now), batch) == Handleable(t, batch)
    ensures AfterPop(t, ids, agent, now).rows.Keys == t.rows.Keys
    decreases |batch|
  {
    hide AfterPop;
    PopKeepsApi(t, ids, agent, now, "");
    if batch != [] {
      PopKeepsApi(t, ids, agent, now, batch[0]);
      PopKeepsHandleable(t, ids, batch[1..], agent, now);
    }
  }

  lemma PopKeepsApi(t: Table, batch: seq<Id>, agent: string, now: int, id: Id)
    ensures ApiOf(AfterPop(t, batch, agent, now), id) == ApiOf(t, id)
    ensures AfterPop(t, batch, agent, now).rows.Keys == t.rows.Keys
  {
  }

  lemma HandleAllSnoc(t: Table, batch: seq<Id>, i: nat, agent: string, scs: Id -> Scenario)
    requires i < |batch|
    ensures HandleAll(t, batch[..i + 1], agent, scs) ==
      Handle(HandleAll(t, batch[..i], agent, scs), batch[i], ApiOf(t, batch[i]), agent, scs(batch[i]))
  {
    assert batch[..i + 1][..i] == batch[..i];
  }

  /** The loop body. A raising handler and a raising complete call are both recorded and reported as failures. */
  method HandleOne(queue: RequestTable, metrics: AgentMetrics, id: Id, api: string, agent: string, sc: Scenario)
    requires metrics.Valid()
    modifies queue`rows, metrics
    ensures queue.Contents() == Handle(old(queue.Contents()), id, api, agent, sc)
    ensures metrics.Valid()
    ensures
      var caught := Caught(old(queue.Contents()), id, api, agent, sc);
      && metrics.requestsProcessed == old(metrics.requestsProcessed) + (if caught.None? then 1 else 0)
      && metrics.failures == old(metrics.failures) + (if caught.Some? then [caught.value] else [])
      && metrics.requestsFailed == old(metrics.requestsFailed) + (if caught.Some? then 1 else 0)
  {
    var handled := Dispatch(api, sc);
    var caught: Option<string> := None;
    match handled {
      case HandlerRaises(error) =>
        caught := Some(error);
      case NoResponse =>
      case Response(body) =>
        var found := false;
        if Reaches(sc.complete) {
          found := queue.Complete(id, Some(agent), Some(body));
        }
        if !(sc.complete.Answered? && found) {
          caught := Some(sc.clientError);
        }
    }
    if caught.None? {
      metrics.RecordRequestProcessed();
    } else {
      metrics.RecordRequestFailed(caught.value);
      if Reaches(sc.fail) {
        var _ := queue.Fail(id, Some(agent), caught);
      }
    }
  }

  // ---- What a batch leaves behind ----

  /** The status the webserver ends up with for a request this agent owns, None when neither call arrived. */
  function Verdict(api: string, sc: Scenario): Option<Status> {
    var answered := Dispatch(api, sc).Response? && sc.complete.Answered?;
    var completed := Dispatch(api, sc).Response? && Reaches(sc.complete);
    if Dispatch(api, sc).NoResponse? then None
    else if answered then Some(Completed)
    else if Reaches(sc.fail) then Some(Failed)
    else if completed then Some(Completed)
    else None
  }

  ghost predicate Holds(t: Table, id: Id, agent: string) {
    id in t.rows && t.rows[id].owner == Some(agent) && agent != ""
  }

  lemma HandleVerdict(t: Table, id: Id, api: string, agent: string, sc: Scenario)
    requires Holds(t, id, agent)
    ensures
      var t' := Handle(t, id, api, agent, sc);
      && Holds(t', id, agent)
      && t'.rows[id].status == (if Verdict(api, sc).Some? then Verdict(api, sc).value else t.rows[id].status)
      && (forall other :: other != id ==> (other in t.rows <==> other in t'.rows))
      && (forall other :: other != id && other in t.rows ==> t'.rows[other] == t.rows[other])
  {
  }

  /**
   * A request is marked completed and then failed exactly when its handler answered, the complete call was carried
   * out with its reply lost, and the fail call went through.
   */
  lemma LostReplyFailsACompletedRequest(t: Table, id: Id, api: string, agent: string, sc: Scenario)
    requires Holds(t, id, agent) && t.rows[id].status == Processing
    ensures
      var h := Dispatch(api, sc);
      var between := if h.Response? then Delivered(t, id, agent, sc.complete, Completed, h.body) else t;
      && id in between.rows && id in Handle(t, id, api, agent, sc).rows
      && (between.rows[id].status == Completed && Handle(t, id, api, agent, sc).rows[id].status == Failed <==>
            h.Response? && sc.complete.ReplyLost? && Reaches(sc.fail))
  {
  }

  /** After a batch, each handled request has its verdict, and every other row is as it was. */
  lemma {:induction false} BatchVerdicts(t: Table, batch: seq<Id>, agent: string, scs: Id -> Scenario, id: Id)
    requires NoDup(batch) && forall x :: x in batch ==> Holds(t, x, agent)
    requires id in t.rows
    ensures
      var t' := HandleAll(t, batch, agent, scs);
      && id in t'.rows
      && if id in batch
         then Holds(t', id, agent) &&
              t'.rows[id].status ==
                (if Verdict(ApiOf(t, id), scs(id)).Some? then Verdict(ApiOf(t, id), scs(id)).value
                 else t.rows[id].status)
         else t'.rows[id] == t.rows[id]
    decreases |batch|
  {
    hide Handle, Verdict;
    if batch != [] {
      var n := |batch| - 1;
      var front, last := batch[..n], batch[n];
      assert batch == front + [last] && last !in front;
      assert Holds(t, last, agent);
      BatchVerdicts(t, front, agent, scs, id);
      BatchVerdicts(t, front, agent, scs, last);
      HandleVerdict(HandleAll(t, front, agent, scs), last, ApiOf(t, last), agent, scs(last));
    }
  }

  /** With built-in handlers and answered calls, every handled request ends completed or failed. */
  lemma ReliableBatchFinishes(t: Table, batch: seq<Id>, agent: string, scs: Id -> Scenario, id: Id)
    requires NoDup(batch) && forall x :: x in batch ==> Holds(t, x, agent)
    requires id in batch && scs(id).custom.None? && scs(id).complete.Answered? && scs(id).fail.Answered?
    ensures
      var t' := HandleAll(t, batch, agent, scs);
      id in t.rows && id in t'.rows && t'.rows[id].status ==
        if t.rows[id].api == "TERMINATE_RUN" && !scs(id).bodyIsObject then Failed else Completed
  {
    assert Holds(t, id, agent);
    BatchVerdicts(t, batch, agent, scs, id);
  }

  /** Right after the pop, the agent holds the whole batch. */
  lemma PoppedAreHeld(t: Table, now: int, labels: Option<Labels>, limit: nat, agent: string)
    requires t.Valid() && agent != ""
    ensures
      var batch := Popped(t, now, labels, limit);
      NoDup(batch) && forall id :: id in batch ==>
        Holds(AfterPop(t, batch, agent, now), id, agent) &&
        AfterPop(t, batch, agent, now).rows[id].status == Processing
  {
    PoppedAreClaimable(t, now, labels, limit);
  }

  // ---- What the round uses and stores ----

  lemma KnownApiNames(api: string)
    ensures Known(api) <==>
      || api == "LAUNCH_RUN" || api == "TERMINATE_RUN" || api == "GET_EXTERNAL_EXECUTION_PLAN"
      || api == "GET_EXTERNAL_SCHEDULE_EXECUTION_DATA" || api == "GET_EXTERNAL_SENSOR_EXECUTION_DATA"
      || api == "GET_EXTERNAL_PARTITION_CONFIG" || api == "GET_EXTERNAL_PARTITION_NAMES"
      || api == "GET_EXTERNAL_PARTITION_TAGS" || api == "PING_LOCATION" || api == "CHECK_FOR_WORKSPACE_UPDATES"
  {
  }

  /** After any number of failures the kept errors are the newest ten, or all of them if there are fewer. */
  lemma KeptErrorsAreTheNewest(failures: seq<string>, older: seq<string>, newest: seq<string>)
    requires failures == older + newest && (|newest| == 10 || (older == [] && |newest| <= 10))
    ensures LastN(failures, ERROR_LIMIT) == newest
  {
  }

  /** A labelled agent pops with its labels: of the labelled requests only those that have all of them. */
  lemma RoundPopsWithTheLabels(t: Table, now: int, labels: Labels, id: Id)
    requires t.Valid() && id in Popped(t, now, LabelsOrNone(labels), 10)
    ensures id in t.rows
    ensures t.rows[id].labels.Some? && t.rows[id].labels.value != map[] ==>
      t.rows[id].labels.value + labels == t.rows[id].labels.value
  {
    NoLabelsIsEmptyLabels(t, now, 10);
    PoppedFitTheAgent(t, now, labels, 10, id);
  }

  /**
   * What the webserver has stored after one request: the handler's response if the complete call was answered, else
   * the error the loop body caught if the fail call went through. A custom handler decides what the response or the
   * error is; without one every request is answered but a terminate request whose body is no object.
   */
  lemma HandledRequestStores(t: Table, id: Id, api: string, agent: string, sc: Scenario)
    requires Holds(t, id, agent)
    ensures
      var t' := Handle(t, id, api, agent, sc);
      var handled :=
        match sc.custom
        case Some(custom) => custom
        case None => if api == "TERMINATE_RUN" && !sc.bodyIsObject then HandlerRaises(sc.reply) else Response(sc.reply);
      && id in t'.rows
      && (handled.NoResponse? ==> t'.rows[id] == t.rows[id])
      && (handled.Response? && sc.complete.Answered? ==>
            t'.rows[id] == t.rows[id].(status := Completed, response := Some(handled.body)))
      && (handled.Response? && !sc.complete.Answered? && !sc.fail.NotSent? ==>
            t'.rows[id] == t.rows[id].(status := Failed, response := Some(sc.clientError)))
      && (handled.Response? && sc.complete.ReplyLost? && sc.fail.NotSent? ==>
            t'.rows[id] == t.rows[id].(status := Completed, response := Some(handled.body)))
      && (handled.Response? && sc.complete.NotSent? && sc.fail.NotSent? ==> t'.rows[id] == t.rows[id])
      && (handled.HandlerRaises? && sc.fail.NotSent? ==> t'.rows[id] == t.rows[id])
      && (handled.HandlerRaises? && !sc.fail.NotSent? ==>
            t'.rows[id] == t.rows[id].(status := Failed, response := Some(handled.error)))
  {
  }

  /** A held request counts as failed exactly when its handler raised or its complete call was not answered. */
  lemma CountedAsFailedIff(t: Table, id: Id, api: string, agent: string, sc: Scenario)
    requires Holds(t, id, agent)
    ensures Caught(t, id, api, agent, sc).Some? <==>
      if sc.custom.Some? then sc.custom.value.HandlerRaises? || (sc.custom.value.Response? && !sc.complete.Answered?)
      else (api == "TERMINATE_RUN" && !sc.bodyIsObject) || !sc.complete.Answered?
  {
  }
}
