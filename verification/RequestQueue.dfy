/** The agent work queue: the agent_requests table and the statements that change it. */
module RequestQueue {
  import opened Collections

  type Id = string
  type Labels = map<string, string>

  datatype Status = Pending | Processing | Completed | Failed

  datatype Row = Row(
    api: string,
    body: string,
    location: Option<string>,
    labels: Option<Labels>,
    status: Status,
    owner: Option<string>,
    createdAt: int,
    poppedAt: Option<int>,
    expiresAt: Option<int>,
    response: Option<string>)

  /** Rows by primary key; `order` lists the keys oldest first, ties broken by insertion. */
  datatype Table = Table(rows: map<Id, Row>, order: seq<Id>)
  {
    ghost predicate Valid() {
      && NoDup(order)
      && (forall id :: id in order <==> id in rows)
    }

    /** `order` refines created_at, and no row was created after `now`. */
    ghost predicate Chronological(now: int)
      requires Valid()
    {
      && (forall id :: id in rows ==> rows[id].createdAt <= now)
      && (forall i, j :: 0 <= i < j < |order| ==> rows[order[i]].createdAt <= rows[order[j]].createdAt)
    }
  }

  /** An entry without labels matches every agent; otherwise every required label must be present with its value. */
  predicate LabelsMatch(entry: Option<Labels>, required: Labels) {
    entry.None? || entry.value == map[] ||
    forall k :: k in required ==> k in entry.value && entry.value[k] == required[k]
  }

  predicate Unexpired(row: Row, now: int) {
    row.expiresAt.None? || row.expiresAt.value > now
  }

  predicate Claimable(row: Row, now: int) {
    row.status == Pending && Unexpired(row, now)
  }

  predicate Stale(row: Row, now: int) {
    row.status == Processing && row.expiresAt.Some? && row.expiresAt.value < now
  }

  function IsClaimable(rows: map<Id, Row>, now: int): Id -> bool {
    id => id in rows && Claimable(rows[id], now)
  }

  function IsMatch(rows: map<Id, Row>, required: Labels): Id -> bool {
    id => id in rows && LabelsMatch(rows[id].labels, required)
  }

  /** The ids an unlimited pop could claim, oldest first. */
  function Queue(t: Table, now: int): seq<Id> {
    Filter(t.order, IsClaimable(t.rows, now))
  }

  /** The over-fetched candidates: three times the limit. */
  function Window(t: Table, now: int, limit: nat): seq<Id> {
    FirstN(Queue(t, now), limit * 3)
  }

  function Required(labels: Option<Labels>): Labels {
    if labels.Some? then labels.value else map[]
  }

  /** What a pop claims. */
  function Popped(t: Table, now: int, labels: Option<Labels>, limit: nat): seq<Id> {
    FirstN(Filter(Window(t, now, limit), IsMatch(t.rows, Required(labels))), limit)
  }

  /** What a pop would claim without the window: the oldest `limit` matches of the whole queue. */
  function FifoPopped(t: Table, now: int, labels: Option<Labels>, limit: nat): seq<Id> {
    FirstN(Filter(Queue(t, now), IsMatch(t.rows, Required(labels))), limit)
  }

  function Claimed(row: Row, agent: string, now: int): Row {
    row.(status := Processing, owner := Some(agent), poppedAt := Some(now))
  }

  function AfterPop(t: Table, ids: seq<Id>, agent: string, now: int): Table {
    t.(rows := map id | id in t.rows :: if id in ids then Claimed(t.rows[id], agent, now) else t.rows[id])
  }

  /** The WHERE clause of complete and fail: an absent or empty agent id leaves the owner unchecked. */
  predicate MayFinish(t: Table, id: Id, agent: Option<string>) {
    id in t.rows && (agent.None? || agent.value == "" || t.rows[id].owner == agent)
  }

  function Finish(t: Table, id: Id, agent: Option<string>, status: Status, response: Option<string>): Table {
    if MayFinish(t, id, agent)
    then t.(rows := t.rows[id := t.rows[id].(status := status, response := response)])
    else t
  }

  function Requeued(row: Row): Row {
    row.(status := Pending, owner := None, poppedAt := None)
  }

  function AfterRequeue(t: Table, now: int): Table {
    t.(rows := map id | id in t.rows :: if Stale(t.rows[id], now) then Requeued(t.rows[id]) else t.rows[id])
  }

  function AfterEnqueue(t: Table, id: Id, now: int, api: string, body: string, location: Option<string>,
                        labels: Option<Labels>, ttl: int): Table {
    if id in t.rows then t
    else Table(t.rows[id := Row(api, body, location, labels, Pending, None, now, None, Some(now + ttl), None)],
               t.order + [id])
  }

  /** The label filter over the fetched candidates, stopping at the limit. */
  method FirstMatches(rows: map<Id, Row>, candidates: seq<Id>, required: Labels, limit: nat) returns (matched: seq<Id>)
    requires forall id :: id in candidates ==> id in rows
    requires limit == 0 ==> candidates == []
    ensures matched == FirstN(Filter(candidates, IsMatch(rows, required)), limit)
  {
    ghost var p := IsMatch(rows, required);
    matched := [];
    var i := 0;
    while i < |candidates|
      invariant 0 <= i <= |candidates|
      invariant matched == Filter(candidates[..i], p)
      invariant i < |candidates| ==> |matched| < limit
      invariant |matched| <= limit
    {
      FilterSnoc(candidates, i, p);
      var id := candidates[i];
      if LabelsMatch(rows[id].labels, required) {
        matched := matched + [id];
      }
      i := i + 1;
      if |matched| >= limit {
        break;
      }
    }
    FirstNOfPrefix(candidates, i, p, limit);
  }

  lemma FirstNOfPrefix(s: seq<Id>, i: nat, p: Id -> bool, limit: nat)
    requires i <= |s|
    requires |Filter(s[..i], p)| <= limit
    requires i == |s| || |Filter(s[..i], p)| == limit
    ensures FirstN(Filter(s, p), limit) == Filter(s[..i], p)
  {
    SplitFilter(s, i, p);
  }

  /** The table as the webserver holds it; each method is one database session. */
  class RequestTable {
    var rows: map<Id, Row>
    var order: seq<Id>

    ghost function Contents(): Table
      reads this
    {
      Table(rows, order)
    }

    constructor ()
      ensures Contents() == Table(map[], [])
    {
      rows, order := map[], [];
    }

    /** The primary key is a fresh UUID; a collision fails the INSERT and leaves the table alone. */
    method Enqueue(id: Id, now: int, api: string, body: string, location: Option<string>,
                   labels: Option<Labels>, ttl: int) returns (stored: bool)
      requires Contents().Valid() && Contents().Chronological(now)
      modifies this
      ensures stored <==> id !in old(rows)
      ensures Contents() == AfterEnqueue(old(Contents()), id, now, api, body, location, labels, ttl)
      ensures Contents().Valid() && Contents().Chronological(now)
    {
      stored := id !in rows;
      if stored {
        rows := rows[id := Row(api, body, location, labels, Pending, None, now, None, Some(now + ttl), None)];
        order := order + [id];
      }
      EnqueueValid(old(Contents()), id, now, api, body, location, labels, ttl);
    }

    method Pop(now: int, agent: string, labels: Option<Labels>, limit: nat) returns (matched: seq<Id>)
      requires Contents().Valid()
      modifies this`rows
      ensures matched == Popped(old(Contents()), now, labels, limit)
      ensures Contents() == AfterPop(old(Contents()), matched, agent, now)
    {
      var candidates := FirstN(Filter(order, IsClaimable(rows, now)), limit * 3);
      InFilter(order, IsClaimable(rows, now));
      InFilter(candidates, IsMatch(rows, Required(labels)));
      matched := FirstMatches(rows, candidates, Required(labels), limit);
      ClaimRows(matched, agent, now);
    }

    /** The claim loop: one row update per matched request. */
    method ClaimRows(matched: seq<Id>, agent: string, now: int)
      requires forall id :: id in matched ==> id in rows
      modifies this`rows
      ensures Contents() == AfterPop(old(Contents()), matched, agent, now)
    {
      var k := 0;
      while k < |matched|
        invariant 0 <= k <= |matched|
        invariant rows == AfterPop(old(Contents()), matched[..k], agent, now).rows
      {
        var id := matched[k];
        rows := rows[id := Claimed(rows[id], agent, now)];
        assert matched[..k + 1] == matched[..k] + [id];
        k := k + 1;
      }
      assert matched[..k] == matched;
    }

    method Complete(id: Id, agent: Option<string>, response: Option<string>) returns (found: bool)
      modifies this`rows
      ensures found <==> MayFinish(old(Contents()), id, agent)
      ensures Contents() == Finish(old(Contents()), id, agent, Completed, response)
    {
      found := id in rows && (agent.None? || agent.value == "" || rows[id].owner == agent);
      if found {
        rows := rows[id := rows[id].(status := Completed, response := response)];
      }
    }

    method Fail(id: Id, agent: Option<string>, error: Option<string>) returns (found: bool)
      modifies this`rows
      ensures found <==> MayFinish(old(Contents()), id, agent)
      ensures Contents() == Finish(old(Contents()), id, agent, Failed, error)
    {
      found := id in rows && (agent.None? || agent.value == "" || rows[id].owner == agent);
      if found {
        rows := rows[id := rows[id].(status := Failed, response := error)];
      }
    }

    method Requeue(now: int) returns (count: nat)
      modifies this`rows
      ensures Contents() == AfterRequeue(old(Contents()), now)
      ensures count == |set id | id in old(rows) && Stale(old(rows)[id], now)|
    {
      var stale := set id | id in rows && Stale(rows[id], now);
      count := |stale|;
      rows := map id | id in rows :: if id in stale then Requeued(rows[id]) else rows[id];
    }
  }

  lemma EnqueueValid(t: Table, id: Id, now: int, api: string, body: string, location: Option<string>,
                     labels: Option<Labels>, ttl: int)
    requires t.Valid()
    ensures AfterEnqueue(t, id, now, api, body, location, labels, ttl).Valid()
    ensures t.Chronological(now) ==> AfterEnqueue(t, id, now, api, body, location, labels, ttl).Chronological(now)
  {
  }

  /** A new request goes to the end of the queue, for as long as its time to live has not run out. */
  lemma EnqueuedIsLast(t: Table, id: Id, now: int, api: string, body: string, location: Option<string>,
                       labels: Option<Labels>, ttl: int, later: int)
    requires t.Valid() && id !in t.rows
    ensures Queue(AfterEnqueue(t, id, now, api, body, location, labels, ttl), later) ==
      Queue(t, later) + (if now + ttl > later then [id] else [])
  {
    var after := AfterEnqueue(t, id, now, api, body, location, labels, ttl);
    var p := IsClaimable(after.rows, later);
    FilterAppend(t.order, [id], p);
    FilterCongruent(t.order, IsClaimable(t.rows, later), p);
    if p(id) {
      FilterAll([id], p);
    } else {
      FilterNone([id], p);
    }
  }

  // ---- One pop against the whole queue ----

  /** Everything a pop returns was claimable and matched, each id once. */
  lemma PoppedAreClaimable(t: Table, now: int, labels: Option<Labels>, limit: nat)
    requires t.Valid()
    ensures NoDup(Popped(t, now, labels, limit))
    ensures forall id :: id in Popped(t, now, labels, limit) ==>
      id in t.rows && Claimable(t.rows[id], now) && LabelsMatch(t.rows[id].labels, Required(labels))
  {
    FilterNoDup(t.order, IsClaimable(t.rows, now));
    FilterNoDup(Window(t, now, limit), IsMatch(t.rows, Required(labels)));
    InFilter(t.order, IsClaimable(t.rows, now));
    InFilter(Window(t, now, limit), IsMatch(t.rows, Required(labels)));
    forall id | id in Popped(t, now, labels, limit) ensures id in Window(t, now, limit) && id in Queue(t, now) {
      assert id in Filter(Window(t, now, limit), IsMatch(t.rows, Required(labels)));
    }
  }

  /**
   * The windowed pop is always a prefix of the FIFO answer, and equals it exactly when the
   * window already holds `limit` matches or no claimable row beyond the window matches.
   */
  lemma WindowedPopRefinesFifo(t: Table, now: int, labels: Option<Labels>, limit: nat)
    ensures Popped(t, now, labels, limit) <= FifoPopped(t, now, labels, limit)
    ensures
      var matches := IsMatch(t.rows, Required(labels));
      var window := Window(t, now, limit);
      Popped(t, now, labels, limit) == FifoPopped(t, now, labels, limit) <==>
      (|Filter(window, matches)| >= limit || forall id :: id in Queue(t, now)[|window|..] ==> !matches(id))
  {
    var q, matches := Queue(t, now), IsMatch(t.rows, Required(labels));
    var window := Window(t, now, limit);
    var rest := q[|window|..];
    assert q == window + rest;
    FilterAppend(window, rest, matches);
    if forall id :: id in rest ==> !matches(id) {
      FilterNone(rest, matches);
    } else {
      InFilter(rest, matches);
    }
  }

  /** For an agent without labels, and for a window that covers the queue, the pop is plain FIFO. */
  lemma UnlabelledPopIsFifo(t: Table, now: int, labels: Option<Labels>, limit: nat)
    requires Required(labels) == map[] || |Queue(t, now)| <= 3 * limit
    ensures Popped(t, now, labels, limit) == FifoPopped(t, now, labels, limit)
    ensures Required(labels) == map[] ==> Popped(t, now, labels, limit) == FirstN(Queue(t, now), limit)
  {
    WindowedPopRefinesFifo(t, now, labels, limit);
    if Required(labels) == map[] {
      InFilter(t.order, IsClaimable(t.rows, now));
      FilterAll(Queue(t, now), IsMatch(t.rows, map[]));
      FilterAll(Window(t, now, limit), IsMatch(t.rows, map[]));
    }
  }

  /** A queue of `other` rows with one `mine` row last. */
  function BehindOthers(ids: seq<Id>, other: Row, mine: Row): Table {
    Table(map id | id in ids :: if id == ids[|ids| - 1] then mine else other, ids)
  }

  /** So a labelled agent can be starved, whatever its limit: 3 * limit older misses hide a request that matches. */
  lemma LabelledPopCanMissAMatch(ids: seq<Id>, other: Row, mine: Row, now: int, labels: Option<Labels>, limit: nat)
    requires NoDup(ids) && |ids| == 3 * limit + 1 && limit > 0
    requires Claimable(other, now) && Claimable(mine, now)
    requires !LabelsMatch(other.labels, Required(labels)) && LabelsMatch(mine.labels, Required(labels))
    ensures Popped(BehindOthers(ids, other, mine), now, labels, limit) == []
    ensures FifoPopped(BehindOthers(ids, other, mine), now, labels, limit) == [ids[3 * limit]]
  {
    var t := BehindOthers(ids, other, mine);
    BehindOthersQueue(t, ids, now);
    WindowOfMisses(t, now, labels, limit);
    OnlyMatchIsLast(ids, 3 * limit, IsMatch(t.rows, Required(labels)));
  }

  lemma BehindOthersQueue(t: Table, ids: seq<Id>, now: int)
    requires t.order == ids && forall id :: id in ids ==> id in t.rows && Claimable(t.rows[id], now)
    ensures Queue(t, now) == ids
  {
    FilterAll(ids, IsClaimable(t.rows, now));
  }

  lemma WindowOfMisses(t: Table, now: int, labels: Option<Labels>, limit: nat)
    requires forall id :: id in Window(t, now, limit) ==> !IsMatch(t.rows, Required(labels))(id)
    ensures Popped(t, now, labels, limit) == []
  {
    FilterNone(Window(t, now, limit), IsMatch(t.rows, Required(labels)));
  }

  lemma OnlyMatchIsLast(s: seq<Id>, n: nat, p: Id -> bool)
    requires |s| == n + 1 && p(s[n]) && forall id :: id in s[..n] ==> !p(id)
    ensures Filter(s, p) == [s[n]]
  {
    SplitFilter(s, n, p);
    FilterNone(s[..n], p);
    assert s[n..] == [s[n]];
    FilterAll([s[n]], p);
  }

  lemma SplitFilter(s: seq<Id>, n: nat, p: Id -> bool)
    requires n <= |s|
    ensures Filter(s, p) == Filter(s[..n], p) + Filter(s[n..], p)
  {
    assert s == s[..n] + s[n..];
    FilterAppend(s[..n], s[n..], p);
  }

  // ---- Labels and fields, spelled out ----

  /** An unlabelled entry is for everybody; any other must have each required label with its value. */
  lemma LabelsMatchIff(entry: Option<Labels>, required: Labels)
    ensures LabelsMatch(entry, required) <==>
      entry.None? || entry.value == map[] || entry.value + required == entry.value
  {
    if entry.Some? && entry.value + required == entry.value {
      forall k | k in required ensures k in entry.value && entry.value[k] == required[k] {
        assert (entry.value + required)[k] == required[k];
      }
    }
  }

  /** What an agent with labels pops: pending, unexpired rows without labels or with all of the agent's labels. */
  lemma PoppedFitTheAgent(t: Table, now: int, labels: Labels, limit: nat, id: Id)
    requires t.Valid() && id in Popped(t, now, Some(labels), limit)
    ensures id in t.rows && t.rows[id].status == Pending
    ensures t.rows[id].expiresAt.Some? ==> now < t.rows[id].expiresAt.value
    ensures t.rows[id].labels.Some? && t.rows[id].labels.value != map[] ==>
      t.rows[id].labels.value + labels == t.rows[id].labels.value
  {
    PoppedAreClaimable(t, now, Some(labels), limit);
    LabelsMatchIff(t.rows[id].labels, labels);
  }

  /** And conversely: such a row of the window is popped unless `limit` rows before it are. */
  lemma FittingRowIsPopped(t: Table, now: int, labels: Labels, limit: nat, i: nat)
    requires t.Valid() && i < |Window(t, now, limit)|
    requires
      var id := Window(t, now, limit)[i];
      id in t.rows && (t.rows[id].labels.None? || t.rows[id].labels.value == map[] ||
                       t.rows[id].labels.value + labels == t.rows[id].labels.value)
    ensures
      var popped := Popped(t, now, Some(labels), limit);
      var window := Window(t, now, limit);
      window[i] in popped || (|popped| == limit && forall id :: id in popped ==> id in window[..i])
  {
    hide Window, Filter, LabelsMatch;
    var window, p := Window(t, now, limit), IsMatch(t.rows, labels);
    var before, after := Filter(window[..i], p), Filter(window[i + 1..], p);
    LabelsMatchIff(t.rows[window[i]].labels, labels);
    SplitFilter(window, i + 1, p);
    FilterSnoc(window, i, p);
    assert Filter(window, p) == before + [window[i]] + after;
    InFilter(window[..i], p);
    CutOf(before, window[i], after, limit);
  }

  lemma CutOf(before: seq<Id>, x: Id, after: seq<Id>, limit: nat)
    ensures
      var cut := FirstN(before + [x] + after, limit);
      x in cut || (|cut| == limit && forall y :: y in cut ==> y in before)
  {
    var all := before + [x] + after;
    if |before| < limit {
      assert FirstN(all, limit)[|before|] == x;
    }
  }

  /** The queue holds the pending rows that have no expiry or one still to come. */
  lemma InQueue(t: Table, now: int, id: Id)
    requires t.Valid()
    ensures id in Queue(t, now) <==>
      id in t.rows && t.rows[id].status == Pending &&
      (t.rows[id].expiresAt.None? || now < t.rows[id].expiresAt.value)
  {
    InFilter(t.order, IsClaimable(t.rows, now));
  }

  /** An agent that sends no labels pops as one that sends an empty set. */
  lemma NoLabelsIsEmptyLabels(t: Table, now: int, limit: nat)
    ensures Popped(t, now, None, limit) == Popped(t, now, Some(map[]), limit)
  {
  }

  /** A pop marks what it returns with the agent and the time, and changes no other field and no other row. */
  lemma PopChangesOnlyTheClaim(t: Table, ids: seq<Id>, agent: string, now: int, id: Id)
    requires id in t.rows
    ensures AfterPop(t, ids, agent, now).order == t.order && AfterPop(t, ids, agent, now).rows.Keys == t.rows.Keys
    ensures
      var was, row := t.rows[id], AfterPop(t, ids, agent, now).rows[id];
      if id in ids
      then row == Row(was.api, was.body, was.location, was.labels, Processing, Some(agent), was.createdAt, Some(now),
                      was.expiresAt, was.response)
      else row == was
  {
  }

  /** A requeue resets every processing row whose expiry has passed, in three fields, and changes nothing else. */
  lemma RequeueResetsExpired(t: Table, now: int, id: Id)
    requires id in t.rows
    ensures AfterRequeue(t, now).order == t.order && AfterRequeue(t, now).rows.Keys == t.rows.Keys
    ensures
      var was, row := t.rows[id], AfterRequeue(t, now).rows[id];
      if was.status == Processing && was.expiresAt.Some? && was.expiresAt.value < now
      then row == Row(was.api, was.body, was.location, was.labels, Pending, None, was.createdAt, None,
                      was.expiresAt, was.response)
      else row == was
  {
  }

  /** A new row holds what it was given, pending and unowned; a taken id changes nothing. */
  lemma EnqueueStores(t: Table, id: Id, now: int, api: string, body: string, location: Option<string>,
                      labels: Option<Labels>, ttl: int)
    ensures
      var after := AfterEnqueue(t, id, now, api, body, location, labels, ttl);
      if id in t.rows then after == t
      else
        && after.order == t.order + [id] && id in after.rows && after.rows - {id} == t.rows
        && after.rows[id] == Row(api, body, location, labels, Pending, None, now, None, Some(now + ttl), None)
  {
    if id !in t.rows {
      assert AfterEnqueue(t, id, now, api, body, location, labels, ttl).rows - {id} == t.rows;
    }
  }

  /**
   * A verdict by the owner, or with no agent named, sets status and response of the row and nothing else; any other
   * changes nothing.
   */
  lemma FinishSetsTheVerdict(t: Table, id: Id, agent: Option<string>, status: Status, response: Option<string>, k: Id)
    requires k in t.rows
    ensures Finish(t, id, agent, status, response).order == t.order
    ensures Finish(t, id, agent, status, response).rows.Keys == t.rows.Keys
    ensures
      var was, row := t.rows[k], Finish(t, id, agent, status, response).rows[k];
      if k == id && (agent.None? || agent == Some("") || agent == was.owner)
      then row == Row(was.api, was.body, was.location, was.labels, status, was.owner, was.createdAt, was.poppedAt,
                      was.expiresAt, response)
      else row == was
  {
  }
}
