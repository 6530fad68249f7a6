/** The task table of one GraphQL websocket connection. */
module Subscriptions {
  import opened Collections

  /** An operation id as the client sent it; Null when the message has none. */
  datatype Id = Null | Number(value: int) | Text(text: string)

  /** How a send or a close on the websocket went. */
  datatype Io = Done | PeerGone | Error

  /** What starting a subscription came to: a task, an error payload to send back, or an exception. */
  datatype Outcome = Started | Rejected(reply: Io) | Fails

  /**
   * One turn of the receive loop. Malformed stands for a message that cannot be read or whose id cannot be a key,
   * Closed for the loop test finding the socket disconnected, Other for any other message type.
   */
  datatype Event =
    | Init(ack: Io)
    | Terminate(close: Io)
    | Start(id: Id, outcome: Outcome)
    | Stop(id: Id)
    | Other
    | Malformed
    | Closed

  /** How the loop is left: a disconnect is swallowed, anything else propagates. */
  datatype Exit = Quiet | Raised

  /**
   * The table, and what happened to tasks: task t was the t-th to be created, for operation ids[t]; cancelled lists
   * the cancel calls in order.
   */
  datatype State = State(tasks: map<Id, nat>, ids: seq<Id>, cancelled: seq<nat>)

  datatype Turn = Turn(state: State, exit: Option<Exit>)

  function After(io: Io): Option<Exit> {
    match io
    case Done => None
    case PeerGone => Some(Quiet)
    case Error => Some(Raised)
  }

  function Step(s: State, e: Event): Turn {
    match e
    case Init(ack) => Turn(s, After(ack))
    case Terminate(close) => Turn(s, if close.Error? then Some(Raised) else Some(Quiet))
    case Start(id, outcome) =>
      if id in s.tasks then Turn(s, None)
      else
        (match outcome
         case Started => Turn(State(s.tasks[id := |s.ids|], s.ids + [id], s.cancelled), None)
         case Rejected(reply) => Turn(s, After(reply))
         case Fails => Turn(s, Some(Raised)))
    case Stop(id) =>
      if id !in s.tasks then Turn(s, None)
      else Turn(State(s.tasks - {id}, s.ids, s.cancelled + [s.tasks[id]]), None)
    case Other => Turn(s, None)
    case Malformed => Turn(s, Some(Raised))
    case Closed => Turn(s, Some(Quiet))
  }

  /** The receive loop over a stream of events; no exit when it is still waiting for the next one. */
  function Loop(s: State, events: seq<Event>): Turn
    decreases |events|
  {
    if events == [] then Turn(s, None)
    else
      var t := Step(s, events[0]);
      if t.exit.Some? then t else Loop(t.state, events[1..])
  }

  const EMPTY := State(map[], [], [])

  function TimesCancelled(s: State, t: nat): nat {
    multiset(s.cancelled)[t]
  }

  /** A task is in the table under its own operation id. */
  predicate Stored(s: State, t: nat)
    requires t < |s.ids|
  {
    s.ids[t] in s.tasks && s.tasks[s.ids[t]] == t
  }

  /** Every task is either in the table and never cancelled, or out of it and cancelled exactly once. */
  ghost predicate Tracked(s: State) {
    && (forall id :: id in s.tasks ==> s.tasks[id] < |s.ids| && s.ids[s.tasks[id]] == id)
    && (forall t :: 0 <= t < |s.ids| ==> TimesCancelled(s, t) == if Stored(s, t) then 0 else 1)
    && (forall t :: |s.ids| <= t ==> TimesCancelled(s, t) == 0)
  }

  /** Every task has been cancelled once, except those in the table under the operations still to do. */
  ghost predicate CancelledBut(s: State, todo: set<Id>) {
    forall t: nat ::
      TimesCancelled(s, t) == if t < |s.ids| && !(s.ids[t] in todo && Stored(s, t)) then 1 else 0
  }

  class Connection {
    var tasks: map<Id, nat>
    var ids: seq<Id>
    var cancelled: seq<nat>

    ghost function Contents(): State
      reads this
    {
      State(tasks, ids, cancelled)
    }

    constructor ()
      ensures Contents() == EMPTY
    {
      tasks, ids, cancelled := map[], [], [];
    }

    method Handle(e: Event) returns (exit: Option<Exit>)
      modifies this
      ensures Turn(Contents(), exit) == Step(old(Contents()), e)
    {
      match e
      case Init(ack) => return After(ack);
      case Terminate(close) => return if close.Error? then Some(Raised) else Some(Quiet);
      case Start(id, outcome) =>
        if id in tasks {
          return None;
        }
        match outcome {
          case Started =>
            tasks, ids := tasks[id := |ids|], ids + [id];
            return None;
          case Rejected(reply) => return After(reply);
          case Fails => return Some(Raised);
        }
      case Stop(id) =>
        if id !in tasks {
          return None;
        }
        cancelled := cancelled + [tasks[id]];
        tasks := tasks - {id};
        return None;
      case Other => return None;
      case Malformed => return Some(Raised);
      case Closed => return Some(Quiet);
    }

    /**
     * The whole connection: the loop, then the cancelling of what is left in the table. A stream that ends is a
     * client that disconnects. However the loop is left, every task created was cancelled exactly once.
     */
    method Serve(events: seq<Event>) returns (raised: bool)
      requires Contents() == EMPTY
      modifies this
      ensures raised <==> Loop(EMPTY, events).exit == Some(Raised)
      ensures ids == Loop(EMPTY, events).state.ids && Loop(EMPTY, events).state.cancelled <= cancelled
      ensures forall t: nat :: TimesCancelled(Contents(), t) == if t < |ids| then 1 else 0
    {
      var exit: Option<Exit> := None;
      var i := 0;
      assert events[0..] == events;
      while i < |events| && exit.None?
        invariant 0 <= i <= |events|
        invariant exit.None? ==> Loop(EMPTY, events) == Loop(Contents(), events[i..])
        invariant exit.Some? ==> Loop(EMPTY, events) == Turn(Contents(), exit)
      {
        exit := Handle(events[i]);
        i := i + 1;
      }
      LoopKeepsTracked(EMPTY, events);
      CancelAll();
      return exit == Some(Raised);
    }

    /** The finally block: cancels every task in the table, which it leaves as it is. */
    method CancelAll()
      requires Tracked(Contents())
      modifies this
      ensures tasks == old(tasks) && ids == old(ids) && old(cancelled) <= cancelled
      ensures forall t: nat :: TimesCancelled(Contents(), t) == if t < |ids| then 1 else 0
    {
      var todo := tasks.Keys;
      while todo != {}
        invariant todo <= tasks.Keys && tasks == old(tasks) && ids == old(ids) && old(cancelled) <= cancelled
        invariant forall id :: id in tasks ==> tasks[id] < |ids| && ids[tasks[id]] == id
        invariant CancelledBut(Contents(), todo)
      {
        var id :| id in todo;
        cancelled := cancelled + [tasks[id]];
        todo := todo - {id};
      }
    }
  }

  // ---- At every moment ----

  /** A new task is stored under its id and the others are where they were. */
  lemma AddKeepsTracked(s: State, id: Id)
    requires Tracked(s) && id !in s.tasks
    ensures Tracked(State(s.tasks[id := |s.ids|], s.ids + [id], s.cancelled))
  {
    var next := State(s.tasks[id := |s.ids|], s.ids + [id], s.cancelled);
    forall t | 0 <= t < |next.ids| ensures TimesCancelled(next, t) == if Stored(next, t) then 0 else 1 {
      assert TimesCancelled(next, t) == TimesCancelled(s, t);
      if t < |s.ids| {
        assert next.ids[t] == s.ids[t];
      }
    }
    forall t | |next.ids| <= t ensures TimesCancelled(next, t) == 0 {
      assert TimesCancelled(next, t) == TimesCancelled(s, t);
    }
  }

  /** The stopped task is cancelled and gone; the others are where they were. */
  lemma StopKeepsTracked(s: State, id: Id)
    requires Tracked(s) && id in s.tasks
    ensures Tracked(State(s.tasks - {id}, s.ids, s.cancelled + [s.tasks[id]]))
  {
    var task := s.tasks[id];
    var next := State(s.tasks - {id}, s.ids, s.cancelled + [task]);
    forall t: nat ensures TimesCancelled(next, t) == TimesCancelled(s, t) + (if t == task then 1 else 0) {
    }
    forall t | 0 <= t < |s.ids| ensures Stored(next, t) <==> Stored(s, t) && t != task {
      assert Stored(s, task);
    }
    assert TimesCancelled(s, task) == 0;
  }

  lemma StepKeepsTracked(s: State, e: Event)
    requires Tracked(s)
    ensures Tracked(Step(s, e).state)
  {
    hide Tracked;
    match e
    case Start(id, outcome) =>
      if id !in s.tasks {
        AddKeepsTracked(s, id);
      }
    case Stop(id) =>
      if id in s.tasks {
        StopKeepsTracked(s, id);
      }
    case _ =>
  }

  lemma {:induction false} LoopKeepsTracked(s: State, events: seq<Event>)
    requires Tracked(s)
    ensures Tracked(Loop(s, events).state)
    decreases |events|
  {
    hide Step, Tracked;
    if events != [] {
      StepKeepsTracked(s, events[0]);
      if Step(s, events[0]).exit.None? {
        LoopKeepsTracked(Step(s, events[0]).state, events[1..]);
      }
    }
  }

  /** At any moment of any connection, two tasks of one operation id are never both uncancelled. */
  lemma OneLiveTaskPerOperation(events: seq<Event>, t: nat, u: nat)
    requires var s := Loop(EMPTY, events).state; t < |s.ids| && u < |s.ids| && s.ids[t] == s.ids[u]
    requires var s := Loop(EMPTY, events).state; TimesCancelled(s, t) == 0 && TimesCancelled(s, u) == 0
    ensures t == u
  {
    LoopKeepsTracked(EMPTY, events);
  }

  /** No cancel call is ever repeated, and none is made for a task that was not created. */
  lemma CancelledAtMostOnce(events: seq<Event>, t: nat)
    ensures var s := Loop(EMPTY, events).state; TimesCancelled(s, t) <= if t < |s.ids| then 1 else 0
  {
    LoopKeepsTracked(EMPTY, events);
  }

  // ---- What the table holds, read off the stream ----

  /** The newest event that settles the operation is a successful start rather than a stop. */
  predicate Live(events: seq<Event>, id: Id)
    decreases |events|
  {
    events != [] &&
    var last := events[|events| - 1];
    if last == Stop(id) then false
    else if last == Start(id, Started) then true
    else Live(events[..|events| - 1], id)
  }

  lemma {:induction false} LoopAppend(s: State, a: seq<Event>, b: seq<Event>)
    requires Loop(s, a).exit.None?
    ensures Loop(s, a + b) == Loop(Loop(s, a).state, b)
    decreases |a|
  {
    hide Step;
    if a == [] {
      assert a + b == b;
    } else {
      assert (a + b)[1..] == a[1..] + b;
      LoopAppend(Step(s, a[0]).state, a[1..], b);
    }
  }

  lemma {:induction false} ExitIsFinal(s: State, a: seq<Event>, b: seq<Event>)
    requires Loop(s, a).exit.Some?
    ensures Loop(s, a + b) == Loop(s, a)
    decreases |a|
  {
    hide Step;
    assert (a + b)[1..] == a[1..] + b;
    if Step(s, a[0]).exit.None? {
      ExitIsFinal(Step(s, a[0]).state, a[1..], b);
    }
  }

  /** While the loop runs, an operation is in the table exactly when the newest settling event started it. */
  lemma {:induction false} TableIsLive(events: seq<Event>, id: Id)
    requires Loop(EMPTY, events).exit.None?
    ensures id in Loop(EMPTY, events).state.tasks <==> Live(events, id)
    decreases |events|
  {
    if events != [] {
      var n := |events| - 1;
      var init, last := events[..n], events[n];
      assert events == init + [last];
      if Loop(EMPTY, init).exit.Some? {
        ExitIsFinal(EMPTY, init, [last]);
      } else {
        LoopAppend(EMPTY, init, [last]);
        TableIsLive(init, id);
        assert Loop(Loop(EMPTY, init).state, [last]).state == Step(Loop(EMPTY, init).state, last).state;
      }
    }
  }

  /** Starting an operation that is live does nothing at all, whatever would have come of it. */
  lemma RepeatedStartIsInvisible(before: seq<Event>, id: Id, outcome: Outcome, rest: seq<Event>)
    requires Loop(EMPTY, before).exit.None? && Live(before, id)
    ensures Loop(EMPTY, before + [Start(id, outcome)] + rest) == Loop(EMPTY, before + rest)
  {
    var s := Loop(EMPTY, before).state;
    TableIsLive(before, id);
    LoopAppend(EMPTY, before, rest);
    LoopAppend(EMPTY, before, [Start(id, outcome)] + rest);
    assert before + [Start(id, outcome)] + rest == before + ([Start(id, outcome)] + rest);
    assert ([Start(id, outcome)] + rest)[1..] == rest;
  }

  // ---- When the loop ends, read off the stream ----

  /** After these events this one makes the loop raise. */
  predicate Breaks(before: seq<Event>, e: Event) {
    || e == Malformed || e == Init(Error) || e == Terminate(Error)
    || (e.Start? && !Live(before, e.id) && (e.outcome == Fails || e.outcome == Rejected(Error)))
  }

  /** After these events this one ends the loop quietly: the client is gone, or the connection was closed. */
  predicate Hangs(before: seq<Event>, e: Event) {
    || e == Closed || e == Init(PeerGone) || e == Terminate(Done) || e == Terminate(PeerGone)
    || (e.Start? && !Live(before, e.id) && e.outcome == Rejected(PeerGone))
  }

  lemma StepExit(before: seq<Event>, e: Event)
    requires Loop(EMPTY, before).exit.None?
    ensures Step(Loop(EMPTY, before).state, e).exit ==
      if Breaks(before, e) then Some(Raised) else if Hangs(before, e) then Some(Quiet) else None
  {
    if e.Start? {
      TableIsLive(before, e.id);
    }
  }

  lemma LoopSnoc(before: seq<Event>, e: Event)
    requires Loop(EMPTY, before).exit.None?
    ensures Loop(EMPTY, before + [e]) == Step(Loop(EMPTY, before).state, e)
  {
    hide Step;
    LoopAppend(EMPTY, before, [e]);
    assert [e][1..] == [];
  }

  /** The loop goes on as long as no event ends it. */
  lemma {:induction false} LoopGoesOnIff(events: seq<Event>)
    ensures Loop(EMPTY, events).exit.None? <==>
      forall i :: 0 <= i < |events| ==> !Breaks(events[..i], events[i]) && !Hangs(events[..i], events[i])
    decreases |events|
  {
    hide Breaks, Hangs, Step, Loop;
    if events == [] {
      EmptyLoop();
    } else {
      var n := |events| - 1;
      var front, last := events[..n], events[n];
      assert events == front + [last];
      LoopGoesOnIff(front);
      assert forall i :: 0 <= i < n ==> front[..i] == events[..i];
      if Loop(EMPTY, front).exit.None? {
        LoopSnoc(front, last);
        StepExit(front, last);
      } else {
        ExitIsFinal(EMPTY, front, [last]);
      }
    }
  }

  lemma EmptyLoop()
    ensures Loop(EMPTY, []).exit.None?
  {
  }

  /**
   * The first event that ends the loop decides how it ends; nothing after it is read. So a connection raises exactly
   * when that event breaks, and what it did to the tasks is what the events before it did.
   */
  lemma FirstEndDecides(before: seq<Event>, e: Event, rest: seq<Event>)
    requires Loop(EMPTY, before).exit.None? && (Breaks(before, e) || Hangs(before, e))
    ensures Loop(EMPTY, before + [e] + rest) ==
      Turn(Loop(EMPTY, before).state, Some(if Breaks(before, e) then Raised else Quiet))
  {
    hide Loop, Breaks, Hangs;
    LoopSnoc(before, e);
    StepExit(before, e);
    ExitIsFinal(EMPTY, before + [e], rest);
    EndLeavesTasks(Loop(EMPTY, before).state, e);
  }

  lemma EndLeavesTasks(s: State, e: Event)
    requires Step(s, e).exit.Some?
    ensures Step(s, e).state == s
  {
  }
}
