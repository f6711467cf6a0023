/** agents/lender.py, `Lender.watch`: poll the open requests, start an evaluation for each
    one not seen before, never more than a fixed number at a time. */
module Scheduler {
  import opened Models

  /** The two limits of the environment; a window limit of zero or less means none. */
  datatype Limits = Limits(maxOpen: int, maxInflight: int)

  datatype Agent = Agent(seen: set<Id>, pending: set<Id>, finished: set<Id>, started: seq<Id>) {
    function Start(rid: Id): Agent {
      Agent(seen + {rid}, pending + {rid}, finished, started + [rid])
    }

    function Consider(rid: Id): Agent {
      if rid in seen then this else Start(rid)
    }

    /** The done callback of a task. */
    function Finish(rid: Id): Agent {
      this.(pending := pending - {rid}, finished := finished + {rid})
    }
  }

  const FRESH_AGENT := Agent({}, {}, {}, [])

  function Window(rows: seq<Id>, limits: Limits): seq<Id> {
    if 0 < limits.maxOpen < |rows| then rows[..limits.maxOpen] else rows
  }

  /** The loop over one window: stop at the limit, skip what was seen, start the rest. */
  function Visit(a: Agent, rows: seq<Id>, cap: int): Agent
    decreases |rows|
  {
    if rows == [] || |a.pending| >= cap then a
    else Visit(a.Consider(rows[0]), rows[1..], cap)
  }

  function Poll(a: Agent, rows: seq<Id>, limits: Limits): Agent {
    Visit(a, Window(rows, limits), limits.maxInflight)
  }

  class Lender {
    const limits: Limits
    var seen: set<Id>
    var pending: set<Id>
    var finished: set<Id>
    var started: seq<Id>

    ghost function Contents(): Agent
      reads this
    {
      Agent(seen, pending, finished, started)
    }

    constructor (limits: Limits)
      ensures this.limits == limits && Contents() == FRESH_AGENT
    {
      this.limits := limits;
      seen, pending, finished, started := {}, {}, {}, [];
    }

    /** One poll that got an answer. */
    method PollOpenRequests(rows: seq<Id>)
      modifies this
      ensures Contents() == Poll(old(Contents()), rows, limits)
    {
      var window := Window(rows, limits);
      ghost var start := Contents();
      var i := 0;
      while i < |window|
        invariant 0 <= i <= |window|
        invariant Visit(start, window, limits.maxInflight) == Visit(Contents(), window[i..], limits.maxInflight)
      {
        if |pending| >= limits.maxInflight {
          break;
        }
        var rid := window[i];
        assert window[i..][1..] == window[i + 1..];
        if rid !in seen {
          seen := seen + {rid};
          pending := pending + {rid};
          started := started + [rid];
        }
        i := i + 1;
      }
    }

    method OnDone(rid: Id)
      requires rid in pending
      modifies this
      ensures Contents() == old(Contents()).Finish(rid)
    {
      pending := pending - {rid};
      finished := finished + {rid};
    }
  }

  // ----- whole runs -----

  datatype Event = Polled(rows: seq<Id>) | PollFailed | Done(rid: Id)

  ghost predicate Next(limits: Limits, a: Agent, e: Event, a': Agent) {
    match e
    case Polled(rows) => a' == Poll(a, rows, limits)
    case PollFailed => a' == a
    case Done(rid) => rid in a.pending && a' == a.Finish(rid)
  }

  ghost predicate AgentRun(limits: Limits, trace: seq<Agent>, events: seq<Event>) {
    && |trace| == |events| + 1
    && trace[0] == FRESH_AGENT
    && forall i {:trigger events[i]} :: 0 <= i < |events| ==> Next(limits, trace[i], events[i], trace[i + 1])
  }

  ghost predicate Distinct(ids: seq<Id>) {
    forall i, j :: 0 <= i < j < |ids| ==> ids[i] != ids[j]
  }

  /** What was seen is running or finished, not both; what was started was seen, and never
      twice; the limit holds. */
  ghost predicate AgentOk(a: Agent, cap: int) {
    && a.seen == a.pending + a.finished
    && a.pending !! a.finished
    && (forall r :: r in a.started <==> r in a.seen)
    && Distinct(a.started)
    && |a.pending| <= if 0 < cap then cap else 0
  }

  lemma {:induction false} VisitKeepsAgentOk(a: Agent, rows: seq<Id>, cap: int)
    requires AgentOk(a, cap)
    ensures AgentOk(Visit(a, rows, cap), cap)
    decreases |rows|
  {
    if rows != [] && |a.pending| < cap {
      ConsiderKeepsAgentOk(a, rows[0], cap);
      VisitKeepsAgentOk(a.Consider(rows[0]), rows[1..], cap);
    }
  }

  lemma ConsiderKeepsAgentOk(a: Agent, rid: Id, cap: int)
    requires AgentOk(a, cap) && |a.pending| < cap
    ensures AgentOk(a.Consider(rid), cap)
  {
    if rid !in a.seen {
      SlotTaken(a, rid);
      AppendKeepsDistinct(a.started, rid);
      NewIsRunning(a.seen, a.pending, a.finished, rid);
    }
  }

  lemma NewIsRunning(seen: set<Id>, pending: set<Id>, finished: set<Id>, rid: Id)
    requires seen == pending + finished && pending !! finished && rid !in seen
    ensures seen + {rid} == (pending + {rid}) + finished && (pending + {rid}) !! finished
  {
  }

  lemma AppendKeepsDistinct(ids: seq<Id>, rid: Id)
    requires Distinct(ids) && rid !in ids
    ensures Distinct(ids + [rid])
    ensures forall r :: r in ids + [rid] <==> r in ids || r == rid
  {
  }

  /** Over a whole run of one lender process: at most one evaluation is ever started per
      request, never more than the limit run at once, and everything seen is running or
      finished -- nothing is marked seen without an evaluation. */
  lemma {:induction false} EveryAgentRunIsOk(limits: Limits, trace: seq<Agent>, events: seq<Event>, i: nat)
    requires AgentRun(limits, trace, events) && i < |trace|
    ensures AgentOk(trace[i], limits.maxInflight)
  {
    if i > 0 {
      EveryAgentRunIsOk(limits, trace, events, i - 1);
      var a := trace[i - 1];
      match events[i - 1]
      case Polled(rows) => VisitKeepsAgentOk(a, Window(rows, limits), limits.maxInflight);
      case PollFailed =>
      case Done(rid) => FinishKeepsAgentOk(a, rid, limits.maxInflight);
    }
  }

  lemma FinishKeepsAgentOk(a: Agent, rid: Id, cap: int)
    requires AgentOk(a, cap) && rid in a.pending
    ensures AgentOk(a.Finish(rid), cap)
  {
    assert |a.pending - {rid}| == |a.pending| - 1;
  }

  // ----- progress -----

  /** What one window comes to: the evaluations started are new requests of the window, and
      unless the limit was reached none of the window is left unseen -- so a request skipped
      because of the limit stays unseen, to be found again. */
  lemma {:induction false} VisitStartsUpToLimit(a: Agent, rows: seq<Id>, cap: int)
    requires a.pending <= a.seen && |a.pending| <= cap
    ensures StartsUpToLimit(a, Visit(a, rows, cap), rows, cap)
    decreases |rows|
  {
    if rows != [] && |a.pending| < cap {
      var b := a.Consider(rows[0]);
      assert b.pending == if rows[0] in a.seen then a.pending else a.pending + {rows[0]};
      VisitStartsUpToLimit(b, rows[1..], cap);
      OneMoreVisited(a, Visit(a, rows, cap), rows, cap);
    }
  }

  ghost predicate StartsUpToLimit(a: Agent, a': Agent, rows: seq<Id>, cap: int) {
    && a.seen <= a'.seen && a'.finished == a.finished
    && a'.pending == a.pending + (a'.seen - a.seen)
    && (forall r :: r in a'.seen ==> r in a.seen || r in rows)
    && |a'.pending| <= cap
    && (|a'.pending| == cap || forall r :: r in rows ==> r in a'.seen)
  }

  lemma OneMoreVisited(a: Agent, a': Agent, rows: seq<Id>, cap: int)
    requires rows != [] && a.pending <= a.seen
    requires StartsUpToLimit(a.Consider(rows[0]), a', rows[1..], cap)
    ensures StartsUpToLimit(a, a', rows, cap)
  {
    var b := a.Consider(rows[0]);
    assert a'.pending == a.pending + (a'.seen - a.seen);
    forall r ensures r in rows <==> r == rows[0] || r in rows[1..] {
      assert rows == [rows[0]] + rows[1..];
    }
  }

  /** What `rounds` rounds of `limit` evaluations come to. */
  function Capacity(rounds: nat, limit: nat): nat {
    if rounds == 0 then 0 else Capacity(rounds - 1, limit) + limit
  }

  lemma {:induction false} CapacityIsProduct(rounds: nat, limit: nat)
    ensures Capacity(rounds, limit) == rounds * limit
  {
    if rounds > 0 {
      CapacityIsProduct(rounds - 1, limit);
    }
  }

  /** The requests of a window that were not seen before, each once, in order. */
  function Unseen(rows: seq<Id>, seen: set<Id>): seq<Id> {
    if rows == [] then []
    else if rows[0] in seen then Unseen(rows[1..], seen)
    else [rows[0]] + Unseen(rows[1..], seen + {rows[0]})
  }

  function UpTo(ids: seq<Id>, n: int): seq<Id> {
    if n <= 0 then [] else if |ids| <= n then ids else ids[..n]
  }

  function StartAll(a: Agent, chosen: seq<Id>): Agent
    decreases |chosen|
  {
    if chosen == [] then a else StartAll(a.Start(chosen[0]), chosen[1..])
  }

  /** What starting several comes to. */
  lemma {:induction false} StartAllStarts(a: Agent, chosen: seq<Id>)
    ensures var a' := StartAll(a, chosen);
            && a'.started == a.started + chosen && a'.finished == a.finished
            && (forall r :: r in a'.seen <==> r in a.seen || r in chosen)
            && (forall r :: r in a'.pending <==> r in a.pending || r in chosen)
    decreases |chosen|
  {
    if chosen != [] {
      StartAllStarts(a.Start(chosen[0]), chosen[1..]);
    }
  }

  lemma FirstOfSome(first: Id, others: seq<Id>, n: nat)
    ensures UpTo([first] + others, n + 1) == [first] + UpTo(others, n)
  {
  }

  /** Exactly the first unseen requests of the window are started, in its order, as many as
      there are free slots; nothing else changes. */
  lemma {:induction false} VisitStartsFirstUnseen(a: Agent, rows: seq<Id>, cap: int)
    requires a.pending <= a.seen
    ensures Visit(a, rows, cap) == StartAll(a, UpTo(Unseen(rows, a.seen), cap - |a.pending|))
    decreases |rows|
  {
    if rows != [] && |a.pending| < cap {
      var first, rest := rows[0], rows[1..];
      if first in a.seen {
        VisitStartsFirstUnseen(a, rest, cap);
      } else {
        var b := a.Start(first);
        SlotTaken(a, first);
        VisitStartsFirstUnseen(b, rest, cap);
        FirstOfSome(first, Unseen(rest, b.seen), cap - |b.pending|);
      }
    }
  }

  lemma SlotTaken(a: Agent, rid: Id)
    requires a.pending <= a.seen && rid !in a.seen
    ensures |a.Start(rid).pending| == |a.pending| + 1 && a.Start(rid).pending <= a.Start(rid).seen
  {
  }

  /** A poll takes the first `maxOpen` requests it is shown, or all of them when that is zero
      or less, and starts exactly the first unseen ones among those. */
  lemma PollStartsFirstOfWindow(a: Agent, rows: seq<Id>, limits: Limits)
    requires a.pending <= a.seen
    ensures var free := limits.maxInflight - |a.pending|;
            && (0 < limits.maxOpen < |rows| ==>
                  Poll(a, rows, limits) == StartAll(a, UpTo(Unseen(rows[..limits.maxOpen], a.seen), free)))
            && (limits.maxOpen <= 0 || |rows| <= limits.maxOpen ==>
                  Poll(a, rows, limits) == StartAll(a, UpTo(Unseen(rows, a.seen), free)))
  {
    VisitStartsFirstUnseen(a, Window(rows, limits), limits.maxInflight);
  }

  function Slots(limits: Limits): nat {
    if limits.maxInflight > 0 then limits.maxInflight else 0
  }

  function AsSet(rows: seq<Id>): set<Id> {
    set r | r in rows
  }

  function Minus(n: int, m: int): int {
    if n <= m then 0 else n - m
  }

  /** One poll of an idle agent over a window that shows all of `open`: the number of unseen
      requests falls by the limit, or to zero. */
  lemma OneRoundProgress(a: Agent, rows: seq<Id>, limits: Limits, open: set<Id>)
    requires a.pending == {} && Shows(rows, limits, open)
    ensures |open - Poll(a, rows, limits).seen| == Minus(|open - a.seen|, Slots(limits))
  {
    var cap := Slots(limits);
    var a' := Visit(a, rows, cap);
    assert a' == Poll(a, rows, limits);
    VisitStartsUpToLimit(a, rows, cap);
    var taken := a'.seen - a.seen;
    assert a'.pending == taken;
    assert open - a'.seen == (open - a.seen) - taken && taken <= open - a.seen;
    assert |open - a'.seen| == |open - a.seen| - |taken|;
    if |taken| < cap {
      assert open <= a'.seen;
      assert open - a'.seen == {};
    }
  }

  /** A window of exactly the open requests, all within the limit of the window. */
  predicate Shows(rows: seq<Id>, limits: Limits, open: set<Id>) {
    AsSet(rows) == open && (limits.maxOpen <= 0 || |rows| <= limits.maxOpen)
  }

  /** The open requests fit the window, none arrive, and evaluations finish between polls:
      each poll that gets an answer sees all of `open` and finds nothing running. */
  ghost predicate Steady(limits: Limits, trace: seq<Agent>, events: seq<Event>, open: set<Id>) {
    |trace| == |events| + 1 && forall i {:trigger events[i]} :: 0 <= i < |events| && events[i].Polled? ==>
      trace[i].pending == {} && Shows(events[i].rows, limits, open)
  }

  function PollsIn(events: seq<Event>): nat {
    if events == [] then 0
    else PollsIn(events[..|events| - 1]) + (if events[|events| - 1].Polled? then 1 else 0)
  }

  lemma EventProgress(limits: Limits, a: Agent, e: Event, a': Agent, open: set<Id>, k: nat, k': nat)
    requires Next(limits, a, e, a') && (e.Polled? ==> a.pending == {} && Shows(e.rows, limits, open))
    requires LeftAfter(a, open, k, limits) && k' == if e.Polled? then k + 1 else k
    ensures LeftAfter(a', open, k', limits)
  {
    if e.Polled? {
      OneRoundProgress(a, e.rows, limits, open);
    }
  }

  lemma PollsAfter(events: seq<Event>, n: nat)
    requires n < |events|
    ensures PollsIn(events[..n + 1]) == if events[n].Polled? then PollsIn(events[..n]) + 1 else PollsIn(events[..n])
  {
    assert events[..n + 1][..n] == events[..n];
  }

  /** What is left to start after `k` answered polls. */
  predicate LeftAfter(a: Agent, open: set<Id>, k: nat, limits: Limits) {
    |open - a.seen| == Minus(|open|, Capacity(k, Slots(limits)))
  }

  lemma AllLeftAtFirst(open: set<Id>, limits: Limits)
    ensures LeftAfter(FRESH_AGENT, open, 0, limits)
  {
    assert open - FRESH_AGENT.seen == open;
  }

  lemma {:induction false} PollsProgress(limits: Limits, trace: seq<Agent>, events: seq<Event>, open: set<Id>, n: nat)
    requires AgentRun(limits, trace, events) && Steady(limits, trace, events, open) && n < |trace|
    ensures LeftAfter(trace[n], open, PollsIn(events[..n]), limits)
  {
    if n == 0 {
      AllLeftAtFirst(open, limits);
    } else {
      PollsProgress(limits, trace, events, open, n - 1);
      PollsAfter(events, n - 1);
      EventProgress(limits, trace[n - 1], events[n - 1], trace[n], open, PollsIn(events[..n - 1]),
        PollsIn(events[..n]));
    }
  }

  lemma NoneLeft(open: set<Id>, seen: set<Id>)
    ensures open <= seen <==> |open - seen| == 0
  {
    if |open - seen| == 0 {
      assert open - seen == {};
      assert forall r :: r in open ==> r !in open - seen;
    }
    if open <= seen {
      assert open - seen == {};
    }
  }

  /** If the open requests fit the window, none arrive and evaluations finish between polls,
      then in every run all n of them have been started after k answered polls if and only
      if k times the limit is at least n: after the ceiling of n over the limit, and not
      before.  Polls that fail do not count. */
  lemma AllStartedExactly(limits: Limits, trace: seq<Agent>, events: seq<Event>, open: set<Id>, n: nat)
    requires AgentRun(limits, trace, events) && Steady(limits, trace, events, open) && n < |trace|
    ensures open <= trace[n].seen <==> |open| <= PollsIn(events[..n]) * Slots(limits)
  {
    PollsProgress(limits, trace, events, open, n);
    CapacityIsProduct(PollsIn(events[..n]), Slots(limits));
    NoneLeft(open, trace[n].seen);
  }

  // ----- such runs exist -----

  ghost predicate SteadyRun(limits: Limits, trace: seq<Agent>, events: seq<Event>, open: set<Id>) {
    AgentRun(limits, trace, events) && Steady(limits, trace, events, open)
  }

  lemma RunExtends(limits: Limits, trace: seq<Agent>, events: seq<Event>, e: Event, a': Agent)
    requires AgentRun(limits, trace, events) && Next(limits, trace[|events|], e, a')
    ensures AgentRun(limits, trace + [a'], events + [e])
  {
    var trace', events' := trace + [a'], events + [e];
    forall i {:trigger events'[i]} | 0 <= i < |events'|
      ensures Next(limits, trace'[i], events'[i], trace'[i + 1])
    {
      if i < |events| {
        assert events'[i] == events[i] && trace'[i] == trace[i] && trace'[i + 1] == trace[i + 1];
      }
    }
  }

  lemma SteadyExtends(limits: Limits, trace: seq<Agent>, events: seq<Event>, open: set<Id>, e: Event, a': Agent)
    requires SteadyRun(limits, trace, events, open) && Next(limits, trace[|events|], e, a')
    requires e.Polled? ==> trace[|events|].pending == {} && Shows(e.rows, limits, open)
    ensures SteadyRun(limits, trace + [a'], events + [e], open)
    ensures PollsIn(events + [e]) == if e.Polled? then PollsIn(events) + 1 else PollsIn(events)
  {
    RunExtends(limits, trace, events, e, a');
    var trace', events' := trace + [a'], events + [e];
    assert events'[..|events|] == events;
    forall i {:trigger events'[i]} | 0 <= i < |events'| && events'[i].Polled?
      ensures trace'[i].pending == {} && Shows(events'[i].rows, limits, open)
    {
      if i < |events| {
        assert events'[i] == events[i] && trace'[i] == trace[i];
      }
    }
  }

  lemma {:induction false} AllFinish(limits: Limits, trace: seq<Agent>, events: seq<Event>, open: set<Id>)
    returns (trace': seq<Agent>, events': seq<Event>)
    requires SteadyRun(limits, trace, events, open)
    ensures SteadyRun(limits, trace', events', open) && PollsIn(events') == PollsIn(events)
    ensures trace'[|events'|].pending == {}
    decreases |trace[|events|].pending|
  {
    trace', events' := trace, events;
    var a := trace[|events|];
    if a.pending != {} {
      var rid :| rid in a.pending;
      SteadyExtends(limits, trace, events, open, Done(rid), a.Finish(rid));
      trace', events' := AllFinish(limits, trace + [a.Finish(rid)], events + [Done(rid)], open);
    }
  }

  /** Any windows that show the open requests can be polled one after another, everything
      started finishing in between. */
  lemma {:induction false} SteadyRunExists(limits: Limits, windows: seq<seq<Id>>, open: set<Id>)
    returns (trace: seq<Agent>, events: seq<Event>)
    requires forall w :: w in windows ==> Shows(w, limits, open)
    ensures SteadyRun(limits, trace, events, open)
    ensures PollsIn(events) == |windows| && trace[|events|].pending == {}
  {
    if windows == [] {
      trace, events := [FRESH_AGENT], [];
    } else {
      var init, last := windows[..|windows| - 1], windows[|windows| - 1];
      trace, events := SteadyRunExists(limits, init, open);
      var a' := Poll(trace[|events|], last, limits);
      SteadyExtends(limits, trace, events, open, Polled(last), a');
      trace, events := AllFinish(limits, trace + [a'], events + [Polled(last)], open);
    }
  }
}
