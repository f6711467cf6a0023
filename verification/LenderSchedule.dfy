/** The evaluations that one lender begins on the marketplace are those its polling loop
    starts: seen from one lender, a run of everything is a run of that loop. */
module LenderSchedule {
  import opened Models
  import opened Protocol
  import opened LenderProtocol
  import Scheduler

  /** The requests a lender has seen, and those whose evaluation is still running. */
  function SeenBy(tasks: map<Task, Stage>, lender: string): set<Id> {
    set t | t in tasks && t.lender == lender :: t.request
  }

  function RunningBy(tasks: map<Task, Stage>, lender: string): set<Id> {
    set t | t in tasks && t.lender == lender && !tasks[t].Over? :: t.request
  }

  /** The requests of the evaluations the lender begins, in order. */
  function BegunBy(moves: seq<Move>, lender: string): seq<Id> {
    if moves == [] then []
    else
      var last := moves[|moves| - 1];
      BegunBy(moves[..|moves| - 1], lender) + (if last.Begin? && last.t.lender == lender then [last.t.request] else [])
  }

  lemma TasksMoved(tasks: map<Task, Stage>, t: Task, stage: Stage, lender: string)
    ensures var tasks' := tasks[t := stage];
            if t.lender != lender then
              SeenBy(tasks', lender) == SeenBy(tasks, lender) && RunningBy(tasks', lender) == RunningBy(tasks, lender)
            else
              && SeenBy(tasks', lender) == SeenBy(tasks, lender) + {t.request}
              && RunningBy(tasks', lender) ==
                 if stage.Over? then RunningBy(tasks, lender) - {t.request} else RunningBy(tasks, lender) + {t.request}
  {
    var tasks' := tasks[t := stage];
    if t.lender == lender {
      forall r
        ensures r in SeenBy(tasks', lender) <==> r in SeenBy(tasks, lender) + {t.request}
        ensures r in RunningBy(tasks', lender) <==>
                r in if stage.Over? then RunningBy(tasks, lender) - {t.request}
                  else RunningBy(tasks, lender) + {t.request}
      {
        MemberBy(tasks, lender, r);
        MemberBy(tasks', lender, r);
      }
    } else {
      forall r
        ensures r in SeenBy(tasks', lender) <==> r in SeenBy(tasks, lender)
        ensures r in RunningBy(tasks', lender) <==> r in RunningBy(tasks, lender)
      {
        MemberBy(tasks, lender, r);
        MemberBy(tasks', lender, r);
      }
    }
  }

  lemma MemberBy(tasks: map<Task, Stage>, lender: string, r: Id)
    ensures r in SeenBy(tasks, lender) <==> Task(lender, r) in tasks
    ensures r in RunningBy(tasks, lender) <==> Task(lender, r) in tasks && !tasks[Task(lender, r)].Over?
  {
    assert Task(lender, r).lender == lender && Task(lender, r).request == r;
  }

  /** A move concerns one task at most: one that has just begun, or one that is not over. */
  lemma OneTaskMoves(cfg: Config, fee: real, w: World, m: Move, w': World)
    requires WorldStep(cfg, fee, w, m, w')
    ensures if m.Market? then w'.tasks == w.tasks
            else
              && m.t in w'.tasks && w'.tasks == w.tasks[m.t := w'.tasks[m.t]]
              && (if m.Begin? then m.t !in w.tasks && !w'.tasks[m.t].Over? else m.t in w.tasks && !w.tasks[m.t].Over?)
  {
  }

  /** The state of the lender's loop, as the evaluations show it. */
  ghost predicate Mirrors(a: Scheduler.Agent, tasks: map<Task, Stage>, lender: string, begun: seq<Id>) {
    && a.seen == SeenBy(tasks, lender)
    && a.pending == RunningBy(tasks, lender)
    && a.finished == a.seen - a.pending
    && a.started == begun
  }

  /** At each beginning of an evaluation the lender has a slot free. */
  ghost predicate KeepsLimit(limits: Scheduler.Limits, trace: seq<World>, moves: seq<Move>, lender: string) {
    && |trace| == |moves| + 1
    && forall i {:trigger moves[i]} :: 0 <= i < |moves| && moves[i].Begin? && moves[i].t.lender == lender ==>
      |RunningBy(trace[i].tasks, lender)| < limits.maxInflight
  }

  /** A poll whose window is one unseen request starts it. */
  lemma PollOfOne(a: Scheduler.Agent, r: Id, limits: Scheduler.Limits)
    requires r !in a.seen && |a.pending| < limits.maxInflight
    ensures Scheduler.Poll(a, [r], limits) == a.Start(r)
  {
    assert Scheduler.Window([r], limits) == [r];
    assert [r][1..] == [];
    assert Scheduler.Visit(a.Start(r), [], limits.maxInflight) == a.Start(r);
  }

  /** The loop polls the request whose evaluation begins ... */
  lemma BeginIsMirrored(limits: Scheduler.Limits, tasks: map<Task, Stage>, t: Task, stage: Stage, a: Scheduler.Agent,
                        begun: seq<Id>)
    requires t !in tasks && !stage.Over? && Mirrors(a, tasks, t.lender, begun)
    requires |RunningBy(tasks, t.lender)| < limits.maxInflight
    ensures Scheduler.Next(limits, a, Scheduler.Polled([t.request]), a.Start(t.request))
    ensures Mirrors(a.Start(t.request), tasks[t := stage], t.lender, begun + [t.request])
  {
    TasksMoved(tasks, t, stage, t.lender);
    MemberBy(tasks, t.lender, t.request);
    assert t == Task(t.lender, t.request);
    PollOfOne(a, t.request, limits);
  }

  /** ... and notes the evaluation that ends. */
  lemma EndIsMirrored(limits: Scheduler.Limits, tasks: map<Task, Stage>, t: Task, a: Scheduler.Agent, begun: seq<Id>)
    requires t in tasks && !tasks[t].Over? && Mirrors(a, tasks, t.lender, begun)
    ensures Scheduler.Next(limits, a, Scheduler.Done(t.request), a.Finish(t.request))
    ensures Mirrors(a.Finish(t.request), tasks[t := Over], t.lender, begun)
  {
    TasksMoved(tasks, t, Over, t.lender);
    MemberBy(tasks, t.lender, t.request);
    assert t == Task(t.lender, t.request);
  }

  lemma OtherwiseNothing(tasks: map<Task, Stage>, t: Task, stage: Stage, lender: string, a: Scheduler.Agent,
                         begun: seq<Id>)
    requires Mirrors(a, tasks, lender, begun)
    requires t.lender == lender ==> t in tasks && !tasks[t].Over? && !stage.Over?
    ensures Mirrors(a, tasks[t := stage], lender, begun)
  {
    TasksMoved(tasks, t, stage, lender);
    MemberBy(tasks, lender, t.request);
    assert t == Task(t.lender, t.request);
  }

  /** What the lender's loop does while everything makes one move. */
  lemma MoveIsMirrored(cfg: Config, fee: real, limits: Scheduler.Limits, w: World, m: Move, w': World, lender: string,
                       a: Scheduler.Agent, begun: seq<Id>)
    returns (events: seq<Scheduler.Event>, a': Scheduler.Agent)
    requires WorldStep(cfg, fee, w, m, w') && Mirrors(a, w.tasks, lender, begun)
    requires m.Begin? && m.t.lender == lender ==> |RunningBy(w.tasks, lender)| < limits.maxInflight
    ensures Mirrors(a', w'.tasks, lender, begun + if m.Begin? && m.t.lender == lender then [m.t.request] else [])
    ensures if events == [] then a' == a else |events| == 1 && Scheduler.Next(limits, a, events[0], a')
  {
    events, a' := [], a;
    assert begun + [] == begun;
    OneTaskMoves(cfg, fee, w, m, w');
    if !m.Market? {
      var stage := w'.tasks[m.t];
      if m.t.lender == lender && m.Begin? {
        BeginIsMirrored(limits, w.tasks, m.t, stage, a, begun);
        events, a' := [Scheduler.Polled([m.t.request])], a.Start(m.t.request);
      } else if m.t.lender == lender && stage.Over? {
        EndIsMirrored(limits, w.tasks, m.t, a, begun);
        events, a' := [Scheduler.Done(m.t.request)], a.Finish(m.t.request);
      } else {
        OtherwiseNothing(w.tasks, m.t, stage, lender, a, begun);
      }
    }
  }

  /** In every run, what one lender begins is what a run of its polling loop starts, in the
      same order; what it has seen, runs and has finished are the same, too. */
  lemma {:induction false} LenderRunsItsLoop(cfg: Config, fee: real, limits: Scheduler.Limits, trace: seq<World>,
                                             moves: seq<Move>, lender: string, n: nat)
    returns (agents: seq<Scheduler.Agent>, events: seq<Scheduler.Event>)
    requires WorldRun(cfg, fee, trace, moves) && KeepsLimit(limits, trace, moves, lender) && n < |trace|
    ensures Scheduler.AgentRun(limits, agents, events)
    ensures Mirrors(agents[|events|], trace[n].tasks, lender, BegunBy(moves[..n], lender))
  {
    if n == 0 {
      agents, events := [Scheduler.FRESH_AGENT], [];
    } else {
      agents, events := LenderRunsItsLoop(cfg, fee, limits, trace, moves, lender, n - 1);
      var a, m := agents[|events|], moves[n - 1];
      assert moves[..n][..n - 1] == moves[..n - 1];
      var more, a' :=
        MoveIsMirrored(cfg, fee, limits, trace[n - 1], m, trace[n], lender, a, BegunBy(moves[..n - 1], lender));
      if more != [] {
        Scheduler.RunExtends(limits, agents, events, more[0], a');
        agents, events := agents + [a'], events + [more[0]];
      }
    }
  }

  /** Every run keeps some limit: a move starts one evaluation at most. */
  lemma {:induction false} RunningAtMost(cfg: Config, fee: real, trace: seq<World>, moves: seq<Move>, lender: string,
                                         n: nat)
    requires WorldRun(cfg, fee, trace, moves) && n < |trace|
    ensures |RunningBy(trace[n].tasks, lender)| <= n
  {
    if n == 0 {
      assert RunningBy(trace[0].tasks, lender) == {};
    } else {
      var m, tasks := moves[n - 1], trace[n - 1].tasks;
      RunningAtMost(cfg, fee, trace, moves, lender, n - 1);
      OneTaskMoves(cfg, fee, trace[n - 1], m, trace[n]);
      if !m.Market? {
        OneMoreRunning(tasks, m.t, trace[n].tasks[m.t], lender);
      }
    }
  }

  lemma OneMoreRunning(tasks: map<Task, Stage>, t: Task, stage: Stage, lender: string)
    ensures |RunningBy(tasks[t := stage], lender)| <= |RunningBy(tasks, lender)| + 1
  {
    var running := RunningBy(tasks, lender);
    TasksMoved(tasks, t, stage, lender);
    assert |running + {t.request}| <= |running| + 1;
    assert running - {t.request} <= running;
    assert running == (running - {t.request}) + (running * {t.request});
  }

  /** So no lender ever begins two evaluations of one request. */
  lemma NoSecondEvaluation(cfg: Config, fee: real, trace: seq<World>, moves: seq<Move>, lender: string)
    requires WorldRun(cfg, fee, trace, moves)
    ensures Scheduler.Distinct(BegunBy(moves, lender))
  {
    var limits := Scheduler.Limits(0, |moves| + 1);
    forall i {:trigger moves[i]} | 0 <= i < |moves| && moves[i].Begin? && moves[i].t.lender == lender
      ensures |RunningBy(trace[i].tasks, lender)| < limits.maxInflight
    {
      RunningAtMost(cfg, fee, trace, moves, lender, i);
    }
    var agents, events := LenderRunsItsLoop(cfg, fee, limits, trace, moves, lender, |moves|);
    assert moves[..|moves|] == moves;
    Scheduler.EveryAgentRunIsOk(limits, agents, events, |events|);
  }
}
