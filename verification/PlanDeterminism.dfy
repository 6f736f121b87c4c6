/** Left alone, the queue machine has one thing to do at a time, so every undisturbed run of a launched plan ends in the
    world in which the loop ends. */
module PlanDeterminism {
  import opened Basics
  import opened FlightPlan
  import opened PlanLoop
  import opened PlanMachine
  import opened PlanSimulation

  /** Command log `x` can go on: its job or its command, or the plan log that it waits for is finished. */
  ghost predicate Ready(s: Machine, x: nat) {
    || x in s.queue || x in s.executing
    || (x in s.waiting && s.waiting[x] < |s.w.planLogs| && !s.w.planLogs[s.waiting[x]].running)
  }

  /** At most one command log can go on, and no two wait for one plan log. */
  ghost predicate Threaded(s: Machine) {
    && (forall x, y :: Ready(s, x) && Ready(s, y) ==> x == y)
    && (forall x, y :: x in s.waiting && y in s.waiting && s.waiting[x] == s.waiting[y] ==> x == y)
    && AllThere(s)
    && (forall x :: x in s.Pending() ==> x < |s.w.commandLogs| && s.w.commandLogs[x].running)
  }

  // --- One step ----------------------------------------------------------------------------------

  /** From `s` to `s'` plan log `pl` has gone on: it is running with one new command, or finished with none. */
  ghost predicate Moved(s: Machine, s': Machine, pl: nat) {
    && pl < |s.w.planLogs| == |s'.w.planLogs| && s.w.commandLogs <= s'.w.commandLogs && s'.waiting == s.waiting
    && (forall q :: 0 <= q < |s.w.planLogs| && q != pl ==> s'.w.planLogs[q] == s.w.planLogs[q])
    && if s'.w.planLogs[pl].running then
         exists id :: Begins(s, s', id)
       else s'.queue == s.queue && s'.executing == s.executing
  }

  ghost predicate Begins(s: Machine, s': Machine, id: nat) {
    && |s.w.commandLogs| <= id < |s'.w.commandLogs| && s'.w.commandLogs[id].running
    && ((s'.queue == s.queue + {id} && s'.executing == s.executing)
        || (s'.queue == s.queue && s'.executing == s.executing + {id}))
  }

  lemma MovedFurther(s: Machine, s1: Machine, s2: Machine, pl: nat)
    requires Moved(s1, s2, pl) && pl < |s.w.planLogs| == |s1.w.planLogs| && s.w.commandLogs <= s1.w.commandLogs
    requires s1.waiting == s.waiting && s1.queue == s.queue && s1.executing == s.executing
    requires forall q :: 0 <= q < |s.w.planLogs| && q != pl ==> s1.w.planLogs[q] == s.w.planLogs[q]
    ensures Moved(s, s2, pl)
  {
    if s2.w.planLogs[pl].running {
      var id :| Begins(s1, s2, id);
      assert Begins(s, s2, id);
    }
  }

  lemma {:induction false} AdvanceMoves(e: Env, s: Machine, pl: nat, i: nat, custom: Values)
    requires Resolved(e) && OpenPlanLog(e, s.w.planLogs, pl) && i < |e.plans[s.w.planLogs[pl].plan].lines|
    ensures Moved(s, Advance(e, s, pl, i, custom), pl)
    decreases |e.plans[s.w.planLogs[pl].plan].lines| - i, 1
  {
    hide Moved;
    var line := e.plans[s.w.planLogs[pl].plan].lines[i];
    assert Runnable(e, line.command);
    var w1, id := SetLine(s.w, pl, i), |s.w.commandLogs|;
    if !LineExecutable(e, First(id), line, s.w.vars, custom) {
      var s1 := s.(w := RecordCommandLog(w1, line.command, pl, PLAN_LINE_CONDITION_CHECK_FAILED, true, map[]));
      ContinueMoves(e, s1, id);
      MovedFurther(s, s1, Continue(e, s1, id), pl);
    } else if Refusal(e, w1, line.command).Some? {
      var s1 := s.(w := RecordCommandLog(w1, line.command, pl, Refusal(e, w1, line.command).value, false, custom));
      ContinueMoves(e, s1, id);
      MovedFurther(s, s1, Continue(e, s1, id), pl);
    } else {
      StartedMoves(e, s, pl, i, custom, Advance(e, s, pl, i, custom));
    }
  }

  lemma StartedMoves(e: Env, s: Machine, pl: nat, i: nat, custom: Values, s': Machine)
    requires Resolved(e) && OpenPlanLog(e, s.w.planLogs, pl) && i < |e.plans[s.w.planLogs[pl].plan].lines|
    requires s'.w == StartCommandLog(SetLine(s.w, pl, i), e.plans[s.w.planLogs[pl].plan].lines[i].command, pl, custom)
    requires s' == if s.w.planLogs[pl].parent.None? then s.(w := s'.w, queue := s.queue + {|s.w.commandLogs|})
                   else s.(w := s'.w, executing := s.executing + {|s.w.commandLogs|})
    ensures Moved(s, s', pl)
  {
    assert Begins(s, s', |s.w.commandLogs|);
  }

  lemma {:induction false} ContinueMoves(e: Env, s: Machine, id: nat)
    requires Resolved(e) && id < |s.w.commandLogs| && AtLine(e, s.w.planLogs, s.w.commandLogs[id].planLog)
    ensures Moved(s, Continue(e, s, id), s.w.commandLogs[id].planLog)
    decreases LinesLeft(e, s.w.planLogs, s.w.commandLogs[id].planLog), 0
  {
    var pl := s.w.commandLogs[id].planLog;
    var w1, verdict := FinishedVerdict(e, s, id);
    if verdict == Proceed {
      var i := s.w.planLogs[pl].line.value + 1;
      AdvanceMoves(e, s.(w := w1), pl, i, s.w.commandLogs[id].custom);
      MovedFurther(s, s.(w := w1), Continue(e, s, id), pl);
    }
  }

  lemma OnlyReady(s: Machine, id: nat)
    requires Threaded(s) && Ready(s, id)
    ensures s.queue - {id} == {} && s.executing - {id} == {}
    ensures forall x :: x in s.waiting && x != id ==>
              s.waiting[x] < |s.w.planLogs| && s.w.planLogs[s.waiting[x]].running
  {
    assert forall x :: x in s.queue || x in s.executing ==> Ready(s, x);
    forall x | x in s.waiting && x != id
      ensures s.w.planLogs[s.waiting[x]].running
    {
      assert !Ready(s, x);
    }
  }

  // A command that was ready has its result, and its plan log has gone on.
  lemma MovedThreaded(s: Machine, s1: Machine, s': Machine, id: nat, pl: nat)
    requires Threaded(s) && Ready(s, id) && PendingOk(s) && pl < |s.w.planLogs|
    requires s1.queue == s.queue - {id} && s1.executing == s.executing - {id} && s1.waiting == s.waiting - {id}
    requires s1.w.planLogs == s.w.planLogs && |s1.w.commandLogs| == |s.w.commandLogs| && id < |s.w.commandLogs|
    requires forall j :: 0 <= j < |s.w.commandLogs| && j != id ==> s1.w.commandLogs[j] == s.w.commandLogs[j]
    requires Moved(s1, s', pl)
    ensures Threaded(s')
  {
    OnlyReady(s, id);
    if s'.w.planLogs[pl].running {
      var begun: nat :| Begins(s1, s', begun);
      assert s1.queue == {} && s1.executing == {};
      assert forall x :: x in s'.queue || x in s'.executing <==> x == begun;
      assert forall x :: Ready(s', x) ==> x == begun;
    } else {
      assert s'.queue == {} && s'.executing == {};
      assert forall x :: Ready(s', x) ==> x in s.waiting && s.waiting[x] == pl;
    }
  }

  lemma ResultThreaded(e: Env, s: Machine, id: nat, outcome: Outcome)
    requires Resolved(e) && Inv(e, s) && Threaded(s) && Enabled(e, s, CommandResult(id, outcome))
    ensures Threaded(Apply(e, s, CommandResult(id, outcome)))
  {
    hide Continue, InvBut, Moved;
    PendingLog(e, s, id);
    var s1, s2 := ResultTaken(e, s, id, outcome);
    ContinueMoves(e, s2, id);
    StillPending(e, s);
    MovedThreaded(s, s2, Continue(e, s2, id), id, s.w.commandLogs[id].planLog);
  }

  lemma StillPending(e: Env, s: Machine)
    requires Inv(e, s)
    ensures PendingOk(s)
  {
  }

  lemma CallEndThreaded(e: Env, s: Machine, id: nat)
    requires Resolved(e) && Inv(e, s) && Threaded(s) && Enabled(e, s, EndNested(id))
    ensures Threaded(Apply(e, s, EndNested(id)))
  {
    hide Continue, InvBut, Moved;
    PendingLog(e, s, id);
    var s2 := CallTaken(e, s, id);
    ContinueMoves(e, s2, id);
    StillPending(e, s);
    MovedThreaded(s, s2, Continue(e, s2, id), id, s.w.commandLogs[id].planLog);
  }

  // A run that was launched or called, up to its first pending command.
  lemma RunMoves(e: Env, s: Machine, plan: PlanId, parent: Option<nat>, custom: Values, prevent: bool)
    requires Resolved(e) && plan in e.plans
    ensures var s', n := RunSingle(e, s, plan, parent, custom, prevent), |s.w.planLogs|;
            && |s'.w.planLogs| == n + 1 && s.w.planLogs <= s'.w.planLogs && s.w.commandLogs <= s'.w.commandLogs
            && s'.waiting == s.waiting
            && if s'.w.planLogs[n].running then exists x :: Begins(s, s', x)
               else s'.queue == s.queue && s'.executing == s.executing
  {
    hide Begins, Advance;
    var w1 := StartPlanLog(s.w, plan, parent, custom);
    if (parent.Some? || e.plans[plan].compatible) && PlanAdmitted(e, s.w, plan, Context(prevent, false))
       && e.plans[plan].lines != [] {
      AdvanceMoves(e, s.(w := w1), |s.w.planLogs|, 0, custom);
      SameBegins(s, s.(w := w1), RunSingle(e, s, plan, parent, custom, prevent));
    }
  }

  lemma SameBegins(s: Machine, s1: Machine, s': Machine)
    requires s1 == s.(w := s1.w) && s1.w.commandLogs == s.w.commandLogs
    ensures forall x :: Begins(s1, s', x) <==> Begins(s, s', x)
  {
  }

  lemma CallThreaded(e: Env, s: Machine, id: nat, prevent: bool)
    requires Resolved(e) && Inv(e, s) && Threaded(s) && Enabled(e, s, StartNested(id, prevent))
    ensures Threaded(Apply(e, s, StartNested(id, prevent)))
  {
    hide InvBut, RunSingle;
    PendingLog(e, s, id);
    StillPending(e, s);
    var log := s.w.commandLogs[id];
    var s1 := s.(executing := s.executing - {id}, waiting := s.waiting[id := |s.w.planLogs|]);
    RunMoves(e, s1, e.commands[log.command].runner.plan, Some(log.planLog), log.custom, prevent);
    CalledThreaded(s, s1, Apply(e, s, StartNested(id, prevent)), id);
  }

  lemma CalledThreaded(s: Machine, s1: Machine, s': Machine, id: nat)
    requires Threaded(s) && PendingOk(s) && id in s.executing && |s'.w.planLogs| == |s.w.planLogs| + 1
    requires s1 == s.(executing := s.executing - {id}, waiting := s.waiting[id := |s.w.planLogs|])
    requires s.w.planLogs <= s'.w.planLogs && s.w.commandLogs <= s'.w.commandLogs && s'.waiting == s1.waiting
    requires if s'.w.planLogs[|s.w.planLogs|].running then exists x :: Begins(s1, s', x)
             else s'.queue == s1.queue && s'.executing == s1.executing
    ensures Threaded(s')
  {
    OnlyReady(s, id);
    if s'.w.planLogs[|s.w.planLogs|].running {
      var begun: nat :| Begins(s1, s', begun);
      assert s1.queue == {} && s1.executing == {};
      assert forall x :: x in s'.queue || x in s'.executing <==> x == begun;
      assert forall x :: Ready(s', x) ==> x == begun;
    } else {
      assert s'.queue == {} && s'.executing == {};
      assert forall x :: Ready(s', x) ==> x == id;
    }
  }

  lemma LaunchThreaded(e: Env, s: Machine, plan: PlanId, custom: Values)
    requires Resolved(e) && Inv(e, s) && plan in e.plans && s.Pending() == {}
    ensures Threaded(Apply(e, s, Launch(plan, custom)))
  {
    hide InvBut, RunSingle;
    RunMoves(e, s, plan, None, custom, false);
    assert s.queue == {} && s.executing == {} && s.waiting.Keys == {};
    var s' := Apply(e, s, Launch(plan, custom));
    if s'.w.planLogs[|s.w.planLogs|].running {
      var begun :| Begins(s, s', begun);
    }
  }

  lemma StepThreaded(e: Env, s: Machine, a: Action)
    requires Resolved(e) && Inv(e, s) && Threaded(s) && Enabled(e, s, a) && Undisturbed(e, s, a)
    ensures Threaded(Apply(e, s, a))
  {
    hide InvBut, Continue, RunSingle;
    match a
    case StartJob(id) => JobThreaded(e, s, id);
    case CommandResult(id, outcome) => ResultThreaded(e, s, id, outcome);
    case StartNested(id, prevent) => CallThreaded(e, s, id, prevent);
    case EndNested(id) => CallEndThreaded(e, s, id);
  }

  lemma JobThreaded(e: Env, s: Machine, id: nat)
    requires Resolved(e) && Inv(e, s) && Threaded(s) && Enabled(e, s, StartJob(id))
    ensures Threaded(Apply(e, s, StartJob(id)))
  {
    PendingLog(e, s, id);
    var s' := Apply(e, s, StartJob(id));
    forall x | Ready(s', x)
      ensures Ready(s, x)
    {
    }
  }

  // --- All runs ----------------------------------------------------------------------------------

  // Whose turn it is.
  function Subject(a: Action): nat {
    match a
    case StartJob(id) => id
    case CommandResult(id, _) => id
    case StartNested(id, _) => id
    case EndNested(id) => id
    case StopCommandLog(id) => id
    case _ => 0
  }

  lemma OneAction(e: Env, s: Machine, a: Action, b: Action)
    requires Resolved(e) && Inv(e, s) && Threaded(s)
    requires Enabled(e, s, a) && Undisturbed(e, s, a) && Enabled(e, s, b) && Undisturbed(e, s, b)
    ensures a == b
  {
    assert Ready(s, Subject(a)) && Ready(s, Subject(b));
    StillPending(e, s);
    PendingLog(e, s, Subject(a));
  }

  lemma PendingActs(e: Env, s: Machine, a: Action)
    requires Resolved(e) && Inv(e, s) && Enabled(e, s, a) && Undisturbed(e, s, a)
    ensures s.Pending() != {}
  {
    assert Subject(a) in s.Pending();
  }

  lemma {:induction false} OneRun(e: Env, s: Machine, actions: seq<Action>, s1: Machine, others: seq<Action>,
                                  s2: Machine)
    requires Resolved(e) && Inv(e, s) && Threaded(s)
    requires Plays(e, s, actions, s1) && Plays(e, s, others, s2) && s1.Pending() == {} == s2.Pending()
    ensures s1 == s2
    decreases |actions|
  {
    hide InvBut, Apply, Threaded, Enabled, Undisturbed;
    if actions == [] {
      if others != [] {
        PendingActs(e, s, others[0]);
      }
    } else if others == [] {
      PendingActs(e, s, actions[0]);
    } else {
      OneAction(e, s, actions[0], others[0]);
      StepThreaded(e, s, actions[0]);
      StepKeepsInv(e, s, actions[0]);
      OneRun(e, Apply(e, s, actions[0]), actions[1..], s1, others[1..], s2);
    }
  }

  /** Main result: beside whatever else is pending, a launched plan can be taken to its end, and then the logs, the
      variables and the order of log writes are those of the loop. */
  lemma LaunchedCanEnd(e: Env, s: Machine, plan: PlanId, custom: Values) returns (actions: seq<Action>, s': Machine)
    requires WellFormed(e) && Inv(e, s) && plan in e.plans && Tidy(s)
    ensures Inv(e, Apply(e, s, Launch(plan, custom))) && Plays(e, Apply(e, s, Launch(plan, custom)), actions, s')
    ensures s' == s.(w := PlanRun(e, s.w, plan, None, custom, NO_CONTEXT))
  {
    actions, s' := RunPlays(e, s, plan, None, custom, NO_CONTEXT);
  }

  /** Main result: launched when nothing else is pending and not disturbed, a plan that has left nothing pending has
      come to the world in which the loop ends. */
  lemma LaunchedEndsAsLoop(e: Env, s: Machine, plan: PlanId, custom: Values, actions: seq<Action>, s': Machine)
    requires WellFormed(e) && Inv(e, s) && plan in e.plans && s.Pending() == {}
    requires Inv(e, Apply(e, s, Launch(plan, custom)))
    requires Plays(e, Apply(e, s, Launch(plan, custom)), actions, s') && s'.Pending() == {}
    ensures s'.w == PlanRun(e, s.w, plan, None, custom, NO_CONTEXT)
  {
    hide InvBut, Plays, PlanRun, Apply, Threaded;
    assert s.waiting.Keys == {};
    var others, s2 := LaunchedCanEnd(e, s, plan, custom);
    LaunchThreaded(e, s, plan, custom);
    OneRun(e, Apply(e, s, Launch(plan, custom)), actions, s', others, s2);
  }
}
