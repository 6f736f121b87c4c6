/** The queue module's part of the engine, as methods on the stored logs: jobs that check for a stop
    before they run, results that a stopped log ignores, and the two ways to stop. */
module PlanQueue {
  import opened Basics
  import opened FlightPlan
  import opened PlanLoop
  import opened PlanMachine
  import opened PlanTrace

  // Finish the command, then stop its plan log, if that still runs.
  ghost function StopCommand(e: Env, s: Machine, id: nat): Machine
    requires Resolved(e) && id < |s.w.commandLogs|
    requires s.w.commandLogs[id].running ==> CanFollow(e, s.w.planLogs, s.w.commandLogs[id].planLog)
  {
    if !s.w.commandLogs[id].running then s
    else
      var s1 := FinishCommand(e, s, id, COMMAND_STOPPED, None);
      var pl := s.w.commandLogs[id].planLog;
      if pl < |s1.w.planLogs| then StopPlan(s1, pl) else s1
  }

  class QueuedTower {
    const e: Env
    var vars: Values
    var commandLogs: seq<CommandLog>
    var planLogs: seq<PlanLog>
    var history: seq<Event>
    var queue: set<nat>
    var executing: set<nat>
    var waiting: map<nat, nat>

    function M(): Machine
      reads this
    {
      Machine(World(vars, commandLogs, planLogs, history), queue, executing, waiting)
    }

    constructor (e: Env, vars: Values)
      ensures this.e == e && M() == Start(vars)
    {
      this.e, this.vars := e, vars;
      commandLogs, planLogs, history := [], [], [];
      queue, executing, waiting := {}, {}, map[];
    }

    // --- Going on to the next line ------------------------------------------------------------

    method RunOrSkipLine(pl: nat, i: nat, custom: Values)
      requires Resolved(e) && OpenPlanLog(e, planLogs, pl)
      requires i < |e.plans[planLogs[pl].plan].lines|
      requires InvBut(e, M(), Some(pl)) && Position(planLogs[pl]) == i
      modifies this
      ensures M() == Advance(e, old(M()), pl, i, custom) && Inv(e, M())
      decreases |e.plans[planLogs[pl].plan].lines| - i, 1
    {
      hide InvBut;
      ghost var s := M();
      AdvanceKeepsInv(e, s, pl, i, custom);
      var line := e.plans[planLogs[pl].plan].lines[i];
      assert Runnable(e, line.command);
      var executable := LineExecutable(e, First(|commandLogs|), line, vars, custom);
      planLogs := planLogs[pl := planLogs[pl].(line := Some(i))];
      var refusal := Refusal(e, M().w, line.command);
      var id := |commandLogs|;
      if !executable {
        commandLogs :=
          commandLogs + [CommandLog(line.command, pl, false, PLAN_LINE_CONDITION_CHECK_FAILED, true, map[])];
        history := history + [CommandRecorded(id)];
        RecordLine(e, s, pl, i, PLAN_LINE_CONDITION_CHECK_FAILED, true, map[]);
        PlanCommandFinished(id);
      } else if refusal.Some? {
        commandLogs := commandLogs + [CommandLog(line.command, pl, false, refusal.value, false, custom)];
        history := history + [CommandRecorded(id)];
        RecordLine(e, s, pl, i, refusal.value, false, custom);
        PlanCommandFinished(id);
      } else {
        commandLogs := commandLogs + [CommandLog(line.command, pl, true, 0, false, custom)];
        history := history + [CommandStarted(id)];
        if planLogs[pl].parent.None? {
          queue := queue + {id};
        } else {
          executing := executing + {id};
        }
      }
    }

    method PlanCommandFinished(id: nat)
      requires Resolved(e) && id < |commandLogs| && CanFollow(e, planLogs, commandLogs[id].planLog)
      requires !planLogs[commandLogs[id].planLog].stopped ==> InvBut(e, M(), Some(commandLogs[id].planLog))
      modifies this
      ensures M() == Continue(e, old(M()), id)
      ensures !old(planLogs[commandLogs[id].planLog].stopped) ==> Inv(e, M())
      decreases LinesAhead(e, planLogs, commandLogs[id].planLog), 0
    {
      var log := commandLogs[id];
      var pl := log.planLog;
      if planLogs[pl].stopped {
        return;
      }
      hide InvBut;
      ghost var s := M();
      ContinueKeepsInv(e, s, id);
      var plan := e.plans[planLogs[pl].plan];
      var i := planLogs[pl].line.value;
      var executable := LineExecutable(e, Again(id), plan.lines[i], vars, log.custom);
      planLogs := planLogs[pl := planLogs[pl].(custom := log.custom)];
      vars := VarsAfter(vars, plan.lines[i], log.status, executable);
      match Judge(plan, i, log.status, executable)
      case Proceed =>
        CustomKeepsInv(e, s, pl, M().w);
        RunOrSkipLine(pl, i + 1, log.custom);
      case Finish(status) =>
        planLogs := planLogs[pl := planLogs[pl].(running := false, status := status)];
        history := history + [PlanFinished(pl)];
    }

    // --- Results ------------------------------------------------------------------------------

    // A log that takes a result leaves its plan log between two lines, unless that was stopped.
    ghost predicate TakesResult(id: nat, status: int, custom: Values)
      requires id < |commandLogs|
      reads this
    {
      && CanFollow(e, planLogs, commandLogs[id].planLog)
      && (!planLogs[commandLogs[id].planLog].stopped ==>
            InvBut(e, M().(w := FinishCommandLog(M().w, id, status, custom)), Some(commandLogs[id].planLog)))
    }

    // The override of `finish`: a log that was stopped takes no result.
    method FinishLog(id: nat, status: int, custom: Option<Values>)
      requires Resolved(e) && id < |commandLogs|
      requires commandLogs[id].status != COMMAND_STOPPED ==>
                 TakesResult(id, status, if custom.Some? then custom.value else commandLogs[id].custom)
      modifies this
      ensures M() == FinishCommand(e, old(M()), id, status, custom)
    {
      if commandLogs[id].status == COMMAND_STOPPED {
        return;
      }
      var custom' := if custom.Some? then custom.value else commandLogs[id].custom;
      commandLogs := commandLogs[id := commandLogs[id].(running := false, status := status, custom := custom')];
      history := history + [CommandFinished(id)];
      PlanCommandFinished(id);
    }

    method CommandReturned(id: nat, outcome: Outcome)
      requires Resolved(e) && Inv(e, M()) && Enabled(e, M(), CommandResult(id, outcome))
      modifies this
      ensures M() == Apply(e, old(M()), CommandResult(id, outcome)) && Inv(e, M())
    {
      ghost var s := M();
      PendingLog(e, s, id);
      StepKeepsInv(e, s, CommandResult(id, outcome));
      var r := Effect(e, M().w, id, outcome);
      vars := r.vars;
      executing := executing - {id};
      ResultLeavesGap(e, s, M(), id, r.status, r.custom);
      FinishLog(id, r.status, r.custom);
    }

    // --- Plans --------------------------------------------------------------------------------

    method RunFlightPlan(plan: PlanId, custom: Values)
      requires Resolved(e) && Inv(e, M()) && plan in e.plans
      modifies this
      ensures M() == Apply(e, old(M()), Launch(plan, custom)) && Inv(e, M())
    {
      RunPlan(plan, None, custom, false);
    }

    method RunPlan(plan: PlanId, parent: Option<nat>, custom: Values, prevent: bool)
      requires Resolved(e) && Inv(e, M()) && plan in e.plans
      modifies this
      ensures M() == RunSingle(e, old(M()), plan, parent, custom, prevent) && Inv(e, M())
    {
      hide InvBut;
      ghost var s := M();
      RunSingleKeepsInv(e, s, plan, parent, custom, prevent);
      var pl := |planLogs|;
      if parent.None? && !e.plans[plan].compatible {
        planLogs := planLogs + [PlanLog(plan, parent, false, false, PLAN_NOT_COMPATIBLE_WITH_SERVER, None, map[])];
        history := history + [PlanRecorded(pl)];
      } else if (!e.plans[plan].allowParallelRun || prevent) && PlanRunning(M().w, plan) {
        planLogs := planLogs + [PlanLog(plan, parent, false, false, ANOTHER_PLAN_RUNNING, None, map[])];
        history := history + [PlanRecorded(pl)];
      } else {
        NewPlanLogKeepsInv(e, s, PlanLog(plan, parent, true, false, 0, None, custom),
                           StartPlanLog(s.w, plan, parent, custom));
        planLogs := planLogs + [PlanLog(plan, parent, true, false, 0, None, custom)];
        history := history + [PlanStarted(pl)];
        if e.plans[plan].lines == [] {
          planLogs := planLogs[pl := planLogs[pl].(running := false, status := PLAN_IS_EMPTY)];
          history := history + [PlanFinished(pl)];
        } else {
          RunOrSkipLine(pl, 0, custom);
        }
      }
    }

    // A command that runs a plan, up to the first pending command of that plan.
    method CallPlan(id: nat, prevent: bool)
      requires Resolved(e) && Inv(e, M()) && Enabled(e, M(), StartNested(id, prevent))
      modifies this
      ensures M() == Apply(e, old(M()), StartNested(id, prevent)) && Inv(e, M())
    {
      ghost var s := M();
      PendingLog(e, s, id);
      executing, waiting := executing - {id}, waiting[id := |planLogs|];
      MovedKeepsInv(e, s, M());
      var log := commandLogs[id];
      RunPlan(e.commands[log.command].runner.plan, Some(log.planLog), log.custom, prevent);
    }

    // The rest of it, when that plan has ended.
    method PlanReturned(id: nat)
      requires Resolved(e) && Inv(e, M()) && Enabled(e, M(), EndNested(id))
      modifies this
      ensures M() == Apply(e, old(M()), EndNested(id)) && Inv(e, M())
    {
      ghost var s := M();
      PendingLog(e, s, id);
      StepKeepsInv(e, s, EndNested(id));
      var nested := planLogs[waiting[id]];
      var status := if nested.status != 0 then nested.status else 0;
      waiting := waiting - {id};
      ResultLeavesGap(e, s, M(), id, status, Some(nested.custom));
      FinishLog(id, status, Some(nested.custom));
    }

    // --- Stopping -----------------------------------------------------------------------------

    method StopPlanRun(pl: nat)
      requires Resolved(e) && Inv(e, M()) && pl < |planLogs|
      modifies this
      ensures M() == Apply(e, old(M()), StopPlanLog(pl)) && Inv(e, M())
    {
      StepKeepsInv(e, M(), StopPlanLog(pl));
      RunningNotStopped(e, M(), pl);
      StopPlanOf(pl);
    }

    method StopPlanOf(pl: nat)
      requires Resolved(e) && pl < |planLogs|
      requires NoneStopped(pl)
      modifies this
      ensures M() == StopPlan(old(M()), pl)
      decreases if planLogs[pl].running then 1 else 0, 1
    {
      if !planLogs[pl].running {
        return;
      }
      planLogs := planLogs[pl := planLogs[pl].(running := false, status := PLAN_STOPPED, stopped := true)];
      history := history + [PlanFinished(pl)];
      ghost var w := M().w;
      assert M() == old(M()).(w := FinishPlanLog(old(M().w), pl, PLAN_STOPPED, true));
      for k := 0 to |commandLogs|
        invariant |commandLogs| == |w.commandLogs| && planLogs == w.planLogs
        invariant M() == old(M()).(w := M().w)
        invariant NoneStopped(pl)
        invariant StopCommandsOf(M().w, pl, k) == StopCommandsOf(w, pl, 0)
      {
        if commandLogs[k].planLog == pl && commandLogs[k].running {
          StopCommandOf(k);
        }
      }
    }

    // A running command of plan log `pl` has no final status yet.
    ghost predicate NoneStopped(pl: nat)
      reads this
    {
      forall j :: 0 <= j < |commandLogs| && commandLogs[j].planLog == pl && commandLogs[j].running ==>
        commandLogs[j].status != COMMAND_STOPPED
    }

    method StopCommandOf(id: nat)
      requires Resolved(e) && id < |commandLogs|
      requires commandLogs[id].running ==>
                 CanFollow(e, planLogs, commandLogs[id].planLog) && commandLogs[id].status != COMMAND_STOPPED
      requires commandLogs[id].running && planLogs[commandLogs[id].planLog].running ==>
                 Inv(e, M()) && planLogs[commandLogs[id].planLog].parent.None?
      modifies this
      ensures M() == StopCommand(e, old(M()), id)
      decreases if commandLogs[id].planLog < |planLogs| && planLogs[commandLogs[id].planLog].running then 1 else 0, 2
    {
      if !commandLogs[id].running {
        return;
      }
      var pl := commandLogs[id].planLog;
      if planLogs[pl].running {
        PendingLog(e, M(), id);
        assert CommandLogOk(e, M(), id, None);
        ResultLeavesGap(e, M(), M(), id, COMMAND_STOPPED, None);
        FinishKeepsInv(e, M(), M(), id, COMMAND_STOPPED, None);
        FinishSettles(e, M(), id, COMMAND_STOPPED, None);
      }
      FinishLog(id, COMMAND_STOPPED, None);
      if planLogs[pl].running {
        RunningNotStopped(e, M(), pl);
        StopPlanOf(pl);
      }
    }

    /** A user stops a command of a plan that no other plan called: two steps of the machine in a row. */
    method StopCommandRun(id: nat)
      requires Resolved(e) && Inv(e, M()) && id < |commandLogs|
      requires commandLogs[id].running ==>
                 commandLogs[id].planLog < |planLogs| && planLogs[commandLogs[id].planLog].parent.None?
      modifies this
      ensures Inv(e, M())
      ensures if old(commandLogs[id].running) then
                Run(e, old(M()), [StopCommandLog(id), StopPlanLog(old(commandLogs[id].planLog))], M())
              else M() == old(M())
    {
      if commandLogs[id].running {
        PendingLog(e, M(), id);
        TwoSteps(e, M(), id);
      }
      StopCommandOf(id);
    }

    /** A user stops a command of a nested plan: the lines after it run before the plan log is looked at, so the stop
        of the plan log is a later step, `StopPlanRun`. */
    method StopNestedCommand(id: nat)
      requires Resolved(e) && Inv(e, M()) && id < |commandLogs|
      modifies this
      ensures M() == Apply(e, old(M()), StopCommandLog(id)) && Inv(e, M())
    {
      if commandLogs[id].running {
        PendingLog(e, M(), id);
        StepKeepsInv(e, M(), StopCommandLog(id));
        assert CommandLogOk(e, M(), id, None);
        ResultLeavesGap(e, M(), M(), id, COMMAND_STOPPED, None);
        FinishLog(id, COMMAND_STOPPED, None);
      }
    }

    // --- Jobs ---------------------------------------------------------------------------------

    // The body of a queue job up to the start of its command.
    method QueueCommandRunnerWrapper(id: nat)
      requires Resolved(e) && Inv(e, M()) && id in queue
      modifies this
      ensures M() == Apply(e, old(M()), StartJob(id)) && Inv(e, M())
    {
      PendingLog(e, M(), id);
      StepKeepsInv(e, M(), StartJob(id));
      assert PlanLogOk(e, M().w, commandLogs[id].planLog, None) && CommandLogOk(e, M(), id, None);
      queue := queue - {id};
      if planLogs[commandLogs[id].planLog].stopped {
        StopCommandOf(id);
      } else {
        executing := executing + {id};
      }
    }
  }

  // A result for a running log leaves its plan log between two lines.
  lemma ResultLeavesGap(e: Env, s: Machine, s1: Machine, id: nat, status: int, custom: Option<Values>)
    requires Resolved(e) && Inv(e, s) && Released(s, s1, id) && id in s.Pending()
    requires id in s1.Pending() ==> status == COMMAND_STOPPED
    requires id < |s.w.commandLogs|
    ensures s.w.commandLogs[id].status != COMMAND_STOPPED ==>
              && AtLine(e, s.w.planLogs, s.w.commandLogs[id].planLog)
              && var custom' := if custom.Some? then custom.value else s.w.commandLogs[id].custom;
                 InvBut(e, s1.(w := FinishCommandLog(s1.w, id, status, custom')), Some(s.w.commandLogs[id].planLog))
  {
    PendingLog(e, s, id);
    if s.w.commandLogs[id].status != COMMAND_STOPPED {
      FinishOpensGap(e, s, s1, id, status, if custom.Some? then custom.value else s.w.commandLogs[id].custom);
    }
  }

  lemma TwoSteps(e: Env, s: Machine, id: nat)
    requires Resolved(e) && Inv(e, s) && id < |s.w.commandLogs| && s.w.commandLogs[id].running
    requires CanFollow(e, s.w.planLogs, s.w.commandLogs[id].planLog)
    ensures var pl := s.w.commandLogs[id].planLog;
            Run(e, s, [StopCommandLog(id), StopPlanLog(pl)], StopCommand(e, s, id)) && Inv(e, StopCommand(e, s, id))
  {
    var pl := s.w.commandLogs[id].planLog;
    var first, second := StopCommandLog(id), StopPlanLog(pl);
    StepKeepsInv(e, s, first);
    StepSettles(e, s, first);
    var s1 := Apply(e, s, first);
    assert Enabled(e, s1, second);
    StepKeepsInv(e, s1, second);
    assert [first, second][1..] == [second] && [second][1..] == [];
    assert Run(e, s1, [second], Apply(e, s1, second));
  }

  lemma RunningNotStopped(e: Env, s: Machine, pl: nat)
    requires Inv(e, s)
    ensures forall j :: 0 <= j < |s.w.commandLogs| && s.w.commandLogs[j].planLog == pl && s.w.commandLogs[j].running ==>
              s.w.commandLogs[j].status != COMMAND_STOPPED
  {
    forall j: nat | j < |s.w.commandLogs| && s.w.commandLogs[j].running
      ensures s.w.commandLogs[j].status != COMMAND_STOPPED
    {
      assert CommandLogOk(e, s, j, None);
    }
  }
}
