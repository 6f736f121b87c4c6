/** The flight plan engine as it runs: no loop over the lines, only a chain of callbacks from a
    finished command to the next line.  With the queue, the commands of a plan that no other plan
    called become jobs, and the chain stops at each of them.

    Every method is proved against the loop of `PlanLoop`: what has been done, plus what is left in
    the queue, is what the loop does. */
module PlanEngine {
  import opened Basics
  import opened FlightPlan
  import opened PlanLoop
  import opened PlanVerdict

  // A queued command is known by its log.
  type Job = nat

  // The job can be run: its log belongs to a plan log that waits for it.
  ghost predicate JobReady(e: Env, w: World, job: Job)
    requires Resolved(e)
  {
    && Executable(e, w, job, NO_CONTEXT)
    && w.commandLogs[job].status != COMMAND_STOPPED
    && w.planLogs[w.commandLogs[job].planLog].parent.None?
  }

  // What the loop makes of a world in which `job` is about to run.
  ghost function Resume(e: Env, w: World, job: Job): World
    requires WellFormed(e) && JobReady(e, w, job)
  {
    Completed(e, w, job, NO_CONTEXT)
  }

  function Finished(w: World, id: nat, status: int, custom: Option<Values>): World
    requires id < |w.commandLogs|
  {
    FinishCommandLog(w, id, status, if custom.Some? then custom.value else w.commandLogs[id].custom)
  }

  lemma FinishedIsExecuted(e: Env, w: World, id: nat, status: int, custom: Option<Values>, ctx: Context)
    requires Executed(e, w, id, ctx)
    ensures Executed(e, Finished(w, id, status, custom), id, ctx)
    ensures Idle(e, Finished(w, id, status, custom)) == IdleBut(e, w, Some(id))
  {
    FinishingKeepsOthers(e, w, id, status, if custom.Some? then custom.value else w.commandLogs[id].custom);
  }

  /** World `w` with jobs `jobs` is on the way to `target`: it is there and no job was added to `before`, or the last
      thing done was to add one of plan log `pl`, and running it leads there, with at most `left` lines to go. */
  ghost predicate Reaches(e: Env, pl: nat, w: World, before: seq<Job>, jobs: seq<Job>, target: World, left: int)
    requires WellFormed(e)
  {
    || (jobs == before && w == target)
    || (&& |jobs| == |before| + 1
        && before <= jobs
        && JobReady(e, w, jobs[|before|]) && w.commandLogs[jobs[|before|]].planLog == pl
        && EndsWith(w, CommandStarted(jobs[|before|]))
        && LinesLeft(e, w.planLogs, pl) <= left
        && Resume(e, w, jobs[|before|]) == target)
  }

  // The action, the exit code and the next line, when an action is known or the defaults apply.
  function NextActionState(plan: Plan, action: Option<ActionKind>, exitCode: int, i: nat)
    : (ActionKind, int, Option<nat>)
    requires i < |plan.lines|
  {
    var isLastLine := i == |plan.lines| - 1;
    var (kind, code) :=
      if action.Some? then (action.value, exitCode)
      else if exitCode == 0 then (Next, exitCode)
      else (plan.onError, if plan.onError == ExitCustom then plan.customExitCode else exitCode);
    var next := if kind == Next && !isLastLine then Some(i + 1) else None;
    (if isLastLine then Exit else kind, code, next)
  }

  /** After command log `id` the plan goes on or ends, and the variables are written, as the exit code says. */
  ghost predicate RuleObeyed(e: Env, w: World, id: nat, vars: Values, action: ActionKind, exitCode: int)
    requires id < |w.commandLogs| && AtLine(e, w.planLogs, w.commandLogs[id].planLog)
  {
    var log, code := w.planLogs[w.commandLogs[id].planLog], w.commandLogs[id].status;
    var plan, i := e.plans[log.plan], log.line.value;
    var executable := StillHolds(e, plan.lines[i], id, w.vars, log.custom);
    && WritesValues(plan.lines[i], code, executable, w.vars, vars)
    && if action == Next then Passes(plan, i, code, executable)
       else EndsRun(plan, i, code, executable, Reported(exitCode))
  }

  class Tower {
    const e: Env
    const queued: bool
    var vars: Values
    var commandLogs: seq<CommandLog>
    var planLogs: seq<PlanLog>
    var history: seq<Event>
    var jobs: seq<Job>

    constructor (e: Env, queued: bool, vars: Values)
      ensures this.e == e && this.queued == queued
      ensures W() == World(vars, [], [], []) && jobs == []
    {
      this.e, this.queued, this.vars := e, queued, vars;
      commandLogs, planLogs, history, jobs := [], [], [], [];
    }

    function W(): World
      reads this
    {
      World(vars, commandLogs, planLogs, history)
    }

    // Commands of plan log `pl` run at once instead of becoming jobs.
    ghost predicate Inline(pl: nat)
      requires pl < |planLogs|
      reads this
    {
      !queued || planLogs[pl].parent.Some?
    }

    ghost predicate OnTrack(pl: nat, before: seq<Job>, target: World, left: int, inline: bool)
      requires WellFormed(e)
      reads this
    {
      && Reaches(e, pl, W(), before, jobs, target, left)
      && (inline ==> jobs == before)
    }

    // --- Plan logs --------------------------------------------------------------------------

    method RunSingle(plan: PlanId, parent: Option<nat>, custom: Values, ctx: Context) returns (pl: nat)
      requires WellFormed(e) && plan in e.plans
      requires if parent.None? then ctx == NO_CONTEXT else ctx.server
      modifies this
      ensures pl == |old(planLogs)|
      ensures OnTrack(pl, old(jobs), PlanRun(e, old(W()), plan, parent, custom, ctx), |e.plans[plan].lines|,
                      !queued || parent.Some?)
      ensures pl < |planLogs|
      decreases Tier(parent), StartBudget(e, W(), plan, ctx), Rank(e, plan), |e.plans[plan].lines| + 1, 2
    {
      if parent.None? && !e.plans[plan].compatible {
        pl := RecordPlan(plan, parent, PLAN_NOT_COMPATIBLE_WITH_SERVER);
        return;
      }
      if (!e.plans[plan].allowParallelRun || ctx.plan) && PlanRunning(W(), plan) {
        pl := RecordPlan(plan, parent, ANOTHER_PLAN_RUNNING);
        return;
      }
      pl := StartPlan(plan, parent, custom, ctx);
    }

    method StartPlan(plan: PlanId, parent: Option<nat>, custom: Values, ctx: Context) returns (pl: nat)
      requires WellFormed(e) && plan in e.plans && PlanAdmitted(e, W(), plan, ctx)
      requires if parent.None? then ctx == NO_CONTEXT && e.plans[plan].compatible else ctx.server
      modifies this
      ensures pl == |old(planLogs)|
      ensures OnTrack(pl, old(jobs), PlanRun(e, old(W()), plan, parent, custom, ctx), |e.plans[plan].lines|,
                      !queued || parent.Some?)
      ensures pl < |planLogs|
      decreases Tier(parent), StartBudget(e, W(), plan, ctx), Rank(e, plan), |e.plans[plan].lines| + 1, 1
    {
      hide IdleBut, WellFormed, LineRun, InCourse;
      StartedOpens(e, W(), plan, parent, custom, ctx);
      pl := |planLogs|;
      planLogs := planLogs + [PlanLog(plan, parent, true, false, 0, None, custom)];
      history := history + [PlanStarted(pl)];
      if e.plans[plan].lines == [] {
        FinishPlan(pl, PLAN_IS_EMPTY);
      } else {
        RunOrSkipLine(pl, 0, custom, ctx);
      }
    }

    method RecordPlan(plan: PlanId, parent: Option<nat>, status: int) returns (pl: nat)
      modifies this
      ensures pl == |old(planLogs)| < |planLogs|
      ensures W() == RecordPlanLog(old(W()), plan, parent, status) && jobs == old(jobs)
    {
      pl := |planLogs|;
      planLogs := planLogs + [PlanLog(plan, parent, false, false, status, None, map[])];
      history := history + [PlanRecorded(pl)];
    }

    method FinishPlan(pl: nat, status: int)
      requires pl < |planLogs|
      modifies this
      ensures W() == FinishPlanLog(old(W()), pl, status, false) && jobs == old(jobs)
    {
      planLogs := planLogs[pl := planLogs[pl].(running := false, status := status)];
      history := history + [PlanFinished(pl)];
    }

    // --- Lines ------------------------------------------------------------------------------

    method RunOrSkipLine(pl: nat, i: nat, custom: Values, ctx: Context)
      requires WellFormed(e) && OpenPlanLog(e, planLogs, pl)
      requires planLogs[pl].parent.None? ==> ctx == NO_CONTEXT
      requires i < |e.plans[planLogs[pl].plan].lines| && InCourse(e, planLogs[pl], i, ctx)
      modifies this
      ensures OnTrack(pl, old(jobs), LineRun(e, old(W()), pl, i, custom, ctx),
                      |e.plans[old(planLogs[pl].plan)].lines| - i, old(Inline(pl)))
      ensures |old(planLogs)| <= |planLogs|
      decreases Tier(planLogs[pl].parent), Idle(e, W()), Rank(e, planLogs[pl].plan),
                |e.plans[planLogs[pl].plan].lines| - i, 11
    {
      if LineExecutable(e, First(|commandLogs|), e.plans[planLogs[pl].plan].lines[i], vars, custom) {
        RunLine(pl, i, custom, ctx);
      } else {
        SkipLine(pl, i, custom, ctx);
      }
    }

    method RunLine(pl: nat, i: nat, custom: Values, ctx: Context)
      requires WellFormed(e) && OpenPlanLog(e, planLogs, pl)
      requires planLogs[pl].parent.None? ==> ctx == NO_CONTEXT
      requires i < |e.plans[planLogs[pl].plan].lines| && InCourse(e, planLogs[pl], i, ctx)
      requires LineExecutable(e, First(|commandLogs|), e.plans[planLogs[pl].plan].lines[i], vars, custom)
      modifies this
      ensures OnTrack(pl, old(jobs), LineRun(e, old(W()), pl, i, custom, ctx),
                      |e.plans[old(planLogs[pl].plan)].lines| - i, old(Inline(pl)))
      ensures |old(planLogs)| <= |planLogs|
      decreases Tier(planLogs[pl].parent), Idle(e, W()), Rank(e, planLogs[pl].plan),
                |e.plans[planLogs[pl].plan].lines| - i, 10
    {
      var line := e.plans[planLogs[pl].plan].lines[i];
      LineReached(e, W(), pl, i, ctx);
      planLogs := planLogs[pl := planLogs[pl].(line := Some(i))];
      RunCommand(line.command, pl, custom, ctx);
    }

    method SkipLine(pl: nat, i: nat, ghost custom: Values, ctx: Context)
      requires WellFormed(e) && OpenPlanLog(e, planLogs, pl)
      requires planLogs[pl].parent.None? ==> ctx == NO_CONTEXT
      requires i < |e.plans[planLogs[pl].plan].lines| && InCourse(e, planLogs[pl], i, ctx)
      requires !LineExecutable(e, First(|commandLogs|), e.plans[planLogs[pl].plan].lines[i], vars, custom)
      modifies this
      ensures OnTrack(pl, old(jobs), LineRun(e, old(W()), pl, i, custom, ctx),
                      |e.plans[old(planLogs[pl].plan)].lines| - i, old(Inline(pl)))
      ensures |old(planLogs)| <= |planLogs|
      decreases Tier(planLogs[pl].parent), Idle(e, W()), Rank(e, planLogs[pl].plan),
                |e.plans[planLogs[pl].plan].lines| - i, 10
    {
      var line := e.plans[planLogs[pl].plan].lines[i];
      LineReached(e, W(), pl, i, ctx);
      SkippingExecutes(e, W(), pl, i, custom, ctx);
      planLogs := planLogs[pl := planLogs[pl].(line := Some(i))];
      RecordCommand(line.command, pl, PLAN_LINE_CONDITION_CHECK_FAILED, true, map[], ctx.plan);
    }

    // --- Commands ---------------------------------------------------------------------------

    method RunCommand(command: CommandId, pl: nat, custom: Values, ctx: Context)
      requires WellFormed(e) && AtCommand(e, planLogs, pl, command)
      requires InCourse(e, planLogs[pl], planLogs[pl].line.value, ctx)
      requires planLogs[pl].parent.None? ==> ctx == NO_CONTEXT
      modifies this
      ensures OnTrack(pl, old(jobs), CommandRun(e, old(W()), command, pl, custom, ctx),
                      old(LinesLeft(e, planLogs, pl)), old(Inline(pl)))
      ensures |old(planLogs)| <= |planLogs|
      decreases Tier(planLogs[pl].parent), Idle(e, W()), Rank(e, planLogs[pl].plan), LinesLeft(e, planLogs, pl), 9
    {
      assert Runnable(e, command);
      var refusal := Refusal(e, W(), command);
      if refusal.Some? {
        CommandRunRefused(e, W(), command, pl, custom, ctx);
        RecordCommand(command, pl, refusal.value, false, custom, ctx.server);
        return;
      }
      CommandRunStarts(e, W(), command, pl, custom, ctx);
      StartCommand(command, pl, custom, ctx);
    }

    method StartCommand(command: CommandId, pl: nat, custom: Values, ctx: Context)
      requires WellFormed(e) && pl < |planLogs|
      requires var w := StartCommandLog(W(), command, pl, custom);
               && Executable(e, w, |commandLogs|, ctx) && (planLogs[pl].parent.None? ==> ctx == NO_CONTEXT)
      modifies this
      ensures OnTrack(pl, old(jobs),
                      Completed(e, old(StartCommandLog(W(), command, pl, custom)), old(|commandLogs|), ctx),
                      old(LinesLeft(e, planLogs, pl)), old(Inline(pl)))
      ensures |old(planLogs)| <= |planLogs|
      decreases Tier(planLogs[pl].parent), IdleBut(e, StartCommandLog(W(), command, pl, custom), Some(|commandLogs|)),
                Rank(e, planLogs[pl].plan), LinesLeft(e, planLogs, pl), 8
    {
      hide IdleBut, WellFormed, InCourse;
      var id := |commandLogs|;
      commandLogs := commandLogs + [CommandLog(command, pl, true, 0, false, custom)];
      history := history + [CommandStarted(id)];
      CommandRunnerWrapper(id, ctx);
    }

    // The queue's override: jobs for the commands of plans that no other plan called.
    method CommandRunnerWrapper(id: nat, ctx: Context)
      requires WellFormed(e) && ReadyToRun(id, ctx)
      requires EndsWith(W(), CommandStarted(id))
      modifies this
      ensures OnTrack(old(commandLogs[id].planLog), old(jobs), Completed(e, old(W()), id, ctx),
                      old(LinesLeft(e, planLogs, commandLogs[id].planLog)), old(Inline(commandLogs[id].planLog)))
      ensures |old(planLogs)| <= |planLogs|
      decreases Tier(planLogs[commandLogs[id].planLog].parent), IdleBut(e, W(), Some(id)),
                Rank(e, planLogs[commandLogs[id].planLog].plan), LinesLeft(e, planLogs, commandLogs[id].planLog), 7
    {
      if queued && planLogs[commandLogs[id].planLog].parent.None? {
        jobs := jobs + [id];
      } else {
        CommandRunner(id, ctx);
      }
    }

    ghost predicate ReadyToRun(id: nat, ctx: Context)
      requires Resolved(e)
      reads this
    {
      && Executable(e, W(), id, ctx)
      && commandLogs[id].status != COMMAND_STOPPED
      && (planLogs[commandLogs[id].planLog].parent.None? ==> ctx == NO_CONTEXT)
    }

    method CommandRunner(id: nat, ctx: Context)
      requires WellFormed(e) && ReadyToRun(id, ctx)
      modifies this
      ensures OnTrack(old(commandLogs[id].planLog), old(jobs), Completed(e, old(W()), id, ctx),
                      old(LinesLeft(e, planLogs, commandLogs[id].planLog)) - 1, old(Inline(commandLogs[id].planLog)))
      ensures |old(planLogs)| <= |planLogs|
      decreases Tier(planLogs[commandLogs[id].planLog].parent), IdleBut(e, W(), Some(id)),
                Rank(e, planLogs[commandLogs[id].planLog].plan), LinesLeft(e, planLogs, commandLogs[id].planLog), 6
    {
      hide IdleBut, After, InCourse, PastLine;
      var command := commandLogs[id].command;
      PastAfterLine(e, planLogs[commandLogs[id].planLog], planLogs[commandLogs[id].planLog].line.value, ctx);
      match e.commands[command].runner
      case External =>
        var r := e.oracle.outcome(id, command, vars, commandLogs[id].custom);
        vars := r.vars;
        SamePlansRunning(e, old(W()), W());
        FinishCommand(id, r.status, r.custom, ctx.server);
      case Missing =>
        FinishCommand(id, NO_COMMAND_RUNNER_FOUND, None, ctx.server);
      case Nested(q) =>
        CommandRunnerFlightPlan(id, q, ctx);
    }

    method CommandRunnerFlightPlan(id: nat, plan: PlanId, ctx: Context)
      requires WellFormed(e) && ReadyToRun(id, ctx)
      requires e.commands[commandLogs[id].command].runner == Nested(plan)
      modifies this
      ensures OnTrack(old(commandLogs[id].planLog), old(jobs), Completed(e, old(W()), id, ctx),
                      old(LinesLeft(e, planLogs, commandLogs[id].planLog)) - 1, old(Inline(commandLogs[id].planLog)))
      ensures |old(planLogs)| <= |planLogs|
      decreases Tier(planLogs[commandLogs[id].planLog].parent), IdleBut(e, W(), Some(id)),
                Rank(e, planLogs[commandLogs[id].planLog].plan), LinesLeft(e, planLogs, commandLogs[id].planLog), 5
    {
      hide IdleBut, InCourse, After, PlanRun;
      ghost var w := W();
      if planLogs[commandLogs[id].planLog].parent.Some? {
        NestedStartDecreases(e, w, id, ctx);
      }
      var pl := RunSingle(plan, Some(commandLogs[id].planLog), commandLogs[id].custom, Context(ctx.plan, true));
      assert commandLogs[id] == w.commandLogs[id];
      assert planLogs[commandLogs[id].planLog] == w.planLogs[commandLogs[id].planLog];
      ExtendsKeepsRunning(e, w, W(), Some(id));
      PastAfterLine(e, planLogs[commandLogs[id].planLog], planLogs[commandLogs[id].planLog].line.value, ctx);
      var status := if planLogs[pl].status != 0 then planLogs[pl].status else 0;
      FinishCommand(id, status, Some(planLogs[pl].custom), ctx.server);
    }

    // With the queue, a log that was stopped takes no further result.
    method FinishCommand(id: nat, status: int, custom: Option<Values>, server: bool)
      requires WellFormed(e) && Executed(e, W(), id, Context(server, server))
      requires commandLogs[id].running && commandLogs[id].status != COMMAND_STOPPED
      requires planLogs[commandLogs[id].planLog].parent.None? ==> !server
      modifies this
      ensures OnTrack(old(commandLogs[id].planLog), old(jobs),
                      After(e, Finished(old(W()), id, status, custom), id, Context(server, server)),
                      old(LinesLeft(e, planLogs, commandLogs[id].planLog)) - 1, old(Inline(commandLogs[id].planLog)))
      ensures |old(planLogs)| <= |planLogs|
      decreases Tier(planLogs[commandLogs[id].planLog].parent), IdleBut(e, W(), Some(id)),
                Rank(e, planLogs[commandLogs[id].planLog].plan), LinesLeft(e, planLogs, commandLogs[id].planLog), 4
    {
      if queued && commandLogs[id].status == COMMAND_STOPPED {
        return;
      }
      FinishedIsExecuted(e, W(), id, status, custom, Context(server, server));
      WriteResult(id, status, custom);
      PlanCommandFinished(id, server);
    }

    method WriteResult(id: nat, status: int, custom: Option<Values>)
      requires id < |commandLogs|
      modifies this
      ensures W() == Finished(old(W()), id, status, custom) && jobs == old(jobs)
    {
      var custom' := if custom.Some? then custom.value else commandLogs[id].custom;
      commandLogs := commandLogs[id := commandLogs[id].(running := false, status := status, custom := custom')];
      history := history + [CommandFinished(id)];
    }

    method RecordCommand(command: CommandId, pl: nat, status: int, skipped: bool, custom: Values, server: bool)
      requires WellFormed(e) && AtCommand(e, planLogs, pl, command)
      requires PastLine(e, planLogs[pl], planLogs[pl].line.value, Context(server, server))
      requires planLogs[pl].parent.None? ==> !server
      modifies this
      ensures OnTrack(pl, old(jobs),
                      After(e, RecordCommandLog(old(W()), command, pl, status, skipped, custom),
                            |old(commandLogs)|, Context(server, server)),
                      old(LinesLeft(e, planLogs, pl)) - 1, old(Inline(pl)))
      ensures |old(planLogs)| <= |planLogs|
      decreases Tier(planLogs[pl].parent), Idle(e, W()), Rank(e, planLogs[pl].plan), LinesLeft(e, planLogs, pl), 4
    {
      hide IdleBut, WellFormed, PastLine, After;
      RecordingKeepsRunning(e, W(), command, pl, status, skipped, custom);
      var id := |commandLogs|;
      commandLogs := commandLogs + [CommandLog(command, pl, false, status, skipped, custom)];
      history := history + [CommandRecorded(id)];
      PlanCommandFinished(id, server);
    }

    // --- Callbacks --------------------------------------------------------------------------

    method PlanCommandFinished(id: nat, server: bool)
      requires WellFormed(e) && Executed(e, W(), id, Context(server, server))
      requires planLogs[commandLogs[id].planLog].parent.None? ==> !server
      modifies this
      ensures OnTrack(old(commandLogs[id].planLog), old(jobs), After(e, old(W()), id, Context(server, server)),
                      old(LinesLeft(e, planLogs, commandLogs[id].planLog)) - 1, old(Inline(commandLogs[id].planLog)))
      ensures |old(planLogs)| <= |planLogs|
      decreases Tier(planLogs[commandLogs[id].planLog].parent), Idle(e, W()),
                Rank(e, planLogs[commandLogs[id].planLog].plan), LinesLeft(e, planLogs, commandLogs[id].planLog), 3
    {
      var pl := commandLogs[id].planLog;
      if planLogs[pl].stopped {
        return;
      }
      SamePlansRunning(e, W(), SetCustom(W(), pl, commandLogs[id].custom));
      planLogs := planLogs[pl := planLogs[pl].(custom := commandLogs[id].custom)];
      RunNextAction(id, server);
    }

    method RunNextAction(id: nat, server: bool)
      requires WellFormed(e) && Executed(e, W(), id, Context(server, server))
      requires planLogs[commandLogs[id].planLog].parent.None? ==> !server
      requires planLogs[commandLogs[id].planLog].custom == commandLogs[id].custom
      modifies this
      ensures OnTrack(old(commandLogs[id].planLog), old(jobs), Follow(e, old(W()), id, Context(server, server)),
                      old(LinesLeft(e, planLogs, commandLogs[id].planLog)) - 1, old(Inline(commandLogs[id].planLog)))
      ensures |old(planLogs)| <= |planLogs|
      decreases Tier(planLogs[commandLogs[id].planLog].parent), Idle(e, W()),
                Rank(e, planLogs[commandLogs[id].planLog].plan), LinesLeft(e, planLogs, commandLogs[id].planLog), 2
    {
      var pl := commandLogs[id].planLog;
      hide RuleObeyed, IdleBut, LineRun, Resume;
      ghost var target := Follow(e, W(), id, Context(server, server));
      var custom := if commandLogs[id].custom != map[] then commandLogs[id].custom else planLogs[pl].custom;
      var action, exitCode, next := NextActionValues(id, Context(server, server));
      if exitCode == PLAN_LINE_CONDITION_CHECK_FAILED {
        exitCode := 0;
      }
      if action == Next && next.Some? {
        assert target == LineRun(e, W(), pl, next.value, custom, Context(server, server));
        RunOrSkipLine(pl, next.value, custom, Context(server, server));
      } else if action == Exit || action == ExitCustom {
        assert target == FinishPlanLog(W(), pl, exitCode, false);
        FinishPlan(pl, exitCode);
      }
    }

    method NextActionValues(id: nat, ghost ctx: Context) returns (action: ActionKind, exitCode: int, next: Option<nat>)
      requires WellFormed(e) && Executed(e, W(), id, ctx)
      requires planLogs[commandLogs[id].planLog].custom == commandLogs[id].custom
      modifies this`vars
      ensures var pl := commandLogs[id].planLog;
              var target := Follow(e, old(W()), id, ctx);
              if action == Next then
                && next == Some(planLogs[pl].line.value + 1) && next.value < |e.plans[planLogs[pl].plan].lines|
                && InCourse(e, planLogs[pl], next.value, ctx)
                && target == LineRun(e, W(), pl, next.value, planLogs[pl].custom, ctx)
              else target == FinishPlanLog(W(), pl, Reported(exitCode), false)
      ensures RuleObeyed(e, old(W()), id, vars, action, exitCode)
    {
      hide IdleBut, WellFormed, LineRun, WritesValues, Passes, EndsRun;
      var log := commandLogs[id];
      var plan := e.plans[planLogs[log.planLog].plan];
      var i := planLogs[log.planLog].line.value;
      RuleTold(plan, i, log.status, StillExecutable(e, W(), id), vars);
      exitCode := log.status;
      var custom := if log.custom != map[] then log.custom else planLogs[log.planLog].custom;
      if !LineExecutable(e, Again(id), plan.lines[i], vars, custom) {
        var state := NextActionState(plan, Some(Next), PLAN_LINE_CONDITION_CHECK_FAILED, i);
        return state.0, state.1, state.2;
      }
      var actions := plan.lines[i].actions;
      for k := 0 to |actions|
        invariant FirstMatch(actions, exitCode) == FirstMatch(actions[k..], exitCode)
        invariant vars == old(vars) && exitCode == log.status
      {
        assert actions[k..][1..] == actions[k + 1..];
        if actions[k].Matches(exitCode) {
          if actions[k].kind == ExitCustom && actions[k].customExitCode != 0 {
            exitCode := actions[k].customExitCode;
          }
          var values := actions[k].variableValues;
          for j := 0 to |values|
            invariant Assign(old(vars), values) == Assign(vars, values[j..])
          {
            assert values[j..][1..] == values[j + 1..];
            vars := vars[values[j].0 := values[j].1];
          }
          var state := NextActionState(plan, Some(actions[k].kind), exitCode, i);
          return state.0, state.1, state.2;
        }
      }
      var state := NextActionState(plan, None, exitCode, i);
      return state.0, state.1, state.2;
    }

    // --- Jobs -------------------------------------------------------------------------------

    // The body of a queue job; `PlanQueue` adds the check for a stopped plan log.
    method RunJob(job: Job)
      requires WellFormed(e) && queued && JobReady(e, W(), job)
      modifies this
      ensures OnTrack(old(commandLogs[job].planLog), old(jobs), Resume(e, old(W()), job),
                      old(LinesLeft(e, planLogs, commandLogs[job].planLog)) - 1, false)
    {
      CommandRunner(job, NO_CONTEXT);
    }

    /** Run the jobs of the queue, one at a time, until it is empty. */
    method Drain()
      requires WellFormed(e) && |jobs| <= 1 && (jobs != [] ==> queued && JobReady(e, W(), jobs[0]))
      modifies this
      ensures jobs == []
      ensures W() == if old(jobs) == [] then old(W()) else Resume(e, old(W()), old(jobs)[0])
    {
      ghost var target := if jobs == [] then W() else Resume(e, W(), jobs[0]);
      while jobs != []
        invariant |jobs| <= 1 && (jobs != [] ==> queued && JobReady(e, W(), jobs[0]))
        invariant target == if jobs == [] then W() else Resume(e, W(), jobs[0])
        decreases if jobs == [] then 0 else LinesLeft(e, planLogs, commandLogs[jobs[0]].planLog)
      {
        var job := jobs[0];
        jobs := [];
        RunJob(job);
      }
    }

    /** Main result: run a plan to the end, with or without the queue, and the logs, the server variables and
        the order of all log writes are those of the loop.  If no line runs a plan, the logs tell the run line by
        line. */
    method RunFlightPlan(plan: PlanId, custom: Values) returns (pl: nat)
      requires WellFormed(e) && plan in e.plans && jobs == []
      modifies this
      ensures pl == |old(planLogs)| && jobs == []
      ensures W() == PlanRun(e, old(W()), plan, None, custom, NO_CONTEXT)
      ensures Flat(e, e.plans[plan]) ==> RunTold(e, old(W()), W(), plan, None, custom, false)
    {
      hide RunTold;
      ghost var w := W();
      pl := RunSingle(plan, None, custom, NO_CONTEXT);
      Drain();
      if Flat(e, e.plans[plan]) {
        FlatRunTold(e, w, plan, None, custom, NO_CONTEXT);
      }
    }
  }
}
