/** Whether a run ends.  The loop is only defined where it ends, so here it is run to a bounded depth of calls, for
    any catalog; a run ends if some depth is enough. */
module PlanTermination {
  import opened Basics
  import opened FlightPlan
  import opened PlanLoop

  // --- The loop to a bounded depth ------------------------------------------------------------

  // `None` if more than `depth` calls would nest.
  ghost function RunIn(e: Env, w: World, plan: PlanId, parent: Option<nat>, custom: Values, ctx: Context, depth: nat)
    : (r: Option<World>)
    requires Resolved(e) && plan in e.plans
    ensures r.Some? ==> w.planLogs <= r.value.planLogs && |w.planLogs| < |r.value.planLogs|
    ensures r.Some? ==> w.commandLogs <= r.value.commandLogs
    decreases depth
  {
    if depth == 0 then None
    else if parent.None? && !e.plans[plan].compatible then
      Some(RecordPlanLog(w, plan, parent, PLAN_NOT_COMPATIBLE_WITH_SERVER))
    else if !PlanAdmitted(e, w, plan, ctx) then
      Some(RecordPlanLog(w, plan, parent, ANOTHER_PLAN_RUNNING))
    else
      var w1 := StartPlanLog(w, plan, parent, custom);
      if e.plans[plan].lines == [] then Some(FinishPlanLog(w1, |w.planLogs|, PLAN_IS_EMPTY, false))
      else LineIn(e, w1, |w.planLogs|, 0, custom, ctx, depth - 1)
  }

  // Whatever was there before stays, except for plan log `pl`.
  ghost predicate Keeps(w: World, w': World, pl: nat) {
    && |w.planLogs| <= |w'.planLogs|
    && (forall j :: 0 <= j < |w.planLogs| && j != pl ==> w'.planLogs[j] == w.planLogs[j])
    && w.commandLogs <= w'.commandLogs
  }

  ghost function LineIn(e: Env, w: World, pl: nat, i: nat, custom: Values, ctx: Context, depth: nat): (r: Option<World>)
    requires Resolved(e) && OpenPlanLog(e, w.planLogs, pl) && i < |e.plans[w.planLogs[pl].plan].lines|
    ensures r.Some? ==> Keeps(w, r.value, pl)
    decreases depth
  {
    var line := e.plans[w.planLogs[pl].plan].lines[i];
    if depth == 0 then None
    else if LineExecutable(e, First(|w.commandLogs|), line, w.vars, custom) then
      var w1 := CommandIn(e, SetLine(w, pl, i), line.command, pl, custom, ctx, depth - 1);
      if w1.None? then None
      else AfterIn(e, w1.value, |w.commandLogs|, Context(ctx.server, ctx.server), depth - 1)
    else
      AfterIn(e, Skipped(e, w, pl, i), |w.commandLogs|, Context(ctx.plan, ctx.plan), depth - 1)
  }

  ghost function CommandIn(e: Env, w: World, command: CommandId, pl: nat, custom: Values, ctx: Context, depth: nat)
    : (r: Option<World>)
    requires Resolved(e) && AtCommand(e, w.planLogs, pl, command)
    ensures r.Some? ==> w.planLogs <= r.value.planLogs && w.commandLogs <= r.value.commandLogs
    ensures r.Some? ==> |w.commandLogs| < |r.value.commandLogs| && r.value.commandLogs[|w.commandLogs|].planLog == pl
    decreases depth
  {
    assert Runnable(e, command);
    if depth == 0 then None
    else match Refusal(e, w, command)
      case Some(code) => Some(RecordCommandLog(w, command, pl, code, false, custom))
      case None => ExecuteIn(e, StartCommandLog(w, command, pl, custom), |w.commandLogs|, ctx, depth - 1)
  }

  ghost function ExecuteIn(e: Env, w: World, id: nat, ctx: Context, depth: nat): (r: Option<World>)
    requires Resolved(e) && id < |w.commandLogs| && Runnable(e, w.commandLogs[id].command)
    ensures r.Some? ==> w.planLogs <= r.value.planLogs && |w.commandLogs| <= |r.value.commandLogs|
    ensures r.Some? ==> r.value.commandLogs[id].planLog == w.commandLogs[id].planLog
    ensures r.Some? ==> forall j :: 0 <= j < |w.commandLogs| && j != id ==> r.value.commandLogs[j] == w.commandLogs[j]
    decreases depth
  {
    var log := w.commandLogs[id];
    if depth == 0 then None
    else match e.commands[log.command].runner
      case External =>
        var r := e.oracle.outcome(id, log.command, w.vars, log.custom);
        Some(FinishCommandLog(w.(vars := r.vars), id, r.status, if r.custom.Some? then r.custom.value else log.custom))
      case Missing => Some(FinishCommandLog(w, id, NO_COMMAND_RUNNER_FOUND, log.custom))
      case Nested(q) =>
        var w1 := RunIn(e, w, q, Some(log.planLog), log.custom, Context(ctx.plan, true), depth - 1);
        if w1.None? then None else Some(NestedExecution(w, id, w1.value))
  }

  ghost function AfterIn(e: Env, w: World, id: nat, ctx: Context, depth: nat): (r: Option<World>)
    requires Resolved(e) && id < |w.commandLogs| && AtLine(e, w.planLogs, w.commandLogs[id].planLog)
    ensures r.Some? ==> Keeps(w, r.value, w.commandLogs[id].planLog)
    decreases depth
  {
    var pl := w.commandLogs[id].planLog;
    var w1 := SetCustom(w, pl, w.commandLogs[id].custom);
    if depth == 0 then None
    else match LineVerdict(e, w1, id)
      case Finish(code) => Some(FinishPlanLog(Ruled(e, w1, id), pl, code, false))
      case Proceed => LineIn(e, Ruled(e, w1, id), pl, w.planLogs[pl].line.value + 1, w1.planLogs[pl].custom, ctx,
                             depth - 1)
  }

  /** A run that no command started ends. */
  ghost predicate Ends(e: Env, w: World, plan: PlanId, custom: Values)
    requires Resolved(e) && plan in e.plans
  {
    exists depth: nat :: RunIn(e, w, plan, None, custom, NO_CONTEXT, depth).Some?
  }

  // --- More depth changes nothing -------------------------------------------------------------

  lemma {:induction false} RunDeeper(e: Env, w: World, plan: PlanId, parent: Option<nat>, custom: Values, ctx: Context,
                                     depth: nat, deeper: nat)
    requires Resolved(e) && plan in e.plans && depth <= deeper
    requires RunIn(e, w, plan, parent, custom, ctx, depth).Some?
    ensures RunIn(e, w, plan, parent, custom, ctx, deeper) == RunIn(e, w, plan, parent, custom, ctx, depth)
    decreases depth
  {
    if (parent.Some? || e.plans[plan].compatible) && PlanAdmitted(e, w, plan, ctx) && e.plans[plan].lines != [] {
      LineDeeper(e, StartPlanLog(w, plan, parent, custom), |w.planLogs|, 0, custom, ctx, depth - 1, deeper - 1);
    }
  }

  lemma {:induction false} LineDeeper(e: Env, w: World, pl: nat, i: nat, custom: Values, ctx: Context,
                                      depth: nat, deeper: nat)
    requires Resolved(e) && OpenPlanLog(e, w.planLogs, pl) && i < |e.plans[w.planLogs[pl].plan].lines|
    requires depth <= deeper && LineIn(e, w, pl, i, custom, ctx, depth).Some?
    ensures LineIn(e, w, pl, i, custom, ctx, deeper) == LineIn(e, w, pl, i, custom, ctx, depth)
    decreases depth
  {
    hide CommandIn, AfterIn;
    var line := e.plans[w.planLogs[pl].plan].lines[i];
    if LineExecutable(e, First(|w.commandLogs|), line, w.vars, custom) {
      CommandDeeper(e, SetLine(w, pl, i), line.command, pl, custom, ctx, depth - 1, deeper - 1);
      var w1 := CommandIn(e, SetLine(w, pl, i), line.command, pl, custom, ctx, depth - 1).value;
      AfterDeeper(e, w1, |w.commandLogs|, Context(ctx.server, ctx.server), depth - 1, deeper - 1);
    } else {
      AfterDeeper(e, Skipped(e, w, pl, i), |w.commandLogs|, Context(ctx.plan, ctx.plan), depth - 1, deeper - 1);
    }
  }

  lemma {:induction false} CommandDeeper(e: Env, w: World, command: CommandId, pl: nat, custom: Values, ctx: Context,
                                         depth: nat, deeper: nat)
    requires Resolved(e) && AtCommand(e, w.planLogs, pl, command)
    requires depth <= deeper && CommandIn(e, w, command, pl, custom, ctx, depth).Some?
    ensures CommandIn(e, w, command, pl, custom, ctx, deeper) == CommandIn(e, w, command, pl, custom, ctx, depth)
    decreases depth
  {
    assert Runnable(e, command);
    if Refusal(e, w, command).None? {
      ExecuteDeeper(e, StartCommandLog(w, command, pl, custom), |w.commandLogs|, ctx, depth - 1, deeper - 1);
    }
  }

  lemma {:induction false} ExecuteDeeper(e: Env, w: World, id: nat, ctx: Context, depth: nat, deeper: nat)
    requires Resolved(e) && id < |w.commandLogs| && Runnable(e, w.commandLogs[id].command)
    requires depth <= deeper && ExecuteIn(e, w, id, ctx, depth).Some?
    ensures ExecuteIn(e, w, id, ctx, deeper) == ExecuteIn(e, w, id, ctx, depth)
    decreases depth
  {
    var log := w.commandLogs[id];
    if e.commands[log.command].runner.Nested? {
      RunDeeper(e, w, e.commands[log.command].runner.plan, Some(log.planLog), log.custom, Context(ctx.plan, true),
                depth - 1, deeper - 1);
    }
  }

  lemma {:induction false} AfterDeeper(e: Env, w: World, id: nat, ctx: Context, depth: nat, deeper: nat)
    requires Resolved(e) && id < |w.commandLogs| && AtLine(e, w.planLogs, w.commandLogs[id].planLog)
    requires depth <= deeper && AfterIn(e, w, id, ctx, depth).Some?
    ensures AfterIn(e, w, id, ctx, deeper) == AfterIn(e, w, id, ctx, depth)
    decreases depth
  {
    var pl := w.commandLogs[id].planLog;
    var w1 := SetCustom(w, pl, w.commandLogs[id].custom);
    if LineVerdict(e, w1, id) == Proceed {
      LineDeeper(e, Ruled(e, w1, id), pl, w.planLogs[pl].line.value + 1, w1.planLogs[pl].custom, ctx, depth - 1,
                 deeper - 1);
    }
  }

  // --- Where the loop is defined, some depth is enough -----------------------------------------

  lemma {:induction false} RunEnds(e: Env, w: World, plan: PlanId, parent: Option<nat>, custom: Values, ctx: Context)
    returns (depth: nat)
    requires WellFormed(e) && plan in e.plans && (parent.Some? ==> ctx.server)
    ensures RunIn(e, w, plan, parent, custom, ctx, depth) == Some(PlanRun(e, w, plan, parent, custom, ctx))
    decreases Tier(parent), StartBudget(e, w, plan, ctx), Rank(e, plan), |e.plans[plan].lines| + 1, 0
  {
    hide IdleBut, InCourse, LineRun, LineIn, PlanRunning;
    depth := 1;
    if (parent.Some? || e.plans[plan].compatible) && PlanAdmitted(e, w, plan, ctx) && e.plans[plan].lines != [] {
      StartedOpens(e, w, plan, parent, custom, ctx);
      var d := LineEnds(e, StartPlanLog(w, plan, parent, custom), |w.planLogs|, 0, custom, ctx);
      depth := d + 1;
    }
  }

  lemma {:induction false} LineEnds(e: Env, w: World, pl: nat, i: nat, custom: Values, ctx: Context)
    returns (depth: nat)
    requires WellFormed(e) && OpenPlanLog(e, w.planLogs, pl)
    requires i < |e.plans[w.planLogs[pl].plan].lines| && InCourse(e, w.planLogs[pl], i, ctx)
    ensures LineIn(e, w, pl, i, custom, ctx, depth) == Some(LineRun(e, w, pl, i, custom, ctx))
    decreases Tier(w.planLogs[pl].parent), Idle(e, w), Rank(e, w.planLogs[pl].plan),
              |e.plans[w.planLogs[pl].plan].lines| - i, 4
  {
    hide IdleBut, InCourse, PastLine, CommandRun, CommandIn, After, AfterIn;
    var line := e.plans[w.planLogs[pl].plan].lines[i];
    if LineExecutable(e, First(|w.commandLogs|), line, w.vars, custom) {
      depth := ExecutedLineEnds(e, w, pl, i, custom, ctx);
    } else {
      SkippingExecutes(e, w, pl, i, custom, ctx);
      var d := AfterEnds(e, Skipped(e, w, pl, i), |w.commandLogs|, Context(ctx.plan, ctx.plan));
      depth := d + 1;
    }
  }

  lemma {:induction false} ExecutedLineEnds(e: Env, w: World, pl: nat, i: nat, custom: Values, ctx: Context)
    returns (depth: nat)
    requires WellFormed(e) && OpenPlanLog(e, w.planLogs, pl)
    requires i < |e.plans[w.planLogs[pl].plan].lines| && InCourse(e, w.planLogs[pl], i, ctx)
    requires LineExecutable(e, First(|w.commandLogs|), e.plans[w.planLogs[pl].plan].lines[i], w.vars, custom)
    ensures LineIn(e, w, pl, i, custom, ctx, depth) == Some(LineRun(e, w, pl, i, custom, ctx))
    decreases Tier(w.planLogs[pl].parent), Idle(e, w), Rank(e, w.planLogs[pl].plan),
              |e.plans[w.planLogs[pl].plan].lines| - i, 3
  {
    hide IdleBut, InCourse, PastLine, CommandDone, CommandIn, After, AfterIn;
    LineReached(e, w, pl, i, ctx);
    var command := e.plans[w.planLogs[pl].plan].lines[i].command;
    var w1 := SetLine(w, pl, i);
    var after := Context(ctx.server, ctx.server);
    var w2 := CommandDone(e, w1, command, pl, custom, ctx);
    PastAfterLine(e, w1.planLogs[pl], i, ctx);
    var d1 := CommandEnds(e, w1, command, pl, custom, ctx);
    var d2 := AfterEnds(e, w2, |w.commandLogs|, after);
    var d := if d1 < d2 then d2 else d1;
    CommandDeeper(e, w1, command, pl, custom, ctx, d1, d);
    AfterDeeper(e, w2, |w.commandLogs|, after, d2, d);
    assert LineRun(e, w, pl, i, custom, ctx) == CommandRun(e, w1, command, pl, custom, ctx);
    depth := d + 1;
  }

  lemma {:induction false} CommandEnds(e: Env, w: World, command: CommandId, pl: nat, custom: Values, ctx: Context)
    returns (depth: nat)
    requires WellFormed(e) && AtCommand(e, w.planLogs, pl, command)
    requires InCourse(e, w.planLogs[pl], w.planLogs[pl].line.value, ctx)
    ensures CommandIn(e, w, command, pl, custom, ctx, depth) == Some(CommandDone(e, w, command, pl, custom, ctx))
    decreases Tier(w.planLogs[pl].parent), Idle(e, w), Rank(e, w.planLogs[pl].plan), LinesLeft(e, w.planLogs, pl), 2
  {
    hide IdleBut, InCourse, Execute, ExecuteIn;
    assert Runnable(e, command);
    depth := 1;
    if Refusal(e, w, command).None? {
      StartedIsExecutable(e, w, command, pl, custom, ctx);
      var d := ExecuteEnds(e, StartCommandLog(w, command, pl, custom), |w.commandLogs|, ctx);
      depth := d + 1;
      assert CommandDone(e, w, command, pl, custom, ctx) == AdmittedCommandDone(e, w, command, pl, custom, ctx);
    }
  }

  lemma {:induction false} ExecuteEnds(e: Env, w: World, id: nat, ctx: Context) returns (depth: nat)
    requires WellFormed(e) && Executable(e, w, id, ctx)
    ensures ExecuteIn(e, w, id, ctx, depth) == Some(Execute(e, w, id, ctx))
    decreases Tier(w.planLogs[w.commandLogs[id].planLog].parent), IdleBut(e, w, Some(id)),
              Rank(e, w.planLogs[w.commandLogs[id].planLog].plan),
              LinesLeft(e, w.planLogs, w.commandLogs[id].planLog), 1
  {
    hide IdleBut, InCourse, PlanRun, RunIn;
    var log := w.commandLogs[id];
    depth := 1;
    if e.commands[log.command].runner.Nested? {
      if w.planLogs[log.planLog].parent.Some? {
        NestedStartDecreases(e, w, id, ctx);
      }
      var q := e.commands[log.command].runner.plan;
      var d := RunEnds(e, w, q, Some(log.planLog), log.custom, Context(ctx.plan, true));
      depth := d + 1;
    }
  }

  lemma {:induction false} AfterEnds(e: Env, w: World, id: nat, ctx: Context) returns (depth: nat)
    requires WellFormed(e) && Executed(e, w, id, ctx)
    ensures AfterIn(e, w, id, ctx, depth) == Some(After(e, w, id, ctx))
    decreases Tier(w.planLogs[w.commandLogs[id].planLog].parent), Idle(e, w),
              Rank(e, w.planLogs[w.commandLogs[id].planLog].plan),
              LinesLeft(e, w.planLogs, w.commandLogs[id].planLog), 0
  {
    hide IdleBut, InCourse, LineRun, LineIn, Judge;
    var pl := w.commandLogs[id].planLog;
    var w1 := SetCustom(w, pl, w.commandLogs[id].custom);
    SamePlansRunning(e, w, w1);
    depth := 1;
    if LineVerdict(e, w1, id) == Proceed {
      GoesOn(e, w1, id, ctx);
      SamePlansRunning(e, w1, Ruled(e, w1, id));
      var d := LineEnds(e, Ruled(e, w1, id), pl, w.planLogs[pl].line.value + 1, w1.planLogs[pl].custom, ctx);
      depth := d + 1;
    }
    assert After(e, w, id, ctx) == Follow(e, w1, id, ctx);
  }

  /** Main result: if unprotected calls form no cycle, every run ends, and in the world that the loop says. */
  lemma WellFormedEnds(e: Env, w: World, plan: PlanId, custom: Values)
    requires WellFormed(e) && plan in e.plans
    ensures Ends(e, w, plan, custom)
    ensures forall depth: nat :: RunIn(e, w, plan, None, custom, NO_CONTEXT, depth).Some? ==>
              RunIn(e, w, plan, None, custom, NO_CONTEXT, depth) == Some(PlanRun(e, w, plan, None, custom, NO_CONTEXT))
  {
    var enough := RunEnds(e, w, plan, None, custom, NO_CONTEXT);
    forall depth: nat | RunIn(e, w, plan, None, custom, NO_CONTEXT, depth).Some?
      ensures RunIn(e, w, plan, None, custom, NO_CONTEXT, depth) == Some(PlanRun(e, w, plan, None, custom, NO_CONTEXT))
    {
      if depth <= enough {
        RunDeeper(e, w, plan, None, custom, NO_CONTEXT, depth, enough);
      } else {
        RunDeeper(e, w, plan, None, custom, NO_CONTEXT, enough, depth);
      }
    }
  }
}
