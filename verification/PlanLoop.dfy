/** The meaning of a flight plan run: a plain loop over the lines of the plan, with nested plans run
    inside the command that triggers them.  Nothing here calls back. */
module PlanLoop {
  import opened Basics
  import opened FlightPlan

  // --- Termination -------------------------------------------------------------------------

  ghost function RunningPlans(logs: seq<PlanLog>): set<PlanId> {
    set i | 0 <= i < |logs| && logs[i].running :: logs[i].plan
  }

  // The commands running, apart from log `id`, if any.
  ghost function RunningCommands(logs: seq<CommandLog>, id: Option<nat>): set<CommandId> {
    set i: nat | i < |logs| && logs[i].running && id != Some(i) :: logs[i].command
  }

  // How many plans and commands of the catalog are not running, apart from command log `id`.
  ghost function IdleBut(e: Env, w: World, id: Option<nat>): nat {
    |e.plans.Keys - RunningPlans(w.planLogs)| + |e.commands.Keys - RunningCommands(w.commandLogs, id)|
  }

  ghost function Idle(e: Env, w: World): nat {
    IdleBut(e, w, None)
  }

  // A run that no command started calls nested runs, and these never call it back.
  function Tier(parent: Option<nat>): nat {
    if parent.None? then 1 else 0
  }

  // Measure of starting `plan`; a refused start does nothing.
  ghost function StartBudget(e: Env, w: World, plan: PlanId, ctx: Context): int
    requires plan in e.plans
  {
    if PlanAdmitted(e, w, plan, ctx) then Idle(e, StartPlanLog(w, plan, None, map[])) else -1
  }

  /** The context in which a nested run comes to line `i`: the lines before it can be passed, and if the first line has
      been run, `prevent_plan_recursion` is set everywhere. */
  ghost predicate InCourse(e: Env, log: PlanLog, i: nat, ctx: Context)
    requires log.plan in e.plans
  {
    log.parent.Some? ==>
      Passable(e.plans[log.plan], i) && if i == 0 then ctx.server else Guarded(e.plans[log.plan], ctx)
  }

  // The same after line `i`, which need not be passed.
  ghost predicate PastLine(e: Env, log: PlanLog, i: nat, ctx: Context)
    requires log.plan in e.plans
  {
    log.parent.Some? ==> Passable(e.plans[log.plan], i) && Guarded(e.plans[log.plan], ctx)
  }

  ghost predicate Guarded(plan: Plan, ctx: Context) {
    plan.lines != [] && plan.lines[0].condition.None? ==> ctx == Context(true, true)
  }

  lemma StartingLeavesFewerIdle(e: Env, w: World, plan: PlanId, parent: Option<nat>, custom: Values, id: Option<nat>)
    requires plan in e.plans
    ensures var w' := StartPlanLog(w, plan, parent, custom);
            IdleBut(e, w', id) == IdleBut(e, StartPlanLog(w, plan, None, map[]), id) <= IdleBut(e, w, id)
    ensures !PlanRunning(w, plan) ==> IdleBut(e, StartPlanLog(w, plan, parent, custom), id) < IdleBut(e, w, id)
  {
    var w' := StartPlanLog(w, plan, parent, custom);
    RunningAfterStart(w, plan, parent, custom);
    RunningAfterStart(w, plan, None, map[]);
    SubsetSize(e.plans.Keys - RunningPlans(w'.planLogs), e.plans.Keys - RunningPlans(w.planLogs));
    if !PlanRunning(w, plan) {
      assert plan !in RunningPlans(w.planLogs);
      assert plan in e.plans.Keys - RunningPlans(w.planLogs);
      SubsetSize(e.plans.Keys - RunningPlans(w'.planLogs), e.plans.Keys - RunningPlans(w.planLogs) - {plan});
    }
  }

  lemma StartedBudget(e: Env, w: World, plan: PlanId, parent: Option<nat>, custom: Values, ctx: Context)
    requires plan in e.plans && PlanAdmitted(e, w, plan, ctx)
    ensures StartBudget(e, w, plan, ctx) == Idle(e, StartPlanLog(w, plan, parent, custom))
  {
    StartingLeavesFewerIdle(e, w, plan, parent, custom, None);
  }

  lemma StartedOpens(e: Env, w: World, plan: PlanId, parent: Option<nat>, custom: Values, ctx: Context)
    requires plan in e.plans && PlanAdmitted(e, w, plan, ctx) && (parent.Some? ==> ctx.server)
    ensures var w1 := StartPlanLog(w, plan, parent, custom);
            && OpenPlanLog(e, w1.planLogs, |w.planLogs|) && InCourse(e, w1.planLogs[|w.planLogs|], 0, ctx)
            && w1.planLogs[|w.planLogs|].plan == plan && w1.planLogs[|w.planLogs|].parent == parent
            && Idle(e, w1) == StartBudget(e, w, plan, ctx)
  {
    StartedBudget(e, w, plan, parent, custom, ctx);
  }

  lemma RunningAfterStart(w: World, plan: PlanId, parent: Option<nat>, custom: Values)
    ensures RunningPlans(StartPlanLog(w, plan, parent, custom).planLogs) == RunningPlans(w.planLogs) + {plan}
  {
    var w' := StartPlanLog(w, plan, parent, custom);
    forall x | x in RunningPlans(w.planLogs) + {plan}
      ensures x in RunningPlans(w'.planLogs)
    {
      if x in RunningPlans(w.planLogs) {
        var i :| 0 <= i < |w.planLogs| && w.planLogs[i].running && w.planLogs[i].plan == x;
        assert w'.planLogs[i] == w.planLogs[i];
      } else {
        assert w'.planLogs[|w.planLogs|].plan == x;
      }
    }
  }

  // A command that may run once only and was not running leaves fewer idle.
  lemma CommandLeavesFewerIdle(e: Env, w: World, id: nat)
    requires id < |w.commandLogs| && w.commandLogs[id].running && w.commandLogs[id].command in e.commands
    ensures Idle(e, w) <= IdleBut(e, w, Some(id))
    ensures w.commandLogs[id].command !in RunningCommands(w.commandLogs, Some(id)) ==>
              Idle(e, w) < IdleBut(e, w, Some(id))
  {
    var all, others := RunningCommands(w.commandLogs, None), RunningCommands(w.commandLogs, Some(id));
    var c := w.commandLogs[id].command;
    assert c in all && others <= all;
    SubsetSize(e.commands.Keys - all, e.commands.Keys - others);
    if c !in others {
      assert c in e.commands.Keys - others;
      SubsetSize(e.commands.Keys - all, e.commands.Keys - others - {c});
    }
  }

  /** Why nested runs end: a nested start is refused, or leaves fewer plans and commands idle, or goes down in rank. */
  lemma NestedStartDecreases(e: Env, w: World, id: nat, ctx: Context)
    requires WellFormed(e) && Executable(e, w, id, ctx)
    requires e.commands[w.commandLogs[id].command].runner.Nested?
    requires w.planLogs[w.commandLogs[id].planLog].parent.Some?
    ensures var q := e.commands[w.commandLogs[id].command].runner.plan;
            var budget := StartBudget(e, w, q, Context(ctx.plan, true));
            || budget < IdleBut(e, w, Some(id))
            || (budget == IdleBut(e, w, Some(id)) && Rank(e, q) < Rank(e, w.planLogs[w.commandLogs[id].planLog].plan))
  {
    var log := w.commandLogs[id];
    var p, i := w.planLogs[log.planLog].plan, w.planLogs[log.planLog].line.value;
    var q := e.commands[log.command].runner.plan;
    StartingLeavesFewerIdle(e, w, q, None, map[], None);
    CommandLeavesFewerIdle(e, w, id);
    if Unprotected(e, p, i) {
      RankFalls(e, p, i);
    }
  }

  /** `w` grew into `w'`: whatever was there is untouched, and nothing added is still running. */
  ghost predicate Extends(w: World, w': World) {
    && w.planLogs <= w'.planLogs
    && w.commandLogs <= w'.commandLogs
    && w.history <= w'.history
    && (forall j :: |w.planLogs| <= j < |w'.planLogs| ==> !w'.planLogs[j].running)
    && (forall j :: |w.commandLogs| <= j < |w'.commandLogs| ==> !w'.commandLogs[j].running)
  }

  /** As `Extends`, except for plan log `pl`, which keeps its plan and its parent. */
  ghost predicate ExtendsBut(w: World, w': World, pl: nat) {
    && pl < |w.planLogs| <= |w'.planLogs|
    && w'.planLogs[pl].plan == w.planLogs[pl].plan
    && w'.planLogs[pl].parent == w.planLogs[pl].parent
    && Extends(w.(planLogs := w.planLogs[pl := w'.planLogs[pl]]), w')
  }

  lemma ExtendsKeepsRunning(e: Env, w: World, w': World, id: Option<nat>)
    requires Extends(w, w') && (id.Some? ==> id.value < |w.commandLogs|)
    ensures RunningPlans(w'.planLogs) == RunningPlans(w.planLogs)
    ensures IdleBut(e, w', id) == IdleBut(e, w, id)
  {
    forall x | x in RunningPlans(w.planLogs)
      ensures x in RunningPlans(w'.planLogs)
    {
      var i :| 0 <= i < |w.planLogs| && w.planLogs[i].running && w.planLogs[i].plan == x;
      assert w'.planLogs[i] == w.planLogs[i];
    }
    forall x | x in RunningCommands(w.commandLogs, id)
      ensures x in RunningCommands(w'.commandLogs, id)
    {
      var i: nat :| i < |w.commandLogs| && w.commandLogs[i].running && id != Some(i) && w.commandLogs[i].command == x;
      assert w'.commandLogs[i] == w.commandLogs[i];
    }
    assert RunningPlans(w'.planLogs) == RunningPlans(w.planLogs);
    assert RunningCommands(w'.commandLogs, id) == RunningCommands(w.commandLogs, id);
  }

  lemma SamePlansRunning(e: Env, w: World, w': World)
    requires |w.planLogs| == |w'.planLogs| && w'.commandLogs == w.commandLogs
    requires forall j :: 0 <= j < |w.planLogs| ==>
               w.planLogs[j].running == w'.planLogs[j].running && w.planLogs[j].plan == w'.planLogs[j].plan
    ensures forall id :: IdleBut(e, w', id) == IdleBut(e, w, id)
  {
    assert RunningPlans(w'.planLogs) == RunningPlans(w.planLogs);
  }

  // A recorded log is not running.
  lemma RecordingKeepsRunning(e: Env, w: World, command: CommandId, pl: nat, status: int, skipped: bool, custom: Values)
    ensures Idle(e, RecordCommandLog(w, command, pl, status, skipped, custom)) == Idle(e, w)
  {
    var w' := RecordCommandLog(w, command, pl, status, skipped, custom);
    forall x | x in RunningCommands(w.commandLogs, None)
      ensures x in RunningCommands(w'.commandLogs, None)
    {
      var i: nat :| i < |w.commandLogs| && w.commandLogs[i].running && w.commandLogs[i].command == x;
      assert w'.commandLogs[i] == w.commandLogs[i];
    }
    assert RunningCommands(w'.commandLogs, None) == RunningCommands(w.commandLogs, None);
  }

  // A log that has just started aside, the same commands run.
  lemma StartingKeepsOthers(e: Env, w: World, command: CommandId, pl: nat, custom: Values)
    ensures IdleBut(e, StartCommandLog(w, command, pl, custom), Some(|w.commandLogs|)) == Idle(e, w)
    ensures RunningCommands(StartCommandLog(w, command, pl, custom).commandLogs, Some(|w.commandLogs|))
            == RunningCommands(w.commandLogs, None)
  {
    var w' := StartCommandLog(w, command, pl, custom);
    forall x | x in RunningCommands(w.commandLogs, None)
      ensures x in RunningCommands(w'.commandLogs, Some(|w.commandLogs|))
    {
      var i: nat :| i < |w.commandLogs| && w.commandLogs[i].running && w.commandLogs[i].command == x;
      assert w'.commandLogs[i] == w.commandLogs[i];
    }
    assert RunningCommands(w'.commandLogs, Some(|w.commandLogs|)) == RunningCommands(w.commandLogs, None);
  }

  // A log that has finished makes no difference any more.
  lemma FinishedIsIdle(e: Env, w: World, id: nat)
    requires id < |w.commandLogs| && !w.commandLogs[id].running
    ensures IdleBut(e, w, Some(id)) == Idle(e, w)
  {
    assert RunningCommands(w.commandLogs, Some(id)) == RunningCommands(w.commandLogs, None);
  }

  lemma ExtendsButTransitive(w0: World, w1: World, w2: World, pl: nat)
    requires ExtendsBut(w0, w1, pl) && ExtendsBut(w1, w2, pl)
    ensures ExtendsBut(w0, w2, pl)
  {
    assert w0.planLogs[pl := w2.planLogs[pl]] <= w2.planLogs by {
      forall j | 0 <= j < |w0.planLogs| && j != pl
        ensures w2.planLogs[j] == w0.planLogs[j]
      {
        assert w1.planLogs[pl := w2.planLogs[pl]][j] == w2.planLogs[j];
        assert w0.planLogs[pl := w1.planLogs[pl]][j] == w1.planLogs[j];
      }
    }
    forall j | |w0.planLogs| <= j < |w2.planLogs|
      ensures !w2.planLogs[j].running
    {
      if j < |w1.planLogs| {
        assert w1.planLogs[pl := w2.planLogs[pl]][j] == w2.planLogs[j];
      }
    }
  }

  // A command log was added to `w` and executed: together these steps only extend `w`.
  lemma ExecutionExtends(w: World, command: CommandId, pl: nat, custom: Values, w': World)
    requires pl < |w.planLogs|
    requires |w.commandLogs| < |w'.commandLogs| && !w'.commandLogs[|w.commandLogs|].running
    requires var w1 := StartCommandLog(w, command, pl, custom);
             Extends(w1.(commandLogs := w1.commandLogs[|w.commandLogs| := w'.commandLogs[|w.commandLogs|]]), w')
    ensures ExtendsBut(w, w', pl)
  {
    var id := |w.commandLogs|;
    var w1 := StartCommandLog(w, command, pl, custom);
    assert w.commandLogs <= w1.commandLogs[id := w'.commandLogs[id]];
  }

  lemma FinishedRunExtends(w: World, plan: PlanId, parent: Option<nat>, custom: Values, w': World)
    requires ExtendsBut(StartPlanLog(w, plan, parent, custom), w', |w.planLogs|)
    requires !w'.planLogs[|w.planLogs|].running
    ensures Extends(w, w')
    ensures w'.planLogs[|w.planLogs|].plan == plan && w'.planLogs[|w.planLogs|].parent == parent
  {
    var w1 := StartPlanLog(w, plan, parent, custom);
    assert w.planLogs <= w1.planLogs[|w.planLogs| := w'.planLogs[|w.planLogs|]];
  }

  // --- The loop ----------------------------------------------------------------------------

  ghost predicate OpenPlanLog(e: Env, logs: seq<PlanLog>, pl: nat) {
    && pl < |logs|
    && logs[pl].plan in e.plans
    && logs[pl].running
    && !logs[pl].stopped
  }

  // Plan log `pl` stands at one of the lines of its plan.
  ghost predicate AtLine(e: Env, logs: seq<PlanLog>, pl: nat) {
    && OpenPlanLog(e, logs, pl)
    && logs[pl].line.Some?
    && logs[pl].line.value < |e.plans[logs[pl].plan].lines|
  }

  ghost function LinesLeft(e: Env, logs: seq<PlanLog>, pl: nat): nat
    requires AtLine(e, logs, pl)
  {
    |e.plans[logs[pl].plan].lines| - logs[pl].line.value
  }

  // The command of the line that plan log `pl` stands at.
  ghost predicate AtCommand(e: Env, logs: seq<PlanLog>, pl: nat, command: CommandId) {
    AtLine(e, logs, pl) && e.plans[logs[pl].plan].lines[logs[pl].line.value].command == command
  }

  /** The command of log `id` can be executed.  If the plan was started by a command, it is one that may start. */
  ghost predicate Executable(e: Env, w: World, id: nat, ctx: Context)
    requires Resolved(e)
  {
    && id < |w.commandLogs| && w.commandLogs[id].running
    && AtCommand(e, w.planLogs, w.commandLogs[id].planLog, w.commandLogs[id].command)
    && (assert Runnable(e, w.commandLogs[id].command);
        var log := w.planLogs[w.commandLogs[id].planLog];
        && InCourse(e, log, log.line.value, ctx)
        && (log.parent.Some? ==> MayStart(e, w, id)))
  }

  ghost predicate MayStart(e: Env, w: World, id: nat)
    requires id < |w.commandLogs| && w.commandLogs[id].command in e.commands
  {
    && e.commands[w.commandLogs[id].command].compatible
    && (e.commands[w.commandLogs[id].command].allowParallelRun
        || w.commandLogs[id].command !in RunningCommands(w.commandLogs, Some(id)))
  }

  /** Command log `id` of the line its plan log stands at is over, and the next line would come in context `ctx`. */
  ghost predicate Executed(e: Env, w: World, id: nat, ctx: Context) {
    && id < |w.commandLogs| && AtLine(e, w.planLogs, w.commandLogs[id].planLog)
    && PastLine(e, w.planLogs[w.commandLogs[id].planLog], w.planLogs[w.commandLogs[id].planLog].line.value, ctx)
  }

  lemma PastAfterLine(e: Env, log: PlanLog, i: nat, ctx: Context)
    requires log.plan in e.plans && InCourse(e, log, i, ctx)
    ensures PastLine(e, log, i, Context(ctx.server, ctx.server))
  {
  }

  /** Run a plan: a run on the wrong server or beside another run is recorded as refused, an empty plan
      fails, any other plan runs from its first line.  The new plan log is the first one added. */
  ghost function PlanRun(e: Env, w: World, plan: PlanId, parent: Option<nat>, custom: Values, ctx: Context): (w': World)
    requires WellFormed(e) && plan in e.plans && (parent.Some? ==> ctx.server)
    ensures Extends(w, w')
    ensures |w.planLogs| < |w'.planLogs|
    ensures w'.planLogs[|w.planLogs|].plan == plan && w'.planLogs[|w.planLogs|].parent == parent
    decreases Tier(parent), StartBudget(e, w, plan, ctx), Rank(e, plan), |e.plans[plan].lines| + 1, 0
  {
    if parent.None? && !e.plans[plan].compatible then
      RecordPlanLog(w, plan, parent, PLAN_NOT_COMPATIBLE_WITH_SERVER)
    else if !PlanAdmitted(e, w, plan, ctx) then
      RecordPlanLog(w, plan, parent, ANOTHER_PLAN_RUNNING)
    else
      AdmittedPlanRun(e, w, plan, parent, custom, ctx)
  }

  ghost function AdmittedPlanRun(e: Env, w: World, plan: PlanId, parent: Option<nat>, custom: Values, ctx: Context)
    : (w': World)
    requires WellFormed(e) && plan in e.plans && PlanAdmitted(e, w, plan, ctx) && (parent.Some? ==> ctx.server)
    ensures Extends(w, w')
    ensures |w.planLogs| < |w'.planLogs|
    ensures w'.planLogs[|w.planLogs|].plan == plan && w'.planLogs[|w.planLogs|].parent == parent
    decreases Tier(parent), StartBudget(e, w, plan, ctx), Rank(e, plan), |e.plans[plan].lines| + 1, -1
  {
    var w1 := StartPlanLog(w, plan, parent, custom);
    StartedOpens(e, w, plan, parent, custom, ctx);
    var w' := if e.plans[plan].lines == [] then FinishPlanLog(w1, |w.planLogs|, PLAN_IS_EMPTY, false)
              else LineRun(e, w1, |w.planLogs|, 0, custom, ctx);
    FinishedRunExtends(w, plan, parent, custom, w');
    w'
  }

  /** Run line `i` of the plan of log `pl`, and all that follows. */
  ghost function LineRun(e: Env, w: World, pl: nat, i: nat, custom: Values, ctx: Context): (w': World)
    requires WellFormed(e) && OpenPlanLog(e, w.planLogs, pl)
    requires i < |e.plans[w.planLogs[pl].plan].lines| && InCourse(e, w.planLogs[pl], i, ctx)
    ensures ExtendsBut(w, w', pl) && !w'.planLogs[pl].running
    decreases Tier(w.planLogs[pl].parent), Idle(e, w), Rank(e, w.planLogs[pl].plan),
              |e.plans[w.planLogs[pl].plan].lines| - i, 4
  {
    var line := e.plans[w.planLogs[pl].plan].lines[i];
    if LineExecutable(e, First(|w.commandLogs|), line, w.vars, custom) then
      LineReached(e, w, pl, i, ctx);
      var w' := CommandRun(e, SetLine(w, pl, i), line.command, pl, custom, ctx);
      ExtendsButTransitive(w, SetLine(w, pl, i), w', pl);
      w'
    else
      SkippingExecutes(e, w, pl, i, custom, ctx);
      var w1 := Skipped(e, w, pl, i);
      var w' := After(e, w1, |w.commandLogs|, Context(ctx.plan, ctx.plan));
      ExtendsButTransitive(w, w1, w', pl);
      w'
  }

  ghost function Skipped(e: Env, w: World, pl: nat, i: nat): World
    requires OpenPlanLog(e, w.planLogs, pl) && i < |e.plans[w.planLogs[pl].plan].lines|
  {
    RecordCommandLog(SetLine(w, pl, i), e.plans[w.planLogs[pl].plan].lines[i].command, pl,
                     PLAN_LINE_CONDITION_CHECK_FAILED, true, map[])
  }

  lemma LineReached(e: Env, w: World, pl: nat, i: nat, ctx: Context)
    requires OpenPlanLog(e, w.planLogs, pl) && i < |e.plans[w.planLogs[pl].plan].lines|
    requires InCourse(e, w.planLogs[pl], i, ctx)
    ensures var w1 := SetLine(w, pl, i);
            && AtCommand(e, w1.planLogs, pl, e.plans[w.planLogs[pl].plan].lines[i].command)
            && InCourse(e, w1.planLogs[pl], w1.planLogs[pl].line.value, ctx)
            && ExtendsBut(w, w1, pl) && Idle(e, w1) == Idle(e, w)
  {
    SamePlansRunning(e, w, SetLine(w, pl, i));
  }

  // A line is skipped only if it has a condition, so skipping the first line leaves nothing to guard.
  lemma SkippingExecutes(e: Env, w: World, pl: nat, i: nat, custom: Values, ctx: Context)
    requires OpenPlanLog(e, w.planLogs, pl) && i < |e.plans[w.planLogs[pl].plan].lines|
    requires InCourse(e, w.planLogs[pl], i, ctx)
    requires !LineExecutable(e, First(|w.commandLogs|), e.plans[w.planLogs[pl].plan].lines[i], w.vars, custom)
    ensures Executed(e, Skipped(e, w, pl, i), |w.commandLogs|, Context(ctx.plan, ctx.plan))
    ensures ExtendsBut(w, Skipped(e, w, pl, i), pl) && Idle(e, Skipped(e, w, pl, i)) == Idle(e, w)
  {
    hide IdleBut, Passable;
    var w1 := SetLine(w, pl, i);
    SamePlansRunning(e, w, w1);
    RecordingKeepsRunning(e, w1, e.plans[w.planLogs[pl].plan].lines[i].command, pl, PLAN_LINE_CONDITION_CHECK_FAILED,
                          true, map[]);
  }

  /** Run the command of the line that plan log `pl` stands at, and all that follows. */
  ghost function CommandRun(e: Env, w: World, command: CommandId, pl: nat, custom: Values, ctx: Context): (w': World)
    requires WellFormed(e) && AtCommand(e, w.planLogs, pl, command)
    requires InCourse(e, w.planLogs[pl], w.planLogs[pl].line.value, ctx)
    ensures ExtendsBut(w, w', pl) && !w'.planLogs[pl].running
    decreases Tier(w.planLogs[pl].parent), Idle(e, w), Rank(e, w.planLogs[pl].plan), LinesLeft(e, w.planLogs, pl), 3
  {
    var w1 := CommandDone(e, w, command, pl, custom, ctx);
    var w' := After(e, w1, |w.commandLogs|, Context(ctx.server, ctx.server));
    ExtendsButTransitive(w, w1, w', pl);
    w'
  }

  /** Refuse the command, or start it and execute it to its end. */
  ghost function CommandDone(e: Env, w: World, command: CommandId, pl: nat, custom: Values, ctx: Context): (w': World)
    requires WellFormed(e) && AtCommand(e, w.planLogs, pl, command)
    requires InCourse(e, w.planLogs[pl], w.planLogs[pl].line.value, ctx)
    ensures ExtendsBut(w, w', pl) && w'.planLogs[pl] == w.planLogs[pl] && Idle(e, w') == Idle(e, w)
    ensures |w.commandLogs| < |w'.commandLogs| && w'.commandLogs[|w.commandLogs|].planLog == pl
    decreases Tier(w.planLogs[pl].parent), Idle(e, w), Rank(e, w.planLogs[pl].plan), LinesLeft(e, w.planLogs, pl), 2, 0
  {
    assert Runnable(e, command);
    match Refusal(e, w, command)
    case Some(code) =>
      RecordingKeepsRunning(e, w, command, pl, code, false, custom);
      RecordCommandLog(w, command, pl, code, false, custom)
    case None => AdmittedCommandDone(e, w, command, pl, custom, ctx)
  }

  ghost function AdmittedCommandDone(e: Env, w: World, command: CommandId, pl: nat, custom: Values, ctx: Context)
    : (w': World)
    requires WellFormed(e) && AtCommand(e, w.planLogs, pl, command)
    requires InCourse(e, w.planLogs[pl], w.planLogs[pl].line.value, ctx)
    requires Runnable(e, command) && Refusal(e, w, command).None?
    ensures ExtendsBut(w, w', pl) && w'.planLogs[pl] == w.planLogs[pl] && Idle(e, w') == Idle(e, w)
    ensures |w.commandLogs| < |w'.commandLogs| && w'.commandLogs[|w.commandLogs|].planLog == pl
    decreases Tier(w.planLogs[pl].parent), Idle(e, w), Rank(e, w.planLogs[pl].plan), LinesLeft(e, w.planLogs, pl), 2, -1
  {
    StartedIsExecutable(e, w, command, pl, custom, ctx);
    var w1 := StartCommandLog(w, command, pl, custom);
    var w' := Execute(e, w1, |w.commandLogs|, ctx);
    ExecutionKeepsRunning(e, w1, w', |w.commandLogs|);
    ExecutionExtends(w, command, pl, custom, w');
    w'
  }

  /** Execute the command of log `id`, which has just started, until that log is finished. */
  ghost function Execute(e: Env, w: World, id: nat, ctx: Context): (w': World)
    requires WellFormed(e) && Executable(e, w, id, ctx)
    ensures id < |w'.commandLogs| && Extends(w.(commandLogs := w.commandLogs[id := w'.commandLogs[id]]), w')
    ensures w'.commandLogs[id].command == w.commandLogs[id].command
    ensures w'.commandLogs[id].planLog == w.commandLogs[id].planLog
    ensures !w'.commandLogs[id].running
    decreases Tier(w.planLogs[w.commandLogs[id].planLog].parent), IdleBut(e, w, Some(id)),
              Rank(e, w.planLogs[w.commandLogs[id].planLog].plan),
              LinesLeft(e, w.planLogs, w.commandLogs[id].planLog), 1
  {
    var log := w.commandLogs[id];
    match e.commands[log.command].runner
    case External =>
      var r := e.oracle.outcome(id, log.command, w.vars, log.custom);
      FinishCommandLog(w.(vars := r.vars), id, r.status, if r.custom.Some? then r.custom.value else log.custom)
    case Missing =>
      FinishCommandLog(w, id, NO_COMMAND_RUNNER_FOUND, log.custom)
    case Nested(q) =>
      if w.planLogs[log.planLog].parent.Some? then
        NestedStartDecreases(e, w, id, ctx);
        NestedExecution(w, id, PlanRun(e, w, q, Some(log.planLog), log.custom, Context(ctx.plan, true)))
      else
        NestedExecution(w, id, PlanRun(e, w, q, Some(log.planLog), log.custom, Context(ctx.plan, true)))
  }

  // The command of log `id` takes over what the plan log it made has come to in `w1`.
  ghost function NestedExecution(w: World, id: nat, w1: World): World
    requires id < |w1.commandLogs| && |w.planLogs| < |w1.planLogs|
  {
    var nested := w1.planLogs[|w.planLogs|];
    FinishCommandLog(w1, id, nested.status, nested.custom)
  }

  /** Command log `id` is finished: hand its custom values to the plan log and apply the rule of the line. */
  ghost function After(e: Env, w: World, id: nat, ctx: Context): (w': World)
    requires WellFormed(e) && Executed(e, w, id, ctx)
    ensures ExtendsBut(w, w', w.commandLogs[id].planLog) && !w'.planLogs[w.commandLogs[id].planLog].running
    decreases Tier(w.planLogs[w.commandLogs[id].planLog].parent), Idle(e, w),
              Rank(e, w.planLogs[w.commandLogs[id].planLog].plan),
              LinesLeft(e, w.planLogs, w.commandLogs[id].planLog), 0
  {
    var log := w.commandLogs[id];
    var w1 := SetCustom(w, log.planLog, log.custom);
    SamePlansRunning(e, w, w1);
    Follow(e, w1, id, ctx)
  }

  /** The rule of the line that the plan log of `id` stands at, for the result of command log `id`. */
  ghost function Follow(e: Env, w: World, id: nat, ctx: Context): (w': World)
    requires WellFormed(e) && Executed(e, w, id, ctx)
    ensures ExtendsBut(w, w', w.commandLogs[id].planLog) && !w'.planLogs[w.commandLogs[id].planLog].running
    decreases Tier(w.planLogs[w.commandLogs[id].planLog].parent), Idle(e, w),
              Rank(e, w.planLogs[w.commandLogs[id].planLog].plan),
              LinesLeft(e, w.planLogs, w.commandLogs[id].planLog), -1
  {
    var pl := w.commandLogs[id].planLog;
    match LineVerdict(e, w, id)
    case Finish(code) => FinishPlanLog(Ruled(e, w, id), pl, code, false)
    case Proceed =>
      GoesOn(e, w, id, ctx);
      LineRun(e, Ruled(e, w, id), pl, w.planLogs[pl].line.value + 1, w.planLogs[pl].custom, ctx)
  }

  // What the rule of the line says for command log `id`.
  ghost function LineVerdict(e: Env, w: World, id: nat): Verdict
    requires id < |w.commandLogs| && AtLine(e, w.planLogs, w.commandLogs[id].planLog)
  {
    var log := w.planLogs[w.commandLogs[id].planLog];
    Judge(e.plans[log.plan], log.line.value, w.commandLogs[id].status, StillExecutable(e, w, id))
  }

  // What it writes.
  ghost function Ruled(e: Env, w: World, id: nat): World
    requires id < |w.commandLogs| && AtLine(e, w.planLogs, w.commandLogs[id].planLog)
  {
    var log := w.planLogs[w.commandLogs[id].planLog];
    w.(vars := VarsAfter(w.vars, e.plans[log.plan].lines[log.line.value], w.commandLogs[id].status,
                         StillExecutable(e, w, id)))
  }

  ghost predicate StillExecutable(e: Env, w: World, id: nat)
    requires id < |w.commandLogs| && AtLine(e, w.planLogs, w.commandLogs[id].planLog)
  {
    var log := w.planLogs[w.commandLogs[id].planLog];
    LineExecutable(e, Again(id), e.plans[log.plan].lines[log.line.value], w.vars, log.custom)
  }

  lemma GoesOn(e: Env, w: World, id: nat, ctx: Context)
    requires Executed(e, w, id, ctx) && LineVerdict(e, w, id) == Proceed
    ensures var log := w.planLogs[w.commandLogs[id].planLog];
            log.line.value + 1 < |e.plans[log.plan].lines| && InCourse(e, log, log.line.value + 1, ctx)
  {
    var log := w.planLogs[w.commandLogs[id].planLog];
    assert MayPass(e.plans[log.plan], log.line.value);
  }

  lemma ExecutionKeepsRunning(e: Env, w: World, w': World, id: nat)
    requires id < |w.commandLogs| && id < |w'.commandLogs|
    requires Extends(w.(commandLogs := w.commandLogs[id := w'.commandLogs[id]]), w')
    ensures IdleBut(e, w', Some(id)) == IdleBut(e, w, Some(id))
    ensures !w'.commandLogs[id].running ==> Idle(e, w') == IdleBut(e, w, Some(id))
  {
    hide Extends, RunningCommands, RunningPlans;
    ExtendsKeepsRunning(e, w.(commandLogs := w.commandLogs[id := w'.commandLogs[id]]), w', Some(id));
    OthersRunning(w.commandLogs, id, w'.commandLogs[id]);
    if !w'.commandLogs[id].running {
      FinishedIsIdle(e, w', id);
    }
  }

  lemma OthersRunning(logs: seq<CommandLog>, id: nat, log: CommandLog)
    requires id < |logs|
    ensures RunningCommands(logs[id := log], Some(id)) == RunningCommands(logs, Some(id))
  {
    forall x | x in RunningCommands(logs, Some(id))
      ensures x in RunningCommands(logs[id := log], Some(id))
    {
      var i: nat :| i < |logs| && logs[i].running && i != id && logs[i].command == x;
      assert logs[id := log][i] == logs[i];
    }
  }

  lemma FinishingKeepsOthers(e: Env, w: World, id: nat, status: int, custom: Values)
    requires id < |w.commandLogs|
    ensures Idle(e, FinishCommandLog(w, id, status, custom)) == IdleBut(e, w, Some(id))
  {
    OthersRunning(w.commandLogs, id, w.commandLogs[id].(running := false, status := status, custom := custom));
    FinishedIsIdle(e, FinishCommandLog(w, id, status, custom), id);
  }

  lemma StartedIsExecutable(e: Env, w: World, command: CommandId, pl: nat, custom: Values, ctx: Context)
    requires Resolved(e) && AtCommand(e, w.planLogs, pl, command)
    requires InCourse(e, w.planLogs[pl], w.planLogs[pl].line.value, ctx)
    requires Runnable(e, command) && Refusal(e, w, command).None?
    ensures Executable(e, StartCommandLog(w, command, pl, custom), |w.commandLogs|, ctx)
    ensures IdleBut(e, StartCommandLog(w, command, pl, custom), Some(|w.commandLogs|)) == Idle(e, w)
  {
    StartingKeepsOthers(e, w, command, pl, custom);
    if command in RunningCommands(w.commandLogs, None) {
      var i: nat :| i < |w.commandLogs| && w.commandLogs[i].running && w.commandLogs[i].command == command;
      assert CommandRunning(w, command);
    }
  }

  // What the loop does with the started command `id` and the lines after it.
  ghost function Completed(e: Env, w: World, id: nat, ctx: Context): World
    requires WellFormed(e) && Executable(e, w, id, ctx)
  {
    var w1 := Execute(e, w, id, ctx);
    assert w1.planLogs[w.commandLogs[id].planLog] == w.planLogs[w.commandLogs[id].planLog];
    After(e, w1, id, Context(ctx.server, ctx.server))
  }

  lemma CommandRunRefused(e: Env, w: World, command: CommandId, pl: nat, custom: Values, ctx: Context)
    requires WellFormed(e) && AtCommand(e, w.planLogs, pl, command)
    requires InCourse(e, w.planLogs[pl], w.planLogs[pl].line.value, ctx)
    requires Runnable(e, command) && Refusal(e, w, command).Some?
    ensures PastLine(e, w.planLogs[pl], w.planLogs[pl].line.value, Context(ctx.server, ctx.server))
    ensures var w1 := RecordCommandLog(w, command, pl, Refusal(e, w, command).value, false, custom);
            && Executed(e, w1, |w.commandLogs|, Context(ctx.server, ctx.server))
            && CommandRun(e, w, command, pl, custom, ctx)
                 == After(e, w1, |w.commandLogs|, Context(ctx.server, ctx.server))
  {
    hide IdleBut, WellFormed, Resolved, After, InCourse, PastLine;
    PastAfterLine(e, w.planLogs[pl], w.planLogs[pl].line.value, ctx);
  }

  lemma CommandRunStarts(e: Env, w: World, command: CommandId, pl: nat, custom: Values, ctx: Context)
    requires WellFormed(e) && AtCommand(e, w.planLogs, pl, command)
    requires InCourse(e, w.planLogs[pl], w.planLogs[pl].line.value, ctx)
    requires Runnable(e, command) && Refusal(e, w, command).None?
    ensures var w1 := StartCommandLog(w, command, pl, custom);
            && Executable(e, w1, |w.commandLogs|, ctx) && IdleBut(e, w1, Some(|w.commandLogs|)) == Idle(e, w)
            && CommandRun(e, w, command, pl, custom, ctx) == Completed(e, w1, |w.commandLogs|, ctx)
  {
    hide IdleBut, InCourse, PastLine;
    StartedIsExecutable(e, w, command, pl, custom, ctx);
    assert CommandDone(e, w, command, pl, custom, ctx) == AdmittedCommandDone(e, w, command, pl, custom, ctx);
  }
}
