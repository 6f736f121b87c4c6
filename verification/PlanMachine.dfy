/** Flight plans under the queue as a state machine.  Jobs start, commands end, nested plans start and
    end, and users stop plans and commands, in any order. */
module PlanMachine {
  import opened Basics
  import opened FlightPlan
  import opened PlanLoop
  import opened PlanTrace

  /** `queue`: command logs whose job has not started.  `executing`: logs whose command is being executed.
      `waiting`: logs whose command waits for the plan log it made. */
  datatype Machine = Machine(w: World, queue: set<nat>, executing: set<nat>, waiting: map<nat, nat>) {
    ghost function Pending(): set<nat> { queue + executing + waiting.Keys }
  }

  datatype Action =
    | Launch(plan: PlanId, custom: Values)
    | StartJob(id: nat)
    | CommandResult(id: nat, outcome: Outcome)
    | StartNested(id: nat, prevent: bool)
    | EndNested(id: nat)
    | StopPlanLog(pl: nat)
    | StopCommandLog(id: nat)

  // --- Steps -------------------------------------------------------------------------------

  /** Go to line `i` of the plan of log `pl`: skipped and refused lines are recorded and passed, until a
      command starts or the plan log finishes.  Commands of plans that no other plan called are queued. */
  ghost function Advance(e: Env, s: Machine, pl: nat, i: nat, custom: Values): Machine
    requires Resolved(e) && OpenPlanLog(e, s.w.planLogs, pl)
    requires i < |e.plans[s.w.planLogs[pl].plan].lines|
    decreases |e.plans[s.w.planLogs[pl].plan].lines| - i, 1
  {
    var line := e.plans[s.w.planLogs[pl].plan].lines[i];
    assert Runnable(e, line.command);
    var w1 := SetLine(s.w, pl, i);
    var id := |s.w.commandLogs|;
    if !LineExecutable(e, First(|s.w.commandLogs|), line, s.w.vars, custom) then
      Continue(e, s.(w := RecordCommandLog(w1, line.command, pl, PLAN_LINE_CONDITION_CHECK_FAILED, true, map[])), id)
    else match Refusal(e, w1, line.command)
      case Some(code) =>
        Continue(e, s.(w := RecordCommandLog(w1, line.command, pl, code, false, custom)), id)
      case None =>
        var w2 := StartCommandLog(w1, line.command, pl, custom);
        if s.w.planLogs[pl].parent.None? then s.(w := w2, queue := s.queue + {id})
        else s.(w := w2, executing := s.executing + {id})
  }

  /** Command log `id` is finished: its plan log goes on, unless it was stopped. */
  ghost function Continue(e: Env, s: Machine, id: nat): Machine
    requires Resolved(e) && id < |s.w.commandLogs|
    requires CanFollow(e, s.w.planLogs, s.w.commandLogs[id].planLog)
    decreases LinesAhead(e, s.w.planLogs, s.w.commandLogs[id].planLog), 0
  {
    var log := s.w.commandLogs[id];
    var pl := log.planLog;
    if s.w.planLogs[pl].stopped then s
    else
      var plan := e.plans[s.w.planLogs[pl].plan];
      var i := s.w.planLogs[pl].line.value;
      var executable := LineExecutable(e, Again(id), plan.lines[i], s.w.vars, log.custom);
      var w1 := SetCustom(s.w, pl, log.custom).(vars := VarsAfter(s.w.vars, plan.lines[i], log.status, executable));
      match Judge(plan, i, log.status, executable)
      case Finish(code) => s.(w := FinishPlanLog(w1, pl, code, false))
      case Proceed => Advance(e, s.(w := w1), pl, i + 1, log.custom)
  }

  ghost predicate CanFollow(e: Env, logs: seq<PlanLog>, pl: nat) {
    pl < |logs| && (AtLine(e, logs, pl) || logs[pl].stopped)
  }

  ghost function LinesAhead(e: Env, logs: seq<PlanLog>, pl: nat): nat
    requires CanFollow(e, logs, pl)
  {
    if AtLine(e, logs, pl) then LinesLeft(e, logs, pl) else 0
  }

  /** A result for command log `id`; a log that was stopped takes none. */
  ghost function FinishCommand(e: Env, s: Machine, id: nat, status: int, custom: Option<Values>): Machine
    requires Resolved(e) && id < |s.w.commandLogs|
    requires s.w.commandLogs[id].status != COMMAND_STOPPED ==> CanFollow(e, s.w.planLogs, s.w.commandLogs[id].planLog)
  {
    if s.w.commandLogs[id].status == COMMAND_STOPPED then s
    else
      var custom' := if custom.Some? then custom.value else s.w.commandLogs[id].custom;
      Continue(e, s.(w := FinishCommandLog(s.w, id, status, custom')), id)
  }

  // The running command logs of plan log `pl` from index `k` on are marked as stopped.
  ghost function StopCommandsOf(w: World, pl: nat, k: nat): World
    requires k <= |w.commandLogs|
    decreases |w.commandLogs| - k
  {
    if k == |w.commandLogs| then w
    else if w.commandLogs[k].planLog == pl && w.commandLogs[k].running then
      StopCommandsOf(FinishCommandLog(w, k, COMMAND_STOPPED, w.commandLogs[k].custom), pl, k + 1)
    else StopCommandsOf(w, pl, k + 1)
  }

  ghost function StopPlan(s: Machine, pl: nat): Machine
    requires pl < |s.w.planLogs|
  {
    if !s.w.planLogs[pl].running then s
    else s.(w := StopCommandsOf(FinishPlanLog(s.w, pl, PLAN_STOPPED, true), pl, 0))
  }

  ghost function RunSingle(e: Env, s: Machine, plan: PlanId, parent: Option<nat>, custom: Values, prevent: bool)
    : Machine
    requires Resolved(e) && plan in e.plans
  {
    if parent.None? && !e.plans[plan].compatible then
      s.(w := RecordPlanLog(s.w, plan, parent, PLAN_NOT_COMPATIBLE_WITH_SERVER))
    else if !PlanAdmitted(e, s.w, plan, Context(prevent, false)) then
      s.(w := RecordPlanLog(s.w, plan, parent, ANOTHER_PLAN_RUNNING))
    else
      var w1 := StartPlanLog(s.w, plan, parent, custom);
      if e.plans[plan].lines == [] then s.(w := FinishPlanLog(w1, |s.w.planLogs|, PLAN_IS_EMPTY, false))
      else Advance(e, s.(w := w1), |s.w.planLogs|, 0, custom)
  }

  // A log with a job, a command or a nested plan still to come back, and any running log.
  lemma PendingLog(e: Env, s: Machine, id: nat)
    requires Resolved(e) && Inv(e, s) && (id in s.Pending() || (id < |s.w.commandLogs| && s.w.commandLogs[id].running))
    ensures id < |s.w.commandLogs|
    ensures var log := s.w.commandLogs[id];
            && log.planLog < |s.w.planLogs| && s.w.planLogs[log.planLog].plan in e.plans
            && Runnable(e, log.command)
            && (log.status != COMMAND_STOPPED <==> log.running)
            && (log.running ==> AtLine(e, s.w.planLogs, log.planLog))
  {
    assert CommandLogOk(e, s, id, None);
    var pl := s.w.commandLogs[id].planLog;
    assert PlanLogOk(e, s.w, pl, None) && Shaped(e, s.w, pl);
  }

  ghost predicate Enabled(e: Env, s: Machine, a: Action)
    requires Resolved(e) && Inv(e, s)
  {
    match a
    case Launch(plan, _) => plan in e.plans
    case StartJob(id) => id in s.queue
    case CommandResult(id, _) =>
      id in s.executing && (PendingLog(e, s, id); !e.commands[s.w.commandLogs[id].command].runner.Nested?)
    case StartNested(id, _) =>
      id in s.executing && (PendingLog(e, s, id); e.commands[s.w.commandLogs[id].command].runner.Nested?)
    case EndNested(id) => id in s.waiting && s.waiting[id] < |s.w.planLogs| && !s.w.planLogs[s.waiting[id]].running
    case StopPlanLog(pl) => pl < |s.w.planLogs|
    case StopCommandLog(id) => id < |s.w.commandLogs|
  }

  // A command without a runner does nothing but fail.
  function Effect(e: Env, w: World, id: nat, outcome: Outcome): Outcome
    requires id < |w.commandLogs| && w.commandLogs[id].command in e.commands
  {
    if e.commands[w.commandLogs[id].command].runner.Missing? then Outcome(NO_COMMAND_RUNNER_FOUND, None, w.vars)
    else outcome
  }

  ghost function Apply(e: Env, s: Machine, a: Action): Machine
    requires Resolved(e) && Inv(e, s) && Enabled(e, s, a)
  {
    match a
    case Launch(plan, custom) => RunSingle(e, s, plan, None, custom, false)
    case StartJob(id) =>
      PendingLog(e, s, id);
      if s.w.planLogs[s.w.commandLogs[id].planLog].stopped then s.(queue := s.queue - {id})
      else s.(queue := s.queue - {id}, executing := s.executing + {id})
    case CommandResult(id, outcome) =>
      PendingLog(e, s, id);
      var r := Effect(e, s.w, id, outcome);
      FinishCommand(e, s.(w := s.w.(vars := r.vars), executing := s.executing - {id}), id, r.status, r.custom)
    case StartNested(id, prevent) =>
      PendingLog(e, s, id);
      var log := s.w.commandLogs[id];
      var s1 := s.(executing := s.executing - {id}, waiting := s.waiting[id := |s.w.planLogs|]);
      RunSingle(e, s1, e.commands[log.command].runner.plan, Some(log.planLog), log.custom, prevent)
    case EndNested(id) =>
      PendingLog(e, s, id);
      var nested := s.w.planLogs[s.waiting[id]];
      FinishCommand(e, s.(waiting := s.waiting - {id}), id, nested.status, Some(nested.custom))
    case StopPlanLog(pl) => StopPlan(s, pl)
    case StopCommandLog(id) =>
      if s.w.commandLogs[id].running then PendingLog(e, s, id); FinishCommand(e, s, id, COMMAND_STOPPED, None) else s
  }

  // --- What every reachable state satisfies --------------------------------------------------

  /** A plan log runs exactly the lines before the one it stands at, and while it runs, exactly the command
      of that line is running.  Plan log `gap`, if any, is between two lines: it runs and no command of it does. */
  ghost predicate InvBut(e: Env, s: Machine, gap: Option<nat>) {
    && (forall pl :: 0 <= pl < |s.w.planLogs| ==> PlanLogOk(e, s.w, pl, gap))
    && (forall id :: 0 <= id < |s.w.commandLogs| ==> CommandLogOk(e, s, id, gap))
    && (forall pl: nat :: Shaped(e, s.w, pl))
    && CommandsExclusive(e, s.w.commandLogs)
    && PlansExclusive(e, s.w.planLogs)
    && PendingOk(s)
  }

  ghost predicate Inv(e: Env, s: Machine) {
    InvBut(e, s, None)
  }

  ghost predicate PlanLogOk(e: Env, w: World, pl: nat, gap: Option<nat>)
    requires pl < |w.planLogs|
  {
    var log := w.planLogs[pl];
    && log.plan in e.plans
    && (log.stopped ==> !log.running && log.status == PLAN_STOPPED)
    && (log.running && gap != Some(pl) ==> log.line.Some? && CommandOfLineRunning(w, pl))
    && (gap == Some(pl) ==> log.running)
  }

  // The last command log of plan log `pl` is running.
  ghost predicate CommandOfLineRunning(w: World, pl: nat) {
    exists id :: LastOf(w.commandLogs, id, pl) && w.commandLogs[id].running
  }

  ghost predicate LastOf(logs: seq<CommandLog>, id: int, pl: nat) {
    && 0 <= id < |logs| && logs[id].planLog == pl
    && forall j :: id < j < |logs| ==> logs[j].planLog != pl
  }

  ghost predicate CommandLogOk(e: Env, s: Machine, id: nat, gap: Option<nat>)
    requires id < |s.w.commandLogs|
  {
    var log := s.w.commandLogs[id];
    && log.planLog < |s.w.planLogs|
    && s.w.planLogs[log.planLog].plan in e.plans
    && Runnable(e, log.command)
    && (log.running ==> && log.status != COMMAND_STOPPED
                        && s.w.planLogs[log.planLog].running
                        && gap != Some(log.planLog)
                        && LastOf(s.w.commandLogs, id, log.planLog)
                        && id in s.Pending())
    && (id in s.Pending() && !log.running ==> log.status == COMMAND_STOPPED)
    && (id in s.queue ==> s.w.planLogs[log.planLog].parent.None?)
  }

  /** At most one command log of a command that forbids parallel runs is running. */
  ghost predicate CommandsExclusive(e: Env, logs: seq<CommandLog>) {
    forall i, j :: 0 <= i < j < |logs| && logs[i].running && logs[j].running && logs[i].command == logs[j].command ==>
      logs[i].command in e.commands && e.commands[logs[i].command].allowParallelRun
  }

  /** At most one plan log of a plan that forbids parallel runs is running. */
  ghost predicate PlansExclusive(e: Env, logs: seq<PlanLog>) {
    forall i, j :: 0 <= i < j < |logs| && logs[i].running && logs[j].running && logs[i].plan == logs[j].plan ==>
      logs[i].plan in e.plans && e.plans[logs[i].plan].allowParallelRun
  }

  ghost predicate PendingOk(s: Machine) {
    && (forall id :: id in s.Pending() ==> id < |s.w.commandLogs|)
    && (forall id :: id in s.waiting ==> s.waiting[id] <= |s.w.planLogs|)
    && s.queue !! s.executing && s.queue !! s.waiting.Keys && s.executing !! s.waiting.Keys
  }

  // --- Each kind of write keeps it -----------------------------------------------------------

  lemma RecordLine(e: Env, s: Machine, pl: nat, i: nat, status: int, skipped: bool, custom: Values)
    requires Resolved(e) && InvBut(e, s, Some(pl)) && OpenPlanLog(e, s.w.planLogs, pl)
    requires i < |e.plans[s.w.planLogs[pl].plan].lines| && Position(s.w.planLogs[pl]) == i
    ensures var w' := RecordCommandLog(SetLine(s.w, pl, i), e.plans[s.w.planLogs[pl].plan].lines[i].command, pl,
                                       status, skipped, custom);
            InvBut(e, s.(w := w'), Some(pl)) && AtLine(e, w'.planLogs, pl)
  {
    var command := e.plans[s.w.planLogs[pl].plan].lines[i].command;
    assert Runnable(e, command);
    var log := CommandLog(command, pl, false, status, skipped, custom);
    var s' := s.(w := RecordCommandLog(SetLine(s.w, pl, i), command, pl, status, skipped, custom));
    assert s'.Pending() == s.Pending();
    AddedLineShaped(e, s.w, s'.w, pl, i, log);
    forall id: nat | id < |s'.w.commandLogs|
      ensures CommandLogOk(e, s', id, Some(pl))
    {
      if id < |s.w.commandLogs| {
        assert CommandLogOk(e, s, id, Some(pl));
      }
    }
    forall x: nat | x < |s'.w.planLogs|
      ensures PlanLogOk(e, s'.w, x, Some(pl))
    {
      assert PlanLogOk(e, s.w, x, Some(pl));
      if x != pl && s.w.planLogs[x].running {
        LastAfterAppend(s.w.commandLogs, log, x);
      }
    }
  }

  lemma StartLine(e: Env, s: Machine, pl: nat, i: nat, custom: Values, s': Machine)
    requires Resolved(e) && InvBut(e, s, Some(pl)) && OpenPlanLog(e, s.w.planLogs, pl)
    requires i < |e.plans[s.w.planLogs[pl].plan].lines| && Position(s.w.planLogs[pl]) == i
    requires var command := e.plans[s.w.planLogs[pl].plan].lines[i].command;
             Runnable(e, command) && Refusal(e, SetLine(s.w, pl, i), command).None?
             && s'.w == StartCommandLog(SetLine(s.w, pl, i), command, pl, custom)
    requires s' == if s.w.planLogs[pl].parent.None? then s.(w := s'.w, queue := s.queue + {|s.w.commandLogs|})
                   else s.(w := s'.w, executing := s.executing + {|s.w.commandLogs|})
    ensures Inv(e, s')
  {
    var command := e.plans[s.w.planLogs[pl].plan].lines[i].command;
    var log := CommandLog(command, pl, true, 0, false, custom);
    assert s'.Pending() == s.Pending() + {|s.w.commandLogs|};
    AddedLineShaped(e, s.w, s'.w, pl, i, log);
    forall id: nat | id < |s'.w.commandLogs|
      ensures CommandLogOk(e, s', id, None)
    {
      if id < |s.w.commandLogs| {
        assert CommandLogOk(e, s, id, Some(pl));
      }
    }
    forall x: nat | x < |s'.w.planLogs|
      ensures PlanLogOk(e, s'.w, x, None)
    {
      assert PlanLogOk(e, s.w, x, Some(pl));
      if x == pl {
        assert LastOf(s'.w.commandLogs, |s.w.commandLogs|, pl);
      } else if s.w.planLogs[x].running {
        LastAfterAppend(s.w.commandLogs, log, x);
      }
    }
    forall j | 0 <= j < |s.w.commandLogs| && s'.w.commandLogs[j].running && s'.w.commandLogs[j].command == command
      ensures e.commands[command].allowParallelRun
    {
      assert s.w.commandLogs[j].running;
    }
  }

  lemma LastAfterAppend(logs: seq<CommandLog>, log: CommandLog, x: nat)
    requires log.planLog != x && exists id :: LastOf(logs, id, x) && logs[id].running
    ensures exists id :: LastOf(logs + [log], id, x) && (logs + [log])[id].running
  {
    var id :| LastOf(logs, id, x) && logs[id].running;
    assert LastOf(logs + [log], id, x);
  }

  lemma AddedLineShaped(e: Env, w: World, w': World, pl: nat, i: nat, log: CommandLog)
    requires OpenPlanLog(e, w.planLogs, pl) && i < |e.plans[w.planLogs[pl].plan].lines| && Position(w.planLogs[pl]) == i
    requires log.planLog == pl && log.command == e.plans[w.planLogs[pl].plan].lines[i].command
    requires w'.planLogs == w.planLogs[pl := w.planLogs[pl].(line := Some(i))]
    requires w'.commandLogs == w.commandLogs + [log]
    requires forall x: nat :: Shaped(e, w, x)
    ensures forall x: nat :: Shaped(e, w', x)
  {
    forall x: nat
      ensures Shaped(e, w', x)
    {
      assert Shaped(e, w, x);
      CommandsOfAppend(w.commandLogs, log, x);
    }
  }

  lemma FinishedPlanKeepsInv(e: Env, s: Machine, pl: nat, status: int, w1: World)
    requires Resolved(e) && InvBut(e, s, Some(pl)) && pl < |s.w.planLogs|
    requires pl < |w1.planLogs| && w1 == s.w.(vars := w1.vars, planLogs := s.w.planLogs[pl := w1.planLogs[pl]])
    requires w1.planLogs[pl] == s.w.planLogs[pl].(custom := w1.planLogs[pl].custom)
    ensures Inv(e, s.(w := FinishPlanLog(w1, pl, status, false)))
  {
    var s' := s.(w := FinishPlanLog(w1, pl, status, false));
    assert s'.Pending() == s.Pending();
    forall x: nat
      ensures Shaped(e, s'.w, x)
    {
      assert Shaped(e, s.w, x);
    }
    forall id: nat | id < |s'.w.commandLogs|
      ensures CommandLogOk(e, s', id, None)
    {
      assert CommandLogOk(e, s, id, Some(pl));
    }
    forall x: nat | x < |s'.w.planLogs|
      ensures PlanLogOk(e, s'.w, x, None)
    {
      assert PlanLogOk(e, s.w, x, Some(pl));
    }
  }

  lemma {:induction false} AdvanceKeepsInv(e: Env, s: Machine, pl: nat, i: nat, custom: Values)
    requires Resolved(e) && InvBut(e, s, Some(pl)) && OpenPlanLog(e, s.w.planLogs, pl)
    requires i < |e.plans[s.w.planLogs[pl].plan].lines| && Position(s.w.planLogs[pl]) == i
    ensures Inv(e, Advance(e, s, pl, i, custom))
    decreases |e.plans[s.w.planLogs[pl].plan].lines| - i, 1
  {
    var line := e.plans[s.w.planLogs[pl].plan].lines[i];
    assert Runnable(e, line.command);
    var w1 := SetLine(s.w, pl, i);
    if !LineExecutable(e, First(|s.w.commandLogs|), line, s.w.vars, custom) {
      RecordLine(e, s, pl, i, PLAN_LINE_CONDITION_CHECK_FAILED, true, map[]);
      var s1 := s.(w := RecordCommandLog(w1, line.command, pl, PLAN_LINE_CONDITION_CHECK_FAILED, true, map[]));
      ContinueKeepsInv(e, s1, |s.w.commandLogs|);
    } else if Refusal(e, w1, line.command).Some? {
      var code := Refusal(e, w1, line.command).value;
      RecordLine(e, s, pl, i, code, false, custom);
      ContinueKeepsInv(e, s.(w := RecordCommandLog(w1, line.command, pl, code, false, custom)), |s.w.commandLogs|);
    } else {
      StartLine(e, s, pl, i, custom, Advance(e, s, pl, i, custom));
    }
  }

  lemma {:induction false} ContinueKeepsInv(e: Env, s: Machine, id: nat)
    requires Resolved(e) && id < |s.w.commandLogs| && AtLine(e, s.w.planLogs, s.w.commandLogs[id].planLog)
    requires InvBut(e, s, Some(s.w.commandLogs[id].planLog))
    ensures Inv(e, Continue(e, s, id))
    decreases LinesLeft(e, s.w.planLogs, s.w.commandLogs[id].planLog), 0
  {
    var pl := s.w.commandLogs[id].planLog;
    var w1, verdict := FinishedVerdict(e, s, id);
    if verdict == Proceed {
      CustomKeepsInv(e, s, pl, w1);
      AdvanceKeepsInv(e, s.(w := w1), pl, s.w.planLogs[pl].line.value + 1, s.w.commandLogs[id].custom);
    } else {
      FinishedPlanKeepsInv(e, s, pl, verdict.status, w1);
    }
  }

  lemma FinishedVerdict(e: Env, s: Machine, id: nat) returns (w1: World, verdict: Verdict)
    requires Resolved(e) && id < |s.w.commandLogs| && AtLine(e, s.w.planLogs, s.w.commandLogs[id].planLog)
    ensures var pl := s.w.commandLogs[id].planLog;
            w1 == SetCustom(s.w, pl, s.w.commandLogs[id].custom).(vars := w1.vars)
    ensures var pl := s.w.commandLogs[id].planLog;
            verdict == Proceed ==>
              && s.w.planLogs[pl].line.value + 1 < |e.plans[s.w.planLogs[pl].plan].lines|
              && Continue(e, s, id) == Advance(e, s.(w := w1), pl, s.w.planLogs[pl].line.value + 1,
                                               s.w.commandLogs[id].custom)
    ensures verdict.Finish? ==>
              Continue(e, s, id) == s.(w := FinishPlanLog(w1, s.w.commandLogs[id].planLog, verdict.status, false))
  {
    var log := s.w.commandLogs[id];
    var plan := e.plans[s.w.planLogs[log.planLog].plan];
    var i := s.w.planLogs[log.planLog].line.value;
    var executable := LineExecutable(e, Again(id), plan.lines[i], s.w.vars, log.custom);
    w1 := SetCustom(s.w, log.planLog, log.custom).(vars := VarsAfter(s.w.vars, plan.lines[i], log.status, executable));
    verdict := Judge(plan, i, log.status, executable);
  }

  lemma CustomKeepsInv(e: Env, s: Machine, pl: nat, w1: World)
    requires InvBut(e, s, Some(pl)) && pl < |s.w.planLogs| && pl < |w1.planLogs|
    requires w1 == s.w.(vars := w1.vars, planLogs := s.w.planLogs[pl := w1.planLogs[pl]])
    requires w1.planLogs[pl] == s.w.planLogs[pl].(custom := w1.planLogs[pl].custom)
    ensures InvBut(e, s.(w := w1), Some(pl))
  {
    var s' := s.(w := w1);
    assert s'.Pending() == s.Pending();
    forall x: nat
      ensures Shaped(e, w1, x)
    {
      assert Shaped(e, s.w, x);
    }
    forall id: nat | id < |w1.commandLogs|
      ensures CommandLogOk(e, s', id, Some(pl))
    {
      assert CommandLogOk(e, s, id, Some(pl));
    }
    forall x: nat | x < |w1.planLogs|
      ensures PlanLogOk(e, w1, x, Some(pl))
    {
      assert PlanLogOk(e, s.w, x, Some(pl));
    }
  }

  // `s1` is `s` with other server variables, and with `id` possibly no longer pending.
  ghost predicate Released(s: Machine, s1: Machine, id: nat) {
    && s1.w == s.w.(vars := s1.w.vars)
    && s.Pending() - {id} <= s1.Pending() <= s.Pending()
    && s1.queue <= s.queue && s1.waiting.Keys <= s.waiting.Keys
    && (forall x :: x in s1.waiting ==> s1.waiting[x] == s.waiting[x])
    && s1.queue !! s1.executing && s1.queue !! s1.waiting.Keys && s1.executing !! s1.waiting.Keys
  }

  lemma ReleaseKeepsInv(e: Env, s: Machine, s1: Machine, id: nat)
    requires Inv(e, s) && Released(s, s1, id)
    requires id in s1.Pending() || (id < |s.w.commandLogs| && !s.w.commandLogs[id].running)
    ensures Inv(e, s1)
  {
    forall x: nat
      ensures Shaped(e, s1.w, x)
    {
      assert Shaped(e, s.w, x);
    }
    forall x: nat | x < |s1.w.commandLogs|
      ensures CommandLogOk(e, s1, x, None)
    {
      assert CommandLogOk(e, s, x, None);
    }
    forall x: nat | x < |s1.w.planLogs|
      ensures PlanLogOk(e, s1.w, x, None)
    {
      assert PlanLogOk(e, s.w, x, None);
    }
  }

  lemma FinishOpensGap(e: Env, s: Machine, s1: Machine, id: nat, status: int, custom: Values)
    requires Inv(e, s) && Released(s, s1, id)
    requires id < |s.w.commandLogs| && s.w.commandLogs[id].running
    requires id in s1.Pending() ==> status == COMMAND_STOPPED
    ensures s.w.commandLogs[id].planLog < |s.w.planLogs|
    ensures InvBut(e, s1.(w := FinishCommandLog(s1.w, id, status, custom)), Some(s.w.commandLogs[id].planLog))
  {
    var pl := s.w.commandLogs[id].planLog;
    var s' := s1.(w := FinishCommandLog(s1.w, id, status, custom));
    assert CommandLogOk(e, s, id, None);
    forall x: nat
      ensures Shaped(e, s'.w, x)
    {
      assert Shaped(e, s.w, x);
      CommandsOfUpdate(s.w.commandLogs, id, s'.w.commandLogs[id], x);
    }
    forall x: nat | x < |s'.w.commandLogs|
      ensures CommandLogOk(e, s', x, Some(pl))
    {
      assert CommandLogOk(e, s, x, None);
    }
    forall x: nat | x < |s'.w.planLogs|
      ensures PlanLogOk(e, s'.w, x, Some(pl))
    {
      assert PlanLogOk(e, s.w, x, None);
      if x != pl && s.w.planLogs[x].running {
        var j :| LastOf(s.w.commandLogs, j, x) && s.w.commandLogs[j].running;
        assert LastOf(s'.w.commandLogs, j, x);
      }
    }
  }

  lemma FinishKeepsInv(e: Env, s: Machine, s1: Machine, id: nat, status: int, custom: Option<Values>)
    requires Resolved(e) && Inv(e, s) && Released(s, s1, id) && id in s.Pending()
    requires id in s1.Pending() ==> status == COMMAND_STOPPED
    requires id < |s.w.commandLogs|
    requires s.w.commandLogs[id].status != COMMAND_STOPPED ==> CanFollow(e, s1.w.planLogs, s.w.commandLogs[id].planLog)
    ensures Inv(e, FinishCommand(e, s1, id, status, custom))
  {
    PendingLog(e, s, id);
    if s.w.commandLogs[id].status == COMMAND_STOPPED {
      ReleaseKeepsInv(e, s, s1, id);
    } else {
      var custom' := if custom.Some? then custom.value else s.w.commandLogs[id].custom;
      FinishOpensGap(e, s, s1, id, status, custom');
      ContinueKeepsInv(e, s1.(w := FinishCommandLog(s1.w, id, status, custom')), id);
    }
  }

  // Stopping marks exactly the running command logs of the plan log.
  lemma {:induction false} StoppedCommands(w: World, pl: nat, k: nat)
    requires k <= |w.commandLogs|
    ensures var w' := StopCommandsOf(w, pl, k);
            && w'.planLogs == w.planLogs && w'.vars == w.vars && |w'.commandLogs| == |w.commandLogs|
            && forall j :: 0 <= j < |w.commandLogs| ==>
                 w'.commandLogs[j] == if k <= j && w.commandLogs[j].planLog == pl && w.commandLogs[j].running
                                      then w.commandLogs[j].(running := false, status := COMMAND_STOPPED)
                                      else w.commandLogs[j]
    decreases |w.commandLogs| - k
  {
    if k < |w.commandLogs| {
      if w.commandLogs[k].planLog == pl && w.commandLogs[k].running {
        StoppedCommands(FinishCommandLog(w, k, COMMAND_STOPPED, w.commandLogs[k].custom), pl, k + 1);
      } else {
        StoppedCommands(w, pl, k + 1);
      }
    }
  }

  lemma {:induction false} CommandsOfSame(logs: seq<CommandLog>, logs': seq<CommandLog>, pl: nat)
    requires |logs| == |logs'|
    requires forall j :: 0 <= j < |logs| ==> logs[j].planLog == logs'[j].planLog && logs[j].command == logs'[j].command
    ensures CommandsOf(logs, pl) == CommandsOf(logs', pl)
  {
    if logs != [] {
      CommandsOfSame(logs[..|logs| - 1], logs'[..|logs| - 1], pl);
    }
  }

  lemma StopPlanKeepsInv(e: Env, s: Machine, pl: nat)
    requires Resolved(e) && Inv(e, s) && pl < |s.w.planLogs|
    ensures Inv(e, StopPlan(s, pl))
  {
    if s.w.planLogs[pl].running {
      var s' := StopPlan(s, pl);
      assert s'.Pending() == s.Pending();
      StoppedCommands(FinishPlanLog(s.w, pl, PLAN_STOPPED, true), pl, 0);
      forall x: nat
        ensures Shaped(e, s'.w, x)
      {
        assert Shaped(e, s.w, x);
        CommandsOfSame(s.w.commandLogs, s'.w.commandLogs, x);
      }
      forall x: nat | x < |s'.w.commandLogs|
        ensures CommandLogOk(e, s', x, None)
      {
        assert CommandLogOk(e, s, x, None);
      }
      forall x: nat | x < |s'.w.planLogs|
        ensures PlanLogOk(e, s'.w, x, None)
      {
        assert PlanLogOk(e, s.w, x, None);
        if x != pl && s.w.planLogs[x].running {
          var j :| LastOf(s.w.commandLogs, j, x) && s.w.commandLogs[j].running;
          assert LastOf(s'.w.commandLogs, j, x);
        }
      }
    }
  }

  lemma NewPlanLogKeepsInv(e: Env, s: Machine, log: PlanLog, w1: World)
    requires Resolved(e) && Inv(e, s) && log.plan in e.plans && log.line.None? && !log.stopped
    requires w1.planLogs == s.w.planLogs + [log] && w1.commandLogs == s.w.commandLogs
    requires log.running ==> e.plans[log.plan].allowParallelRun || !PlanRunning(s.w, log.plan)
    ensures InvBut(e, s.(w := w1), if log.running then Some(|s.w.planLogs|) else None)
  {
    var gap := if log.running then Some(|s.w.planLogs|) else None;
    var s' := s.(w := w1);
    assert s'.Pending() == s.Pending();
    forall x: nat
      ensures Shaped(e, w1, x)
    {
      assert Shaped(e, s.w, x);
    }
    forall x: nat | x < |w1.commandLogs|
      ensures CommandLogOk(e, s', x, gap)
    {
      assert CommandLogOk(e, s, x, None);
    }
    forall x: nat | x < |w1.planLogs|
      ensures PlanLogOk(e, w1, x, gap)
    {
      if x < |s.w.planLogs| {
        assert PlanLogOk(e, s.w, x, None);
      }
    }
    forall i, j | 0 <= i < j < |w1.planLogs| && w1.planLogs[i].running && w1.planLogs[j].running
                  && w1.planLogs[i].plan == w1.planLogs[j].plan
      ensures w1.planLogs[i].plan in e.plans && e.plans[w1.planLogs[i].plan].allowParallelRun
    {
      assert w1.planLogs[i] == s.w.planLogs[i];
      if j == |s.w.planLogs| {
        assert PlanRunning(s.w, log.plan);
      } else {
        assert w1.planLogs[j] == s.w.planLogs[j];
      }
    }
  }

  lemma RunSingleKeepsInv(e: Env, s: Machine, plan: PlanId, parent: Option<nat>, custom: Values, prevent: bool)
    requires Resolved(e) && plan in e.plans && Inv(e, s)
    ensures Inv(e, RunSingle(e, s, plan, parent, custom, prevent))
  {
    if parent.None? && !e.plans[plan].compatible {
      var w1 := RecordPlanLog(s.w, plan, parent, PLAN_NOT_COMPATIBLE_WITH_SERVER);
      NewPlanLogKeepsInv(e, s, w1.planLogs[|s.w.planLogs|], w1);
    } else if !PlanAdmitted(e, s.w, plan, Context(prevent, false)) {
      var w1 := RecordPlanLog(s.w, plan, parent, ANOTHER_PLAN_RUNNING);
      NewPlanLogKeepsInv(e, s, w1.planLogs[|s.w.planLogs|], w1);
    } else {
      var w1 := StartPlanLog(s.w, plan, parent, custom);
      NewPlanLogKeepsInv(e, s, w1.planLogs[|s.w.planLogs|], w1);
      if e.plans[plan].lines == [] {
        FinishedPlanKeepsInv(e, s.(w := w1), |s.w.planLogs|, PLAN_IS_EMPTY, w1);
      } else {
        AdvanceKeepsInv(e, s.(w := w1), |s.w.planLogs|, 0, custom);
      }
    }
  }

  // The pending set shrinks or moves, but never forgets a running log.
  lemma MovedKeepsInv(e: Env, s: Machine, s1: Machine)
    requires Inv(e, s) && s1.w == s.w && s1.Pending() == s.Pending() && s1.queue <= s.queue && PendingOk(s1)
    ensures Inv(e, s1)
  {
    forall x: nat | x < |s1.w.commandLogs|
      ensures CommandLogOk(e, s1, x, None)
    {
      assert CommandLogOk(e, s, x, None);
    }
  }

  lemma StartNestedKeepsInv(e: Env, s: Machine, id: nat, prevent: bool)
    requires Resolved(e) && Inv(e, s) && Enabled(e, s, StartNested(id, prevent))
    ensures Inv(e, Apply(e, s, StartNested(id, prevent)))
  {
    PendingLog(e, s, id);
    var log := s.w.commandLogs[id];
    var s1 := s.(executing := s.executing - {id}, waiting := s.waiting[id := |s.w.planLogs|]);
    MovedKeepsInv(e, s, s1);
    RunSingleKeepsInv(e, s1, e.commands[log.command].runner.plan, Some(log.planLog), log.custom, prevent);
  }

  /** Main result: every step of the machine keeps the invariant. */
  lemma StepKeepsInv(e: Env, s: Machine, a: Action)
    requires Resolved(e) && Inv(e, s) && Enabled(e, s, a)
    ensures Inv(e, Apply(e, s, a))
  {
    match a
    case Launch(plan, custom) => RunSingleKeepsInv(e, s, plan, None, custom, false);
    case StartJob(id) =>
      PendingLog(e, s, id);
      if s.w.planLogs[s.w.commandLogs[id].planLog].stopped {
        assert PlanLogOk(e, s.w, s.w.commandLogs[id].planLog, None);
        ReleaseKeepsInv(e, s, s.(queue := s.queue - {id}), id);
      } else {
        MovedKeepsInv(e, s, s.(queue := s.queue - {id}, executing := s.executing + {id}));
      }
    case CommandResult(id, outcome) =>
      PendingLog(e, s, id);
      var r := Effect(e, s.w, id, outcome);
      FinishKeepsInv(e, s, s.(w := s.w.(vars := r.vars), executing := s.executing - {id}), id, r.status, r.custom);
    case StartNested(id, prevent) => StartNestedKeepsInv(e, s, id, prevent);
    case EndNested(id) =>
      PendingLog(e, s, id);
      var nested := s.w.planLogs[s.waiting[id]];
      FinishKeepsInv(e, s, s.(waiting := s.waiting - {id}), id, nested.status, Some(nested.custom));
    case StopPlanLog(pl) => StopPlanKeepsInv(e, s, pl);
    case StopCommandLog(id) =>
      if s.w.commandLogs[id].running {
        PendingLog(e, s, id);
        assert CommandLogOk(e, s, id, None);
        FinishKeepsInv(e, s, s, id, COMMAND_STOPPED, None);
      }
  }

  // --- Nothing finished comes back -----------------------------------------------------------

  /** From `w` to `w'`, finished plan logs and finished command logs stay as they are, and no finished plan log
      gets another command log. */
  ghost predicate Settled(w: World, w': World) {
    && |w.planLogs| <= |w'.planLogs| && |w.commandLogs| <= |w'.commandLogs|
    && (forall pl :: 0 <= pl < |w.planLogs| && !w.planLogs[pl].running ==> w'.planLogs[pl] == w.planLogs[pl])
    && (forall id :: 0 <= id < |w.commandLogs| ==>
          && w'.commandLogs[id].planLog == w.commandLogs[id].planLog
          && (!w.commandLogs[id].running ==> w'.commandLogs[id] == w.commandLogs[id]))
    && (forall id :: |w.commandLogs| <= id < |w'.commandLogs| && w'.commandLogs[id].planLog < |w.planLogs| ==>
          w.planLogs[w'.commandLogs[id].planLog].running)
  }

  // Commands whose execution has begun and whose result is still to come.
  ghost function Begun(s: Machine): set<nat> {
    s.executing + s.waiting.Keys
  }

  ghost predicate BegunOnlyNew(s: Machine, s': Machine) {
    forall id :: id in Begun(s') ==> id in Begun(s) || id >= |s.w.commandLogs|
  }

  lemma {:induction false} AdvanceSettles(e: Env, s: Machine, pl: nat, i: nat, custom: Values)
    requires Resolved(e) && OpenPlanLog(e, s.w.planLogs, pl) && i < |e.plans[s.w.planLogs[pl].plan].lines|
    ensures Settled(s.w, Advance(e, s, pl, i, custom).w)
    ensures BegunOnlyNew(s, Advance(e, s, pl, i, custom))
    decreases |e.plans[s.w.planLogs[pl].plan].lines| - i, 1
  {
    var s1, started := AdvanceStep(e, s, pl, i, custom);
    if !started {
      ContinueSettles(e, s1, |s.w.commandLogs|);
      SettledTransitive(s.w, s1.w, Continue(e, s1, |s.w.commandLogs|).w);
    }
  }

  // Going to a line adds one command log; either it is running or its plan log goes on from it.
  lemma AdvanceStep(e: Env, s: Machine, pl: nat, i: nat, custom: Values) returns (s1: Machine, started: bool)
    requires Resolved(e) && OpenPlanLog(e, s.w.planLogs, pl) && i < |e.plans[s.w.planLogs[pl].plan].lines|
    ensures Settled(s.w, s1.w) && BegunOnlyNew(s, s1)
    ensures started ==> Advance(e, s, pl, i, custom) == s1
    ensures !started ==>
              && |s1.w.commandLogs| == |s.w.commandLogs| + 1 && s1.w.commandLogs[|s.w.commandLogs|].planLog == pl
              && s1.w.planLogs == SetLine(s.w, pl, i).planLogs
              && Advance(e, s, pl, i, custom) == Continue(e, s1, |s.w.commandLogs|)
  {
    var line := e.plans[s.w.planLogs[pl].plan].lines[i];
    assert Runnable(e, line.command);
    var w1 := SetLine(s.w, pl, i);
    started := false;
    if !LineExecutable(e, First(|s.w.commandLogs|), line, s.w.vars, custom) {
      s1 := s.(w := RecordCommandLog(w1, line.command, pl, PLAN_LINE_CONDITION_CHECK_FAILED, true, map[]));
    } else if Refusal(e, w1, line.command).Some? {
      s1 := s.(w := RecordCommandLog(w1, line.command, pl, Refusal(e, w1, line.command).value, false, custom));
    } else {
      started := true;
      s1 := Advance(e, s, pl, i, custom);
    }
  }

  lemma {:induction false} ContinueSettles(e: Env, s: Machine, id: nat)
    requires Resolved(e) && id < |s.w.commandLogs| && AtLine(e, s.w.planLogs, s.w.commandLogs[id].planLog)
    ensures Settled(s.w, Continue(e, s, id).w)
    ensures BegunOnlyNew(s, Continue(e, s, id))
    decreases LinesLeft(e, s.w.planLogs, s.w.commandLogs[id].planLog), 0
  {
    var pl := s.w.commandLogs[id].planLog;
    var w1, verdict := FinishedVerdict(e, s, id);
    if verdict == Proceed {
      var i := s.w.planLogs[pl].line.value + 1;
      AdvanceSettles(e, s.(w := w1), pl, i, s.w.commandLogs[id].custom);
      SettledTransitive(s.w, w1, Advance(e, s.(w := w1), pl, i, s.w.commandLogs[id].custom).w);
    }
  }

  lemma SettledTransitive(w0: World, w1: World, w2: World)
    requires Settled(w0, w1) && Settled(w1, w2)
    ensures Settled(w0, w2)
  {
  }

  lemma FinishSettles(e: Env, s: Machine, id: nat, status: int, custom: Option<Values>)
    requires Resolved(e) && id < |s.w.commandLogs|
    requires s.w.commandLogs[id].status != COMMAND_STOPPED ==>
               s.w.commandLogs[id].running && AtLine(e, s.w.planLogs, s.w.commandLogs[id].planLog)
    ensures Settled(s.w, FinishCommand(e, s, id, status, custom).w)
    ensures BegunOnlyNew(s, FinishCommand(e, s, id, status, custom))
  {
    if s.w.commandLogs[id].status != COMMAND_STOPPED {
      var custom' := if custom.Some? then custom.value else s.w.commandLogs[id].custom;
      var s1 := s.(w := FinishCommandLog(s.w, id, status, custom'));
      ContinueSettles(e, s1, id);
      SettledTransitive(s.w, s1.w, Continue(e, s1, id).w);
    }
  }

  lemma StopPlanSettles(s: Machine, pl: nat)
    requires pl < |s.w.planLogs|
    ensures Settled(s.w, StopPlan(s, pl).w) && BegunOnlyNew(s, StopPlan(s, pl))
  {
    if s.w.planLogs[pl].running {
      StoppedCommands(FinishPlanLog(s.w, pl, PLAN_STOPPED, true), pl, 0);
    }
  }

  lemma RunSingleSettles(e: Env, s: Machine, plan: PlanId, parent: Option<nat>, custom: Values, prevent: bool)
    requires Resolved(e) && plan in e.plans
    requires forall id :: 0 <= id < |s.w.commandLogs| ==> s.w.commandLogs[id].planLog < |s.w.planLogs|
    ensures Settled(s.w, RunSingle(e, s, plan, parent, custom, prevent).w)
    ensures BegunOnlyNew(s, RunSingle(e, s, plan, parent, custom, prevent))
  {
    var w1 := StartPlanLog(s.w, plan, parent, custom);
    if (parent.Some? || e.plans[plan].compatible) && PlanAdmitted(e, s.w, plan, Context(prevent, false))
       && e.plans[plan].lines != [] {
      AdvanceSettles(e, s.(w := w1), |s.w.planLogs|, 0, custom);
      SettledTransitive(s.w, w1, Advance(e, s.(w := w1), |s.w.planLogs|, 0, custom).w);
    }
  }

  lemma OwnersExist(e: Env, s: Machine)
    requires Inv(e, s)
    ensures forall id :: 0 <= id < |s.w.commandLogs| ==> s.w.commandLogs[id].planLog < |s.w.planLogs|
  {
    forall id | 0 <= id < |s.w.commandLogs|
      ensures s.w.commandLogs[id].planLog < |s.w.planLogs|
    {
      assert CommandLogOk(e, s, id, None);
    }
  }

  lemma StartNestedSettles(e: Env, s: Machine, id: nat, prevent: bool)
    requires Resolved(e) && Inv(e, s) && Enabled(e, s, StartNested(id, prevent))
    ensures Settled(s.w, Apply(e, s, StartNested(id, prevent)).w)
    ensures BegunOnlyNew(s, Apply(e, s, StartNested(id, prevent)))
  {
    PendingLog(e, s, id);
    OwnersExist(e, s);
    var log := s.w.commandLogs[id];
    var s1 := s.(executing := s.executing - {id}, waiting := s.waiting[id := |s.w.planLogs|]);
    RunSingleSettles(e, s1, e.commands[log.command].runner.plan, Some(log.planLog), log.custom, prevent);
  }

  lemma StartJobSettles(e: Env, s: Machine, id: nat)
    requires Resolved(e) && Inv(e, s) && Enabled(e, s, StartJob(id))
    ensures Settled(s.w, Apply(e, s, StartJob(id)).w)
    ensures id < |s.w.commandLogs| && s.w.commandLogs[id].planLog < |s.w.planLogs|
    ensures forall x :: x in Begun(Apply(e, s, StartJob(id))) ==>
              x in Begun(s) || x >= |s.w.commandLogs| || (x == id && !s.w.planLogs[s.w.commandLogs[id].planLog].stopped)
  {
    PendingLog(e, s, id);
  }

  lemma StepSettles(e: Env, s: Machine, a: Action)
    requires Resolved(e) && Inv(e, s) && Enabled(e, s, a)
    ensures Settled(s.w, Apply(e, s, a).w)
    ensures forall id :: id in Begun(Apply(e, s, a)) && id !in Begun(s) && id < |s.w.commandLogs| ==>
              a == StartJob(id) && s.w.commandLogs[id].planLog < |s.w.planLogs|
              && !s.w.planLogs[s.w.commandLogs[id].planLog].stopped
  {
    hide InvBut, Advance, Continue, StopCommandsOf;
    OwnersExist(e, s);
    match a
    case Launch(plan, custom) => RunSingleSettles(e, s, plan, None, custom, false);
    case StartJob(id) => StartJobSettles(e, s, id);
    case CommandResult(id, outcome) =>
      PendingLog(e, s, id);
      var r := Effect(e, s.w, id, outcome);
      FinishSettles(e, s.(w := s.w.(vars := r.vars), executing := s.executing - {id}), id, r.status, r.custom);
    case StartNested(id, prevent) => StartNestedSettles(e, s, id, prevent);
    case EndNested(id) =>
      PendingLog(e, s, id);
      var nested := s.w.planLogs[s.waiting[id]];
      FinishSettles(e, s.(waiting := s.waiting - {id}), id, nested.status, Some(nested.custom));
    case StopPlanLog(pl) => StopPlanSettles(s, pl);
    case StopCommandLog(id) =>
      if s.w.commandLogs[id].running {
        PendingLog(e, s, id);
        FinishSettles(e, s, id, COMMAND_STOPPED, None);
      }
  }

  // --- Runs --------------------------------------------------------------------------------

  ghost function Start(vars: Values): (s: Machine)
    ensures forall e :: Inv(e, s)
  {
    Machine(World(vars, [], [], []), {}, {}, map[])
  }

  /** The actions take the machine from `s` to `s'`. */
  ghost predicate Run(e: Env, s: Machine, actions: seq<Action>, s': Machine)
    requires Resolved(e) && Inv(e, s)
    decreases |actions|
  {
    if actions == [] then s' == s
    else
      Enabled(e, s, actions[0])
      && (StepKeepsInv(e, s, actions[0]); Run(e, Apply(e, s, actions[0]), actions[1..], s'))
  }

  lemma {:induction false} RunsKeepInv(e: Env, s: Machine, actions: seq<Action>, s': Machine)
    requires Resolved(e) && Inv(e, s) && Run(e, s, actions, s')
    ensures Inv(e, s')
    decreases |actions|
  {
    if actions != [] {
      StepKeepsInv(e, s, actions[0]);
      RunsKeepInv(e, Apply(e, s, actions[0]), actions[1..], s');
    }
  }

  /** Main result, for every reachable state and every interleaving.  A plan log has one command log for each
      line up to the one it stands at, in line order; it runs exactly when the command of that line runs;
      and commands and plans that forbid parallel runs have at most one running log each. */
  lemma ReachableStates(e: Env, vars: Values, actions: seq<Action>, s: Machine)
    requires Resolved(e) && Run(e, Start(vars), actions, s)
    ensures forall pl :: 0 <= pl < |s.w.planLogs| ==>
              && HasRun(e, s.w, pl, Position(s.w.planLogs[pl]))
              && (s.w.planLogs[pl].running
                  <==> exists id :: LastOf(s.w.commandLogs, id, pl) && s.w.commandLogs[id].running)
    ensures forall id :: 0 <= id < |s.w.commandLogs| && s.w.commandLogs[id].running ==>
              LastOf(s.w.commandLogs, id, s.w.commandLogs[id].planLog)
    ensures CommandsExclusive(e, s.w.commandLogs) && PlansExclusive(e, s.w.planLogs)
  {
    RunsKeepInv(e, Start(vars), actions, s);
    forall pl: nat | pl < |s.w.planLogs|
      ensures HasRun(e, s.w, pl, Position(s.w.planLogs[pl]))
      ensures s.w.planLogs[pl].running <==> exists id :: LastOf(s.w.commandLogs, id, pl) && s.w.commandLogs[id].running
    {
      assert Shaped(e, s.w, pl) && PlanLogOk(e, s.w, pl, None);
      if exists id :: LastOf(s.w.commandLogs, id, pl) && s.w.commandLogs[id].running {
        var id :| LastOf(s.w.commandLogs, id, pl) && s.w.commandLogs[id].running;
        assert CommandLogOk(e, s, id, None);
      }
    }
    forall id: nat | id < |s.w.commandLogs| && s.w.commandLogs[id].running
      ensures LastOf(s.w.commandLogs, id, s.w.commandLogs[id].planLog)
    {
      assert CommandLogOk(e, s, id, None);
    }
  }

  /** Main result: stop safety.  Once plan log `pl` is stopped, whatever happens next: its status stays
      PLAN_STOPPED, it gets no further command log, its command logs keep their results, and none of its
      queued commands starts executing. */
  lemma {:induction false} StopIsFinal(e: Env, s: Machine, actions: seq<Action>, s': Machine, pl: nat)
    requires Resolved(e) && Inv(e, s) && Run(e, s, actions, s')
    requires pl < |s.w.planLogs| && s.w.planLogs[pl].stopped
    ensures pl < |s'.w.planLogs| && s'.w.planLogs[pl] == s.w.planLogs[pl] && s'.w.planLogs[pl].status == PLAN_STOPPED
    ensures |s.w.commandLogs| <= |s'.w.commandLogs|
    ensures forall id :: 0 <= id < |s'.w.commandLogs| && s'.w.commandLogs[id].planLog == pl ==>
              && id < |s.w.commandLogs| && s'.w.commandLogs[id] == s.w.commandLogs[id] && !s.w.commandLogs[id].running
              && (id in Begun(s') ==> id in Begun(s))
    decreases |actions|
  {
    assert PlanLogOk(e, s.w, pl, None);
    forall id: nat | id < |s.w.commandLogs| && s.w.commandLogs[id].planLog == pl
      ensures !s.w.commandLogs[id].running
    {
      assert CommandLogOk(e, s, id, None);
    }
    if actions != [] {
      var s1 := Apply(e, s, actions[0]);
      StepKeepsInv(e, s, actions[0]);
      StepSettles(e, s, actions[0]);
      StopIsFinal(e, s1, actions[1..], s', pl);
    }
  }

  /** Whatever happens next, a finished command log keeps its result: one marked COMMAND_STOPPED absorbs any
      result that is still to come, and nothing else is finished twice. */
  lemma {:induction false} ResultsAreFinal(e: Env, s: Machine, actions: seq<Action>, s': Machine, id: nat)
    requires Resolved(e) && Inv(e, s) && Run(e, s, actions, s')
    requires id < |s.w.commandLogs| && !s.w.commandLogs[id].running
    ensures id < |s'.w.commandLogs| && s'.w.commandLogs[id] == s.w.commandLogs[id]
    decreases |actions|
  {
    if actions != [] {
      StepKeepsInv(e, s, actions[0]);
      StepSettles(e, s, actions[0]);
      ResultsAreFinal(e, Apply(e, s, actions[0]), actions[1..], s', id);
    }
  }

  lemma {:induction false} PlanResultsAreFinal(e: Env, s: Machine, actions: seq<Action>, s': Machine, pl: nat)
    requires Resolved(e) && Inv(e, s) && Run(e, s, actions, s')
    requires pl < |s.w.planLogs| && !s.w.planLogs[pl].running
    ensures pl < |s'.w.planLogs| && s'.w.planLogs[pl] == s.w.planLogs[pl]
    decreases |actions|
  {
    if actions != [] {
      StepKeepsInv(e, s, actions[0]);
      StepSettles(e, s, actions[0]);
      PlanResultsAreFinal(e, Apply(e, s, actions[0]), actions[1..], s', pl);
    }
  }

  // A running log takes the result that comes.
  lemma ResultWritten(e: Env, s: Machine, id: nat, status: int, custom: Option<Values>)
    requires Resolved(e) && id < |s.w.commandLogs| && s.w.commandLogs[id].running
    requires s.w.commandLogs[id].status != COMMAND_STOPPED && AtLine(e, s.w.planLogs, s.w.commandLogs[id].planLog)
    ensures var w', log := FinishCommand(e, s, id, status, custom).w, s.w.commandLogs[id];
            && id < |w'.commandLogs|
            && w'.commandLogs[id] == log.(running := false, status := status,
                                          custom := if custom.Some? then custom.value else log.custom)
  {
    hide Continue;
    var custom' := if custom.Some? then custom.value else s.w.commandLogs[id].custom;
    ContinueSettles(e, s.(w := FinishCommandLog(s.w, id, status, custom')), id);
  }

  /** Main result: a command that runs a plan ends with the status and the custom values of the plan log that it waited
      for, and both keep them, whatever else happens in between and afterwards. */
  lemma NestedResultHandedOn(e: Env, s: Machine, id: nat, actions: seq<Action>, s': Machine)
    requires Resolved(e) && Inv(e, s) && Enabled(e, s, EndNested(id))
    requires id < |s.w.commandLogs| && s.w.commandLogs[id].running
    requires Inv(e, Apply(e, s, EndNested(id))) && Run(e, Apply(e, s, EndNested(id)), actions, s')
    ensures var nested := s.waiting[id];
            && id < |s'.w.commandLogs| && nested < |s'.w.planLogs|
            && s'.w.planLogs[nested] == s.w.planLogs[nested] && !s'.w.planLogs[nested].running
            && s'.w.commandLogs[id] == s.w.commandLogs[id].(running := false, status := s'.w.planLogs[nested].status,
                                                            custom := s'.w.planLogs[nested].custom)
  {
    hide InvBut, Run, FinishCommand;
    var nested := s.w.planLogs[s.waiting[id]];
    PendingLog(e, s, id);
    ResultWritten(e, s.(waiting := s.waiting - {id}), id, nested.status, Some(nested.custom));
    StepSettles(e, s, EndNested(id));
    ResultsAreFinal(e, Apply(e, s, EndNested(id)), actions, s', id);
    PlanResultsAreFinal(e, Apply(e, s, EndNested(id)), actions, s', s.waiting[id]);
  }

  /** Stopping a plan log that runs gives it -308 and its running commands -208, and touches no other log. */
  lemma StopMarks(e: Env, s: Machine, pl: nat)
    requires Resolved(e) && Inv(e, s) && pl < |s.w.planLogs| && s.w.planLogs[pl].running
    ensures var s' := Apply(e, s, StopPlanLog(pl));
            && s'.w.planLogs == s.w.planLogs[pl := s.w.planLogs[pl].(running := false, stopped := true, status := -308)]
            && |s'.w.commandLogs| == |s.w.commandLogs|
            && forall id :: 0 <= id < |s.w.commandLogs| ==>
                 var log := s.w.commandLogs[id];
                 s'.w.commandLogs[id] == if log.planLog == pl && log.running
                                         then log.(running := false, status := -208) else log
  {
    StoppedCommands(FinishPlanLog(s.w, pl, PLAN_STOPPED, true), pl, 0);
  }

  /** Stopping a command that runs gives it -208 for good. */
  lemma StoppedForGood(e: Env, s: Machine, id: nat, actions: seq<Action>, s': Machine)
    requires Resolved(e) && Inv(e, s) && id < |s.w.commandLogs| && s.w.commandLogs[id].running
    requires Inv(e, Apply(e, s, StopCommandLog(id))) && Run(e, Apply(e, s, StopCommandLog(id)), actions, s')
    ensures id < |s'.w.commandLogs| && s'.w.commandLogs[id] == s.w.commandLogs[id].(running := false, status := -208)
  {
    hide InvBut, Run, FinishCommand;
    PendingLog(e, s, id);
    ResultWritten(e, s, id, COMMAND_STOPPED, None);
    ResultsAreFinal(e, Apply(e, s, StopCommandLog(id)), actions, s', id);
  }
}
