/** Flight plans and the logs their runs leave behind, as stored values.

    A catalog holds commands and plans by id, as the database does.  What the model cannot see
    (shell and Python commands, the truth of a rendered condition) is an `Oracle`. */
module FlightPlan {
  import opened Basics

  // Values by variable reference: server variables, or the custom values of a run.
  type Values = map<string, string>
  type CommandId = nat
  type PlanId = nat

  const ANOTHER_COMMAND_RUNNING: int := -201
  const NO_COMMAND_RUNNER_FOUND: int := -202
  const PLAN_LINE_CONDITION_CHECK_FAILED: int := -205
  const COMMAND_NOT_COMPATIBLE_WITH_SERVER: int := -207
  const COMMAND_STOPPED: int := -208
  const ANOTHER_PLAN_RUNNING: int := -301
  const PLAN_IS_EMPTY: int := -302
  const PLAN_LINE_NOT_ASSIGNED: int := -304
  const PLAN_NOT_COMPATIBLE_WITH_SERVER: int := -306
  const PLAN_STOPPED: int := -308

  // The selection values "e", "ec" and "n".
  datatype ActionKind = Exit | ExitCustom | Next

  datatype Comparison = Equal | NotEqual | Greater | GreaterEqual | Less | LessEqual {
    predicate Holds(a: int, b: int) {
      match this
      case Equal => a == b
      case NotEqual => a != b
      case Greater => a > b
      case GreaterEqual => a >= b
      case Less => a < b
      case LessEqual => a <= b
    }
  }

  datatype LineAction = LineAction(
    condition: Comparison,
    value: int,
    kind: ActionKind,
    customExitCode: int,
    variableValues: seq<(string, string)>)
  {
    predicate Matches(exitCode: int) { condition.Holds(exitCode, value) }
  }

  datatype Line = Line(condition: Option<string>, command: CommandId, actions: seq<LineAction>)

  // `External` stands for the ssh, file and Python runners.
  datatype Runner = External | Missing | Nested(plan: PlanId)

  datatype Command = Command(runner: Runner, allowParallelRun: bool, compatible: bool)

  // `compatible` is the verdict of the server check made before a run that no command started.
  datatype Plan = Plan(
    lines: seq<Line>,
    allowParallelRun: bool,
    onError: ActionKind,
    customExitCode: int,
    compatible: bool)

  // What a command did: its exit code, the custom values it hands on (if it hands any on),
  // and the server variables it left behind.
  datatype Outcome = Outcome(status: int, custom: Option<Values>, vars: Values)

  // The condition of a line is evaluated before its command and again after it.  `id` is its command log.
  datatype Check = First(id: nat) | Again(id: nat)

  // `holds` evaluates a condition from server and custom values, `outcome` executes a command.  Both may depend
  // on more than these values (a condition may ask for the time), so they also take the moment.
  datatype Oracle = Oracle(
    holds: (Check, string, Values, Values) -> bool,
    outcome: (nat, CommandId, Values, Values) -> Outcome)

  datatype CommandLog = CommandLog(
    command: CommandId,
    planLog: nat,
    running: bool,
    status: int,
    skipped: bool,
    custom: Values)

  datatype PlanLog = PlanLog(
    plan: PlanId,
    parent: Option<nat>,
    running: bool,
    stopped: bool,
    status: int,
    line: Option<nat>,
    custom: Values)

  // Log writes in the order they happen; `Recorded` is a log created already finished.
  datatype Event =
    | PlanStarted(id: nat)
    | PlanFinished(id: nat)
    | PlanRecorded(id: nat)
    | CommandStarted(id: nat)
    | CommandFinished(id: nat)
    | CommandRecorded(id: nat)

  // Everything a run on one server reads and writes.  A log's id is its index.
  datatype World = World(
    vars: Values,
    commandLogs: seq<CommandLog>,
    planLogs: seq<PlanLog>,
    history: seq<Event>)

  // Whether the context key `prevent_plan_recursion` is set on the records a call goes through:
  // on the plan and its lines, and on the server.
  datatype Context = Context(plan: bool, server: bool)
  const NO_CONTEXT := Context(false, false)

  datatype Env = Env(
    commands: map<CommandId, Command>,
    plans: map<PlanId, Plan>,
    oracle: Oracle)

  /** Foreign keys resolve: every line has a command, and every command that runs a plan has that plan. */
  ghost predicate Resolved(e: Env) {
    forall p, i :: p in e.plans && 0 <= i < |e.plans[p].lines| ==> Runnable(e, e.plans[p].lines[i].command)
  }

  ghost predicate Runnable(e: Env, command: CommandId) {
    command in e.commands && (e.commands[command].runner.Nested? ==> e.commands[command].runner.plan in e.plans)
  }

  /** Line `j` can be passed: it has a condition, which may fail, or some exit code lets the plan go on. */
  ghost predicate MayPass(plan: Plan, j: nat)
    requires j < |plan.lines|
  {
    plan.lines[j].condition.Some? || exists status :: Judge(plan, j, status, true) == Proceed
  }

  ghost predicate Passable(plan: Plan, i: nat) {
    forall j {:trigger MayPass(plan, j)} :: 0 <= j < i && j < |plan.lines| ==> MayPass(plan, j)
  }

  /** In a nested run line `i` can be reached before `prevent_plan_recursion` is set on the plan.  Running the first
      line sets it for the lines after it, skipping the first line does not. */
  ghost predicate Unguarded(plan: Plan, i: nat)
    requires i < |plan.lines|
  {
    i == 0 || (plan.lines[0].condition.Some? && Passable(plan, i))
  }

  /** Nothing keeps line `i` of a nested run of plan `p` from starting a further run of a running plan: neither the
      plan nor the command is limited to one run, and `prevent_plan_recursion` is not yet set. */
  ghost predicate Unprotected(e: Env, p: PlanId, i: nat)
    requires Resolved(e) && p in e.plans && i < |e.plans[p].lines|
  {
    assert Runnable(e, e.plans[p].lines[i].command);
    var command := e.commands[e.plans[p].lines[i].command];
    && command.runner.Nested? && command.compatible && command.allowParallelRun
    && e.plans[command.runner.plan].allowParallelRun
    && Unguarded(e.plans[p], i)
  }

  ghost predicate CallFalls(e: Env, rank: PlanId -> nat, p: PlanId, i: nat)
    requires Resolved(e) && p in e.plans && i < |e.plans[p].lines|
  {
    Unprotected(e, p, i) ==> rank(e.commands[e.plans[p].lines[i].command].runner.plan) < rank(p)
  }

  ghost predicate CallsFall(e: Env, rank: PlanId -> nat)
    requires Resolved(e)
  {
    forall p, i {:trigger CallFalls(e, rank, p, i)} ::
      p in e.plans && 0 <= i < |e.plans[p].lines| ==> CallFalls(e, rank, p, i)
  }

  /** Unprotected calls go down in some rank of the plans: they form no cycle. */
  ghost predicate WellFormed(e: Env) {
    Resolved(e) && exists rank :: CallsFall(e, rank)
  }

  ghost function Ranking(e: Env): (rank: PlanId -> nat)
    requires WellFormed(e)
    ensures CallsFall(e, rank)
  {
    var rank :| CallsFall(e, rank);
    rank
  }

  ghost function Rank(e: Env, p: PlanId): nat
    requires WellFormed(e)
  {
    Ranking(e)(p)
  }

  lemma RankFalls(e: Env, p: PlanId, i: nat)
    requires WellFormed(e) && p in e.plans && i < |e.plans[p].lines| && Unprotected(e, p, i)
    ensures Rank(e, e.commands[e.plans[p].lines[i].command].runner.plan) < Rank(e, p)
  {
    assert CallFalls(e, Ranking(e), p, i);
  }

  // --- Log records -------------------------------------------------------------------------

  predicate EndsWith(w: World, event: Event) {
    w.history != [] && w.history[|w.history| - 1] == event
  }

  predicate CommandRunning(w: World, command: CommandId) {
    exists i :: 0 <= i < |w.commandLogs| && w.commandLogs[i].running && w.commandLogs[i].command == command
  }

  predicate PlanRunning(w: World, plan: PlanId) {
    exists i :: 0 <= i < |w.planLogs| && w.planLogs[i].running && w.planLogs[i].plan == plan
  }

  predicate LineExecutable(e: Env, check: Check, line: Line, vars: Values, custom: Values) {
    line.condition.None? || e.oracle.holds(check, line.condition.value, vars, custom)
  }

  // Exit code for a command that is refused before it starts.
  function Refusal(e: Env, w: World, command: CommandId): Option<int>
    requires command in e.commands
  {
    if !e.commands[command].compatible then Some(COMMAND_NOT_COMPATIBLE_WITH_SERVER)
    else if !e.commands[command].allowParallelRun && CommandRunning(w, command) then Some(ANOTHER_COMMAND_RUNNING)
    else None
  }

  // A plan must wait for its other runs unless it allows parallel runs; a run under
  // `prevent_plan_recursion` never may.
  predicate PlanAdmitted(e: Env, w: World, plan: PlanId, ctx: Context)
    requires plan in e.plans
  {
    (e.plans[plan].allowParallelRun && !ctx.plan) || !PlanRunning(w, plan)
  }

  function StartCommandLog(w: World, command: CommandId, pl: nat, custom: Values): World {
    w.(commandLogs := w.commandLogs + [CommandLog(command, pl, true, 0, false, custom)],
       history := w.history + [CommandStarted(|w.commandLogs|)])
  }

  function RecordCommandLog(w: World, command: CommandId, pl: nat, status: int, skipped: bool, custom: Values): World {
    w.(commandLogs := w.commandLogs + [CommandLog(command, pl, false, status, skipped, custom)],
       history := w.history + [CommandRecorded(|w.commandLogs|)])
  }

  function FinishCommandLog(w: World, id: nat, status: int, custom: Values): World
    requires id < |w.commandLogs|
  {
    w.(commandLogs := w.commandLogs[id := w.commandLogs[id].(running := false, status := status, custom := custom)],
       history := w.history + [CommandFinished(id)])
  }

  function StartPlanLog(w: World, plan: PlanId, parent: Option<nat>, custom: Values): World {
    w.(planLogs := w.planLogs + [PlanLog(plan, parent, true, false, 0, None, custom)],
       history := w.history + [PlanStarted(|w.planLogs|)])
  }

  function RecordPlanLog(w: World, plan: PlanId, parent: Option<nat>, status: int): World {
    w.(planLogs := w.planLogs + [PlanLog(plan, parent, false, false, status, None, map[])],
       history := w.history + [PlanRecorded(|w.planLogs|)])
  }

  function FinishPlanLog(w: World, pl: nat, status: int, stopped: bool): World
    requires pl < |w.planLogs|
  {
    w.(planLogs := w.planLogs[pl := w.planLogs[pl].(running := false, status := status,
                                                   stopped := stopped || w.planLogs[pl].stopped)],
       history := w.history + [PlanFinished(pl)])
  }

  function SetLine(w: World, pl: nat, i: nat): World
    requires pl < |w.planLogs|
  {
    w.(planLogs := w.planLogs[pl := w.planLogs[pl].(line := Some(i))])
  }

  function SetCustom(w: World, pl: nat, custom: Values): World
    requires pl < |w.planLogs|
  {
    w.(planLogs := w.planLogs[pl := w.planLogs[pl].(custom := custom)])
  }

  // --- What happens after a line -----------------------------------------------------------

  // Either the next line of the plan comes, or the plan log finishes with `status`.
  datatype Verdict = Proceed | Finish(status: int)

  // The first action whose condition the exit code meets.
  function FirstMatch(actions: seq<LineAction>, exitCode: int): Option<LineAction> {
    if actions == [] then None
    else if actions[0].Matches(exitCode) then Some(actions[0])
    else FirstMatch(actions[1..], exitCode)
  }

  function Assign(vars: Values, values: seq<(string, string)>): Values
    decreases |values|
  {
    if values == [] then vars else Assign(vars[values[0].0 := values[0].1], values[1..])
  }

  // A plan log never reports the code of a failed condition check: it counts as success.
  function Reported(status: int): int {
    if status == PLAN_LINE_CONDITION_CHECK_FAILED then 0 else status
  }

  function GoOn(plan: Plan, i: nat, code: int): Verdict {
    if i == |plan.lines| - 1 then Finish(Reported(code)) else Proceed
  }

  /** The rule for line `i` of a plan, once its command ended with `status`: a line whose condition
      does not hold (any more) is passed over; otherwise the first matching action decides, and
      without one the plan goes on after success and falls back to its on-error rule after failure.
      After the last line the plan finishes in any case. */
  function Judge(plan: Plan, i: nat, status: int, executable: bool): Verdict
    requires i < |plan.lines|
  {
    if !executable then GoOn(plan, i, 0)
    else match FirstMatch(plan.lines[i].actions, status)
      case Some(a) =>
        (match a.kind
         case Next => GoOn(plan, i, status)
         case Exit => Finish(Reported(status))
         case ExitCustom => Finish(Reported(if a.customExitCode != 0 then a.customExitCode else status)))
      case None =>
        if status == 0 then GoOn(plan, i, 0)
        else match plan.onError
          case Next => GoOn(plan, i, status)
          case Exit => Finish(Reported(status))
          case ExitCustom => Finish(Reported(plan.customExitCode))
  }

  // Server variables after the rule for a line has been applied.
  function VarsAfter(vars: Values, line: Line, status: int, executable: bool): Values {
    if !executable then vars
    else match FirstMatch(line.actions, status)
      case Some(a) => Assign(vars, a.variableValues)
      case None => vars
  }
}
