/** What the rule after a line comes to, told by the logs and the exit codes they hold: which line ends a run, with
    which code, and what the server variables are then. */
module PlanVerdict {
  import opened Basics
  import opened FlightPlan
  import opened PlanLoop
  import opened PlanTrace

  // --- The rule by comparing integers --------------------------------------------------------

  ghost predicate Meets(a: LineAction, code: int) {
    && (a.condition == Equal ==> code == a.value)
    && (a.condition == NotEqual ==> code < a.value || a.value < code)
    && (a.condition == Greater ==> a.value < code)
    && (a.condition == GreaterEqual ==> a.value <= code)
    && (a.condition == Less ==> code < a.value)
    && (a.condition == LessEqual ==> code <= a.value)
  }

  /** Action `k` is the first one that the exit code meets. */
  ghost predicate Decides(actions: seq<LineAction>, code: int, k: int) {
    0 <= k < |actions| && Meets(actions[k], code) && forall j :: 0 <= j < k ==> !Meets(actions[j], code)
  }

  ghost predicate NoneMeets(actions: seq<LineAction>, code: int) {
    forall j :: 0 <= j < |actions| ==> !Meets(actions[j], code)
  }

  /** After this exit code the plan goes on: the action that decides says so; without one, the command succeeded, or the
      plan goes on after errors. */
  ghost predicate LetsGoOn(plan: Plan, i: nat, code: int)
    requires i < |plan.lines|
  {
    var actions := plan.lines[i].actions;
    || (exists k :: Decides(actions, code, k) && actions[k].kind == Next)
    || (NoneMeets(actions, code) && (code == 0 || plan.onError == Next))
  }

  // A condition that failed counts as success.
  function Shown(code: int): int {
    if code == -205 then 0 else code
  }

  /** If the plan ends with this line, its log gets `status`: the exit code, or the custom code of the action that
      decides, or after an error that no action meets, the custom code of the plan. */
  ghost predicate EndCode(plan: Plan, i: nat, code: int, status: int)
    requires i < |plan.lines|
  {
    var actions := plan.lines[i].actions;
    && (forall k :: Decides(actions, code, k) ==>
          status == Shown(if actions[k].kind == ExitCustom && actions[k].customExitCode != 0
                          then actions[k].customExitCode else code))
    && (NoneMeets(actions, code) ==>
          status == Shown(if code != 0 && plan.onError == ExitCustom then plan.customExitCode else code))
  }

  ghost predicate Names(values: seq<(string, string)>, x: string) {
    exists j :: 0 <= j < |values| && values[j].0 == x
  }

  // Pair `j` is the last one for its name.
  ghost predicate Last(values: seq<(string, string)>, j: int) {
    0 <= j < |values| && forall l :: j < l < |values| ==> values[l].0 != values[j].0
  }

  /** `after` is `before` with these values written over it, a later one over an earlier one. */
  ghost predicate Overlaid(before: Values, values: seq<(string, string)>, after: Values) {
    && (forall x :: x in after <==> x in before || Names(values, x))
    && (forall x :: x in before && !Names(values, x) ==> after[x] == before[x])
    && (forall j {:trigger Last(values, j)} :: Last(values, j) ==>
          Names(values, values[j].0) && after[values[j].0] == values[j].1)
  }

  lemma MeetsIsMatches(a: LineAction, code: int)
    ensures Meets(a, code) <==> a.Matches(code)
  {
  }

  lemma {:induction false} FirstMatchDecides(actions: seq<LineAction>, code: int)
    ensures FirstMatch(actions, code).None? <==> NoneMeets(actions, code)
    ensures FirstMatch(actions, code).Some? ==>
              exists k :: Decides(actions, code, k) && FirstMatch(actions, code) == Some(actions[k])
  {
    if actions != [] {
      MeetsIsMatches(actions[0], code);
      FirstMatchDecides(actions[1..], code);
      if actions[0].Matches(code) {
        assert Decides(actions, code, 0);
      } else if FirstMatch(actions[1..], code).Some? {
        var k :| Decides(actions[1..], code, k) && FirstMatch(actions[1..], code) == Some(actions[1..][k]);
        assert Decides(actions, code, k + 1) by {
          assert forall j :: 0 < j < k + 1 ==> actions[j] == actions[1..][j - 1];
        }
      } else {
        assert forall j :: 0 < j < |actions| ==> actions[j] == actions[1..][j - 1];
      }
    }
  }

  lemma DecidesOnce(actions: seq<LineAction>, code: int, k: int, l: int)
    requires Decides(actions, code, k) && Decides(actions, code, l)
    ensures k == l
  {
  }

  lemma {:induction false} AssignOverlays(before: Values, values: seq<(string, string)>)
    ensures Overlaid(before, values, Assign(before, values))
    decreases |values|
  {
    if values != [] {
      var first := before[values[0].0 := values[0].1];
      AssignOverlays(first, values[1..]);
      OverlaidMore(before, values, Assign(before, values));
    }
  }

  lemma NamesMore(values: seq<(string, string)>, x: string)
    requires values != []
    ensures Names(values, x) <==> values[0].0 == x || Names(values[1..], x)
  {
    if j :| 0 <= j < |values| && values[j].0 == x {
      assert j > 0 ==> values[1..][j - 1] == values[j];
    }
    if j :| 0 <= j < |values[1..]| && values[1..][j].0 == x {
      assert values[j + 1].0 == x;
    }
  }

  lemma LastMore(values: seq<(string, string)>, j: int)
    requires Last(values, j)
    ensures j > 0 ==> Last(values[1..], j - 1) && values[1..][j - 1] == values[j]
    ensures j == 0 ==> !Names(values[1..], values[0].0)
  {
    assert forall l :: 0 <= l < |values| - 1 ==> values[1..][l] == values[l + 1];
  }

  lemma OverlaidMore(before: Values, values: seq<(string, string)>, after: Values)
    requires values != [] && Overlaid(before[values[0].0 := values[0].1], values[1..], after)
    ensures Overlaid(before, values, after)
  {
    hide Names, Last;
    var first := before[values[0].0 := values[0].1];
    forall x
      ensures x in after <==> x in before || Names(values, x)
      ensures x in before && !Names(values, x) ==> after[x] == before[x]
    {
      NamesMore(values, x);
    }
    forall j | Last(values, j)
      ensures 0 <= j < |values| && Names(values, values[j].0) && values[j].0 in after
      ensures after[values[j].0] == values[j].1
    {
      LastInRange(values, j);
      NamesMore(values, values[j].0);
      LastMore(values, j);
    }
  }

  lemma LastInRange(values: seq<(string, string)>, j: int)
    requires Last(values, j)
    ensures 0 <= j < |values| && Names(values, values[j].0)
  {
  }

  // --- What comes after a line ---------------------------------------------------------------

  // `executable`: the condition of the line still holds.
  ghost predicate Passes(plan: Plan, i: nat, code: int, executable: bool) {
    i + 1 < |plan.lines| && (executable ==> LetsGoOn(plan, i, code))
  }

  ghost predicate EndsRun(plan: Plan, i: nat, code: int, executable: bool, status: int)
    requires i < |plan.lines|
  {
    if executable then (i == |plan.lines| - 1 || !LetsGoOn(plan, i, code)) && EndCode(plan, i, code, status)
    else i == |plan.lines| - 1 && status == 0
  }

  /** The variables are those that the command left, with the values of the action that decides written over them. */
  ghost predicate WritesValues(line: Line, code: int, executable: bool, left: Values, after: Values) {
    && (forall k :: executable && Decides(line.actions, code, k) ==>
          Overlaid(left, line.actions[k].variableValues, after))
    && (!executable || NoneMeets(line.actions, code) ==> after == left)
  }

  lemma RuleTold(plan: Plan, i: nat, code: int, executable: bool, vars: Values)
    requires i < |plan.lines|
    ensures Judge(plan, i, code, executable) == Proceed ==> Passes(plan, i, code, executable)
    ensures Judge(plan, i, code, executable).Finish? ==>
              EndsRun(plan, i, code, executable, Judge(plan, i, code, executable).status)
    ensures WritesValues(plan.lines[i], code, executable, vars, VarsAfter(vars, plan.lines[i], code, executable))
  {
    hide Overlaid, Meets;
    var actions := plan.lines[i].actions;
    FirstMatchDecides(actions, code);
    if FirstMatch(actions, code).Some? {
      var k :| Decides(actions, code, k) && FirstMatch(actions, code) == Some(actions[k]);
      AssignOverlays(vars, actions[k].variableValues);
      forall l | Decides(actions, code, l)
        ensures l == k
      {
        DecidesOnce(actions, code, k, l);
      }
    }
  }

  // --- A run without nested plans ------------------------------------------------------------

  /** No line runs a plan. */
  ghost predicate Flat(e: Env, plan: Plan) {
    forall i :: 0 <= i < |plan.lines| ==>
      plan.lines[i].command in e.commands && !e.commands[plan.lines[i].command].runner.Nested?
  }

  /** What the log of a line holds, and the variables `left` when it is over.  `vars` and `custom` are the variables and
      the custom values before it, `busy` says that its command is running elsewhere. */
  ghost predicate LineLogged(e: Env, line: Line, id: nat, vars: Values, custom: Values, busy: bool, log: CommandLog,
                             left: Values)
    requires line.command in e.commands
  {
    if line.condition.Some? && !e.oracle.holds(First(id), line.condition.value, vars, custom) then
      log.command == line.command && log.skipped && log.status == -205 && log.custom == map[] && left == vars
    else CommandLogged(e, line.command, id, vars, custom, busy, log, left)
  }

  ghost predicate CommandLogged(e: Env, id: CommandId, x: nat, vars: Values, custom: Values, busy: bool,
                                log: CommandLog, left: Values)
    requires id in e.commands
  {
    var command := e.commands[id];
    && log.command == id && !log.skipped
    && if !command.compatible then log.status == -207 && log.custom == custom && left == vars
       else if !command.allowParallelRun && busy then log.status == -201 && log.custom == custom && left == vars
       else if command.runner.Missing? then log.status == -202 && log.custom == custom && left == vars
       else
         var r := e.oracle.outcome(x, id, vars, custom);
         log.status == r.status && left == r.vars && log.custom == if r.custom.Some? then r.custom.value else custom
  }

  // Whether the condition of a line still holds after its command.
  ghost predicate StillHolds(e: Env, line: Line, id: nat, left: Values, custom: Values) {
    line.condition.Some? ==> e.oracle.holds(Again(id), line.condition.value, left, custom)
  }

  // Before each line and at the end: the server variables.  After each command: those it left.
  datatype Course = Course(vars: seq<Values>, left: seq<Values>)

  /** `w'` is `w` after a run of the plan of log `pl` from line `i` on, which started with the custom values `custom`.
      It passed |c.left| lines. */
  ghost predicate RunsFrom(e: Env, w: World, w': World, plan: Plan, pl: nat, i: nat, custom: Values, c: Course) {
    var n, base := |c.left|, |w.commandLogs|;
    && 0 < n <= |plan.lines| - i && |c.vars| == n + 1 && c.vars[0] == w.vars && w'.vars == c.vars[n]
    && |w'.commandLogs| == base + n && w.commandLogs <= w'.commandLogs
    && pl < |w.planLogs| == |w'.planLogs|
    && w'.planLogs == w.planLogs[pl := w.planLogs[pl].(running := false, line := Some(i + n - 1),
                                                       status := w'.planLogs[pl].status,
                                                       custom := w'.commandLogs[base + n - 1].custom)]
    && (forall j :: 0 <= j < n ==> LineTold(e, w, w', plan, pl, i, custom, c, j))
    && EndsRun(plan, i + n - 1, w'.commandLogs[base + n - 1].status,
               StillHolds(e, plan.lines[i + n - 1], base + n - 1, c.left[n - 1], w'.commandLogs[base + n - 1].custom),
               w'.planLogs[pl].status)
  }

  // The `j`-th of these lines: its log, the values it wrote, and unless it is the last, that the plan went on.
  ghost predicate LineTold(e: Env, w: World, w': World, plan: Plan, pl: nat, i: nat, custom: Values, c: Course, j: nat)
    requires j < |c.left| <= |plan.lines| - i && |c.vars| == |c.left| + 1
    requires |w'.commandLogs| == |w.commandLogs| + |c.left|
  {
    var id, line := |w.commandLogs| + j, plan.lines[i + j];
    var log := w'.commandLogs[id];
    var before := if j == 0 then custom else w'.commandLogs[id - 1].custom;
    var executable := StillHolds(e, line, id, c.left[j], log.custom);
    && line.command in e.commands && log.planLog == pl && !log.running
    && LineLogged(e, line, id, c.vars[j], before, CommandRunning(w, line.command), log, c.left[j])
    && WritesValues(line, log.status, executable, c.left[j], c.vars[j + 1])
    && (j < |c.left| - 1 ==> Passes(plan, i + j, log.status, executable))
  }

  // One line, up to the rule that follows it.
  lemma FlatLine(e: Env, w: World, pl: nat, i: nat, custom: Values, ctx: Context)
    returns (w1: World, ctx1: Context)
    requires WellFormed(e) && OpenPlanLog(e, w.planLogs, pl)
    requires i < |e.plans[w.planLogs[pl].plan].lines| && InCourse(e, w.planLogs[pl], i, ctx)
    requires Flat(e, e.plans[w.planLogs[pl].plan])
    ensures Executed(e, w1, |w.commandLogs|, ctx1)
    ensures LineRun(e, w, pl, i, custom, ctx) == After(e, w1, |w.commandLogs|, ctx1)
    ensures w1.planLogs == SetLine(w, pl, i).planLogs && |w1.commandLogs| == |w.commandLogs| + 1
    ensures w.commandLogs <= w1.commandLogs && w1.commandLogs[|w.commandLogs|].planLog == pl
    ensures var line := e.plans[w.planLogs[pl].plan].lines[i];
            && line.command in e.commands && !w1.commandLogs[|w.commandLogs|].running
            && LineLogged(e, line, |w.commandLogs|, w.vars, custom, CommandRunning(w, line.command),
                          w1.commandLogs[|w.commandLogs|], w1.vars)
  {
    hide IdleBut, InCourse, PastLine, After, WellFormed;
    var line := e.plans[w.planLogs[pl].plan].lines[i];
    if LineExecutable(e, First(|w.commandLogs|), line, w.vars, custom) {
      LineReached(e, w, pl, i, ctx);
      ctx1 := Context(ctx.server, ctx.server);
      w1 := CommandDone(e, SetLine(w, pl, i), line.command, pl, custom, ctx);
      PastAfterLine(e, SetLine(w, pl, i).planLogs[pl], i, ctx);
      FlatCommand(e, SetLine(w, pl, i), line.command, pl, custom, ctx);
      assert LineRun(e, w, pl, i, custom, ctx) == CommandRun(e, SetLine(w, pl, i), line.command, pl, custom, ctx);
    } else {
      SkippingExecutes(e, w, pl, i, custom, ctx);
      ctx1 := Context(ctx.plan, ctx.plan);
      w1 := Skipped(e, w, pl, i);
    }
  }

  lemma FlatCommand(e: Env, w: World, command: CommandId, pl: nat, custom: Values, ctx: Context)
    requires WellFormed(e) && AtCommand(e, w.planLogs, pl, command)
    requires InCourse(e, w.planLogs[pl], w.planLogs[pl].line.value, ctx)
    requires command in e.commands && !e.commands[command].runner.Nested?
    ensures var w1 := CommandDone(e, w, command, pl, custom, ctx);
            && w1.planLogs == w.planLogs && |w1.commandLogs| == |w.commandLogs| + 1
            && w.commandLogs <= w1.commandLogs && w1.commandLogs[|w.commandLogs|].planLog == pl
            && !w1.commandLogs[|w.commandLogs|].running
            && CommandLogged(e, command, |w.commandLogs|, w.vars, custom, CommandRunning(w, command),
                             w1.commandLogs[|w.commandLogs|], w1.vars)
  {
    hide IdleBut, InCourse, PastLine;
    assert Runnable(e, command);
    if Refusal(e, w, command).None? {
      StartedIsExecutable(e, w, command, pl, custom, ctx);
      FlatExecute(e, StartCommandLog(w, command, pl, custom), |w.commandLogs|, ctx);
      assert CommandDone(e, w, command, pl, custom, ctx) == AdmittedCommandDone(e, w, command, pl, custom, ctx);
    }
  }

  lemma FlatExecute(e: Env, w: World, id: nat, ctx: Context)
    requires WellFormed(e) && Executable(e, w, id, ctx) && !e.commands[w.commandLogs[id].command].runner.Nested?
    ensures var w1, log := Execute(e, w, id, ctx), w.commandLogs[id];
            var r := e.oracle.outcome(id, log.command, w.vars, log.custom);
            && w1.planLogs == w.planLogs
            && if e.commands[log.command].runner.Missing? then
                 w1.vars == w.vars && w1.commandLogs == w.commandLogs[id := log.(running := false, status := -202)]
               else
                 && w1.vars == r.vars
                 && w1.commandLogs == w.commandLogs[id := log.(running := false, status := r.status,
                      custom := if r.custom.Some? then r.custom.value else log.custom)]
  {
  }

  // The rule that follows it.
  lemma FlatRule(e: Env, w: World, id: nat, ctx: Context) returns (w2: World)
    requires WellFormed(e) && Executed(e, w, id, ctx)
    ensures var log := w.commandLogs[id];
            var pl := log.planLog;
            var i := w.planLogs[pl].line.value;
            var plan := e.plans[w.planLogs[pl].plan];
            var executable := StillHolds(e, plan.lines[i], id, w.vars, log.custom);
            && w2 == SetCustom(w, pl, log.custom).(vars := w2.vars)
            && WritesValues(plan.lines[i], log.status, executable, w.vars, w2.vars)
            && ((&& Passes(plan, i, log.status, executable) && i + 1 < |plan.lines|
                 && OpenPlanLog(e, w2.planLogs, pl) && InCourse(e, w2.planLogs[pl], i + 1, ctx)
                 && After(e, w, id, ctx) == LineRun(e, w2, pl, i + 1, log.custom, ctx))
                || exists status :: && EndsRun(plan, i, log.status, executable, status)
                                    && After(e, w, id, ctx) == FinishPlanLog(w2, pl, status, false))
  {
    hide IdleBut, LineRun, Judge, WellFormed, Passes, EndsRun, WritesValues;
    var log := w.commandLogs[id];
    var pl := log.planLog;
    var i := w.planLogs[pl].line.value;
    var plan := e.plans[w.planLogs[pl].plan];
    var w1 := SetCustom(w, pl, log.custom);
    var executable := StillExecutable(e, w1, id);
    RuleTold(plan, i, log.status, executable, w.vars);
    w2 := Ruled(e, w1, id);
    assert After(e, w, id, ctx) == Follow(e, w1, id, ctx);
    if LineVerdict(e, w1, id) == Proceed {
      FollowGoesOn(e, w1, id, ctx);
    } else {
      FollowFinishes(e, w1, id, ctx);
      assert EndsRun(plan, i, log.status, executable, LineVerdict(e, w1, id).status);
    }
  }

  // A line before a run from the next one.
  function Before(vars: Values, left: Values, c: Course): Course {
    Course([vars] + c.vars, [left] + c.left)
  }

  lemma SameBusy(w: World, w2: World, log: CommandLog, command: CommandId)
    requires w2.commandLogs == w.commandLogs + [log] && !log.running
    ensures CommandRunning(w2, command) <==> CommandRunning(w, command)
  {
    if CommandRunning(w, command) {
      var i :| 0 <= i < |w.commandLogs| && w.commandLogs[i].running && w.commandLogs[i].command == command;
      assert w2.commandLogs[i] == w.commandLogs[i];
    }
  }

  // What the first of the lines, which passes, does to `w`.
  ghost predicate FirstTold(e: Env, w: World, w2: World, plan: Plan, pl: nat, i: nat, custom: Values, left: Values) {
    var id := |w.commandLogs|;
    && pl < |w.planLogs| && i < |plan.lines| && |w2.commandLogs| == id + 1 && w.commandLogs <= w2.commandLogs
    && var line, log := plan.lines[i], w2.commandLogs[id];
    && w2.planLogs == w.planLogs[pl := w.planLogs[pl].(line := Some(i), custom := log.custom)]
    && line.command in e.commands && log.planLog == pl && !log.running
    && LineLogged(e, line, id, w.vars, custom, CommandRunning(w, line.command), log, left)
    && WritesValues(line, log.status, StillHolds(e, line, id, left, log.custom), left, w2.vars)
    && Passes(plan, i, log.status, StillHolds(e, line, id, left, log.custom))
  }

  lemma MoreTold(e: Env, w: World, w2: World, w': World, plan: Plan, pl: nat, i: nat, custom: Values, left: Values,
                 c: Course, j: nat)
    requires FirstTold(e, w, w2, plan, pl, i, custom, left)
    requires RunsFrom(e, w2, w', plan, pl, i + 1, w2.commandLogs[|w.commandLogs|].custom, c) && j <= |c.left|
    ensures LineTold(e, w, w', plan, pl, i, custom, Before(w.vars, left, c), j)
  {
    hide LineLogged, WritesValues, Passes, EndsRun, StillHolds;
    var log := w2.commandLogs[|w.commandLogs|];
    var c' := Before(w.vars, left, c);
    assert w2.commandLogs == w.commandLogs + [log];
    assert w'.commandLogs[|w.commandLogs|] == log;
    if j > 0 {
      assert LineTold(e, w2, w', plan, pl, i + 1, log.custom, c, j - 1);
      SameBusy(w, w2, log, plan.lines[i + j].command);
    }
  }

  lemma RunsFromMore(e: Env, w: World, w2: World, w': World, plan: Plan, pl: nat, i: nat, custom: Values, left: Values,
                     c: Course)
    requires FirstTold(e, w, w2, plan, pl, i, custom, left)
    requires RunsFrom(e, w2, w', plan, pl, i + 1, w2.commandLogs[|w.commandLogs|].custom, c)
    ensures RunsFrom(e, w, w', plan, pl, i, custom, Before(w.vars, left, c))
  {
    hide LineLogged, WritesValues, Passes, EndsRun, StillHolds, LineTold;
    var c' := Before(w.vars, left, c);
    forall j: nat | j < |c'.left|
      ensures LineTold(e, w, w', plan, pl, i, custom, c', j)
    {
      MoreTold(e, w, w2, w', plan, pl, i, custom, left, c, j);
    }
    assert c'.left[|c'.left| - 1] == c.left[|c.left| - 1];
  }

  lemma {:induction false} FlatRunsFrom(e: Env, w: World, pl: nat, i: nat, custom: Values, ctx: Context)
    returns (c: Course)
    requires WellFormed(e) && OpenPlanLog(e, w.planLogs, pl)
    requires i < |e.plans[w.planLogs[pl].plan].lines| && InCourse(e, w.planLogs[pl], i, ctx)
    requires Flat(e, e.plans[w.planLogs[pl].plan])
    ensures RunsFrom(e, w, LineRun(e, w, pl, i, custom, ctx), e.plans[w.planLogs[pl].plan], pl, i, custom, c)
    decreases |e.plans[w.planLogs[pl].plan].lines| - i
  {
    hide IdleBut, InCourse, PastLine, After, WellFormed, LineRun, LineLogged, WritesValues, EndsRun, Passes, Flat;
    var plan, id := e.plans[w.planLogs[pl].plan], |w.commandLogs|;
    var w1, ctx1 := FlatLine(e, w, pl, i, custom, ctx);
    var w2 := FlatRule(e, w1, id, ctx1);
    var log := w1.commandLogs[id];
    if status :| && EndsRun(plan, i, log.status, StillHolds(e, plan.lines[i], id, w1.vars, log.custom), status)
                 && LineRun(e, w, pl, i, custom, ctx) == FinishPlanLog(w2, pl, status, false) {
      c := Course([w.vars, w2.vars], [w1.vars]);
      assert LineTold(e, w, FinishPlanLog(w2, pl, status, false), plan, pl, i, custom, c, 0);
    } else {
      var rest := FlatRunsFrom(e, w2, pl, i + 1, log.custom, ctx1);
      c := Before(w.vars, w1.vars, rest);
      RunsFromMore(e, w, w2, LineRun(e, w, pl, i, custom, ctx), plan, pl, i, custom, w1.vars, rest);
    }
  }

  // --- Main results --------------------------------------------------------------------------

  /** What a run of a plan that calls no other leaves: a refusal, a failure for want of lines, or the logs of the lines
      up to the first one that ends it.  `prevent` says that the run may not stand beside another one of the plan; a
      called plan is not checked against the server. */
  ghost predicate RunTold(e: Env, w: World, w': World, id: PlanId, parent: Option<nat>, custom: Values, prevent: bool)
    requires id in e.plans
  {
    var plan, pl := e.plans[id], |w.planLogs|;
    && |w'.planLogs| == pl + 1 && w'.planLogs[..pl] == w.planLogs
    && var log := w'.planLogs[pl];
    && log.plan == id && log.parent == parent && !log.running && !log.stopped
    && if parent.None? && !plan.compatible then Refused(w, w') && log.status == -306
       else if (!plan.allowParallelRun || prevent) && PlanRunning(w, id) then Refused(w, w') && log.status == -301
       else if plan.lines == [] then Refused(w, w') && log.status == -302
       else RunsFromStart(e, StartPlanLog(w, id, parent, custom), w', plan, pl, custom)
  }

  ghost predicate RunsFromStart(e: Env, w: World, w': World, plan: Plan, pl: nat, custom: Values) {
    exists c :: RunsFrom(e, w, w', plan, pl, 0, custom, c)
  }

  ghost predicate Refused(w: World, w': World) {
    w'.vars == w.vars && w'.commandLogs == w.commandLogs
  }

  lemma FlatRunTold(e: Env, w: World, plan: PlanId, parent: Option<nat>, custom: Values, ctx: Context)
    requires WellFormed(e) && plan in e.plans && Flat(e, e.plans[plan]) && (parent.Some? ==> ctx.server)
    ensures RunTold(e, w, PlanRun(e, w, plan, parent, custom, ctx), plan, parent, custom, ctx.plan)
  {
    hide LineRun, LineTold, EndsRun, WellFormed, InCourse, IdleBut, Flat, StillHolds;
    if (parent.Some? || e.plans[plan].compatible) && PlanAdmitted(e, w, plan, ctx) && e.plans[plan].lines != [] {
      var w1 := StartPlanLog(w, plan, parent, custom);
      StartedOpens(e, w, plan, parent, custom, ctx);
      var c := FlatRunsFrom(e, w1, |w.planLogs|, 0, custom, ctx);
    }
  }

  /** A command that calls such a plan: the run starts with the custom values of its log, under its context, and then
      the log takes over the status and the custom values of the plan log. */
  lemma CalledRunTold(e: Env, w: World, id: nat, ctx: Context)
    requires WellFormed(e) && Executable(e, w, id, ctx)
    requires e.commands[w.commandLogs[id].command].runner.Nested?
    requires Flat(e, e.plans[e.commands[w.commandLogs[id].command].runner.plan])
    ensures var w', log, n := Execute(e, w, id, ctx), w.commandLogs[id], |w.planLogs|;
            && id < |w'.commandLogs| && n < |w'.planLogs|
            && w'.commandLogs[id] == log.(running := false, status := w'.planLogs[n].status,
                                          custom := w'.planLogs[n].custom)
            && RunTold(e, w, w'.(commandLogs := w'.commandLogs[id := log]), e.commands[log.command].runner.plan,
                       Some(log.planLog), log.custom, ctx.plan)
  {
    hide PlanRun, RunTold, Flat, InCourse, IdleBut, MayStart;
    var log := w.commandLogs[id];
    var q := e.commands[log.command].runner.plan;
    var w1 := PlanRun(e, w, q, Some(log.planLog), log.custom, Context(ctx.plan, true));
    FlatRunTold(e, w, q, Some(log.planLog), log.custom, Context(ctx.plan, true));
    var w' := Execute(e, w, id, ctx);
    assert w' == NestedExecution(w, id, w1);
    assert w'.commandLogs[id := log] == w1.commandLogs;
    SameTold(e, w, w1, w'.(commandLogs := w'.commandLogs[id := log]), q, Some(log.planLog), log.custom, ctx.plan);
  }

  // The order of log writes is not part of it.
  lemma SameTold(e: Env, w: World, w1: World, w2: World, id: PlanId, parent: Option<nat>, custom: Values,
                 prevent: bool)
    requires id in e.plans && RunTold(e, w, w1, id, parent, custom, prevent)
    requires w2 == w1.(history := w2.history)
    ensures RunTold(e, w, w2, id, parent, custom, prevent)
  {
    hide RunsFromStart, StartPlanLog;
    var plan, w0 := e.plans[id], StartPlanLog(w, id, parent, custom);
    if RunsFromStart(e, w0, w1, plan, |w.planLogs|, custom) {
      SameRunsFromStart(e, w0, w1, w2, plan, |w.planLogs|, custom);
    }
  }

  lemma SameRunsFromStart(e: Env, w: World, w1: World, w2: World, plan: Plan, pl: nat, custom: Values)
    requires RunsFromStart(e, w, w1, plan, pl, custom) && w2 == w1.(history := w2.history)
    ensures RunsFromStart(e, w, w2, plan, pl, custom)
  {
    hide RunsFrom;
    var c :| RunsFrom(e, w, w1, plan, pl, 0, custom, c);
    SameRunsFrom(e, w, w1, w2, plan, pl, custom, c);
  }

  lemma SameRunsFrom(e: Env, w: World, w1: World, w2: World, plan: Plan, pl: nat, custom: Values, c: Course)
    requires RunsFrom(e, w, w1, plan, pl, 0, custom, c) && w2 == w1.(history := w2.history)
    ensures RunsFrom(e, w, w2, plan, pl, 0, custom, c)
  {
    hide LineLogged, WritesValues, EndsRun, Passes;
    forall j | 0 <= j < |c.left|
      ensures LineTold(e, w, w2, plan, pl, 0, custom, c, j)
    {
      assert LineTold(e, w, w1, plan, pl, 0, custom, c, j);
    }
  }

  ghost predicate Unconditional(plan: Plan) {
    forall i :: 0 <= i < |plan.lines| ==> plan.lines[i].condition.None?
  }

  // The plan log of this run starts.
  ghost predicate Starts(e: Env, w: World, plan: PlanId)
    requires plan in e.plans
  {
    && e.plans[plan].compatible && e.plans[plan].lines != []
    && (e.plans[plan].allowParallelRun || !PlanRunning(w, plan))
  }

  /** `n` command logs were added, for the first lines of the plan: the plan went on after each but the last, and did
      not after the last, or there was no further line.  The plan log got the code that this line ends the plan with. */
  ghost predicate StopsAfter(w: World, w': World, plan: Plan, n: nat) {
    var base, pl := |w.commandLogs|, |w.planLogs|;
    && 0 < n <= |plan.lines| && |w'.commandLogs| == base + n && pl < |w'.planLogs|
    && (forall j :: 0 <= j < n ==> LinePassed(w, w', plan, n, j))
    && (LetsGoOn(plan, n - 1, w'.commandLogs[base + n - 1].status) ==> n == |plan.lines|)
    && EndCode(plan, n - 1, w'.commandLogs[base + n - 1].status, w'.planLogs[pl].status)
  }

  // The `j`-th command log added is that of line `j`, for the plan log added; before the last one the plan went on.
  ghost predicate LinePassed(w: World, w': World, plan: Plan, n: nat, j: nat) {
    && |w.commandLogs| + j < |w'.commandLogs| && j < |plan.lines|
    && var log := w'.commandLogs[|w.commandLogs| + j];
    && log.command == plan.lines[j].command && log.planLog == |w.planLogs|
    && (j < n - 1 ==> LetsGoOn(plan, j, log.status))
  }

  // Commands leave the server variables as they are.
  ghost predicate VariablesKept(e: Env) {
    forall id, command, vars, custom :: e.oracle.outcome(id, command, vars, custom).vars == vars
  }

  // One of the lines of such a run.
  lemma LineLeft(e: Env, w: World, w': World, plan: Plan, pl: nat, custom: Values, c: Course, j: nat)
    requires RunsFrom(e, w, w', plan, pl, 0, custom, c) && j < |c.left| && Unconditional(plan)
    ensures var log := w'.commandLogs[|w.commandLogs| + j];
            && log.command == plan.lines[j].command && log.planLog == pl
            && (j < |c.left| - 1 ==> LetsGoOn(plan, j, log.status))
    ensures plan.lines[j].condition.None? && plan.lines[j].command in e.commands
    ensures WritesValues(plan.lines[j], w'.commandLogs[|w.commandLogs| + j].status, true, c.left[j], c.vars[j + 1])
    ensures VariablesKept(e) ==> c.left[j] == c.vars[j]
  {
    hide WritesValues, EndsRun, LetsGoOn;
    assert LineTold(e, w, w', plan, pl, 0, custom, c, j) && plan.lines[j].condition.None?;
  }

  lemma LastLeft(e: Env, w: World, w': World, plan: Plan, pl: nat, custom: Values, c: Course)
    requires RunsFrom(e, w, w', plan, pl, 0, custom, c) && Unconditional(plan)
    ensures var n, code := |c.left|, w'.commandLogs[|w.commandLogs| + |c.left| - 1].status;
            && (LetsGoOn(plan, n - 1, code) ==> n == |plan.lines|)
            && EndCode(plan, n - 1, code, w'.planLogs[pl].status)
  {
    hide LineTold, LetsGoOn, EndCode;
    var n, id := |c.left|, |w.commandLogs| + |c.left| - 1;
    var log := w'.commandLogs[id];
    assert plan.lines[n - 1].condition.None?;
    assert EndsRun(plan, 0 + n - 1, log.status, StillHolds(e, plan.lines[0 + n - 1], id, c.left[n - 1], log.custom),
                   w'.planLogs[pl].status);
  }

  /** Main result: without conditions, a run stops after the first line whose exit code calls for it. */
  lemma StopsAtFirst(e: Env, w: World, plan: PlanId, custom: Values) returns (n: nat)
    requires WellFormed(e) && plan in e.plans && Flat(e, e.plans[plan]) && Unconditional(e.plans[plan])
    requires Starts(e, w, plan)
    ensures StopsAfter(w, PlanRun(e, w, plan, None, custom, NO_CONTEXT), e.plans[plan], n)
  {
    hide WellFormed, PlanRun, RunsFrom, LetsGoOn, EndCode;
    FlatRunTold(e, w, plan, None, custom, NO_CONTEXT);
    var w' := PlanRun(e, w, plan, None, custom, NO_CONTEXT);
    var w1 := StartPlanLog(w, plan, None, custom);
    var c :| RunsFrom(e, w1, w', e.plans[plan], |w.planLogs|, 0, custom, c);
    n := |c.left|;
    StopsAfterLast(e, w, w1, w', e.plans[plan], custom, c);
  }

  lemma StopsAfterLast(e: Env, w: World, w1: World, w': World, plan: Plan, custom: Values, c: Course)
    requires RunsFrom(e, w1, w', plan, |w.planLogs|, 0, custom, c) && Unconditional(plan)
    requires w1.commandLogs == w.commandLogs
    ensures StopsAfter(w, w', plan, |c.left|)
  {
    hide LineTold, LetsGoOn, EndCode, EndsRun, Unconditional;
    var n := |c.left|;
    forall j: nat | j < n
      ensures LinePassed(w, w', plan, n, j)
    {
      LineLeft(e, w1, w', plan, |w.planLogs|, custom, c, j);
    }
    LastLeft(e, w1, w', plan, |w.planLogs|, custom, c);
  }

  // --- The server variables ------------------------------------------------------------------

  // The values of the action that decides, if any.
  ghost function ValuesOf(line: Line, code: int): seq<(string, string)> {
    if k :| Decides(line.actions, code, k) then line.actions[k].variableValues else []
  }

  // Those of the first `n` lines, whose logs start at `base`.
  ghost function AllValues(plan: Plan, logs: seq<CommandLog>, base: nat, n: nat): seq<(string, string)>
    requires n <= |plan.lines| && base + n <= |logs|
  {
    if n == 0 then [] else AllValues(plan, logs, base, n - 1) + ValuesOf(plan.lines[n - 1], logs[base + n - 1].status)
  }

  lemma NamesJoined(xs: seq<(string, string)>, ys: seq<(string, string)>, x: string)
    ensures Names(xs + ys, x) <==> Names(xs, x) || Names(ys, x)
  {
    if j :| 0 <= j < |xs| && xs[j].0 == x {
      assert (xs + ys)[j].0 == x;
    }
    if j :| 0 <= j < |ys| && ys[j].0 == x {
      assert (xs + ys)[|xs| + j].0 == x;
    }
  }

  lemma LastJoined(xs: seq<(string, string)>, ys: seq<(string, string)>, j: int)
    requires Last(xs + ys, j)
    ensures j >= |xs| ==> Last(ys, j - |xs|) && ys[j - |xs|] == (xs + ys)[j]
    ensures j < |xs| ==> Last(xs, j) && !Names(ys, xs[j].0) && xs[j] == (xs + ys)[j]
  {
    var zs := xs + ys;
    assert forall l :: 0 <= l < |ys| ==> zs[|xs| + l] == ys[l];
    if j < |xs| {
      assert forall l :: j < l < |xs| ==> zs[l] == xs[l];
    }
  }

  lemma OverlaidTwice(a: Values, xs: seq<(string, string)>, b: Values, ys: seq<(string, string)>, c: Values)
    requires Overlaid(a, xs, b) && Overlaid(b, ys, c)
    ensures Overlaid(a, xs + ys, c)
  {
    hide Names, Last;
    forall x
      ensures x in c <==> x in a || Names(xs + ys, x)
      ensures x in a && !Names(xs + ys, x) ==> c[x] == a[x]
    {
      NamesJoined(xs, ys, x);
    }
    forall j | Last(xs + ys, j)
      ensures 0 <= j < |xs + ys| && Names(xs + ys, (xs + ys)[j].0) && (xs + ys)[j].0 in c
      ensures c[(xs + ys)[j].0] == (xs + ys)[j].1
    {
      LastInRange(xs + ys, j);
      LastJoined(xs, ys, j);
    }
  }

  lemma ValuesWritten(line: Line, code: int, left: Values, after: Values)
    requires WritesValues(line, code, true, left, after)
    ensures Overlaid(left, ValuesOf(line, code), after)
  {
    FirstMatchDecides(line.actions, code);
    if k :| Decides(line.actions, code, k) {
      forall l | Decides(line.actions, code, l)
        ensures l == k
      {
        DecidesOnce(line.actions, code, k, l);
      }
    }
  }

  lemma {:induction false} ValuesUpTo(e: Env, w: World, w': World, plan: Plan, pl: nat, custom: Values, c: Course,
                                      n: nat)
    requires RunsFrom(e, w, w', plan, pl, 0, custom, c) && n <= |c.left| && Unconditional(plan) && VariablesKept(e)
    ensures Overlaid(w.vars, AllValues(plan, w'.commandLogs, |w.commandLogs|, n), c.vars[n])
  {
    hide WritesValues, EndsRun, Overlaid, LetsGoOn, ValuesOf, LineTold;
    if n == 0 {
      NothingWritten(w.vars);
    } else {
      var line, id := plan.lines[n - 1], |w.commandLogs| + n - 1;
      ValuesUpTo(e, w, w', plan, pl, custom, c, n - 1);
      LineLeft(e, w, w', plan, pl, custom, c, n - 1);
      ValuesWritten(line, w'.commandLogs[id].status, c.left[n - 1], c.vars[n]);
      OverlaidTwice(w.vars, AllValues(plan, w'.commandLogs, |w.commandLogs|, n - 1), c.vars[n - 1],
                    ValuesOf(line, w'.commandLogs[id].status), c.vars[n]);
    }
  }

  lemma NothingWritten(vars: Values)
    ensures Overlaid(vars, [], vars)
  {
  }

  /** Main result: if the commands themselves leave the server variables alone, these hold afterwards the values of
      exactly the actions that matched, of the later ones over those of the earlier ones. */
  lemma MatchedValues(e: Env, w: World, plan: PlanId, custom: Values, n: nat)
    requires WellFormed(e) && plan in e.plans && Flat(e, e.plans[plan]) && Unconditional(e.plans[plan])
    requires Starts(e, w, plan) && VariablesKept(e)
    requires StopsAfter(w, PlanRun(e, w, plan, None, custom, NO_CONTEXT), e.plans[plan], n)
    ensures var w' := PlanRun(e, w, plan, None, custom, NO_CONTEXT);
            Overlaid(w.vars, AllValues(e.plans[plan], w'.commandLogs, |w.commandLogs|, n), w'.vars)
  {
    hide WellFormed, PlanRun, LineTold, LetsGoOn, EndCode, EndsRun, Overlaid, Flat;
    FlatRunTold(e, w, plan, None, custom, NO_CONTEXT);
    var w' := PlanRun(e, w, plan, None, custom, NO_CONTEXT);
    var w1 := StartPlanLog(w, plan, None, custom);
    var c :| RunsFrom(e, w1, w', e.plans[plan], |w.planLogs|, 0, custom, c);
    ValuesUpTo(e, w1, w', e.plans[plan], |w.planLogs|, custom, c, n);
  }
}
