/** Runs end for every truth of the conditions and every outcome of the commands exactly if unprotected calls form
    no cycle: around any such cycle there is a run that nests without end. */
module PlanDivergence {
  import opened Basics
  import opened FlightPlan
  import opened PlanLoop
  import opened PlanTermination

  // --- No rank, then a cycle --------------------------------------------------------------------

  // Line `i` of plan `p` makes an unprotected call of one of `plans`.
  ghost predicate CallsInto(e: Env, p: PlanId, i: nat, plans: set<PlanId>)
    requires Resolved(e) && p in e.plans && i < |e.plans[p].lines|
  {
    Unprotected(e, p, i) && e.commands[e.plans[p].lines[i].command].runner.plan in plans
  }

  // Those of `plans` that make an unprotected call of one of them.
  ghost function Calling(e: Env, plans: set<PlanId>): set<PlanId>
    requires Resolved(e)
  {
    set p | p in plans && p in e.plans && exists i: nat :: i < |e.plans[p].lines| && CallsInto(e, p, i, plans)
  }

  /** Every one of these plans makes an unprotected call of one of them. */
  ghost predicate Cyclic(e: Env, plans: set<PlanId>)
    requires Resolved(e)
  {
    plans != {} && plans <= e.plans.Keys && Calling(e, plans) == plans
  }

  // What is left of `plans` once those that call none of the rest are taken away, again and again.
  ghost function Core(e: Env, plans: set<PlanId>): (core: set<PlanId>)
    requires Resolved(e)
    ensures core <= plans && Calling(e, core) == core
    decreases |plans|
  {
    var calling := Calling(e, plans);
    if calling == plans then plans
    else
      StrictSubsetSize(calling, plans);
      Core(e, calling)
  }

  // How long plan `p` stays.
  ghost function Rounds(e: Env, plans: set<PlanId>, p: PlanId): nat
    requires Resolved(e)
    decreases |plans|
  {
    var calling := Calling(e, plans);
    if calling == plans || p !in calling then 0
    else
      StrictSubsetSize(calling, plans);
      1 + Rounds(e, calling, p)
  }

  lemma {:induction false} RoundsFall(e: Env, plans: set<PlanId>, p: PlanId, i: nat)
    requires Resolved(e) && Core(e, plans) == {} && p in plans && p in e.plans
    requires i < |e.plans[p].lines| && CallsInto(e, p, i, plans)
    ensures Rounds(e, plans, e.commands[e.plans[p].lines[i].command].runner.plan) < Rounds(e, plans, p)
    decreases |plans|
  {
    var calling := Calling(e, plans);
    assert p in calling;
    StrictSubsetSize(calling, plans);
    if e.commands[e.plans[p].lines[i].command].runner.plan in calling {
      RoundsFall(e, calling, p, i);
    }
  }

  lemma CycleOrRank(e: Env)
    requires Resolved(e)
    ensures WellFormed(e) || Cyclic(e, Core(e, e.plans.Keys))
  {
    if Core(e, e.plans.Keys) == {} {
      var rank: PlanId -> nat := p => Rounds(e, e.plans.Keys, p);
      forall p, i: nat | p in e.plans && i < |e.plans[p].lines|
        ensures CallFalls(e, rank, p, i)
      {
        assert Runnable(e, e.plans[p].lines[i].command);
        if Unprotected(e, p, i) {
          RoundsFall(e, e.plans.Keys, p, i);
        }
      }
      assert CallsFall(e, rank);
    }
  }

  // --- An endless walk along a cycle ------------------------------------------------------------

  // At depth `n` runs plan `plan(n)`, and its line `line(n)` calls the next.
  datatype Walk = Walk(plan: nat -> PlanId, line: nat -> nat)

  ghost predicate Step(e: Env, c: Walk, n: nat)
    requires Resolved(e)
  {
    && c.plan(n) in e.plans && c.line(n) < |e.plans[c.plan(n)].lines|
    && Unprotected(e, c.plan(n), c.line(n))
    && e.commands[e.plans[c.plan(n)].lines[c.line(n)].command].runner.plan == c.plan(n + 1)
  }

  /** A walk of unprotected calls that goes on for ever. */
  ghost predicate Endless(e: Env, c: Walk)
    requires Resolved(e)
  {
    forall n: nat {:trigger Step(e, c, n)} :: Step(e, c, n)
  }

  // A line of plan `p` that calls one of `plans`.
  ghost function CallLine(e: Env, plans: set<PlanId>, p: PlanId): (i: nat)
    requires Resolved(e) && Cyclic(e, plans) && p in plans
    ensures i < |e.plans[p].lines| && CallsInto(e, p, i, plans)
  {
    assert p in Calling(e, plans);
    var i: nat :| i < |e.plans[p].lines| && CallsInto(e, p, i, plans);
    i
  }

  ghost function PlanAt(e: Env, plans: set<PlanId>, n: nat): (p: PlanId)
    requires Resolved(e) && Cyclic(e, plans)
    ensures p in plans && p in e.plans
  {
    if n == 0 then
      var p :| p in plans;
      p
    else
      var p := PlanAt(e, plans, n - 1);
      e.commands[e.plans[p].lines[CallLine(e, plans, p)].command].runner.plan
  }

  lemma CycleIsWalked(e: Env, plans: set<PlanId>) returns (c: Walk)
    requires Resolved(e) && Cyclic(e, plans)
    ensures Endless(e, c)
  {
    c := Walk(n => PlanAt(e, plans, n), n => CallLine(e, plans, PlanAt(e, plans, n)));
    forall n: nat
      ensures Step(e, c, n)
    {
      assert c.plan(n + 1) == PlanAt(e, plans, n + 1);
    }
  }

  // How many command logs there are when it starts: one for each line up to the calls above it.
  ghost function LogsBefore(c: Walk, n: nat): nat {
    if n == 0 then 0 else LogsBefore(c, n - 1) + c.line(n - 1) + 1
  }

  lemma {:induction false} LogsGrow(c: Walk, m: nat, n: nat)
    requires m < n
    ensures LogsBefore(c, m) + c.line(m) < LogsBefore(c, n)
  {
    if m < n - 1 {
      LogsGrow(c, m, n - 1);
    }
  }

  // Command log `id` belongs to a line at depth `n`.
  ghost predicate LogAt(c: Walk, id: nat, n: nat) {
    LogsBefore(c, n) <= id <= LogsBefore(c, n) + c.line(n)
  }

  lemma LogAtOneDepth(c: Walk, id: nat, m: nat, n: nat)
    requires LogAt(c, id, m) && LogAt(c, id, n)
    ensures m == n
  {
    if m < n {
      LogsGrow(c, m, n);
    } else if n < m {
      LogsGrow(c, n, m);
    }
  }

  ghost predicate IsCall(c: Walk, id: nat) {
    exists n: nat :: LogAt(c, id, n) && id == LogsBefore(c, n) + c.line(n)
  }

  // An exit code with which plan `plan` passes line `j`, if there is one.
  ghost function PassingStatus(plan: Plan, j: nat): int
    requires j < |plan.lines|
  {
    if exists status :: Judge(plan, j, status, true) == Proceed then
      var status :| Judge(plan, j, status, true) == Proceed;
      status
    else 0
  }

  ghost function StatusOf(plans: map<PlanId, Plan>, c: Walk, id: nat): int {
    if exists n: nat :: LogAt(c, id, n) then
      var n: nat :| LogAt(c, id, n);
      var j := id - LogsBefore(c, n);
      if c.plan(n) in plans && j < |plans[c.plan(n)].lines| then PassingStatus(plans[c.plan(n)], j) else 0
    else 0
  }

  /** Conditions hold before the calls of the walk and nowhere else, and commands end so that the plan goes on. */
  ghost function Along(plans: map<PlanId, Plan>, c: Walk): Oracle {
    Oracle((check: Check, condition: string, vars: Values, custom: Values) => check.First? && IsCall(c, check.id),
           (id: nat, command: CommandId, vars: Values, custom: Values) => Outcome(StatusOf(plans, c, id), None, vars))
  }

  /** The lines before unprotected calls can be steered: what they run unconditionally is a command that starts and
      whose exit code is its own, and the plan itself may be run. */
  ghost predicate Steerable(e: Env)
    requires Resolved(e)
  {
    forall p, i {:trigger Unprotected(e, p, i)} ::
      p in e.plans && 0 <= i < |e.plans[p].lines| && Unprotected(e, p, i) ==>
        e.plans[p].compatible && forall j :: 0 <= j < i ==> LineSteerable(e, e.plans[p].lines[j])
  }

  ghost predicate LineSteerable(e: Env, line: Line) {
    line.condition.None? && line.command in e.commands ==>
      e.commands[line.command].runner.External? && e.commands[line.command].compatible
  }

  // Line `j` comes at depth `n`, and only commands that run plans are running.
  ghost predicate Reached(e: Env, c: Walk, w: World, pl: nat, n: nat, j: nat) {
    && OpenPlanLog(e, w.planLogs, pl) && w.planLogs[pl].plan == c.plan(n)
    && j <= c.line(n) < |e.plans[c.plan(n)].lines|
    && |w.commandLogs| == LogsBefore(c, n) + j && OnlyNested(e, w.commandLogs)
  }

  ghost predicate OnlyNested(e: Env, logs: seq<CommandLog>) {
    forall id :: 0 <= id < |logs| && logs[id].running ==>
      logs[id].command in e.commands && e.commands[logs[id].command].runner.Nested?
  }

  ghost predicate Setting(e: Env, c: Walk) {
    Resolved(e) && Steerable(e) && Endless(e, c) && e.oracle == Along(e.plans, c)
  }

  // --- Never ends -------------------------------------------------------------------------------

  lemma CallFound(e: Env, c: Walk, n: nat, j: nat)
    requires Resolved(e) && Endless(e, c) && j <= c.line(n)
    ensures Step(e, c, n)
    ensures IsCall(c, LogsBefore(c, n) + j) <==> j == c.line(n)
    ensures StatusOf(e.plans, c, LogsBefore(c, n) + j) == PassingStatus(e.plans[c.plan(n)], j)
  {
    hide LogsBefore, Unprotected, PassingStatus;
    assert Step(e, c, n);
    var id := LogsBefore(c, n) + j;
    assert LogAt(c, id, n);
    forall m: nat | LogAt(c, id, m)
      ensures m == n
    {
      LogAtOneDepth(c, id, m, n);
    }
  }

  // Line `j` is passed, skipped or with exit code `status`.
  ghost predicate Passed(e: Env, plan: Plan, j: nat, status: int) {
    && j < |plan.lines| && LineSteerable(e, plan.lines[j])
    && Judge(plan, j, PLAN_LINE_CONDITION_CHECK_FAILED, false) == Proceed
    && (plan.lines[j].condition.None? ==> j > 0 && Judge(plan, j, status, true) == Proceed)
  }

  // What the conditions and the commands do at line `j` at depth `n`.
  lemma Steered(e: Env, c: Walk, n: nat, j: nat)
    requires Setting(e, c) && j < c.line(n)
    ensures Step(e, c, n)
    ensures Passed(e, e.plans[c.plan(n)], j, StatusOf(e.plans, c, LogsBefore(c, n) + j))
  {
    hide LogsBefore, StatusOf, Along;
    CallFound(e, c, n, j);
    assert Unprotected(e, c.plan(n), c.line(n)) && MayPass(e.plans[c.plan(n)], j);
  }

  lemma {:induction false} NeverRuns(e: Env, c: Walk, w: World, n: nat, parent: Option<nat>, custom: Values,
                                     ctx: Context, depth: nat)
    requires Setting(e, c) && c.plan(n) in e.plans && !ctx.plan
    requires |w.commandLogs| == LogsBefore(c, n) && OnlyNested(e, w.commandLogs)
    requires PlanAdmitted(e, w, c.plan(n), ctx)
    ensures RunIn(e, w, c.plan(n), parent, custom, ctx, depth).None?
    decreases depth
  {
    hide LogsBefore, Along, LineIn, Unguarded, PlanAdmitted;
    assert Step(e, c, n);
    if depth > 0 {
      var w1 := StartPlanLog(w, c.plan(n), parent, custom);
      assert Reached(e, c, w1, |w.planLogs|, n, 0);
      NeverPasses(e, c, w1, |w.planLogs|, n, 0, custom, ctx, depth - 1);
    }
  }

  lemma {:induction false} NeverPasses(e: Env, c: Walk, w: World, pl: nat, n: nat, j: nat, custom: Values, ctx: Context,
                                       depth: nat)
    requires Setting(e, c) && Reached(e, c, w, pl, n, j) && !ctx.plan && (j > 0 ==> !ctx.server)
    ensures LineIn(e, w, pl, j, custom, ctx, depth).None?
    decreases depth
  {
    hide LogsBefore, CommandIn, AfterIn, Unprotected, Judge, StatusOf, OnlyNested;
    if depth > 0 {
      CallFound(e, c, n, j);
      if j == c.line(n) {
        NeverReturns(e, c, w, pl, n, custom, ctx, depth - 1);
      } else {
        Steered(e, c, n, j);
        if e.plans[c.plan(n)].lines[j].condition.Some? {
          NeverSkips(e, c, w, pl, n, j, custom, ctx, depth - 1);
        } else {
          NeverExecutes(e, c, w, pl, n, j, custom, ctx, depth - 1);
        }
      }
    }
  }

  // The call of the walk: the plan that it starts never ends.
  lemma {:induction false} NeverReturns(e: Env, c: Walk, w: World, pl: nat, n: nat, custom: Values, ctx: Context,
                                        depth: nat)
    requires Setting(e, c) && Reached(e, c, w, pl, n, c.line(n)) && !ctx.plan
    ensures CommandIn(e, SetLine(w, pl, c.line(n)), e.plans[c.plan(n)].lines[c.line(n)].command, pl, custom, ctx,
                      depth).None?
    decreases depth
  {
    hide RunIn, Along, Unguarded, Steerable;
    assert Step(e, c, n) && Step(e, c, n + 1);
    var command := e.plans[c.plan(n)].lines[c.line(n)].command;
    if depth > 1 {
      var w1 := StartCommandLog(SetLine(w, pl, c.line(n)), command, pl, custom);
      assert LogsBefore(c, n + 1) == |w1.commandLogs|;
      NeverRuns(e, c, w1, n + 1, Some(pl), custom, Context(ctx.plan, true), depth - 2);
      assert ExecuteIn(e, w1, |w.commandLogs|, ctx, depth - 1).None?;
    }
  }

  lemma {:induction false} NeverSkips(e: Env, c: Walk, w: World, pl: nat, n: nat, j: nat, custom: Values, ctx: Context,
                                      depth: nat)
    requires Setting(e, c) && Reached(e, c, w, pl, n, j) && !ctx.plan && j < c.line(n)
    requires e.plans[c.plan(n)].lines[j].condition.Some?
    ensures AfterIn(e, Skipped(e, w, pl, j), |w.commandLogs|, Context(ctx.plan, ctx.plan), depth).None?
    decreases depth
  {
    hide LogsBefore, LineIn, Unprotected, Judge, StatusOf;
    if depth > 0 {
      Steered(e, c, n, j);
      var id := |w.commandLogs|;
      var w1 := SetCustom(Skipped(e, w, pl, j), pl, map[]);
      var w2 := Ruled(e, w1, id);
      assert Reached(e, c, w2, pl, n, j + 1);
      NeverPasses(e, c, w2, pl, n, j + 1, w1.planLogs[pl].custom, Context(ctx.plan, ctx.plan), depth - 1);
    }
  }

  lemma {:induction false} NeverExecutes(e: Env, c: Walk, w: World, pl: nat, n: nat, j: nat, custom: Values,
                                         ctx: Context, depth: nat)
    requires Setting(e, c) && Reached(e, c, w, pl, n, j) && !ctx.plan && !ctx.server && j < c.line(n)
    requires e.plans[c.plan(n)].lines[j].condition.None?
    ensures var w1 := CommandIn(e, SetLine(w, pl, j), e.plans[c.plan(n)].lines[j].command, pl, custom, ctx, depth);
            w1.Some? ==> AfterIn(e, w1.value, |w.commandLogs|, Context(ctx.server, ctx.server), depth).None?
    decreases depth
  {
    hide LogsBefore, LineIn, Unprotected, Judge, StatusOf;
    var id := |w.commandLogs|;
    Steered(e, c, n, j);
    var command := e.plans[c.plan(n)].lines[j].command;
    assert Runnable(e, command);
    if depth > 1 {
      var w1 := StartCommandLog(SetLine(w, pl, j), command, pl, custom);
      var w2 := FinishCommandLog(w1, id, StatusOf(e.plans, c, id), custom);
      assert ExecuteIn(e, w1, id, ctx, depth - 1) == Some(w2);
      var w3 := SetCustom(w2, pl, custom);
      var w4 := Ruled(e, w3, id);
      assert Reached(e, c, w4, pl, n, j + 1);
      NeverPasses(e, c, w4, pl, n, j + 1, custom, Context(ctx.server, ctx.server), depth - 1);
    }
  }

  // --- Main results -----------------------------------------------------------------------------

  // Calls do not depend on what conditions and commands do.
  lemma SameCalls(e: Env, oracle: Oracle)
    requires Resolved(e)
    ensures Resolved(e.(oracle := oracle))
    ensures forall p, i: nat :: p in e.plans && i < |e.plans[p].lines| ==>
              (Unprotected(e.(oracle := oracle), p, i) <==> Unprotected(e, p, i))
  {
    var e' := e.(oracle := oracle);
    forall p, i: nat | p in e'.plans && i < |e'.plans[p].lines|
      ensures Runnable(e', e'.plans[p].lines[i].command)
    {
      assert Runnable(e, e.plans[p].lines[i].command);
    }
  }

  lemma SameWellFormed(e: Env, oracle: Oracle)
    requires WellFormed(e)
    ensures WellFormed(e.(oracle := oracle))
  {
    var e' := e.(oracle := oracle);
    SameCalls(e, oracle);
    var rank :| CallsFall(e, rank);
    forall p, i: nat | p in e'.plans && i < |e'.plans[p].lines|
      ensures CallFalls(e', rank, p, i)
    {
      assert CallFalls(e, rank, p, i);
    }
    assert CallsFall(e', rank);
  }

  lemma SameSetting(e: Env, c: Walk)
    requires Resolved(e) && Steerable(e) && Endless(e, c)
    ensures Setting(e.(oracle := Along(e.plans, c)), c)
  {
    var e' := e.(oracle := Along(e.plans, c));
    SameCalls(e, e'.oracle);
    forall n: nat
      ensures Step(e', c, n)
    {
      assert Step(e, c, n);
    }
    assert forall line :: LineSteerable(e, line) <==> LineSteerable(e', line);
  }

  /** Every walk of unprotected calls that goes on for ever, and around every cycle of them there is one: with some
      conditions and exit codes the run along it nests without end. */
  lemma ParallelCycleNeverEnds(e: Env, c: Walk, vars: Values, custom: Values)
    requires Resolved(e) && Steerable(e) && Endless(e, c)
    ensures c.plan(0) in e.plans
    ensures exists oracle :: && Resolved(e.(oracle := oracle))
                             && !Ends(e.(oracle := oracle), World(vars, [], [], []), c.plan(0), custom)
  {
    var e' := e.(oracle := Along(e.plans, c));
    SameSetting(e, c);
    assert Step(e', c, 0);
    forall depth: nat
      ensures RunIn(e', World(vars, [], [], []), c.plan(0), None, custom, NO_CONTEXT, depth).None?
    {
      NeverRuns(e', c, World(vars, [], [], []), 0, None, custom, NO_CONTEXT, depth);
    }
  }

  /** Whatever conditions and commands do, every run ends. */
  ghost predicate AlwaysEnds(e: Env)
    requires Resolved(e)
  {
    forall oracle, w, plan, custom :: Resolved(e.(oracle := oracle)) && plan in e.plans ==>
      Ends(e.(oracle := oracle), w, plan, custom)
  }

  lemma WellFormedAlwaysEnds(e: Env)
    requires WellFormed(e)
    ensures AlwaysEnds(e)
  {
    hide Ends, WellFormed;
    forall oracle, w, plan, custom | plan in e.plans && Resolved(e.(oracle := oracle))
      ensures Ends(e.(oracle := oracle), w, plan, custom)
    {
      SameWellFormed(e, oracle);
      WellFormedEnds(e.(oracle := oracle), w, plan, custom);
    }
  }

  lemma WalkMayNotEnd(e: Env, c: Walk)
    requires Resolved(e) && Steerable(e) && Endless(e, c)
    ensures !AlwaysEnds(e)
  {
    hide Ends, Endless, Steerable;
    ParallelCycleNeverEnds(e, c, map[], map[]);
    var oracle :| && Resolved(e.(oracle := oracle))
                  && !Ends(e.(oracle := oracle), World(map[], [], [], []), c.plan(0), map[]);
    assert Resolved(e.(oracle := oracle));
  }

  lemma WalkOrRank(e: Env) returns (c: Walk)
    requires Resolved(e)
    ensures WellFormed(e) || Endless(e, c)
  {
    CycleOrRank(e);
    if !WellFormed(e) {
      c := CycleIsWalked(e, Core(e, e.plans.Keys));
    } else {
      c := Walk(n => 0, n => 0);
    }
  }

  /** Calls that stand behind an unconditional first line do no harm, cycle or not. */
  lemma GuardedCallsEnd(e: Env)
    requires Resolved(e)
    requires forall p, i :: p in e.plans && 0 <= i < |e.plans[p].lines| ==>
               (e.commands[e.plans[p].lines[i].command].runner.Nested? ==> i > 0 && e.plans[p].lines[0].condition.None?)
    ensures AlwaysEnds(e)
  {
    assert CallsFall(e, p => 0);
    WellFormedAlwaysEnds(e);
  }

  /** Main result: runs end for all conditions and outcomes exactly if unprotected calls go down in some rank. */
  lemma EndsExactlyIfWellFormed(e: Env)
    requires Resolved(e) && Steerable(e)
    ensures WellFormed(e) <==> AlwaysEnds(e)
  {
    hide WellFormed, Endless, Steerable, AlwaysEnds;
    if WellFormed(e) {
      WellFormedAlwaysEnds(e);
    } else {
      var c := WalkOrRank(e);
      WalkMayNotEnd(e, c);
    }
  }
}
