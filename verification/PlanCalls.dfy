/** Which plans a run starts, and how its log writes end. */
module PlanCalls {
  import opened Basics
  import opened FlightPlan
  import opened PlanLoop

  // The lines of plan `p` call no plans but `plans`.
  ghost predicate CallsOnly(e: Env, p: PlanId, plans: set<PlanId>) {
    p in e.plans ==> forall i {:trigger Calls(e, p, i, plans)} :: 0 <= i < |e.plans[p].lines| ==> Calls(e, p, i, plans)
  }

  ghost predicate Calls(e: Env, p: PlanId, i: nat, plans: set<PlanId>)
    requires p in e.plans && i < |e.plans[p].lines|
  {
    var command := e.plans[p].lines[i].command;
    command in e.commands && e.commands[command].runner.Nested? ==> e.commands[command].runner.plan in plans
  }

  // Nor do theirs.
  ghost predicate Closed(e: Env, plans: set<PlanId>) {
    forall p :: p in plans ==> CallsOnly(e, p, plans)
  }

  /** However deep calls nest, a run of plan `p` does not come to `p` again. */
  ghost predicate NeverCallsItself(e: Env, p: PlanId) {
    exists plans: set<PlanId> :: p !in plans && CallsOnly(e, p, plans) && Closed(e, plans)
  }

  // The plan logs added to `w` are of plans in `plans`, and no others finish, except for plan log `pl`.
  ghost predicate AddsOnly(w: World, w': World, pl: nat, plans: set<PlanId>) {
    && (forall x :: |w.planLogs| <= x < |w'.planLogs| ==> w'.planLogs[x].plan in plans)
    && FinishesOnly(w, w', pl)
  }

  ghost predicate FinishesOnly(w: World, w': World, pl: nat) {
    && |w.planLogs| <= |w'.planLogs| && w.history <= w'.history
    && forall k :: |w.history| <= k < |w'.history| && w'.history[k].PlanFinished? ==>
         w'.history[k].id == pl || |w.planLogs| <= w'.history[k].id < |w'.planLogs|
  }

  lemma AddsOnlyTransitive(w0: World, w1: World, w2: World, pl: nat, plans: set<PlanId>)
    requires AddsOnly(w0, w1, pl, plans) && AddsOnly(w1, w2, pl, plans) && ExtendsBut(w1, w2, pl)
    ensures AddsOnly(w0, w2, pl, plans)
  {
    forall x | |w0.planLogs| <= x < |w2.planLogs|
      ensures w2.planLogs[x].plan in plans
    {
      if x < |w1.planLogs| {
        assert w1.planLogs[pl := w2.planLogs[pl]][x] == w2.planLogs[x];
      }
    }
  }

  lemma {:induction false} PlanRunAdds(e: Env, w: World, plan: PlanId, parent: Option<nat>, custom: Values,
                                       ctx: Context, plans: set<PlanId>)
    requires WellFormed(e) && plan in e.plans && (parent.Some? ==> ctx.server)
    requires CallsOnly(e, plan, plans) && Closed(e, plans)
    ensures var w' := PlanRun(e, w, plan, parent, custom, ctx);
            && (EndsWith(w', PlanFinished(|w.planLogs|)) || EndsWith(w', PlanRecorded(|w.planLogs|)))
            && FinishesOnly(w, w', |w.planLogs|)
            && forall x :: |w.planLogs| < x < |w'.planLogs| ==> w'.planLogs[x].plan in plans
    decreases Tier(parent), StartBudget(e, w, plan, ctx), Rank(e, plan), |e.plans[plan].lines| + 1, 0
  {
    hide IdleBut, InCourse, LineRun, CallsOnly, Closed, Extends, PlanRunning, WellFormed;
    if (parent.Some? || e.plans[plan].compatible) && PlanAdmitted(e, w, plan, ctx) && e.plans[plan].lines != [] {
      StartedOpens(e, w, plan, parent, custom, ctx);
      LineRunAdds(e, StartPlanLog(w, plan, parent, custom), |w.planLogs|, 0, custom, ctx, plans);
    }
  }

  lemma {:induction false} LineRunAdds(e: Env, w: World, pl: nat, i: nat, custom: Values, ctx: Context,
                                       plans: set<PlanId>)
    requires WellFormed(e) && OpenPlanLog(e, w.planLogs, pl)
    requires i < |e.plans[w.planLogs[pl].plan].lines| && InCourse(e, w.planLogs[pl], i, ctx)
    requires CallsOnly(e, w.planLogs[pl].plan, plans) && Closed(e, plans)
    ensures var w' := LineRun(e, w, pl, i, custom, ctx);
            AddsOnly(w, w', pl, plans) && EndsWith(w', PlanFinished(pl))
    decreases Tier(w.planLogs[pl].parent), Idle(e, w), Rank(e, w.planLogs[pl].plan),
              |e.plans[w.planLogs[pl].plan].lines| - i, 4
  {
    hide IdleBut, InCourse, CommandRun, After, CallsOnly, Closed, Extends, ExtendsBut, Passable;
    LineReached(e, w, pl, i, ctx);
    var line := e.plans[w.planLogs[pl].plan].lines[i];
    if LineExecutable(e, First(|w.commandLogs|), line, w.vars, custom) {
      CommandRunAdds(e, SetLine(w, pl, i), line.command, pl, custom, ctx, plans);
    } else {
      SkippingExecutes(e, w, pl, i, custom, ctx);
      AfterAdds(e, Skipped(e, w, pl, i), |w.commandLogs|, Context(ctx.plan, ctx.plan), plans);
    }
  }

  lemma {:induction false} CommandRunAdds(e: Env, w: World, command: CommandId, pl: nat, custom: Values, ctx: Context,
                                          plans: set<PlanId>)
    requires WellFormed(e) && AtCommand(e, w.planLogs, pl, command)
    requires InCourse(e, w.planLogs[pl], w.planLogs[pl].line.value, ctx)
    requires CallsOnly(e, w.planLogs[pl].plan, plans) && Closed(e, plans)
    ensures var w' := CommandRun(e, w, command, pl, custom, ctx);
            AddsOnly(w, w', pl, plans) && EndsWith(w', PlanFinished(pl))
    decreases Tier(w.planLogs[pl].parent), Idle(e, w), Rank(e, w.planLogs[pl].plan), LinesLeft(e, w.planLogs, pl), 3
  {
    hide IdleBut, InCourse, CommandDone, After, CallsOnly, Closed, Extends, AddsOnly;
    var w1 := CommandDone(e, w, command, pl, custom, ctx);
    CommandDoneAdds(e, w, command, pl, custom, ctx, plans);
    PastAfterLine(e, w.planLogs[pl], w.planLogs[pl].line.value, ctx);
    AfterAdds(e, w1, |w.commandLogs|, Context(ctx.server, ctx.server), plans);
    AddsOnlyTransitive(w, w1, CommandRun(e, w, command, pl, custom, ctx), pl, plans);
  }

  lemma {:induction false} CommandDoneAdds(e: Env, w: World, command: CommandId, pl: nat, custom: Values, ctx: Context,
                                           plans: set<PlanId>)
    requires WellFormed(e) && AtCommand(e, w.planLogs, pl, command)
    requires InCourse(e, w.planLogs[pl], w.planLogs[pl].line.value, ctx)
    requires CallsOnly(e, w.planLogs[pl].plan, plans) && Closed(e, plans)
    ensures AddsOnly(w, CommandDone(e, w, command, pl, custom, ctx), pl, plans)
    decreases Tier(w.planLogs[pl].parent), Idle(e, w), Rank(e, w.planLogs[pl].plan), LinesLeft(e, w.planLogs, pl), 2
  {
    hide IdleBut, InCourse, Execute, CallsOnly, Closed, Extends, ExtendsBut;
    assert Runnable(e, command);
    if Refusal(e, w, command).None? {
      StartedIsExecutable(e, w, command, pl, custom, ctx);
      ExecuteAdds(e, StartCommandLog(w, command, pl, custom), |w.commandLogs|, ctx, plans);
      assert CommandDone(e, w, command, pl, custom, ctx) == AdmittedCommandDone(e, w, command, pl, custom, ctx);
    }
  }

  lemma {:induction false} ExecuteAdds(e: Env, w: World, id: nat, ctx: Context, plans: set<PlanId>)
    requires WellFormed(e) && Executable(e, w, id, ctx)
    requires CallsOnly(e, w.planLogs[w.commandLogs[id].planLog].plan, plans) && Closed(e, plans)
    ensures AddsOnly(w, Execute(e, w, id, ctx), w.commandLogs[id].planLog, plans)
    decreases Tier(w.planLogs[w.commandLogs[id].planLog].parent), IdleBut(e, w, Some(id)),
              Rank(e, w.planLogs[w.commandLogs[id].planLog].plan),
              LinesLeft(e, w.planLogs, w.commandLogs[id].planLog), 1
  {
    hide IdleBut, InCourse, PlanRun, Extends;
    var log := w.commandLogs[id];
    if e.commands[log.command].runner.Nested? {
      if w.planLogs[log.planLog].parent.Some? {
        NestedStartDecreases(e, w, id, ctx);
      }
      var q := e.commands[log.command].runner.plan;
      assert Calls(e, w.planLogs[log.planLog].plan, w.planLogs[log.planLog].line.value, plans);
      assert q in plans;
      PlanRunAdds(e, w, q, Some(log.planLog), log.custom, Context(ctx.plan, true), plans);
    }
  }

  lemma {:induction false} AfterAdds(e: Env, w: World, id: nat, ctx: Context, plans: set<PlanId>)
    requires WellFormed(e) && Executed(e, w, id, ctx)
    requires CallsOnly(e, w.planLogs[w.commandLogs[id].planLog].plan, plans) && Closed(e, plans)
    ensures var w' := After(e, w, id, ctx);
            AddsOnly(w, w', w.commandLogs[id].planLog, plans) && EndsWith(w', PlanFinished(w.commandLogs[id].planLog))
    decreases Tier(w.planLogs[w.commandLogs[id].planLog].parent), Idle(e, w),
              Rank(e, w.planLogs[w.commandLogs[id].planLog].plan),
              LinesLeft(e, w.planLogs, w.commandLogs[id].planLog), 0
  {
    hide IdleBut, InCourse, LineRun, Judge, CallsOnly, Closed, Extends, ExtendsBut;
    var pl := w.commandLogs[id].planLog;
    var w1 := SetCustom(w, pl, w.commandLogs[id].custom);
    SamePlansRunning(e, w, w1);
    assert After(e, w, id, ctx) == Follow(e, w1, id, ctx);
    if LineVerdict(e, w1, id) == Proceed {
      GoesOn(e, w1, id, ctx);
      SamePlansRunning(e, w1, Ruled(e, w1, id));
      LineRunAdds(e, Ruled(e, w1, id), pl, w.planLogs[pl].line.value + 1, w1.planLogs[pl].custom, ctx, plans);
    }
  }
}
