/** The queue machine computes what the loop computes: left alone, it takes a launched plan, one pending command after
    the other, to the world in which the loop ends. */
module PlanSimulation {
  import opened Basics
  import opened FlightPlan
  import opened PlanLoop
  import opened PlanMachine
  import opened PlanTrace

  // --- The context of a command ----------------------------------------------------------------

  ghost predicate FirstOf(logs: seq<CommandLog>, f: int, pl: nat) {
    && 0 <= f < |logs| && logs[f].planLog == pl
    && forall j :: 0 <= j < f ==> logs[j].planLog != pl
  }

  // The first line of plan log `pl` was skipped.
  ghost predicate FirstSkipped(logs: seq<CommandLog>, pl: nat) {
    exists f :: FirstOf(logs, f, pl) && logs[f].skipped
  }

  ghost predicate BeyondFirst(log: PlanLog) {
    log.line.Some? && log.line.value > 0
  }

  /** `prevent_plan_recursion` is set for the plans that command log `id` starts: its plan was called, and the first
      line of the called plan has been run, or the key was set for the call. */
  ghost predicate Prevented(s: Machine, id: nat)
    requires id < |s.w.commandLogs|
    decreases s.w.commandLogs[id].planLog
  {
    var pl := s.w.commandLogs[id].planLog;
    && pl < |s.w.planLogs| && s.w.planLogs[pl].parent.Some?
    && ((BeyondFirst(s.w.planLogs[pl]) && !FirstSkipped(s.w.commandLogs, pl))
        || exists x :: Waits(s, x, pl) && Prevented(s, x))
  }

  // Command log `x` waits for plan log `pl`, which is younger than its own.
  ghost predicate Waits(s: Machine, x: nat, pl: nat) {
    x in s.waiting && s.waiting[x] == pl && x < |s.w.commandLogs| && s.w.commandLogs[x].planLog < pl
  }

  // The same for the call of plan log `pl`.
  ghost predicate CallPrevented(s: Machine, pl: nat) {
    exists x :: Waits(s, x, pl) && Prevented(s, x)
  }

  // --- Undisturbed runs ------------------------------------------------------------------------

  /** Nobody stops anything or launches another plan, commands do what the oracle says, and plans are called in the
      context of the command that calls them. */
  ghost predicate Undisturbed(e: Env, s: Machine, a: Action)
    requires Resolved(e) && Inv(e, s) && Enabled(e, s, a)
  {
    match a
    case StartJob(_) => true
    case CommandResult(id, outcome) =>
      PendingLog(e, s, id);
      var log := s.w.commandLogs[id];
      outcome == e.oracle.outcome(id, log.command, s.w.vars, log.custom)
    case StartNested(id, prevent) => PendingLog(e, s, id); prevent == Prevented(s, id)
    case EndNested(_) => true
    case _ => false
  }

  /** The actions, none of them a disturbance, take the machine from `s` to `s'`. */
  ghost predicate Plays(e: Env, s: Machine, actions: seq<Action>, s': Machine)
    requires Resolved(e) && Inv(e, s)
    decreases |actions|
  {
    if actions == [] then s' == s
    else
      Enabled(e, s, actions[0]) && Undisturbed(e, s, actions[0])
      && (StepKeepsInv(e, s, actions[0]); Plays(e, Apply(e, s, actions[0]), actions[1..], s'))
  }

  lemma {:induction false} PlaysIsRun(e: Env, s: Machine, actions: seq<Action>, s': Machine)
    requires Resolved(e) && Inv(e, s) && Plays(e, s, actions, s')
    ensures Run(e, s, actions, s') && Inv(e, s')
    decreases |actions|
  {
    hide InvBut, Apply, Undisturbed, Enabled;
    if actions != [] {
      StepKeepsInv(e, s, actions[0]);
      PlaysIsRun(e, Apply(e, s, actions[0]), actions[1..], s');
    }
  }

  lemma {:induction false} PlaysOn(e: Env, s: Machine, actions: seq<Action>, s1: Machine, more: seq<Action>,
                                   s2: Machine)
    requires Resolved(e) && Inv(e, s) && Inv(e, s1) && Plays(e, s, actions, s1) && Plays(e, s1, more, s2)
    ensures Plays(e, s, actions + more, s2)
    decreases |actions|
  {
    hide InvBut, Apply, Undisturbed, Enabled;
    if actions == [] {
      assert actions + more == more;
    } else {
      StepKeepsInv(e, s, actions[0]);
      PlaysOn(e, Apply(e, s, actions[0]), actions[1..], s1, more, s2);
      assert (actions + more)[1..] == actions[1..] + more;
    }
  }

  lemma PlaysFirst(e: Env, s: Machine, a: Action, more: seq<Action>, s': Machine)
    requires Resolved(e) && Inv(e, s) && Enabled(e, s, a) && Undisturbed(e, s, a)
    requires Inv(e, Apply(e, s, a)) && Plays(e, Apply(e, s, a), more, s')
    ensures Plays(e, s, [a] + more, s')
  {
    assert ([a] + more)[1..] == more;
  }

  // --- The context stays -----------------------------------------------------------------------

  /** A plan log that a command waits for is younger than the one the command belongs to. */
  ghost predicate Tidy(s: Machine) {
    forall x :: x in s.waiting ==>
      x < |s.w.commandLogs| && s.w.commandLogs[x].planLog < s.waiting[x] <= |s.w.planLogs|
  }

  // No command waits for a plan log that is not there.
  ghost predicate AllThere(s: Machine) {
    forall x :: x in s.waiting ==> s.waiting[x] < |s.w.planLogs|
  }

  /** Plan logs below `bound` stand where they stood, and what waits for them, and no command log was added to them. */
  ghost predicate SameBelow(s: Machine, s': Machine, bound: nat) {
    && |s.w.commandLogs| <= |s'.w.commandLogs| && bound <= |s.w.planLogs| <= |s'.w.planLogs|
    && (forall j :: 0 <= j < |s.w.commandLogs| ==>
          && s'.w.commandLogs[j].planLog == s.w.commandLogs[j].planLog
          && s'.w.commandLogs[j].skipped == s.w.commandLogs[j].skipped)
    && (forall j :: |s.w.commandLogs| <= j < |s'.w.commandLogs| ==> s'.w.commandLogs[j].planLog >= bound)
    && (forall q :: 0 <= q < bound ==>
          s'.w.planLogs[q].line == s.w.planLogs[q].line && s'.w.planLogs[q].parent == s.w.planLogs[q].parent)
    && (forall x :: x in s.waiting && s.waiting[x] < bound ==> x in s'.waiting && s'.waiting[x] == s.waiting[x])
    && (forall x :: x in s'.waiting && s'.waiting[x] < bound ==> x in s.waiting && s'.waiting[x] == s.waiting[x])
  }

  lemma SameFirst(s: Machine, s': Machine, bound: nat, q: nat)
    requires SameBelow(s, s', bound) && q < bound
    ensures FirstSkipped(s'.w.commandLogs, q) <==> FirstSkipped(s.w.commandLogs, q)
  {
    if f :| FirstOf(s.w.commandLogs, f, q) && s.w.commandLogs[f].skipped {
      assert FirstOf(s'.w.commandLogs, f, q);
    }
    if f :| FirstOf(s'.w.commandLogs, f, q) && s'.w.commandLogs[f].skipped {
      assert FirstOf(s.w.commandLogs, f, q);
    }
  }

  lemma {:induction false} SamePrevented(s: Machine, s': Machine, bound: nat, id: nat)
    requires Tidy(s) && Tidy(s') && SameBelow(s, s', bound)
    requires id < |s.w.commandLogs| && s.w.commandLogs[id].planLog < bound
    ensures Prevented(s', id) <==> Prevented(s, id)
    decreases s.w.commandLogs[id].planLog
  {
    var pl := s.w.commandLogs[id].planLog;
    SameFirst(s, s', bound, pl);
    forall x: nat
      ensures Waits(s', x, pl) <==> Waits(s, x, pl)
      ensures Waits(s, x, pl) ==> (Prevented(s', x) <==> Prevented(s, x))
    {
      if Waits(s, x, pl) {
        SamePrevented(s, s', bound, x);
      }
    }
  }

  lemma SameCallPrevented(s: Machine, s': Machine, pl: nat)
    requires Tidy(s) && Tidy(s') && SameBelow(s, s', pl)
    requires forall x: nat :: (x in s'.waiting && s'.waiting[x] == pl) <==> (x in s.waiting && s.waiting[x] == pl)
    ensures CallPrevented(s', pl) <==> CallPrevented(s, pl)
  {
    forall x: nat
      ensures Waits(s', x, pl) <==> Waits(s, x, pl)
      ensures Waits(s, x, pl) ==> (Prevented(s', x) <==> Prevented(s, x))
    {
      if Waits(s, x, pl) {
        SamePrevented(s, s', pl, x);
      }
    }
  }

  /** The context in which the loop comes to line `i` is the one the machine sees. */
  ghost predicate CtxAt(s: Machine, pl: nat, i: nat, ctx: Context)
    requires pl < |s.w.planLogs|
  {
    if s.w.planLogs[pl].parent.None? then ctx == NO_CONTEXT
    else if i == 0 then ctx == Context(CallPrevented(s, pl), true)
    else CtxPast(s, pl, ctx)
  }

  // The same after a line.
  ghost predicate CtxPast(s: Machine, pl: nat, ctx: Context)
    requires pl < |s.w.planLogs|
  {
    if s.w.planLogs[pl].parent.None? then ctx == NO_CONTEXT
    else
      && (exists f :: FirstOf(s.w.commandLogs, f, pl))
      && ctx == if FirstSkipped(s.w.commandLogs, pl) then Context(CallPrevented(s, pl), CallPrevented(s, pl))
                else Context(true, true)
  }

  lemma PreventedAsCtx(s: Machine, id: nat, ctx: Context)
    requires Tidy(s) && id < |s.w.commandLogs| && s.w.commandLogs[id].planLog < |s.w.planLogs|
    requires var pl := s.w.commandLogs[id].planLog;
             s.w.planLogs[pl].line.Some? && CtxAt(s, pl, s.w.planLogs[pl].line.value, ctx)
    ensures Prevented(s, id) <==> ctx.plan
  {
  }

  // A line gets its first log: after it the context is as after a skipped or an executed line.
  lemma CtxAfterLine(s: Machine, s': Machine, pl: nat, i: nat, ctx: Context, skipped: bool)
    requires Tidy(s) && Tidy(s') && SameBelow(s, s', pl) && pl < |s.w.planLogs| && CtxAt(s, pl, i, ctx)
    requires s'.waiting == s.waiting && s'.w.planLogs[pl].parent == s.w.planLogs[pl].parent
    requires |s'.w.commandLogs| == |s.w.commandLogs| + 1
    requires s'.w.commandLogs[|s.w.commandLogs|].planLog == pl
    requires s'.w.commandLogs[|s.w.commandLogs|].skipped == skipped
    requires i == 0 ==> forall j :: 0 <= j < |s.w.commandLogs| ==> s.w.commandLogs[j].planLog != pl
    ensures CtxPast(s', pl, if skipped then Context(ctx.plan, ctx.plan) else Context(ctx.server, ctx.server))
  {
    SameCallPrevented(s, s', pl);
    if i == 0 {
      assert FirstOf(s'.w.commandLogs, |s.w.commandLogs|, pl);
    } else if s.w.planLogs[pl].parent.Some? {
      var f :| FirstOf(s.w.commandLogs, f, pl);
      assert FirstOf(s'.w.commandLogs, f, pl);
      FirstIsOne(s'.w.commandLogs, pl, f);
      FirstIsOne(s.w.commandLogs, pl, f);
    }
  }

  lemma FirstIsOne(logs: seq<CommandLog>, pl: nat, f: int)
    requires FirstOf(logs, f, pl)
    ensures FirstSkipped(logs, pl) <==> logs[f].skipped
    ensures forall g :: FirstOf(logs, g, pl) ==> g == f
  {
  }

  lemma SameBelowLess(s: Machine, s': Machine, bound: nat, less: nat)
    requires SameBelow(s, s', bound) && less <= bound && s'.waiting == s.waiting
    ensures SameBelow(s, s', less)
  {
  }

  lemma CtxPastStays(s: Machine, s': Machine, pl: nat, ctx: Context)
    requires Tidy(s) && Tidy(s') && SameBelow(s, s', |s.w.planLogs|) && s'.waiting == s.waiting
    requires pl < |s.w.planLogs| && CtxPast(s, pl, ctx)
    ensures CtxPast(s', pl, ctx)
  {
    SameBelowLess(s, s', |s.w.planLogs|, pl);
    SameCallPrevented(s, s', pl);
    SameFirst(s, s', |s.w.planLogs|, pl);
    if s.w.planLogs[pl].parent.Some? {
      var f :| FirstOf(s.w.commandLogs, f, pl);
      assert FirstOf(s'.w.commandLogs, f, pl);
    }
  }

  lemma {:induction false} NoLogsYet(logs: seq<CommandLog>, pl: nat)
    requires CommandsOf(logs, pl) == []
    ensures forall j :: 0 <= j < |logs| ==> logs[j].planLog != pl
  {
    if logs != [] {
      NoLogsYet(logs[..|logs| - 1], pl);
    }
  }

  lemma {:induction false} CommandsOfGrows(logs: seq<CommandLog>, more: seq<CommandLog>, pl: nat)
    requires logs <= more
    ensures |CommandsOf(more, pl)| >= |CommandsOf(logs, pl)|
    ensures |CommandsOf(more, pl)| == |CommandsOf(logs, pl)| ==>
              forall j :: |logs| <= j < |more| ==> more[j].planLog != pl
    decreases |more|
  {
    if |logs| < |more| {
      CommandsOfGrows(logs, more[..|more| - 1], pl);
    } else {
      assert more == logs;
    }
  }

  // Command logs that a run adds belong to plan logs that it adds.
  lemma NewLogsBelong(e: Env, w: World, w': World)
    requires Extends(w, w') && (forall x: nat :: Shaped(e, w, x)) && forall x: nat :: Shaped(e, w', x)
    ensures forall j :: |w.commandLogs| <= j < |w'.commandLogs| ==> w'.commandLogs[j].planLog >= |w.planLogs|
  {
    forall j | |w.commandLogs| <= j < |w'.commandLogs|
      ensures w'.commandLogs[j].planLog >= |w.planLogs|
    {
      var q := w'.commandLogs[j].planLog;
      if q < |w.planLogs| {
        assert Shaped(e, w, q) && Shaped(e, w', q) && w'.planLogs[q] == w.planLogs[q];
        CommandsOfGrows(w.commandLogs, w'.commandLogs, q);
      }
    }
  }

  // --- The simulation --------------------------------------------------------------------------

  // The context of a command that has its log.
  ghost predicate CtxOf(s: Machine, id: nat, ctx: Context)
    requires id < |s.w.commandLogs| && s.w.commandLogs[id].planLog < |s.w.planLogs|
  {
    (Prevented(s, id) <==> ctx.plan) && CtxPast(s, s.w.commandLogs[id].planLog, Context(ctx.server, ctx.server))
  }

  // What the machine and the loop do after a command.
  lemma ContinueAsAfter(e: Env, s: Machine, id: nat, ctx: Context) returns (w1: World, verdict: Verdict)
    requires WellFormed(e) && Executed(e, s.w, id, ctx) && InvBut(e, s, Some(s.w.commandLogs[id].planLog))
    ensures var pl := s.w.commandLogs[id].planLog;
            && w1 == SetCustom(s.w, pl, s.w.commandLogs[id].custom).(vars := w1.vars)
            && InvBut(e, s.(w := w1), Some(pl)) && Idle(e, w1) == Idle(e, s.w)
    ensures var pl, custom := s.w.commandLogs[id].planLog, s.w.commandLogs[id].custom;
            verdict == Proceed ==>
              && s.w.planLogs[pl].line.value + 1 < |e.plans[s.w.planLogs[pl].plan].lines|
              && InCourse(e, w1.planLogs[pl], s.w.planLogs[pl].line.value + 1, ctx)
              && Continue(e, s, id) == Advance(e, s.(w := w1), pl, s.w.planLogs[pl].line.value + 1, custom)
              && After(e, s.w, id, ctx) == LineRun(e, w1, pl, s.w.planLogs[pl].line.value + 1, custom, ctx)
    ensures verdict.Finish? ==>
              && Continue(e, s, id) == s.(w := FinishPlanLog(w1, s.w.commandLogs[id].planLog, verdict.status, false))
              && After(e, s.w, id, ctx) == FinishPlanLog(w1, s.w.commandLogs[id].planLog, verdict.status, false)
  {
    hide IdleBut, LineRun, Advance, InvBut, WellFormed, InCourse, Judge;
    var pl := s.w.commandLogs[id].planLog;
    var w0 := SetCustom(s.w, pl, s.w.commandLogs[id].custom);
    w1 := Ruled(e, w0, id);
    verdict := LineVerdict(e, w0, id);
    SamePlansRunning(e, s.w, w1);
    CustomKeepsInv(e, s, pl, w1);
    assert After(e, s.w, id, ctx) == Follow(e, w0, id, ctx);
    if verdict == Proceed {
      FollowGoesOn(e, w0, id, ctx);
    } else {
      FollowFinishes(e, w0, id, ctx);
    }
  }

  lemma {:induction false} ContinuePlays(e: Env, s: Machine, id: nat, ctx: Context)
    returns (actions: seq<Action>, s': Machine)
    requires WellFormed(e) && Executed(e, s.w, id, ctx) && InvBut(e, s, Some(s.w.commandLogs[id].planLog))
    requires Tidy(s) && AllThere(s) && CtxPast(s, s.w.commandLogs[id].planLog, ctx)
    requires !s.w.planLogs[s.w.commandLogs[id].planLog].stopped
    ensures Inv(e, Continue(e, s, id)) && Plays(e, Continue(e, s, id), actions, s')
    ensures s' == s.(w := After(e, s.w, id, ctx))
    decreases Tier(s.w.planLogs[s.w.commandLogs[id].planLog].parent), Idle(e, s.w),
              Rank(e, s.w.planLogs[s.w.commandLogs[id].planLog].plan),
              LinesLeft(e, s.w.planLogs, s.w.commandLogs[id].planLog), 0
  {
    hide IdleBut, InvBut, InCourse, LineRun, After, Advance, CtxPast, Plays, Continue;
    var pl := s.w.commandLogs[id].planLog;
    ContinueKeepsInv(e, s, id);
    var w1, verdict := ContinueAsAfter(e, s, id, ctx);
    if verdict == Proceed {
      CtxPastStays(s, s.(w := w1), pl, ctx);
      CtxAtNext(s.(w := w1), pl, s.w.planLogs[pl].line.value + 1, ctx);
      actions, s' := LinePlays(e, s.(w := w1), pl, s.w.planLogs[pl].line.value + 1, s.w.commandLogs[id].custom, ctx);
    } else {
      actions, s' := [], Continue(e, s, id);
      NothingPlays(e, s');
    }
  }

  lemma CtxAtNext(s: Machine, pl: nat, i: nat, ctx: Context)
    requires pl < |s.w.planLogs| && CtxPast(s, pl, ctx) && i > 0
    ensures CtxAt(s, pl, i, ctx)
  {
  }

  lemma NothingPlays(e: Env, s: Machine)
    requires Resolved(e) && Inv(e, s)
    ensures Plays(e, s, [], s)
  {
  }

  // A line that is skipped or refused.
  lemma RecordedLine(e: Env, s: Machine, pl: nat, i: nat, status: int, skipped: bool, custom: Values, ctx: Context)
    returns (s1: Machine, ctx1: Context)
    requires Resolved(e) && InvBut(e, s, Some(pl)) && OpenPlanLog(e, s.w.planLogs, pl)
    requires i < |e.plans[s.w.planLogs[pl].plan].lines| && Position(s.w.planLogs[pl]) == i
    requires Tidy(s) && AllThere(s) && CtxAt(s, pl, i, ctx)
    ensures s1 == s.(w := RecordCommandLog(SetLine(s.w, pl, i), e.plans[s.w.planLogs[pl].plan].lines[i].command, pl,
                                           status, skipped, custom))
    ensures ctx1 == if skipped then Context(ctx.plan, ctx.plan) else Context(ctx.server, ctx.server)
    ensures InvBut(e, s1, Some(pl)) && Tidy(s1) && AllThere(s1) && CtxPast(s1, pl, ctx1)
  {
    hide CtxPast, CtxAt, Passable;
    s1 := s.(w := RecordCommandLog(SetLine(s.w, pl, i), e.plans[s.w.planLogs[pl].plan].lines[i].command, pl, status,
                                   skipped, custom));
    ctx1 := if skipped then Context(ctx.plan, ctx.plan) else Context(ctx.server, ctx.server);
    RecordLine(e, s, pl, i, status, skipped, custom);
    NoLogsAtStart(e, s, pl);
    CtxAfterLine(s, s1, pl, i, ctx, skipped);
  }

  lemma NoLogsAtStart(e: Env, s: Machine, pl: nat)
    requires InvBut(e, s, Some(pl)) && pl < |s.w.planLogs|
    ensures Position(s.w.planLogs[pl]) == 0 ==>
              forall j :: 0 <= j < |s.w.commandLogs| ==> s.w.commandLogs[j].planLog != pl
  {
    assert Shaped(e, s.w, pl);
    if Position(s.w.planLogs[pl]) == 0 {
      NoLogsYet(s.w.commandLogs, pl);
    }
  }

  // A line whose command starts.
  lemma StartedLine(e: Env, s: Machine, pl: nat, i: nat, custom: Values, ctx: Context) returns (s1: Machine)
    requires Resolved(e) && InvBut(e, s, Some(pl)) && OpenPlanLog(e, s.w.planLogs, pl)
    requires i < |e.plans[s.w.planLogs[pl].plan].lines| && Position(s.w.planLogs[pl]) == i
    requires Tidy(s) && AllThere(s) && CtxAt(s, pl, i, ctx)
    requires var line := e.plans[s.w.planLogs[pl].plan].lines[i];
             && LineExecutable(e, First(|s.w.commandLogs|), line, s.w.vars, custom)
             && Runnable(e, line.command) && Refusal(e, SetLine(s.w, pl, i), line.command).None?
    ensures var id, command := |s.w.commandLogs|, e.plans[s.w.planLogs[pl].plan].lines[i].command;
            && s1.w == StartCommandLog(SetLine(s.w, pl, i), command, pl, custom)
            && s1 == s.(w := s1.w, executing := s.executing + {id})
            && Advance(e, s, pl, i, custom)
               == (if s.w.planLogs[pl].parent.None? then s.(w := s1.w, queue := s.queue + {id}) else s1)
    ensures Inv(e, Advance(e, s, pl, i, custom)) && Inv(e, s1)
    ensures Tidy(s1) && AllThere(s1) && CtxOf(s1, |s.w.commandLogs|, ctx)
  {
    hide CtxAt, CtxOf, Passable, Prevented, InvBut;
    var id, command := |s.w.commandLogs|, e.plans[s.w.planLogs[pl].plan].lines[i].command;
    s1 := s.(w := StartCommandLog(SetLine(s.w, pl, i), command, pl, custom), executing := s.executing + {id});
    AdvanceKeepsInv(e, s, pl, i, custom);
    StartedEither(e, s, pl, i, custom, s1);
    NoLogsAtStart(e, s, pl);
    StartedCtx(s, s1, pl, i, ctx);
  }

  lemma StartedCtx(s: Machine, s1: Machine, pl: nat, i: nat, ctx: Context)
    requires Tidy(s) && Tidy(s1) && pl < |s.w.planLogs| && CtxAt(s, pl, i, ctx)
    requires s1.waiting == s.waiting && s1.w.planLogs == SetLine(s.w, pl, i).planLogs
    requires |s1.w.commandLogs| == |s.w.commandLogs| + 1 && s.w.commandLogs <= s1.w.commandLogs
    requires s1.w.commandLogs[|s.w.commandLogs|].planLog == pl && !s1.w.commandLogs[|s.w.commandLogs|].skipped
    requires i == 0 ==> forall j :: 0 <= j < |s.w.commandLogs| ==> s.w.commandLogs[j].planLog != pl
    ensures CtxOf(s1, |s.w.commandLogs|, ctx)
  {
    hide CtxAt, CtxPast, Prevented, Tidy;
    CtxAfterLine(s, s1, pl, i, ctx, false);
    CtxAtSame(s, s1, pl, i, ctx);
    PreventedAsCtx(s1, |s.w.commandLogs|, ctx);
  }

  lemma StartedEither(e: Env, s: Machine, pl: nat, i: nat, custom: Values, s1: Machine)
    requires Resolved(e) && InvBut(e, s, Some(pl)) && OpenPlanLog(e, s.w.planLogs, pl)
    requires i < |e.plans[s.w.planLogs[pl].plan].lines| && Position(s.w.planLogs[pl]) == i
    requires Runnable(e, e.plans[s.w.planLogs[pl].plan].lines[i].command)
    requires Refusal(e, SetLine(s.w, pl, i), e.plans[s.w.planLogs[pl].plan].lines[i].command).None?
    requires s1 == s.(w := StartCommandLog(SetLine(s.w, pl, i), e.plans[s.w.planLogs[pl].plan].lines[i].command, pl,
                                           custom), executing := s.executing + {|s.w.commandLogs|})
    ensures Inv(e, s1)
  {
    hide InvBut;
    var id := |s.w.commandLogs|;
    var queued := s.(w := s1.w, queue := s.queue + {id});
    if s.w.planLogs[pl].parent.None? {
      StartLine(e, s, pl, i, custom, queued);
      NotPending(e, s, pl, id);
      MovedKeepsInv(e, queued, s1);
    } else {
      StartLine(e, s, pl, i, custom, s1);
    }
  }

  lemma NotPending(e: Env, s: Machine, pl: nat, id: nat)
    requires InvBut(e, s, Some(pl)) && id >= |s.w.commandLogs|
    ensures id !in s.Pending() && PendingOk(s)
  {
  }

  lemma CtxAtSame(s: Machine, s': Machine, pl: nat, i: nat, ctx: Context)
    requires Tidy(s) && Tidy(s') && pl < |s.w.planLogs| && CtxAt(s, pl, i, ctx) && s'.waiting == s.waiting
    requires SameBelow(s, s', pl) && s'.w.planLogs[pl].parent == s.w.planLogs[pl].parent
    ensures CtxAt(s', pl, i, ctx)
  {
    SameCallPrevented(s, s', pl);
    if i > 0 && s.w.planLogs[pl].parent.Some? {
      var f :| FirstOf(s.w.commandLogs, f, pl);
      assert FirstOf(s'.w.commandLogs, f, pl);
      FirstIsOne(s.w.commandLogs, pl, f);
      FirstIsOne(s'.w.commandLogs, pl, f);
    }
  }

  lemma {:induction false} LinePlays(e: Env, s: Machine, pl: nat, i: nat, custom: Values, ctx: Context)
    returns (actions: seq<Action>, s': Machine)
    requires WellFormed(e) && InvBut(e, s, Some(pl)) && OpenPlanLog(e, s.w.planLogs, pl)
    requires i < |e.plans[s.w.planLogs[pl].plan].lines| && Position(s.w.planLogs[pl]) == i
    requires InCourse(e, s.w.planLogs[pl], i, ctx)
    requires Tidy(s) && AllThere(s) && CtxAt(s, pl, i, ctx)
    ensures Inv(e, Advance(e, s, pl, i, custom)) && Plays(e, Advance(e, s, pl, i, custom), actions, s')
    ensures s' == s.(w := LineRun(e, s.w, pl, i, custom, ctx))
    decreases Tier(s.w.planLogs[pl].parent), Idle(e, s.w), Rank(e, s.w.planLogs[pl].plan),
              |e.plans[s.w.planLogs[pl].plan].lines| - i, 5
  {
    hide IdleBut, InvBut, InCourse, PastLine, After, CtxPast, CtxAt, Plays, Continue, Completed, CommandRun;
    var line := e.plans[s.w.planLogs[pl].plan].lines[i];
    AdvanceKeepsInv(e, s, pl, i, custom);
    LineReached(e, s.w, pl, i, ctx);
    assert Runnable(e, line.command);
    if !LineExecutable(e, First(|s.w.commandLogs|), line, s.w.vars, custom) {
      SkippingExecutes(e, s.w, pl, i, custom, ctx);
      var s1, ctx1 := RecordedLine(e, s, pl, i, PLAN_LINE_CONDITION_CHECK_FAILED, true, map[], ctx);
      actions, s' := ContinuePlays(e, s1, |s.w.commandLogs|, ctx1);
    } else if Refusal(e, SetLine(s.w, pl, i), line.command).Some? {
      actions, s' := RefusedPlays(e, s, pl, i, custom, ctx);
    } else {
      actions, s' := StartedPlays(e, s, pl, i, custom, ctx);
    }
  }

  lemma {:induction false} RefusedPlays(e: Env, s: Machine, pl: nat, i: nat, custom: Values, ctx: Context)
    returns (actions: seq<Action>, s': Machine)
    requires WellFormed(e) && InvBut(e, s, Some(pl)) && OpenPlanLog(e, s.w.planLogs, pl)
    requires i < |e.plans[s.w.planLogs[pl].plan].lines| && Position(s.w.planLogs[pl]) == i
    requires InCourse(e, s.w.planLogs[pl], i, ctx)
    requires Tidy(s) && AllThere(s) && CtxAt(s, pl, i, ctx)
    requires var line := e.plans[s.w.planLogs[pl].plan].lines[i];
             && LineExecutable(e, First(|s.w.commandLogs|), line, s.w.vars, custom)
             && Runnable(e, line.command) && Refusal(e, SetLine(s.w, pl, i), line.command).Some?
    ensures Inv(e, Advance(e, s, pl, i, custom)) && Plays(e, Advance(e, s, pl, i, custom), actions, s')
    ensures s' == s.(w := LineRun(e, s.w, pl, i, custom, ctx))
    decreases Tier(s.w.planLogs[pl].parent), Idle(e, s.w), Rank(e, s.w.planLogs[pl].plan),
              |e.plans[s.w.planLogs[pl].plan].lines| - i, 4
  {
    hide IdleBut, InvBut, InCourse, PastLine, After, CtxPast, CtxAt, Plays, Continue, CommandRun;
    var command, w1 := e.plans[s.w.planLogs[pl].plan].lines[i].command, SetLine(s.w, pl, i);
    AdvanceKeepsInv(e, s, pl, i, custom);
    LineReached(e, s.w, pl, i, ctx);
    CommandRunRefused(e, w1, command, pl, custom, ctx);
    RecordingKeepsRunning(e, w1, command, pl, Refusal(e, w1, command).value, false, custom);
    var s1, ctx1 := RecordedLine(e, s, pl, i, Refusal(e, w1, command).value, false, custom, ctx);
    actions, s' := ContinuePlays(e, s1, |s.w.commandLogs|, ctx1);
    assert LineRun(e, s.w, pl, i, custom, ctx) == CommandRun(e, w1, command, pl, custom, ctx);
  }

  lemma {:induction false} StartedPlays(e: Env, s: Machine, pl: nat, i: nat, custom: Values, ctx: Context)
    returns (actions: seq<Action>, s': Machine)
    requires WellFormed(e) && InvBut(e, s, Some(pl)) && OpenPlanLog(e, s.w.planLogs, pl)
    requires i < |e.plans[s.w.planLogs[pl].plan].lines| && Position(s.w.planLogs[pl]) == i
    requires InCourse(e, s.w.planLogs[pl], i, ctx)
    requires Tidy(s) && AllThere(s) && CtxAt(s, pl, i, ctx)
    requires var line := e.plans[s.w.planLogs[pl].plan].lines[i];
             && LineExecutable(e, First(|s.w.commandLogs|), line, s.w.vars, custom)
             && Runnable(e, line.command) && Refusal(e, SetLine(s.w, pl, i), line.command).None?
    ensures Inv(e, Advance(e, s, pl, i, custom)) && Plays(e, Advance(e, s, pl, i, custom), actions, s')
    ensures s' == s.(w := LineRun(e, s.w, pl, i, custom, ctx))
    decreases Tier(s.w.planLogs[pl].parent), Idle(e, s.w), Rank(e, s.w.planLogs[pl].plan),
              |e.plans[s.w.planLogs[pl].plan].lines| - i, 4
  {
    hide IdleBut, InvBut, InCourse, PastLine, After, CtxPast, CtxAt, CtxOf, Plays, Continue, CommandRun, Completed;
    var command, w1 := e.plans[s.w.planLogs[pl].plan].lines[i].command, SetLine(s.w, pl, i);
    var id := |s.w.commandLogs|;
    LineReached(e, s.w, pl, i, ctx);
    CommandRunStarts(e, w1, command, pl, custom, ctx);
    var s1 := StartedLine(e, s, pl, i, custom, ctx);
    actions, s' := CommandPlays(e, s1, id, ctx);
    assert LineRun(e, s.w, pl, i, custom, ctx) == CommandRun(e, w1, command, pl, custom, ctx);
    if s.w.planLogs[pl].parent.None? {
      QueuedPlays(e, s, pl, Advance(e, s, pl, i, custom), s1, id, actions, s');
      actions := [StartJob(id)] + actions;
    }
    NotPending(e, s, pl, id);
    assert s.executing + {id} - {id} == s.executing;
  }

  // A queued command starts as a job.
  lemma QueuedPlays(e: Env, before: Machine, pl: nat, s: Machine, s1: Machine, id: nat, actions: seq<Action>,
                    s': Machine)
    requires Resolved(e) && Inv(e, s) && Inv(e, s1) && InvBut(e, before, Some(pl)) && id == |before.w.commandLogs|
    requires s == before.(w := s.w, queue := before.queue + {id})
    requires s1 == before.(w := s.w, executing := before.executing + {id})
    requires id < |s.w.commandLogs| && s.w.commandLogs[id].running && Plays(e, s1, actions, s')
    ensures Plays(e, s, [StartJob(id)] + actions, s')
  {
    hide Plays, Advance, Continue;
    NotPending(e, before, pl, id);
    PendingLog(e, s, id);
    assert PlanLogOk(e, s.w, s.w.commandLogs[id].planLog, None);
    assert before.queue + {id} - {id} == before.queue;
    assert Apply(e, s, StartJob(id)) == s1;
    PlaysFirst(e, s, StartJob(id), actions, s');
  }

  lemma {:induction false} CommandPlays(e: Env, s: Machine, id: nat, ctx: Context)
    returns (actions: seq<Action>, s': Machine)
    requires WellFormed(e) && Inv(e, s) && id in s.executing && Executable(e, s.w, id, ctx)
    requires Tidy(s) && AllThere(s) && CtxOf(s, id, ctx)
    ensures Plays(e, s, actions, s')
    ensures s' == s.(w := Completed(e, s.w, id, ctx), executing := s.executing - {id})
    decreases Tier(s.w.planLogs[s.w.commandLogs[id].planLog].parent), IdleBut(e, s.w, Some(id)),
              Rank(e, s.w.planLogs[s.w.commandLogs[id].planLog].plan),
              LinesLeft(e, s.w.planLogs, s.w.commandLogs[id].planLog), 3
  {
    if e.commands[s.w.commandLogs[id].command].runner.Nested? {
      actions, s' := NestedPlays(e, s, id, ctx);
    } else {
      actions, s' := ResultPlays(e, s, id, ctx);
    }
  }

  // The result of command `id`, whose log is finished in `s2`, is taken.
  lemma {:induction false} TakenPlays(e: Env, s: Machine, a: Action, s2: Machine, id: nat, ctx: Context)
    returns (actions: seq<Action>, s': Machine)
    requires WellFormed(e) && Inv(e, s) && Enabled(e, s, a) && Undisturbed(e, s, a)
    requires id < |s2.w.commandLogs| && CanFollow(e, s2.w.planLogs, s2.w.commandLogs[id].planLog)
    requires Apply(e, s, a) == Continue(e, s2, id)
    requires Executed(e, s2.w, id, ctx) && InvBut(e, s2, Some(s2.w.commandLogs[id].planLog))
    requires Tidy(s2) && AllThere(s2) && CtxPast(s2, s2.w.commandLogs[id].planLog, ctx)
    ensures Plays(e, s, actions, s') && s' == s2.(w := After(e, s2.w, id, ctx))
    decreases Tier(s2.w.planLogs[s2.w.commandLogs[id].planLog].parent), Idle(e, s2.w),
              Rank(e, s2.w.planLogs[s2.w.commandLogs[id].planLog].plan),
              LinesLeft(e, s2.w.planLogs, s2.w.commandLogs[id].planLog), 1
  {
    hide IdleBut, InvBut, InCourse, PastLine, After, CtxPast, Plays, Continue, Apply, Undisturbed, Enabled;
    var more;
    more, s' := ContinuePlays(e, s2, id, ctx);
    PlaysFirst(e, s, a, more, s');
    actions := [a] + more;
  }

  lemma {:induction false} ResultPlays(e: Env, s: Machine, id: nat, ctx: Context)
    returns (actions: seq<Action>, s': Machine)
    requires WellFormed(e) && Inv(e, s) && id in s.executing && Executable(e, s.w, id, ctx)
    requires !e.commands[s.w.commandLogs[id].command].runner.Nested?
    requires Tidy(s) && AllThere(s) && CtxOf(s, id, ctx)
    ensures Plays(e, s, actions, s')
    ensures s' == s.(w := Completed(e, s.w, id, ctx), executing := s.executing - {id})
    decreases Tier(s.w.planLogs[s.w.commandLogs[id].planLog].parent), IdleBut(e, s.w, Some(id)),
              Rank(e, s.w.planLogs[s.w.commandLogs[id].planLog].plan),
              LinesLeft(e, s.w.planLogs, s.w.commandLogs[id].planLog), 2
  {
    hide IdleBut, InCourse, PastLine, After, CtxPast, Prevented, Plays, Continue, MayStart;
    var log, ctx1 := s.w.commandLogs[id], Context(ctx.server, ctx.server);
    var outcome := e.oracle.outcome(id, log.command, s.w.vars, log.custom);
    PendingLog(e, s, id);
    var s1, s2 := ResultTaken(e, s, id, outcome);
    PastAfterLine(e, s.w.planLogs[log.planLog], s.w.planLogs[log.planLog].line.value, ctx);
    CtxPastStays(s, s2, log.planLog, ctx1);
    SamePlansRunning(e, s.w, s1.w);
    FinishingKeepsOthers(e, s1.w, id, s2.w.commandLogs[id].status, s2.w.commandLogs[id].custom);
    assert Execute(e, s.w, id, ctx) == s2.w;
    actions, s' := TakenPlays(e, s, CommandResult(id, outcome), s2, id, ctx1);
  }

  lemma ResultTaken(e: Env, s: Machine, id: nat, outcome: Outcome) returns (s1: Machine, s2: Machine)
    requires Resolved(e) && Inv(e, s) && Enabled(e, s, CommandResult(id, outcome))
    requires id < |s.w.commandLogs| && s.w.commandLogs[id].running
    ensures var log := s.w.commandLogs[id];
            && log.command in e.commands
            && var r := Effect(e, s.w, id, outcome);
            && s1 == s.(w := s.w.(vars := r.vars), executing := s.executing - {id})
            && s2 == s1.(w := FinishCommandLog(s1.w, id, r.status,
                                               if r.custom.Some? then r.custom.value else log.custom))
    ensures id < |s2.w.commandLogs| && CanFollow(e, s2.w.planLogs, s2.w.commandLogs[id].planLog)
    ensures Apply(e, s, CommandResult(id, outcome)) == Continue(e, s2, id)
    ensures InvBut(e, s2, Some(s2.w.commandLogs[id].planLog))
  {
    hide Continue;
    PendingLog(e, s, id);
    var r := Effect(e, s.w, id, outcome);
    s1 := s.(w := s.w.(vars := r.vars), executing := s.executing - {id});
    var custom' := if r.custom.Some? then r.custom.value else s.w.commandLogs[id].custom;
    s2 := s1.(w := FinishCommandLog(s1.w, id, r.status, custom'));
    FinishOpensGap(e, s, s1, id, r.status, custom');
  }

  lemma {:induction false} NestedPlays(e: Env, s: Machine, id: nat, ctx: Context)
    returns (actions: seq<Action>, s': Machine)
    requires WellFormed(e) && Inv(e, s) && id in s.executing && Executable(e, s.w, id, ctx)
    requires e.commands[s.w.commandLogs[id].command].runner.Nested?
    requires Tidy(s) && AllThere(s) && CtxOf(s, id, ctx)
    ensures Plays(e, s, actions, s')
    ensures s' == s.(w := Completed(e, s.w, id, ctx), executing := s.executing - {id})
    decreases Tier(s.w.planLogs[s.w.commandLogs[id].planLog].parent), IdleBut(e, s.w, Some(id)),
              Rank(e, s.w.planLogs[s.w.commandLogs[id].planLog].plan),
              LinesLeft(e, s.w.planLogs, s.w.commandLogs[id].planLog), 2
  {
    hide IdleBut, InvBut, InCourse, PastLine, After, CtxPast, Prevented, CallPrevented, Plays, Continue, MayStart,
         Tidy, AllThere, PlanRun, Apply, Undisturbed, Enabled, RunSingle;
    var log, ctx1 := s.w.commandLogs[id], Context(ctx.server, ctx.server);
    var q, a := e.commands[log.command].runner.plan, StartNested(id, ctx.plan);
    var s1 := CallStarts(e, s, id, ctx);
    if s.w.planLogs[log.planLog].parent.Some? {
      NestedStartDecreases(e, s.w, id, ctx);
    }
    var acts, s2 := RunPlays(e, s1, q, Some(log.planLog), log.custom, Context(ctx.plan, true));
    PlaysFirst(e, s, a, acts, s2);
    PlaysIsRun(e, s, [a] + acts, s2);
    var s3 := CallEnds(e, s, s1, s2, id, ctx);
    assert Execute(e, s.w, id, ctx) == s3.w;
    ExecutionKeepsRunning(e, s.w, s3.w, id);
    PastAfterLine(e, s.w.planLogs[log.planLog], s.w.planLogs[log.planLog].line.value, ctx);
    var more;
    more, s' := TakenPlays(e, s2, EndNested(id), s3, id, ctx1);
    PlaysOn(e, s, [a] + acts, s2, more, s');
    actions := [a] + acts + more;
  }

  lemma CallStarts(e: Env, s: Machine, id: nat, ctx: Context) returns (s1: Machine)
    requires Resolved(e) && Inv(e, s) && id in s.executing && Executable(e, s.w, id, ctx)
    requires e.commands[s.w.commandLogs[id].command].runner.Nested?
    requires Tidy(s) && AllThere(s) && CtxOf(s, id, ctx)
    ensures s1 == s.(executing := s.executing - {id}, waiting := s.waiting[id := |s.w.planLogs|])
    ensures Inv(e, s1) && Tidy(s1) && id !in s.waiting
    ensures CallPrevented(s1, |s.w.planLogs|) <==> ctx.plan
    ensures var a, log := StartNested(id, ctx.plan), s.w.commandLogs[id];
            && Enabled(e, s, a) && Undisturbed(e, s, a)
            && Apply(e, s, a) == RunSingle(e, s1, e.commands[log.command].runner.plan, Some(log.planLog), log.custom,
                                           ctx.plan)
  {
    hide RunSingle, CtxPast, InCourse;
    PendingLog(e, s, id);
    s1 := s.(executing := s.executing - {id}, waiting := s.waiting[id := |s.w.planLogs|]);
    MovedKeepsInv(e, s, s1);
    OnlyCaller(s, s1, id);
  }

  lemma OnlyCaller(s: Machine, s1: Machine, id: nat)
    requires Tidy(s) && AllThere(s) && id !in s.waiting
    requires id < |s.w.commandLogs| && s.w.commandLogs[id].planLog < |s.w.planLogs|
    requires s1 == s.(executing := s1.executing, waiting := s.waiting[id := |s.w.planLogs|])
    ensures Tidy(s1) && (CallPrevented(s1, |s.w.planLogs|) <==> Prevented(s, id))
  {
    SamePrevented(s, s1, |s.w.planLogs|, id);
    assert Waits(s1, id, |s.w.planLogs|);
    forall x: nat | Waits(s1, x, |s.w.planLogs|)
      ensures x == id
    {
    }
  }

  // The called plan is over; its status and its custom values are handed on.
  lemma CallEnds(e: Env, s: Machine, s1: Machine, s2: Machine, id: nat, ctx: Context) returns (s3: Machine)
    requires Resolved(e) && Inv(e, s) && Inv(e, s2) && id in s.executing && Executable(e, s.w, id, ctx)
    requires Tidy(s) && AllThere(s) && CtxOf(s, id, ctx) && id !in s.waiting
    requires s1 == s.(executing := s.executing - {id}, waiting := s.waiting[id := |s.w.planLogs|])
    requires s2 == s1.(w := s2.w) && Extends(s.w, s2.w) && |s.w.planLogs| < |s2.w.planLogs|
    ensures var nested := s2.w.planLogs[|s.w.planLogs|];
            && id < |s2.w.commandLogs|
            && s3 == s.(w := FinishCommandLog(s2.w, id, nested.status, nested.custom),
                        executing := s.executing - {id})
    ensures Enabled(e, s2, EndNested(id)) && Undisturbed(e, s2, EndNested(id))
    ensures id < |s3.w.commandLogs| && CanFollow(e, s3.w.planLogs, s3.w.commandLogs[id].planLog)
    ensures Apply(e, s2, EndNested(id)) == Continue(e, s3, id)
    ensures s3.w.commandLogs[id].planLog == s.w.commandLogs[id].planLog
    ensures s3.w.planLogs[s.w.commandLogs[id].planLog] == s.w.planLogs[s.w.commandLogs[id].planLog]
    ensures InvBut(e, s3, Some(s3.w.commandLogs[id].planLog)) && Tidy(s3) && AllThere(s3)
    ensures CtxPast(s3, s.w.commandLogs[id].planLog, Context(ctx.server, ctx.server))
  {
    hide Continue, CtxPast, CtxOf, Prevented, InCourse, MayStart, Extends, InvBut, Tidy, AllThere;
    var nested := s2.w.planLogs[|s.w.planLogs|];
    PendingLog(e, s, id);
    GrownWorld(s.w, s2.w);
    s3 := CallTaken(e, s2, id);
    assert s3.waiting == s.waiting && s3.w.planLogs == s2.w.planLogs;
    CalledCtx(e, s, s2, s3, id, ctx);
  }

  lemma GrownWorld(w: World, w': World)
    requires Extends(w, w')
    ensures w.planLogs <= w'.planLogs && w.commandLogs <= w'.commandLogs
    ensures forall j :: |w.planLogs| <= j < |w'.planLogs| ==> !w'.planLogs[j].running
  {
  }

  // The step that hands them on.
  lemma CallTaken(e: Env, s: Machine, id: nat) returns (s1: Machine)
    requires Resolved(e) && Inv(e, s) && Enabled(e, s, EndNested(id))
    requires id < |s.w.commandLogs| && s.w.commandLogs[id].running
    ensures var nested := s.w.planLogs[s.waiting[id]];
            s1 == s.(w := FinishCommandLog(s.w, id, nested.status, nested.custom), waiting := s.waiting - {id})
    ensures CanFollow(e, s1.w.planLogs, s1.w.commandLogs[id].planLog)
    ensures Apply(e, s, EndNested(id)) == Continue(e, s1, id)
    ensures InvBut(e, s1, Some(s1.w.commandLogs[id].planLog))
  {
    hide Continue;
    var nested := s.w.planLogs[s.waiting[id]];
    PendingLog(e, s, id);
    var released := s.(waiting := s.waiting - {id});
    s1 := released.(w := FinishCommandLog(s.w, id, nested.status, nested.custom));
    FinishOpensGap(e, s, released, id, nested.status, nested.custom);
  }

  lemma CalledCtx(e: Env, s: Machine, s2: Machine, s3: Machine, id: nat, ctx: Context)
    requires Inv(e, s) && Inv(e, s2) && Extends(s.w, s2.w) && Tidy(s) && AllThere(s)
    requires id < |s.w.commandLogs| && s.w.commandLogs[id].planLog < |s.w.planLogs| && CtxOf(s, id, ctx)
    requires s3.waiting == s.waiting && s3.w.planLogs == s2.w.planLogs && |s3.w.commandLogs| == |s2.w.commandLogs|
    requires s3.w.commandLogs == s2.w.commandLogs[id := s3.w.commandLogs[id]]
    requires s3.w.commandLogs[id].planLog == s2.w.commandLogs[id].planLog
    requires s3.w.commandLogs[id].skipped == s2.w.commandLogs[id].skipped
    ensures Tidy(s3) && AllThere(s3) && CtxPast(s3, s.w.commandLogs[id].planLog, Context(ctx.server, ctx.server))
  {
    hide CtxPast, Prevented;
    NewLogsBelong(e, s.w, s2.w);
    CtxPastStays(s, s3, s.w.commandLogs[id].planLog, Context(ctx.server, ctx.server));
  }

  lemma {:induction false} RunPlays(e: Env, s: Machine, plan: PlanId, parent: Option<nat>, custom: Values,
                                    ctx: Context)
    returns (actions: seq<Action>, s': Machine)
    requires WellFormed(e) && Inv(e, s) && plan in e.plans && Tidy(s)
    requires if parent.None? then ctx == NO_CONTEXT else ctx == Context(CallPrevented(s, |s.w.planLogs|), true)
    ensures Inv(e, RunSingle(e, s, plan, parent, custom, ctx.plan))
    ensures Plays(e, RunSingle(e, s, plan, parent, custom, ctx.plan), actions, s')
    ensures s' == s.(w := PlanRun(e, s.w, plan, parent, custom, ctx))
    decreases Tier(parent), StartBudget(e, s.w, plan, ctx), Rank(e, plan), |e.plans[plan].lines| + 1, 0
  {
    hide IdleBut, InvBut, InCourse, Plays, Advance, LineRun, CallPrevented;
    RunSingleKeepsInv(e, s, plan, parent, custom, ctx.plan);
    if (parent.None? && !e.plans[plan].compatible) || !PlanAdmitted(e, s.w, plan, ctx) || e.plans[plan].lines == [] {
      actions, s' := [], RunSingle(e, s, plan, parent, custom, ctx.plan);
      NothingPlays(e, s');
    } else {
      var w1 := StartPlanLog(s.w, plan, parent, custom);
      NewPlanLogKeepsInv(e, s, w1.planLogs[|s.w.planLogs|], w1);
      StartedOpens(e, s.w, plan, parent, custom, ctx);
      SameCallPrevented(s, s.(w := w1), |s.w.planLogs|);
      actions, s' := LinePlays(e, s.(w := w1), |s.w.planLogs|, 0, custom, ctx);
    }
  }
}
