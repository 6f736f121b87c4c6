/** What every run of a flight plan leaves behind, whatever its commands do: the order of its log writes,
    and which command logs it made. */
module PlanTrace {
  import opened Basics
  import opened FlightPlan
  import opened PlanLoop

  // --- Open logs ---------------------------------------------------------------------------

  datatype Frame = PlanFrame(id: nat) | CommandFrame(id: nat)

  /** The logs open after `history`, innermost last; `None` once a log is finished that is not the
      innermost open one. */
  function Open(history: seq<Event>): Option<seq<Frame>> {
    if history == [] then Some([])
    else
      var before := Open(history[..|history| - 1]);
      if before.None? then None
      else
        var frames := before.value;
        match history[|history| - 1]
        case PlanStarted(id) => Some(frames + [PlanFrame(id)])
        case CommandStarted(id) => Some(frames + [CommandFrame(id)])
        case PlanFinished(id) => Close(frames, PlanFrame(id))
        case CommandFinished(id) => Close(frames, CommandFrame(id))
        case PlanRecorded(_) => Some(frames)
        case CommandRecorded(_) => Some(frames)
  }

  function Close(frames: seq<Frame>, frame: Frame): Option<seq<Frame>> {
    if frames != [] && frames[|frames| - 1] == frame then Some(frames[..|frames| - 1]) else None
  }

  lemma OpenAppend(history: seq<Event>, event: Event)
    ensures (history + [event])[..|history|] == history
    ensures Open(history).Some? && event.PlanStarted? ==>
              Open(history + [event]) == Some(Open(history).value + [PlanFrame(event.id)])
    ensures Open(history).Some? && event.CommandStarted? ==>
              Open(history + [event]) == Some(Open(history).value + [CommandFrame(event.id)])
    ensures Open(history).Some? && event.PlanFinished? ==>
              Open(history + [event]) == Close(Open(history).value, PlanFrame(event.id))
    ensures Open(history).Some? && event.CommandFinished? ==>
              Open(history + [event]) == Close(Open(history).value, CommandFrame(event.id))
    ensures event.PlanRecorded? || event.CommandRecorded? ==> Open(history + [event]) == Open(history)
  {
    assert (history + [event])[..|history|] == history;
  }

  // --- Counting ----------------------------------------------------------------------------

  function Count(history: seq<Event>, event: Event): nat {
    if history == [] then 0
    else Count(history[..|history| - 1], event) + (if history[|history| - 1] == event then 1 else 0)
  }

  function CountFrames(frames: seq<Frame>, frame: Frame): nat {
    if frames == [] then 0
    else CountFrames(frames[..|frames| - 1], frame) + (if frames[|frames| - 1] == frame then 1 else 0)
  }

  // Plan log `x` entered the history once if it exists, and otherwise never.
  ghost predicate Allocated(w: World, x: nat) {
    Count(w.history, PlanStarted(x)) + Count(w.history, PlanRecorded(x)) == if x < |w.planLogs| then 1 else 0
  }

  lemma CountAppend(history: seq<Event>, added: Event, event: Event)
    ensures Count(history + [added], event) == Count(history, event) + (if added == event then 1 else 0)
  {
    assert (history + [added])[..|history|] == history;
  }

  /** As long as logs close innermost first, every start is matched: what was started and not finished is open. */
  lemma {:induction false} StartsMatchFinishes(history: seq<Event>, x: nat)
    requires Open(history).Some?
    ensures Count(history, PlanStarted(x))
            == Count(history, PlanFinished(x)) + CountFrames(Open(history).value, PlanFrame(x))
  {
    if history != [] {
      var before := Open(history[..|history| - 1]).value;
      StartsMatchFinishes(history[..|history| - 1], x);
      var after := Open(history).value;
      match history[|history| - 1]
      case PlanStarted(_) => assert after[..|after| - 1] == before;
      case CommandStarted(_) => assert after[..|after| - 1] == before;
      case _ =>
    }
  }

  // --- Command logs of a plan log ----------------------------------------------------------

  /** The commands of the logs that belong to plan log `pl`, in log order. */
  function CommandsOf(logs: seq<CommandLog>, pl: nat): seq<CommandId> {
    if logs == [] then []
    else
      var last := logs[|logs| - 1];
      CommandsOf(logs[..|logs| - 1], pl) + (if last.planLog == pl then [last.command] else [])
  }

  function LineCommands(lines: seq<Line>): seq<CommandId> {
    seq(|lines|, i requires 0 <= i < |lines| => lines[i].command)
  }

  lemma CommandsOfAppend(logs: seq<CommandLog>, log: CommandLog, pl: nat)
    ensures CommandsOf(logs + [log], pl) == CommandsOf(logs, pl) + (if log.planLog == pl then [log.command] else [])
  {
    assert (logs + [log])[..|logs|] == logs;
  }

  lemma {:induction false} CommandsOfUpdate(logs: seq<CommandLog>, id: nat, log: CommandLog, pl: nat)
    requires id < |logs| && log.planLog == logs[id].planLog && log.command == logs[id].command
    ensures CommandsOf(logs[id := log], pl) == CommandsOf(logs, pl)
  {
    var n := |logs| - 1;
    if id < n {
      assert logs[id := log][..n] == logs[..n][id := log];
      CommandsOfUpdate(logs[..n], id, log, pl);
    } else {
      assert logs[id := log][..n] == logs[..n];
    }
  }

  // --- One induction over the loop ---------------------------------------------------------

  // How many lines of its plan a plan log has been through.
  function Position(log: PlanLog): nat {
    if log.line.None? then 0 else log.line.value + 1
  }

  ghost predicate HasRun(e: Env, w: World, pl: nat, lines: nat) {
    && pl < |w.planLogs| && w.planLogs[pl].plan in e.plans
    && lines <= |e.plans[w.planLogs[pl].plan].lines|
    && CommandsOf(w.commandLogs, pl) == LineCommands(e.plans[w.planLogs[pl].plan].lines[..lines])
  }

  /** The command logs of plan log `x` are one for each line up to the one it stands at, in line order. */
  ghost predicate Shaped(e: Env, w: World, x: nat) {
    if x < |w.planLogs| then HasRun(e, w, x, Position(w.planLogs[x])) else CommandsOf(w.commandLogs, x) == []
  }

  // As `Shaped`, but plan log `pl` stands at a line that has no command log yet.
  ghost predicate ShapedBut(e: Env, w: World, x: nat, pl: nat) {
    if x == pl < |w.planLogs| && w.planLogs[x].line.Some? then HasRun(e, w, x, w.planLogs[x].line.value)
    else Shaped(e, w, x)
  }

  // Seen from an arbitrary plan log `x`: the open frames are `frames`, and `x` entered the history as it should.
  ghost predicate Tracked(w: World, x: nat, frames: seq<Frame>) {
    Open(w.history) == Some(frames) && Allocated(w, x)
  }

  // A line gets its command log.
  lemma AddedLogShaped(e: Env, w: World, log: CommandLog, x: nat)
    requires AtLine(e, w.planLogs, log.planLog)
    requires log.command == e.plans[w.planLogs[log.planLog].plan].lines[w.planLogs[log.planLog].line.value].command
    requires ShapedBut(e, w, x, log.planLog)
    ensures Shaped(e, w.(commandLogs := w.commandLogs + [log]), x)
  {
    CommandsOfAppend(w.commandLogs, log, x);
    if x == log.planLog {
      var lines, i := e.plans[w.planLogs[x].plan].lines, w.planLogs[x].line.value;
      assert LineCommands(lines[..i + 1]) == LineCommands(lines[..i]) + [log.command];
    }
  }

  lemma RecordCommandTracked(e: Env, w: World, command: CommandId, pl: nat, status: int, skipped: bool, custom: Values,
                             x: nat, frames: seq<Frame>)
    requires AtLine(e, w.planLogs, pl)
    requires command == e.plans[w.planLogs[pl].plan].lines[w.planLogs[pl].line.value].command
    requires Tracked(w, x, frames) && ShapedBut(e, w, x, pl)
    ensures var w' := RecordCommandLog(w, command, pl, status, skipped, custom);
            Tracked(w', x, frames) && Shaped(e, w', x)
  {
    OpenAppend(w.history, CommandRecorded(|w.commandLogs|));
    CountAppend(w.history, CommandRecorded(|w.commandLogs|), PlanStarted(x));
    CountAppend(w.history, CommandRecorded(|w.commandLogs|), PlanRecorded(x));
    AddedLogShaped(e, w, CommandLog(command, pl, false, status, skipped, custom), x);
  }

  lemma StartCommandTracked(e: Env, w: World, command: CommandId, pl: nat, custom: Values, x: nat, frames: seq<Frame>)
    requires AtLine(e, w.planLogs, pl)
    requires command == e.plans[w.planLogs[pl].plan].lines[w.planLogs[pl].line.value].command
    requires Tracked(w, x, frames) && ShapedBut(e, w, x, pl)
    ensures var w' := StartCommandLog(w, command, pl, custom);
            Tracked(w', x, frames + [CommandFrame(|w.commandLogs|)]) && Shaped(e, w', x)
  {
    OpenAppend(w.history, CommandStarted(|w.commandLogs|));
    CountAppend(w.history, CommandStarted(|w.commandLogs|), PlanStarted(x));
    CountAppend(w.history, CommandStarted(|w.commandLogs|), PlanRecorded(x));
    AddedLogShaped(e, w, CommandLog(command, pl, true, 0, false, custom), x);
  }

  lemma FinishCommandTracked(e: Env, w: World, id: nat, status: int, custom: Values, x: nat, frames: seq<Frame>)
    requires id < |w.commandLogs| && Tracked(w, x, frames + [CommandFrame(id)]) && Shaped(e, w, x)
    ensures var w' := FinishCommandLog(w, id, status, custom);
            Tracked(w', x, frames) && Shaped(e, w', x) && EndsWith(w', CommandFinished(id))
  {
    OpenAppend(w.history, CommandFinished(id));
    CountAppend(w.history, CommandFinished(id), PlanStarted(x));
    CountAppend(w.history, CommandFinished(id), PlanRecorded(x));
    CommandsOfUpdate(w.commandLogs, id, w.commandLogs[id].(running := false, status := status, custom := custom), x);
    assert (frames + [CommandFrame(id)])[..|frames|] == frames;
  }

  lemma FinishPlanTracked(e: Env, w: World, pl: nat, status: int, x: nat, frames: seq<Frame>)
    requires pl < |w.planLogs| && Tracked(w, x, frames + [PlanFrame(pl)]) && Shaped(e, w, x)
    ensures var w' := FinishPlanLog(w, pl, status, false);
            Tracked(w', x, frames) && Shaped(e, w', x) && EndsWith(w', PlanFinished(pl))
  {
    OpenAppend(w.history, PlanFinished(pl));
    CountAppend(w.history, PlanFinished(pl), PlanStarted(x));
    CountAppend(w.history, PlanFinished(pl), PlanRecorded(x));
    assert (frames + [PlanFrame(pl)])[..|frames|] == frames;
  }

  lemma StartPlanTracked(e: Env, w: World, plan: PlanId, parent: Option<nat>, custom: Values, x: nat,
                         frames: seq<Frame>)
    requires plan in e.plans && Tracked(w, x, frames) && Shaped(e, w, x)
    ensures var w' := StartPlanLog(w, plan, parent, custom);
            Tracked(w', x, frames + [PlanFrame(|w.planLogs|)]) && Shaped(e, w', x)
  {
    OpenAppend(w.history, PlanStarted(|w.planLogs|));
    CountAppend(w.history, PlanStarted(|w.planLogs|), PlanStarted(x));
    CountAppend(w.history, PlanStarted(|w.planLogs|), PlanRecorded(x));
  }

  lemma RecordPlanTracked(e: Env, w: World, plan: PlanId, parent: Option<nat>, status: int, x: nat, frames: seq<Frame>)
    requires plan in e.plans && Tracked(w, x, frames) && Shaped(e, w, x)
    ensures var w' := RecordPlanLog(w, plan, parent, status);
            Tracked(w', x, frames) && Shaped(e, w', x) && EndsWith(w', PlanRecorded(|w.planLogs|))
  {
    OpenAppend(w.history, PlanRecorded(|w.planLogs|));
    CountAppend(w.history, PlanRecorded(|w.planLogs|), PlanStarted(x));
    CountAppend(w.history, PlanRecorded(|w.planLogs|), PlanRecorded(x));
  }

  // The rule of a line writes server variables only.
  lemma RuledTracked(e: Env, w: World, id: nat, x: nat, frames: seq<Frame>)
    requires id < |w.commandLogs| && AtLine(e, w.planLogs, w.commandLogs[id].planLog)
    requires Tracked(w, x, frames) && Shaped(e, w, x)
    ensures var w1 := Ruled(e, w, id);
            w1.planLogs == w.planLogs && Tracked(w1, x, frames) && Shaped(e, w1, x) && Idle(e, w1) == Idle(e, w)
  {
    SamePlansRunning(e, w, Ruled(e, w, id));
  }

  lemma FollowGoesOn(e: Env, w: World, id: nat, ctx: Context)
    requires WellFormed(e) && Executed(e, w, id, ctx) && LineVerdict(e, w, id) == Proceed
    ensures var pl := w.commandLogs[id].planLog;
            && w.planLogs[pl].line.value + 1 < |e.plans[w.planLogs[pl].plan].lines|
            && InCourse(e, w.planLogs[pl], w.planLogs[pl].line.value + 1, ctx)
            && Follow(e, w, id, ctx)
               == LineRun(e, Ruled(e, w, id), pl, w.planLogs[pl].line.value + 1, w.planLogs[pl].custom, ctx)
  {
    hide IdleBut, LineRun, Judge;
    GoesOn(e, w, id, ctx);
  }

  lemma FollowFinishes(e: Env, w: World, id: nat, ctx: Context)
    requires WellFormed(e) && Executed(e, w, id, ctx) && LineVerdict(e, w, id).Finish?
    ensures Follow(e, w, id, ctx)
            == FinishPlanLog(Ruled(e, w, id), w.commandLogs[id].planLog, LineVerdict(e, w, id).status, false)
  {
  }

  lemma {:induction false} PlanRunTraced(e: Env, w: World, plan: PlanId, parent: Option<nat>, custom: Values,
                                         ctx: Context, x: nat, frames: seq<Frame>)
    requires WellFormed(e) && plan in e.plans && (parent.Some? ==> ctx.server)
    requires Tracked(w, x, frames) && Shaped(e, w, x)
    ensures var w' := PlanRun(e, w, plan, parent, custom, ctx);
            && Tracked(w', x, frames) && Shaped(e, w', x)
            && (EndsWith(w', PlanFinished(|w.planLogs|)) || EndsWith(w', PlanRecorded(|w.planLogs|)))
    decreases Tier(parent), StartBudget(e, w, plan, ctx), Rank(e, plan), |e.plans[plan].lines| + 1, 0
  {
    if parent.None? && !e.plans[plan].compatible {
      RecordPlanTracked(e, w, plan, parent, PLAN_NOT_COMPATIBLE_WITH_SERVER, x, frames);
    } else if !PlanAdmitted(e, w, plan, ctx) {
      RecordPlanTracked(e, w, plan, parent, ANOTHER_PLAN_RUNNING, x, frames);
    } else {
      var w1 := StartPlanLog(w, plan, parent, custom);
      StartPlanTracked(e, w, plan, parent, custom, x, frames);
      if e.plans[plan].lines == [] {
        FinishPlanTracked(e, w1, |w.planLogs|, PLAN_IS_EMPTY, x, frames);
      } else {
        StartedBudget(e, w, plan, parent, custom, ctx);
        LineRunTraced(e, w1, |w.planLogs|, 0, custom, ctx, x, frames);
      }
    }
  }

  lemma {:induction false} LineRunTraced(e: Env, w: World, pl: nat, i: nat, custom: Values, ctx: Context, x: nat,
                                         frames: seq<Frame>)
    requires WellFormed(e) && OpenPlanLog(e, w.planLogs, pl)
    requires i < |e.plans[w.planLogs[pl].plan].lines| && InCourse(e, w.planLogs[pl], i, ctx)
    requires Position(w.planLogs[pl]) == i
    requires Tracked(w, x, frames + [PlanFrame(pl)]) && Shaped(e, w, x)
    ensures var w' := LineRun(e, w, pl, i, custom, ctx);
            Tracked(w', x, frames) && Shaped(e, w', x) && EndsWith(w', PlanFinished(pl))
    decreases Tier(w.planLogs[pl].parent), Idle(e, w), Rank(e, w.planLogs[pl].plan),
              |e.plans[w.planLogs[pl].plan].lines| - i, 4
  {
    hide IdleBut, WellFormed, Judge, CommandRun, After, AtLine;
    var line := e.plans[w.planLogs[pl].plan].lines[i];
    LineReached(e, w, pl, i, ctx);
    if LineExecutable(e, First(|w.commandLogs|), line, w.vars, custom) {
      CommandRunTraced(e, SetLine(w, pl, i), line.command, pl, custom, ctx, x, frames);
    } else {
      SkippingExecutes(e, w, pl, i, custom, ctx);
      RecordCommandTracked(e, SetLine(w, pl, i), line.command, pl, PLAN_LINE_CONDITION_CHECK_FAILED, true, map[], x,
                           frames + [PlanFrame(pl)]);
      AfterTraced(e, Skipped(e, w, pl, i), |w.commandLogs|, Context(ctx.plan, ctx.plan), x, frames);
    }
  }

  lemma {:induction false} CommandRunTraced(e: Env, w: World, command: CommandId, pl: nat, custom: Values, ctx: Context,
                                            x: nat, frames: seq<Frame>)
    requires WellFormed(e) && AtCommand(e, w.planLogs, pl, command)
    requires InCourse(e, w.planLogs[pl], w.planLogs[pl].line.value, ctx)
    requires Tracked(w, x, frames + [PlanFrame(pl)]) && ShapedBut(e, w, x, pl)
    ensures var w' := CommandRun(e, w, command, pl, custom, ctx);
            Tracked(w', x, frames) && Shaped(e, w', x) && EndsWith(w', PlanFinished(pl))
    decreases Tier(w.planLogs[pl].parent), Idle(e, w), Rank(e, w.planLogs[pl].plan), LinesLeft(e, w.planLogs, pl), 3
  {
    CommandDoneTraced(e, w, command, pl, custom, ctx, x, frames + [PlanFrame(pl)]);
    AfterTraced(e, CommandDone(e, w, command, pl, custom, ctx), |w.commandLogs|, Context(ctx.server, ctx.server), x,
                frames);
  }

  lemma {:induction false} CommandDoneTraced(e: Env, w: World, command: CommandId, pl: nat, custom: Values,
                                             ctx: Context, x: nat, frames: seq<Frame>)
    requires WellFormed(e) && AtCommand(e, w.planLogs, pl, command)
    requires InCourse(e, w.planLogs[pl], w.planLogs[pl].line.value, ctx)
    requires Tracked(w, x, frames) && ShapedBut(e, w, x, pl)
    ensures var w' := CommandDone(e, w, command, pl, custom, ctx);
            Tracked(w', x, frames) && Shaped(e, w', x)
    decreases Tier(w.planLogs[pl].parent), Idle(e, w), Rank(e, w.planLogs[pl].plan), LinesLeft(e, w.planLogs, pl), 2
  {
    assert Runnable(e, command);
    match Refusal(e, w, command)
    case Some(code) =>
      RecordCommandTracked(e, w, command, pl, code, false, custom, x, frames);
    case None =>
      StartedIsExecutable(e, w, command, pl, custom, ctx);
      StartCommandTracked(e, w, command, pl, custom, x, frames);
      ExecuteTraced(e, StartCommandLog(w, command, pl, custom), |w.commandLogs|, ctx, x, frames);
  }

  lemma {:induction false} ExecuteTraced(e: Env, w: World, id: nat, ctx: Context, x: nat, frames: seq<Frame>)
    requires WellFormed(e) && Executable(e, w, id, ctx)
    requires Tracked(w, x, frames + [CommandFrame(id)]) && Shaped(e, w, x)
    ensures var w' := Execute(e, w, id, ctx);
            Tracked(w', x, frames) && Shaped(e, w', x) && EndsWith(w', CommandFinished(id))
    decreases Tier(w.planLogs[w.commandLogs[id].planLog].parent), IdleBut(e, w, Some(id)),
              Rank(e, w.planLogs[w.commandLogs[id].planLog].plan),
              LinesLeft(e, w.planLogs, w.commandLogs[id].planLog), 1
  {
    var log := w.commandLogs[id];
    match e.commands[log.command].runner
    case External =>
      var r := e.oracle.outcome(id, log.command, w.vars, log.custom);
      FinishCommandTracked(e, w.(vars := r.vars), id, r.status,
                           if r.custom.Some? then r.custom.value else log.custom, x, frames);
    case Missing =>
      FinishCommandTracked(e, w, id, NO_COMMAND_RUNNER_FOUND, log.custom, x, frames);
    case Nested(q) =>
      if w.planLogs[log.planLog].parent.Some? {
        NestedStartDecreases(e, w, id, ctx);
      }
      PlanRunTraced(e, w, q, Some(log.planLog), log.custom, Context(ctx.plan, true), x, frames + [CommandFrame(id)]);
      var w1 := PlanRun(e, w, q, Some(log.planLog), log.custom, Context(ctx.plan, true));
      var nested := w1.planLogs[|w.planLogs|];
      FinishCommandTracked(e, w1, id, nested.status, nested.custom, x, frames);
  }

  lemma {:induction false} AfterTraced(e: Env, w: World, id: nat, ctx: Context, x: nat, frames: seq<Frame>)
    requires WellFormed(e) && Executed(e, w, id, ctx)
    requires Tracked(w, x, frames + [PlanFrame(w.commandLogs[id].planLog)]) && Shaped(e, w, x)
    ensures var w' := After(e, w, id, ctx);
            Tracked(w', x, frames) && Shaped(e, w', x) && EndsWith(w', PlanFinished(w.commandLogs[id].planLog))
    decreases Tier(w.planLogs[w.commandLogs[id].planLog].parent), Idle(e, w),
              Rank(e, w.planLogs[w.commandLogs[id].planLog].plan),
              LinesLeft(e, w.planLogs, w.commandLogs[id].planLog), 1
  {
    var log := w.commandLogs[id];
    var w1 := SetCustom(w, log.planLog, log.custom);
    SamePlansRunning(e, w, w1);
    FollowTraced(e, w1, id, ctx, x, frames);
  }

  lemma {:induction false} FollowTraced(e: Env, w: World, id: nat, ctx: Context, x: nat, frames: seq<Frame>)
    requires WellFormed(e) && Executed(e, w, id, ctx)
    requires Tracked(w, x, frames + [PlanFrame(w.commandLogs[id].planLog)]) && Shaped(e, w, x)
    ensures var w' := Follow(e, w, id, ctx);
            Tracked(w', x, frames) && Shaped(e, w', x) && EndsWith(w', PlanFinished(w.commandLogs[id].planLog))
    decreases Tier(w.planLogs[w.commandLogs[id].planLog].parent), Idle(e, w),
              Rank(e, w.planLogs[w.commandLogs[id].planLog].plan),
              LinesLeft(e, w.planLogs, w.commandLogs[id].planLog), 0
  {
    if LineVerdict(e, w, id) == Proceed {
      GoingOnTraced(e, w, id, ctx, x, frames);
    } else {
      FinishingTraced(e, w, id, ctx, x, frames);
    }
  }

  lemma {:induction false} GoingOnTraced(e: Env, w: World, id: nat, ctx: Context, x: nat, frames: seq<Frame>)
    requires WellFormed(e) && Executed(e, w, id, ctx) && LineVerdict(e, w, id) == Proceed
    requires Tracked(w, x, frames + [PlanFrame(w.commandLogs[id].planLog)]) && Shaped(e, w, x)
    ensures var w' := Follow(e, w, id, ctx);
            Tracked(w', x, frames) && Shaped(e, w', x) && EndsWith(w', PlanFinished(w.commandLogs[id].planLog))
    decreases Tier(w.planLogs[w.commandLogs[id].planLog].parent), Idle(e, w),
              Rank(e, w.planLogs[w.commandLogs[id].planLog].plan),
              LinesLeft(e, w.planLogs, w.commandLogs[id].planLog), -1
  {
    hide IdleBut, WellFormed, InCourse, LineRun, Follow, Ruled, Judge, Tracked, Shaped;
    var pl := w.commandLogs[id].planLog;
    FollowGoesOn(e, w, id, ctx);
    RuledTracked(e, w, id, x, frames + [PlanFrame(pl)]);
    LineRunTraced(e, Ruled(e, w, id), pl, w.planLogs[pl].line.value + 1, w.planLogs[pl].custom, ctx, x, frames);
  }

  lemma FinishingTraced(e: Env, w: World, id: nat, ctx: Context, x: nat, frames: seq<Frame>)
    requires WellFormed(e) && Executed(e, w, id, ctx) && LineVerdict(e, w, id).Finish?
    requires Tracked(w, x, frames + [PlanFrame(w.commandLogs[id].planLog)]) && Shaped(e, w, x)
    ensures var w' := Follow(e, w, id, ctx);
            Tracked(w', x, frames) && Shaped(e, w', x) && EndsWith(w', PlanFinished(w.commandLogs[id].planLog))
  {
    FollowFinishes(e, w, id, ctx);
    FinishPlanTracked(e, Ruled(e, w, id), w.commandLogs[id].planLog, LineVerdict(e, w, id).status, x, frames);
  }

  // --- Main results ------------------------------------------------------------------------

  /** Every plan log entered the history once and has one command log for each line it went through. */
  ghost predicate Consistent(e: Env, w: World) {
    && (forall x: nat :: Allocated(w, x))
    && (forall x: nat :: Shaped(e, w, x))
  }

  /** Worlds in which no flight plan is in the middle of a run. */
  ghost predicate Quiet(e: Env, w: World) {
    Consistent(e, w) && Open(w.history) == Some([])
  }

  /** A run of a plan, nested runs and all, ends: it leaves nothing open, every plan log made on the way has
      exactly one command log for each line it went through, in line order, and finished exactly once
      unless it was only recorded. */
  lemma RunsEndOnce(e: Env, w: World, plan: PlanId, custom: Values)
    requires WellFormed(e) && plan in e.plans && Quiet(e, w)
    ensures var w' := PlanRun(e, w, plan, None, custom, NO_CONTEXT);
            && Quiet(e, w')
            && (forall x: nat :: Count(w'.history, PlanFinished(x)) + Count(w'.history, PlanRecorded(x))
                                 == if x < |w'.planLogs| then 1 else 0)
  {
    hide PlanRun, Shaped, IdleBut;
    var w' := PlanRun(e, w, plan, None, custom, NO_CONTEXT);
    forall x: nat
      ensures Tracked(w', x, []) && Shaped(e, w', x)
      ensures Count(w'.history, PlanFinished(x)) + Count(w'.history, PlanRecorded(x))
              == if x < |w'.planLogs| then 1 else 0
    {
      assert Allocated(w, x) && Shaped(e, w, x);
      PlanRunTraced(e, w, plan, None, custom, NO_CONTEXT, x, []);
      StartsMatchFinishes(w'.history, x);
    }
    assert Tracked(w', 0, []);
  }

  // These are the last two events.
  ghost predicate EndWith(history: seq<Event>, event: Event, last: Event) {
    |history| >= 2 && history[|history| - 2] == event && history[|history| - 1] == last
  }

  /** A command that runs a plan ends with the status of that plan's log and takes over its custom values;
      the plan log is finished (or recorded) before the command log, with nothing between the two. */
  lemma NestedStatusIsExitCode(e: Env, w: World, id: nat, ctx: Context, frames: seq<Frame>)
    requires WellFormed(e) && Executable(e, w, id, ctx)
    requires e.commands[w.commandLogs[id].command].runner.Nested?
    requires Open(w.history) == Some(frames + [CommandFrame(id)]) && Consistent(e, w)
    ensures var w' := Execute(e, w, id, ctx);
            var nested := |w.planLogs|;
            && nested < |w'.planLogs| && !w'.planLogs[nested].running
            && w'.planLogs[nested].plan == e.commands[w.commandLogs[id].command].runner.plan
            && w'.planLogs[nested].parent == Some(w.commandLogs[id].planLog)
            && w'.commandLogs[id].status == w'.planLogs[nested].status
            && w'.commandLogs[id].custom == w'.planLogs[nested].custom
            && (EndWith(w'.history, PlanFinished(nested), CommandFinished(id))
                || EndWith(w'.history, PlanRecorded(nested), CommandFinished(id)))
  {
    hide IdleBut, Passable, InCourse;
    var log := w.commandLogs[id];
    var q := e.commands[log.command].runner.plan;
    var w1 := PlanRun(e, w, q, Some(log.planLog), log.custom, Context(ctx.plan, true));
    assert Allocated(w, 0) && Shaped(e, w, 0);
    PlanRunTraced(e, w, q, Some(log.planLog), log.custom, Context(ctx.plan, true), 0, frames + [CommandFrame(id)]);
    var w' := Execute(e, w, id, ctx);
    assert w' == NestedExecution(w, id, w1);
    assert w'.history == w1.history + [CommandFinished(id)];
  }
}
