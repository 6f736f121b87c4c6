/** Deleting a server by a run of its delete plan on the engine: at once without the queue, on and on with it. */
module DeletePlanRun {
  import opened Basics
  import opened FlightPlan
  import opened PlanLoop
  import opened PlanCalls
  import opened PlanEngine
  import Deletion = ServerDeletion

  // The log of plan `plan` that finishes first from event `k` on.
  function FirstToFinish(history: seq<Event>, logs: seq<PlanLog>, plan: PlanId, k: nat): (r: Option<nat>)
    requires k <= |history|
    ensures r.Some? ==> r.value < |logs| && logs[r.value].plan == plan
    decreases |history| - k
  {
    if k == |history| then None
    else if IsFinishOf(history[k], logs, plan) then Some(history[k].id)
    else FirstToFinish(history, logs, plan, k + 1)
  }

  predicate IsFinishOf(event: Event, logs: seq<PlanLog>, plan: PlanId) {
    event.PlanFinished? && event.id < |logs| && logs[event.id].plan == plan
  }

  lemma {:induction false} OnlyOneFinishes(history: seq<Event>, logs: seq<PlanLog>, plan: PlanId, k: nat, pl: nat)
    requires k < |history| && IsFinishOf(history[|history| - 1], logs, plan)
    requires forall j :: k <= j < |history| && IsFinishOf(history[j], logs, plan) ==> history[j].id == pl
    ensures FirstToFinish(history, logs, plan, k) == Some(pl)
    decreases |history| - k
  {
    if !IsFinishOf(history[k], logs, plan) {
      OnlyOneFinishes(history, logs, plan, k + 1, pl);
    }
  }

  lemma {:induction false} SomeFinishes(history: seq<Event>, logs: seq<PlanLog>, plan: PlanId, k: nat)
    requires k < |history| && IsFinishOf(history[|history| - 1], logs, plan)
    ensures FirstToFinish(history, logs, plan, k).Some?
    decreases |history| - k
  {
    if !IsFinishOf(history[k], logs, plan) {
      SomeFinishes(history, logs, plan, k + 1);
    }
  }

  // The rest of a run that has become a job: no log but its own and new ones finish, its own last.
  lemma JobFinishes(e: Env, w: World, job: nat, plans: set<PlanId>)
    requires WellFormed(e) && JobReady(e, w, job) && EndsWith(w, CommandStarted(job))
    requires CallsOnly(e, w.planLogs[w.commandLogs[job].planLog].plan, plans) && Closed(e, plans)
    ensures var pl, w' := w.commandLogs[job].planLog, Resume(e, w, job);
            && AddsOnly(w, w', pl, plans) && EndsWith(w', PlanFinished(pl))
            && w'.planLogs[pl].plan == w.planLogs[pl].plan
            && w.history < w'.history
  {
    hide IdleBut, Execute, After, InCourse, CallsOnly, Closed, MayStart;
    var pl := w.commandLogs[job].planLog;
    var w1 := Execute(e, w, job, NO_CONTEXT);
    var w2 := Resume(e, w, job);
    ExecuteAdds(e, w, job, NO_CONTEXT, plans);
    PastAfterLine(e, w.planLogs[pl], w.planLogs[pl].line.value, NO_CONTEXT);
    AfterAdds(e, w1, job, NO_CONTEXT, plans);
    AddsOnlyTransitive(w, w1, w2, pl, plans);
  }

  // The status with which a run of the plan ends.
  ghost function RunStatus(e: Env, w: World, plan: PlanId): int
    requires WellFormed(e) && plan in e.plans
  {
    PlanRun(e, w, plan, None, map[], NO_CONTEXT).planLogs[|w.planLogs|].status
  }

  /** Main result: delete a server.  `progress` is what the call that starts the delete plan finds, and plan log `log`
      decides, with its status `status`.  Without the queue the run has ended; with it, the first log of the delete plan
      that finishes after event `marked` decides.  Unless the delete plan calls itself, that is the log of the run,
      so both ways the status is the one that the loop ends with. */
  method DeleteServer(t: Tower, plan: PlanId)
    returns (progress: Deletion.Progress, log: nat, status: int, ghost marked: nat)
    requires WellFormed(t.e) && plan in t.e.plans && t.jobs == []
    modifies t
    ensures t.jobs == [] && t.W() == PlanRun(t.e, old(t.W()), plan, None, map[], NO_CONTEXT)
    ensures log < |t.planLogs| && t.planLogs[log].plan == plan && t.planLogs[log].status == status
    ensures progress == Deletion.Ended(status) || (progress == Deletion.Going && t.queued)
    ensures progress == Deletion.Going ==>
              && 0 < marked <= |t.history| && t.history[marked - 1].CommandStarted?
              && FirstToFinish(t.history, t.planLogs, plan, marked) == Some(log)
    ensures progress.Ended? || NeverCallsItself(t.e, plan) ==> log == |old(t.planLogs)|
    ensures log == |old(t.planLogs)| ==> status == RunStatus(t.e, old(t.W()), plan)
  {
    log := t.RunSingle(plan, None, map[], NO_CONTEXT);
    if !t.planLogs[log].running {
      status := t.planLogs[log].status;
      progress, marked := Deletion.Ended(status), 0;
      return;
    }
    progress := Deletion.Going;
    ghost var w := t.W();
    ghost var job := t.jobs[0];
    var k := |t.history|;
    marked := k;
    t.Drain();
    DecidedBy(t.e, w, job, plan);
    log := FirstToFinish(t.history, t.planLogs, plan, k).value;
    status := t.planLogs[log].status;
  }

  lemma DecidedBy(e: Env, w: World, job: nat, plan: PlanId)
    requires WellFormed(e) && JobReady(e, w, job) && EndsWith(w, CommandStarted(job))
    requires w.planLogs[w.commandLogs[job].planLog].plan == plan
    ensures var w' := Resume(e, w, job);
            && w.history <= w'.history
            && FirstToFinish(w'.history, w'.planLogs, plan, |w.history|).Some?
            && (NeverCallsItself(e, plan) ==>
                  FirstToFinish(w'.history, w'.planLogs, plan, |w.history|) == Some(w.commandLogs[job].planLog))
  {
    hide Execute, After, IdleBut, InCourse, MayStart, Resume, CallsOnly, Closed;
    var pl, w' := w.commandLogs[job].planLog, Resume(e, w, job);
    AllPlansClosed(e);
    JobFinishes(e, w, job, e.plans.Keys);
    SomeFinishes(w'.history, w'.planLogs, plan, |w.history|);
    if NeverCallsItself(e, plan) {
      var plans: set<PlanId> :| plan !in plans && CallsOnly(e, plan, plans) && Closed(e, plans);
      JobFinishes(e, w, job, plans);
      OnlyOneFinishes(w'.history, w'.planLogs, plan, |w.history|, pl);
    }
  }

  lemma AllPlansClosed(e: Env)
    requires Resolved(e)
    ensures Closed(e, e.plans.Keys)
  {
    forall p, i: nat | p in e.plans && i < |e.plans[p].lines|
      ensures Calls(e, p, i, e.plans.Keys)
    {
      assert Runnable(e, e.plans[p].lines[i].command);
    }
  }
}
