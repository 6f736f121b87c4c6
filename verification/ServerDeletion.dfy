/** Deleting servers that have a delete plan: the plan runs first, and how it ends decides. */
module ServerDeletion {
  import opened Basics

  // `Usual` stands for every status that has nothing to do with deletion.
  datatype Status = Usual | Deleting | DeleteError
  datatype Server = Server(status: Status, deletePlan: Option<nat>)
  datatype Log = Log(server: nat, plan: nat, running: bool, status: int)

  // The servers there are, and all plan logs; a log's id is its index.
  datatype State = State(servers: map<nat, Server>, logs: seq<Log>)

  /** How far the run of a delete plan has come when the call that started it returns. */
  datatype Progress = Ended(status: int) | Going

  datatype Action =
    | Unlink(id: nat, forced: bool, progress: Progress)
    | StartLog(id: nat, plan: nat)
    | FinishLog(log: nat, status: int)

  function Remove(s: State, id: nat): State {
    s.(servers := s.servers - {id})
  }

  function SetStatus(s: State, id: nat, status: Status): State
    requires id in s.servers
  {
    s.(servers := s.servers[id := s.servers[id].(status := status)])
  }

  // Deletion without a run of the delete plan.
  predicate AtOnce(server: Server, forced: bool) {
    forced || server.deletePlan.None? || server.status == Deleting
  }

  function UnlinkStep(s: State, id: nat, forced: bool, progress: Progress): State
    requires id in s.servers
  {
    var server := s.servers[id];
    if AtOnce(server, forced) then Remove(s, id)
    else match progress
      case Ended(status) =>
        var s1 := s.(logs := s.logs + [Log(id, server.deletePlan.value, false, status)]);
        if status == 0 then Remove(s1, id) else SetStatus(s1, id, DeleteError)
      case Going =>
        SetStatus(s.(logs := s.logs + [Log(id, server.deletePlan.value, true, 0)]), id, Deleting)
  }

  /** A plan log finishes.  If its plan is the delete plan of a server that is being deleted, that decides. */
  function FinishStep(s: State, log: nat, status: int): State
    requires log < |s.logs|
  {
    var id := s.logs[log].server;
    var s1 := s.(logs := s.logs[log := s.logs[log].(running := false, status := status)]);
    if Decides(s, log) then (if status == 0 then Remove(s1, id) else SetStatus(s1, id, DeleteError)) else s1
  }

  predicate Decides(s: State, log: nat)
    requires log < |s.logs|
  {
    var id := s.logs[log].server;
    id in s.servers && s.servers[id].status == Deleting && s.servers[id].deletePlan == Some(s.logs[log].plan)
  }

  predicate Enabled(s: State, a: Action) {
    match a
    case Unlink(id, _, _) => id in s.servers
    case StartLog(id, _) => id in s.servers
    case FinishLog(log, _) => log < |s.logs| && s.logs[log].running
  }

  function Apply(s: State, a: Action): State
    requires Enabled(s, a)
  {
    match a
    case Unlink(id, forced, progress) => UnlinkStep(s, id, forced, progress)
    case StartLog(id, plan) => s.(logs := s.logs + [Log(id, plan, true, 0)])
    case FinishLog(log, status) => FinishStep(s, log, status)
  }

  predicate Runs(s: State, actions: seq<Action>)
    decreases |actions|
  {
    actions != [] ==> Enabled(s, actions[0]) && Runs(Apply(s, actions[0]), actions[1..])
  }

  function After(s: State, actions: seq<Action>): State
    requires Runs(s, actions)
    decreases |actions|
  {
    if actions == [] then s else After(Apply(s, actions[0]), actions[1..])
  }

  // --- What removes a server -----------------------------------------------------------------------

  /** Action `a` in state `s` is one that may remove server `id`, whose delete plan is `plan`. */
  predicate Removes(s: State, a: Action, id: nat, plan: nat)
    requires Enabled(s, a)
  {
    match a
    case Unlink(x, forced, progress) =>
      x == id && (forced || s.servers[id].status == Deleting || progress == Ended(0))
    case StartLog(_, _) => false
    case FinishLog(log, status) =>
      s.logs[log].server == id && s.logs[log].plan == plan && status == 0 && id in s.servers
      && s.servers[id].status == Deleting
  }

  /** A server comes to be `Deleting` by an unforced deletion whose plan did not end at once. */
  predicate Begins(s: State, a: Action, id: nat)
    requires Enabled(s, a)
  {
    a == Unlink(id, false, Going) && s.servers[id].status != Deleting
  }

  lemma StepRemoves(s: State, a: Action, id: nat, plan: nat)
    requires Enabled(s, a) && id in s.servers && s.servers[id].deletePlan == Some(plan)
    ensures id !in Apply(s, a).servers <==> Removes(s, a, id, plan)
    ensures id in Apply(s, a).servers ==> Apply(s, a).servers[id].deletePlan == Some(plan)
    ensures id in Apply(s, a).servers && s.servers[id].status != Deleting ==>
              (Apply(s, a).servers[id].status == Deleting <==> Begins(s, a, id))
  {
  }

  /** Main result: a server with a delete plan disappears only through a forced deletion, a run of the delete plan that
      ended with 0, or a deletion asked for again while the plan was running, which an earlier one had started. */
  lemma {:induction false} RemovedOnlySo(s: State, actions: seq<Action>, id: nat, plan: nat) returns (k: nat)
    requires Runs(s, actions) && id in s.servers && s.servers[id].deletePlan == Some(plan)
    requires id !in After(s, actions).servers
    ensures k < |actions| && Runs(s, actions[..k])
    ensures var before := After(s, actions[..k]);
            && Enabled(before, actions[k]) && Removes(before, actions[k], id, plan) && id in before.servers
            && (before.servers[id].status == Deleting && s.servers[id].status != Deleting ==>
                  exists j :: 0 <= j < k && actions[j] == Unlink(id, false, Going))
    decreases |actions|
  {
    StepRemoves(s, actions[0], id, plan);
    var next := Apply(s, actions[0]);
    if id !in next.servers {
      k := 0;
      assert actions[..0] == [];
    } else {
      var i := RemovedOnlySo(next, actions[1..], id, plan);
      k := i + 1;
      assert actions[..k][1..] == actions[1..][..i];
      if s.servers[id].status != Deleting && next.servers[id].status != Deleting {
        if j :| 0 <= j < i && actions[1..][j] == Unlink(id, false, Going) {
          assert actions[j + 1] == Unlink(id, false, Going);
        }
      }
    }
  }

  // --- Runs at once and runs under the queue ---------------------------------------------------------

  /** The action leaves alone server `id` and the runs of its delete plan. */
  predicate LeavesAlone(s: State, a: Action, id: nat, plan: nat)
    requires Enabled(s, a)
  {
    match a
    case Unlink(x, _, _) => x != id
    case StartLog(_, _) => true
    case FinishLog(log, _) => s.logs[log].server != id || s.logs[log].plan != plan
  }

  predicate AllLeaveAlone(s: State, actions: seq<Action>, id: nat, plan: nat)
    requires Runs(s, actions)
    decreases |actions|
  {
    actions != [] ==>
      LeavesAlone(s, actions[0], id, plan) && AllLeaveAlone(Apply(s, actions[0]), actions[1..], id, plan)
  }

  lemma {:induction false} LeftAlone(s: State, actions: seq<Action>, id: nat, plan: nat, log: nat)
    requires Runs(s, actions) && AllLeaveAlone(s, actions, id, plan)
    requires id in s.servers && s.servers[id].deletePlan == Some(plan) && log < |s.logs|
    requires s.logs[log] == Log(id, plan, true, 0)
    ensures var later := After(s, actions);
            id in later.servers && later.servers[id] == s.servers[id] && log < |later.logs|
            && later.logs[log] == s.logs[log]
    decreases |actions|
  {
    if actions != [] {
      LeftAlone(Apply(s, actions[0]), actions[1..], id, plan, log);
    }
  }

  /** Whatever else happens while a delete plan runs on under the queue, it leads to the same as one that ends at once
      with the same status: the server is gone after 0, and otherwise left with a deletion error.  (`DeletePlanRun`
      shows that the status is the same.) */
  lemma DeletionUndisturbed(s: State, id: nat, actions: seq<Action>, status: int)
    requires id in s.servers && !AtOnce(s.servers[id], false)
    requires var started := UnlinkStep(s, id, false, Going);
             Runs(started, actions) && AllLeaveAlone(started, actions, id, s.servers[id].deletePlan.value)
    ensures var later := After(UnlinkStep(s, id, false, Going), actions);
            Enabled(later, FinishLog(|s.logs|, status))
    ensures var atOnce := UnlinkStep(s, id, false, Ended(status));
            var queued := FinishStep(After(UnlinkStep(s, id, false, Going), actions), |s.logs|, status);
            && (id in queued.servers <==> id in atOnce.servers) && (id in atOnce.servers <==> status != 0)
            && (status != 0 ==> queued.servers[id] == atOnce.servers[id] == s.servers[id].(status := DeleteError))
            && queued.logs[|s.logs|] == atOnce.logs[|s.logs|]
  {
    LeftAlone(UnlinkStep(s, id, false, Going), actions, id, s.servers[id].deletePlan.value, |s.logs|);
  }

  // --- Deleting several servers ------------------------------------------------------------------------

  function UnlinkAll(s: State, ids: seq<nat>, forced: bool, progress: nat -> Progress): State
    requires forall id :: id in ids ==> id in s.servers
    requires forall i, j :: 0 <= i < j < |ids| ==> ids[i] != ids[j]
    decreases |ids|
  {
    if ids == [] then s else UnlinkAll(UnlinkStep(s, ids[0], forced, progress(ids[0])), ids[1..], forced, progress)
  }

  lemma {:induction false} UnlinkAllMore(s: State, ids: seq<nat>, id: nat, forced: bool, progress: nat -> Progress)
    requires forall x :: x in ids + [id] ==> x in s.servers
    requires forall i, j :: 0 <= i < j < |ids + [id]| ==> (ids + [id])[i] != (ids + [id])[j]
    ensures (forall i, j :: 0 <= i < j < |ids| ==> ids[i] != ids[j]) && id !in ids
    ensures var before := UnlinkAll(s, ids, forced, progress);
            id in before.servers && before.servers[id] == s.servers[id]
            && UnlinkAll(s, ids + [id], forced, progress) == UnlinkStep(before, id, forced, progress(id))
    decreases |ids|
  {
    assert forall i :: 0 <= i < |ids| ==> (ids + [id])[i] == ids[i];
    assert (ids + [id])[|ids|] == id;
    if ids == [] {
      assert (ids + [id])[1..] == [];
    } else {
      assert (ids + [id])[1..] == ids[1..] + [id];
      var next := UnlinkStep(s, ids[0], forced, progress(ids[0]));
      assert ids[0] != id;
      UnlinkAllMore(next, ids[1..], id, forced, progress);
    }
  }

  class Servers {
    var s: State

    constructor (s: State)
      ensures this.s == s
    {
      this.s := s;
    }

    /** The loop collects the servers to remove and removes them at its end; that is the same as one after the other. */
    method UnlinkServers(ids: seq<nat>, forced: bool, progress: nat -> Progress)
      requires forall id :: id in ids ==> id in s.servers
      requires forall i, j :: 0 <= i < j < |ids| ==> ids[i] != ids[j]
      modifies this
      ensures s == UnlinkAll(old(s), ids, forced, progress)
    {
      var toDelete: set<nat> := {};
      for n := 0 to |ids|
        invariant toDelete <= s.servers.Keys && forall id :: id in toDelete ==> id in ids[..n]
        invariant forall id :: id in ids[n..] ==> id in s.servers && s.servers[id] == old(s).servers[id]
        invariant s.(servers := s.servers - toDelete) == UnlinkAll(old(s), ids[..n], forced, progress)
      {
        assert ids[..n + 1] == ids[..n] + [ids[n]];
        UnlinkAllMore(old(s), ids[..n], ids[n], forced, progress);
        ghost var before := s;
        var id := ids[n];
        var server := s.servers[id];
        if forced || server.deletePlan.None? || server.status == Deleting {
          toDelete := toDelete + {id};
        } else {
          match progress(id)
          case Ended(status) =>
            s := s.(logs := s.logs + [Log(id, server.deletePlan.value, false, status)]);
            if status == 0 {
              toDelete := toDelete + {id};
            } else {
              s := SetStatus(s, id, DeleteError);
            }
          case Going =>
            s := SetStatus(s.(logs := s.logs + [Log(id, server.deletePlan.value, true, 0)]), id, Deleting);
        }
        StepDeferred(before, toDelete - {id}, id, forced, progress(id), s, toDelete);
      }
      assert ids[..|ids|] == ids;
      s := s.(servers := s.servers - toDelete);
    }
  }

  // A step with the removals still to come is a step after them.
  lemma StepDeferred(s: State, toDelete: set<nat>, id: nat, forced: bool, progress: Progress, after: State,
                     toDelete': set<nat>)
    requires id in s.servers && id !in toDelete
    requires var step := UnlinkStep(s, id, forced, progress);
             if id in step.servers then after == step && toDelete' == toDelete
             else after.servers == s.servers && after.logs == step.logs && toDelete' == toDelete + {id}
    ensures after.(servers := after.servers - toDelete')
         == UnlinkStep(s.(servers := s.servers - toDelete), id, forced, progress)
  {
    var left := after.servers - toDelete';
    var right := UnlinkStep(s.(servers := s.servers - toDelete), id, forced, progress).servers;
    assert left.Keys == right.Keys;
    assert left == right;
  }
}
