/** The check against recursive plans that runs when a line gets a command: a walk through the plans that
    the command can reach, which fails at the first plan it meets twice. */
module PlanRecursion {
  import opened Basics
  import opened FlightPlan

  // --- The walk ----------------------------------------------------------------------------

  // The plans met so far and those of the walk from `command`; `None` if a plan is met twice.
  ghost function Walk(e: Env, command: CommandId, visited: set<PlanId>): (r: Option<set<PlanId>>)
    requires Resolved(e) && Runnable(e, command)
    ensures r.Some? ==> visited <= r.value
    decreases |e.plans.Keys - visited|, 0
  {
    match e.commands[command].runner
    case Nested(plan) =>
      if plan in visited then None
      else
        Visiting(e, plan, visited);
        WalkLines(e, e.plans[plan].lines, 0, visited + {plan})
    case _ => Some(visited)
  }

  ghost function WalkLines(e: Env, lines: seq<Line>, k: nat, visited: set<PlanId>): (r: Option<set<PlanId>>)
    requires Resolved(e) && k <= |lines| && (forall i :: 0 <= i < |lines| ==> Runnable(e, lines[i].command))
    ensures r.Some? ==> visited <= r.value
    decreases |e.plans.Keys - visited|, |lines| - k + 1
  {
    if k == |lines| then Some(visited)
    else
      var first := Walk(e, lines[k].command, visited);
      if first.None? then None
      else
        SubsetSize(e.plans.Keys - first.value, e.plans.Keys - visited);
        WalkLines(e, lines, k + 1, first.value)
  }

  lemma Visiting(e: Env, plan: PlanId, visited: set<PlanId>)
    requires plan in e.plans && plan !in visited
    ensures |e.plans.Keys - (visited + {plan})| < |e.plans.Keys - visited|
  {
    assert plan in e.plans.Keys - visited;
    SubsetSize(e.plans.Keys - (visited + {plan}), e.plans.Keys - visited - {plan});
  }

  class VisitedPlans {
    var plans: set<PlanId>

    constructor ()
      ensures plans == {}
    {
      plans := {};
    }
  }

  // `ok` is false where the source raises an error.
  method CheckRecursivePlan(e: Env, command: CommandId, visited: VisitedPlans) returns (ok: bool)
    requires Resolved(e) && Runnable(e, command)
    modifies visited
    ensures ok <==> Walk(e, command, old(visited.plans)).Some?
    ensures ok ==> visited.plans == Walk(e, command, old(visited.plans)).value
    decreases |e.plans.Keys - visited.plans|, 0
  {
    match e.commands[command].runner
    case Nested(plan) =>
      if plan in visited.plans {
        return false;
      }
      Visiting(e, plan, visited.plans);
      visited.plans := visited.plans + {plan};
      ghost var before := visited.plans;
      var lines := e.plans[plan].lines;
      assert forall i :: 0 <= i < |lines| ==> Runnable(e, lines[i].command);
      for k := 0 to |lines|
        invariant before <= visited.plans
        invariant WalkLines(e, lines, 0, before) == WalkLines(e, lines, k, visited.plans)
      {
        SubsetSize(e.plans.Keys - visited.plans, e.plans.Keys - before);
        var lineOk := CheckRecursivePlan(e, lines[k].command, visited);
        if !lineOk {
          return false;
        }
      }
      return true;
    case _ =>
      return true;
  }

  // --- Calls as paths ----------------------------------------------------------------------

  /** The plan that `command` runs after following `path`: each number picks a line of the plan run so far. */
  function Called(e: Env, command: CommandId, path: seq<nat>): Option<PlanId>
    decreases |path|
  {
    if command !in e.commands || !e.commands[command].runner.Nested? then None
    else
      var plan := e.commands[command].runner.plan;
      if path == [] then Some(plan)
      else if plan in e.plans && path[0] < |e.plans[plan].lines| then
        Called(e, e.plans[plan].lines[path[0]].command, path[1..])
      else None
  }

  // The same for a list of lines: the first number picks the line.
  function CalledFrom(e: Env, lines: seq<Line>, k: nat, path: seq<nat>): Option<PlanId> {
    if path == [] || !(k <= path[0] < |lines|) then None else Called(e, lines[path[0]].command, path[1..])
  }

  /** No plan is called along two different paths: the calls of `command` unfold to a tree. */
  ghost predicate CallsFormTree(e: Env, command: CommandId) {
    forall p, q :: Called(e, command, p).Some? && Called(e, command, p) == Called(e, command, q) ==> p == q
  }

  ghost predicate LinesFormTree(e: Env, lines: seq<Line>, k: nat) {
    forall p, q :: CalledFrom(e, lines, k, p).Some? && CalledFrom(e, lines, k, p) == CalledFrom(e, lines, k, q) ==>
      p == q
  }

  // `after` is `before` and the plans called, none of which was in `before`.
  ghost predicate Adds(e: Env, command: CommandId, before: set<PlanId>, after: set<PlanId>) {
    && before <= after
    && (forall p :: Called(e, command, p).Some? ==> Called(e, command, p).value in after - before)
    && (forall x :: x in after - before ==> exists p :: Called(e, command, p) == Some(x))
  }

  ghost predicate LinesAdd(e: Env, lines: seq<Line>, k: nat, before: set<PlanId>, after: set<PlanId>) {
    && before <= after
    && (forall p :: CalledFrom(e, lines, k, p).Some? ==> CalledFrom(e, lines, k, p).value in after - before)
    && (forall x :: x in after - before ==> exists p :: CalledFrom(e, lines, k, p) == Some(x))
  }

  lemma FirstLine(e: Env, lines: seq<Line>, k: nat, p: seq<nat>)
    requires k < |lines|
    ensures CalledFrom(e, lines, k, [k] + p) == Called(e, lines[k].command, p)
  {
    assert ([k] + p)[1..] == p;
  }

  lemma LaterLine(e: Env, lines: seq<Line>, k: nat, p: seq<nat>)
    requires k < |lines|
    ensures CalledFrom(e, lines, k, p) ==
            if p != [] && p[0] == k then Called(e, lines[k].command, p[1..]) else CalledFrom(e, lines, k + 1, p)
  {
  }

  lemma LinesJoin(e: Env, lines: seq<Line>, k: nat, before: set<PlanId>, between: set<PlanId>, after: set<PlanId>)
    requires k < |lines|
    requires CallsFormTree(e, lines[k].command) && Adds(e, lines[k].command, before, between)
    requires LinesFormTree(e, lines, k + 1) && LinesAdd(e, lines, k + 1, between, after)
    ensures LinesFormTree(e, lines, k) && LinesAdd(e, lines, k, before, after)
  {
    forall p
      ensures CalledFrom(e, lines, k, p).Some? ==> CalledFrom(e, lines, k, p).value in after - before
    {
      LaterLine(e, lines, k, p);
    }
    forall p, q | CalledFrom(e, lines, k, p).Some? && CalledFrom(e, lines, k, p) == CalledFrom(e, lines, k, q)
      ensures p == q
    {
      LaterLine(e, lines, k, p);
      LaterLine(e, lines, k, q);
      if p[0] == k && q[0] == k {
        assert p == [k] + p[1..] && q == [k] + q[1..];
      }
    }
    forall x | x in after - before
      ensures exists p :: CalledFrom(e, lines, k, p) == Some(x)
    {
      if x in between {
        var p :| Called(e, lines[k].command, p) == Some(x);
        FirstLine(e, lines, k, p);
      } else {
        var p :| CalledFrom(e, lines, k + 1, p) == Some(x);
        LaterLine(e, lines, k, p);
      }
    }
  }

  lemma {:induction false} AcceptedFormsTree(e: Env, command: CommandId, visited: set<PlanId>)
    requires Resolved(e) && Runnable(e, command) && Walk(e, command, visited).Some?
    ensures CallsFormTree(e, command) && Adds(e, command, visited, Walk(e, command, visited).value)
    decreases |e.plans.Keys - visited|, 0
  {
    match e.commands[command].runner
    case Nested(plan) =>
      var lines := e.plans[plan].lines;
      var after := Walk(e, command, visited).value;
      Visiting(e, plan, visited);
      AcceptedLinesFormTree(e, lines, 0, visited + {plan});
      forall p
        ensures p != [] ==> Called(e, command, p) == CalledFrom(e, lines, 0, p)
      {
      }
      assert Called(e, command, []) == Some(plan);
      forall x | x in after - visited
        ensures exists p :: Called(e, command, p) == Some(x)
      {
        if x != plan {
          var p :| CalledFrom(e, lines, 0, p) == Some(x);
          assert Called(e, command, p) == Some(x);
        }
      }
    case _ =>
  }

  lemma {:induction false} AcceptedLinesFormTree(e: Env, lines: seq<Line>, k: nat, visited: set<PlanId>)
    requires Resolved(e) && k <= |lines| && (forall i :: 0 <= i < |lines| ==> Runnable(e, lines[i].command))
    requires WalkLines(e, lines, k, visited).Some?
    ensures LinesFormTree(e, lines, k) && LinesAdd(e, lines, k, visited, WalkLines(e, lines, k, visited).value)
    decreases |e.plans.Keys - visited|, |lines| - k + 1
  {
    if k < |lines| {
      var command := lines[k].command;
      AcceptedFormsTree(e, command, visited);
      var between := Walk(e, command, visited).value;
      SubsetSize(e.plans.Keys - between, e.plans.Keys - visited);
      AcceptedLinesFormTree(e, lines, k + 1, between);
      LinesJoin(e, lines, k, visited, between, WalkLines(e, lines, k, visited).value);
    }
  }

  // A refused walk shows why: a path to a plan met before, or two paths to one plan.
  lemma {:induction false} RefusedHasReason(e: Env, command: CommandId, visited: set<PlanId>)
    returns (p: seq<nat>, q: seq<nat>)
    requires Resolved(e) && Runnable(e, command) && Walk(e, command, visited).None?
    ensures Called(e, command, p).Some?
    ensures Called(e, command, p).value in visited || (p != q && Called(e, command, p) == Called(e, command, q))
    decreases |e.plans.Keys - visited|, 0
  {
    var plan := e.commands[command].runner.plan;
    if plan in visited {
      p, q := [], [];
    } else {
      Visiting(e, plan, visited);
      p, q := RefusedLinesHaveReason(e, e.plans[plan].lines, 0, visited + {plan});
      if CalledFrom(e, e.plans[plan].lines, 0, p).value == plan {
        q := [];
      }
    }
  }

  lemma {:induction false} RefusedLinesHaveReason(e: Env, lines: seq<Line>, k: nat, visited: set<PlanId>)
    returns (p: seq<nat>, q: seq<nat>)
    requires Resolved(e) && k <= |lines| && (forall i :: 0 <= i < |lines| ==> Runnable(e, lines[i].command))
    requires WalkLines(e, lines, k, visited).None?
    ensures CalledFrom(e, lines, k, p).Some?
    ensures || CalledFrom(e, lines, k, p).value in visited
            || (p != q && CalledFrom(e, lines, k, p) == CalledFrom(e, lines, k, q))
    decreases |e.plans.Keys - visited|, |lines| - k + 1
  {
    var command := lines[k].command;
    if Walk(e, command, visited).None? {
      var p1, q1 := RefusedHasReason(e, command, visited);
      p, q := [k] + p1, [k] + q1;
      FirstLine(e, lines, k, p1);
      FirstLine(e, lines, k, q1);
      assert p[1..] == p1 && q[1..] == q1;
    } else {
      AcceptedFormsTree(e, command, visited);
      var between := Walk(e, command, visited).value;
      SubsetSize(e.plans.Keys - between, e.plans.Keys - visited);
      p, q := RefusedLinesHaveReason(e, lines, k + 1, between);
      q := SharedPlan(e, lines, k, visited, between, p, q);
    }
  }

  lemma SharedPlan(e: Env, lines: seq<Line>, k: nat, before: set<PlanId>, between: set<PlanId>, p: seq<nat>,
                   q: seq<nat>)
    returns (q': seq<nat>)
    requires k < |lines| && Adds(e, lines[k].command, before, between) && CalledFrom(e, lines, k + 1, p).Some?
    requires || CalledFrom(e, lines, k + 1, p).value in between
             || (p != q && CalledFrom(e, lines, k + 1, p) == CalledFrom(e, lines, k + 1, q))
    ensures CalledFrom(e, lines, k, p) == CalledFrom(e, lines, k + 1, p)
    ensures || CalledFrom(e, lines, k, p).value in before
            || (p != q' && CalledFrom(e, lines, k, p) == CalledFrom(e, lines, k, q'))
  {
    LaterLine(e, lines, k, p);
    LaterLine(e, lines, k, q);
    q' := q;
    var x := CalledFrom(e, lines, k + 1, p).value;
    if x in between && x !in before {
      var q1 :| Called(e, lines[k].command, q1) == Some(x);
      FirstLine(e, lines, k, q1);
      q' := [k] + q1;
    }
  }

  /** Main result: the check passes exactly when the calls of the command unfold to a tree, whatever the plan
      graph looks like. */
  lemma CheckAcceptsTrees(e: Env, command: CommandId)
    requires Resolved(e) && Runnable(e, command)
    ensures Walk(e, command, {}).Some? <==> CallsFormTree(e, command)
  {
    if Walk(e, command, {}).Some? {
      AcceptedFormsTree(e, command, {});
    } else {
      var p, q := RefusedHasReason(e, command, {});
      assert Called(e, command, p) == Called(e, command, q);
    }
  }
}
