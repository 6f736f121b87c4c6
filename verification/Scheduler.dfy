/** Scheduled tasks and the workers that take them: cron workers, which commit right after reserving, and manual
    runs, which hold their row locks to the end. */
module Scheduler {
  import opened Basics

  datatype Interval = Minutes | Hours | Days | Weeks | Months
  datatype Task = Task(number: int, interval: Option<Interval>)

  // Times in seconds; what a month later is, the calendar says.
  datatype Config = Config(tasks: map<nat, Task>, addMonths: (int, int) -> int)

  /** Every task has a positive number, as the table demands, and months go forward. */
  ghost predicate Sane(c: Config) {
    && (forall t :: t in c.tasks ==> c.tasks[t].number > 0)
    && (forall time, n :: n > 0 ==> c.addMonths(time, n) > time)
  }

  function NextCall(c: Config, t: Task, from: int): int {
    var num := if t.number == 0 then 1 else t.number;
    match t.interval
    case None => from
    case Some(Minutes) => from + 60 * num
    case Some(Hours) => from + 3600 * num
    case Some(Days) => from + 86400 * num
    case Some(Weeks) => from + 604800 * num
    case Some(Months) => c.addMonths(from, num)
  }

  /** A task is called again later, if and only if it has an interval. */
  lemma CalledLater(c: Config, t: nat, from: int)
    requires Sane(c) && t in c.tasks
    ensures NextCall(c, c.tasks[t], from) >= from
    ensures NextCall(c, c.tasks[t], from) > from <==> c.tasks[t].interval.Some?
  {
    assert c.tasks[t].number > 0;
    assert c.addMonths(from, c.tasks[t].number) > from;
  }

  /** A minute is 60 seconds, an hour 60 minutes, a day 24 hours and a week 7 days. */
  lemma IntervalSizes(c: Config, n: int, from: int)
    requires n > 0
    ensures NextCall(c, Task(1, Some(Minutes)), from) - from == 60
    ensures NextCall(c, Task(n, Some(Hours)), from) == NextCall(c, Task(60 * n, Some(Minutes)), from)
    ensures NextCall(c, Task(n, Some(Days)), from) == NextCall(c, Task(24 * n, Some(Hours)), from)
    ensures NextCall(c, Task(n, Some(Weeks)), from) == NextCall(c, Task(7 * n, Some(Days)), from)
    ensures NextCall(c, Task(n, Some(Months)), from) == c.addMonths(from, n)
    ensures forall i :: NextCall(c, Task(0, i), from) == NextCall(c, Task(1, i), from)
  {
  }

  // The time after `n` calls of a task with number 1, each from the one before.
  function CallsLater(c: Config, interval: Interval, from: int, n: nat): int {
    if n == 0 then from else NextCall(c, Task(1, Some(interval)), CallsLater(c, interval, from, n - 1))
  }

  /** Except for months, a number of `n` skips to the n-th call of the number 1. */
  lemma {:induction false} NumberSkipsCalls(c: Config, interval: Interval, from: int, n: nat)
    requires !interval.Months? && n > 0
    ensures NextCall(c, Task(n, Some(interval)), from) == CallsLater(c, interval, from, n)
  {
    if n > 1 {
      NumberSkipsCalls(c, interval, from, n - 1);
    }
  }

  // --- State -----------------------------------------------------------------------------------

  datatype Row = Row(running: bool, lastCall: Option<int>, nextCall: int)

  /** A worker executes `tasks[done]`.  `pending` are the rows it has written and not committed. */
  datatype Worker = Idle | Working(tasks: seq<nat>, done: nat, cron: bool, pending: map<nat, Row>)

  // The committed rows, the locks of open transactions by row, and the workers.
  datatype State = State(rows: map<nat, Row>, locks: map<nat, nat>, workers: map<nat, Worker>)

  predicate Busy(s: State, w: nat) {
    w in s.workers && s.workers[w].Working?
  }

  predicate Executing(s: State, w: nat, t: nat) {
    Busy(s, w) && s.workers[w].done < |s.workers[w].tasks| && s.workers[w].tasks[s.workers[w].done] == t
  }

  // The rows that `SELECT ... FOR UPDATE SKIP LOCKED` gives.
  predicate Free(s: State, t: nat) {
    t in s.rows && !s.rows[t].running && t !in s.locks
  }

  predicate Sorted(xs: seq<nat>) {
    forall i, j :: 0 <= i < j < |xs| ==> xs[i] < xs[j]
  }

  function Reserved(rows: map<nat, Row>, tasks: seq<nat>): map<nat, Row>
    requires forall t :: t in tasks ==> t in rows
  {
    map t | t in tasks :: rows[t].(running := true)
  }

  function Released(locks: map<nat, nat>, w: nat): map<nat, nat> {
    map t | t in locks && locks[t] != w :: locks[t]
  }

  // --- Steps -----------------------------------------------------------------------------------

  datatype Action =
    | Reserve(w: nat, ids: seq<nat>, limit: nat, tasks: seq<nat>, cron: bool)
    | Finish(w: nat, now: int)
    | Commit(w: nat)
    | Abort(w: nat)

  /** `tasks` are the free rows among `ids`; with a limit other than 0, the first ones. */
  ghost predicate Selected(s: State, ids: seq<nat>, limit: nat, tasks: seq<nat>) {
    && (forall t :: t in tasks ==> t in ids && Free(s, t))
    && (limit > 0 ==> |tasks| <= limit)
    && (forall t :: t in ids && Free(s, t) && t !in tasks ==> 0 < limit == |tasks| && forall x :: x in tasks ==> x < t)
  }

  ghost predicate Enabled(c: Config, s: State, a: Action) {
    match a
    case Reserve(w, ids, limit, tasks, _) =>
      w in s.workers && s.workers[w].Idle? && Sorted(tasks) && Selected(s, ids, limit, tasks)
    case Finish(w, _) =>
      Busy(s, w) && s.workers[w].done < |s.workers[w].tasks| &&
      var t := s.workers[w].tasks[s.workers[w].done]; t in c.tasks && (t in s.locks ==> s.locks[t] == w)
    case Commit(w) => Busy(s, w) && s.workers[w].done == |s.workers[w].tasks|
    case Abort(w) => Busy(s, w)
  }

  function ReserveStep(s: State, w: nat, tasks: seq<nat>, cron: bool): State
    requires w in s.workers && forall t :: t in tasks ==> t in s.rows
  {
    if tasks == [] then s
    else if cron then
      s.(rows := s.rows + Reserved(s.rows, tasks), workers := s.workers[w := Working(tasks, 0, true, map[])])
    else
      s.(locks := s.locks + map t | t in tasks :: w,
         workers := s.workers[w := Working(tasks, 0, false, Reserved(s.rows, tasks))])
  }

  function FinishedRow(c: Config, t: nat, now: int): (r: Row)
    requires t in c.tasks
    ensures !r.running && r.lastCall == Some(now) && r.nextCall == NextCall(c, c.tasks[t], r.lastCall.value)
  {
    Row(false, Some(now), NextCall(c, c.tasks[t], now))
  }

  function FinishStep(c: Config, s: State, w: nat, now: int): State
    requires Busy(s, w) && s.workers[w].done < |s.workers[w].tasks| && s.workers[w].tasks[s.workers[w].done] in c.tasks
  {
    var x := s.workers[w];
    var t := x.tasks[x.done];
    var row := FinishedRow(c, t, now);
    s.(locks := s.locks[t := w], workers := s.workers[w := x.(done := x.done + 1, pending := x.pending[t := row])])
  }

  function CommitStep(s: State, w: nat): State
    requires Busy(s, w)
  {
    State(s.rows + s.workers[w].pending, Released(s.locks, w), s.workers[w := Idle])
  }

  function AbortStep(s: State, w: nat): State
    requires Busy(s, w)
  {
    s.(locks := Released(s.locks, w), workers := s.workers[w := Idle])
  }

  ghost function Apply(c: Config, s: State, a: Action): State
    requires Enabled(c, s, a)
  {
    match a
    case Reserve(w, _, _, tasks, cron) => ReserveStep(s, w, tasks, cron)
    case Finish(w, now) => FinishStep(c, s, w, now)
    case Commit(w) => CommitStep(s, w)
    case Abort(w) => AbortStep(s, w)
  }

  // --- What holds in every state -----------------------------------------------------------------

  /** A finished task is free, was called at the finish, and is called again one interval after that, if it repeats. */
  ghost predicate Settled(c: Config, t: nat, row: Row) {
    t in c.tasks && !row.running && row.lastCall.Some? && row.nextCall == NextCall(c, c.tasks[t], row.lastCall.value)
    && (c.tasks[t].interval.Some? <==> row.nextCall > row.lastCall.value)
  }

  ghost predicate WorkerOk(c: Config, s: State, w: nat, x: Worker) {
    x.Working? ==>
      && Sorted(x.tasks) && x.done <= |x.tasks|
      && (forall t :: t in x.tasks ==>
            t in s.rows && t in c.tasks && s.rows[t].running == x.cron && (x.cron || Locked(s, t, w)))
      && (forall t :: t in x.pending ==> t in x.tasks && Locked(s, t, w))
      && (forall t :: Locked(s, t, w) ==> t in x.tasks)
      && (forall i :: 0 <= i < x.done ==> x.tasks[i] in x.pending && Settled(c, x.tasks[i], x.pending[x.tasks[i]]))
  }

  predicate Locked(s: State, t: nat, w: nat) {
    t in s.locks && s.locks[t] == w
  }

  ghost predicate Apart(s: State) {
    forall w, v, t :: Busy(s, w) && Busy(s, v) && t in s.workers[w].tasks && t in s.workers[v].tasks ==> w == v
  }

  ghost predicate Inv(c: Config, s: State) {
    && s.rows.Keys <= c.tasks.Keys
    && (forall w :: w in s.workers ==> WorkerOk(c, s, w, s.workers[w]))
    && (forall t :: t in s.locks ==> Busy(s, s.locks[t]))
    && Apart(s)
  }

  // A worker does not mind what happens to other rows.
  lemma OtherKept(c: Config, s: State, after: State, w: nat, x: Worker)
    requires WorkerOk(c, s, w, x) && s.rows.Keys <= after.rows.Keys
    requires forall t :: Locked(s, t, w) <==> Locked(after, t, w)
    requires x.Working? ==> forall t :: t in x.tasks ==> after.rows[t].running == s.rows[t].running
    ensures WorkerOk(c, after, w, x)
  {
  }

  lemma FreeIsApart(c: Config, s: State, v: nat, t: nat)
    requires Inv(c, s) && Busy(s, v) && Free(s, t)
    ensures t !in s.workers[v].tasks
  {
    assert WorkerOk(c, s, v, s.workers[v]);
  }

  lemma ReserveKeepsInv(c: Config, s: State, w: nat, ids: seq<nat>, limit: nat, tasks: seq<nat>, cron: bool)
    requires Sane(c) && Inv(c, s) && Enabled(c, s, Reserve(w, ids, limit, tasks, cron))
    ensures Inv(c, ReserveStep(s, w, tasks, cron))
  {
    hide WorkerOk, Apart, Sorted;
    if tasks != [] {
      var after := ReserveStep(s, w, tasks, cron);
      forall v | v in s.workers && v != w
        ensures WorkerOk(c, after, v, after.workers[v])
      {
        ReserveKeepsOther(c, s, w, tasks, cron, v);
      }
      ReserverOk(c, s, w, tasks, cron);
      ReserveKeepsApart(c, s, w, tasks, cron);
    }
  }

  lemma ReserveKeepsOther(c: Config, s: State, w: nat, tasks: seq<nat>, cron: bool, v: nat)
    requires Inv(c, s) && w in s.workers && v in s.workers && v != w
    requires forall t :: t in tasks ==> t in s.rows && Free(s, t)
    ensures var after := ReserveStep(s, w, tasks, cron); WorkerOk(c, after, v, s.workers[v])
  {
    var after := ReserveStep(s, w, tasks, cron);
    assert WorkerOk(c, s, v, s.workers[v]);
    assert forall t :: Locked(s, t, v) <==> Locked(after, t, v);
    if Busy(s, v) {
      forall t | t in tasks
        ensures t !in s.workers[v].tasks
      {
        FreeIsApart(c, s, v, t);
      }
    }
    OtherKept(c, s, after, v, s.workers[v]);
  }

  lemma ReserverOk(c: Config, s: State, w: nat, tasks: seq<nat>, cron: bool)
    requires Inv(c, s) && w in s.workers && s.workers[w].Idle? && tasks != [] && Sorted(tasks)
    requires forall t :: t in tasks ==> t in s.rows && Free(s, t)
    ensures var after := ReserveStep(s, w, tasks, cron); WorkerOk(c, after, w, after.workers[w])
  {
    var after := ReserveStep(s, w, tasks, cron);
    forall t
      ensures !Locked(s, t, w) && (Locked(after, t, w) <==> !cron && t in tasks)
    {
      assert t in s.locks ==> Busy(s, s.locks[t]);
    }
  }

  lemma ReserveKeepsApart(c: Config, s: State, w: nat, tasks: seq<nat>, cron: bool)
    requires Inv(c, s) && w in s.workers && s.workers[w].Idle? && tasks != []
    requires forall t :: t in tasks ==> t in s.rows && Free(s, t)
    ensures Apart(ReserveStep(s, w, tasks, cron))
  {
    forall v, t | Busy(s, v) && t in tasks
      ensures t !in s.workers[v].tasks
    {
      FreeIsApart(c, s, v, t);
    }
  }

  lemma FinishKeepsInv(c: Config, s: State, w: nat, now: int)
    requires Sane(c) && Inv(c, s) && Enabled(c, s, Finish(w, now))
    ensures Inv(c, FinishStep(c, s, w, now))
  {
    var after := FinishStep(c, s, w, now);
    forall v | v in s.workers && v != w
      ensures WorkerOk(c, after, v, after.workers[v])
    {
      FinishKeepsOther(c, s, w, now, v);
    }
    FinisherOk(c, s, w, now);
    FinishKeepsApart(c, s, w, now);
  }

  lemma FinishKeepsApart(c: Config, s: State, w: nat, now: int)
    requires Apart(s) && Enabled(c, s, Finish(w, now))
    ensures Apart(FinishStep(c, s, w, now))
  {
    assert FinishStep(c, s, w, now).workers[w].tasks == s.workers[w].tasks;
  }

  lemma FinishKeepsOther(c: Config, s: State, w: nat, now: int, v: nat)
    requires Inv(c, s) && Enabled(c, s, Finish(w, now)) && v in s.workers && v != w
    ensures WorkerOk(c, FinishStep(c, s, w, now), v, s.workers[v])
  {
    var after := FinishStep(c, s, w, now);
    assert forall t :: Locked(s, t, v) <==> Locked(after, t, v);
    OtherKept(c, s, after, v, s.workers[v]);
  }

  lemma FinisherOk(c: Config, s: State, w: nat, now: int)
    requires Sane(c) && Enabled(c, s, Finish(w, now)) && WorkerOk(c, s, w, s.workers[w])
    ensures var after := FinishStep(c, s, w, now); WorkerOk(c, after, w, after.workers[w])
  {
    hide Settled, NextCall, FinishedRow;
    var x, after := s.workers[w], FinishStep(c, s, w, now);
    var t := x.tasks[x.done];
    FinishedSettled(c, t, now);
    assert forall q :: Locked(after, q, w) <==> Locked(s, q, w) || q == t;
  }

  lemma FinishedSettled(c: Config, t: nat, now: int)
    requires Sane(c) && t in c.tasks
    ensures Settled(c, t, FinishedRow(c, t, now))
  {
    CalledLater(c, t, now);
  }

  lemma EndKeepsInv(c: Config, s: State, w: nat, rows: map<nat, Row>)
    requires Inv(c, s) && Busy(s, w) && rows.Keys == s.rows.Keys
    requires forall t :: t in rows && t !in s.workers[w].tasks ==> rows[t] == s.rows[t]
    ensures Inv(c, State(rows, Released(s.locks, w), s.workers[w := Idle]))
  {
    hide Settled, Sorted;
    var after := State(rows, Released(s.locks, w), s.workers[w := Idle]);
    forall v | v in s.workers && v != w
      ensures WorkerOk(c, after, v, s.workers[v])
    {
      EndKeepsOther(c, s, w, rows, v);
    }
    forall t | t in after.locks
      ensures Busy(after, after.locks[t])
    {
      assert t in s.locks && Busy(s, s.locks[t]);
    }
  }

  lemma EndKeepsOther(c: Config, s: State, w: nat, rows: map<nat, Row>, v: nat)
    requires Inv(c, s) && Busy(s, w) && rows.Keys == s.rows.Keys && v in s.workers && v != w
    requires forall t :: t in rows && t !in s.workers[w].tasks ==> rows[t] == s.rows[t]
    ensures WorkerOk(c, State(rows, Released(s.locks, w), s.workers[w := Idle]), v, s.workers[v])
  {
    var after := State(rows, Released(s.locks, w), s.workers[w := Idle]);
    assert WorkerOk(c, s, v, s.workers[v]);
    if Busy(s, v) {
      assert forall t :: Locked(s, t, v) <==> Locked(after, t, v);
      OtherKept(c, s, after, v, s.workers[v]);
    }
  }

  lemma StepKeepsInv(c: Config, s: State, a: Action)
    requires Sane(c) && Inv(c, s) && Enabled(c, s, a)
    ensures Inv(c, Apply(c, s, a))
  {
    match a
    case Reserve(w, ids, limit, tasks, cron) => ReserveKeepsInv(c, s, w, ids, limit, tasks, cron);
    case Finish(w, now) => FinishKeepsInv(c, s, w, now);
    case Commit(w) =>
      assert WorkerOk(c, s, w, s.workers[w]);
      EndKeepsInv(c, s, w, s.rows + s.workers[w].pending);
    case Abort(w) => EndKeepsInv(c, s, w, s.rows);
  }

  // --- Runs ----------------------------------------------------------------------------------------

  ghost predicate Start(c: Config, s: State) {
    s.rows.Keys <= c.tasks.Keys && s.locks == map[] && forall w :: w in s.workers ==> s.workers[w].Idle?
  }

  ghost predicate Runs(c: Config, s: State, actions: seq<Action>)
    decreases |actions|
  {
    actions != [] ==> Enabled(c, s, actions[0]) && Runs(c, Apply(c, s, actions[0]), actions[1..])
  }

  ghost function After(c: Config, s: State, actions: seq<Action>): State
    requires Runs(c, s, actions)
    decreases |actions|
  {
    if actions == [] then s else After(c, Apply(c, s, actions[0]), actions[1..])
  }

  lemma {:induction false} RunsKeepInv(c: Config, s: State, actions: seq<Action>)
    requires Sane(c) && Inv(c, s) && Runs(c, s, actions)
    ensures Inv(c, After(c, s, actions))
    decreases |actions|
  {
    if actions != [] {
      StepKeepsInv(c, s, actions[0]);
      RunsKeepInv(c, Apply(c, s, actions[0]), actions[1..]);
    }
  }

  lemma NeverBlocked(c: Config, s: State, w: nat, now: int)
    requires Inv(c, s) && Busy(s, w) && s.workers[w].done < |s.workers[w].tasks|
    ensures Enabled(c, s, Finish(w, now))
  {
    var t := s.workers[w].tasks[s.workers[w].done];
    assert WorkerOk(c, s, w, s.workers[w]);
    if t in s.locks {
      assert Busy(s, s.locks[t]);
      assert WorkerOk(c, s, s.locks[t], s.workers[s.locks[t]]);
      assert Locked(s, t, s.locks[t]);
    }
  }

  /** Main result: whatever cron workers and manual runs do, no task is executed by two workers at once, and a worker
      that has executed a task is never kept from writing its result. */
  lemma NoTaskTwice(c: Config, s: State, actions: seq<Action>, w: nat, v: nat, t: nat, now: int)
    requires Sane(c) && Start(c, s) && Runs(c, s, actions)
    requires Executing(After(c, s, actions), w, t)
    ensures Executing(After(c, s, actions), v, t) ==> v == w
    ensures Enabled(c, After(c, s, actions), Finish(w, now))
  {
    RunsKeepInv(c, s, actions);
    NeverBlocked(c, After(c, s, actions), w, now);
  }

  /** Main result: a worker that ends normally leaves every task it took free, and due later than it finished if the
      task repeats. */
  lemma CommitSettles(c: Config, s: State, actions: seq<Action>, w: nat)
    requires Sane(c) && Start(c, s) && Runs(c, s, actions) && Enabled(c, After(c, s, actions), Commit(w))
    ensures var before := After(c, s, actions);
            var after := Apply(c, before, Commit(w));
            forall t :: t in before.workers[w].tasks ==>
              t in after.rows && Settled(c, t, after.rows[t]) && t !in after.locks
  {
    RunsKeepInv(c, s, actions);
    var before := After(c, s, actions);
    var x := before.workers[w];
    assert WorkerOk(c, before, w, x);
    forall t | t in x.tasks
      ensures t in x.pending && Settled(c, t, x.pending[t]) && Locked(before, t, w)
    {
      var i :| 0 <= i < |x.tasks| && x.tasks[i] == t;
    }
  }

  /** A task is left reserved when no worker has it.  That is what a cron worker that breaks off leaves behind. */
  ghost predicate Stuck(s: State, t: nat) {
    t in s.rows && s.rows[t].running && forall w :: Busy(s, w) ==> t !in s.workers[w].tasks
  }

  /** A step makes a task stuck exactly if a cron worker breaks off that has it. */
  lemma StuckIff(c: Config, s: State, a: Action, t: nat)
    requires Sane(c) && Inv(c, s) && Enabled(c, s, a) && !Stuck(s, t)
    ensures Stuck(Apply(c, s, a), t) <==> a.Abort? && s.workers[a.w].cron && t in s.workers[a.w].tasks
  {
    match a
    case Reserve(w, ids, limit, tasks, cron) => ReserveNotStuck(c, s, w, tasks, cron, t);
    case Finish(w, now) => FinishNotStuck(c, s, w, now, t);
    case Commit(w) => CommitNotStuck(c, s, w, t);
    case Abort(w) => AbortStuckIff(c, s, w, t);
  }

  lemma ReserveNotStuck(c: Config, s: State, w: nat, tasks: seq<nat>, cron: bool, t: nat)
    requires w in s.workers && s.workers[w].Idle? && !Stuck(s, t) && forall x :: x in tasks ==> x in s.rows
    ensures !Stuck(ReserveStep(s, w, tasks, cron), t)
  {
    var after := ReserveStep(s, w, tasks, cron);
    if t in s.rows && s.rows[t].running {
      var v :| Busy(s, v) && t in s.workers[v].tasks;
      assert Busy(after, v) && t in after.workers[v].tasks;
    } else if t in tasks {
      assert Busy(after, w) && t in after.workers[w].tasks;
    }
  }

  lemma FinishNotStuck(c: Config, s: State, w: nat, now: int, t: nat)
    requires Enabled(c, s, Finish(w, now)) && !Stuck(s, t)
    ensures !Stuck(FinishStep(c, s, w, now), t)
  {
    var after := FinishStep(c, s, w, now);
    if t in s.rows && s.rows[t].running {
      var v :| Busy(s, v) && t in s.workers[v].tasks;
      assert Busy(after, v) && t in after.workers[v].tasks;
    }
  }

  lemma CommitNotStuck(c: Config, s: State, w: nat, t: nat)
    requires Inv(c, s) && Enabled(c, s, Commit(w)) && !Stuck(s, t)
    ensures !Stuck(CommitStep(s, w), t)
  {
    var x, after := s.workers[w], CommitStep(s, w);
    assert WorkerOk(c, s, w, x);
    if t in x.tasks {
      var i :| 0 <= i < |x.tasks| && x.tasks[i] == t;
      assert Settled(c, x.tasks[i], x.pending[x.tasks[i]]);
    } else if t in s.rows && s.rows[t].running {
      var v :| Busy(s, v) && t in s.workers[v].tasks;
      assert Busy(after, v) && t in after.workers[v].tasks;
    }
  }

  lemma AbortStuckIff(c: Config, s: State, w: nat, t: nat)
    requires Inv(c, s) && Busy(s, w) && !Stuck(s, t)
    ensures Stuck(AbortStep(s, w), t) <==> s.workers[w].cron && t in s.workers[w].tasks
  {
    var after := AbortStep(s, w);
    assert WorkerOk(c, s, w, s.workers[w]);
    if t in s.workers[w].tasks {
      assert forall v :: Busy(after, v) ==> Busy(s, v) && v != w;
    } else if t in s.rows && s.rows[t].running {
      var v :| Busy(s, v) && t in s.workers[v].tasks;
      assert Busy(after, v) && t in after.workers[v].tasks;
    }
  }

  /** No worker ever takes a stuck task again. */
  lemma {:induction false} StuckForever(c: Config, s: State, actions: seq<Action>, t: nat)
    requires Sane(c) && Inv(c, s) && Runs(c, s, actions) && Stuck(s, t)
    ensures Stuck(After(c, s, actions), t) && After(c, s, actions).rows[t] == s.rows[t]
    decreases |actions|
  {
    if actions != [] {
      StuckStep(c, s, actions[0], t);
      StepKeepsInv(c, s, actions[0]);
      StuckForever(c, Apply(c, s, actions[0]), actions[1..], t);
    }
  }

  /** Main result: the tasks of a cron worker that breaks off are lost, whatever happens later. */
  lemma AbortedIsLost(c: Config, s: State, w: nat, t: nat, actions: seq<Action>)
    requires Sane(c) && Inv(c, s) && Busy(s, w) && s.workers[w].cron && t in s.workers[w].tasks
    requires Runs(c, AbortStep(s, w), actions)
    ensures Stuck(After(c, AbortStep(s, w), actions), t)
    ensures forall v :: !Executing(After(c, AbortStep(s, w), actions), v, t)
  {
    assert !Stuck(s, t);
    AbortStuckIff(c, s, w, t);
    EndKeepsInv(c, s, w, s.rows);
    StuckForever(c, AbortStep(s, w), actions, t);
  }

  lemma StuckStep(c: Config, s: State, a: Action, t: nat)
    requires Inv(c, s) && Enabled(c, s, a) && Stuck(s, t)
    ensures Stuck(Apply(c, s, a), t) && Apply(c, s, a).rows[t] == s.rows[t]
  {
    match a
    case Reserve(w, ids, limit, tasks, cron) =>
      assert !Free(s, t);
    case Finish(w, now) =>
      assert s.workers[w].tasks[s.workers[w].done] in s.workers[w].tasks;
    case Commit(w) =>
      assert WorkerOk(c, s, w, s.workers[w]);
    case Abort(w) =>
  }

  // --- One worker from start to end ------------------------------------------------------------------

  lemma Prepended(t: nat, rest: seq<nat>)
    requires Sorted(rest) && forall x :: x in rest ==> t < x
    ensures Sorted([t] + rest)
  {
    assert forall i :: 0 <= i < |rest| ==> rest[i] in rest;
  }

  function Insert(tasks: seq<nat>, t: nat): (r: seq<nat>)
    requires Sorted(tasks) && t !in tasks
    ensures Sorted(r) && forall x :: x in r <==> x in tasks || x == t
  {
    if tasks == [] || t < tasks[0] then [t] + tasks
    else
      var rest := Insert(tasks[1..], t);
      assert tasks[0] in tasks && forall x :: x in tasks[1..] ==> tasks[0] < x;
      Prepended(tasks[0], rest);
      [tasks[0]] + rest
  }

  // Worker `w` has finished some of its tasks, and nothing else has changed but the reservation.
  ghost predicate Midway(c: Config, before: State, s: State, w: nat, tasks: seq<nat>, clock: nat -> int) {
    && Busy(s, w) && s.workers[w].tasks == tasks && s.workers[w].done <= |tasks|
    && (forall t :: t in tasks ==> t in c.tasks && t in before.rows)
    && Taken(before, s, w, tasks) && Written(c, s.workers[w], clock)
  }

  ghost predicate Taken(before: State, s: State, w: nat, tasks: seq<nat>) {
    && w in before.workers && before.workers[w].Idle?
    && s.workers[w := Idle] == before.workers && Released(s.locks, w) == before.locks
    && s.rows.Keys == before.rows.Keys && forall t :: t in s.rows && t !in tasks ==> s.rows[t] == before.rows[t]
  }

  lemma TakenStep(c: Config, before: State, s: State, w: nat, tasks: seq<nat>, now: int)
    requires Taken(before, s, w, tasks) && Enabled(c, s, Finish(w, now))
    ensures Taken(before, FinishStep(c, s, w, now), w, tasks)
  {
    assert Released(FinishStep(c, s, w, now).locks, w) == Released(s.locks, w);
  }

  ghost predicate Written(c: Config, x: Worker, clock: nat -> int)
    requires x.Working? && x.done <= |x.tasks| && forall t :: t in x.tasks ==> t in c.tasks
  {
    && (forall t :: t in x.pending ==> t in x.tasks)
    && forall i :: 0 <= i < x.done ==>
         x.tasks[i] in x.pending && x.pending[x.tasks[i]] == FinishedRow(c, x.tasks[i], clock(x.tasks[i]))
  }

  lemma WrittenStep(c: Config, x: Worker, clock: nat -> int)
    requires x.Working? && x.done < |x.tasks| && (forall t :: t in x.tasks ==> t in c.tasks) && Written(c, x, clock)
    ensures var t := x.tasks[x.done];
            Written(c, x.(done := x.done + 1, pending := x.pending[t := FinishedRow(c, t, clock(t))]), clock)
  {
  }

  lemma MidwayStart(c: Config, before: State, w: nat, tasks: seq<nat>, cron: bool, clock: nat -> int)
    requires Inv(c, before) && w in before.workers && before.workers[w].Idle? && tasks != []
    requires forall t :: t in tasks ==> t in before.rows && Free(before, t)
    ensures Midway(c, before, ReserveStep(before, w, tasks, cron), w, tasks, clock)
  {
    var s := ReserveStep(before, w, tasks, cron);
    forall t | t in before.locks
      ensures before.locks[t] != w && t !in tasks
    {
      assert Busy(before, before.locks[t]);
    }
    assert Released(s.locks, w) == before.locks;
  }

  lemma MidwayStep(c: Config, before: State, s: State, w: nat, tasks: seq<nat>, clock: nat -> int)
    requires Inv(c, s) && Midway(c, before, s, w, tasks, clock) && s.workers[w].done < |tasks|
    ensures Midway(c, before, FinishStep(c, s, w, clock(tasks[s.workers[w].done])), w, tasks, clock)
  {
    var now := clock(tasks[s.workers[w].done]);
    NeverBlocked(c, s, w, now);
    TakenStep(c, before, s, w, tasks, now);
    WrittenStep(c, s.workers[w], clock);
  }

  lemma MidwayEnd(c: Config, before: State, s: State, w: nat, tasks: seq<nat>, clock: nat -> int)
    requires Midway(c, before, s, w, tasks, clock) && s.workers[w].done == |tasks|
    ensures CommitStep(s, w)
         == before.(rows := map t | t in before.rows ::
                              if t in tasks then FinishedRow(c, t, clock(t)) else before.rows[t])
  {
    forall t | t in tasks
      ensures t in s.workers[w].pending && s.workers[w].pending[t] == FinishedRow(c, t, clock(t))
    {
      var i :| 0 <= i < |tasks| && tasks[i] == t;
    }
    assert CommitStep(s, w).rows
        == map t | t in before.rows :: if t in tasks then FinishedRow(c, t, clock(t)) else before.rows[t];
  }

  lemma FirstSelected(s: State, ids: seq<nat>, limit: nat, all: seq<nat>, tasks: seq<nat>)
    requires Sorted(all) && forall t :: t in all <==> t in ids && Free(s, t)
    requires tasks == if 0 < limit < |all| then all[..limit] else all
    ensures Sorted(tasks) && Selected(s, ids, limit, tasks)
  {
    forall t | t in all && t !in tasks
      ensures 0 < limit == |tasks| && forall x :: x in tasks ==> x < t
    {
      var i :| 0 <= i < |all| && all[i] == t;
      assert forall k :: 0 <= k < |tasks| ==> tasks[k] == all[k] && tasks[k] in tasks;
    }
  }

  class TaskTable {
    const c: Config
    var s: State

    ghost predicate Valid()
      reads this
    {
      Sane(c) && Inv(c, s)
    }

    constructor (c: Config, rows: map<nat, Row>, workers: set<nat>)
      requires Sane(c) && rows.Keys <= c.tasks.Keys
      ensures Valid() && this.c == c && Start(c, s) && s.rows == rows && s.workers.Keys == workers
    {
      this.c := c;
      s := State(rows, map[], map w | w in workers :: Idle);
    }

    // The rows among `ids` that are free, in the order of their ids.
    method SelectFree(ids: seq<nat>) returns (tasks: seq<nat>)
      ensures Sorted(tasks) && forall t :: t in tasks <==> t in ids && Free(s, t)
    {
      tasks := [];
      for n := 0 to |ids|
        invariant Sorted(tasks) && forall t :: t in tasks <==> t in ids[..n] && Free(s, t)
      {
        assert ids[..n + 1] == ids[..n] + [ids[n]];
        if Free(s, ids[n]) && ids[n] !in tasks {
          tasks := Insert(tasks, ids[n]);
        }
      }
      assert ids[..|ids|] == ids;
    }

    /** Reserving is a step of the machine. */
    method ReserveTasks(w: nat, ids: seq<nat>, limit: nat, cron: bool) returns (tasks: seq<nat>)
      requires Valid() && w in s.workers && s.workers[w].Idle?
      modifies this
      ensures Valid()
      ensures var a := Reserve(w, ids, limit, tasks, cron); Enabled(c, old(s), a) && s == Apply(c, old(s), a)
    {
      tasks := SelectFree(ids);
      ghost var all := tasks;
      if 0 < limit < |tasks| {
        tasks := tasks[..limit];
      }
      FirstSelected(s, ids, limit, all, tasks);
      ReserveKeepsInv(c, s, w, ids, limit, tasks, cron);
      s := ReserveStep(s, w, tasks, cron);
    }

    /** Main result: a run that no other worker interrupts takes exactly the free tasks, settles them at the times they
        finish, failed or not, and changes no other row and no lock. */
    method Run(w: nat, ids: seq<nat>, cron: bool, clock: nat -> int) returns (tasks: seq<nat>)
      requires Valid() && w in s.workers && s.workers[w].Idle?
      modifies this
      ensures Valid()
      ensures forall t :: t in tasks <==> t in ids && Free(old(s), t)
      ensures forall t :: t in tasks ==> t in c.tasks
      ensures s == old(s).(rows := map t | t in old(s).rows ::
                                     if t in tasks then FinishedRow(c, t, clock(t)) else old(s).rows[t])
    {
      ghost var before := s;
      tasks := ReserveTasks(w, ids, 0, cron);
      if tasks == [] {
        assert s.rows == map t | t in s.rows :: s.rows[t];
        return;
      }
      MidwayStart(c, before, w, tasks, cron, clock);
      while s.workers[w].done < |tasks|
        invariant Valid() && Midway(c, before, s, w, tasks, clock)
        decreases |tasks| - s.workers[w].done
      {
        MidwayStep(c, before, s, w, tasks, clock);
        FinishTask(w, clock(tasks[s.workers[w].done]));
      }
      MidwayEnd(c, before, s, w, tasks, clock);
      StepKeepsInv(c, s, Commit(w));
      s := CommitStep(s, w);
    }

    method FinishTask(w: nat, now: int)
      requires Valid() && Busy(s, w) && s.workers[w].done < |s.workers[w].tasks|
      modifies this
      ensures Valid() && Enabled(c, old(s), Finish(w, now)) && s == FinishStep(c, old(s), w, now)
    {
      NeverBlocked(c, s, w, now);
      FinishKeepsInv(c, s, w, now);
      s := FinishStep(c, s, w, now);
    }
  }
}
