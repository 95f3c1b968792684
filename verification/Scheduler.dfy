/**
 Significance buckets (task.c) and the selection and distribution that wait_group does over
 them (group.c): which body each task gets and which worker runs it.
 */
module Scheduler {
  import opened Tasks
  import opened Arithmetic
  import Rendezvous

  const LEVELS: nat := SIGNIFICANT + 1
  const PENDING_QUEUE_SIZE_STEP: nat := 100

  // ---------------------------------------------------------------- specification

  // Neither always nor never significant: the tasks among which wait_group chooses.
  predicate Adjustable(t: Task) { t.significance != SIGNIFICANT && t.significance != NON_SIGNIFICANT }

  // A task whose approximate body is NULL is dropped when it is not significant.
  predicate Dropped(t: Task) { t.significance == NON_SIGNIFICANT && !t.hasNonsig }

  // The tasks of the buckets from the most significant down to level n.
  function From(pending: seq<seq<Task>>, n: nat): seq<Task>
    decreases |pending| - n
  {
    if n >= |pending| then [] else From(pending, n + 1) + pending[n]
  }

  datatype Progress = Progress(current: nat, final: seq<Task>, plan: seq<Job>)

  // goal = total * ratio, truncated.
  function Goal(total: nat, ratio: real): (goal: nat)
    requires ratio >= 0.0
    ensures goal as real <= total as real * ratio < goal as real + 1.0
  {
    (total as real * ratio).Floor
  }

  // The significance a task ends up with when `current` adjustable ones came before it.
  function Decided(t: Task, current: nat, goal: nat): Task {
    if !Adjustable(t) then t
    else t.(significance := if current < goal then SIGNIFICANT else NON_SIGNIFICANT)
  }

  // What the loops have done after visiting the given tasks in order.
  function Select(visit: seq<Task>, goal: nat, workers: nat): (p: Progress)
    requires workers > 0
    ensures |p.final| == |visit|
  {
    if visit == [] then Progress(0, [], []) else
    var before := Select(visit[..|visit| - 1], goal, workers);
    var t := visit[|visit| - 1];
    var final := Decided(t, before.current, goal);
    Progress(
      if Adjustable(t) then before.current + 1 else before.current,
      before.final + [final],
      if Dropped(final) then before.plan
      else before.plan + [Job(final, Mod(|before.plan| + 1, workers))])
  }

  function Adjustables(visit: seq<Task>): nat {
    if visit == [] then 0
    else Adjustables(visit[..|visit| - 1]) + if Adjustable(visit[|visit| - 1]) then 1 else 0
  }

  // How many tasks the selection raised to SIGNIFICANT.
  function Promoted(visit: seq<Task>, final: seq<Task>): nat
    requires |visit| == |final|
  {
    if visit == [] then 0
    else
      var n := |visit| - 1;
      Promoted(visit[..n], final[..n]) +
      if Adjustable(visit[n]) && final[n].significance == SIGNIFICANT then 1 else 0
  }

  function Kept(tasks: seq<Task>): seq<Task> {
    if tasks == [] then []
    else Kept(tasks[..|tasks| - 1]) + if Dropped(tasks[|tasks| - 1]) then [] else [tasks[|tasks| - 1]]
  }

  function TasksOf(plan: seq<Job>): (tasks: seq<Task>)
    ensures |tasks| == |plan|
  {
    seq(|plan|, k requires 0 <= k < |plan| => plan[k].task)
  }

  function Load(plan: seq<Job>, w: nat): nat {
    if plan == [] then 0 else Load(plan[..|plan| - 1], w) + if plan[|plan| - 1].worker == w then 1 else 0
  }

  // ---------------------------------------------------------------- selection

  // The fate of each task: adjustable ones are promoted while fewer than `goal` came before.
  lemma {:induction false} SelectionByRank(visit: seq<Task>, goal: nat, workers: nat, k: nat)
    requires workers > 0 && k < |visit|
    ensures var final := Select(visit, goal, workers).final[k];
            if Adjustable(visit[k]) then
              final == visit[k].(significance :=
                if Adjustables(visit[..k]) < goal then SIGNIFICANT else NON_SIGNIFICANT)
            else final == visit[k]
    ensures Select(visit, goal, workers).current == Adjustables(visit)
  {
    var n := |visit| - 1;
    if n > 0 { SelectionByRank(visit[..n], goal, workers, if k < n then k else 0); }
    if k < n { assert visit[..n][..k] == visit[..k]; }
  }

  lemma {:induction false} RankGrows(visit: seq<Task>, k: nat, l: nat)
    requires k <= l <= |visit|
    ensures Adjustables(visit[..k]) <= Adjustables(visit[..l])
    ensures k < l && Adjustable(visit[k]) ==> Adjustables(visit[..k]) < Adjustables(visit[..l])
  {
    if k < l {
      assert visit[..l][..l - 1] == visit[..l - 1];
      RankGrows(visit, k, l - 1);
    }
  }

  /** Exactly the first min(goal, count) of the adjustable tasks are promoted. */
  lemma {:induction false} PromotesTheGoal(visit: seq<Task>, goal: nat, workers: nat)
    requires workers > 0
    ensures var count := Adjustables(visit);
            Promoted(visit, Select(visit, goal, workers).final) == if goal < count then goal else count
  {
    if visit != [] {
      var n := |visit| - 1;
      PromotesTheGoal(visit[..n], goal, workers);
      assert Select(visit, goal, workers).final[..n] == Select(visit[..n], goal, workers).final;
      SelectionByRank(visit, goal, workers, n);
    }
  }

  predicate Descending(visit: seq<Task>) {
    forall k, l :: 0 <= k < l < |visit| ==> visit[k].significance >= visit[l].significance
  }

  /** A task that was demoted is never more significant than one that was promoted. */
  lemma {:induction false} NeverDemotesTheBetter(visit: seq<Task>, goal: nat, workers: nat, down: nat, up: nat)
    requires workers > 0 && Descending(visit) && down < |visit| && up < |visit|
    requires Adjustable(visit[down]) && Select(visit, goal, workers).final[down].significance == NON_SIGNIFICANT
    requires Adjustable(visit[up]) && Select(visit, goal, workers).final[up].significance == SIGNIFICANT
    ensures visit[down].significance <= visit[up].significance
  {
    SelectionByRank(visit, goal, workers, down);
    SelectionByRank(visit, goal, workers, up);
    if down < up { RankGrows(visit, down, up); }
  }

  // ---------------------------------------------------------------- distribution

  // The plan is what is kept of the final tasks, in order, dealt out round robin.
  lemma {:induction false} PlanIsDealt(visit: seq<Task>, goal: nat, workers: nat)
    requires workers > 0
    ensures var p := Select(visit, goal, workers);
            && TasksOf(p.plan) == Kept(p.final)
            && (forall k :: 0 <= k < |p.plan| ==> p.plan[k].worker == (k + 1) % workers)
  {
    if visit != [] {
      var n := |visit| - 1;
      var p, q := Select(visit[..n], goal, workers), Select(visit, goal, workers);
      PlanIsDealt(visit[..n], goal, workers);
      assert q.final[..n] == p.final;
      if p.plan != q.plan { assert TasksOf(q.plan) == TasksOf(p.plan) + [q.final[n]]; }
    }
  }

  lemma {:induction false} LoadOfDealt(plan: seq<Job>, workers: nat, w: nat)
    requires workers > 0 && w < workers
    requires forall k :: 0 <= k < |plan| ==> plan[k].worker == (k + 1) % workers
    ensures Load(plan, w) == |plan| / workers + if 1 <= w <= |plan| % workers then 1 else 0
  {
    if plan == [] {
      DivModUnique(0, workers, 0, 0);
    } else {
      var n := |plan| - 1;
      LoadOfDealt(plan[..n], workers, w);
      NextDivMod(n, workers);
    }
  }

  /** The loads of two workers never differ by more than one. */
  lemma {:induction false} LoadsAreBalanced(visit: seq<Task>, goal: nat, workers: nat, v: nat, w: nat)
    requires v < workers && w < workers
    ensures var plan := Select(visit, goal, workers).plan; Load(plan, v) <= Load(plan, w) + 1
  {
    PlanIsDealt(visit, goal, workers);
    var plan := Select(visit, goal, workers).plan;
    LoadOfDealt(plan, workers, v);
    LoadOfDealt(plan, workers, w);
  }

  // ---------------------------------------------------------------- order of the visit

  // The significances index pending_q: they must be at most SIGNIFICANT.
  predicate Levelled(pushed: seq<Task>) {
    forall k :: 0 <= k < |pushed| ==> pushed[k].significance < LEVELS
  }

  // The buckets after pushing the given tasks, one after the other.
  function Buckets(pushed: seq<Task>): (pending: seq<seq<Task>>)
    requires Levelled(pushed)
    ensures |pending| == LEVELS
  {
    if pushed == [] then seq(LEVELS, _ => [])
    else
      var before, t := Buckets(pushed[..|pushed| - 1]), pushed[|pushed| - 1];
      before[t.significance := before[t.significance] + [t]]
  }

  // The push indices of the tasks of one significance, and of all, in visiting order.
  function IndicesAt(pushed: seq<Task>, level: nat): seq<nat> {
    if pushed == [] then []
    else
      var n := |pushed| - 1;
      IndicesAt(pushed[..n], level) + if pushed[n].significance == level then [n] else []
  }

  function IndicesFrom(pushed: seq<Task>, n: nat): seq<nat>
    decreases LEVELS - n
  {
    if n >= LEVELS then [] else IndicesFrom(pushed, n + 1) + IndicesAt(pushed, n)
  }

  // Before(i, j): the task pushed i-th is visited before the one pushed j-th.
  predicate Before(pushed: seq<Task>, i: nat, j: nat) {
    i < |pushed| && j < |pushed| &&
    (pushed[i].significance > pushed[j].significance || (pushed[i].significance == pushed[j].significance && i < j))
  }

  predicate InOrder(pushed: seq<Task>, low: nat, high: nat, order: seq<nat>) {
    && (forall k :: 0 <= k < |order| ==> order[k] < |pushed| && low <= pushed[order[k]].significance < high)
    && (forall k, l :: 0 <= k < l < |order| ==> Before(pushed, order[k], order[l]))
  }

  predicate Complete(pushed: seq<Task>, low: nat, high: nat, order: seq<nat>) {
    forall i :: 0 <= i < |pushed| && low <= pushed[i].significance < high ==> i in order
  }

  lemma {:induction false} IndicesAtAreSorted(pushed: seq<Task>, level: nat)
    ensures InOrder(pushed, level, level + 1, IndicesAt(pushed, level))
    ensures Complete(pushed, level, level + 1, IndicesAt(pushed, level))
  {
    if pushed != [] {
      hide *;
      var before, t := pushed[..|pushed| - 1], pushed[|pushed| - 1];
      assert pushed == before + [t];
      IndicesAtAreSorted(before, level);
      IndicesNext(before, t, level);
      OneMoreIsSorted(before, t, level, IndicesAt(before, level));
    }
  }

  lemma OneMoreIsSorted(before: seq<Task>, t: Task, level: nat, order: seq<nat>)
    requires InOrder(before, level, level + 1, order) && Complete(before, level, level + 1, order)
    ensures var next := order + if t.significance == level then [|before|] else [];
            InOrder(before + [t], level, level + 1, next) && Complete(before + [t], level, level + 1, next)
  {
    forall k, l | 0 <= k < l < |order| ensures Before(before + [t], order[k], order[l]) {
      assert Before(before, order[k], order[l]);
    }
  }

  lemma {:induction false} IndicesFromAreSorted(pushed: seq<Task>, n: nat)
    ensures InOrder(pushed, n, LEVELS, IndicesFrom(pushed, n))
    ensures Complete(pushed, n, LEVELS, IndicesFrom(pushed, n))
    decreases LEVELS - n
  {
    if n < LEVELS {
      IndicesFromAreSorted(pushed, n + 1);
      IndicesAtAreSorted(pushed, n);
      hide InOrder, Complete, IndicesAt;
      JoinIsSorted(pushed, n, IndicesFrom(pushed, n + 1), IndicesAt(pushed, n));
    }
  }

  // A run of higher levels followed by one level.
  lemma JoinIsSorted(pushed: seq<Task>, n: nat, high: seq<nat>, low: seq<nat>)
    requires InOrder(pushed, n + 1, LEVELS, high) && Complete(pushed, n + 1, LEVELS, high)
    requires InOrder(pushed, n, n + 1, low) && Complete(pushed, n, n + 1, low) && n < LEVELS
    ensures InOrder(pushed, n, LEVELS, high + low) && Complete(pushed, n, LEVELS, high + low)
  {
    forall i | 0 <= i < |pushed| && n <= pushed[i].significance < LEVELS ensures i in high + low {
      assert i in high || i in low;
    }
  }

  function Pick(pushed: seq<Task>, indices: seq<nat>): (tasks: seq<Task>)
    requires forall k :: 0 <= k < |indices| ==> indices[k] < |pushed|
    ensures |tasks| == |indices| && forall k :: 0 <= k < |indices| ==> tasks[k] == pushed[indices[k]]
  {
    seq(|indices|, k requires 0 <= k < |indices| => pushed[indices[k]])
  }

  lemma BucketsNext(pushed: seq<Task>, t: Task, level: nat)
    requires Levelled(pushed + [t]) && level < LEVELS
    ensures Levelled(pushed)
    ensures Buckets(pushed + [t])[level] == Buckets(pushed)[level] + if t.significance == level then [t] else []
  {
    assert (pushed + [t])[..|pushed|] == pushed && (pushed + [t])[|pushed|] == t;
    assert forall k :: 0 <= k < |pushed| ==> pushed[k] == (pushed + [t])[k];
  }

  lemma IndicesNext(pushed: seq<Task>, t: Task, level: nat)
    ensures IndicesAt(pushed + [t], level)
      == IndicesAt(pushed, level) + if t.significance == level then [|pushed|] else []
  {
    assert (pushed + [t])[..|pushed|] == pushed && (pushed + [t])[|pushed|] == t;
  }

  lemma PickNext(pushed: seq<Task>, t: Task, indices: seq<nat>)
    requires forall k :: 0 <= k < |indices| ==> indices[k] < |pushed|
    ensures Pick(pushed + [t], indices) == Pick(pushed, indices)
    ensures Pick(pushed + [t], indices + [|pushed|]) == Pick(pushed, indices) + [t]
  {
  }

  predicate Within(indices: seq<nat>, n: nat) {
    forall k :: 0 <= k < |indices| ==> indices[k] < n
  }

  lemma {:induction false} BucketHoldsItsLevel(pushed: seq<Task>, level: nat)
    requires Levelled(pushed) && level < LEVELS
    ensures Within(IndicesAt(pushed, level), |pushed|)
    ensures Buckets(pushed)[level] == Pick(pushed, IndicesAt(pushed, level))
  {
    if pushed == [] {
    } else {
      hide Buckets, IndicesAt, Pick, Levelled;
      var before, t := pushed[..|pushed| - 1], pushed[|pushed| - 1];
      assert pushed == before + [t];
      BucketsNext(before, t, level);
      IndicesNext(before, t, level);
      BucketHoldsItsLevel(before, level);
      PickNext(before, t, IndicesAt(before, level));
    }
  }

  lemma {:induction false} VisitFollowsIndices(pushed: seq<Task>, n: nat)
    requires Levelled(pushed)
    ensures Within(IndicesFrom(pushed, n), |pushed|)
    ensures From(Buckets(pushed), n) == Pick(pushed, IndicesFrom(pushed, n))
    decreases LEVELS - n
  {
    hide Buckets, IndicesAt, Pick, Levelled;
    if n < LEVELS {
      VisitFollowsIndices(pushed, n + 1);
      BucketHoldsItsLevel(pushed, n);
      PickJoined(pushed, IndicesFrom(pushed, n + 1), IndicesAt(pushed, n));
    } else {
      PickJoined(pushed, [], []);
    }
  }

  lemma PickJoined(pushed: seq<Task>, x: seq<nat>, y: seq<nat>)
    requires Within(x, |pushed|) && Within(y, |pushed|)
    ensures Within(x + y, |pushed|) && Pick(pushed, x + y) == Pick(pushed, x) + Pick(pushed, y)
    ensures Pick(pushed, []) == []
  {
  }

  /** For any order of pushes the visit is the stable sort by decreasing significance: it
      lists every push exactly once, and equal significances keep their push order. */
  lemma {:induction false} VisitIsAStableSort(pushed: seq<Task>)
    requires Levelled(pushed)
    ensures var order := IndicesFrom(pushed, 0);
            && (forall k :: 0 <= k < |order| ==> order[k] < |pushed|)
            && From(Buckets(pushed), 0) == Pick(pushed, order)
            && (forall i :: 0 <= i < |pushed| ==> i in order)
            && (forall k, l :: 0 <= k < l < |order| ==> Before(pushed, order[k], order[l]))
    ensures Descending(From(Buckets(pushed), 0))
  {
    VisitFollowsIndices(pushed, 0);
    IndicesFromAreSorted(pushed, 0);
  }

  // ---------------------------------------------------------------- what the workers then do

  lemma {:induction false} KeptAreRunnable(visit: seq<Task>, goal: nat, workers: nat, k: nat)
    requires workers > 0 && k < |Select(visit, goal, workers).plan|
    ensures var t := Select(visit, goal, workers).plan[k].task;
            t.significance == SIGNIFICANT || (t.significance == NON_SIGNIFICANT && t.hasNonsig)
  {
    var n := |visit| - 1;
    if k < |Select(visit[..n], goal, workers).plan| { KeptAreRunnable(visit[..n], goal, workers, k); }
  }

  lemma {:induction false} PlanFits(visit: seq<Task>, goal: nat, workers: nat)
    requires workers > 0 && |visit| < Rendezvous.UINT
    ensures Rendezvous.ValidPlan(Select(visit, goal, workers).plan, workers)
    ensures |Select(visit, goal, workers).plan| <= |visit|
  {
    PlanIsDealt(visit, goal, workers);
    KeptIsShorter(Select(visit, goal, workers).final);
  }

  lemma {:induction false} KeptIsShorter(tasks: seq<Task>)
    ensures |Kept(tasks)| <= |tasks|
  {
    if tasks != [] { KeptIsShorter(tasks[..|tasks| - 1]); }
  }

  lemma {:induction false} FromGrows(pending: seq<seq<Task>>, sig: nat, t: Task, n: nat)
    requires sig < |pending|
    ensures |From(pending[sig := pending[sig] + [t]], n)| == |From(pending, n)| + if n <= sig then 1 else 0
    decreases |pending| - n
  {
    if n < |pending| { FromGrows(pending, sig, t, n + 1); }
  }

  lemma {:induction false} NothingFromNothing(pending: seq<seq<Task>>, n: nat)
    requires forall i :: 0 <= i < |pending| ==> pending[i] == []
    ensures From(pending, n) == []
    decreases |pending| - n
  {
    if n < |pending| { NothingFromNothing(pending, n + 1); }
  }

  lemma {:induction false} VisitsEveryPush(pushed: seq<Task>)
    requires Levelled(pushed)
    ensures |From(Buckets(pushed), 0)| == |pushed|
  {
    if pushed == [] {
      NothingFromNothing(Buckets(pushed), 0);
    } else {
      var before, t := pushed[..|pushed| - 1], pushed[|pushed| - 1];
      VisitsEveryPush(before);
      FromGrows(Buckets(before), t.significance, t, 0);
    }
  }

  // The body a kept task runs: its own one when significant, its approximate one otherwise.
  function SelectedBody(t: Task): Body {
    if t.significance == SIGNIFICANT then if t.hasExecution then Execution else Nothing
    else ExecutionNonsig
  }

  /** From the pushes to the wake-up: when wait_group returns, under any schedule of the
      threads, each task that selection kept has run exactly once, with the body its final
      significance selects, and nothing else has run. */
  lemma {:induction false} GroupRunsItsSelection(pushed: seq<Task>, goal: nat, workers: nat,
                                                 schedule: Rendezvous.Schedule, n: nat)
    requires workers > 0 && |pushed| < Rendezvous.UINT
    requires Levelled(pushed)
    requires Rendezvous.At(Select(From(Buckets(pushed), 0), goal, workers).plan, workers, schedule, n).main.Returned?
    ensures var p := Select(From(Buckets(pushed), 0), goal, workers);
            var ran := Rendezvous.At(p.plan, workers, schedule, n).ran;
            && TasksOf(p.plan) == Kept(p.final)
            && (forall j: nat :: Rendezvous.Count(Rendezvous.JobsOf(ran), j) == if j < |p.plan| then 1 else 0)
            && (forall k :: 0 <= k < |ran| ==>
                  ran[k].job < |p.plan| && ran[k].body == SelectedBody(p.plan[ran[k].job].task))
  {
    var visit := From(Buckets(pushed), 0);
    var p := Select(visit, goal, workers);
    VisitsEveryPush(pushed);
    PlanIsDealt(visit, goal, workers);
    PlanFits(visit, goal, workers);
    Rendezvous.ReturnsOnlyWhenDone(p.plan, workers, schedule, n);
    forall k | 0 <= k < |p.plan| ensures BodyOf(p.plan[k].task) == SelectedBody(p.plan[k].task) {
      KeptAreRunnable(visit, goal, workers, k);
    }
  }

  // ---------------------------------------------------------------- whether the wait returns

  // Such a task keeps the plan from being empty: it is not dropped, or another one is promoted.
  predicate Runs(t: Task, goal: nat) {
    t.significance == SIGNIFICANT || t.hasNonsig || (Adjustable(t) && goal > 0)
  }

  predicate SomeRuns(tasks: seq<Task>, goal: nat) {
    exists k :: 0 <= k < |tasks| && Runs(tasks[k], goal)
  }

  lemma SomeRunsNext(tasks: seq<Task>, t: Task, goal: nat)
    ensures SomeRuns(tasks + [t], goal) <==> SomeRuns(tasks, goal) || Runs(t, goal)
  {
    if SomeRuns(tasks, goal) {
      var k :| 0 <= k < |tasks| && Runs(tasks[k], goal);
      assert (tasks + [t])[k] == tasks[k];
    }
    assert (tasks + [t])[|tasks|] == t;
  }

  /** wait_group enqueues a job exactly when some task is significant, has an approximate body,
      or may be promoted. */
  lemma {:induction false} EnqueuesIffSomeRuns(visit: seq<Task>, goal: nat, workers: nat)
    requires workers > 0
    ensures Select(visit, goal, workers).plan != [] <==> SomeRuns(visit, goal)
    ensures !SomeRuns(visit, goal) && goal > 0 ==> Select(visit, goal, workers).current == 0
  {
    if visit != [] {
      var before, t := visit[..|visit| - 1], visit[|visit| - 1];
      assert visit == before + [t];
      EnqueuesIffSomeRuns(before, goal, workers);
      SelectNext(before, t, goal, workers);
      SomeRunsNext(before, t, goal);
      hide SomeRuns, Select, Mod;
    }
  }

  lemma PickedIffPushed(pushed: seq<Task>, order: seq<nat>, goal: nat)
    requires forall k :: 0 <= k < |order| ==> order[k] < |pushed|
    requires forall i :: 0 <= i < |pushed| ==> i in order
    ensures SomeRuns(Pick(pushed, order), goal) <==> SomeRuns(pushed, goal)
  {
    hide Runs;
    if SomeRuns(Pick(pushed, order), goal) {
      var k :| 0 <= k < |order| && Runs(Pick(pushed, order)[k], goal);
      assert Runs(pushed[order[k]], goal);
    }
    if SomeRuns(pushed, goal) {
      var i :| 0 <= i < |pushed| && Runs(pushed[i], goal);
      assert i in order;
      var k :| 0 <= k < |order| && order[k] == i;
      assert Runs(Pick(pushed, order)[k], goal);
    }
  }

  lemma VisitedIffPushed(pushed: seq<Task>, goal: nat)
    requires Levelled(pushed)
    ensures SomeRuns(From(Buckets(pushed), 0), goal) <==> SomeRuns(pushed, goal)
  {
    hide *;
    VisitIsAStableSort(pushed);
    PickedIffPushed(pushed, IndicesFrom(pushed, 0), goal);
  }

  /** From the pushes to the return: under every fair schedule wait_group returns if and only if
      some pushed task is significant, has an approximate body, or may be promoted. */
  lemma WaitReturnsIffSomeRuns(pushed: seq<Task>, goal: nat, workers: nat, schedule: Rendezvous.Schedule)
    requires workers > 0 && |pushed| < Rendezvous.UINT && Levelled(pushed) && Rendezvous.Fair(schedule, workers)
    ensures var plan := Select(From(Buckets(pushed), 0), goal, workers).plan;
            SomeRuns(pushed, goal) <==> exists n :: Rendezvous.At(plan, workers, schedule, n).main.Returned?
  {
    var visit := From(Buckets(pushed), 0);
    VisitsEveryPush(pushed);
    VisitedIffPushed(pushed, goal);
    hide *;
    EnqueuesIffSomeRuns(visit, goal, workers);
    PlanFits(visit, goal, workers);
    Rendezvous.ReturnsIffJobs(Select(visit, goal, workers).plan, workers, schedule);
  }

  lemma NothingEnqueuedHangs(pushed: seq<Task>, goal: nat, workers: nat, schedule: Rendezvous.Schedule, n: nat)
    requires workers > 0 && Levelled(pushed) && !SomeRuns(pushed, goal)
    ensures !Rendezvous.At(Select(From(Buckets(pushed), 0), goal, workers).plan, workers, schedule, n).main.Returned?
  {
    hide *;
    VisitedIffPushed(pushed, goal);
    EnqueuesIffSomeRuns(From(Buckets(pushed), 0), goal, workers);
    Rendezvous.NeverWithoutJobs(workers, schedule, n);
  }

  /** A group of one task of significance 0 without an approximate body: the wait never returns,
      whatever the ratio, the workers and the schedule. */
  lemma LoneDroppedTaskHangs(id: nat, hasExecution: bool, goal: nat, workers: nat, schedule: Rendezvous.Schedule,
                             n: nat)
    requires workers > 0
    ensures var pushed := [Task(id, NON_SIGNIFICANT, hasExecution, false)];
            && Levelled(pushed) && !SomeRuns(pushed, goal)
            && !Rendezvous.At(Select(From(Buckets(pushed), 0), goal, workers).plan, workers, schedule, n).main.Returned?
  {
    var pushed := [Task(id, NON_SIGNIFICANT, hasExecution, false)];
    assert Levelled(pushed) && !SomeRuns(pushed, goal);
    hide *;
    NothingEnqueuedHangs(pushed, goal, workers, schedule, n);
  }

  // ---------------------------------------------------------------- the group in place

  // How many jobs of a plan run as significant.
  function Significant(plan: seq<Job>): (n: nat)
    ensures n <= |plan|
  {
    if plan == [] then 0
    else Significant(plan[..|plan| - 1]) + if plan[|plan| - 1].task.significance == SIGNIFICANT then 1 else 0
  }

  lemma SelectNothing(goal: nat, workers: nat)
    requires workers > 0
    ensures Select([], goal, workers) == Progress(0, [], [])
  {
  }

  lemma NothingSignificant()
    ensures Significant([]) == 0
  {
  }

  lemma SignificantSnoc(plan: seq<Job>, job: Job)
    ensures Significant(plan + [job]) == Significant(plan) + if job.task.significance == SIGNIFICANT then 1 else 0
  {
    assert (plan + [job])[..|plan|] == plan;
  }

  lemma SelectNext(visit: seq<Task>, t: Task, goal: nat, workers: nat)
    requires workers > 0
    ensures var p, q := Select(visit, goal, workers), Select(visit + [t], goal, workers);
            var task := Decided(t, p.current, goal);
            && q.current == (if Adjustable(t) then p.current + 1 else p.current)
            && q.final == p.final + [task]
            && q.plan == if Dropped(task) then p.plan else p.plan + [Job(task, Mod(|p.plan| + 1, workers))]
  {
    assert (visit + [t])[..|visit|] == visit;
  }

  lemma {:induction false} FromAgree(a: seq<seq<Task>>, b: seq<seq<Task>>, m: nat)
    requires |a| == |b| && forall i :: m <= i < |a| ==> a[i] == b[i]
    ensures From(a, m) == From(b, m)
    decreases |a| - m
  {
    if m < |a| { FromAgree(a, b, m + 1); }
  }

  lemma SnocSlices(above: seq<Task>, bucket: seq<Task>, final: seq<Task>, was: seq<Task>, now: seq<Task>, i: nat)
    requires i < |bucket| == |was| == |now| && now == was[i := now[i]]
    ensures above + bucket[..i + 1] == above + bucket[..i] + [bucket[i]]
    ensures final + now[..i + 1] == final + was[..i] + [now[i]]
  {
  }

  /** A group's significance buckets: growable arrays, as push_task and wait_group use them. */
  class Group {
    var total: nat
    var executingNum: nat
    var totalSigTasks: nat
    var totalNonSigTasks: nat
    var pendingQ: seq<array<Task>>
    var pendingNum: seq<nat>
    var pendingNumSize: seq<nat>     // free slots left in each bucket

    ghost predicate Valid()
      reads this, pendingQ
    {
      && |pendingQ| == |pendingNum| == |pendingNumSize| == LEVELS
      && (forall i, j :: 0 <= i < j < LEVELS ==> pendingQ[i] != pendingQ[j])
      && (forall i :: 0 <= i < LEVELS ==> pendingNum[i] + pendingNumSize[i] == pendingQ[i].Length)
    }

    ghost function Bucket(i: nat): (tasks: seq<Task>)
      requires Valid() && i < LEVELS
      reads this, pendingQ
      ensures |tasks| == pendingNum[i]
    {
      pendingQ[i][..pendingNum[i]]
    }

    // The buckets hold the given contents.
    ghost predicate Holds(pending: seq<seq<Task>>)
      requires Valid()
      reads this, pendingQ
    {
      |pending| == LEVELS && forall i :: 0 <= i < LEVELS ==> Bucket(i) == pending[i]
    }

    // create_group
    constructor ()
      ensures Valid() && fresh(pendingQ) && total == 0
      ensures Holds(Buckets([]))
    {
      var q: seq<array<Task>> := [];
      while |q| < LEVELS
        invariant |q| <= LEVELS && fresh(q)
        invariant forall i, j :: 0 <= i < j < |q| ==> q[i] != q[j]
        invariant forall i :: 0 <= i < |q| ==> q[i].Length == 0
      {
        var empty := new Task[0];
        q := q + [empty];
      }
      pendingQ := q;
      pendingNum, pendingNumSize := seq(LEVELS, _ => 0), seq(LEVELS, _ => 0);
      total, executingNum, totalSigTasks, totalNonSigTasks := 0, 0, 0, 0;
    }

    // The realloc of add_task_to_pending_queue.
    method Grow(sig: nat)
      requires Valid() && sig < LEVELS && pendingNumSize[sig] == 0
      modifies this`pendingQ, this`pendingNumSize
      ensures Valid() && fresh(pendingQ[sig]) && pendingQ == old(pendingQ)[sig := pendingQ[sig]]
      ensures Bucket(sig) == old(Bucket(sig))
      ensures pendingNumSize == old(pendingNumSize)[sig := PENDING_QUEUE_SIZE_STEP]
    {
      var n, small := pendingNum[sig], pendingQ[sig];
      var bigger := new Task[n + PENDING_QUEUE_SIZE_STEP];
      forall i | 0 <= i < n { bigger[i] := small[i]; }
      assert bigger[..n] == small[..n];
      pendingQ := pendingQ[sig := bigger];
      pendingNumSize := pendingNumSize[sig := PENDING_QUEUE_SIZE_STEP];
    }

    // Filling the next slot of a bucket that has room.
    method Store(task: Task, sig: nat)
      requires Valid() && sig < LEVELS && pendingNumSize[sig] > 0
      modifies this`pendingNum, this`pendingNumSize, pendingQ[sig]
      ensures Valid() && Bucket(sig) == old(Bucket(sig)) + [task]
      ensures forall i :: 0 <= i < LEVELS && i != sig ==> Bucket(i) == old(Bucket(i))
    {
      pendingQ[sig][pendingNum[sig]] := task;
      pendingNum := pendingNum[sig := pendingNum[sig] + 1];
      pendingNumSize := pendingNumSize[sig := pendingNumSize[sig] - 1];
    }

    // push_task and add_task_to_pending_queue
    method Push(task: Task, ghost pushed: seq<Task>)
      requires Levelled(pushed) && task.significance < LEVELS
      requires Valid() && Holds(Buckets(pushed))
      modifies this, pendingQ[task.significance]
      ensures Levelled(pushed + [task]) && Valid() && Holds(Buckets(pushed + [task]))
      ensures forall i :: 0 <= i < LEVELS ==> pendingQ[i] == old(pendingQ[i]) || fresh(pendingQ[i])
      ensures total == old(total) + 1
    {
      var sig := task.significance;
      total := total + 1;
      if pendingNumSize[sig] == 0 { Grow(sig); }
      Store(task, sig);
      assert (pushed + [task])[..|pushed|] == pushed;
    }

    // The significance of one pending task, decided in place.
    method Decide(sig: nat, i: nat, goal: nat, current: nat) returns (task: Task, next: nat)
      requires Valid() && sig < LEVELS && i < pendingNum[sig]
      modifies pendingQ[sig]
      ensures var t := old(Bucket(sig))[i];
              && task == Decided(t, current, goal)
              && next == if Adjustable(t) then current + 1 else current
      ensures Valid() && Bucket(sig) == old(Bucket(sig))[i := task]
      ensures forall s :: 0 <= s < LEVELS && s != sig ==> Bucket(s) == old(Bucket(s))
    {
      task, next := pendingQ[sig][i], current;
      if task.significance != SIGNIFICANT && task.significance != NON_SIGNIFICANT {
        task := task.(significance := if current < goal then SIGNIFICANT else NON_SIGNIFICANT);
        next := current + 1;
        pendingQ[sig][i] := task;
      }
    }

    // Counting one enqueued task.
    method Account(task: Task)
      modifies this`executingNum, this`totalSigTasks, this`totalNonSigTasks
      ensures executingNum == old(executingNum) + 1
      ensures totalSigTasks == old(totalSigTasks) + if task.significance == SIGNIFICANT then 1 else 0
      ensures totalNonSigTasks == old(totalNonSigTasks) + if task.significance == SIGNIFICANT then 0 else 1
    {
      executingNum := executingNum + 1;
      if task.significance == SIGNIFICANT { totalSigTasks := totalSigTasks + 1; }
      else { totalNonSigTasks := totalNonSigTasks + 1; }
    }

    // The body of the inner loop of wait_group; `reached` is where the loops are before it and
    // `worker` the one that got the last job.
    method Visit(sig: nat, i: nat, goal: nat, workers: nat, worker: nat, reached: Progress, ghost visited: seq<Task>)
      returns (next: Progress, last: nat)
      requires Valid() && sig < LEVELS && i < pendingNum[sig] && workers > 0
      requires reached == Select(visited, goal, workers) && worker == Mod(|reached.plan|, workers)
      modifies this`executingNum, this`totalSigTasks, this`totalNonSigTasks, pendingQ[sig]
      ensures Valid() && forall s :: 0 <= s < LEVELS && s != sig ==> Bucket(s) == old(Bucket(s))
      ensures next == Select(visited + [old(Bucket(sig))[i]], goal, workers) && last == Mod(|next.plan|, workers)
      ensures |next.final| == |reached.final| + 1 && next.final == reached.final + [Bucket(sig)[i]]
      ensures Bucket(sig) == old(Bucket(sig))[i := Bucket(sig)[i]]
      ensures executingNum - |next.plan| == old(executingNum) - |reached.plan|
      ensures totalSigTasks - Significant(next.plan) == old(totalSigTasks) - Significant(reached.plan)
      ensures totalNonSigTasks + Significant(next.plan) - |next.plan|
        == old(totalNonSigTasks) + Significant(reached.plan) - |reached.plan|
    {
      hide Mod, Select, Decided, Significant;
      ghost var t := Bucket(sig)[i];
      SelectNext(visited, t, goal, workers);
      var task, current := Decide(sig, i, goal, reached.current);
      next, last := Progress(current, reached.final + [task], reached.plan), worker;
      if task.significance == NON_SIGNIFICANT && !task.hasNonsig {
        return;
      }
      ModNext(|reached.plan|, workers);
      SignificantSnoc(reached.plan, Job(task, Mod(|reached.plan| + 1, workers)));
      last := (worker + 1) % workers;
      next := Progress(current, reached.final + [task], reached.plan + [Job(task, last)]);
      Account(task);
    }

    // The inner loop of wait_group, over one bucket; `above` is what was visited before it.
    method DistributeBucket(sig: nat, goal: nat, workers: nat, reached: Progress, ghost above: seq<Task>)
      returns (next: Progress)
      requires Valid() && sig < LEVELS && workers > 0
      requires Select(above, goal, workers) == reached
      modifies this`executingNum, this`totalSigTasks, this`totalNonSigTasks, pendingQ[sig]
      ensures Valid() && forall s :: 0 <= s < LEVELS && s != sig ==> Bucket(s) == old(Bucket(s))
      ensures next == Select(above + old(Bucket(sig)), goal, workers)
      ensures next.final == reached.final + Bucket(sig)
      ensures executingNum - |next.plan| == old(executingNum) - |reached.plan|
      ensures totalSigTasks - Significant(next.plan) == old(totalSigTasks) - Significant(reached.plan)
      ensures totalNonSigTasks + Significant(next.plan) - |next.plan|
        == old(totalNonSigTasks) + Significant(reached.plan) - |reached.plan|
    {
      hide Mod, Select, Significant;
      ghost var bucket := Bucket(sig);
      var worker := Mod(|reached.plan|, workers);
      next := reached;
      assert above + bucket[..0] == above;
      var i := 0;
      while i < pendingNum[sig]
        invariant i <= pendingNum[sig] == |bucket|
        invariant Valid() && forall s :: 0 <= s < LEVELS && s != sig ==> Bucket(s) == old(Bucket(s))
        invariant forall k :: i <= k < |bucket| ==> Bucket(sig)[k] == bucket[k]
        invariant next == Select(above + bucket[..i], goal, workers) && worker == Mod(|next.plan|, workers)
        invariant next.final == reached.final + Bucket(sig)[..i]
        invariant executingNum - |next.plan| == old(executingNum) - |reached.plan|
        invariant totalSigTasks - Significant(next.plan) == old(totalSigTasks) - Significant(reached.plan)
        invariant totalNonSigTasks + Significant(next.plan) - |next.plan|
          == old(totalNonSigTasks) + Significant(reached.plan) - |reached.plan|
      {
        ghost var now := Bucket(sig);
        next, worker := Visit(sig, i, goal, workers, worker, next, above + bucket[..i]);
        SnocSlices(above, bucket, reached.final, now, Bucket(sig), i);
        i := i + 1;
      }
      assert bucket[..i] == bucket && Bucket(sig)[..i] == Bucket(sig);
    }

    // The selection and distribution loops of wait_group, from the most significant bucket
    // down; the jobs go to the workers' queues in the order of the plan.
    method Distribute(ratio: real, workers: nat, ghost pending: seq<seq<Task>>)
      returns (plan: seq<Job>, ghost final: seq<seq<Task>>)
      requires Valid() && Holds(pending) && ratio >= 0.0 && workers > 0
      modifies this`executingNum, this`totalSigTasks, this`totalNonSigTasks, pendingQ
      ensures Valid() && Holds(final)
      ensures var p := Select(From(pending, 0), Goal(old(total), ratio), workers);
              plan == p.plan && From(final, 0) == p.final
      ensures executingNum == |plan|
      ensures totalSigTasks == old(totalSigTasks) + Significant(plan)
      ensures totalNonSigTasks == old(totalNonSigTasks) + |plan| - Significant(plan)
    {
      hide Select, Mod, Significant;
      var goal := Goal(total, ratio);
      var reached := Progress(0, [], []);
      executingNum, final := 0, pending;
      SelectNothing(goal, workers);
      assert From(pending, LEVELS) == [] && From(final, LEVELS) == [];
      assert Significant([]) == 0 by { NothingSignificant(); }
      var sig: int := SIGNIFICANT;
      while sig >= NON_SIGNIFICANT
        invariant NON_SIGNIFICANT - 1 <= sig <= SIGNIFICANT
        invariant Valid() && Holds(final) && forall s :: 0 <= s <= sig ==> final[s] == pending[s]
        invariant reached == Select(From(pending, sig + 1), goal, workers)
        invariant From(final, sig + 1) == reached.final
        invariant executingNum == |reached.plan|
        invariant totalSigTasks == old(totalSigTasks) + Significant(reached.plan)
        invariant totalNonSigTasks == old(totalNonSigTasks) + |reached.plan| - Significant(reached.plan)
      {
        ghost var earlier := final;
        reached := DistributeBucket(sig, goal, workers, reached, From(pending, sig + 1));
        final := final[sig := Bucket(sig)];
        FromAgree(earlier, final, sig + 1);
        sig := sig - 1;
      }
      plan := reached.plan;
    }
  }
}