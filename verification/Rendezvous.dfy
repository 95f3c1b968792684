/**
 The rendezvous of wait_group (group.c) with the workers (accelerator.c, explicit_sync).

 wait_group holds the group's lock while it pushes the jobs and counts them, then waits on
 the condition variable.  Each worker polls its own queue, runs the task's body, and under
 the lock counts the task down; the one that reaches zero signals.  The queues are atomic
 FIFOs here; QueuedRendezvous puts the lock-free ones in their place.

 A schedule names the thread that runs at each instant: a function from the naturals, so
 that both safety (at every instant) and liveness (under every fair schedule) are stated.
 */
module Rendezvous {
  import opened Tasks

  // ---------------------------------------------------------------- the machine

  datatype Thread = Main | Worker(id: nat)

  // The next instruction of wait_group.
  datatype MainPc =
    | LockGroup
    | ResetCount
    | PushJob(i: nat)
    | CountJob(i: nat)
    | StartWait       // releases the lock and goes to sleep, in one step
    | Asleep
    | Relock          // woken, about to take the lock again
    | Returned

  // The next instruction of a worker; `job` is an index into the plan.
  datatype WorkerPc =
    | GetJob
    | RunBody(job: nat)
    | Acquire(job: nat)
    | CountDown(job: nat)
    | TestCount(job: nat)
    | Signal(job: nat)
    | Release(job: nat)

  datatype WorkerState = WorkerState(queue: seq<nat>, pc: WorkerPc)

  datatype Ran = Ran(job: nat, body: Body)

  datatype Lock = Free | Held(holder: Thread)

  // `ran` and `counted` only record what happened: no instruction reads them.
  datatype State = State(main: MainPc, lock: Lock, executingNum: nat, workers: seq<WorkerState>,
                         ran: seq<Ran>, counted: seq<nat>)

  const UINT: nat := 0x1_0000_0000   // executing_num is an unsigned int

  function Increment(n: nat): nat { (n + 1) % UINT }

  function Decrement(n: nat): nat { if n == 0 then UINT - 1 else n - 1 }

  // What wait_group finds: nobody works for this group yet.
  function Init(workers: nat): State {
    State(LockGroup, Free, 0, seq(workers, i => WorkerState([], GetJob)), [], [])
  }

  function PushOn(ws: seq<WorkerState>, w: nat, job: nat): seq<WorkerState> {
    if w < |ws| then ws[w := ws[w].(queue := ws[w].queue + [job])] else ws
  }

  function MainStep(plan: seq<Job>, s: State): State {
    match s.main
    case LockGroup => if s.lock == Free then s.(lock := Held(Main), main := ResetCount) else s
    case ResetCount => s.(executingNum := 0, main := if plan == [] then StartWait else PushJob(0))
    case PushJob(i) =>
      if i < |plan| then s.(workers := PushOn(s.workers, plan[i].worker, i), main := CountJob(i)) else s
    case CountJob(i) =>
      s.(executingNum := Increment(s.executingNum),
         main := if i + 1 < |plan| then PushJob(i + 1) else StartWait)
    case StartWait => s.(lock := Free, main := Asleep)
    case Asleep => s
    case Relock => if s.lock == Free then s.(lock := Held(Main), main := Returned) else s
    case Returned => s
  }

  function WorkerStep(plan: seq<Job>, s: State, w: nat): State {
    if w >= |s.workers| then s else
    var me := s.workers[w];
    match me.pc
    case GetJob =>
      if me.queue == [] then s
      else s.(workers := s.workers[w := WorkerState(me.queue[1..], RunBody(me.queue[0]))])
    case RunBody(j) =>
      var body := if j < |plan| then BodyOf(plan[j].task) else Nothing;
      s.(workers := s.workers[w := me.(pc := Acquire(j))], ran := s.ran + [Ran(j, body)])
    case Acquire(j) =>
      if s.lock != Free then s
      else s.(lock := Held(Worker(w)), workers := s.workers[w := me.(pc := CountDown(j))])
    case CountDown(j) =>
      s.(executingNum := Decrement(s.executingNum), counted := s.counted + [j],
         workers := s.workers[w := me.(pc := TestCount(j))])
    case TestCount(j) =>
      s.(workers := s.workers[w := me.(pc := if s.executingNum == 0 then Signal(j) else Release(j))])
    case Signal(j) =>
      s.(main := if s.main == Asleep then Relock else s.main,
         workers := s.workers[w := me.(pc := Release(j))])
    case Release(j) => s.(lock := Free, workers := s.workers[w := me.(pc := GetJob)])
  }

  function Next(plan: seq<Job>, s: State, t: Thread): State {
    match t
    case Main => MainStep(plan, s)
    case Worker(w) => WorkerStep(plan, s, w)
  }

  type Schedule = nat -> Thread

  function At(plan: seq<Job>, workers: nat, schedule: Schedule, n: nat): State {
    if n == 0 then Init(workers)
    else Next(plan, At(plan, workers, schedule, n - 1), schedule(n - 1))
  }

  // Every job goes to an existing worker, and the number of jobs fits the counter.
  predicate ValidPlan(plan: seq<Job>, workers: nat) {
    |plan| < UINT && forall i :: 0 <= i < |plan| ==> plan[i].worker < workers
  }

  // ---------------------------------------------------------------- bookkeeping

  // Two ledgers: the jobs a worker has been given and has not counted down, and those among
  // them whose body it has run.
  datatype Ledger = Owed | Finishing

  function InHand(l: Ledger, pc: WorkerPc): seq<nat> {
    match pc
    case RunBody(j) => if l == Owed then [j] else []
    case Acquire(j) => [j]
    case CountDown(j) => [j]
    case _ => []
  }

  // The entries of a worker in a ledger.
  function Entries(l: Ledger, w: WorkerState): seq<nat> {
    if l == Owed then w.queue + InHand(l, w.pc) else InHand(l, w.pc)
  }

  function Count(jobs: seq<nat>, j: nat): nat { multiset(jobs)[j] }

  // How often job j stands in a ledger, and how many entries a ledger has.
  function Owing(l: Ledger, ws: seq<WorkerState>, j: nat): nat {
    if ws == [] then 0 else Owing(l, ws[..|ws| - 1], j) + Count(Entries(l, ws[|ws| - 1]), j)
  }

  function Size(ws: seq<WorkerState>): nat {
    if ws == [] then 0 else Size(ws[..|ws| - 1]) + |Entries(Owed, ws[|ws| - 1])|
  }

  lemma {:induction false} OwingUpdate(l: Ledger, ws: seq<WorkerState>, w: nat, x: WorkerState, j: nat)
    requires w < |ws|
    ensures Owing(l, ws[w := x], j) + Count(Entries(l, ws[w]), j) == Owing(l, ws, j) + Count(Entries(l, x), j)
    ensures Count(Entries(l, ws[w]), j) <= Owing(l, ws, j)
  {
    hide Entries, Count;
    var n := |ws| - 1;
    if w == n {
      assert ws[w := x][..n] == ws[..n];
    } else {
      assert ws[w := x][..n] == ws[..n][w := x];
      OwingUpdate(l, ws[..n], w, x, j);
    }
  }

  lemma {:induction false} SizeUpdate(ws: seq<WorkerState>, w: nat, x: WorkerState)
    requires w < |ws|
    ensures Size(ws[w := x]) + |Entries(Owed, ws[w])| == Size(ws) + |Entries(Owed, x)|
    ensures |Entries(Owed, ws[w])| <= Size(ws)
  {
    hide Entries;
    var n := |ws| - 1;
    if w == n {
      assert ws[w := x][..n] == ws[..n];
    } else {
      assert ws[w := x][..n] == ws[..n][w := x];
      SizeUpdate(ws[..n], w, x);
    }
  }

  lemma {:induction false} NothingOwed(ws: seq<WorkerState>)
    requires forall w :: 0 <= w < |ws| ==> Entries(Owed, ws[w]) == []
    ensures Size(ws) == 0 && forall l, j: nat :: Owing(l, ws, j) == 0
  {
    if ws != [] {
      var n := |ws| - 1;
      NothingOwed(ws[..n]);
      assert Entries(Owed, ws[n]) == [] && Entries(Finishing, ws[n]) == [];
    }
  }

  // A positive size has an owner, and an empty ledger owes nothing.
  lemma {:induction false} SizeHasOwner(ws: seq<WorkerState>)
    ensures Size(ws) > 0 ==> exists w :: 0 <= w < |ws| && Entries(Owed, ws[w]) != []
    ensures Size(ws) == 0 ==> forall w :: 0 <= w < |ws| ==> Entries(Owed, ws[w]) == []
  {
    hide Entries;
    if ws != [] {
      var n := |ws| - 1;
      SizeHasOwner(ws[..n]);
      assert forall w :: 0 <= w < n ==> ws[..n][w] == ws[w];
      assert Size(ws) == Size(ws[..n]) + |Entries(Owed, ws[n])|;
    }
  }

  function JobsOf(ran: seq<Ran>): (jobs: seq<nat>)
    ensures |jobs| == |ran|
  {
    seq(|ran|, i requires 0 <= i < |ran| => ran[i].job)
  }

  // How many jobs have been pushed, and how many of them wait_group has counted.
  function PushedBy(plan: seq<Job>, pc: MainPc): nat {
    match pc
    case LockGroup => 0
    case ResetCount => 0
    case PushJob(i) => i
    case CountJob(i) => i + 1
    case _ => |plan|
  }

  function CountedBy(plan: seq<Job>, pc: MainPc): nat {
    if pc.CountJob? then pc.i else PushedBy(plan, pc)
  }

  // ---------------------------------------------------------------- the invariant

  predicate MainHolds(pc: MainPc) {
    pc.ResetCount? || pc.PushJob? || pc.CountJob? || pc.StartWait? || pc.Returned?
  }

  predicate WorkerHolds(pc: WorkerPc) {
    pc.CountDown? || pc.TestCount? || pc.Signal? || pc.Release?
  }

  // Who is inside the critical section.
  ghost predicate Locking(s: State) {
    && (MainHolds(s.main) <==> s.lock == Held(Main))
    && (forall w :: 0 <= w < |s.workers| ==> (WorkerHolds(s.workers[w].pc) <==> s.lock == Held(Worker(w))))
    && (s.lock.Held? && s.lock.holder.Worker? ==> s.lock.holder.id < |s.workers|)
  }

  // Each job pushed so far is owed by exactly one worker or has been counted down, once.
  ghost predicate Accounting(plan: seq<Job>, s: State) {
    && (s.main.PushJob? || s.main.CountJob? ==> s.main.i < |plan|)
    && (forall j: nat :: Owing(Owed, s.workers, j) + Count(s.counted, j) == if j < PushedBy(plan, s.main) then 1 else 0)
    && Size(s.workers) + |s.counted| == PushedBy(plan, s.main)
    && s.executingNum + |s.counted| == CountedBy(plan, s.main)
    && (s.main.LockGroup? || (MainHolds(s.main) && !s.main.Returned?) ==> s.counted == [])
  }

  // Each job owed past its body, or counted down, has run once, with the body it should.
  ghost predicate Running(plan: seq<Job>, s: State) {
    && (forall j: nat :: Count(JobsOf(s.ran), j) == Owing(Finishing, s.workers, j) + Count(s.counted, j))
    && (forall k :: 0 <= k < |s.ran| ==>
          s.ran[k].job < |plan| && s.ran[k].body == BodyOf(plan[s.ran[k].job].task))
  }

  predicate AboutToWake(pc: WorkerPc) { pc.TestCount? || pc.Signal? }

  // No wake-up is lost.
  ghost predicate Waking(plan: seq<Job>, s: State) {
    && (s.main.Asleep? && s.executingNum == 0 && plan != [] ==>
          && s.lock.Held? && s.lock.holder.Worker? && s.lock.holder.id < |s.workers|
          && AboutToWake(s.workers[s.lock.holder.id].pc))
    && (s.main.Relock? || s.main.Returned? ==> s.executingNum == 0 && plan != [])
    && (forall w :: 0 <= w < |s.workers| && s.workers[w].pc.Signal? ==> s.executingNum == 0)
    && (plan == [] ==> forall w :: 0 <= w < |s.workers| ==> s.workers[w] == WorkerState([], GetJob))
  }

  ghost predicate Inv(plan: seq<Job>, workers: nat, s: State) {
    && |s.workers| == workers
    && Locking(s)
    && Accounting(plan, s)
    && Running(plan, s)
    && Waking(plan, s)
  }

  // ---------------------------------------------------------------- every step keeps it

  lemma MainKeepsLocking(plan: seq<Job>, s: State)
    requires Locking(s)
    ensures Locking(MainStep(plan, s)) && |MainStep(plan, s).workers| == |s.workers|
  {
  }

  // Replacing one worker changes a ledger as it changes the entries of that worker.
  lemma LedgerChange(l: Ledger, ws: seq<WorkerState>, w: nat, x: WorkerState, job: nat, delta: int)
    requires w < |ws|
    requires forall j: nat :: Count(Entries(l, x), j) == Count(Entries(l, ws[w]), j) + if j == job then delta else 0
    ensures forall j: nat :: Owing(l, ws[w := x], j) == Owing(l, ws, j) + if j == job then delta else 0
  {
    hide Entries, Count, Owing;
    forall j: nat ensures Owing(l, ws[w := x], j) == Owing(l, ws, j) + if j == job then delta else 0 {
      OwingUpdate(l, ws, w, x, j);
    }
  }

  lemma PushAccounts(ws: seq<WorkerState>, w: nat, job: nat)
    requires w < |ws|
    ensures Size(PushOn(ws, w, job)) == Size(ws) + 1
    ensures forall j: nat :: Owing(Owed, PushOn(ws, w, job), j) == Owing(Owed, ws, j) + if j == job then 1 else 0
    ensures forall j: nat :: Owing(Finishing, PushOn(ws, w, job), j) == Owing(Finishing, ws, j)
  {
    var x := ws[w].(queue := ws[w].queue + [job]);
    SizeUpdate(ws, w, x);
    LedgerChange(Owed, ws, w, x, job, 1);
    LedgerChange(Finishing, ws, w, x, job, 0);
  }

  lemma MainKeepsAccounting(plan: seq<Job>, s: State)
    requires ValidPlan(plan, |s.workers|) && Locking(s) && Accounting(plan, s) && Running(plan, s)
    ensures Accounting(plan, MainStep(plan, s)) && Running(plan, MainStep(plan, s))
  {
    hide Owing, Size, Count, JobsOf;
    if s.main.PushJob? {
      PushAccounts(s.workers, plan[s.main.i].worker, s.main.i);
    }
  }

  lemma MainKeepsWaking(plan: seq<Job>, s: State)
    requires Locking(s) && Accounting(plan, s) && Waking(plan, s)
    ensures Waking(plan, MainStep(plan, s))
  {
    if s.main.StartWait? && plan != [] {
      assert s.executingNum == |plan|;
    }
  }

  lemma WorkerKeepsLocking(plan: seq<Job>, s: State, w: nat)
    requires w < |s.workers| && Locking(s)
    ensures Locking(WorkerStep(plan, s, w)) && |WorkerStep(plan, s, w).workers| == |s.workers|
  {
  }

  // Taking a job, locking, testing, signalling and unlocking leave both ledgers as they are.
  lemma SilentEntries(ws: seq<WorkerState>, w: nat, x: WorkerState)
    requires w < |ws|
    requires (x.queue == ws[w].queue && forall l :: InHand(l, x.pc) == InHand(l, ws[w].pc))
      || (ws[w].pc == GetJob && ws[w].queue != [] && x == WorkerState(ws[w].queue[1..], RunBody(ws[w].queue[0])))
    ensures Size(ws[w := x]) == Size(ws)
    ensures forall l, j: nat :: Owing(l, ws[w := x], j) == Owing(l, ws, j)
  {
    SameCounts(ws[w], x);
    hide InHand, Entries, Count;
    SizeUpdate(ws, w, x);
    forall l, j: nat ensures Owing(l, ws[w := x], j) == Owing(l, ws, j) { OwingUpdate(l, ws, w, x, j); }
  }

  lemma SameCounts(me: WorkerState, x: WorkerState)
    requires (x.queue == me.queue && forall l :: InHand(l, x.pc) == InHand(l, me.pc))
      || (me.pc == GetJob && me.queue != [] && x == WorkerState(me.queue[1..], RunBody(me.queue[0])))
    ensures |Entries(Owed, x)| == |Entries(Owed, me)|
    ensures forall l, j: nat :: Count(Entries(l, x), j) == Count(Entries(l, me), j)
  {
    if x.queue != me.queue {
      assert me.queue == [me.queue[0]] + me.queue[1..];
    }
  }

  lemma SilentStep(plan: seq<Job>, s: State, w: nat)
    requires w < |s.workers| && !s.workers[w].pc.RunBody? && !s.workers[w].pc.CountDown?
    ensures var s', x := WorkerStep(plan, s, w), WorkerStep(plan, s, w).workers[w];
            && s'.workers == s.workers[w := x] && s'.ran == s.ran && s'.counted == s.counted
            && s'.executingNum == s.executingNum && (s'.main == s.main || (s.main == Asleep && s'.main == Relock))
    ensures var x, me := WorkerStep(plan, s, w).workers[w], s.workers[w];
            (x.queue == me.queue && forall l :: InHand(l, x.pc) == InHand(l, me.pc))
            || (me.pc == GetJob && me.queue != [] && x == WorkerState(me.queue[1..], RunBody(me.queue[0])))
  {
  }

  lemma SilentAccounts(plan: seq<Job>, s: State, w: nat)
    requires w < |s.workers| && Accounting(plan, s) && Running(plan, s)
    requires !s.workers[w].pc.RunBody? && !s.workers[w].pc.CountDown?
    ensures Accounting(plan, WorkerStep(plan, s, w)) && Running(plan, WorkerStep(plan, s, w))
  {
    SilentStep(plan, s, w);
    var s' := WorkerStep(plan, s, w);
    hide Owing, Size, Count, JobsOf, InHand, WorkerStep;
    SilentEntries(s.workers, w, s'.workers[w]);
    SameAccounting(plan, s, s');
  }

  lemma SameAccounting(plan: seq<Job>, s: State, s': State)
    requires Accounting(plan, s) && Running(plan, s)
    requires s'.ran == s.ran && s'.counted == s.counted && s'.executingNum == s.executingNum
    requires s'.main == s.main || (s.main == Asleep && s'.main == Relock)
    requires Size(s'.workers) == Size(s.workers)
    requires forall l, j: nat :: Owing(l, s'.workers, j) == Owing(l, s.workers, j)
    ensures Accounting(plan, s') && Running(plan, s')
  {
    hide Owing, Size, Count, JobsOf;
  }

  lemma RunEntries(ws: seq<WorkerState>, w: nat, x: WorkerState, job: nat)
    requires w < |ws| && ws[w].pc == RunBody(job) && x == ws[w].(pc := Acquire(job))
    ensures Size(ws[w := x]) == Size(ws) && Owing(Owed, ws, job) >= 1
    ensures forall j: nat :: Owing(Owed, ws[w := x], j) == Owing(Owed, ws, j)
    ensures forall j: nat :: Owing(Finishing, ws[w := x], j) == Owing(Finishing, ws, j) + if j == job then 1 else 0
  {
    hide *;
    RunCounts(ws[w], x, job);
    SizeUpdate(ws, w, x);
    OwingUpdate(Owed, ws, w, x, job);
    LedgerChange(Owed, ws, w, x, job, 0);
    LedgerChange(Finishing, ws, w, x, job, 1);
  }

  lemma RunCounts(me: WorkerState, x: WorkerState, job: nat)
    requires me.pc == RunBody(job) && x == me.(pc := Acquire(job))
    ensures Entries(Owed, x) == Entries(Owed, me) && Count(Entries(Owed, me), job) >= 1
    ensures forall j: nat ::
      Count(Entries(Finishing, x), j) == Count(Entries(Finishing, me), j) + if j == job then 1 else 0
  {
  }

  // The body that runs belongs to a job that is owed, hence to the plan.
  lemma RunAccounts(plan: seq<Job>, s: State, w: nat)
    requires w < |s.workers| && Accounting(plan, s) && Running(plan, s) && s.workers[w].pc.RunBody?
    ensures Accounting(plan, WorkerStep(plan, s, w)) && Running(plan, WorkerStep(plan, s, w))
  {
    hide Owing, Size, Count, JobsOf, BodyOf;
    var me, job, s' := s.workers[w], s.workers[w].pc.job, WorkerStep(plan, s, w);
    RunEntries(s.workers, w, me.(pc := Acquire(job)), job);
    assert s'.workers == s.workers[w := me.(pc := Acquire(job))];
    assert job < |plan|;
    RunRuns(plan, s, s', job);
  }

  lemma RunRuns(plan: seq<Job>, s: State, s': State, job: nat)
    requires Running(plan, s) && job < |plan|
    requires s'.ran == s.ran + [Ran(job, BodyOf(plan[job].task))] && s'.counted == s.counted
    requires forall j: nat ::
      Owing(Finishing, s'.workers, j) == Owing(Finishing, s.workers, j) + if j == job then 1 else 0
    ensures Running(plan, s')
  {
    RunLogs(s.ran, Ran(job, BodyOf(plan[job].task)));
    hide Owing, Count, JobsOf;
  }

  lemma RunLogs(ran: seq<Ran>, r: Ran)
    ensures forall j: nat :: Count(JobsOf(ran + [r]), j) == Count(JobsOf(ran), j) + if j == r.job then 1 else 0
  {
    assert JobsOf(ran + [r]) == JobsOf(ran) + [r.job];
    CountSnoc(JobsOf(ran), r.job);
  }

  lemma CountDownEntries(ws: seq<WorkerState>, w: nat, x: WorkerState)
    requires w < |ws| && ws[w].pc.CountDown? && x.queue == ws[w].queue
    requires InHand(Owed, x.pc) == InHand(Finishing, x.pc) == []
    ensures Size(ws) == Size(ws[w := x]) + 1
    ensures forall l, j: nat :: Owing(l, ws, j) == Owing(l, ws[w := x], j) + if j == ws[w].pc.job then 1 else 0
  {
    SizeUpdate(ws, w, x);
    LedgerChange(Owed, ws, w, x, ws[w].pc.job, -1);
    LedgerChange(Finishing, ws, w, x, ws[w].pc.job, -1);
    forall l, j: nat ensures Owing(l, ws, j) == Owing(l, ws[w := x], j) + if j == ws[w].pc.job then 1 else 0 {
      match l case Owed => case Finishing =>
    }
  }

  // A worker can only count down a job that is owed: the counter cannot wrap.
  lemma CountDownIsSafe(plan: seq<Job>, s: State, w: nat)
    requires w < |s.workers| && Locking(s) && Accounting(plan, s) && s.workers[w].pc.CountDown?
    ensures s.executingNum == Size(s.workers) > 0 && !MainHolds(s.main) && s.main != LockGroup
  {
    SizeUpdate(s.workers, w, s.workers[w]);
    hide Owing, Size, Count;
    assert |Entries(Owed, s.workers[w])| > 0;
  }

  lemma CountDownAccounts(plan: seq<Job>, s: State, w: nat)
    requires w < |s.workers| && Locking(s) && Accounting(plan, s) && Running(plan, s) && s.workers[w].pc.CountDown?
    ensures Accounting(plan, WorkerStep(plan, s, w)) && Running(plan, WorkerStep(plan, s, w))
  {
    var s', job := WorkerStep(plan, s, w), s.workers[w].pc.job;
    CountDownIsSafe(plan, s, w);
    CountDownEntries(s.workers, w, s'.workers[w]);
    hide Accounting, Running, Owing, Size, Entries, InHand, Locking;
    OneLess(plan, s, s', job);
  }

  lemma OneLess(plan: seq<Job>, s: State, s': State, job: nat)
    requires Accounting(plan, s) && Running(plan, s) && s.executingNum > 0 && !MainHolds(s.main) && s.main != LockGroup
    requires s'.main == s.main && s'.ran == s.ran
    requires s'.counted == s.counted + [job] && s'.executingNum == s.executingNum - 1
    requires Size(s.workers) == Size(s'.workers) + 1
    requires forall l, j: nat :: Owing(l, s.workers, j) == Owing(l, s'.workers, j) + if j == job then 1 else 0
    ensures Accounting(plan, s') && Running(plan, s')
  {
    CountSnoc(s.counted, job);
    hide Owing, Size, Count, JobsOf;
  }

  lemma CountSnoc(jobs: seq<nat>, job: nat)
    ensures forall j: nat :: Count(jobs + [job], j) == Count(jobs, j) + if j == job then 1 else 0
  {
  }

  lemma WorkerKeepsAccounting(plan: seq<Job>, s: State, w: nat)
    requires w < |s.workers| && Locking(s) && Accounting(plan, s) && Running(plan, s)
    ensures Accounting(plan, WorkerStep(plan, s, w)) && Running(plan, WorkerStep(plan, s, w))
  {
    hide Locking, Accounting, Running, WorkerStep;
    if s.workers[w].pc.RunBody? { RunAccounts(plan, s, w); }
    else if s.workers[w].pc.CountDown? { CountDownAccounts(plan, s, w); }
    else { SilentAccounts(plan, s, w); }
  }

  lemma WorkerKeepsWaking(plan: seq<Job>, s: State, w: nat)
    requires w < |s.workers| && Locking(s) && Waking(plan, s)
    requires s.workers[w].pc.CountDown? ==> s.executingNum > 0
    ensures Waking(plan, WorkerStep(plan, s, w))
  {
    if plan != [] {
      WakersHold(plan, s, w);
    }
  }

  // Only the worker inside the critical section can be about to wake wait_group.
  lemma WakersHold(plan: seq<Job>, s: State, w: nat)
    requires w < |s.workers| && Locking(s) && Waking(plan, s) && plan != []
    requires s.workers[w].pc.CountDown? ==> s.executingNum > 0
    ensures Waking(plan, WorkerStep(plan, s, w))
  {
    var s' := WorkerStep(plan, s, w);
    assert WorkerHolds(s.workers[w].pc) ==> forall u :: 0 <= u < |s.workers| && u != w ==>
      !WorkerHolds(s.workers[u].pc);
    assert |s'.workers| == |s.workers| && forall u :: 0 <= u < |s.workers| && u != w ==> s'.workers[u] == s.workers[u];
    match s.workers[w].pc
    case GetJob =>
    case RunBody(_) =>
    case Acquire(_) =>
    case CountDown(_) =>
    case TestCount(_) =>
    case Signal(_) =>
    case Release(_) =>
  }

  lemma NextKeepsInv(plan: seq<Job>, workers: nat, s: State, t: Thread)
    requires ValidPlan(plan, workers) && Inv(plan, workers, s)
    ensures Inv(plan, workers, Next(plan, s, t))
  {
    hide Locking, Accounting, Running, Waking;
    match t
    case Main =>
      MainKeepsLocking(plan, s);
      MainKeepsAccounting(plan, s);
      MainKeepsWaking(plan, s);
    case Worker(w) =>
      if w < |s.workers| {
        WorkerKeepsLocking(plan, s, w);
        WorkerKeepsAccounting(plan, s, w);
        if s.workers[w].pc.CountDown? { CountDownIsSafe(plan, s, w); }
        WorkerKeepsWaking(plan, s, w);
      }
  }

  lemma InitInv(plan: seq<Job>, workers: nat)
    ensures Inv(plan, workers, Init(workers))
  {
    NothingOwed(Init(workers).workers);
  }

  lemma {:induction false} AlwaysInv(plan: seq<Job>, workers: nat, schedule: Schedule, n: nat)
    requires ValidPlan(plan, workers)
    ensures Inv(plan, workers, At(plan, workers, schedule, n))
  {
    if n == 0 {
      InitInv(plan, workers);
    } else {
      AlwaysInv(plan, workers, schedule, n - 1);
      NextKeepsInv(plan, workers, At(plan, workers, schedule, n - 1), schedule(n - 1));
    }
  }

  // ---------------------------------------------------------------- safety, at every instant

  // The counter is exact at every instant, up to the job pushed but not counted yet, and no
  // countdown can take it below zero.
  lemma {:induction false} CounterIsExact(plan: seq<Job>, workers: nat, schedule: Schedule, n: nat)
    requires ValidPlan(plan, workers)
    ensures var s := At(plan, workers, schedule, n);
            && |s.workers| == workers
            && s.executingNum + (if s.main.CountJob? then 1 else 0) == Size(s.workers)
            && (forall w :: 0 <= w < workers && s.workers[w].pc.CountDown? ==> s.executingNum > 0)
  {
    hide *;
    AlwaysInv(plan, workers, schedule, n);
    CounterInState(plan, workers, At(plan, workers, schedule, n));
  }

  lemma CounterInState(plan: seq<Job>, workers: nat, s: State)
    requires Inv(plan, workers, s)
    ensures |s.workers| == workers
    ensures s.executingNum + (if s.main.CountJob? then 1 else 0) == Size(s.workers)
    ensures forall w :: 0 <= w < workers && s.workers[w].pc.CountDown? ==> s.executingNum > 0
  {
    hide Running, Waking, Owing, Count;
    forall w | 0 <= w < workers && s.workers[w].pc.CountDown?
      ensures s.executingNum > 0
    {
      CountDownIsSafe(plan, s, w);
    }
    hide Size, Locking;
  }

  /** wait_group returns only after every job it enqueued has run exactly once, with the body
      its significance selects, and has been counted down exactly once. */
  lemma {:induction false} ReturnsOnlyWhenDone(plan: seq<Job>, workers: nat, schedule: Schedule, n: nat)
    requires ValidPlan(plan, workers)
    requires At(plan, workers, schedule, n).main.Returned?
    ensures var s := At(plan, workers, schedule, n);
            && (forall j: nat :: Count(JobsOf(s.ran), j) == if j < |plan| then 1 else 0)
            && (forall j: nat :: Count(s.counted, j) == if j < |plan| then 1 else 0)
            && (forall k :: 0 <= k < |s.ran| ==>
                  s.ran[k].job < |plan| && s.ran[k].body == BodyOf(plan[s.ran[k].job].task))
            && (forall w :: 0 <= w < |s.workers| ==> s.workers[w].queue == [])
  {
    AlwaysInv(plan, workers, schedule, n);
    var s := At(plan, workers, schedule, n);
    hide At, Locking;
    assert Size(s.workers) == 0;
    SizeHasOwner(s.workers);
    NothingOwed(s.workers);
    hide Count, Owing, Size;
    forall w | 0 <= w < |s.workers| ensures s.workers[w].queue == [] {
      assert Entries(Owed, s.workers[w]) == [];
    }
  }

  /** No wake-up is lost: whenever wait_group sleeps with nothing left to count, the worker
      inside the critical section is about to signal it. */
  lemma {:induction false} NoLostWakeUp(plan: seq<Job>, workers: nat, schedule: Schedule, n: nat)
    requires ValidPlan(plan, workers) && plan != []
    requires At(plan, workers, schedule, n).main.Asleep? && At(plan, workers, schedule, n).executingNum == 0
    ensures var s := At(plan, workers, schedule, n);
            exists w :: 0 <= w < |s.workers| && s.lock == Held(Worker(w)) && AboutToWake(s.workers[w].pc)
  {
    AlwaysInv(plan, workers, schedule, n);
    hide At;
  }

  // ---------------------------------------------------------------- liveness, under fairness

  function PcWeight(pc: WorkerPc): nat {
    match pc
    case GetJob => 0
    case RunBody(_) => 6
    case Acquire(_) => 5
    case CountDown(_) => 4
    case TestCount(_) => 3
    case Signal(_) => 2
    case Release(_) => 1
  }

  function WorkerWeight(w: WorkerState): nat { 7 * |w.queue| + PcWeight(w.pc) }

  function WorkersWeight(ws: seq<WorkerState>): nat {
    if ws == [] then 0 else WorkersWeight(ws[..|ws| - 1]) + WorkerWeight(ws[|ws| - 1])
  }

  function MainWeight(jobs: nat, pc: MainPc): int {
    match pc
    case LockGroup => 9 * jobs + 5
    case ResetCount => 9 * jobs + 4
    case PushJob(i) => 9 * (jobs - i) + 3
    case CountJob(i) => 9 * (jobs - i) - 5
    case StartWait => 3
    case Asleep => 2
    case Relock => 1
    case Returned => 0
  }

  function Weight(plan: seq<Job>, s: State): int { MainWeight(|plan|, s.main) + WorkersWeight(s.workers) }

  lemma {:induction false} WeightUpdate(ws: seq<WorkerState>, w: nat, x: WorkerState)
    requires w < |ws|
    ensures WorkersWeight(ws[w := x]) + WorkerWeight(ws[w]) == WorkersWeight(ws) + WorkerWeight(x)
  {
    var n := |ws| - 1;
    if w == n {
      assert ws[w := x][..n] == ws[..n];
    } else {
      assert ws[w := x][..n] == ws[..n][w := x];
      WeightUpdate(ws[..n], w, x);
    }
  }

  // A step of any thread either changes nothing or brings the end nearer.
  lemma StepsDescend(plan: seq<Job>, workers: nat, s: State, t: Thread)
    requires ValidPlan(plan, workers) && Inv(plan, workers, s)
    ensures Next(plan, s, t) == s || 0 <= Weight(plan, Next(plan, s, t)) < Weight(plan, s)
  {
    hide Running, Waking;
    match t
    case Main => MainDescends(plan, s);
    case Worker(w) => if w < |s.workers| { WorkerDescends(plan, s, w); }
  }

  lemma MainDescends(plan: seq<Job>, s: State)
    requires ValidPlan(plan, |s.workers|) && (s.main.PushJob? || s.main.CountJob? ==> s.main.i < |plan|)
    ensures MainStep(plan, s) == s || 0 <= Weight(plan, MainStep(plan, s)) < Weight(plan, s)
  {
    if s.main.PushJob? {
      var i, w := s.main.i, plan[s.main.i].worker;
      WeightUpdate(s.workers, w, s.workers[w].(queue := s.workers[w].queue + [i]));
    }
  }

  // A step of a worker that changes the state lowers the worker's own weight.
  lemma OwnWeightFalls(plan: seq<Job>, s: State, w: nat)
    requires w < |s.workers|
    ensures WorkerStep(plan, s, w) == s || WorkerWeight(WorkerStep(plan, s, w).workers[w]) < WorkerWeight(s.workers[w])
  {
    hide BodyOf;
  }

  lemma OneWorkerChanges(plan: seq<Job>, s: State, w: nat)
    requires w < |s.workers|
    ensures |WorkerStep(plan, s, w).workers| == |s.workers|
    ensures WorkerStep(plan, s, w).workers == s.workers[w := WorkerStep(plan, s, w).workers[w]]
    ensures WorkerStep(plan, s, w).main == s.main || (s.main == Asleep && WorkerStep(plan, s, w).main == Relock)
  {
    hide BodyOf;
    assert s.workers[w := s.workers[w]] == s.workers;
  }

  lemma MainWeightFalls(jobs: nat, pc: MainPc)
    requires pc.PushJob? || pc.CountJob? ==> pc.i < jobs
    ensures MainWeight(jobs, pc) >= 0 && 0 <= MainWeight(jobs, Relock) < MainWeight(jobs, Asleep)
  {
  }

  lemma WorkerDescends(plan: seq<Job>, s: State, w: nat)
    requires w < |s.workers| && (s.main.PushJob? || s.main.CountJob? ==> s.main.i < |plan|)
    ensures WorkerStep(plan, s, w) == s || 0 <= Weight(plan, WorkerStep(plan, s, w)) < Weight(plan, s)
  {
    hide WorkerStep, WorkersWeight, WorkerWeight, MainWeight;
    OwnWeightFalls(plan, s, w);
    OneWorkerChanges(plan, s, w);
    WeightUpdate(s.workers, w, WorkerStep(plan, s, w).workers[w]);
    MainWeightFalls(|plan|, s.main);
  }

  predicate Exists(t: Thread, workers: nat) { t.Main? || t.id < workers }

  // A worker inside the critical section, or with a job to take, run or count, can move.
  lemma HolderMoves(plan: seq<Job>, s: State, w: nat)
    requires w < |s.workers|
    requires WorkerHolds(s.workers[w].pc) || (s.lock == Free && Entries(Owed, s.workers[w]) != [])
    ensures WorkerStep(plan, s, w) != s
  {
    var s' := WorkerStep(plan, s, w);
    assert s'.workers[w] != s.workers[w];
  }

  // Until wait_group returns, some thread is able to move.
  lemma SomeoneMoves(plan: seq<Job>, workers: nat, s: State) returns (t: Thread)
    requires ValidPlan(plan, workers) && Inv(plan, workers, s) && plan != [] && !s.main.Returned?
    ensures Exists(t, workers) && Next(plan, s, t) != s
  {
    hide Running, WorkerStep, Entries;
    if s.lock.Held? && s.lock.holder.Worker? {
      t := s.lock.holder;
      HolderMoves(plan, s, t.id);
    } else if !s.main.Asleep? {
      t := Main;
    } else {
      SizeHasOwner(s.workers);
      hide Size, Owing, Count;
      assert s.lock == Free && s.executingNum > 0;
      var w :| 0 <= w < |s.workers| && Entries(Owed, s.workers[w]) != [];
      HolderMoves(plan, s, w);
      t := Worker(w);
    }
  }

  ghost predicate ScheduledFrom(schedule: Schedule, t: Thread, n: nat) {
    exists m :: m >= n && schedule(m) == t
  }

  // Every thread runs again and again.
  ghost predicate Fair(schedule: Schedule, workers: nat) {
    forall t, n: nat :: Exists(t, workers) ==> ScheduledFrom(schedule, t, n)
  }

  lemma NextTurn(schedule: Schedule, workers: nat, t: Thread, n: nat) returns (m: nat)
    requires Fair(schedule, workers) && Exists(t, workers)
    ensures m >= n && schedule(m) == t
  {
    assert ScheduledFrom(schedule, t, n);
    m :| m >= n && schedule(m) == t;
  }

  lemma AtNext(plan: seq<Job>, workers: nat, schedule: Schedule, k: nat)
    ensures At(plan, workers, schedule, k + 1) == Next(plan, At(plan, workers, schedule, k), schedule(k))
  {
  }

  // The first instant from n on whose step changes the state.
  lemma FirstChange(plan: seq<Job>, workers: nat, schedule: Schedule, n: nat, m: nat) returns (k: nat)
    requires n <= m
    requires Next(plan, At(plan, workers, schedule, n), schedule(m)) != At(plan, workers, schedule, n)
    ensures n <= k && At(plan, workers, schedule, k) == At(plan, workers, schedule, n)
    ensures At(plan, workers, schedule, k + 1) != At(plan, workers, schedule, n)
  {
    hide *;
    k := n;
    while At(plan, workers, schedule, k + 1) == At(plan, workers, schedule, n)
      invariant n <= k <= m
      invariant At(plan, workers, schedule, k) == At(plan, workers, schedule, n)
      decreases m - k
    {
      AtNext(plan, workers, schedule, k);
      k := k + 1;
    }
  }

  lemma {:induction false} Eventually(plan: seq<Job>, workers: nat, schedule: Schedule, n: nat) returns (end: nat)
    requires ValidPlan(plan, workers) && plan != [] && Fair(schedule, workers)
    ensures At(plan, workers, schedule, end).main.Returned?
    decreases Weight(plan, At(plan, workers, schedule, n))
  {
    hide *;
    var s := At(plan, workers, schedule, n);
    AlwaysInv(plan, workers, schedule, n);
    if s.main.Returned? {
      end := n;
    } else {
      var t := SomeoneMoves(plan, workers, s);
      var m := NextTurn(schedule, workers, t, n);
      var k := FirstChange(plan, workers, schedule, n, m);
      AtNext(plan, workers, schedule, k);
      StepsDescend(plan, workers, s, schedule(k));
      end := Eventually(plan, workers, schedule, k + 1);
    }
  }

  // Without a job nobody signals, under any schedule.
  lemma NeverWithoutJobs(workers: nat, schedule: Schedule, n: nat)
    ensures !At([], workers, schedule, n).main.Returned?
  {
    AlwaysInv([], workers, schedule, n);
  }

  /** Under every fair schedule wait_group returns if and only if it enqueued a job. */
  lemma {:induction false} ReturnsIffJobs(plan: seq<Job>, workers: nat, schedule: Schedule)
    requires ValidPlan(plan, workers) && Fair(schedule, workers)
    ensures plan != [] <==> exists n :: At(plan, workers, schedule, n).main.Returned?
  {
    if plan != [] {
      var end := Eventually(plan, workers, schedule, 0);
    } else {
      forall n: nat ensures !At(plan, workers, schedule, n).main.Returned? {
        NeverWithoutJobs(workers, schedule, n);
      }
    }
  }

  // ---------------------------------------------------------------- the shared state in place

  /** The group's lock and counter and the workers' descriptors, updated in place: one call
      executes one instruction of wait_group or of a worker. */
  class Runtime {
    var main: MainPc
    var lock: Lock
    var executingNum: nat
    var workers: array<WorkerState>
    var ran: seq<Ran>
    var counted: seq<nat>

    function Snapshot(): State
      reads this, workers
    {
      State(main, lock, executingNum, workers[..], ran, counted)
    }

    constructor (total: nat)
      ensures Snapshot() == Init(total) && fresh(workers) && forall plan :: Inv(plan, total, Snapshot())
    {
      main, lock, executingNum, ran, counted := LockGroup, Free, 0, [], [];
      workers := new WorkerState[total](_ => WorkerState([], GetJob));
      new;
      hide Inv;
      assert Snapshot() == Init(total);
      forall plan: seq<Job>
        ensures Inv(plan, total, Snapshot())
      {
        InitInv(plan, total);
      }
    }

    method AdvanceMain(plan: seq<Job>)
      requires ValidPlan(plan, workers.Length) && Inv(plan, workers.Length, Snapshot())
      modifies this, workers
      ensures workers == old(workers) && Snapshot() == MainStep(plan, old(Snapshot()))
      ensures Inv(plan, workers.Length, Snapshot())
    {
      hide Inv;
      NextKeepsInv(plan, workers.Length, Snapshot(), Main);
      match main
      case LockGroup => if lock == Free { lock, main := Held(Main), ResetCount; }
      case ResetCount =>
        executingNum := 0;
        main := if plan == [] then StartWait else PushJob(0);
      case PushJob(i) =>
        if i < |plan| {
          var w := plan[i].worker;
          workers[w] := workers[w].(queue := workers[w].queue + [i]);
          main := CountJob(i);
        }
      case CountJob(i) =>
        executingNum := Increment(executingNum);
        main := if i + 1 < |plan| then PushJob(i + 1) else StartWait;
      case StartWait => lock, main := Free, Asleep;
      case Asleep =>
      case Relock => if lock == Free { lock, main := Held(Main), Returned; }
      case Returned =>
    }

    method AdvanceWorker(plan: seq<Job>, w: nat)
      requires w < workers.Length && ValidPlan(plan, workers.Length) && Inv(plan, workers.Length, Snapshot())
      modifies this, workers
      ensures workers == old(workers) && Snapshot() == WorkerStep(plan, old(Snapshot()), w)
      ensures Inv(plan, workers.Length, Snapshot())
    {
      hide Inv;
      NextKeepsInv(plan, workers.Length, Snapshot(), Worker(w));
      var me := workers[w];
      match me.pc
      case GetJob =>
        if me.queue != [] { workers[w] := WorkerState(me.queue[1..], RunBody(me.queue[0])); }
      case RunBody(j) =>
        ran := ran + [Ran(j, if j < |plan| then BodyOf(plan[j].task) else Nothing)];
        workers[w] := me.(pc := Acquire(j));
      case Acquire(j) =>
        if lock == Free {
          lock := Held(Worker(w));
          workers[w] := me.(pc := CountDown(j));
        }
      case CountDown(j) =>
        executingNum, counted := Decrement(executingNum), counted + [j];
        workers[w] := me.(pc := TestCount(j));
      case TestCount(j) =>
        workers[w] := me.(pc := if executingNum == 0 then Signal(j) else Release(j));
      case Signal(j) =>
        if main == Asleep { main := Relock; }
        workers[w] := me.(pc := Release(j));
      case Release(_) =>
        lock := Free;
        workers[w] := me.(pc := GetJob);
    }
  }
}
