/**
 The rendezvous over the real queues: wait_group pushes each job and every worker polls by the
 single loads and compare-and-swaps of queue.c, interleaved with everything else.

 `View` forgets the instructions inside the queues. Every run is then a run of Rendezvous, in
 which the steps inside a queue that have no effect are idle turns, and a fair run is a fair
 one: a thread that pushes or pops alone never retries.
 */
module QueuedRendezvous {
  import opened Tasks
  import R = Rendezvous
  import Q = WorkQueue
  import Scheduler

  // wait_group is the only pusher of a queue and its worker the only popper.
  const PUSHER: Q.Thread := 0
  const POPPER: Q.Thread := 1

  // `group` is the state of Rendezvous with its own queues unused; the memory of the queue of
  // worker w is what the events of traces[w] have made of it.
  datatype State = State(group: R.State, traces: seq<seq<Q.Event>>)

  function Content(trace: seq<Q.Event>): Q.Fifo {
    Q.FifoRun(Q.Actions(trace))
  }

  // ---------------------------------------------------------------- the machine

  function Start(workers: nat): State {
    State(R.Init(workers), seq(workers, _ => []))
  }

  // The next event of a thread that is to do op on a queue.
  function Turn(trace: seq<Q.Event>, t: Q.Thread, op: Q.Op): Q.Event {
    if Q.Run(trace).PcOf(t) == Q.Idle then Q.Call(t, op) else Q.Step(t)
  }

  predicate Pushing(plan: seq<Job>, s: State) {
    s.group.main.PushJob? && s.group.main.i < |plan| && plan[s.group.main.i].worker < |s.traces|
  }

  predicate Taking(s: State, w: nat) {
    w < |s.traces| == |s.group.workers| && s.group.workers[w].pc.GetJob?
  }

  function Fed(s: State, w: nat, e: Q.Event): State
    requires w < |s.traces|
  {
    s.(traces := s.traces[w := s.traces[w] + [e]])
  }

  function MainStep(plan: seq<Job>, s: State): State {
    if !Pushing(plan, s) then s.(group := R.MainStep(plan, s.group))
    else
      var i := s.group.main.i;
      var w := plan[i].worker;
      var next := Fed(s, w, Turn(s.traces[w], PUSHER, Q.Push(i)));
      if Q.Run(s.traces[w]).PcOf(PUSHER).Finished? then next.(group := s.group.(main := R.CountJob(i))) else next
  }

  function WorkerStep(plan: seq<Job>, s: State, w: nat): State {
    if !Taking(s, w) then s.(group := R.WorkerStep(plan, s.group, w))
    else
      var next := Fed(s, w, Turn(s.traces[w], POPPER, Q.Pop));
      match Q.Run(s.traces[w]).PcOf(POPPER)
      case Finished(Popped(job)) =>
        next.(group := s.group.(workers := s.group.workers[w := s.group.workers[w].(pc := R.RunBody(job))]))
      case _ => next
  }

  function Next(plan: seq<Job>, s: State, t: R.Thread): State {
    match t
    case Main => MainStep(plan, s)
    case Worker(w) => WorkerStep(plan, s, w)
  }

  function At(plan: seq<Job>, workers: nat, schedule: R.Schedule, n: nat): State {
    if n == 0 then Start(workers)
    else Next(plan, At(plan, workers, schedule, n - 1), schedule(n - 1))
  }

  // ---------------------------------------------------------------- what Rendezvous sees

  function ViewMain(plan: seq<Job>, s: State): R.MainPc {
    if Pushing(plan, s) && Content(s.traces[plan[s.group.main.i].worker]).PhaseOf(PUSHER).Done?
    then R.CountJob(s.group.main.i)
    else s.group.main
  }

  function ViewPc(pc: R.WorkerPc, phase: Q.Phase): R.WorkerPc {
    if pc.GetJob? && phase.Done? && phase.result.Popped? then R.RunBody(phase.result.data) else pc
  }

  function ViewWorker(s: State, w: nat): R.WorkerState
    requires w < |s.traces| == |s.group.workers|
  {
    var f := Content(s.traces[w]);
    R.WorkerState(f.items, ViewPc(s.group.workers[w].pc, f.PhaseOf(POPPER)))
  }

  function ViewWorkers(s: State): (ws: seq<R.WorkerState>)
    requires |s.traces| == |s.group.workers|
    ensures |ws| == |s.traces| && forall w :: 0 <= w < |ws| ==> ws[w] == ViewWorker(s, w)
  {
    seq(|s.traces|, w requires 0 <= w < |s.traces| => ViewWorker(s, w))
  }

  function View(plan: seq<Job>, s: State): R.State
    requires |s.traces| == |s.group.workers|
  {
    s.group.(main := ViewMain(plan, s), workers := ViewWorkers(s))
  }

  // Does the turn count in Rendezvous? Inside a queue only the step with an effect does.
  predicate Counts(plan: seq<Job>, s: State, t: R.Thread) {
    match t
    case Main =>
      if !Pushing(plan, s) then true
      else
        var i := s.group.main.i;
        var trace := s.traces[plan[i].worker];
        Q.Linearize(Q.Run(trace), Turn(trace, PUSHER, Q.Push(i))) == [Q.Effect(PUSHER)]
    case Worker(w) =>
      if !Taking(s, w) then true
      else Q.Linearize(Q.Run(s.traces[w]), Turn(s.traces[w], POPPER, Q.Pop)) == [Q.Effect(POPPER)]
  }

  // A turn that does not count is one of a worker that does not exist.
  function Seen(plan: seq<Job>, workers: nat, schedule: R.Schedule): R.Schedule {
    (n: nat) => if Counts(plan, At(plan, workers, schedule, n), schedule(n)) then schedule(n) else R.Worker(workers)
  }

  // ---------------------------------------------------------------- one queue

  predicate PusherAt(phase: Q.Phase, job: nat) {
    phase == Q.Resting || phase == Q.Pending(Q.Push(job)) || phase == Q.Done(Q.Pushed)
  }

  predicate PopperAt(phase: Q.Phase) {
    phase == Q.Resting || phase == Q.Pending(Q.Pop) || (phase.Done? && !phase.result.Pushed?)
  }

  lemma TraceSimulates(trace: seq<Q.Event>, e: Q.Event)
    ensures Q.Simulates(Q.Run(trace), Q.ChainOf(trace), Content(trace))
    ensures Q.Run(trace + [e]) == Q.Next(Q.Run(trace), e)
    ensures Content(trace + [e]) == Q.FifoAfter(Q.Run(trace), Content(trace), e)
  {
    hide *;
    Q.RunSimulates(trace);
    Q.LastEvent(trace + [e], trace, e);
    ContentIs(trace);
    ContentIs(trace + [e]);
    Q.LastAction(Q.Actions(trace + [e]), Q.Actions(trace), Q.Run(trace), e);
  }

  lemma ContentIs(trace: seq<Q.Event>)
    ensures Content(trace) == Q.FifoRun(Q.Actions(trace))
  {
  }

  lemma PhaseOfPc(trace: seq<Q.Event>, t: Q.Thread)
    ensures Q.PhaseOk(Q.Run(trace), Q.Run(trace).PcOf(t), Content(trace).PhaseOf(t))
  {
    Q.RunSimulates(trace);
  }

  lemma OtherPhaseStays(s: Q.State, f: Q.Fifo, e: Q.Event, u: Q.Thread)
    requires u != e.thread
    ensures Q.FifoAfter(s, f, e).PhaseOf(u) == f.PhaseOf(u) && Q.Next(s, e).PcOf(u) == s.PcOf(u)
  {
  }

  lemma FifoActs(f: Q.Fifo, t: Q.Thread)
    ensures forall op :: f.PhaseOf(t) == Q.Resting ==>
      Q.FifoNext(f, Q.Invoke(t, op)).PhaseOf(t) == Q.Pending(op) && Q.FifoNext(f, Q.Invoke(t, op)).items == f.items
    ensures f.PhaseOf(t).Done? ==>
      Q.FifoNext(f, Q.Respond(t)).PhaseOf(t) == Q.Resting && Q.FifoNext(f, Q.Respond(t)).items == f.items
    ensures f.PhaseOf(t) == Q.Pending(Q.Pop) ==>
      && Q.FifoNext(f, Q.Effect(t)).items == (if f.items == [] then [] else f.items[1..])
      && Q.FifoNext(f, Q.Effect(t)).PhaseOf(t) == Q.Done(if f.items == [] then Q.Empty else Q.Popped(f.items[0]))
    ensures f.PhaseOf(t).Pending? && f.PhaseOf(t).op.Push? ==>
      && Q.FifoNext(f, Q.Effect(t)).items == f.items + [f.PhaseOf(t).op.data]
      && Q.FifoNext(f, Q.Effect(t)).PhaseOf(t) == Q.Done(Q.Pushed)
  {
  }

  // What one turn of thread t on a queue may be.
  predicate Inside(s: Q.State, t: Q.Thread, e: Q.Event, acts: seq<Q.Action>, phase: Q.Phase) {
    match s.PcOf(t)
    case Idle => phase == Q.Resting && e.Call? && acts == [Q.Invoke(t, e.op)]
    case Finished(r) => phase == Q.Done(r) && acts == [Q.Respond(t)]
    case _ => acts == [] || (acts == [Q.Effect(t)] && phase.Pending?)
  }

  lemma TurnIsInside(s: Q.State, t: Q.Thread, op: Q.Op, phase: Q.Phase)
    requires Q.PhaseOk(s, s.PcOf(t), phase)
    ensures var e := if s.PcOf(t) == Q.Idle then Q.Call(t, op) else Q.Step(t);
            Inside(s, t, e, Q.Linearize(s, e), phase)
  {
  }

  lemma FifoAfterIs(s: Q.State, f: Q.Fifo, e: Q.Event)
    ensures Q.FifoAfter(s, f, e)
         == if Q.Linearize(s, e) == [] then f else Q.FifoNext(f, Q.Linearize(s, e)[0])
  {
  }

  lemma PusherTurn(trace: seq<Q.Event>, job: nat)
    requires PusherAt(Content(trace).PhaseOf(PUSHER), job)
    ensures var s, f, e := Q.Run(trace), Content(trace), Turn(trace, PUSHER, Q.Push(job));
            var g := Content(trace + [e]);
            && g.PhaseOf(POPPER) == f.PhaseOf(POPPER)
            && (if Q.Linearize(s, e) == [Q.Effect(PUSHER)] then
                  && g.items == f.items + [job] && g.PhaseOf(PUSHER) == Q.Done(Q.Pushed)
                  && !f.PhaseOf(PUSHER).Done? && !s.PcOf(PUSHER).Finished?
                else
                  && g.items == f.items && PusherAt(g.PhaseOf(PUSHER), job)
                  && (s.PcOf(PUSHER).Finished? ==> f.PhaseOf(PUSHER).Done? && g.PhaseOf(PUSHER) == Q.Resting)
                  && (!s.PcOf(PUSHER).Finished? ==> (g.PhaseOf(PUSHER).Done? <==> f.PhaseOf(PUSHER).Done?)))
  {
    var e := Turn(trace, PUSHER, Q.Push(job));
    hide Content, Q.Run, Q.Next, Q.Simulates, Q.FifoNext, Q.FifoAfter, Q.Linearize, Q.PhaseOk;
    TraceSimulates(trace, e);
    PhaseOfPc(trace, PUSHER);
    OtherPhaseStays(Q.Run(trace), Content(trace), e, POPPER);
    TurnIsInside(Q.Run(trace), PUSHER, Q.Push(job), Content(trace).PhaseOf(PUSHER));
    FifoAfterIs(Q.Run(trace), Content(trace), e);
    FifoActs(Content(trace), PUSHER);
  }

  lemma PopperTurn(trace: seq<Q.Event>)
    requires PopperAt(Content(trace).PhaseOf(POPPER))
    ensures var s, f, e := Q.Run(trace), Content(trace), Turn(trace, POPPER, Q.Pop);
            var g := Content(trace + [e]);
            && g.PhaseOf(PUSHER) == f.PhaseOf(PUSHER) && PopperAt(g.PhaseOf(POPPER))
            && (if Q.Linearize(s, e) == [Q.Effect(POPPER)] then
                  && !f.PhaseOf(POPPER).Done? && !s.PcOf(POPPER).Finished?
                  && g.items == (if f.items == [] then [] else f.items[1..])
                  && g.PhaseOf(POPPER) == Q.Done(if f.items == [] then Q.Empty else Q.Popped(f.items[0]))
                else
                  && g.items == f.items
                  && (s.PcOf(POPPER).Finished? ==>
                        f.PhaseOf(POPPER) == Q.Done(s.PcOf(POPPER).result) && g.PhaseOf(POPPER) == Q.Resting)
                  && (!s.PcOf(POPPER).Finished? ==>
                        ViewPc(R.GetJob, g.PhaseOf(POPPER)) == ViewPc(R.GetJob, f.PhaseOf(POPPER))))
  {
    var e := Turn(trace, POPPER, Q.Pop);
    hide Content, Q.Run, Q.Next, Q.Simulates, Q.FifoNext, Q.FifoAfter, Q.Linearize, Q.PhaseOk;
    TraceSimulates(trace, e);
    PhaseOfPc(trace, POPPER);
    OtherPhaseStays(Q.Run(trace), Content(trace), e, PUSHER);
    TurnIsInside(Q.Run(trace), POPPER, Q.Pop, Content(trace).PhaseOf(POPPER));
    FifoAfterIs(Q.Run(trace), Content(trace), e);
    FifoActs(Content(trace), POPPER);
  }

  // ---------------------------------------------------------------- every run is one of Rendezvous

  // The queues are in use exactly where the threads say.
  predicate Placed(plan: seq<Job>, s: State) {
    && |s.traces| == |s.group.workers|
    && (s.group.main.PushJob? || s.group.main.CountJob? ==> s.group.main.i < |plan|)
    && (s.group.main.PushJob? ==> Pushing(plan, s))
    && forall w :: 0 <= w < |s.traces| ==> QueuePlaced(plan, s, w)
  }

  predicate QueuePlaced(plan: seq<Job>, s: State, w: nat)
    requires w < |s.traces| == |s.group.workers|
  {
    var f := Content(s.traces[w]);
    && (if Pushing(plan, s) && plan[s.group.main.i].worker == w then PusherAt(f.PhaseOf(PUSHER), s.group.main.i)
        else f.PhaseOf(PUSHER) == Q.Resting)
    && (if s.group.workers[w].pc.GetJob? then PopperAt(f.PhaseOf(POPPER)) else f.PhaseOf(POPPER) == Q.Resting)
  }

  lemma StartIsPlaced(plan: seq<Job>, workers: nat)
    ensures Placed(plan, Start(workers)) && View(plan, Start(workers)) == R.Init(workers)
  {
    assert Content([]) == Q.FifoInit();
    assert ViewWorkers(Start(workers)) == R.Init(workers).workers;
  }

  // Outside its push wait_group does not touch the queues.
  lemma MainIgnoresQueues(plan: seq<Job>, g: R.State, ws: seq<R.WorkerState>)
    requires !g.main.PushJob? && (g.main.CountJob? ==> g.main.i < |plan|)
    ensures R.MainStep(plan, g).workers == g.workers
    ensures R.MainStep(plan, g.(workers := ws)) == R.MainStep(plan, g).(workers := ws)
    ensures var main := R.MainStep(plan, g).main; (main.PushJob? ==> main.i < |plan|) && !main.CountJob?
  {
  }

  lemma PlacedAt(plan: seq<Job>, s: State, w: nat)
    requires Placed(plan, s) && w < |s.traces|
    ensures QueuePlaced(plan, s, w)
  {
  }

  lemma MainSimulates(plan: seq<Job>, s: State)
    requires Placed(plan, s) && R.ValidPlan(plan, |s.traces|)
    ensures Placed(plan, MainStep(plan, s))
    ensures View(plan, MainStep(plan, s))
         == if Counts(plan, s, R.Main) then R.MainStep(plan, View(plan, s)) else View(plan, s)
  {
    if Pushing(plan, s) { PushSimulates(plan, s); } else { MainAloneSimulates(plan, s); }
  }

  lemma MainAloneSimulates(plan: seq<Job>, s: State)
    requires Placed(plan, s) && R.ValidPlan(plan, |s.traces|) && !Pushing(plan, s)
    ensures Placed(plan, MainStep(plan, s)) && View(plan, MainStep(plan, s)) == R.MainStep(plan, View(plan, s))
  {
    hide Content, R.MainStep;
    var next := MainStep(plan, s);
    MainIgnoresQueues(plan, s.group, ViewWorkers(s));
    forall w: nat | w < |s.traces|
      ensures QueuePlaced(plan, next, w) && ViewWorker(next, w) == ViewWorker(s, w)
      ensures Content(s.traces[w]).PhaseOf(PUSHER) == Q.Resting
    {
      PlacedAt(plan, s, w);
    }
    assert ViewWorkers(next) == ViewWorkers(s);
  }

  lemma PushSimulates(plan: seq<Job>, s: State)
    requires Placed(plan, s) && Pushing(plan, s)
    ensures Placed(plan, MainStep(plan, s))
    ensures View(plan, MainStep(plan, s))
         == if Counts(plan, s, R.Main) then R.MainStep(plan, View(plan, s)) else View(plan, s)
  {
    hide Content, Turn, Q.Run, Q.Linearize;
    var i, next := s.group.main.i, MainStep(plan, s);
    var at := plan[i].worker;
    PlacedAt(plan, s, at);
    PusherTurn(s.traces[at], i);
    forall w: nat | w < |s.traces|
      ensures QueuePlaced(plan, next, w)
      ensures ViewWorker(next, w) ==
        if w == at && Counts(plan, s, R.Main) then ViewWorker(s, w).(queue := ViewWorker(s, w).queue + [i])
        else ViewWorker(s, w)
    {
      PlacedAt(plan, s, w);
    }
    if Counts(plan, s, R.Main) {
      assert ViewWorkers(next) == R.PushOn(ViewWorkers(s), at, i);
    } else {
      assert ViewWorkers(next) == ViewWorkers(s);
    }
  }

  // Outside its pop a worker does not touch the queues, and does not look at what wait_group pushes.
  lemma WorkerIgnoresQueues(plan: seq<Job>, g: R.State, main: R.MainPc, ws: seq<R.WorkerState>, w: nat)
    requires w < |g.workers| == |ws| && ws[w].pc == g.workers[w].pc && !g.workers[w].pc.GetJob?
    requires main == g.main || (main.CountJob? && g.main.PushJob?)
    ensures var after := R.WorkerStep(plan, g, w);
            && |after.workers| == |g.workers|
            && (after.main == g.main || (g.main == R.Asleep && after.main == R.Relock))
            && after.workers == g.workers[w := g.workers[w].(pc := after.workers[w].pc)]
            && R.WorkerStep(plan, g.(main := main, workers := ws), w)
            == after.(main := if main == g.main then after.main else main,
                      workers := ws[w := ws[w].(pc := after.workers[w].pc)])
  {
    hide BodyOf;
  }

  lemma WorkerSimulates(plan: seq<Job>, s: State, w: nat)
    requires Placed(plan, s)
    ensures Placed(plan, WorkerStep(plan, s, w))
    ensures View(plan, WorkerStep(plan, s, w))
         == if Counts(plan, s, R.Worker(w)) then R.WorkerStep(plan, View(plan, s), w) else View(plan, s)
  {
    if w < |s.traces| {
      if Taking(s, w) { TakeSimulates(plan, s, w); } else { WorkerAloneSimulates(plan, s, w); }
    } else {
      hide Content, Placed;
      assert WorkerStep(plan, s, w) == s && R.WorkerStep(plan, View(plan, s), w) == View(plan, s);
    }
  }

  lemma WorkerAloneSimulates(plan: seq<Job>, s: State, me: nat)
    requires Placed(plan, s) && me < |s.traces| && !Taking(s, me)
    ensures Placed(plan, WorkerStep(plan, s, me))
    ensures View(plan, WorkerStep(plan, s, me)) == R.WorkerStep(plan, View(plan, s), me)
  {
    hide Content, R.WorkerStep;
    var next := WorkerStep(plan, s, me);
    PlacedAt(plan, s, me);
    WorkerIgnoresQueues(plan, s.group, ViewMain(plan, s), ViewWorkers(s), me);
    forall w: nat | w < |s.traces|
      ensures QueuePlaced(plan, next, w)
      ensures ViewWorker(next, w) ==
        if w == me then ViewWorker(s, w).(pc := next.group.workers[w].pc) else ViewWorker(s, w)
    {
      PlacedAt(plan, s, w);
    }
    assert ViewWorkers(next) == ViewWorkers(s)[me := ViewWorker(s, me).(pc := next.group.workers[me].pc)];
  }

  lemma TakeSimulates(plan: seq<Job>, s: State, me: nat)
    requires Placed(plan, s) && me < |s.traces| && Taking(s, me)
    ensures Placed(plan, WorkerStep(plan, s, me))
    ensures View(plan, WorkerStep(plan, s, me))
         == if Counts(plan, s, R.Worker(me)) then R.WorkerStep(plan, View(plan, s), me) else View(plan, s)
  {
    hide Content, Turn, Q.Run, Q.Linearize;
    var next := WorkerStep(plan, s, me);
    PlacedAt(plan, s, me);
    PopperTurn(s.traces[me]);
    forall w: nat | w < |s.traces|
      ensures QueuePlaced(plan, next, w)
      ensures w != me ==> ViewWorker(next, w) == ViewWorker(s, w)
    {
      PlacedAt(plan, s, w);
    }
    assert ViewWorkers(next) == ViewWorkers(s)[me := ViewWorker(next, me)];
    assert ViewWorkers(s)[me := ViewWorker(s, me)] == ViewWorkers(s);
  }

  // ---------------------------------------------------------------- safety

  lemma NextSimulates(plan: seq<Job>, s: State, t: R.Thread)
    requires Placed(plan, s) && R.ValidPlan(plan, |s.traces|)
    ensures Placed(plan, Next(plan, s, t)) && |Next(plan, s, t).traces| == |s.traces|
    ensures View(plan, Next(plan, s, t))
         == if Counts(plan, s, t) then R.Next(plan, View(plan, s), t) else View(plan, s)
  {
    match t
    case Main => MainSimulates(plan, s);
    case Worker(w) => WorkerSimulates(plan, s, w);
  }

  lemma IdleTurn(plan: seq<Job>, a: R.State, w: nat)
    requires w >= |a.workers|
    ensures R.Next(plan, a, R.Worker(w)) == a
  {
  }

  /** Every run over the lock-free queues looks like a run of Rendezvous. */
  lemma {:induction false} RunRefines(plan: seq<Job>, workers: nat, schedule: R.Schedule, n: nat)
    requires R.ValidPlan(plan, workers)
    ensures var s := At(plan, workers, schedule, n);
            && Placed(plan, s) && |s.traces| == workers
            && View(plan, s) == R.At(plan, workers, Seen(plan, workers, schedule), n)
  {
    hide *;
    if n == 0 {
      StartIsPlaced(plan, workers);
      AtStart(plan, workers, schedule);
    } else {
      RunRefines(plan, workers, schedule, n - 1);
      AtNext(plan, workers, schedule, n - 1);
      var s := At(plan, workers, schedule, n - 1);
      PlacedSize(plan, s);
      ViewSize(plan, s);
      NextSimulates(plan, s, schedule(n - 1));
      IdleTurn(plan, View(plan, s), workers);
      PlacedSize(plan, At(plan, workers, schedule, n));
    }
  }

  lemma AtStart(plan: seq<Job>, workers: nat, schedule: R.Schedule)
    ensures At(plan, workers, schedule, 0) == Start(workers) && |Start(workers).traces| == workers
    ensures |Start(workers).group.workers| == workers
    ensures R.At(plan, workers, Seen(plan, workers, schedule), 0) == R.Init(workers)
  {
  }

  lemma AtNext(plan: seq<Job>, workers: nat, schedule: R.Schedule, n: nat)
    ensures var s := At(plan, workers, schedule, n);
            && At(plan, workers, schedule, n + 1) == Next(plan, s, schedule(n))
            && R.At(plan, workers, Seen(plan, workers, schedule), n + 1)
            == R.Next(plan, R.At(plan, workers, Seen(plan, workers, schedule), n),
                      if Counts(plan, s, schedule(n)) then schedule(n) else R.Worker(workers))
  {
    hide Next, Counts, R.Next;
  }

  lemma PlacedSize(plan: seq<Job>, s: State)
    requires Placed(plan, s)
    ensures |s.traces| == |s.group.workers|
  {
  }

  lemma ViewSize(plan: seq<Job>, s: State)
    requires |s.traces| == |s.group.workers|
    ensures |View(plan, s).workers| == |s.traces|
  {
  }

  lemma ViewParts(plan: seq<Job>, s: State)
    requires |s.traces| == |s.group.workers|
    ensures View(plan, s).ran == s.group.ran && View(plan, s).counted == s.group.counted
    ensures View(plan, s).main.Returned? <==> s.group.main.Returned?
    ensures forall w :: 0 <= w < |s.traces| ==> View(plan, s).workers[w].queue == Content(s.traces[w]).items
  {
  }

  /** wait_group returns only after every job has gone through its queue, has run exactly once
      with its selected body and has been counted down exactly once. */
  lemma ReturnsOnlyWhenDone(plan: seq<Job>, workers: nat, schedule: R.Schedule, n: nat)
    requires R.ValidPlan(plan, workers) && At(plan, workers, schedule, n).group.main.Returned?
    ensures var s := At(plan, workers, schedule, n);
            && (forall j: nat :: R.Count(R.JobsOf(s.group.ran), j) == if j < |plan| then 1 else 0)
            && (forall j: nat :: R.Count(s.group.counted, j) == if j < |plan| then 1 else 0)
            && (forall k :: 0 <= k < |s.group.ran| ==>
                  && s.group.ran[k].job < |plan|
                  && s.group.ran[k].body == BodyOf(plan[s.group.ran[k].job].task))
            && (forall w :: 0 <= w < |s.traces| ==> Content(s.traces[w]).items == [])
  {
    hide *;
    var s := At(plan, workers, schedule, n);
    RunRefines(plan, workers, schedule, n);
    PlacedSize(plan, s);
    ViewSize(plan, s);
    ViewParts(plan, s);
    R.ReturnsOnlyWhenDone(plan, workers, Seen(plan, workers, schedule), n);
  }

  // ---------------------------------------------------------------- no thread retries

  predicate Pushes(pc: Q.Pc) { pc.PushLoadTail? || pc.PushCasNext? || pc.PushCasTail? }

  predicate Pops(pc: Q.Pc) {
    pc.PopLoadHead? || pc.PopTestNext? || pc.PopLoadNext? || pc.PopCasHead? || pc.PopReloadNext? || pc.PopLoadData?
  }

  // One pusher and one popper, and what they have read is still so.
  ghost predicate Alone(q: Q.State) {
    && (forall t :: Pushes(q.PcOf(t)) ==> t == PUSHER)
    && (forall t :: Pops(q.PcOf(t)) ==> t == POPPER)
    && PushReads(q, q.PcOf(PUSHER)) && PopReads(q, q.PcOf(POPPER))
  }

  predicate PushReads(q: Q.State, pc: Q.Pc) {
    pc.PushCasNext? ==> q.IsElement(pc.tail) && q.NextOf(pc.tail) == Q.NULL
  }

  predicate PopReads(q: Q.State, pc: Q.Pc) {
    pc.PopTestNext? || pc.PopLoadNext? || pc.PopCasHead? ==> pc.head == q.head
  }

  predicate Suits(e: Q.Event) {
    match e
    case Call(t, op) => if op.Push? then t == PUSHER else t == POPPER
    case Step(t) => t == PUSHER || t == POPPER
  }

  predicate AllSuit(trace: seq<Q.Event>) {
    forall k :: 0 <= k < |trace| ==> Suits(trace[k])
  }

  // With nobody between the two swaps tail names the last element.
  lemma TailIsLast(q: Q.State, c: Q.Chain)
    requires Q.Inv(q, c) && Alone(q) && !q.PcOf(PUSHER).PushCasTail?
    ensures q.IsElement(q.tail) && q.NextOf(q.tail) == Q.NULL
  {
    assert forall t :: !Q.Between(q, t);
    assert q.IsElement(c.els[|c.els| - 1]);
  }

  lemma PushKeepsAlone(q: Q.State, c: Q.Chain, e: Q.Event)
    requires Q.Inv(q, c) && Alone(q) && Suits(e) && e.thread == PUSHER && !Pops(q.PcOf(PUSHER))
    ensures Alone(Q.Next(q, e)) && !Pops(Q.Next(q, e).PcOf(PUSHER))
  {
    if q.PcOf(PUSHER).PushLoadTail? { TailIsLast(q, c); }
    hide Q.Inv;
    var next := Q.Next(q, e);
    assert forall t :: t != PUSHER ==> next.PcOf(t) == q.PcOf(t);
  }

  lemma PopKeepsAlone(q: Q.State, e: Q.Event)
    requires Alone(q) && Suits(e) && e.thread == POPPER && !Pushes(q.PcOf(POPPER))
    ensures Alone(Q.Next(q, e))
  {
    var next := Q.Next(q, e);
    assert forall t :: t != POPPER ==> next.PcOf(t) == q.PcOf(t);
  }

  lemma {:induction false} TraceIsAlone(trace: seq<Q.Event>)
    requires AllSuit(trace)
    ensures Alone(Q.Run(trace))
  {
    if trace != [] {
      var before, e := trace[..|trace| - 1], trace[|trace| - 1];
      TraceIsAlone(before);
      assert trace == before + [e];
      Q.LastEvent(trace, before, e);
      Q.RunSimulates(before);
      assert Q.Inv(Q.Run(before), Q.ChainOf(before));
      hide Q.Inv, Q.Next, Q.Run, Q.ChainOf;
      if e.thread == PUSHER { PushKeepsAlone(Q.Run(before), Q.ChainOf(before), e); }
      else { PopKeepsAlone(Q.Run(before), e); }
    }
  }

  // How many turns a thread is from an effect on its queue, at most.
  function Ahead(pc: Q.Pc): nat {
    match pc
    case PushCasNext(_, _) => 1
    case PopCasHead(_, _) => 1
    case PushLoadTail(_) => 2
    case PopLoadNext(_) => 2
    case PopTestNext(_) => 3
    case PopLoadHead => 4
    case Idle => 5
    case Finished(_) => 6
    case PushCasTail(_, _) => 7
    case PopLoadData(_) => 7
    case PopReloadNext(_) => 8
    case Crashed => 0
  }

  // A turn without an effect brings the thread nearer to one: the swaps do not fail.
  lemma TurnGoesAhead(q: Q.State, c: Q.Chain, t: Q.Thread, op: Q.Op)
    requires Q.Inv(q, c) && Alone(q) && (t == PUSHER || t == POPPER)
    ensures var e := if q.PcOf(t) == Q.Idle then Q.Call(t, op) else Q.Step(t);
            Q.Linearize(q, e) != [Q.Effect(t)] ==> Ahead(Q.Next(q, e).PcOf(t)) < Ahead(q.PcOf(t))
  {
    assert Q.PcOk(q, c, q.PcOf(t));
    hide Q.Inv;
  }

  // ---------------------------------------------------------------- fair runs stay fair

  predicate Suited(s: State) {
    forall w :: 0 <= w < |s.traces| ==> AllSuit(s.traces[w])
  }

  lemma NextSuits(plan: seq<Job>, s: State, t: R.Thread)
    requires Suited(s)
    ensures Suited(Next(plan, s, t))
  {
    hide Q.Run, Content, R.MainStep, R.WorkerStep;
    var next := Next(plan, s, t);
    forall w | 0 <= w < |next.traces|
      ensures AllSuit(next.traces[w])
    {
      assert w < |s.traces| && AllSuit(s.traces[w]);
    }
  }

  lemma {:induction false} RunSuits(plan: seq<Job>, workers: nat, schedule: R.Schedule, n: nat)
    ensures Suited(At(plan, workers, schedule, n))
  {
    if n > 0 {
      RunSuits(plan, workers, schedule, n - 1);
      hide Suited, Next;
      NextSuits(plan, At(plan, workers, schedule, n - 1), schedule(n - 1));
    }
  }

  // How many turns of t may pass before one counts.
  function Wait(plan: seq<Job>, s: State, t: R.Thread): nat {
    match t
    case Main =>
      if Pushing(plan, s) then Ahead(Q.Run(s.traces[plan[s.group.main.i].worker]).PcOf(PUSHER)) else 0
    case Worker(w) => if Taking(s, w) then Ahead(Q.Run(s.traces[w]).PcOf(POPPER)) else 0
  }

  lemma QueueGoesAhead(trace: seq<Q.Event>, t: Q.Thread, op: Q.Op)
    requires AllSuit(trace) && (t == PUSHER || t == POPPER)
    ensures var e := Turn(trace, t, op);
            && Q.Run(trace + [e]) == Q.Next(Q.Run(trace), e)
            && (Q.Linearize(Q.Run(trace), e) != [Q.Effect(t)] ==>
                  Ahead(Q.Run(trace + [e]).PcOf(t)) < Ahead(Q.Run(trace).PcOf(t)))
    ensures forall u :: u != t ==> Q.Run(trace + [Turn(trace, t, op)]).PcOf(u) == Q.Run(trace).PcOf(u)
  {
    var e := Turn(trace, t, op);
    hide Q.Run, Q.Simulates, Q.Next, Q.Inv, Q.Linearize, Q.FifoAfter, Alone, Ahead;
    TraceSimulates(trace, e);
    TraceIsAlone(trace);
    InvOf(trace);
    TurnGoesAhead(Q.Run(trace), Q.ChainOf(trace), t, op);
    forall u | u != t
      ensures Q.Next(Q.Run(trace), e).PcOf(u) == Q.Run(trace).PcOf(u)
    {
      OtherPhaseStays(Q.Run(trace), Content(trace), e, u);
    }
  }

  lemma InvOf(trace: seq<Q.Event>)
    ensures Q.Inv(Q.Run(trace), Q.ChainOf(trace))
  {
    Q.RunSimulates(trace);
  }

  lemma OwnWaitFalls(plan: seq<Job>, s: State, t: R.Thread)
    requires Placed(plan, s) && Suited(s) && !Counts(plan, s, t)
    ensures Wait(plan, Next(plan, s, t), t) < Wait(plan, s, t)
  {
    hide Q.Run, Content, Turn, Q.Linearize, Ahead, R.MainStep, R.WorkerStep, AllSuit;
    match t
    case Main =>
      var w := plan[s.group.main.i].worker;
      assert AllSuit(s.traces[w]);
      QueueGoesAhead(s.traces[w], PUSHER, Q.Push(s.group.main.i));
    case Worker(w) =>
      assert AllSuit(s.traces[w]);
      QueueGoesAhead(s.traces[w], POPPER, Q.Pop);
  }

  lemma OtherWaitStays(plan: seq<Job>, s: State, t: R.Thread, u: R.Thread)
    requires Placed(plan, s) && Suited(s) && t != u
    ensures Wait(plan, Next(plan, s, u), t) <= Wait(plan, s, t)
  {
    hide Q.Run, Content, Q.Linearize, Ahead, AllSuit, QueuePlaced;
    match u
    case Main =>
      if Pushing(plan, s) {
        var w := plan[s.group.main.i].worker;
        assert AllSuit(s.traces[w]);
        QueueGoesAhead(s.traces[w], PUSHER, Q.Push(s.group.main.i));
      }
    case Worker(w) =>
      if Taking(s, w) {
        assert AllSuit(s.traces[w]);
        QueueGoesAhead(s.traces[w], POPPER, Q.Pop);
      }
  }

  // Until its next turn the wait of t does not grow.
  lemma FirstTurn(plan: seq<Job>, workers: nat, schedule: R.Schedule, t: R.Thread, n: nat) returns (m: nat)
    requires R.ValidPlan(plan, workers) && R.Fair(schedule, workers) && R.Exists(t, workers)
    ensures m >= n && schedule(m) == t
    ensures Wait(plan, At(plan, workers, schedule, m), t) <= Wait(plan, At(plan, workers, schedule, n), t)
  {
    hide *;
    var last := R.NextTurn(schedule, workers, t, n);
    m := n;
    while schedule(m) != t
      invariant n <= m <= last
      invariant Wait(plan, At(plan, workers, schedule, m), t) <= Wait(plan, At(plan, workers, schedule, n), t)
      decreases last - m
    {
      RunRefines(plan, workers, schedule, m);
      RunSuits(plan, workers, schedule, m);
      AtNext(plan, workers, schedule, m);
      OtherWaitStays(plan, At(plan, workers, schedule, m), t, schedule(m));
      m := m + 1;
    }
  }

  lemma {:induction false} NextCounted(plan: seq<Job>, workers: nat, schedule: R.Schedule, t: R.Thread, n: nat)
    returns (m: nat)
    requires R.ValidPlan(plan, workers) && R.Fair(schedule, workers) && R.Exists(t, workers)
    ensures m >= n && Seen(plan, workers, schedule)(m) == t
    decreases Wait(plan, At(plan, workers, schedule, n), t)
  {
    hide *;
    m := FirstTurn(plan, workers, schedule, t, n);
    SeenAt(plan, workers, schedule, m);
    var s := At(plan, workers, schedule, m);
    if !Counts(plan, s, t) {
      RunRefines(plan, workers, schedule, m);
      RunSuits(plan, workers, schedule, m);
      AtNext(plan, workers, schedule, m);
      OwnWaitFalls(plan, s, t);
      m := NextCounted(plan, workers, schedule, t, m + 1);
    }
  }

  lemma SeenAt(plan: seq<Job>, workers: nat, schedule: R.Schedule, n: nat)
    ensures Seen(plan, workers, schedule)(n)
         == if Counts(plan, At(plan, workers, schedule, n), schedule(n)) then schedule(n) else R.Worker(workers)
  {
  }

  lemma SeenIsFair(plan: seq<Job>, workers: nat, schedule: R.Schedule)
    requires R.ValidPlan(plan, workers) && R.Fair(schedule, workers)
    ensures R.Fair(Seen(plan, workers, schedule), workers)
  {
    forall t, n: nat | R.Exists(t, workers)
      ensures R.ScheduledFrom(Seen(plan, workers, schedule), t, n)
    {
      var m := NextCounted(plan, workers, schedule, t, n);
    }
  }

  lemma ReturnsTogether(plan: seq<Job>, workers: nat, schedule: R.Schedule, n: nat)
    requires R.ValidPlan(plan, workers)
    ensures At(plan, workers, schedule, n).group.main.Returned?
       <==> R.At(plan, workers, Seen(plan, workers, schedule), n).main.Returned?
  {
    hide *;
    RunRefines(plan, workers, schedule, n);
    PlacedSize(plan, At(plan, workers, schedule, n));
    ViewParts(plan, At(plan, workers, schedule, n));
  }

  /** Over the lock-free queues, too, wait_group returns under every fair schedule of the single
      instructions if and only if it enqueued a job. */
  lemma ReturnsIffJobs(plan: seq<Job>, workers: nat, schedule: R.Schedule)
    requires R.ValidPlan(plan, workers) && R.Fair(schedule, workers)
    ensures plan != [] <==> exists n :: At(plan, workers, schedule, n).group.main.Returned?
  {
    hide *;
    SeenIsFair(plan, workers, schedule);
    var seen := Seen(plan, workers, schedule);
    R.ReturnsIffJobs(plan, workers, seen);
    if plan != [] {
      var n :| R.At(plan, workers, seen, n).main.Returned?;
      ReturnsTogether(plan, workers, schedule, n);
    } else {
      forall n: nat
        ensures !At(plan, workers, schedule, n).group.main.Returned?
      {
        ReturnsTogether(plan, workers, schedule, n);
      }
    }
  }

  // The jobs below n have run once each, and nothing else has run.
  ghost predicate RanOnce(s: State, n: nat) {
    forall j: nat :: R.Count(R.JobsOf(s.group.ran), j) == if j < n then 1 else 0
  }

  lemma AllRanOnce(plan: seq<Job>, workers: nat, schedule: R.Schedule, n: nat)
    requires R.ValidPlan(plan, workers) && At(plan, workers, schedule, n).group.main.Returned?
    ensures RanOnce(At(plan, workers, schedule, n), |plan|)
  {
    ReturnsOnlyWhenDone(plan, workers, schedule, n);
    hide R.ValidPlan, At;
  }

  /** The whole way: tasks pushed to a group, selected, sent through the queues, run and waited
      for. The wait returns if and only if some task is significant, has an approximate body, or
      may be promoted; and then exactly the kept tasks have run, once each. */
  lemma GroupOverQueues(pushed: seq<Task>, goal: nat, workers: nat, schedule: R.Schedule)
    requires workers > 0 && |pushed| < R.UINT && Scheduler.Levelled(pushed) && R.Fair(schedule, workers)
    ensures var p := Scheduler.Select(Scheduler.From(Scheduler.Buckets(pushed), 0), goal, workers);
            && Scheduler.TasksOf(p.plan) == Scheduler.Kept(p.final)
            && (Scheduler.SomeRuns(pushed, goal) <==>
                  exists n :: At(p.plan, workers, schedule, n).group.main.Returned?)
            && (forall n: nat :: At(p.plan, workers, schedule, n).group.main.Returned? ==>
                  RanOnce(At(p.plan, workers, schedule, n), |p.plan|))
  {
    hide *;
    var visit := Scheduler.From(Scheduler.Buckets(pushed), 0);
    var plan := Scheduler.Select(visit, goal, workers).plan;
    Scheduler.VisitsEveryPush(pushed);
    Scheduler.VisitedIffPushed(pushed, goal);
    Scheduler.EnqueuesIffSomeRuns(visit, goal, workers);
    Scheduler.PlanIsDealt(visit, goal, workers);
    Scheduler.PlanFits(visit, goal, workers);
    ReturnsIffJobs(plan, workers, schedule);
    forall n: nat | At(plan, workers, schedule, n).group.main.Returned?
      ensures RanOnce(At(plan, workers, schedule, n), |plan|)
    {
      AllRanOnce(plan, workers, schedule, n);
    }
  }
}
