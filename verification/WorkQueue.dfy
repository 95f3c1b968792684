/**
 The lock-free work queue of queue.c.

 A pusher and a popper are sequences of atomic instructions, one per load or
 compare-and-swap of the C text; any number of threads interleave them freely.
 `Next` executes one instruction, so a run is a fold over a list of events and
 every theorem below quantifies over all such lists.

 The specification is a FIFO that serves each operation in one indivisible step
 (`Effect`) somewhere between its invocation and its response.  `Linearizable`
 says that the two machines produce the same history of invocations and responses.
 */
module WorkQueue {

  type Ptr = nat     // address of an element; 0 is NULL
  type Data = nat    // the void* payload; 0 is NULL
  type Thread = nat

  const NULL: nat := 0
  const DUMMY: Ptr := 1

  datatype Element = Element(next: Ptr, data: Data)

  datatype Op = Push(data: Data) | Pop

  // What the caller sees: queue_push returns 0, queue_pop returns 0 and a value, or 2.
  datatype Result = Pushed | Popped(data: Data) | Empty

  datatype Observation = Invoked(thread: Thread, op: Op) | Responded(thread: Thread, result: Result)

  // ---------------------------------------------------------------- implementation

  // The next atomic instruction of a thread, with the locals it needs.
  datatype Pc =
    | Idle
    | PushLoadTail(el: Ptr)
    | PushCasNext(el: Ptr, tail: Ptr)
    | PushCasTail(el: Ptr, tail: Ptr)
    | PopLoadHead
    | PopTestNext(head: Ptr)
    | PopLoadNext(head: Ptr)
    | PopCasHead(head: Ptr, next: Ptr)
    | PopReloadNext(head: Ptr)
    | PopLoadData(el: Ptr)
    | Finished(result: Result)
    | Crashed                       // dereferenced an address that holds no element

  // heap[0] is never used, so that an address is an index and NULL is not an element.
  datatype State = State(heap: seq<Element>, head: Ptr, tail: Ptr,
                         pcs: map<Thread, Pc>, history: seq<Observation>)
  {
    function PcOf(t: Thread): Pc { if t in pcs then pcs[t] else Idle }

    predicate IsElement(p: Ptr) { p != NULL && p < |heap| }

    function NextOf(p: Ptr): Ptr { if p < |heap| then heap[p].next else NULL }

    function DataOf(p: Ptr): Data { if p < |heap| then heap[p].data else NULL }

    function Goto(t: Thread, pc: Pc): State { this.(pcs := pcs[t := pc]) }
  }

  datatype Event = Call(thread: Thread, op: Op) | Step(thread: Thread)

  // queue_init: one dummy element, both ends on it.
  function Init(): State {
    State([Element(NULL, NULL), Element(NULL, NULL)], DUMMY, DUMMY, map[], [])
  }

  // Entering queue_push (after queue_make_element) or queue_pop.
  function Enter(s: State, t: Thread, op: Op): State {
    if s.PcOf(t) != Idle then s else
    var s := s.(history := s.history + [Invoked(t, op)]);
    match op
    case Push(d) => s.(heap := s.heap + [Element(NULL, d)]).Goto(t, PushLoadTail(|s.heap|))
    case Pop => s.Goto(t, PopLoadHead)
  }

  function Execute(s: State, t: Thread): State {
    match s.PcOf(t)
    case Idle => s
    case PushLoadTail(el) => s.Goto(t, PushCasNext(el, s.tail))
    case PushCasNext(el, tail) =>
      if !s.IsElement(tail) then s.Goto(t, Crashed)
      else if s.heap[tail].next == NULL then
        s.(heap := s.heap[tail := s.heap[tail].(next := el)]).Goto(t, PushCasTail(el, tail))
      else s.Goto(t, PushLoadTail(el))
    case PushCasTail(el, tail) =>
      if s.tail == tail then s.(tail := el).Goto(t, Finished(Pushed))
      else s.Goto(t, PushLoadTail(el))
    case PopLoadHead => s.Goto(t, PopTestNext(s.head))
    case PopTestNext(head) =>
      if !s.IsElement(head) then s.Goto(t, Crashed)
      else if s.heap[head].next == NULL then s.Goto(t, Finished(Empty))
      else s.Goto(t, PopLoadNext(head))
    case PopLoadNext(head) =>
      if !s.IsElement(head) then s.Goto(t, Crashed)
      else s.Goto(t, PopCasHead(head, s.heap[head].next))
    case PopCasHead(head, next) =>
      if s.head == head then s.(head := next).Goto(t, PopReloadNext(head))
      else s.Goto(t, PopLoadHead)
    case PopReloadNext(head) =>
      if !s.IsElement(head) then s.Goto(t, Crashed)
      else s.Goto(t, PopLoadData(s.heap[head].next))
    case PopLoadData(el) =>
      if !s.IsElement(el) then s.Goto(t, Crashed)
      else s.Goto(t, Finished(Popped(s.heap[el].data)))
    case Finished(r) => s.(history := s.history + [Responded(t, r)]).Goto(t, Idle)
    case Crashed => s
  }

  function Next(s: State, e: Event): State {
    match e
    case Call(t, op) => Enter(s, t, op)
    case Step(t) => Execute(s, t)
  }

  function Run(events: seq<Event>): State {
    if events == [] then Init()
    else Next(Run(events[..|events| - 1]), events[|events| - 1])
  }

  // ---------------------------------------------------------------- specification

  datatype Phase = Resting | Pending(op: Op) | Done(result: Result)

  datatype Fifo = Fifo(items: seq<Data>, phases: map<Thread, Phase>, history: seq<Observation>)
  {
    function PhaseOf(t: Thread): Phase { if t in phases then phases[t] else Resting }
  }

  datatype Action = Invoke(thread: Thread, op: Op) | Effect(thread: Thread) | Respond(thread: Thread)

  function FifoInit(): Fifo { Fifo([], map[], []) }

  function FifoNext(f: Fifo, a: Action): Fifo {
    var t := a.thread;
    match (a, f.PhaseOf(t))
    case (Invoke(_, op), Resting) =>
      f.(phases := f.phases[t := Pending(op)], history := f.history + [Invoked(t, op)])
    case (Effect(_), Pending(Push(d))) =>
      f.(items := f.items + [d], phases := f.phases[t := Done(Pushed)])
    case (Effect(_), Pending(Pop)) =>
      if f.items == [] then f.(phases := f.phases[t := Done(Empty)])
      else f.(items := f.items[1..], phases := f.phases[t := Done(Popped(f.items[0]))])
    case (Respond(_), Done(r)) =>
      f.(phases := f.phases[t := Resting], history := f.history + [Responded(t, r)])
    case _ => f
  }

  function FifoRun(actions: seq<Action>): Fifo {
    if actions == [] then FifoInit()
    else FifoNext(FifoRun(actions[..|actions| - 1]), actions[|actions| - 1])
  }

  // Where an event of the implementation takes effect, if it does: a push when its
  // first CAS links the element, a pop when its CAS moves the head, an empty pop when
  // it reads the NULL.
  function Linearize(s: State, e: Event): seq<Action> {
    match e
    case Call(t, op) => if s.PcOf(t) == Idle then [Invoke(t, op)] else []
    case Step(t) =>
      match s.PcOf(t)
      case PushCasNext(_, tail) =>
        if s.IsElement(tail) && s.heap[tail].next == NULL then [Effect(t)] else []
      case PopTestNext(head) =>
        if s.IsElement(head) && s.heap[head].next == NULL then [Effect(t)] else []
      case PopCasHead(head, _) => if s.head == head then [Effect(t)] else []
      case Finished(_) => [Respond(t)]
      case _ => []
  }

  function Actions(events: seq<Event>): seq<Action> {
    if events == [] then []
    else
      var before := events[..|events| - 1];
      Actions(before) + Linearize(Run(before), events[|events| - 1])
  }

  // ---------------------------------------------------------------- the invariant

  // The elements ever linked, in link order, and how many of them the head has passed.
  datatype Chain = Chain(els: seq<Ptr>, taken: nat)

  function ChainNext(s: State, c: Chain, e: Event): Chain {
    if e.Call? then c else
    match s.PcOf(e.thread)
    case PushCasNext(el, tail) =>
      if s.IsElement(tail) && s.heap[tail].next == NULL then c.(els := c.els + [el]) else c
    case PopCasHead(head, _) => if s.head == head then c.(taken := c.taken + 1) else c
    case _ => c
  }

  function ChainOf(events: seq<Event>): Chain {
    if events == [] then Chain([DUMMY], 0)
    else
      var before := events[..|events| - 1];
      ChainNext(Run(before), ChainOf(before), events[|events| - 1])
  }

  ghost predicate InChain(c: Chain, p: Ptr, limit: int) {
    exists i :: 0 <= i < |c.els| && i <= limit && c.els[i] == p
  }

  // The heap holds exactly one singly linked list through c.els; head points into it.
  ghost predicate Linked(s: State, c: Chain) {
    && |s.heap| > 1
    && c.taken < |c.els|
    && c.els[0] == DUMMY
    && (forall i :: 0 <= i < |c.els| ==> s.IsElement(c.els[i]))
    && (forall i, j :: 0 <= i < j < |c.els| ==> c.els[i] != c.els[j])
    && (forall i :: 0 <= i < |c.els| - 1 ==> s.NextOf(c.els[i]) == c.els[i + 1])
    && s.NextOf(c.els[|c.els| - 1]) == NULL
    && s.head == c.els[c.taken]
  }

  predicate Between(s: State, t: Thread) { s.PcOf(t).PushCasTail? }

  // tail is the last linked element, or the one before it while a pusher is between its CASes.
  ghost predicate TailLags(s: State, c: Chain)
    requires c.els != []
  {
    if exists t :: Between(s, t) then |c.els| >= 2 && s.tail == c.els[|c.els| - 2]
    else s.tail == c.els[|c.els| - 1]
  }

  function TailIndex(s: State, c: Chain): int {
    if c.els != [] && s.tail == c.els[|c.els| - 1] then |c.els| - 1 else |c.els| - 2
  }

  predicate Detached(s: State, c: Chain, el: Ptr) {
    s.IsElement(el) && s.NextOf(el) == NULL && el !in c.els
  }

  ghost predicate PcOk(s: State, c: Chain, pc: Pc)
    requires c.els != []
  {
    match pc
    case PushLoadTail(el) => Detached(s, c, el)
    case PushCasNext(el, tail) => Detached(s, c, el) && InChain(c, tail, TailIndex(s, c))
    case PushCasTail(el, tail) =>
      |c.els| >= 2 && el == c.els[|c.els| - 1] && tail == c.els[|c.els| - 2] && s.tail == tail
    case PopTestNext(head) => InChain(c, head, c.taken)
    case PopLoadNext(head) => InChain(c, head, c.taken) && s.NextOf(head) != NULL
    case PopCasHead(head, next) =>
      InChain(c, head, c.taken) && next != NULL && next == s.NextOf(head)
    case PopReloadNext(head) => InChain(c, head, c.taken - 1)
    case PopLoadData(el) => InChain(c, el, c.taken) && el != DUMMY
    case Crashed => false
    case _ => true
  }

  // An element not linked yet belongs to one pusher; only one pusher is between its CASes.
  predicate Exclusive(p: Pc, q: Pc) {
    && ((p.PushLoadTail? || p.PushCasNext?) && (q.PushLoadTail? || q.PushCasNext?) ==> p.el != q.el)
    && !(p.PushCasTail? && q.PushCasTail?)
  }

  ghost predicate Inv(s: State, c: Chain) {
    && Linked(s, c)
    && TailLags(s, c)
    && (forall t :: PcOk(s, c, s.PcOf(t)))
    && (forall t, u :: t != u ==> Exclusive(s.PcOf(t), s.PcOf(u)))
  }

  // The payloads of the elements still in the queue, oldest first.
  function Payloads(s: State, els: seq<Ptr>): (ds: seq<Data>)
    ensures |ds| == |els| && forall i :: 0 <= i < |els| ==> ds[i] == s.DataOf(els[i])
  {
    seq(|els|, i requires 0 <= i < |els| => s.DataOf(els[i]))
  }

  ghost predicate PhaseOk(s: State, pc: Pc, phase: Phase) {
    match pc
    case Idle => phase == Resting
    case PushLoadTail(el) => phase == Pending(Push(s.DataOf(el)))
    case PushCasNext(el, _) => phase == Pending(Push(s.DataOf(el)))
    case PushCasTail(_, _) => phase == Done(Pushed)
    case PopLoadHead => phase == Pending(Pop)
    case PopTestNext(_) => phase == Pending(Pop)
    case PopLoadNext(_) => phase == Pending(Pop)
    case PopCasHead(_, _) => phase == Pending(Pop)
    case PopReloadNext(head) => phase == Done(Popped(s.DataOf(s.NextOf(head))))
    case PopLoadData(el) => phase == Done(Popped(s.DataOf(el)))
    case Finished(r) => phase == Done(r)
    case Crashed => false
  }

  // The forward simulation between the implementation and the atomic FIFO.
  ghost predicate Simulates(s: State, c: Chain, f: Fifo) {
    && Inv(s, c)
    && f.items == Payloads(s, c.els[c.taken + 1..])
    && f.history == s.history
    && (forall t :: PhaseOk(s, s.PcOf(t), f.PhaseOf(t)))
  }

  // ---------------------------------------------------------------- proof, one event at a time

  // The heap before and after a fresh element is allocated behind it.
  ghost predicate Allocates(s: State, s': State) {
    && |s.heap| <= |s'.heap| && s'.heap[..|s.heap|] == s.heap && s'.head == s.head && s'.tail == s.tail
    && forall p: Ptr :: |s.heap| <= p < |s'.heap| ==> s'.heap[p].next == NULL
  }

  lemma AllocationReads(s: State, s': State, p: Ptr)
    requires Allocates(s, s')
    ensures s'.NextOf(p) == s.NextOf(p) && (s.IsElement(p) ==> s'.IsElement(p))
  {
    if p < |s.heap| { assert s'.heap[p] == s'.heap[..|s.heap|][p]; }
  }

  lemma AllocationKeepsLinked(s: State, s': State, c: Chain)
    requires Allocates(s, s') && Linked(s, c)
    ensures Linked(s', c)
  {
    forall p: Ptr
      ensures s'.NextOf(p) == s.NextOf(p) && (s.IsElement(p) ==> s'.IsElement(p))
    {
      AllocationReads(s, s', p);
    }
    hide Allocates;
  }

  lemma AllocationKeepsPc(s: State, s': State, c: Chain, pc: Pc)
    requires Allocates(s, s') && c.els != [] && PcOk(s, c, pc)
    ensures PcOk(s', c, pc)
  {
    forall p: Ptr
      ensures s'.NextOf(p) == s.NextOf(p) && (s.IsElement(p) ==> s'.IsElement(p))
    {
      AllocationReads(s, s', p);
    }
    assert s'.tail == s.tail;
    hide Allocates, InChain;
  }

  lemma EnterAllocates(s: State, t: Thread, op: Op)
    requires |s.heap| > 1
    ensures Allocates(s, Enter(s, t, op))
    ensures s.PcOf(t) == Idle && op.Push? ==>
      Enter(s, t, op).PcOf(t) == PushLoadTail(|s.heap|) && |Enter(s, t, op).heap| == |s.heap| + 1
    ensures s.PcOf(t) == Idle && op.Pop? ==> Enter(s, t, op).PcOf(t) == PopLoadHead
    ensures s.PcOf(t) != Idle ==> Enter(s, t, op) == s
    ensures forall u :: u != t ==> Enter(s, t, op).PcOf(u) == s.PcOf(u)
  {
  }

  lemma FreshIsDetached(s: State, s': State, c: Chain, el: Ptr)
    requires Linked(s, c) && Allocates(s, s') && |s.heap| <= el < |s'.heap|
    ensures Detached(s', c, el)
  {
    assert forall i :: 0 <= i < |c.els| ==> s.IsElement(c.els[i]);
  }

  // An element not linked yet is older than one just allocated.
  lemma OlderThanFresh(s: State, c: Chain, pc: Pc, el: Ptr, own: Pc)
    requires c.els != [] && PcOk(s, c, pc) && el >= |s.heap| && own == PushLoadTail(el)
    ensures Exclusive(own, pc) && Exclusive(pc, own)
  {
  }

  lemma InvParts(s: State, c: Chain, t: Thread, u: Thread)
    requires Inv(s, c)
    ensures Linked(s, c) && c.els != [] && TailLags(s, c) && PcOk(s, c, s.PcOf(t))
    ensures t != u ==> Exclusive(s.PcOf(t), s.PcOf(u))
  {
    hide PcOk, TailLags, Exclusive;
  }

  lemma InvFrom(s: State, c: Chain)
    requires Linked(s, c) && TailLags(s, c)
    requires forall t :: PcOk(s, c, s.PcOf(t))
    requires forall t, u :: t != u ==> Exclusive(s.PcOf(t), s.PcOf(u))
    ensures Inv(s, c)
  {
  }

  lemma LinkedIsNotEmpty(s: State, c: Chain)
    requires Linked(s, c)
    ensures c.els != [] && |s.heap| > 1
  {
  }

  lemma SameBetween(s: State, s': State, c: Chain)
    requires c.els != [] && TailLags(s, c) && s'.tail == s.tail && forall u :: Between(s', u) <==> Between(s, u)
    ensures TailLags(s', c)
  {
    hide Between;
  }

  lemma EnterKeepsPc(s: State, c: Chain, t: Thread, op: Op, u: Thread)
    requires Inv(s, c)
    ensures c.els != [] && PcOk(Enter(s, t, op), c, Enter(s, t, op).PcOf(u))
  {
    hide *;
    var s' := Enter(s, t, op);
    InvParts(s, c, u, u);
    LinkedIsNotEmpty(s, c);
    EnterAllocates(s, t, op);
    if u == t && s.PcOf(t) == Idle {
      if op.Push? { FreshIsDetached(s, s', c, |s.heap|); }
      EnteredPc(s', c, s'.PcOf(t));
    } else {
      AllocationKeepsPc(s, s', c, s.PcOf(u));
    }
  }

  lemma EnteredPc(s: State, c: Chain, pc: Pc)
    requires c.els != [] && (pc == PopLoadHead || (pc.PushLoadTail? && Detached(s, c, pc.el)))
    ensures PcOk(s, c, pc)
  {
  }

  lemma Harmless(p: Pc, q: Pc)
    requires p == PopLoadHead
    ensures Exclusive(p, q) && Exclusive(q, p)
  {
  }

  lemma EnterKeepsExclusive(s: State, c: Chain, t: Thread, op: Op, u: Thread, v: Thread)
    requires Inv(s, c) && u != v
    ensures Exclusive(Enter(s, t, op).PcOf(u), Enter(s, t, op).PcOf(v))
  {
    hide *;
    InvParts(s, c, u, v);
    InvParts(s, c, v, u);
    LinkedIsNotEmpty(s, c);
    EnterAllocates(s, t, op);
    if s.PcOf(t) == Idle && (u == t || v == t) {
      var w := if u == t then v else u;
      if op.Push? { OlderThanFresh(s, c, s.PcOf(w), |s.heap|, PushLoadTail(|s.heap|)); }
      else { Harmless(PopLoadHead, s.PcOf(w)); }
    }
  }

  lemma EnterKeepsBetween(s: State, t: Thread, op: Op)
    ensures forall u :: Between(Enter(s, t, op), u) <==> Between(s, u)
    ensures Enter(s, t, op).tail == s.tail
  {
  }

  lemma EnterKeepsInv(s: State, c: Chain, t: Thread, op: Op)
    requires Inv(s, c)
    ensures Inv(Enter(s, t, op), c)
  {
    hide *;
    var s' := Enter(s, t, op);
    InvParts(s, c, t, t);
    LinkedIsNotEmpty(s, c);
    EnterAllocates(s, t, op);
    AllocationKeepsLinked(s, s', c);
    EnterKeepsBetween(s, t, op);
    SameBetween(s, s', c);
    forall u
      ensures PcOk(s', c, s'.PcOf(u))
    {
      EnterKeepsPc(s, c, t, op, u);
    }
    forall u, v | u != v
      ensures Exclusive(s'.PcOf(u), s'.PcOf(v))
    {
      EnterKeepsExclusive(s, c, t, op, u, v);
    }
    InvFrom(s', c);
  }

  predicate SameMemory(s: State, s': State) {
    s'.heap == s.heap && s'.head == s.head && s'.tail == s.tail
  }

  lemma MemoryIsEnough(s: State, s': State, c: Chain, pc: Pc)
    requires SameMemory(s, s') && Linked(s, c) && PcOk(s, c, pc)
    ensures Linked(s', c) && PcOk(s', c, pc)
  {
    hide InChain;
  }

  lemma GotoIs(s: State, t: Thread, pc: Pc)
    ensures SameMemory(s, s.Goto(t, pc)) && s.Goto(t, pc).PcOf(t) == pc
    ensures forall u :: u != t ==> s.Goto(t, pc).PcOf(u) == s.PcOf(u)
  {
  }

  // When one thread moves on, the others keep their pc and what it depends on.
  lemma OneThreadMoves(s: State, s': State, c: Chain, c': Chain, t: Thread)
    requires Inv(s, c) && c'.els != [] && Linked(s', c') && TailLags(s', c') && PcOk(s', c', s'.PcOf(t))
    requires forall u :: u != t ==> s'.PcOf(u) == s.PcOf(u) && PcOk(s', c', s'.PcOf(u))
    requires forall u :: u != t ==> Exclusive(s'.PcOf(t), s.PcOf(u)) && Exclusive(s.PcOf(u), s'.PcOf(t))
    ensures Inv(s', c')
  {
    hide *;
    forall u
      ensures PcOk(s', c', s'.PcOf(u))
    {
    }
    forall u, v | u != v
      ensures Exclusive(s'.PcOf(u), s'.PcOf(v))
    {
      InvParts(s, c, u, v);
    }
    InvFrom(s', c');
  }

  lemma BetweenOnly(s: State, s': State, t: Thread)
    requires forall u :: u != t ==> s'.PcOf(u) == s.PcOf(u)
    requires s.PcOf(t).PushCasTail? <==> s'.PcOf(t).PushCasTail?
    ensures forall u :: Between(s', u) <==> Between(s, u)
  {
  }

  // Instructions that change neither memory nor the chain: only the thread's own pc matters.
  lemma PcOnly(s: State, c: Chain, t: Thread, pc: Pc)
    requires Inv(s, c)
    requires s.PcOf(t).PushCasTail? <==> pc.PushCasTail?
    requires c.els != [] && PcOk(s, c, pc)
    requires forall u :: u != t ==> Exclusive(pc, s.PcOf(u)) && Exclusive(s.PcOf(u), pc)
    ensures Inv(s.Goto(t, pc), c)
  {
    hide *;
    var s' := s.Goto(t, pc);
    GotoIs(s, t, pc);
    InvParts(s, c, t, t);
    MemoryIsEnough(s, s', c, pc);
    BetweenOnly(s, s', t);
    SameTail(s, s');
    SameBetween(s, s', c);
    forall u | u != t
      ensures PcOk(s', c, s'.PcOf(u))
    {
      InvParts(s, c, u, u);
      MemoryIsEnough(s, s', c, s.PcOf(u));
    }
    OneThreadMoves(s, s', c, c, t);
  }

  lemma SameTail(s: State, s': State)
    requires SameMemory(s, s')
    ensures s'.tail == s.tail
  {
  }

  // A link that is found set leads to the next element of the chain.
  lemma NextInChain(s: State, c: Chain, p: Ptr, i: nat)
    requires Linked(s, c) && i < |c.els| && c.els[i] == p
    ensures s.NextOf(p) == NULL <==> i == |c.els| - 1
    ensures s.NextOf(p) != NULL ==> c.els[i + 1] == s.NextOf(p)
  {
    if i < |c.els| - 1 {
      assert s.NextOf(c.els[i]) == c.els[i + 1];
    }
  }

  // First CAS of queue_push: it can only succeed on the last element, which is the tail.
  lemma LinkFindsTheEnd(s: State, c: Chain, el: Ptr, tail: Ptr)
    requires Linked(s, c) && PcOk(s, c, PushCasNext(el, tail)) && s.NextOf(tail) == NULL
    ensures tail == s.tail == c.els[|c.els| - 1] && s.IsElement(tail) && Detached(s, c, el)
  {
    var i :| 0 <= i < |c.els| && i <= TailIndex(s, c) && c.els[i] == tail;
    NextInChain(s, c, tail, i);
    assert s.IsElement(c.els[i]);
  }

  lemma NobodyBetween(s: State, c: Chain)
    requires Linked(s, c) && TailLags(s, c) && s.tail == c.els[|c.els| - 1]
    ensures forall u :: !Between(s, u)
  {
    hide Between;
  }

  lemma LinkHitsTheTail(s: State, c: Chain, t: Thread, el: Ptr, tail: Ptr)
    requires Inv(s, c)
    requires s.PcOf(t) == PushCasNext(el, tail) && s.NextOf(tail) == NULL
    ensures c.els != [] && s.IsElement(tail) && tail == s.tail == c.els[|c.els| - 1] && Detached(s, c, el)
    ensures forall u :: !Between(s, u)
  {
    hide *;
    InvParts(s, c, t, t);
    LinkFindsTheEnd(s, c, el, tail);
    NobodyBetween(s, c);
  }

  // The memory after the first CAS has set the link of the last element.
  ghost predicate Links(s: State, s': State, c: Chain, el: Ptr, tail: Ptr) {
    && c.els != [] && tail == s.tail == s'.tail == c.els[|c.els| - 1] && s'.head == s.head
    && s.IsElement(tail) && s.NextOf(tail) == NULL && Detached(s, c, el)
    && s'.heap == s.heap[tail := s.heap[tail].(next := el)]
  }

  lemma LinkIs(s: State, c: Chain, t: Thread, el: Ptr, tail: Ptr)
    requires s.PcOf(t) == PushCasNext(el, tail) && s.IsElement(tail) && s.NextOf(tail) == NULL && c.els != []
    requires tail == s.tail == c.els[|c.els| - 1] && Detached(s, c, el)
    ensures Links(s, Execute(s, t), c, el, tail) && Execute(s, t).PcOf(t) == PushCasTail(el, tail)
    ensures forall u :: u != t ==> Execute(s, t).PcOf(u) == s.PcOf(u)
  {
  }

  lemma LinkExtendsChain(s: State, s': State, c: Chain, el: Ptr, tail: Ptr)
    requires Linked(s, c) && Links(s, s', c, el, tail)
    ensures Linked(s', c.(els := c.els + [el]))
  {
  }

  lemma LinkLags(s: State, s': State, c: Chain, el: Ptr, tail: Ptr, t: Thread)
    requires Links(s, s', c, el, tail) && s'.PcOf(t) == PushCasTail(el, tail)
    ensures TailLags(s', c.(els := c.els + [el])) && PcOk(s', c.(els := c.els + [el]), PushCasTail(el, tail))
  {
    assert Between(s', t);
  }

  lemma LinkKeepsOther(s: State, s': State, c: Chain, el: Ptr, tail: Ptr, pc: Pc)
    requires Links(s, s', c, el, tail)
    requires PcOk(s, c, pc) && !pc.PushCasTail? && Exclusive(PushCasNext(el, tail), pc)
    ensures PcOk(s', c.(els := c.els + [el]), pc)
  {
    ChainGrows(c, el);
    hide InChain;
  }

  lemma ChainGrows(c: Chain, el: Ptr)
    ensures forall p, n :: InChain(c, p, n) ==> InChain(c.(els := c.els + [el]), p, n)
  {
    forall p, n | InChain(c, p, n) ensures InChain(c.(els := c.els + [el]), p, n) {
      var i :| 0 <= i < |c.els| && i <= n && c.els[i] == p;
      assert (c.els + [el])[i] == p;
    }
  }

  lemma LinkedExcludes(el: Ptr, tail: Ptr, pc: Pc)
    requires Exclusive(PushCasNext(el, tail), pc) && !pc.PushCasTail?
    ensures Exclusive(PushCasTail(el, tail), pc) && Exclusive(pc, PushCasTail(el, tail))
  {
  }

  lemma NotBetween(s: State, u: Thread)
    requires !Between(s, u)
    ensures !s.PcOf(u).PushCasTail?
  {
  }

  lemma LinkKeepsInv(s: State, c: Chain, t: Thread, el: Ptr, tail: Ptr)
    requires Inv(s, c)
    requires s.PcOf(t) == PushCasNext(el, tail) && s.NextOf(tail) == NULL
    ensures Inv(Execute(s, t), c.(els := c.els + [el]))
  {
    hide *;
    InvParts(s, c, t, t);
    LinkHitsTheTail(s, c, t, el, tail);
    LinkIs(s, c, t, el, tail);
    var s', c' := Execute(s, t), c.(els := c.els + [el]);
    LinkExtendsChain(s, s', c, el, tail);
    LinkLags(s, s', c, el, tail, t);
    forall u | u != t
      ensures PcOk(s', c', s'.PcOf(u)) && Exclusive(s'.PcOf(t), s.PcOf(u)) && Exclusive(s.PcOf(u), s'.PcOf(t))
    {
      InvParts(s, c, u, u);
      InvParts(s, c, t, u);
      NotBetween(s, u);
      LinkKeepsOther(s, s', c, el, tail, s.PcOf(u));
      LinkedExcludes(el, tail, s.PcOf(u));
    }
    OneThreadMoves(s, s', c, c', t);
  }

  lemma SwingIs(s: State, t: Thread, el: Ptr, tail: Ptr)
    requires s.PcOf(t) == PushCasTail(el, tail) && s.tail == tail
    ensures Execute(s, t) == s.(tail := el).Goto(t, Finished(Pushed))
    ensures Execute(s, t).heap == s.heap && Execute(s, t).head == s.head && Execute(s, t).tail == el
    ensures Execute(s, t).PcOf(t) == Finished(Pushed) && forall u :: u != t ==> Execute(s, t).PcOf(u) == s.PcOf(u)
  {
  }

  lemma SwingFindsTheTail(s: State, c: Chain, el: Ptr, tail: Ptr)
    requires c.els != [] && PcOk(s, c, PushCasTail(el, tail))
    ensures s.tail == tail && el == c.els[|c.els| - 1] && |c.els| >= 2 && tail == c.els[|c.els| - 2]
  {
  }

  lemma SwingKeepsLinked(s: State, s': State, c: Chain)
    requires Linked(s, c) && s'.heap == s.heap && s'.head == s.head
    ensures Linked(s', c)
  {
  }

  // The tail has moved from the last but one element to the last.
  lemma SwingKeepsOther(s: State, s': State, c: Chain, el: Ptr, tail: Ptr, pc: Pc)
    requires |c.els| >= 2 && el == c.els[|c.els| - 1] && s'.tail == el && s'.heap == s.heap && s'.head == s.head
    requires PcOk(s, c, pc) && Exclusive(PushCasTail(el, tail), pc)
    ensures PcOk(s', c, pc) && !pc.PushCasTail?
  {
    ReachesFurther(c, TailIndex(s, c), TailIndex(s', c));
    hide InChain;
  }

  lemma ReachesFurther(c: Chain, m: int, n: int)
    requires m <= n
    ensures forall p :: InChain(c, p, m) ==> InChain(c, p, n)
  {
  }

  lemma TailIsLast(s: State, c: Chain)
    requires c.els != [] && s.tail == c.els[|c.els| - 1] && forall u :: !s.PcOf(u).PushCasTail?
    ensures TailLags(s, c)
  {
  }

  lemma FinishedIsFree(s: State, c: Chain, r: Result, q: Pc)
    requires c.els != []
    ensures PcOk(s, c, Finished(r)) && Exclusive(Finished(r), q) && Exclusive(q, Finished(r))
  {
  }

  // Second CAS of queue_push: it always succeeds and brings the tail up to date.
  lemma SwingKeepsInv(s: State, c: Chain, t: Thread, el: Ptr, tail: Ptr)
    requires Inv(s, c) && s.PcOf(t) == PushCasTail(el, tail)
    ensures Execute(s, t) == s.(tail := el).Goto(t, Finished(Pushed))
    ensures Inv(Execute(s, t), c)
  {
    hide *;
    var s' := Execute(s, t);
    InvParts(s, c, t, t);
    SwingFindsTheTail(s, c, el, tail);
    SwingIs(s, t, el, tail);
    SwingKeepsLinked(s, s', c);
    FinishedIsFree(s', c, Pushed, Idle);
    forall u | u != t
      ensures PcOk(s', c, s'.PcOf(u)) && !s'.PcOf(u).PushCasTail?
      ensures Exclusive(s'.PcOf(t), s.PcOf(u)) && Exclusive(s.PcOf(u), s'.PcOf(t))
    {
      InvParts(s, c, u, u);
      InvParts(s, c, t, u);
      SwingKeepsOther(s, s', c, el, tail, s.PcOf(u));
      FinishedIsFree(s', c, Pushed, s.PcOf(u));
    }
    TailIsLast(s', c);
    OneThreadMoves(s, s', c, c, t);
  }

  // CAS of queue_pop: the head moves to the very next element of the chain.
  lemma TakeFindsTheOldest(s: State, c: Chain, head: Ptr, next: Ptr)
    requires Linked(s, c) && PcOk(s, c, PopCasHead(head, next)) && s.head == head
    ensures c.taken + 1 < |c.els| && next == c.els[c.taken + 1] == s.NextOf(head) && head == c.els[c.taken]
  {
    NextInChain(s, c, head, c.taken);
  }

  lemma TakeIs(s: State, t: Thread, head: Ptr, next: Ptr)
    requires s.PcOf(t) == PopCasHead(head, next) && s.head == head
    ensures Execute(s, t).heap == s.heap && Execute(s, t).tail == s.tail && Execute(s, t).head == next
    ensures Execute(s, t).PcOf(t) == PopReloadNext(head) && forall u :: u != t ==> Execute(s, t).PcOf(u) == s.PcOf(u)
  {
  }

  lemma TakeKeepsLinked(s: State, s': State, c: Chain)
    requires Linked(s, c) && s'.heap == s.heap && c.taken + 1 < |c.els| && s'.head == c.els[c.taken + 1]
    ensures Linked(s', c.(taken := c.taken + 1))
  {
  }

  lemma TakeKeepsPc(s: State, s': State, c: Chain, pc: Pc)
    requires c.els != [] && s'.heap == s.heap && s'.tail == s.tail && PcOk(s, c, pc)
    ensures PcOk(s', c.(taken := c.taken + 1), pc)
  {
    var c' := c.(taken := c.taken + 1);
    forall p, m, n | m <= n && InChain(c, p, m)
      ensures InChain(c', p, n)
    {
    }
    hide InChain;
  }

  lemma TakenIsReloaded(s: State, c: Chain, head: Ptr, q: Pc)
    requires 0 < c.taken < |c.els| && c.els[c.taken - 1] == head
    ensures PcOk(s, c, PopReloadNext(head)) && Exclusive(PopReloadNext(head), q) && Exclusive(q, PopReloadNext(head))
  {
  }

  lemma TakeKeepsTail(s: State, s': State, c: Chain)
    requires c.els != [] && TailLags(s, c) && s'.tail == s.tail && forall u :: Between(s', u) <==> Between(s, u)
    ensures TailLags(s', c.(taken := c.taken + 1))
  {
    hide Between;
  }

  lemma TakeKeepsInv(s: State, c: Chain, t: Thread, head: Ptr, next: Ptr)
    requires Inv(s, c) && s.PcOf(t) == PopCasHead(head, next) && s.head == head
    ensures c.taken + 1 < |c.els| && next == c.els[c.taken + 1] == s.NextOf(head)
    ensures Inv(Execute(s, t), c.(taken := c.taken + 1))
  {
    hide *;
    var s', c' := Execute(s, t), c.(taken := c.taken + 1);
    InvParts(s, c, t, t);
    TakeFindsTheOldest(s, c, head, next);
    TakeIs(s, t, head, next);
    TakeKeepsLinked(s, s', c);
    BetweenOnly(s, s', t);
    TakeKeepsTail(s, s', c);
    TakenIsReloaded(s', c', head, Idle);
    forall u | u != t
      ensures PcOk(s', c', s'.PcOf(u))
      ensures Exclusive(s'.PcOf(t), s.PcOf(u)) && Exclusive(s.PcOf(u), s'.PcOf(t))
    {
      InvParts(s, c, u, u);
      TakeKeepsPc(s, s', c, s.PcOf(u));
      TakenIsReloaded(s', c', head, s.PcOf(u));
    }
    OneThreadMoves(s, s', c, c', t);
  }

  lemma HistoryIsNotRead(s: State, c: Chain, history: seq<Observation>)
    requires Inv(s, c)
    ensures Inv(s.(history := history), c)
  {
    hide *;
    var s' := s.(history := history);
    HistoryOnly(s, history);
    InvParts(s, c, 0, 0);
    SameBetween(s, s', c);
    forall u
      ensures Linked(s', c) && PcOk(s', c, s'.PcOf(u))
    {
      InvParts(s, c, u, u);
      MemoryIsEnough(s, s', c, s.PcOf(u));
    }
    assert Linked(s', c) && PcOk(s', c, s'.PcOf(0));
    forall u, v | u != v
      ensures Exclusive(s'.PcOf(u), s'.PcOf(v))
    {
      InvParts(s, c, u, v);
    }
    InvFrom(s', c);
  }

  lemma HistoryOnly(s: State, history: seq<Observation>)
    ensures SameMemory(s, s.(history := history)) && s.(history := history).tail == s.tail
    ensures forall u :: s.(history := history).PcOf(u) == s.PcOf(u)
    ensures forall u :: Between(s.(history := history), u) <==> Between(s, u)
  {
  }

  lemma PushKeepsInv(s: State, c: Chain, t: Thread)
    requires Inv(s, c)
    requires s.PcOf(t).PushLoadTail? || s.PcOf(t).PushCasNext? || s.PcOf(t).PushCasTail?
    ensures Inv(Execute(s, t), ChainNext(s, c, Step(t)))
  {
    var pc := s.PcOf(t);
    assert PcOk(s, c, pc);
    assert forall u :: u != t ==> Exclusive(pc, s.PcOf(u)) && Exclusive(s.PcOf(u), pc);
    match pc
    case PushLoadTail(el) =>
      assert c.els[TailIndex(s, c)] == s.tail;
      PcOnly(s, c, t, PushCasNext(el, s.tail));
    case PushCasNext(el, tail) =>
      if s.NextOf(tail) == NULL { LinkKeepsInv(s, c, t, el, tail); }
      else { PcOnly(s, c, t, PushLoadTail(el)); }
    case PushCasTail(el, tail) => SwingKeepsInv(s, c, t, el, tail);
  }

  // The instructions of queue_pop before the CAS, and the two loads after it.
  lemma PopKeepsInv(s: State, c: Chain, t: Thread)
    requires Inv(s, c)
    requires s.PcOf(t).PopTestNext? || s.PcOf(t).PopLoadNext? || s.PcOf(t).PopReloadNext? || s.PcOf(t).PopLoadData?
    ensures Inv(Execute(s, t), c)
  {
    var pc := s.PcOf(t);
    assert PcOk(s, c, pc);
    match pc
    case PopTestNext(head) =>
      PcOnly(s, c, t, if s.NextOf(head) == NULL then Finished(Empty) else PopLoadNext(head));
    case PopLoadNext(head) => PcOnly(s, c, t, PopCasHead(head, s.NextOf(head)));
    case PopReloadNext(head) =>
      var i :| 0 <= i < |c.els| && i <= c.taken - 1 && c.els[i] == head;
      NextInChain(s, c, head, i);
      assert c.els[i + 1] != c.els[0];
      PcOnly(s, c, t, PopLoadData(s.NextOf(head)));
    case PopLoadData(el) => PcOnly(s, c, t, Finished(Popped(s.DataOf(el))));
  }

  lemma ExecuteKeepsInv(s: State, c: Chain, t: Thread)
    requires Inv(s, c)
    ensures Inv(Execute(s, t), ChainNext(s, c, Step(t)))
  {
    var pc := s.PcOf(t);
    assert PcOk(s, c, pc);
    if pc.PushLoadTail? || pc.PushCasNext? || pc.PushCasTail? { PushKeepsInv(s, c, t); }
    else if pc.PopTestNext? || pc.PopLoadNext? || pc.PopReloadNext? || pc.PopLoadData? { PopKeepsInv(s, c, t); }
    else if pc.PopLoadHead? { PcOnly(s, c, t, PopTestNext(s.head)); }
    else if pc.PopCasHead? && s.head == pc.head { TakeKeepsInv(s, c, t, pc.head, pc.next); }
    else if pc.PopCasHead? { PcOnly(s, c, t, PopLoadHead); }
    else if pc.Finished? {
      PcOnly(s, c, t, Idle);
      HistoryIsNotRead(s.Goto(t, Idle), c, s.history + [Responded(t, pc.result)]);
    }
  }

  lemma NextKeepsInv(s: State, c: Chain, e: Event)
    requires Inv(s, c)
    ensures Inv(Next(s, e), ChainNext(s, c, e))
  {
    match e
    case Call(t, op) => EnterKeepsInv(s, c, t, op);
    case Step(t) => ExecuteKeepsInv(s, c, t);
  }

  // Payloads never change, and a link once set stays set.
  ghost predicate Extends(s: State, s': State) {
    && |s.heap| <= |s'.heap|
    && (forall p: Ptr :: p < |s.heap| ==> s'.DataOf(p) == s.DataOf(p))
    && (forall p: Ptr :: p < |s.heap| && s.NextOf(p) != NULL ==> s'.NextOf(p) == s.NextOf(p))
  }

  lemma MemoryGrows(s: State, e: Event)
    requires e.Step? && s.PcOf(e.thread).PushCasNext? ==> s.IsElement(s.PcOf(e.thread).tail)
    ensures Extends(s, Next(s, e))
  {
  }

  // Every element a thread still depends on is allocated.
  predicate Rooted(s: State, pc: Pc) {
    match pc
    case PushLoadTail(el) => s.IsElement(el)
    case PushCasNext(el, tail) => s.IsElement(el) && s.IsElement(tail)
    case PopTestNext(head) => s.IsElement(head)
    case PopLoadNext(head) => s.IsElement(head)
    case PopReloadNext(head) => s.IsElement(head) && s.IsElement(s.NextOf(head))
    case PopLoadData(el) => s.IsElement(el)
    case _ => true
  }

  lemma PcIsRooted(s: State, c: Chain, t: Thread)
    requires Inv(s, c)
    ensures Rooted(s, s.PcOf(t))
  {
    assert PcOk(s, c, s.PcOf(t));
    if s.PcOf(t).PopReloadNext? {
      var head := s.PcOf(t).head;
      var i :| 0 <= i < |c.els| && i <= c.taken - 1 && c.els[i] == head;
      NextInChain(s, c, head, i);
      assert s.IsElement(c.els[i + 1]);
    }
  }

  lemma OthersKeepPhase(s: State, s': State, pc: Pc, phase: Phase)
    requires Extends(s, s') && Rooted(s, pc) && PhaseOk(s, pc, phase)
    ensures PhaseOk(s', pc, phase)
  {
  }

  function FifoAfter(s: State, f: Fifo, e: Event): Fifo {
    if Linearize(s, e) == [] then f else FifoNext(f, Linearize(s, e)[0])
  }

  // Reading a NULL successor means that the head has taken everything.
  lemma NullFindsItEmpty(s: State, c: Chain, head: Ptr)
    requires Linked(s, c) && PcOk(s, c, PopTestNext(head))
    ensures s.IsElement(head)
    ensures s.NextOf(head) == NULL ==> c.taken == |c.els| - 1
  {
    var i :| 0 <= i < |c.els| && i <= c.taken && c.els[i] == head;
    NextInChain(s, c, head, i);
    assert s.IsElement(c.els[i]);
  }

  // The acting thread and the items, for each of the instructions that act on the FIFO.
  ghost predicate Ready(s: State, c: Chain, f: Fifo, t: Thread) {
    && Linked(s, c) && Rooted(s, s.PcOf(t))
    && PcOk(s, c, s.PcOf(t)) && PhaseOk(s, s.PcOf(t), f.PhaseOf(t))
    && f.items == Payloads(s, c.els[c.taken + 1..])
  }

  ghost predicate Follows(s: State, c: Chain, f: Fifo, t: Thread) {
    && c.taken < |c.els|
    && PhaseOk(s, s.PcOf(t), f.PhaseOf(t))
    && f.items == Payloads(s, c.els[c.taken + 1..])
  }

  lemma ReadyParts(s: State, c: Chain, f: Fifo, t: Thread)
    requires Ready(s, c, f, t)
    ensures Linked(s, c) && c.els != [] && c.taken < |c.els| && Rooted(s, s.PcOf(t)) && PcOk(s, c, s.PcOf(t))
    ensures PhaseOk(s, s.PcOf(t), f.PhaseOf(t)) && f.items == Payloads(s, c.els[c.taken + 1..])
  {
    hide Rooted, PcOk, PhaseOk;
  }

  lemma PushPhase(s: State, pc: Pc, phase: Phase)
    requires PhaseOk(s, pc, phase) && pc.PushCasNext?
    ensures phase.Pending? && phase.op == Push(s.DataOf(pc.el))
  {
  }

  lemma FollowsFrom(s: State, c: Chain, f: Fifo, t: Thread)
    requires c.taken < |c.els| && PhaseOk(s, s.PcOf(t), f.PhaseOf(t)) && f.items == Payloads(s, c.els[c.taken + 1..])
    ensures Follows(s, c, f, t)
  {
  }

  lemma ItemsGrow(s: State, s': State, c: Chain, el: Ptr, items: seq<Data>)
    requires Extends(s, s') && c.taken < |c.els| && items == Payloads(s, c.els[c.taken + 1..]) && s.IsElement(el)
    requires forall i :: 0 <= i < |c.els| ==> s.IsElement(c.els[i])
    ensures items + [s.DataOf(el)] == Payloads(s', (c.els + [el])[c.taken + 1..])
  {
    var rest := c.els[c.taken + 1..];
    assert (c.els + [el])[c.taken + 1..] == rest + [el];
    PayloadsStay(s, s', rest + [el]);
  }

  lemma ChainIsAllocated(s: State, c: Chain)
    requires Linked(s, c)
    ensures forall i :: 0 <= i < |c.els| ==> s.IsElement(c.els[i])
  {
  }

  lemma PushedPhase(s: State, pc: Pc)
    requires pc.PushCasTail?
    ensures PhaseOk(s, pc, Done(Pushed))
  {
  }

  lemma LinkSimulates(s: State, c: Chain, f: Fifo, t: Thread)
    requires Ready(s, c, f, t) && s.PcOf(t).PushCasNext? && s.NextOf(s.PcOf(t).tail) == NULL
    ensures Follows(Execute(s, t), ChainNext(s, c, Step(t)), FifoAfter(s, f, Step(t)), t)
  {
    hide *;
    var el, tail := s.PcOf(t).el, s.PcOf(t).tail;
    ReadyParts(s, c, f, t);
    LinkFindsTheEnd(s, c, el, tail);
    PushPhase(s, s.PcOf(t), f.PhaseOf(t));
    LinkUnfolds(s, c, f, t);
    StepGrows(s, t);
    ChainIsAllocated(s, c);
    DetachedIsAllocated(s, c, el);
    ItemsGrow(s, Execute(s, t), c, el, f.items);
    PushedPhase(Execute(s, t), Execute(s, t).PcOf(t));
    FollowsFrom(Execute(s, t), ChainNext(s, c, Step(t)), FifoAfter(s, f, Step(t)), t);
  }

  lemma DetachedIsAllocated(s: State, c: Chain, el: Ptr)
    requires Detached(s, c, el)
    ensures s.IsElement(el)
  {
  }

  lemma StepGrows(s: State, t: Thread)
    requires s.PcOf(t).PushCasNext? ==> s.IsElement(s.PcOf(t).tail)
    ensures Extends(s, Execute(s, t))
  {
    MemoryGrows(s, Step(t));
    hide Extends, Execute;
  }

  // A first CAS that fails changes nothing but the thread's own pc.
  lemma LinkFails(s: State, c: Chain, f: Fifo, t: Thread)
    requires Ready(s, c, f, t) && s.PcOf(t).PushCasNext? && s.NextOf(s.PcOf(t).tail) != NULL
    ensures Follows(Execute(s, t), ChainNext(s, c, Step(t)), FifoAfter(s, f, Step(t)), t)
  {
    hide *;
    ReadyParts(s, c, f, t);
    RootedTail(s, s.PcOf(t));
    LinkFailsIs(s, c, f, t);
    PushPhase(s, s.PcOf(t), f.PhaseOf(t));
    SamePayloads(s, Execute(s, t), c.els[c.taken + 1..]);
    RetryPhase(Execute(s, t), Execute(s, t).PcOf(t), s.PcOf(t).el);
    FollowsFrom(Execute(s, t), c, f, t);
  }

  lemma RootedTail(s: State, pc: Pc)
    requires Rooted(s, pc) && pc.PushCasNext?
    ensures s.IsElement(pc.tail)
  {
  }

  lemma LinkFailsIs(s: State, c: Chain, f: Fifo, t: Thread)
    requires s.PcOf(t).PushCasNext? && s.IsElement(s.PcOf(t).tail) && s.NextOf(s.PcOf(t).tail) != NULL
    ensures Execute(s, t).PcOf(t) == PushLoadTail(s.PcOf(t).el) && Execute(s, t).heap == s.heap
    ensures ChainNext(s, c, Step(t)) == c && FifoAfter(s, f, Step(t)) == f
    ensures Execute(s, t).DataOf(s.PcOf(t).el) == s.DataOf(s.PcOf(t).el)
  {
  }

  lemma RetryPhase(s: State, pc: Pc, el: Ptr)
    requires pc == PushLoadTail(el)
    ensures PhaseOk(s, pc, Pending(Push(s.DataOf(el))))
  {
  }

  lemma SamePayloads(s: State, s': State, els: seq<Ptr>)
    requires s'.heap == s.heap
    ensures Payloads(s', els) == Payloads(s, els)
  {
  }

  lemma LinkUnfolds(s: State, c: Chain, f: Fifo, t: Thread)
    requires s.PcOf(t).PushCasNext? && s.IsElement(s.PcOf(t).tail) && s.NextOf(s.PcOf(t).tail) == NULL
    requires f.PhaseOf(t).Pending? && f.PhaseOf(t).op.Push?
    ensures Execute(s, t).PcOf(t) == PushCasTail(s.PcOf(t).el, s.PcOf(t).tail)
    ensures ChainNext(s, c, Step(t)) == c.(els := c.els + [s.PcOf(t).el])
    ensures FifoAfter(s, f, Step(t)).items == f.items + [f.PhaseOf(t).op.data]
    ensures FifoAfter(s, f, Step(t)).PhaseOf(t) == Done(Pushed)
  {
  }

  lemma PopPhase(s: State, pc: Pc, phase: Phase)
    requires PhaseOk(s, pc, phase) && (pc.PopTestNext? || pc.PopCasHead?)
    ensures phase == Pending(Pop)
  {
  }

  lemma TestIs(s: State, c: Chain, f: Fifo, t: Thread)
    requires s.PcOf(t).PopTestNext? && s.IsElement(s.PcOf(t).head) && f.PhaseOf(t) == Pending(Pop)
    requires s.NextOf(s.PcOf(t).head) == NULL ==> f.items == []
    ensures Execute(s, t).heap == s.heap && ChainNext(s, c, Step(t)) == c && FifoAfter(s, f, Step(t)).items == f.items
    ensures PhaseOk(Execute(s, t), Execute(s, t).PcOf(t), FifoAfter(s, f, Step(t)).PhaseOf(t))
  {
  }

  lemma TestSimulates(s: State, c: Chain, f: Fifo, t: Thread)
    requires Ready(s, c, f, t) && s.PcOf(t).PopTestNext?
    ensures Follows(Execute(s, t), ChainNext(s, c, Step(t)), FifoAfter(s, f, Step(t)), t)
  {
    hide *;
    ReadyParts(s, c, f, t);
    PopPhase(s, s.PcOf(t), f.PhaseOf(t));
    TestedPc(s, c, t);
    NullFindsItEmpty(s, c, s.PcOf(t).head);
    TestIs(s, c, f, t);
    SamePayloads(s, Execute(s, t), c.els[c.taken + 1..]);
    FollowsFrom(Execute(s, t), ChainNext(s, c, Step(t)), FifoAfter(s, f, Step(t)), t);
  }

  lemma TestedPc(s: State, c: Chain, t: Thread)
    requires c.els != [] && PcOk(s, c, s.PcOf(t)) && s.PcOf(t).PopTestNext?
    ensures PcOk(s, c, PopTestNext(s.PcOf(t).head))
  {
  }

  lemma TakeSimulates(s: State, c: Chain, f: Fifo, t: Thread)
    requires Ready(s, c, f, t) && s.PcOf(t).PopCasHead? && s.head == s.PcOf(t).head
    ensures Follows(Execute(s, t), ChainNext(s, c, Step(t)), FifoAfter(s, f, Step(t)), t)
  {
    hide *;
    var head, next := s.PcOf(t).head, s.PcOf(t).next;
    assert s.PcOf(t) == PopCasHead(head, next);
    ReadyParts(s, c, f, t);
    PopPhase(s, s.PcOf(t), f.PhaseOf(t));
    TakeFindsTheOldest(s, c, head, next);
    TakeItem(s, c, f.items, next);
    TakeUnfolds(s, c, f, t);
    TakeIs(s, t, head, next);
    SamePayloads(s, Execute(s, t), c.els[c.taken + 2..]);
    TakenPhase(s, Execute(s, t), head);
    FollowsFrom(Execute(s, t), ChainNext(s, c, Step(t)), FifoAfter(s, f, Step(t)), t);
  }

  lemma TakenPhase(s: State, s': State, head: Ptr)
    requires s'.heap == s.heap
    ensures PhaseOk(s', PopReloadNext(head), Done(Popped(s.DataOf(s.NextOf(head)))))
  {
  }

  lemma TakeFails(s: State, c: Chain, f: Fifo, t: Thread)
    requires Ready(s, c, f, t) && s.PcOf(t).PopCasHead? && s.head != s.PcOf(t).head
    ensures Follows(Execute(s, t), ChainNext(s, c, Step(t)), FifoAfter(s, f, Step(t)), t)
  {
    hide *;
    ReadyParts(s, c, f, t);
    PopPhase(s, s.PcOf(t), f.PhaseOf(t));
    TakeFailsIs(s, c, f, t);
    SamePayloads(s, Execute(s, t), c.els[c.taken + 1..]);
    FollowsFrom(Execute(s, t), c, f, t);
  }

  lemma TakeFailsIs(s: State, c: Chain, f: Fifo, t: Thread)
    requires s.PcOf(t).PopCasHead? && s.head != s.PcOf(t).head && f.PhaseOf(t) == Pending(Pop)
    ensures Execute(s, t).heap == s.heap && ChainNext(s, c, Step(t)) == c && FifoAfter(s, f, Step(t)) == f
    ensures PhaseOk(Execute(s, t), Execute(s, t).PcOf(t), f.PhaseOf(t))
  {
  }

  lemma TakeItem(s: State, c: Chain, items: seq<Data>, next: Ptr)
    requires c.taken + 1 < |c.els| && c.els[c.taken + 1] == next
    requires items == Payloads(s, c.els[c.taken + 1..])
    ensures items != [] && items[0] == s.DataOf(next) && items[1..] == Payloads(s, c.els[c.taken + 2..])
  {
    assert c.els[c.taken + 1..] == [next] + c.els[c.taken + 2..];
  }

  lemma TakeUnfolds(s: State, c: Chain, f: Fifo, t: Thread)
    requires s.PcOf(t).PopCasHead? && s.head == s.PcOf(t).head
    requires f.PhaseOf(t) == Pending(Pop) && f.items != []
    ensures ChainNext(s, c, Step(t)) == c.(taken := c.taken + 1)
    ensures FifoAfter(s, f, Step(t)).items == f.items[1..]
    ensures FifoAfter(s, f, Step(t)).PhaseOf(t) == Done(Popped(f.items[0]))
  {
  }

  lemma PayloadsStay(s: State, s': State, els: seq<Ptr>)
    requires Extends(s, s') && forall i :: 0 <= i < |els| ==> s.IsElement(els[i])
    ensures Payloads(s', els) == Payloads(s, els)
  {
  }

  // The instructions that have no effect on the FIFO.
  lemma SilentSimulates(s: State, f: Fifo, e: Event)
    requires PhaseOk(s, s.PcOf(e.thread), f.PhaseOf(e.thread)) && Rooted(s, s.PcOf(e.thread))
    requires e.Step? ==> !s.PcOf(e.thread).PushCasNext? && !s.PcOf(e.thread).PopTestNext?
    requires e.Step? ==> !s.PcOf(e.thread).PopCasHead?
    requires e.Step? && s.PcOf(e.thread).PushCasTail? ==> s.tail == s.PcOf(e.thread).tail
    ensures PhaseOk(Next(s, e), Next(s, e).PcOf(e.thread), FifoAfter(s, f, e).PhaseOf(e.thread))
    ensures FifoAfter(s, f, e).items == f.items
  {
  }

  lemma HistoriesAgree(s: State, f: Fifo, e: Event)
    requires f.history == s.history && PhaseOk(s, s.PcOf(e.thread), f.PhaseOf(e.thread))
    ensures FifoAfter(s, f, e).history == Next(s, e).history
    ensures forall u :: u != e.thread ==> FifoAfter(s, f, e).PhaseOf(u) == f.PhaseOf(u)
    ensures forall u :: u != e.thread ==> Next(s, e).PcOf(u) == s.PcOf(u)
  {
  }

  // What the invariant and the simulation say of one thread.
  lemma AtThread(s: State, c: Chain, f: Fifo, t: Thread)
    requires Simulates(s, c, f)
    ensures Linked(s, c) && PcOk(s, c, s.PcOf(t)) && Rooted(s, s.PcOf(t)) && PhaseOk(s, s.PcOf(t), f.PhaseOf(t))
    ensures f.items == Payloads(s, c.els[c.taken + 1..]) && f.history == s.history
    ensures forall i :: 0 <= i < |c.els| ==> s.IsElement(c.els[i])
  {
    PcIsRooted(s, c, t);
  }

  // At most one atomic FIFO action accounts for one instruction.
  lemma StepSimulates(s: State, c: Chain, f: Fifo, e: Event)
    requires Simulates(s, c, f)
    ensures Simulates(Next(s, e), ChainNext(s, c, e), FifoAfter(s, f, e))
  {
    assert Inv(s, c);
    NextKeepsInv(s, c, e);
    AtThread(s, c, f, e.thread);
    HistoriesAgree(s, f, e);
    OwnFollows(s, c, f, e);
    forall u | u != e.thread ensures PhaseOk(Next(s, e), Next(s, e).PcOf(u), FifoAfter(s, f, e).PhaseOf(u)) {
      AtThread(s, c, f, u);
      MemoryGrows(s, e);
      OthersKeepPhase(s, Next(s, e), s.PcOf(u), f.PhaseOf(u));
    }
    hide Inv, PhaseOk, Next, ChainNext, FifoAfter;
  }

  lemma OwnFollows(s: State, c: Chain, f: Fifo, e: Event)
    requires Ready(s, c, f, e.thread)
    requires forall i :: 0 <= i < |c.els| ==> s.IsElement(c.els[i])
    ensures Follows(Next(s, e), ChainNext(s, c, e), FifoAfter(s, f, e), e.thread)
  {
    var t := e.thread;
    if e.Step? && s.PcOf(t).PushCasNext? {
      if s.NextOf(s.PcOf(t).tail) == NULL { LinkSimulates(s, c, f, t); } else { LinkFails(s, c, f, t); }
    } else if e.Step? && s.PcOf(t).PopTestNext? {
      TestSimulates(s, c, f, t);
    } else if e.Step? && s.PcOf(t).PopCasHead? {
      if s.head == s.PcOf(t).head { TakeSimulates(s, c, f, t); } else { TakeFails(s, c, f, t); }
    } else {
      SilentSimulates(s, f, e);
      MemoryGrows(s, e);
      PayloadsStay(s, Next(s, e), c.els[c.taken + 1..]);
      assert ChainNext(s, c, e) == c;
    }
  }

  // ---------------------------------------------------------------- results over every run

  lemma {:induction false} LastEvent(events: seq<Event>, before: seq<Event>, e: Event)
    requires events == before + [e]
    ensures Run(events) == Next(Run(before), e)
    ensures ChainOf(events) == ChainNext(Run(before), ChainOf(before), e)
    ensures Actions(events) == Actions(before) + Linearize(Run(before), e)
  {
    assert events[..|events| - 1] == before;
  }

  lemma {:induction false} LastAction(actions: seq<Action>, before: seq<Action>, s: State, e: Event)
    requires actions == before + Linearize(s, e)
    ensures FifoRun(actions) == FifoAfter(s, FifoRun(before), e)
    ensures Linearize(s, e) != [] ==>
      actions[..|actions| - 1] == before && actions[|actions| - 1] == Linearize(s, e)[0]
  {
    if Linearize(s, e) != [] {
      assert |Linearize(s, e)| == 1;
      assert actions[..|actions| - 1] == before;
    } else {
      assert actions == before;
    }
  }

  lemma {:induction false} RunSimulates(events: seq<Event>)
    ensures Simulates(Run(events), ChainOf(events), FifoRun(Actions(events)))
  {
    hide Simulates, Next, ChainNext, Linearize, FifoNext, FifoAfter;
    if events == [] {
      StartSimulates();
    } else {
      var before, e := events[..|events| - 1], events[|events| - 1];
      RunSimulates(before);
      LastEvent(events, before, e);
      LastAction(Actions(events), Actions(before), Run(before), e);
      StepSimulates(Run(before), ChainOf(before), FifoRun(Actions(before)), e);
    }
  }

  lemma StartSimulates()
    ensures Simulates(Init(), Chain([DUMMY], 0), FifoInit())
  {
  }

  /** Linearizability: whatever the interleaving, the calls and the answers are those of a
      FIFO that serves each call in one step between its invocation and its response. */
  lemma {:induction false} Linearizable(events: seq<Event>)
    ensures Run(events).history == FifoRun(Actions(events)).history
  {
    RunSimulates(events);
  }

  // The values the FIFO accepts and gives out, in the order of their effects.
  function Enqueue(f: Fifo, a: Action): seq<Data> {
    match (a, f.PhaseOf(a.thread))
    case (Effect(_), Pending(Push(d))) => [d]
    case _ => []
  }

  function Dequeue(f: Fifo, a: Action): seq<Data> {
    match (a, f.PhaseOf(a.thread))
    case (Effect(_), Pending(Pop)) => if f.items == [] then [] else [f.items[0]]
    case _ => []
  }

  function Enqueued(actions: seq<Action>): seq<Data> {
    if actions == [] then []
    else
      var before := actions[..|actions| - 1];
      Enqueued(before) + Enqueue(FifoRun(before), actions[|actions| - 1])
  }

  function Dequeued(actions: seq<Action>): seq<Data> {
    if actions == [] then []
    else
      var before := actions[..|actions| - 1];
      Dequeued(before) + Dequeue(FifoRun(before), actions[|actions| - 1])
  }

  lemma ActionConserves(f: Fifo, a: Action, into: seq<Data>, out: seq<Data>)
    requires into == out + f.items
    ensures into + Enqueue(f, a) == out + Dequeue(f, a) + FifoNext(f, a).items
  {
  }

  lemma {:induction false} FifoConserves(actions: seq<Action>)
    ensures Enqueued(actions) == Dequeued(actions) + FifoRun(actions).items
  {
    if actions == [] {
    } else {
      var before, a := actions[..|actions| - 1], actions[|actions| - 1];
      FifoConserves(before);
      ActionConserves(FifoRun(before), a, Enqueued(before), Dequeued(before));
    }
  }

  lemma {:induction false} LinkedInOrder(events: seq<Event>)
    ensures ChainOf(events).els != []
    ensures Enqueued(Actions(events)) == Payloads(Run(events), ChainOf(events).els[1..])
  {
    hide Simulates, Next, ChainNext, Linearize, Enqueue;
    if events == [] {
    } else {
      var before, e := events[..|events| - 1], events[|events| - 1];
      LinkedInOrder(before);
      RunSimulates(before);
      LastEvent(events, before, e);
      StepLinks(Run(before), ChainOf(before), Actions(before), e);
    }
  }

  lemma {:induction false} StepLinks(s: State, c: Chain, before: seq<Action>, e: Event)
    requires Simulates(s, c, FifoRun(before))
    requires Enqueued(before) == Payloads(s, c.els[1..])
    ensures ChainNext(s, c, e).els != []
    ensures Enqueued(before + Linearize(s, e)) == Payloads(Next(s, e), ChainNext(s, c, e).els[1..])
  {
    hide Simulates, PhaseOk, PcOk, Next, Enqueued;
    AtThread(s, c, FifoRun(before), e.thread);
    MemoryGrows(s, e);
    PayloadsStay(s, Next(s, e), c.els[1..]);
    LinksOnce(s, c, FifoRun(before), before, e);
  }

  lemma {:induction false} LinksOnce(s: State, c: Chain, f: Fifo, before: seq<Action>, e: Event)
    requires f == FifoRun(before) && c.els != []
    requires PhaseOk(s, s.PcOf(e.thread), f.PhaseOf(e.thread)) && Rooted(s, s.PcOf(e.thread))
    requires Extends(s, Next(s, e)) && Enqueued(before) == Payloads(Next(s, e), c.els[1..])
    ensures Enqueued(before + Linearize(s, e)) == Payloads(Next(s, e), ChainNext(s, c, e).els[1..])
  {
    hide *;
    AtMostOneAction(s, e);
    var step, s' := Linearize(s, e), Next(s, e);
    if step == [] {
      assert before + step == before;
      SilentKeepsChain(s, c, e);
    } else {
      EnqueuedSnoc(before, step[0]);
      assert before + step == before + [step[0]];
      EffectLinks(s, c, f, e);
      if Enqueue(f, step[0]) == [] {
        assert Enqueued(before) + [] == Enqueued(before);
      } else {
        var el := s.PcOf(e.thread).el;
        LinkedPayload(s, s', c.els, el);
      }
    }
  }

  lemma AtMostOneAction(s: State, e: Event)
    ensures |Linearize(s, e)| <= 1
  {
  }

  lemma SilentKeepsChain(s: State, c: Chain, e: Event)
    requires Linearize(s, e) == []
    ensures ChainNext(s, c, e) == c
  {
  }

  lemma {:induction false} EnqueuedSnoc(before: seq<Action>, a: Action)
    ensures Enqueued(before + [a]) == Enqueued(before) + Enqueue(FifoRun(before), a)
  {
    assert (before + [a])[..|before|] == before;
    hide FifoRun, Enqueue;
  }

  lemma LinkedPayload(s: State, s': State, els: seq<Ptr>, el: Ptr)
    requires els != [] && s.IsElement(el) && Extends(s, s')
    ensures Payloads(s', (els + [el])[1..]) == Payloads(s', els[1..]) + [s.DataOf(el)]
  {
    assert (els + [el])[1..] == els[1..] + [el];
  }

  // A value is enqueued exactly when an element that carries it joins the chain.
  lemma EffectLinks(s: State, c: Chain, f: Fifo, e: Event)
    requires PhaseOk(s, s.PcOf(e.thread), f.PhaseOf(e.thread)) && Rooted(s, s.PcOf(e.thread))
    requires Linearize(s, e) != []
    ensures Enqueue(f, Linearize(s, e)[0]) == [] ==> ChainNext(s, c, e).els == c.els
    ensures Enqueue(f, Linearize(s, e)[0]) != [] ==>
              && e.Step? && s.PcOf(e.thread).PushCasNext? && s.IsElement(s.PcOf(e.thread).el)
              && ChainNext(s, c, e).els == c.els + [s.PcOf(e.thread).el]
              && Enqueue(f, Linearize(s, e)[0]) == [s.DataOf(s.PcOf(e.thread).el)]
  {
  }

  /** Nothing lost, repeated or reordered: the values taken out so far are exactly the first
      ones linked, in link order, and no element is linked twice. */
  lemma {:induction false} TakenIsAPrefix(events: seq<Event>)
    ensures var s, c := Run(events), ChainOf(events);
            c.taken < |c.els| &&
            (forall i, j :: 0 <= i < j < |c.els| ==> c.els[i] != c.els[j]) &&
            Enqueued(Actions(events)) == Payloads(s, c.els[1..]) &&
            Dequeued(Actions(events)) == Payloads(s, c.els[1..c.taken + 1])
  {
    RunSimulates(events);
    FifoConserves(Actions(events));
    LinkedInOrder(events);
    hide Run, ChainOf, Actions, FifoRun, Enqueued, Dequeued, PcOk, PhaseOk, TailLags, Exclusive;
    TakenPart(Run(events), ChainOf(events), FifoRun(Actions(events)).items, Dequeued(Actions(events)));
  }

  lemma TakenPart(s: State, c: Chain, items: seq<Data>, out: seq<Data>)
    requires c.taken < |c.els| && items == Payloads(s, c.els[c.taken + 1..])
    requires out + items == Payloads(s, c.els[1..])
    ensures out == Payloads(s, c.els[1..c.taken + 1])
  {
    var front, back := c.els[1..c.taken + 1], c.els[c.taken + 1..];
    assert c.els[1..] == front + back;
    SplitPayloads(s, front, back, out);
  }

  lemma SplitPayloads(s: State, front: seq<Ptr>, back: seq<Ptr>, out: seq<Data>)
    ensures Payloads(s, front + back) == out + Payloads(s, back) ==> out == Payloads(s, front)
  {
    assert Payloads(s, front + back) == Payloads(s, front) + Payloads(s, back);
    if Payloads(s, front + back) == out + Payloads(s, back) {
      assert out == (out + Payloads(s, back))[..|out|];
    }
  }

  /** queue_pop answers "empty" only when the FIFO is empty at the instant it reads the NULL. */
  lemma {:induction false} EmptyIsTrue(events: seq<Event>, t: Thread)
    requires Run(events).PcOf(t).PopTestNext? && Execute(Run(events), t).PcOf(t) == Finished(Empty)
    ensures FifoRun(Actions(events)).items == []
  {
    RunSimulates(events);
    var s, c := Run(events), ChainOf(events);
    assert PcOk(s, c, s.PcOf(t));
    NullFindsItEmpty(s, c, s.PcOf(t).head);
  }

  /** tail lags the last element by one while a pusher is between its two CASes and by zero
      otherwise; there is never a second such pusher, its second CAS cannot fail, and no
      thread ever dereferences a bad address. */
  lemma {:induction false} TailLagsByAtMostOne(events: seq<Event>)
    ensures var s := Run(events);
            && (forall t :: !s.PcOf(t).Crashed?)
            && (forall t, u :: Between(s, t) && Between(s, u) ==> t == u)
            && (forall t :: Between(s, t) ==>
                  && s.NextOf(s.tail) == s.PcOf(t).el != NULL && s.NextOf(s.PcOf(t).el) == NULL
                  && Execute(s, t) == s.(tail := s.PcOf(t).el).Goto(t, Finished(Pushed)))
            && ((forall t :: !Between(s, t)) ==> s.NextOf(s.tail) == NULL)
  {
    RunSimulates(events);
    var s, c := Run(events), ChainOf(events);
    forall t ensures !s.PcOf(t).Crashed? { assert PcOk(s, c, s.PcOf(t)); }
    forall t, u | Between(s, t) && Between(s, u) ensures t == u {
      assert t != u ==> Exclusive(s.PcOf(t), s.PcOf(u));
    }
    forall t | Between(s, t) { TailLagsByOne(s, c, t); }
  }

  lemma TailLagsByOne(s: State, c: Chain, t: Thread)
    requires Inv(s, c) && Between(s, t)
    ensures s.NextOf(s.tail) == s.PcOf(t).el != NULL && s.NextOf(s.PcOf(t).el) == NULL
    ensures Execute(s, t) == s.(tail := s.PcOf(t).el).Goto(t, Finished(Pushed))
  {
    assert PcOk(s, c, s.PcOf(t));
    assert s.IsElement(c.els[|c.els| - 1]);
    NextInChain(s, c, s.tail, |c.els| - 2);
  }

  /** The head can pass the tail: a push links its element and, before it swings the tail, a
      pop takes the element; head is then the successor of tail. */
  lemma HeadCanPassTail(events: seq<Event>)
    requires events == [Call(0, Push(7)), Step(0), Step(0), Call(1, Pop), Step(1), Step(1), Step(1), Step(1)]
    ensures var s := Run(events); s.head == s.NextOf(s.tail) && s.tail == DUMMY && s.head != DUMMY
  {
    PushHalfDone(events[..3]);
    var s := Run(events[..3]);
    LastEvent(events[..4], events[..3], events[3]);
    LastEvent(events[..5], events[..4], events[4]);
    LastEvent(events[..6], events[..5], events[5]);
    LastEvent(events[..7], events[..6], events[6]);
    LastEvent(events, events[..7], events[7]);
    PopAtOnce(s);
  }

  lemma PushHalfDone(events: seq<Event>)
    requires events == [Call(0, Push(7)), Step(0), Step(0)]
    ensures var s := Run(events);
            s.head == DUMMY && s.tail == DUMMY && s.IsElement(DUMMY) && s.heap[DUMMY].next == 2 && s.PcOf(1) == Idle
  {
    LastEvent(events[..1], [], events[0]);
    LastEvent(events[..2], events[..1], events[1]);
    LastEvent(events, events[..2], events[2]);
    var s1 := Next(Init(), Call(0, Push(7)));
    assert s1.PcOf(0) == PushLoadTail(2) && s1.heap == [Element(NULL, NULL), Element(NULL, NULL), Element(NULL, 7)];
    var s2 := Next(s1, Step(0));
    assert s2.PcOf(0) == PushCasNext(2, DUMMY) && s2.heap == s1.heap;
  }

  lemma PopAtOnce(s: State)
    requires s.head == DUMMY && s.tail == DUMMY && s.IsElement(DUMMY) && s.heap[DUMMY].next == 2 && s.PcOf(1) == Idle
    ensures var s' := Execute(Execute(Execute(Execute(Enter(s, 1, Pop), 1), 1), 1), 1);
            s'.head == 2 && s'.tail == DUMMY && s'.NextOf(DUMMY) == 2
  {
    var s1 := Enter(s, 1, Pop);
    assert s1.PcOf(1) == PopLoadHead && s1.heap == s.heap;
    var s2 := Execute(s1, 1);
    assert s2.PcOf(1) == PopTestNext(DUMMY) && s2.heap == s.heap;
    var s3 := Execute(s2, 1);
    assert s3.PcOf(1) == PopLoadNext(DUMMY) && s3.heap == s.heap;
    var s4 := Execute(s3, 1);
    assert s4.PcOf(1) == PopCasHead(DUMMY, 2) && s4.heap == s.heap;
  }

  // ---------------------------------------------------------------- the queue in place

  /** The shared queue as the C code holds it, updated in place one instruction at a time. */
  class SharedQueue {
    var heap: seq<Element>
    var head: Ptr
    var tail: Ptr
    var pcs: map<Thread, Pc>
    var history: seq<Observation>

    function Snapshot(): State
      reads this
    {
      State(heap, head, tail, pcs, history)
    }

    constructor ()
      ensures Snapshot() == Init()
    {
      heap, head, tail, pcs, history := [Element(NULL, NULL), Element(NULL, NULL)], DUMMY, DUMMY, map[], [];
    }

    // __sync_bool_compare_and_swap(&(p->next), NULL, el)
    method CasNext(p: Ptr, el: Ptr) returns (swapped: bool)
      requires Snapshot().IsElement(p)
      modifies this`heap
      ensures swapped <==> old(heap[p].next) == NULL
      ensures heap == if swapped then old(heap)[p := Element(el, old(heap[p].data))] else old(heap)
    {
      swapped := heap[p].next == NULL;
      if swapped { heap := heap[p := heap[p].(next := el)]; }
    }

    // __sync_bool_compare_and_swap(&(queue->tail), old, el)
    method CasTail(expected: Ptr, el: Ptr) returns (swapped: bool)
      modifies this`tail
      ensures swapped <==> old(tail) == expected
      ensures tail == if swapped then el else old(tail)
    {
      swapped := tail == expected;
      if swapped { tail := el; }
    }

    // __sync_bool_compare_and_swap(&(queue->head), old, el)
    method CasHead(expected: Ptr, el: Ptr) returns (swapped: bool)
      modifies this`head
      ensures swapped <==> old(head) == expected
      ensures head == if swapped then el else old(head)
    {
      swapped := head == expected;
      if swapped { head := el; }
    }

    // One instruction of thread t, in any state that keeps the invariant.
    method Advance(t: Thread, ghost c: Chain)
      requires Inv(Snapshot(), c)
      modifies this
      ensures Snapshot() == Execute(old(Snapshot()), t)
      ensures Inv(Snapshot(), ChainNext(old(Snapshot()), c, Step(t)))
    {
      hide Inv, ChainNext;
      ExecuteKeepsInv(Snapshot(), c, t);
      PcIsRooted(Snapshot(), c, t);
      match Snapshot().PcOf(t)
      case Idle =>
      case PushLoadTail(el) => pcs := pcs[t := PushCasNext(el, tail)];
      case PushCasNext(el, p) =>
        var swapped := CasNext(p, el);
        pcs := pcs[t := if swapped then PushCasTail(el, p) else PushLoadTail(el)];
      case PushCasTail(el, p) =>
        var swapped := CasTail(p, el);
        pcs := pcs[t := if swapped then Finished(Pushed) else PushLoadTail(el)];
      case PopLoadHead => pcs := pcs[t := PopTestNext(head)];
      case PopTestNext(p) =>
        pcs := pcs[t := if heap[p].next == NULL then Finished(Empty) else PopLoadNext(p)];
      case PopLoadNext(p) => pcs := pcs[t := PopCasHead(p, heap[p].next)];
      case PopCasHead(p, next) =>
        var swapped := CasHead(p, next);
        pcs := pcs[t := if swapped then PopReloadNext(p) else PopLoadHead];
      case PopReloadNext(p) => pcs := pcs[t := PopLoadData(heap[p].next)];
      case PopLoadData(el) => pcs := pcs[t := Finished(Popped(heap[el].data))];
      case Finished(r) =>
        history := history + [Responded(t, r)];
        pcs := pcs[t := Idle];
      case Crashed =>
    }
  }
}