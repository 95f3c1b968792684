/**
 The process_point tasks of one round, interleaved: each point is advanced one load, store or
 fetch-and-add at a time, in any order. The order in which a task visits its own points is one
 of the orders covered.
 */
module SlotReservation {
  import opened Lloyd
  import opened PointLists
  import opened KMeans
  import opened KMeansRounds

  // Where a point is in the loop body of process_point and in add_point_to_cluster.
  datatype Stage = Compare | Assign | Mark | Join | Reserve | Store | Done

  // What does not change during the round; target[p] is the nearest centre, or before[p] for a
  // point that no task visits.
  datatype Plan = Plan(before: seq<int>, target: seq<int>, olds: seq<seq<int>>)

  // arrived[c] records the points in the order of their fetch-and-add on new_points of cluster c.
  datatype State = State(stage: seq<Stage>, slot: seq<nat>, membership: seq<int>, moved: seq<bool>,
                         newPoints: seq<nat>, points: seq<seq<int>>, arrived: seq<seq<int>>)

  predicate Fits(plan: Plan) {
    && |plan.target| == |plan.before|
    && (forall p :: 0 <= p < |plan.target| && plan.target[p] != plan.before[p] ==> 0 <= plan.target[p] < |plan.olds|)
    && (forall c :: 0 <= c < |plan.olds| ==> Lists(plan.olds[c], Members(plan.before, c)))
  }

  predicate Joins(plan: Plan, p: nat)
    requires p < |plan.before| == |plan.target|
  {
    plan.target[p] != plan.before[p]
  }

  // Every array starts with the older points; no point has been looked at.
  predicate Start(plan: Plan, s: State)
    requires Fits(plan)
  {
    var n, k := |plan.before|, |plan.olds|;
    && |s.stage| == |s.slot| == |s.membership| == |s.moved| == n
    && |s.newPoints| == |s.points| == |s.arrived| == k
    && s.membership == plan.before
    && (forall p :: 0 <= p < n ==> s.stage[p] == Compare && !s.moved[p])
    && (forall c :: 0 <= c < k ==> s.newPoints[c] == 0 && s.arrived[c] == [])
    && (forall c :: 0 <= c < k ==> |s.points[c]| == n && plan.olds[c] <= s.points[c])
  }

  // The next action of point p.
  function Next(plan: Plan, s: State, p: nat): State
    requires Shape(plan, s) && p < |s.stage|
  {
    var c := plan.target[p];
    match s.stage[p]
    case Compare =>
      s.(stage := s.stage[p := if s.membership[p] != c then Assign else Done])
    case Assign => s.(stage := s.stage[p := Mark], membership := s.membership[p := c])
    case Mark => s.(stage := s.stage[p := Join], moved := s.moved[p := true])
    case Join => s.(stage := s.stage[p := Reserve], membership := s.membership[p := c])
    case Reserve =>
      if !(0 <= c < |plan.olds|) then s else
      s.(stage := s.stage[p := Store],
         slot := s.slot[p := s.newPoints[c] + |plan.olds[c]|],
         newPoints := s.newPoints[c := s.newPoints[c] + 1],
         arrived := s.arrived[c := s.arrived[c] + [p]])
    case Store =>
      if !(0 <= c < |plan.olds| && s.slot[p] < |s.points[c]|) then s else
      s.(stage := s.stage[p := Done],
         points := s.points[c := s.points[c][s.slot[p] := p]])
    case Done => s
  }

  predicate Shape(plan: Plan, s: State) {
    && Fits(plan)
    && |s.stage| == |s.slot| == |s.membership| == |s.moved| == |plan.before|
    && |s.newPoints| == |s.points| == |s.arrived| == |plan.olds|
  }

  // ---------------------------------------------------------------- invariant

  predicate PointInv(plan: Plan, s: State, p: nat)
    requires Shape(plan, s) && p < |s.stage|
  {
    var c, joins := plan.target[p], Joins(plan, p);
    match s.stage[p]
    case Compare => s.membership[p] == plan.before[p] && !s.moved[p]
    case Assign => joins && s.membership[p] == plan.before[p] && !s.moved[p]
    case Mark => joins && s.membership[p] == c && !s.moved[p]
    case Join => joins && s.membership[p] == c && s.moved[p]
    case Reserve => joins && s.membership[p] == c && s.moved[p]
    case Store => joins && s.membership[p] == c && s.moved[p] && HasSlot(plan, s, p)
    case Done => s.membership[p] == c && (s.moved[p] <==> joins) && (joins ==> HasSlot(plan, s, p))
  }

  // The slot of p is the place that its fetch-and-add gave it.
  predicate HasSlot(plan: Plan, s: State, p: nat)
    requires Shape(plan, s) && p < |s.stage|
  {
    var c := plan.target[p];
    0 <= c < |plan.olds| && |plan.olds[c]| <= s.slot[p] < |plan.olds[c]| + |s.arrived[c]|
    && s.arrived[c][s.slot[p] - |plan.olds[c]|] == p
  }

  predicate ClusterInv(plan: Plan, s: State, c: nat)
    requires Shape(plan, s) && c < |plan.olds|
  {
    && s.newPoints[c] == |s.arrived[c]| && |s.points[c]| == |plan.before| && plan.olds[c] <= s.points[c]
    && forall k :: 0 <= k < |s.arrived[c]| ==> ArrivalInv(plan, s, c, k)
  }

  predicate ArrivalInv(plan: Plan, s: State, c: nat, k: nat)
    requires Shape(plan, s) && c < |plan.olds| && k < |s.arrived[c]|
  {
    var p := s.arrived[c][k];
    && 0 <= p < |s.stage| && plan.target[p] == c && Joins(plan, p)
    && s.slot[p] == |plan.olds[c]| + k && (s.stage[p] == Store || s.stage[p] == Done)
    && (s.stage[p] == Done ==> s.slot[p] < |s.points[c]| && s.points[c][s.slot[p]] == p)
  }

  predicate Inv(plan: Plan, s: State) {
    && Shape(plan, s)
    && (forall p :: 0 <= p < |s.stage| ==> PointInv(plan, s, p))
    && (forall c :: 0 <= c < |plan.olds| ==> ClusterInv(plan, s, c))
  }

  // Reserved slots never run past the end of the array, even with one more reservation pending.
  lemma {:induction false} RoomForArrivals(plan: Plan, s: State, c: nat)
    requires Inv(plan, s) && c < |plan.olds|
    ensures Distinct(s.arrived[c]) && |plan.olds[c]| + |s.arrived[c]| <= |plan.before|
    ensures Elements(s.arrived[c]) <= Joiners(plan.before, plan.target, c)
  {
    assert ClusterInv(plan, s, c);
    var arrived := s.arrived[c];
    forall k | 0 <= k < |arrived|
      ensures 0 <= arrived[k] < |plan.before| && plan.target[arrived[k]] == c != plan.before[arrived[k]]
      ensures s.slot[arrived[k]] == |plan.olds[c]| + k
    {
      assert ArrivalInv(plan, s, c, k);
    }
    assert Lists(plan.olds[c], Members(plan.before, c));
    ListsConcatenated(plan.olds[c], Members(plan.before, c), arrived, Elements(arrived));
    ListLength(plan.olds[c] + arrived, Members(plan.before, c) + Elements(arrived), |plan.before|);
  }

  lemma {:induction false} StartInv(plan: Plan, s: State)
    requires Fits(plan) && Start(plan, s)
    ensures Inv(plan, s)
  {
  }

  lemma {:induction false} NextKeepsPoint(plan: Plan, s: State, p: nat, q: nat)
    requires Inv(plan, s) && p < |s.stage| && q < |s.stage|
    ensures Shape(plan, Next(plan, s, p)) && PointInv(plan, Next(plan, s, p), q)
  {
    assert PointInv(plan, s, p) && PointInv(plan, s, q);
    if p == q { NextMovesPoint(plan, s, p); }
    else { NextKeepsOther(plan, s, p, q); }
  }

  // The acting point.
  lemma {:induction false} NextMovesPoint(plan: Plan, s: State, p: nat)
    requires Inv(plan, s) && p < |s.stage| && PointInv(plan, s, p)
    ensures Shape(plan, Next(plan, s, p)) && PointInv(plan, Next(plan, s, p), p)
  {
    var c := plan.target[p];
    if 0 <= c < |plan.olds| {
      assert ClusterInv(plan, s, c);
      RoomForArrivals(plan, s, c);
    }
  }

  lemma {:induction false} NextKeepsOther(plan: Plan, s: State, p: nat, q: nat)
    requires Shape(plan, s) && p < |s.stage| && q < |s.stage| && p != q && PointInv(plan, s, q)
    ensures Shape(plan, Next(plan, s, p)) && PointInv(plan, Next(plan, s, p), q)
  {
  }

  lemma {:induction false} NextKeepsCluster(plan: Plan, s: State, p: nat, c: nat)
    requires Inv(plan, s) && p < |s.stage| && c < |plan.olds|
    requires Shape(plan, Next(plan, s, p))
    ensures ClusterInv(plan, Next(plan, s, p), c)
  {
    var t := Next(plan, s, p);
    assert PointInv(plan, s, p) && ClusterInv(plan, s, c);
    RoomForArrivals(plan, s, c);
    forall k | 0 <= k < |t.arrived[c]|
      ensures ArrivalInv(plan, t, c, k)
    {
      if k < |s.arrived[c]| {
        assert ArrivalInv(plan, s, c, k);
      }
    }
  }

  lemma {:induction false} NextKeepsInv(plan: Plan, s: State, p: nat)
    requires Inv(plan, s) && p < |s.stage|
    ensures Inv(plan, Next(plan, s, p))
  {
    hide PointInv, ClusterInv, Next;
    NextKeepsPoint(plan, s, p, p);
    forall q: nat | q < |s.stage|
      ensures PointInv(plan, Next(plan, s, p), q)
    {
      NextKeepsPoint(plan, s, p, q);
    }
    forall c: nat | c < |plan.olds|
      ensures ClusterInv(plan, Next(plan, s, p), c)
    {
      NextKeepsCluster(plan, s, p, c);
    }
  }

  // ---------------------------------------------------------------- every interleaving

  predicate Names(schedule: seq<nat>, n: nat) {
    forall k :: 0 <= k < |schedule| ==> schedule[k] < n
  }

  // The state after a schedule: at each position, which point acts.
  function After(plan: Plan, s: State, schedule: seq<nat>): (t: State)
    requires Shape(plan, s) && Names(schedule, |s.stage|)
    ensures Shape(plan, t)
  {
    if schedule == [] then s
    else
      var u := After(plan, s, schedule[..|schedule| - 1]);
      Next(plan, u, schedule[|schedule| - 1])
  }

  lemma {:induction false} AlwaysInv(plan: Plan, s: State, schedule: seq<nat>)
    requires Shape(plan, s) && Start(plan, s) && Names(schedule, |s.stage|)
    ensures Inv(plan, After(plan, s, schedule))
  {
    if schedule == [] {
      StartInv(plan, s);
    } else {
      AlwaysInv(plan, s, schedule[..|schedule| - 1]);
      NextKeepsInv(plan, After(plan, s, schedule[..|schedule| - 1]), schedule[|schedule| - 1]);
    }
  }

  // ---------------------------------------------------------------- progress

  // How often point p acts.
  function Turns(schedule: seq<nat>, p: nat): nat {
    if schedule == [] then 0
    else Turns(schedule[..|schedule| - 1], p) + if schedule[|schedule| - 1] == p then 1 else 0
  }

  const STEPS: nat := 6

  // How many actions take a point to its end: one comparison, and five more when it joins.
  function Needed(plan: Plan, p: nat): nat
    requires p < |plan.before| == |plan.target|
  {
    if Joins(plan, p) then STEPS else 1
  }

  function Left(stage: Stage, joins: bool): nat {
    match stage
    case Compare => if joins then STEPS else 1
    case Assign => 5
    case Mark => 4
    case Join => 3
    case Reserve => 2
    case Store => 1
    case Done => 0
  }

  /** Whatever the others do, a point that acts comes one action nearer to its end. */
  lemma ActingMoves(plan: Plan, s: State, p: nat, q: nat)
    requires Inv(plan, s) && p < |s.stage| && q < |s.stage|
    ensures Shape(plan, Next(plan, s, p))
    ensures s.stage[p] != Done ==>
      Left(Next(plan, s, p).stage[p], Joins(plan, p)) == Left(s.stage[p], Joins(plan, p)) - 1
    ensures q != p || s.stage[p] == Done ==> Next(plan, s, p).stage[q] == s.stage[q]
  {
    assert PointInv(plan, s, p);
    var c := plan.target[p];
    if 0 <= c < |plan.olds| {
      assert ClusterInv(plan, s, c);
      RoomForArrivals(plan, s, c);
    }
  }

  lemma LeftIsNothing(stage: Stage, joins: bool)
    ensures Left(stage, joins) == 0 <==> stage == Done
  {
  }

  // In every reachable state a point has as many actions before it as it has not made yet.
  lemma {:induction false} TurnsAreActions(plan: Plan, s: State, schedule: seq<nat>, p: nat)
    requires Shape(plan, s) && Start(plan, s) && Names(schedule, |s.stage|) && p < |s.stage|
    ensures Left(After(plan, s, schedule).stage[p], Joins(plan, p))
         == if Turns(schedule, p) < Needed(plan, p) then Needed(plan, p) - Turns(schedule, p) else 0
  {
    if schedule != [] {
      var before, q := schedule[..|schedule| - 1], schedule[|schedule| - 1];
      TurnsAreActions(plan, s, before, p);
      AlwaysInv(plan, s, before);
      var t := After(plan, s, before);
      hide Inv, Next, Start, Shape;
      ActingMoves(plan, t, q, p);
      LeftIsNothing(t.stage[p], Joins(plan, p));
    }
  }

  // A schedule that gives every point its turns: one, or six when it joins a cluster.
  predicate Complete(plan: Plan, schedule: seq<nat>)
    requires |plan.before| == |plan.target|
  {
    forall p :: 0 <= p < |plan.before| ==> Turns(schedule, p) >= Needed(plan, p)
  }

  /** The round is over exactly when every point has had its turns, in whatever order. */
  lemma DoneIffComplete(plan: Plan, s: State, schedule: seq<nat>)
    requires Shape(plan, s) && Start(plan, s) && Names(schedule, |s.stage|)
    ensures Complete(plan, schedule) <==> AllDone(After(plan, s, schedule))
  {
    hide Start, Names, After, Needed;
    forall p: nat | p < |s.stage|
      ensures Turns(schedule, p) >= Needed(plan, p) <==> After(plan, s, schedule).stage[p] == Done
    {
      TurnsAreActions(plan, s, schedule, p);
      LeftIsNothing(After(plan, s, schedule).stage[p], Joins(plan, p));
    }
  }

  lemma OneMoreTurn(schedule: seq<nat>, q: nat, p: nat)
    ensures Turns(schedule + [q], p) == Turns(schedule, p) + if q == p then 1 else 0
  {
    assert (schedule + [q])[..|schedule|] == schedule;
  }

  lemma {:induction false} TurnsAdd(schedule: seq<nat>, q: nat, k: nat, p: nat)
    ensures Turns(schedule + seq(k, _ => q), p) == Turns(schedule, p) + if q == p then k else 0
  {
    if k == 0 {
      assert schedule + seq(0, _ => q) == schedule;
    } else {
      TurnsAdd(schedule, q, k - 1, p);
      assert schedule + seq(k, _ => q) == schedule + seq(k - 1, _ => q) + [q];
      OneMoreTurn(schedule + seq(k - 1, _ => q), q, p);
    }
  }

  // One point after the other: such schedules exist for every plan.
  lemma {:induction false} OneAfterTheOther(n: nat) returns (schedule: seq<nat>)
    ensures Names(schedule, n) && forall p :: 0 <= p < n ==> Turns(schedule, p) >= STEPS
  {
    if n == 0 {
      schedule := [];
    } else {
      var before := OneAfterTheOther(n - 1);
      schedule := before + seq(STEPS, _ => n - 1);
      forall p: nat | p < n
        ensures Turns(schedule, p) >= STEPS
      {
        TurnsAdd(before, n - 1, STEPS, p);
      }
    }
  }

  lemma SomeScheduleCompletes(plan: Plan) returns (schedule: seq<nat>)
    requires |plan.before| == |plan.target|
    ensures Names(schedule, |plan.before|) && Complete(plan, schedule)
  {
    schedule := OneAfterTheOther(|plan.before|);
  }

  predicate AllDone(t: State) {
    forall p :: 0 <= p < |t.stage| ==> t.stage[p] == Done
  }

  // A point that has reserved a slot and has not given it up.
  predicate Holds(plan: Plan, s: State, p: nat)
    requires Shape(plan, s) && p < |s.stage|
  {
    Joins(plan, p) && (s.stage[p] == Store || s.stage[p] == Done)
  }

  // In every reachable state reserved slots lie behind the older points and inside the array,
  // and no two points of a cluster have the same one.
  lemma {:induction false} SlotsAreDistinct(plan: Plan, s: State, schedule: seq<nat>, p: nat, q: nat)
    requires Shape(plan, s) && Start(plan, s) && Names(schedule, |s.stage|)
    requires p < |s.stage| && q < |s.stage|
    requires Holds(plan, After(plan, s, schedule), p)
    ensures 0 <= plan.target[p] < |plan.olds|
    ensures |plan.olds[plan.target[p]]| <= After(plan, s, schedule).slot[p] < |plan.before|
    ensures Holds(plan, After(plan, s, schedule), q) && p != q && plan.target[p] == plan.target[q] ==>
      After(plan, s, schedule).slot[p] != After(plan, s, schedule).slot[q]
  {
    AlwaysInv(plan, s, schedule);
    var t := After(plan, s, schedule);
    assert PointInv(plan, t, p) && PointInv(plan, t, q);
    RoomForArrivals(plan, t, plan.target[p]);
  }

  // Whatever the interleaving, once every point has had its turns every array lists the older points and
  // then, once each, the points that joined its cluster; memberships and marks agree with it.
  lemma {:induction false} EveryInterleavingGroups(plan: Plan, s: State, schedule: seq<nat>, c: nat)
    requires Shape(plan, s) && Start(plan, s) && Names(schedule, |s.stage|)
    requires c < |plan.olds| && Complete(plan, schedule)
    ensures
      var t, base := After(plan, s, schedule), |plan.olds[c]|;
      && t.membership == plan.target && Marks(plan.before, plan.target, t.moved)
      && base + t.newPoints[c] <= |t.points[c]| == |plan.before|
      && t.points[c][..base] == plan.olds[c]
      && Lists(t.points[c][base..base + t.newPoints[c]], Joiners(plan.before, plan.target, c))
  {
    AlwaysInv(plan, s, schedule);
    hide *;
    DoneIffComplete(plan, s, schedule);
    TargetsReached(plan, After(plan, s, schedule));
    ArrivalsStored(plan, After(plan, s, schedule), c);
    JoinersArrived(plan, After(plan, s, schedule), c);
  }

  lemma TargetsReached(plan: Plan, t: State)
    requires Inv(plan, t) && AllDone(t)
    ensures t.membership == plan.target && Marks(plan.before, plan.target, t.moved)
  {
    forall p | 0 <= p < |t.stage|
      ensures t.membership[p] == plan.target[p] && (t.moved[p] <==> Joins(plan, p))
    {
      assert PointInv(plan, t, p);
    }
  }

  // The slots of the points that have arrived hold them, in the order of arrival.
  lemma ArrivalsStored(plan: Plan, t: State, c: nat)
    requires Inv(plan, t) && c < |plan.olds| && AllDone(t)
    ensures var base := |plan.olds[c]|;
            && t.newPoints[c] == |t.arrived[c]| && base + t.newPoints[c] <= |t.points[c]| == |plan.before|
            && t.points[c][..base] == plan.olds[c] && t.points[c][base..base + t.newPoints[c]] == t.arrived[c]
  {
    assert ClusterInv(plan, t, c);
    RoomForArrivals(plan, t, c);
    forall k | 0 <= k < |t.arrived[c]|
      ensures t.points[c][|plan.olds[c]| + k] == t.arrived[c][k]
    {
      assert ArrivalInv(plan, t, c, k);
    }
  }

  lemma JoinersArrived(plan: Plan, t: State, c: nat)
    requires Inv(plan, t) && c < |plan.olds| && AllDone(t)
    ensures Lists(t.arrived[c], Joiners(plan.before, plan.target, c))
  {
    RoomForArrivals(plan, t, c);
    forall p | p in Joiners(plan.before, plan.target, c)
      ensures p in t.arrived[c]
    {
      assert PointInv(plan, t, p);
    }
  }

  // ---------------------------------------------------------------- back to the clusters

  // The clusters, memberships and marks are those of the state t.
  predicate Holding(k: Clustering, plan: Plan, t: State)
    reads k.membership, k.moved, k.clusters, set c: Cluster | c in k.clusters :: c.points
  {
    && Shape(plan, t) && |k.clusters| == |plan.olds|
    && k.membership[..] == t.membership && k.moved[..] == t.moved
    && forall c :: 0 <= c < |k.clusters| ==>
         && k.clusters[c].oldPoints == |plan.olds[c]| && k.clusters[c].newPoints == t.newPoints[c]
         && k.clusters[c].points[..] == t.points[c]
  }

  lemma EveryInterleavingIsPending(k: Clustering, plan: Plan, s: State, schedule: seq<nat>)
    requires Shape(plan, s) && Start(plan, s) && Names(schedule, |s.stage|)
    requires Complete(plan, schedule)
    requires Holding(k, plan, After(plan, s, schedule))
    ensures k.membership[..] == plan.target && Marks(plan.before, plan.target, k.moved[..])
    ensures k.Grouped(plan.before, plan.target)
    ensures forall c :: 0 <= c < |k.clusters| ==>
      k.clusters[c].oldPoints + k.clusters[c].newPoints <= |plan.before|
  {
    AlwaysInv(plan, s, schedule);
    DoneIffComplete(plan, s, schedule);
    TargetsReached(plan, After(plan, s, schedule));
    hide *;
    HoldingSizes(k, plan, After(plan, s, schedule));
    forall c: nat | c < |k.clusters|
      ensures k.clusters[c].Pending(plan.before, plan.target, c)
      ensures k.clusters[c].oldPoints + k.clusters[c].newPoints <= |plan.before|
    {
      InterleavedCluster(k, plan, s, schedule, c);
    }
    AllPending(k, plan);
  }

  lemma InterleavedCluster(k: Clustering, plan: Plan, s: State, schedule: seq<nat>, c: nat)
    requires Shape(plan, s) && Start(plan, s) && Names(schedule, |s.stage|)
    requires Complete(plan, schedule)
    requires Holding(k, plan, After(plan, s, schedule)) && c < |k.clusters| == |plan.olds| && Fits(plan)
    ensures |plan.target| == |plan.before| && k.clusters[c].Pending(plan.before, plan.target, c)
    ensures k.clusters[c].oldPoints + k.clusters[c].newPoints <= |plan.before|
  {
    hide *;
    EveryInterleavingGroups(plan, s, schedule, c);
    FitsLists(plan, c);
    ClusterIsPending(k, plan, After(plan, s, schedule), c);
  }

  lemma HoldingSizes(k: Clustering, plan: Plan, t: State)
    requires Holding(k, plan, t)
    ensures |k.clusters| == |plan.olds| && Shape(plan, t) && Fits(plan) && |plan.target| == |plan.before|
  {
  }

  lemma FitsLists(plan: Plan, c: nat)
    requires Fits(plan) && c < |plan.olds|
    ensures Lists(plan.olds[c], Members(plan.before, c)) && |plan.target| == |plan.before|
  {
  }

  lemma AllPending(k: Clustering, plan: Plan)
    requires |plan.target| == |plan.before|
    requires forall c: nat | c < |k.clusters| :: k.clusters[c].Pending(plan.before, plan.target, c)
    ensures k.Grouped(plan.before, plan.target)
  {
  }

  lemma ClusterIsPending(k: Clustering, plan: Plan, t: State, c: nat)
    requires Holding(k, plan, t) && c < |k.clusters| && |plan.before| == |plan.target|
    requires |plan.olds[c]| + t.newPoints[c] <= |t.points[c]| == |plan.before|
    requires Lists(plan.olds[c], Members(plan.before, c)) && t.points[c][..|plan.olds[c]|] == plan.olds[c]
    requires Lists(t.points[c][|plan.olds[c]|..|plan.olds[c]| + t.newPoints[c]], Joiners(plan.before, plan.target, c))
    ensures k.clusters[c].Pending(plan.before, plan.target, c)
    ensures k.clusters[c].oldPoints + k.clusters[c].newPoints <= |plan.before|
  {
    hide Lists, Joiners, Members;
    var cluster := k.clusters[c];
    assert cluster.Olds() == t.points[c][..|plan.olds[c]|];
    assert cluster.News() == t.points[c][|plan.olds[c]|..|plan.olds[c]| + t.newPoints[c]];
  }

  /** A round whose point tasks have run in any interleaving ends as the sequential one does. */
  method EndInterleavedRound(k: Clustering, visited: nat, torn: seq<real>, loop: nat, ghost c: Config,
                             ghost plan: Plan, ghost s: State, ghost schedule: seq<nat>)
    returns (repaired: bool, ghost t: Config)
    requires k.Structured() && k.HasCentres(c.centres) && Means(k.feature, k.width, c) && k.sumDelta == 0
    requires |torn| == |k.clusters| && Unvisited(c, visited)
    requires plan.before == c.membership && Reassigned(k.feature, k.width, visited, c, plan.target)
    requires Shape(plan, s) && Start(plan, s) && Names(schedule, |s.stage|)
    requires Complete(plan, schedule)
    requires Holding(k, plan, After(plan, s, schedule))
    modifies k`sumDelta, k.moved, k.Footprint()
    ensures k.membership[..] == t.membership == plan.target
    ensures k.sumDelta == |Changed(plan.before, plan.target)|
    ensures k.HasCentres(t.centres) && Recentred(k.feature, k.width, c, t, torn)
    ensures k.Grouped(t.membership, t.membership) <==> EachAttracts(k.feature, k.width, visited, c.centres)
    ensures repaired <==> !EachAttracts(k.feature, k.width, visited, c.centres)
    ensures !repaired ==> k.Settled(t) && Populated(t) && Round(k.feature, k.width, visited, c, t)
  {
    EveryInterleavingIsPending(k, plan, s, schedule);
    hide *;
    k.StructuredIsValid();
    repaired, t := k.EndRound(visited, torn, loop, c);
  }
}
