/**
 The clustering that kmeans.c computes incrementally, defined from scratch: every round sends
 each point to its nearest centre and moves each centre to the mean of its points.
 */
module Lloyd {
  // FLT_MAX of IEEE 754 binary32: the distance at which the search for a centre starts.
  const FLT_MAX: real := 340282346638528859811704183484516925440.0

  type Point = seq<real>

  // Membership -1 marks a point that no round has visited.
  datatype Config = Config(membership: seq<int>, centres: seq<Point>)

  // ---------------------------------------------------------------- definitions

  function Sq(x: real): (r: real)
    ensures r >= 0.0
  {
    x * x
  }

  // Coordinate j, zero beyond the width of the point.
  function At(p: Point, j: nat): real {
    if j < |p| then p[j] else 0.0
  }

  // Squared Euclidean distance over the first d coordinates.
  function Dist(a: Point, b: Point, d: nat): (r: real)
    ensures r >= 0.0
  {
    if d == 0 then 0.0 else Dist(a, b, d - 1) + Sq(At(a, d - 1) - At(b, d - 1))
  }

  // It is the sum of the squares: no difference, no distance, and each coordinate has its own share.
  lemma {:induction false} DistOfEqual(a: Point, d: nat)
    ensures Dist(a, a, d) == 0.0
  {
    if d > 0 { DistOfEqual(a, d - 1); }
  }

  lemma {:induction false} DistShare(a: Point, b: Point, d: nat, j: nat, x: real)
    requires j < |a|
    ensures Dist(a[j := x], b, d) - Dist(a, b, d) == if j < d then Sq(x - At(b, j)) - Sq(a[j] - At(b, j)) else 0.0
  {
    if d > 0 {
      DistShare(a, b, d - 1, j, x);
      hide Sq;
    }
  }

  // The first of the centres at the least distance, provided that distance is below FLT_MAX.
  predicate Nearest(p: Point, centres: seq<Point>, d: nat, k: int) {
    && 0 <= k < |centres|
    && Dist(p, centres[k], d) < FLT_MAX
    && (forall j :: 0 <= j < |centres| ==> Dist(p, centres[k], d) <= Dist(p, centres[j], d))
    && (forall j :: 0 <= j < k ==> Dist(p, centres[k], d) < Dist(p, centres[j], d))
  }

  function Members(membership: seq<int>, c: int): set<int> {
    set i | 0 <= i < |membership| && membership[i] == c
  }

  // Sum of coordinate j over the points of S with index below n.
  function Sum(points: seq<Point>, S: set<int>, j: nat, n: nat): real
    requires n <= |points|
  {
    if n == 0 then 0.0
    else Sum(points, S, j, n - 1) + if n - 1 in S then At(points[n - 1], j) else 0.0
  }

  // How many indices below n are in S.
  function Count(S: set<int>, n: nat): (k: nat)
    ensures k <= n
  {
    if n == 0 then 0 else Count(S, n - 1) + if n - 1 in S then 1 else 0
  }

  // m is the mean of k values with the given sum.
  predicate MeanOf(m: real, sum: real, k: nat) {
    m * k as real == sum
  }

  // The centre is the mean of its points; when it has none, this says nothing.
  predicate Mean(points: seq<Point>, S: set<int>, d: nat, centre: Point) {
    && |centre| == d
    && (forall j :: 0 <= j < d ==> MeanOf(centre[j], Sum(points, S, j, |points|), Count(S, |points|)))
  }

  predicate Means(points: seq<Point>, d: nat, s: Config) {
    forall c :: 0 <= c < |s.centres| ==> Mean(points, Members(s.membership, c), d, s.centres[c])
  }

  // No cluster is empty.
  predicate Populated(s: Config) {
    forall c :: 0 <= c < |s.centres| ==> Members(s.membership, c) != {}
  }

  // The first `visited` points belong to some cluster.
  predicate Assigned(s: Config, visited: nat) {
    visited <= |s.membership| &&
    forall i :: 0 <= i < visited ==> 0 <= s.membership[i] < |s.centres|
  }

  // The reassignment half of a round: the visited points go to their nearest centres.
  predicate Reassigned(points: seq<Point>, d: nat, visited: nat, s: Config, membership: seq<int>) {
    && visited <= |points| == |s.membership| == |membership|
    && (forall i :: 0 <= i < visited ==> Nearest(points[i], s.centres, d, membership[i]))
    && (forall i :: visited <= i < |points| ==> membership[i] == s.membership[i])
  }

  // One round of Lloyd's algorithm.
  predicate Round(points: seq<Point>, d: nat, visited: nat, s: Config, t: Config) {
    && Reassigned(points, d, visited, s, t.membership)
    && |t.centres| == |s.centres|
    && Means(points, d, t)
  }

  // Sum of the squared distances from the first n points to the centres of their clusters.
  function Objective(points: seq<Point>, d: nat, s: Config, n: nat): (r: real)
    requires n <= |points| && Assigned(s, n)
    ensures r >= 0.0
  {
    if n == 0 then 0.0
    else Objective(points, d, s, n - 1) + Dist(points[n - 1], s.centres[s.membership[n - 1]], d)
  }

  // The same sum over the points of one cluster, to any position z.
  function Spread(points: seq<Point>, S: set<int>, z: Point, d: nat, n: nat): real
    requires n <= |points|
  {
    if n == 0 then 0.0
    else Spread(points, S, z, d, n - 1) + if n - 1 in S then Dist(points[n - 1], z, d) else 0.0
  }

  // One coordinate's share of Spread.
  function SpreadAlong(points: seq<Point>, S: set<int>, x: real, j: nat, n: nat): real
    requires n <= |points|
  {
    if n == 0 then 0.0
    else SpreadAlong(points, S, x, j, n - 1) + if n - 1 in S then Sq(At(points[n - 1], j) - x) else 0.0
  }

  // ---------------------------------------------------------------- the mean minimises

  lemma {:induction false} SpreadSplits(points: seq<Point>, S: set<int>, z: Point, d: nat, n: nat)
    requires n <= |points|
    ensures Spread(points, S, z, d + 1, n) == Spread(points, S, z, d, n) + SpreadAlong(points, S, At(z, d), d, n)
  {
    if n > 0 {
      SpreadSplits(points, S, z, d, n - 1);
    }
  }

  lemma {:induction false} SpreadOfNothing(points: seq<Point>, S: set<int>, z: Point, n: nat)
    requires n <= |points|
    ensures Spread(points, S, z, 0, n) == 0.0
  {
    if n > 0 {
      SpreadOfNothing(points, S, z, n - 1);
    }
  }

  // By how much k points with the given sum are more spread about x than about m.
  function Excess(m: real, x: real, sum: real, k: real): real {
    2.0 * (m - x) * (sum - k * m) + k * Sq(m - x)
  }

  lemma ExcessOfOneMore(a: real, m: real, x: real, sum: real, k: real)
    ensures Excess(m, x, sum + a, k + 1.0) - Excess(m, x, sum, k) == Sq(a - x) - Sq(a - m)
  {
    var e := m - x;
    assert Sq(a - x) == Sq(a - m) + 2.0 * e * (a - m) + e * e;
    assert sum + a - (k + 1.0) * m == (sum - k * m) + (a - m);
    Distribute(2.0 * e, sum - k * m, a - m);
    Distribute(Sq(e), k, 1.0);
  }

  lemma Distribute(e: real, u: real, v: real)
    ensures e * (u + v) == e * u + e * v
  {
  }

  lemma {:induction false} ShiftOfOrigin(points: seq<Point>, S: set<int>, m: real, x: real, j: nat, n: nat)
    requires n <= |points|
    ensures SpreadAlong(points, S, x, j, n) - SpreadAlong(points, S, m, j, n)
      == Excess(m, x, Sum(points, S, j, n), Count(S, n) as real)
  {
    if n > 0 {
      ShiftOfOrigin(points, S, m, x, j, n - 1);
      ExcessOfOneMore(At(points[n - 1], j), m, x, Sum(points, S, j, n - 1), Count(S, n - 1) as real);
      hide Sq, Excess, At;
    }
  }

  lemma ExcessAboutMean(m: real, x: real, sum: real, k: nat)
    requires MeanOf(m, sum, k)
    ensures Excess(m, x, sum, k as real) >= 0.0
  {
    assert sum - k as real * m == 0.0;
    assert 2.0 * (m - x) * 0.0 == 0.0;
    ProductNonNegative(k as real, Sq(m - x));
  }

  lemma ProductNonNegative(a: real, b: real)
    requires a >= 0.0 && b >= 0.0
    ensures a * b >= 0.0
  {
  }

  lemma MeanMinimisesAlong(points: seq<Point>, S: set<int>, m: real, x: real, j: nat)
    requires MeanOf(m, Sum(points, S, j, |points|), Count(S, |points|))
    ensures SpreadAlong(points, S, m, j, |points|) <= SpreadAlong(points, S, x, j, |points|)
  {
    ShiftOfOrigin(points, S, m, x, j, |points|);
    ExcessAboutMean(m, x, Sum(points, S, j, |points|), Count(S, |points|));
    hide *;
  }

  // Of all positions, the mean has the least sum of squared distances.
  lemma {:induction false} MeanMinimises(points: seq<Point>, S: set<int>, w: nat, m: Point, z: Point, d: nat)
    requires Mean(points, S, w, m) && d <= w
    ensures Spread(points, S, m, d, |points|) <= Spread(points, S, z, d, |points|)
  {
    if d == 0 {
      SpreadOfNothing(points, S, m, |points|);
      SpreadOfNothing(points, S, z, |points|);
    } else {
      MeanMinimises(points, S, w, m, z, d - 1);
      assert At(m, d - 1) == m[d - 1];
      SpreadSplits(points, S, m, d - 1, |points|);
      SpreadSplits(points, S, z, d - 1, |points|);
      MeanMinimisesAlong(points, S, m[d - 1], At(z, d - 1), d - 1);
      hide *;
    }
  }

  // ---------------------------------------------------------------- the objective

  // Moving one centre changes the objective by the change in its own cluster's spread.
  lemma {:induction false} MoveOneCentre(points: seq<Point>, d: nat, s: Config, c: nat, z: Point, n: nat)
    requires n <= |points| && Assigned(s, n) && c < |s.centres|
    ensures Objective(points, d, s.(centres := s.centres[c := z]), n) - Objective(points, d, s, n)
      == Spread(points, Members(s.membership, c), z, d, n)
         - Spread(points, Members(s.membership, c), s.centres[c], d, n)
  {
    if n > 0 {
      MoveOneCentre(points, d, s, c, z, n - 1);
      hide Dist;
    }
  }

  // The spread of a cluster over the visited points is its spread over all of them.
  lemma {:induction false} UnvisitedDoNotCount(points: seq<Point>, S: set<int>, z: Point, d: nat, visited: nat, n: nat)
    requires visited <= n <= |points| && (forall i :: i in S ==> i < visited)
    ensures Spread(points, S, z, d, n) == Spread(points, S, z, d, visited)
  {
    if n > visited {
      UnvisitedDoNotCount(points, S, z, d, visited, n - 1);
    }
  }

  // The first k centres already moved.
  function Mixed(s: Config, t: Config, k: nat): (r: Config)
    requires k <= |s.centres| == |t.centres|
    ensures |r.centres| == |s.centres| && r.membership == t.membership
  {
    Config(t.membership, t.centres[..k] + s.centres[k..])
  }

  lemma MixedNext(s: Config, t: Config, k: nat)
    requires k < |s.centres| == |t.centres|
    ensures Mixed(s, t, k).centres[k] == s.centres[k]
    ensures Mixed(s, t, k + 1) == Mixed(s, t, k).(centres := Mixed(s, t, k).centres[k := t.centres[k]])
  {
  }

  // Moving one centre to the mean of its cluster.
  lemma OneCentreStep(points: seq<Point>, d: nat, visited: nat, u: Config, c: nat, z: Point)
    requires visited <= |points| && Assigned(u, visited) && c < |u.centres|
    requires Mean(points, Members(u.membership, c), d, z)
    requires |u.membership| == |points| && forall i :: visited <= i < |points| ==> u.membership[i] == -1
    ensures Objective(points, d, u.(centres := u.centres[c := z]), visited) <= Objective(points, d, u, visited)
  {
    var S := Members(u.membership, c);
    MoveOneCentre(points, d, u, c, z, visited);
    MeanMinimises(points, S, d, z, u.centres[c], d);
    UnvisitedDoNotCount(points, S, z, d, visited, |points|);
    UnvisitedDoNotCount(points, S, u.centres[c], d, visited, |points|);
    hide *;
  }

  lemma {:induction false} CentresStep(points: seq<Point>, d: nat, visited: nat, s: Config, t: Config, k: nat)
    requires Round(points, d, visited, s, t) && k <= |s.centres| && Assigned(t, visited)
    requires forall i :: visited <= i < |points| ==> t.membership[i] == -1
    ensures Objective(points, d, Mixed(s, t, k), visited) <= Objective(points, d, Mixed(s, t, 0), visited)
  {
    if k > 0 {
      CentresStep(points, d, visited, s, t, k - 1);
      MixedNext(s, t, k - 1);
      hide Mixed, Objective, Mean, Nearest;
      OneCentreStep(points, d, visited, Mixed(s, t, k - 1), k - 1, t.centres[k - 1]);
    }
  }

  // Sending a point to its nearest centre cannot increase its distance.
  lemma {:induction false} ReassignmentStep(points: seq<Point>, d: nat, visited: nat, s: Config,
                                            membership: seq<int>, n: nat)
    requires Reassigned(points, d, visited, s, membership) && Assigned(s, visited) && n <= visited
    ensures Assigned(Config(membership, s.centres), n)
    ensures Objective(points, d, Config(membership, s.centres), n) <= Objective(points, d, s, n)
  {
    if n > 0 {
      ReassignmentStep(points, d, visited, s, membership, n - 1);
      assert Nearest(points[n - 1], s.centres, d, membership[n - 1]);
      hide Dist;
    }
  }

  lemma {:induction false} RoundDescends(points: seq<Point>, d: nat, visited: nat, s: Config, t: Config)
    requires Round(points, d, visited, s, t) && Assigned(s, visited)
    requires forall i :: visited <= i < |points| ==> t.membership[i] == -1
    ensures Assigned(t, visited)
    ensures Objective(points, d, t, visited) <= Objective(points, d, s, visited)
  {
    ReassignmentStep(points, d, visited, s, t.membership, visited);
    CentresStep(points, d, visited, s, t, |s.centres|);
    assert Mixed(s, t, 0) == Config(t.membership, s.centres);
    assert Mixed(s, t, |s.centres|) == t;
  }

  // ---------------------------------------------------------------- runs

  // A run of rounds from a start at which no point belongs anywhere.
  predicate Run(points: seq<Point>, d: nat, visited: nat, run: seq<Config>) {
    && |run| > 0
    && (forall i :: 0 <= i < |run[0].membership| ==> run[0].membership[i] == -1)
    && (forall k :: 0 < k < |run| ==> Round(points, d, visited, run[k - 1], run[k]))
  }

  lemma {:induction false} RunAssigns(points: seq<Point>, d: nat, visited: nat, run: seq<Config>, k: nat)
    requires Run(points, d, visited, run) && 0 < k < |run|
    ensures Assigned(run[k], visited) && |run[k].membership| == |points|
    ensures forall i :: visited <= i < |points| ==> run[k].membership[i] == -1
  {
    assert Round(points, d, visited, run[k - 1], run[k]);
    forall i | 0 <= i < visited
      ensures 0 <= run[k].membership[i] < |run[k].centres|
    {
      assert Nearest(points[i], run[k - 1].centres, d, run[k].membership[i]);
    }
    if k > 1 {
      RunAssigns(points, d, visited, run, k - 1);
    }
  }

  // Over every run the objective of a later round is at most that of an earlier one.
  lemma {:induction false} ObjectiveNeverIncreases(points: seq<Point>, d: nat, visited: nat, run: seq<Config>,
                                                   i: nat, j: nat)
    requires Run(points, d, visited, run) && 0 < i <= j < |run|
    ensures Assigned(run[i], visited) && Assigned(run[j], visited) && visited <= |points|
    ensures Objective(points, d, run[j], visited) <= Objective(points, d, run[i], visited)
    decreases j - i
  {
    RunAssigns(points, d, visited, run, i);
    RunAssigns(points, d, visited, run, j);
    assert Round(points, d, visited, run[j - 1], run[j]);
    if i < j {
      ObjectiveNeverIncreases(points, d, visited, run, i, j - 1);
      RoundDescends(points, d, visited, run[j - 1], run[j]);
    }
  }

  // ---------------------------------------------------------------- fixed points

  lemma {:induction false} CountOfNonEmpty(S: set<int>, i: nat, n: nat)
    requires i in S && i < n
    ensures Count(S, n) > 0
  {
    if i < n - 1 {
      CountOfNonEmpty(S, i, n - 1);
    }
  }

  lemma MeanIsUnique(a: real, b: real, sum: real, k: nat)
    requires MeanOf(a, sum, k) && MeanOf(b, sum, k) && k > 0
    ensures a == b
  {
    assert (a - b) * k as real == 0.0;
  }

  // The centres of populated clusters follow from the membership.
  lemma MembersFixCentres(points: seq<Point>, d: nat, s: Config, t: Config)
    requires |s.membership| == |points| && |t.centres| == |s.centres| && t.membership == s.membership
    requires Means(points, d, s) && Means(points, d, t) && Populated(s)
    ensures t == s
  {
    forall c | 0 <= c < |s.centres|
      ensures s.centres[c] == t.centres[c]
    {
      var S := Members(s.membership, c);
      var i :| i in S;
      CountOfNonEmpty(S, i, |points|);
      assert Mean(points, S, d, s.centres[c]) && Mean(points, S, d, t.centres[c]);
      forall j | 0 <= j < d
        ensures s.centres[c][j] == t.centres[c][j]
      {
        MeanIsUnique(s.centres[c][j], t.centres[c][j], Sum(points, S, j, |points|), Count(S, |points|));
      }
    }
  }

  // When a round changes no membership of centred, populated clusters, it changes nothing, and
  // every visited point is nearest to its own centre, every centre the mean of its points.
  lemma QuietRoundIsFixedPoint(points: seq<Point>, d: nat, visited: nat, s: Config, t: Config)
    requires Round(points, d, visited, s, t) && Means(points, d, s) && Populated(s)
    requires t.membership == s.membership
    ensures t == s && Means(points, d, t)
    ensures forall i :: 0 <= i < visited ==> Nearest(points[i], t.centres, d, t.membership[i])
  {
    MembersFixCentres(points, d, s, t);
  }
}
