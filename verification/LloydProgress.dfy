/**
 Why the rounds come to an end: a round that moves a point lowers the objective, or keeps it and
 lowers the cluster numbers, so no membership comes back and there are only finitely many.
 */
module LloydProgress {
  import opened Arithmetic
  import opened Lloyd
  import opened PointLists
  import opened KMeansRounds

  // The sum of the cluster numbers of the first n points.
  function Numbers(membership: seq<int>, n: nat): int
    requires n <= |membership|
  {
    if n == 0 then 0 else Numbers(membership, n - 1) + membership[n - 1]
  }

  predicate Lower(points: seq<Point>, d: nat, visited: nat, t: Config, s: Config)
    requires visited <= |points| && Assigned(s, visited) && Assigned(t, visited)
  {
    var was, now := Objective(points, d, s, visited), Objective(points, d, t, visited);
    now < was || (now == was && Numbers(t.membership, visited) < Numbers(s.membership, visited))
  }

  // A point that moves without coming nearer moves to a cluster with a lower number.
  lemma TieGoesDown(p: Point, centres: seq<Point>, d: nat, was: int, now: int)
    requires Nearest(p, centres, d, now) && 0 <= was < |centres|
    ensures Dist(p, centres[now], d) <= Dist(p, centres[was], d)
    ensures Dist(p, centres[now], d) == Dist(p, centres[was], d) ==> now <= was
  {
  }

  lemma ObjectiveNext(points: seq<Point>, d: nat, s: Config, n: nat)
    requires n < |points| && Assigned(s, n + 1)
    ensures Assigned(s, n) && 0 <= s.membership[n] < |s.centres|
    ensures Objective(points, d, s, n + 1)
         == Objective(points, d, s, n) + Dist(points[n], s.centres[s.membership[n]], d)
    ensures Numbers(s.membership, n + 1) == Numbers(s.membership, n) + s.membership[n]
    ensures s.membership[..n + 1] == s.membership[..n] + [s.membership[n]]
  {
  }

  lemma FewerAssigned(s: Config, visited: nat, n: nat)
    requires Assigned(s, visited) && n <= visited
    ensures Assigned(s, n) && n <= |s.membership|
  {
  }

  // A smaller sum of distances, or the same one with a smaller sum of numbers, or the same numbers.
  predicate Down(o: real, p: real, a: int, b: int, now: seq<int>, was: seq<int>) {
    o <= p && (o == p ==> a <= b && (a == b ==> now == was))
  }

  lemma DownMore(o: real, p: real, a: int, b: int, now: seq<int>, was: seq<int>, e: real, f: real, x: int, y: int)
    requires Down(o, p, a, b, now, was) && e <= f && (e == f ==> x <= y)
    ensures Down(o + e, p + f, a + x, b + y, now + [x], was + [y])
  {
  }

  lemma NearestInRound(points: seq<Point>, d: nat, visited: nat, s: Config, now: seq<int>, i: nat)
    requires Reassigned(points, d, visited, s, now) && i < visited
    ensures visited <= |points| && i < |now| && Nearest(points[i], s.centres, d, now[i])
  {
  }

  lemma {:induction false} ReassignmentGoesDown(points: seq<Point>, d: nat, visited: nat, s: Config, u: Config, n: nat)
    requires Reassigned(points, d, visited, s, u.membership) && u.centres == s.centres
    requires Assigned(s, visited) && Assigned(u, visited) && n <= visited <= |points|
    ensures Assigned(s, n) && Assigned(u, n)
    ensures Down(Objective(points, d, u, n), Objective(points, d, s, n), Numbers(u.membership, n),
                 Numbers(s.membership, n), u.membership[..n], s.membership[..n])
  {
    hide *;
    FewerAssigned(s, visited, n);
    FewerAssigned(u, visited, n);
    if n == 0 {
      DownAtFirst(points, d, u, s);
    } else {
      ReassignmentGoesDown(points, d, visited, s, u, n - 1);
      NearestInRound(points, d, visited, s, u.membership, n - 1);
      DownNext(points, d, u, s, n - 1);
    }
  }

  lemma DownAtFirst(points: seq<Point>, d: nat, u: Config, s: Config)
    requires Assigned(s, 0) && Assigned(u, 0)
    ensures Down(Objective(points, d, u, 0), Objective(points, d, s, 0), Numbers(u.membership, 0),
                 Numbers(s.membership, 0), u.membership[..0], s.membership[..0])
  {
  }

  lemma DownNext(points: seq<Point>, d: nat, u: Config, s: Config, n: nat)
    requires n < |points| && Assigned(s, n + 1) && Assigned(u, n + 1) && Assigned(s, n) && Assigned(u, n)
    requires n < |u.membership| && u.centres == s.centres && Nearest(points[n], s.centres, d, u.membership[n])
    requires n < |s.membership|
    requires Down(Objective(points, d, u, n), Objective(points, d, s, n), Numbers(u.membership, n),
                  Numbers(s.membership, n), u.membership[..n], s.membership[..n])
    ensures Down(Objective(points, d, u, n + 1), Objective(points, d, s, n + 1), Numbers(u.membership, n + 1),
                 Numbers(s.membership, n + 1), u.membership[..n + 1], s.membership[..n + 1])
  {
    hide *;
    ObjectiveNext(points, d, s, n);
    ObjectiveNext(points, d, u, n);
    var x, y := u.membership[n], s.membership[n];
    TieGoesDown(points[n], s.centres, d, y, x);
    DownMore(Objective(points, d, u, n), Objective(points, d, s, n), Numbers(u.membership, n),
             Numbers(s.membership, n), u.membership[..n], s.membership[..n],
             Dist(points[n], s.centres[x], d), Dist(points[n], s.centres[y], d), x, y);
  }

  /** A round that changes a membership makes strict progress. */
  lemma RoundGoesDown(points: seq<Point>, d: nat, visited: nat, s: Config, t: Config)
    requires Round(points, d, visited, s, t) && Assigned(s, visited) && t.membership != s.membership
    requires forall i :: visited <= i < |points| ==> t.membership[i] == -1
    ensures Assigned(t, visited) && Lower(points, d, visited, t, s)
  {
    ReassignmentStep(points, d, visited, s, t.membership, visited);
    ReassignmentGoesDown(points, d, visited, s, Config(t.membership, s.centres), visited);
    CentresStep(points, d, visited, s, t, |s.centres|);
    assert Mixed(s, t, 0) == Config(t.membership, s.centres);
    assert Mixed(s, t, |s.centres|) == t;
    SameParts(t.membership, s.membership, visited);
  }

  lemma SameParts(a: seq<int>, b: seq<int>, n: nat)
    requires n <= |a| == |b| && forall i :: n <= i < |a| ==> a[i] == b[i]
    ensures a[..n] == b[..n] ==> a == b
  {
    if a[..n] == b[..n] {
      forall i | 0 <= i < n ensures a[i] == b[i] { assert a[..n][i] == b[..n][i]; }
    }
  }

  // Every round from the one after i to j changes a membership.
  predicate Busy(run: seq<Config>, i: nat, j: nat) {
    j < |run| && forall k :: i < k <= j ==> run[k].membership != run[k - 1].membership
  }

  lemma {:induction false} RunGoesDown(points: seq<Point>, d: nat, visited: nat, run: seq<Config>, i: nat, j: nat)
    requires Run(points, d, visited, run) && 0 < i < j < |run| && Busy(run, i, j)
    ensures visited <= |points| && Assigned(run[i], visited) && Assigned(run[j], visited)
    ensures Lower(points, d, visited, run[j], run[i])
    decreases j - i
  {
    RunAssigns(points, d, visited, run, i);
    RunAssigns(points, d, visited, run, j - 1);
    RunAssigns(points, d, visited, run, j);
    assert Round(points, d, visited, run[j - 1], run[j]);
    assert visited <= |points| by { RoundFits(points, d, visited, run[j - 1], run[j]); }
    RoundGoesDown(points, d, visited, run[j - 1], run[j]);
    hide Run, Round, Assigned, Objective, Numbers;
    if i < j - 1 { RunGoesDown(points, d, visited, run, i, j - 1); }
  }

  lemma RoundFits(points: seq<Point>, d: nat, visited: nat, s: Config, t: Config)
    requires Round(points, d, visited, s, t)
    ensures visited <= |points| == |t.membership| && |s.centres| == |t.centres| && Means(points, d, t)
  {
  }

  lemma {:induction false} RunKeepsSizes(points: seq<Point>, d: nat, visited: nat, run: seq<Config>, i: nat)
    requires Run(points, d, visited, run) && i < |run|
    ensures |run[i].centres| == |run[0].centres|
  {
    if i > 0 {
      assert Round(points, d, visited, run[i - 1], run[i]);
      RunKeepsSizes(points, d, visited, run, i - 1);
    }
  }

  /** No membership comes back while every round moves some point. */
  lemma NoMembershipRecurs(points: seq<Point>, d: nat, visited: nat, run: seq<Config>, i: nat, j: nat)
    requires Run(points, d, visited, run) && 0 < i < j < |run| && Busy(run, i, j) && Populated(run[i])
    ensures run[i].membership != run[j].membership
  {
    RunGoesDown(points, d, visited, run, i, j);
    if run[i].membership == run[j].membership {
      assert Round(points, d, visited, run[i - 1], run[i]) && Round(points, d, visited, run[j - 1], run[j]);
      RunKeepsSizes(points, d, visited, run, i);
      RunKeepsSizes(points, d, visited, run, j);
      MembersFixCentres(points, d, run[i], run[j]);
      assert false;
    }
  }

  // ---------------------------------------------------------------- how many memberships there are

  function Power(k: nat, n: nat): nat {
    if n == 0 then 1 else Power(k, n - 1) * k
  }

  // The first n memberships as digits of a number.
  function Code(membership: seq<int>, k: nat, n: nat): int
    requires n <= |membership|
  {
    if n == 0 then 0 else Code(membership, k, n - 1) * k + membership[n - 1]
  }

  predicate Digits(membership: seq<int>, k: nat, n: nat) {
    n <= |membership| && forall i :: 0 <= i < n ==> 0 <= membership[i] < k
  }

  lemma {:induction false} CodeFits(a: seq<int>, k: nat, n: nat)
    requires Digits(a, k, n)
    ensures 0 <= Code(a, k, n) < Power(k, n)
  {
    if n > 0 {
      CodeFits(a, k, n - 1);
      MulNonNegative(Code(a, k, n - 1), k);
      MulOrder(Power(k, n - 1), Code(a, k, n - 1), k);
    }
  }

  lemma {:induction false} CodeTells(a: seq<int>, b: seq<int>, k: nat, n: nat)
    requires Digits(a, k, n) && Digits(b, k, n) && Code(a, k, n) == Code(b, k, n)
    ensures a[..n] == b[..n]
  {
    if n > 0 {
      CodeFits(a, k, n - 1);
      CodeFits(b, k, n - 1);
      CodeFits(a, k, n);
      DivModUnique(Code(a, k, n), k, Code(a, k, n - 1), a[n - 1]);
      DivModUnique(Code(a, k, n), k, Code(b, k, n - 1), b[n - 1]);
      CodeTells(a, b, k, n - 1);
      assert a[..n] == a[..n - 1] + [a[n - 1]] && b[..n] == b[..n - 1] + [b[n - 1]];
    }
  }

  // Two memberships of a run that agree on the visited points are the same.
  lemma CodesDiffer(points: seq<Point>, d: nat, visited: nat, run: seq<Config>, i: nat, j: nat)
    requires Run(points, d, visited, run) && 0 < i < j < |run| && Busy(run, i, j) && Populated(run[i])
    ensures visited <= |run[i].membership| && visited <= |run[j].membership|
    ensures Code(run[i].membership, |run[0].centres|, visited) != Code(run[j].membership, |run[0].centres|, visited)
  {
    NoMembershipRecurs(points, d, visited, run, i, j);
    RunDigits(points, d, visited, run, i);
    RunDigits(points, d, visited, run, j);
    var a, b, k := run[i].membership, run[j].membership, |run[0].centres|;
    SameParts(a, b, visited);
    hide *;
    if Code(a, k, visited) == Code(b, k, visited) {
      CodeTells(a, b, k, visited);
      assert false;
    }
  }

  lemma RunDigits(points: seq<Point>, d: nat, visited: nat, run: seq<Config>, i: nat)
    requires Run(points, d, visited, run) && 0 < i < |run|
    ensures Digits(run[i].membership, |run[0].centres|, visited) && |run[i].membership| == |points|
    ensures forall k :: visited <= k < |points| ==> run[i].membership[k] == -1
  {
    RunAssigns(points, d, visited, run, i);
    RunKeepsSizes(points, d, visited, run, i);
  }

  /** A run of rounds of populated clusters that each move some point is no longer than there are
      ways to put the visited points into the clusters. */
  lemma BusyRunsAreShort(points: seq<Point>, d: nat, visited: nat, run: seq<Config>)
    requires Run(points, d, visited, run) && Busy(run, 1, |run| - 1)
    requires forall k :: 0 < k < |run| ==> Populated(run[k])
    ensures |run| - 1 <= Power(|run[0].centres|, visited)
  {
    var k := |run[0].centres|;
    forall i | 0 < i < |run|
      ensures Digits(run[i].membership, k, visited) && 0 <= Code(run[i].membership, k, visited) < Power(k, visited)
    {
      RunDigits(points, d, visited, run, i);
      CodeFits(run[i].membership, k, visited);
    }
    var codes := seq(|run| - 1, i requires 0 <= i < |run| - 1 => Code(run[i + 1].membership, k, visited));
    forall i, j | 0 <= i < j < |codes|
      ensures codes[i] != codes[j]
    {
      CodesDiffer(points, d, visited, run, i + 1, j + 1);
    }
    ListLength(codes, Elements(codes), Power(k, visited));
  }

  /** With a threshold that is not negative the loop ends by itself, whatever its bound. */
  lemma LoopIsBounded(feature: seq<Point>, width: nat, visited: nat, s: Config, run: seq<Config>, loop: nat,
                      loopMax: int, threshold: int)
    requires Going(feature, width, visited, s, run, loop, loopMax, threshold) && threshold >= 0
    ensures loop <= Power(|s.centres|, visited)
  {
    forall k | 1 < k <= loop
      ensures run[k].membership != run[k - 1].membership
    {
      assert ChangesIn(run, k) > 0;
      var changed := Changed(run[k - 1].membership, run[k].membership);
      var i :| i in changed;
    }
    BusyRunsAreShort(feature, width, visited, run);
  }
}
