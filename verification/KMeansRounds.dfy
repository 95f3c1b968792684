/**
 The round loop of kmeans_clustering: reassign the points, update the clusters, clear the marks.
 The incremental state agrees with Lloyd's algorithm as long as every cluster keeps a point.
 */
module KMeansRounds {
  import Arithmetic
  import opened Lloyd
  import opened PointLists
  import opened KMeans

  // ---------------------------------------------------------------- one cluster, on values

  // moved marks exactly the points whose membership the round has changed.
  predicate Marks(before: seq<int>, now: seq<int>, moved: seq<bool>) {
    |before| == |now| == |moved| && forall i :: 0 <= i < |now| ==> (moved[i] <==> now[i] != before[i])
  }

  lemma MembersAfter(before: seq<int>, now: seq<int>, moved: seq<bool>, olds: seq<int>, c: int)
    requires Marks(before, now, moved) && Lists(olds, Members(before, c))
    ensures Elements(olds) - Gone(olds, moved) !! Joiners(before, now, c)
    ensures Elements(olds) - Gone(olds, moved) + Joiners(before, now, c) == Members(now, c)
  {
    var stay := Elements(olds) - Gone(olds, moved);
    forall x | x in Elements(olds)
      ensures x in olds && 0 <= x < |now| && before[x] == c
    {
      assert x in Members(before, c);
    }
    forall x | x in Members(before, c)
      ensures x in olds
    {
      assert x in Elements(olds);
    }
  }

  // A cluster loses its last point exactly when no point is its member; otherwise its array
  // starts with its members, each once.
  lemma RegionsListMembers(before: seq<int>, now: seq<int>, moved: seq<bool>, olds: seq<int>, news: seq<int>,
                           points: seq<int>, count: nat, c: int)
    requires Marks(before, now, moved)
    requires Lists(olds, Members(before, c)) && Lists(news, Joiners(before, now, c))
    requires Processed(olds, news, moved, points, count)
    ensures LosesAll(olds, news, moved) <==> Members(now, c) == {}
    ensures Members(now, c) == {} ==> count == 1
    ensures Members(now, c) != {} ==> |news| <= count <= |points| && Lists(points[..count], Members(now, c))
    ensures Members(now, c) != {} ==> points[count - |news|..count] == news
  {
    MembersAfter(before, now, moved, olds, c);
    var stay := Elements(olds) - Gone(olds, moved);
    assert Gone(olds, moved) <= Elements(olds);
    assert news == [] <==> Joiners(before, now, c) == {} by {
      if news != [] { assert news[0] in Elements(news); } else { assert Elements(news) == {}; }
    }
    assert stay == {} <==> Elements(olds) == Gone(olds, moved) by {
      if stay == {} { assert forall x :: x in Elements(olds) ==> x in stay || x in Gone(olds, moved); }
    }
    if !LosesAll(olds, news, moved) {
      ListsConcatenated(points[..count - |news|], stay, news, Joiners(before, now, c));
      assert points[..count - |news|] + points[count - |news|..count] == points[..count];
    }
  }

  lemma ShiftedIsMean(feature: seq<Point>, before: seq<int>, now: seq<int>, moved: seq<bool>, olds: seq<int>,
                      news: seq<int>,
                      count: nat, c: int, was: Point, centre: Point)
    requires Marks(before, now, moved) && |now| == |feature|
    requires Lists(olds, Members(before, c)) && Lists(news, Joiners(before, now, c))
    requires Shifted(feature, |olds|, was, news, Gone(olds, moved), count, centre)
    requires Mean(feature, Members(before, c), |was|, was) && count == |Members(now, c)|
    ensures Mean(feature, Members(now, c), |was|, centre)
  {
    var stay, gone, joined := Elements(olds) - Gone(olds, moved), Gone(olds, moved), Joiners(before, now, c);
    MembersAfter(before, now, moved, olds, c);
    assert gone <= Elements(olds);
    assert stay + gone == Members(before, c);
    ListLength(olds, Members(before, c), |feature|);
    CountIsSize(Members(before, c), |feature|);
    CountIsSize(Members(now, c), |feature|);
    forall j | 0 <= j < |was|
      ensures MeanOf(centre[j], Sum(feature, Members(now, c), j, |feature|), Count(Members(now, c), |feature|))
    {
      SumOfUnion(feature, stay, gone, j, |feature|);
      SumOfUnion(feature, stay, joined, j, |feature|);
      SumOfList(feature, news, j);
      assert MeanOf(was[j], Sum(feature, Members(before, c), j, |feature|), |olds|);
      BlendOfMean(|olds|, was[j], Sum(feature, Members(before, c), j, |feature|),
                  ListSum(feature, news, j) - Sum(feature, gone, j, |feature|));
    }
  }

  // The repair branch multiplies how far the patched centre is from the old mean.
  lemma RepairedFromMean(feature: seq<Point>, before: seq<int>, now: seq<int>, moved: seq<bool>, olds: seq<int>, c: int,
                         was: Point, from: Point, torn: real, centre: Point)
    requires Marks(before, now, moved) && |now| == |feature| && |from| == |was|
    requires Lists(olds, Members(before, c)) && LosesAll(olds, [], moved)
    requires Shifted(feature, |olds|, Patched(was, from, torn), [], Gone(olds, moved), 1, centre)
    requires Mean(feature, Members(before, c), |was|, was)
    ensures centre == RepairedCentre(|Members(before, c)|, was, from, torn)
  {
    ListLength(olds, Members(before, c), |feature|);
    CountIsSize(Members(before, c), |feature|);
    forall j | 0 <= j < |was|
      ensures centre[j] == RepairedCentre(|Members(before, c)|, was, from, torn)[j]
    {
      var sum := Sum(feature, Members(before, c), j, |feature|);
      assert MeanOf(was[j], sum, |olds|);
      assert MeanOf(centre[j], Blend(|olds|, PatchedAt(was, from, torn, j), 0.0 - sum), 1);
      BlendOfGone(|olds|, PatchedAt(was, from, torn, j), was[j], sum, centre[j]);
    }
  }

  lemma BlendOfGone(w: nat, a: real, m: real, sum: real, z: real)
    requires MeanOf(m, sum, w) && MeanOf(z, Blend(w, a, 0.0 - sum), 1)
    ensures z == w as real * (a - m)
  {
  }

  // A cluster that never had a point is repaired to the origin, wherever its first point is.
  lemma RepairedFromNothing(was: Point, from: Point, torn: real)
    requires |was| == |from|
    ensures RepairedCentre(0, was, from, torn) == seq(|was|, _ => 0.0)
  {
  }

  lemma BlendOfMean(w: nat, a: real, sum: real, b: real)
    requires MeanOf(a, sum, w)
    ensures Blend(w, a, b) == sum + b
  {
  }

  // A cluster's array has room for one point that is not listed yet.
  lemma Room(before: seq<int>, now: seq<int>, olds: seq<int>, news: seq<int>, p: nat, c: int)
    requires |before| == |now| && p < |now| && now[p] == before[p] != c
    requires Lists(olds, Members(before, c)) && Lists(news, Joiners(before, now, c))
    ensures |olds| + |news| < |now|
  {
    var S := Members(before, c) + Joiners(before, now, c);
    ListsConcatenated(olds, Members(before, c), news, Joiners(before, now, c));
    assert Lists([p], {p});
    ListsConcatenated(olds + news, S, [p], {p});
    ListLength(olds + news + [p], S + {p}, |now|);
  }

  // One of the first k clusters has no member.
  predicate AnyEmpty(now: seq<int>, k: nat) {
    exists c :: 0 <= c < k && Members(now, c) == {}
  }

  lemma NextEmpty(now: seq<int>, k: nat)
    ensures AnyEmpty(now, k + 1) <==> AnyEmpty(now, k) || Members(now, k) == {}
  {
  }

  // The points whose membership differs.
  function Changed(before: seq<int>, now: seq<int>): set<int>
    requires |before| == |now|
  {
    set i | 0 <= i < |now| && now[i] != before[i]
  }

  // How many points the round has brought to the first c clusters.
  function Arrivals(before: seq<int>, now: seq<int>, c: nat): nat
    requires |before| == |now|
  {
    if c == 0 then 0 else Arrivals(before, now, c - 1) + |Joiners(before, now, c - 1)|
  }

  lemma NextArrivals(before: seq<int>, now: seq<int>, c: nat)
    requires |before| == |now|
    ensures Arrivals(before, now, 0) == 0
    ensures Arrivals(before, now, c + 1) == Arrivals(before, now, c) + |Joiners(before, now, c)|
  {
  }

  lemma {:induction false} ArrivalsCount(before: seq<int>, now: seq<int>, c: nat)
    requires |before| == |now|
    ensures Arrivals(before, now, c) == |set i | 0 <= i < |now| && now[i] != before[i] && 0 <= now[i] < c|
  {
    var arrived := set i | 0 <= i < |now| && now[i] != before[i] && 0 <= now[i] < c;
    if c == 0 {
      assert arrived == {};
    } else {
      ArrivalsCount(before, now, c - 1);
      var earlier := set i | 0 <= i < |now| && now[i] != before[i] && 0 <= now[i] < c - 1;
      assert arrived == earlier + Joiners(before, now, c - 1);
      assert earlier !! Joiners(before, now, c - 1);
    }
  }

  lemma ArrivalsAreChanges(before: seq<int>, now: seq<int>, k: nat)
    requires |before| == |now|
    requires forall i :: 0 <= i < |now| && now[i] != before[i] ==> 0 <= now[i] < k
    ensures Arrivals(before, now, k) == |Changed(before, now)|
  {
    ArrivalsCount(before, now, k);
    assert Changed(before, now) == set i | 0 <= i < |now| && now[i] != before[i] && 0 <= now[i] < k;
  }

  lemma BelowMembers(before: seq<int>, now: seq<int>, c: int)
    requires |before| == |now|
    ensures Below(Members(now, c), |now|) && Below(Joiners(before, now, c), |now|)
  {
  }

  lemma StrandedInTask(feature: seq<Point>, width: nat, centres: seq<Point>, tid: nat, work: nat, ntasks: nat)
    requires tid < ntasks && Stranded(feature, width, centres, First(tid, work), First(tid, work) + work)
    ensures Stranded(feature, width, centres, 0, First(ntasks, work))
  {
    Arithmetic.MulOrder(ntasks, tid, work);
  }

  // Of two equal centres the later one attracts no point, so its cluster has none after the round.
  lemma EqualCentresEmptyACluster(feature: seq<Point>, width: nat, visited: nat, s: Config, t: Config, j: nat, c: nat)
    requires Reassigned(feature, width, visited, s, t.membership) && Unvisited(s, visited)
    requires j < c < |s.centres| == |t.centres| && s.centres[j] == s.centres[c]
    ensures !EachAttracts(feature, width, visited, s.centres)
    ensures Members(t.membership, c) == {} && !Populated(t)
  {
    assert !Attracts(feature, width, visited, s.centres, c);
    MembersIffAttracts(feature, width, visited, s, t.membership, c);
  }

  // The start of a program on two equal points, with one task: both are visited.
  lemma EqualPairEmptiesACluster(t: Config)
    requires Reassigned([[1.0], [1.0]], 1, Visited(2, 1), Config([-1, -1], [[1.0], [1.0]]), t.membership)
    requires |t.centres| == 2
    ensures Visited(2, 1) == 2 && !Populated(t) && !EachAttracts([[1.0], [1.0]], 1, Visited(2, 1), [[1.0], [1.0]])
  {
    var points: seq<Point> := [[1.0], [1.0]];
    WholeTasksFit(2, 1);
    EqualCentresEmptyACluster(points, 1, Visited(2, 1), Config([-1, -1], points), t, 0, 1);
  }

  // Some visited point is nearest to centre c.
  predicate Attracts(feature: seq<Point>, width: nat, visited: nat, centres: seq<Point>, c: nat) {
    exists i :: 0 <= i < visited && i < |feature| && Nearest(feature[i], centres, width, c)
  }

  predicate EachAttracts(feature: seq<Point>, width: nat, visited: nat, centres: seq<Point>) {
    forall c: nat :: c < |centres| ==> Attracts(feature, width, visited, centres, c)
  }

  // The points from n on, which no task covers, have no cluster.
  predicate Unvisited(s: Config, n: nat) {
    forall i :: n <= i < |s.membership| ==> s.membership[i] == -1
  }

  lemma NoneVisited(s: Config, n: nat)
    requires forall i :: 0 <= i < |s.membership| ==> s.membership[i] == -1
    ensures Unvisited(s, n)
  {
  }

  // A cluster has members after a round exactly when its centre was nearest to a visited point.
  lemma MembersIffAttracts(feature: seq<Point>, width: nat, visited: nat, s: Config, now: seq<int>, c: nat)
    requires Reassigned(feature, width, visited, s, now) && Unvisited(s, visited)
    ensures Members(now, c) != {} <==> Attracts(feature, width, visited, s.centres, c)
  {
    forall i | 0 <= i < visited
      ensures Nearest(feature[i], s.centres, width, c) <==> now[i] == c
    {
      assert Nearest(feature[i], s.centres, width, now[i]);
    }
    if Members(now, c) != {} {
      var i :| i in Members(now, c);
      assert i < visited;
    }
    if Attracts(feature, width, visited, s.centres, c) {
      var i :| 0 <= i < visited && Nearest(feature[i], s.centres, width, c);
      assert i in Members(now, c);
    }
  }

  lemma PopulatedIffEachAttracts(feature: seq<Point>, width: nat, visited: nat, s: Config, t: Config)
    requires Reassigned(feature, width, visited, s, t.membership) && Unvisited(s, visited)
    requires |t.centres| == |s.centres|
    ensures Populated(t) <==> EachAttracts(feature, width, visited, s.centres)
    ensures Unvisited(t, visited)
  {
    forall c: nat | c < |s.centres|
      ensures Members(t.membership, c) != {} <==> Attracts(feature, width, visited, s.centres, c)
    {
      MembersIffAttracts(feature, width, visited, s, t.membership, c);
    }
    hide Attracts, Members, Nearest;
  }

  // Centre c after a round: the mean of its members, or what the repair branch leaves.
  predicate CentreIs(feature: seq<Point>, width: nat, s: Config, t: Config, torn: seq<real>, c: nat)
    requires c < |s.centres| == |t.centres| == |torn|
  {
    if Members(t.membership, c) != {} then Mean(feature, Members(t.membership, c), width, t.centres[c])
    else
      && c < |feature| && |feature[c]| == |s.centres[c]|
      && t.centres[c] == RepairedCentre(|Members(s.membership, c)|, s.centres[c], feature[c], torn[c])
  }

  predicate Recentred(feature: seq<Point>, width: nat, s: Config, t: Config, torn: seq<real>) {
    |s.centres| == |t.centres| == |torn| && forall c: nat :: c < |t.centres| ==> CentreIs(feature, width, s, t, torn, c)
  }

  // No centre is within FLT_MAX of p: the assertion in find_nearest_point fails.
  predicate Far(p: Point, centres: seq<Point>, width: nat) {
    forall k :: 0 <= k < |centres| ==> Dist(p, centres[k], width) >= FLT_MAX
  }

  // Some point among those from lo up to hi is far from every centre.
  predicate Stranded(feature: seq<Point>, width: nat, centres: seq<Point>, lo: nat, hi: nat) {
    exists i :: lo <= i < hi && i < |feature| && Far(feature[i], centres, width)
  }

  // The first point of a task.
  function First(tid: nat, work: nat): nat {
    tid * work
  }

  lemma NextTask(tid: nat, work: nat)
    ensures First(tid + 1, work) == First(tid, work) + work
  {
  }

  // Only visited points change cluster, and they go to clusters.
  lemma AssignedInRange(feature: seq<Point>, width: nat, visited: nat, s: Config, now: seq<int>)
    requires Reassigned(feature, width, visited, s, now)
    ensures |now| == |s.membership| == |feature|
    ensures forall i :: 0 <= i < |now| && now[i] != s.membership[i] ==> 0 <= now[i] < |s.centres|
  {
    forall i | 0 <= i < |now| && now[i] != s.membership[i]
      ensures 0 <= now[i] < |s.centres|
    {
      assert Nearest(feature[i], s.centres, width, now[i]);
    }
  }

  lemma NothingMarked(now: seq<int>, moved: seq<bool>)
    requires |moved| == |now| && forall i :: 0 <= i < |moved| ==> !moved[i]
    ensures Marks(now, now, moved)
  {
  }

  // ---------------------------------------------------------------- the program

  // How the loop of kmeans_clustering ends: by its own condition, by the failed assertion in
  // find_nearest_point, or, for this model, when a cluster has lost its last point.
  datatype Outcome = Finished | NoNearestCentre | ClusterEmptied

  // How many points the tasks of a round cover: the remainder of the division is never visited.
  function Visited(npoints: nat, ntasks: nat): nat
    requires ntasks > 0
  {
    First(ntasks, npoints / ntasks)
  }

  lemma WholeTasksFit(npoints: nat, ntasks: nat)
    requires ntasks > 0
    ensures Visited(npoints, ntasks) <= npoints < Visited(npoints, ntasks) + ntasks
    ensures Visited(npoints, ntasks) == npoints <==> npoints % ntasks == 0
    ensures First(ntasks, npoints / ntasks) == Visited(npoints, ntasks)
  {
    assert npoints == ntasks * (npoints / ntasks) + npoints % ntasks;
  }

  // How many points the k-th round has moved to another cluster.
  function ChangesIn(run: seq<Config>, k: nat): nat
    requires 0 < k < |run|
  {
    if |run[k - 1].membership| != |run[k].membership| then 0
    else |Changed(run[k - 1].membership, run[k].membership)|
  }

  // After `loop` rounds that have left every cluster populated and moved more points than the
  // threshold each, with another round to come.
  predicate Going(feature: seq<Point>, width: nat, visited: nat, s: Config, run: seq<Config>, loop: nat,
                  loopMax: int, threshold: int)
  {
    && |run| == loop + 1 && run[0] == s && Run(feature, width, visited, run)
    && (loop > 0 ==> loop < loopMax)
    && forall k :: 0 < k <= loop ==> Populated(run[k]) && ChangesIn(run, k) > threshold
  }

  // After the last round, which has reached the bound or moved no more points than the threshold.
  predicate Ended(feature: seq<Point>, width: nat, visited: nat, s: Config, run: seq<Config>, loop: nat,
                  loopMax: int, threshold: int, sumDelta: nat)
  {
    && |run| == loop + 1 > 1 && run[0] == s && Run(feature, width, visited, run)
    && sumDelta == ChangesIn(run, loop) && (loop >= loopMax || sumDelta <= threshold)
    && (loop > 1 ==> loop <= loopMax)
    && (forall k :: 0 < k <= loop ==> Populated(run[k]))
    && (forall k :: 0 < k < loop ==> ChangesIn(run, k) > threshold)
  }

  /** What the do loop promises: at least one round; one more as long as the bound is not reached and
      the last one moved more points than the threshold; and none after that. */
  lemma EndedMeans(feature: seq<Point>, width: nat, visited: nat, s: Config, run: seq<Config>, loop: nat,
                   loopMax: int, threshold: int, sumDelta: nat)
    requires Ended(feature, width, visited, s, run, loop, loopMax, threshold, sumDelta)
    ensures |run| == loop + 1 && loop >= 1 && (loop == 1 || loop <= loopMax)
    ensures loop >= loopMax || sumDelta <= threshold
    ensures forall k :: 0 <= k <= loop ==> |run[k].membership| == |run[0].membership|
    ensures sumDelta == |Changed(run[loop - 1].membership, run[loop].membership)|
    ensures forall k :: 0 < k < loop ==> |Changed(run[k - 1].membership, run[k].membership)| > threshold
  {
    forall k | 0 <= k <= loop
      ensures |run[k].membership| == |run[0].membership|
    {
      RunKeepsLength(feature, width, visited, run, k);
    }
    forall k | 0 < k <= loop
      ensures ChangesIn(run, k) == |Changed(run[k - 1].membership, run[k].membership)|
    {
    }
    hide Changed, Populated, Run;
  }

  lemma {:induction false} RunKeepsLength(feature: seq<Point>, width: nat, visited: nat, run: seq<Config>, k: nat)
    requires Run(feature, width, visited, run) && k < |run|
    ensures |run[k].membership| == |run[0].membership|
  {
    if k > 0 {
      assert Round(feature, width, visited, run[k - 1], run[k]);
      RunKeepsLength(feature, width, visited, run, k - 1);
    }
  }

  lemma StartOfRun(feature: seq<Point>, width: nat, visited: nat, s: Config, loopMax: int, threshold: int)
    requires forall i :: 0 <= i < |s.membership| ==> s.membership[i] == -1
    ensures Going(feature, width, visited, s, [s], 0, loopMax, threshold)
  {
  }

  lemma RunExtended(feature: seq<Point>, width: nat, visited: nat, s: Config, run: seq<Config>, loop: nat,
                    loopMax: int, threshold: int, t: Config, sumDelta: nat)
    requires Going(feature, width, visited, s, run, loop, loopMax, threshold) && |run| == loop + 1
    requires Round(feature, width, visited, run[loop], t) && Populated(t)
    requires |t.membership| == |run[loop].membership| && sumDelta == |Changed(run[loop].membership, t.membership)|
    ensures loop + 1 < loopMax && sumDelta > threshold ==>
      Going(feature, width, visited, s, run + [t], loop + 1, loopMax, threshold)
    ensures loop + 1 >= loopMax || sumDelta <= threshold ==>
      Ended(feature, width, visited, s, run + [t], loop + 1, loopMax, threshold, sumDelta)
  {
    hide Run, Round, Populated, Changed, ChangesIn;
    var longer := run + [t];
    RunLonger(feature, width, visited, run, t);
    ChangesLonger(run, t);
    assert forall k :: 0 < k < |run| ==> longer[k] == run[k];
  }

  lemma RunLonger(feature: seq<Point>, width: nat, visited: nat, run: seq<Config>, t: Config)
    requires Run(feature, width, visited, run) && Round(feature, width, visited, run[|run| - 1], t)
    ensures Run(feature, width, visited, run + [t])
  {
    hide Round;
    var longer := run + [t];
    forall k | 0 < k < |longer|
      ensures Round(feature, width, visited, longer[k - 1], longer[k])
    {
      if k < |run| { assert longer[k - 1] == run[k - 1] && longer[k] == run[k]; }
    }
  }

  lemma ChangesLonger(run: seq<Config>, t: Config)
    requires run != [] && |t.membership| == |run[|run| - 1].membership|
    ensures forall k :: 0 < k < |run| ==> ChangesIn(run + [t], k) == ChangesIn(run, k)
    ensures ChangesIn(run + [t], |run|) == |Changed(run[|run| - 1].membership, t.membership)|
  {
    hide Changed;
  }

  // A later round whose sum_delta is zero has left everything as it was: every visited point is
  // nearest to its own centre and every centre is the mean of its points.
  lemma QuietRoundInRun(feature: seq<Point>, width: nat, visited: nat, run: seq<Config>, j: nat)
    requires Run(feature, width, visited, run) && 1 < j < |run| && Populated(run[j - 1])
    requires ChangesIn(run, j) == 0
    ensures run[j] == run[j - 1] && Means(feature, width, run[j])
    ensures visited <= |feature| && |run[j].membership| == |feature|
    ensures forall i :: 0 <= i < visited ==> Nearest(feature[i], run[j].centres, width, run[j].membership[i])
  {
    hide Nearest, Mean;
    assert Round(feature, width, visited, run[j - 2], run[j - 1]) && Round(feature, width, visited, run[j - 1], run[j]);
    var before, now := run[j - 1].membership, run[j].membership;
    assert Changed(before, now) == {};
    forall i | 0 <= i < |now|
      ensures now[i] == before[i]
    {
      assert i !in Changed(before, now);
    }
    QuietRoundIsFixedPoint(feature, width, visited, run[j - 1], run[j]);
  }

  // No two cluster records share an array.
  predicate Apart(cs: seq<Cluster>) {
    && (forall a, b :: 0 <= a < b < |cs| ==>
      && cs[a] != cs[b] && cs[a].points != cs[b].points
      && cs[a].centre != cs[b].centre && cs[a].newCentre != cs[b].newCentre)
    && (forall a, b :: 0 <= a < |cs| && 0 <= b < |cs| ==> cs[a].centre != cs[b].newCentre)
  }

  class Clustering {
    const feature: seq<Point>
    const width: nat
    const clusters: seq<Cluster>
    const membership: array<int>
    const moved: array<bool>
    var sumDelta: nat

    // Every array has its size and stands apart.
    predicate Structured() {
      && Apart(clusters) && (forall c :: 0 <= c < |clusters| ==> clusters[c].points != membership)
      && Table(feature, width) && |clusters| <= |feature|
      && membership.Length == |feature| && moved.Length == |feature|
      && (forall c :: 0 <= c < |clusters| ==> clusters[c].Sized(|feature|, width))
    }

    predicate Valid()
      reads clusters
    {
      Structured() && forall c :: 0 <= c < |clusters| ==> clusters[c].Valid(|feature|, width)
    }

    lemma StructuredIsValid()
      requires Structured()
      requires forall c :: 0 <= c < |clusters| ==> clusters[c].oldPoints + clusters[c].newPoints <= |feature|
      ensures Valid()
    {
    }

    // The cluster records and their arrays.
    ghost function Footprint(): set<object> {
      (set c: Cluster | c in clusters) + (set c: Cluster | c in clusters :: c.points)
      + (set c: Cluster | c in clusters :: c.centre) + (set c: Cluster | c in clusters :: c.newCentre)
    }

    predicate HasCentres(centres: seq<Point>)
      reads set c: Cluster | c in clusters :: c.centre
    {
      |centres| == |clusters| && forall c :: 0 <= c < |clusters| ==> clusters[c].centre[..] == centres[c]
    }

    // During reassignment: every cluster lists its points of the last round, then those that joined.
    predicate Grouped(before: seq<int>, now: seq<int>)
      requires |before| == |now|
      reads clusters, set c: Cluster | c in clusters :: c.points
    {
      forall c :: 0 <= c < |clusters| ==> clusters[c].Pending(before, now, c)
    }

    // euclid_dist_2
    method EuclidDist2(pt: Point, c: nat) returns (ans: real)
      requires Valid() && c < |clusters| && |pt| == width
      ensures ans == Dist(pt, clusters[c].centre[..], width)
    {
      ans := 0.0;
      for i := 0 to width
        invariant ans == Dist(pt, clusters[c].centre[..], i)
      {
        var diff := pt[i] - clusters[c].centre[i];
        ans := ans + diff * diff;
        assert Sq(diff) == diff * diff;
      }
    }

    method FindNearestPoint(pt: Point, ghost centres: seq<Point>) returns (index: int)
      requires Valid() && |pt| == width && HasCentres(centres)
      ensures index == -1 <==> Far(pt, centres, width)
      ensures index != -1 ==> Nearest(pt, centres, width, index)
    {
      index := -1;
      var best := FLT_MAX;
      for i := 0 to |clusters|
        invariant best <= FLT_MAX && (forall k :: 0 <= k < i ==> best <= Dist(pt, centres[k], width))
        invariant index == -1 ==> best == FLT_MAX
        invariant index != -1 ==> 0 <= index < i && best == Dist(pt, centres[index], width) < FLT_MAX
        invariant forall k :: 0 <= k < index ==> best < Dist(pt, centres[k], width)
      {
        var dist := EuclidDist2(pt, i);
        assert clusters[i].centre[..] == centres[i];
        if dist < best {
          best := dist;
          index := i;
        }
      }
    }

    method AddPointToCluster(p: nat, c: nat)
      requires Valid() && p < |feature| && c < |clusters|
      requires clusters[c].oldPoints + clusters[c].newPoints < |feature|
      modifies membership, moved, clusters[c], clusters[c].points
      ensures Valid()
      ensures membership[..] == old(membership[..])[p := c] && moved[..] == old(moved[..])[p := true]
      ensures clusters[c].Olds() == old(clusters[c].Olds()) && clusters[c].News() == old(clusters[c].News()) + [p]
    {
      var k := clusters[c];
      moved[p] := true;
      membership[p] := c;
      var index := k.newPoints + k.oldPoints;
      k.newPoints := k.newPoints + 1;
      k.points[index] := p;
    }

    // One more point joins cluster c, in the lists of all clusters.
    lemma JoinerAdded(before: seq<int>, now: seq<int>, p: nat, c: nat, k: nat)
      requires |before| == |now| && p < |now| && now[p] == before[p] != c
      ensures Joiners(before, now[p := c], k) == Joiners(before, now, k) + if k == c then {p} else {}
    {
    }

    method Join(p: nat, c: nat, ghost before: seq<int>, ghost centres: seq<Point>)
      requires Valid() && HasCentres(centres) && |before| == |feature| && p < |feature| && c < |clusters|
      requires Marks(before, membership[..], moved[..]) && Grouped(before, membership[..])
      requires membership[p] == before[p] != c
      modifies membership, moved, clusters[c], clusters[c].points
      ensures Valid() && HasCentres(centres)
      ensures membership[..] == old(membership[..])[p := c]
      ensures Marks(before, membership[..], moved[..]) && Grouped(before, membership[..])
    {
      ghost var now := membership[..];
      Room(before, now, clusters[c].Olds(), clusters[c].News(), p, c);
      AddPointToCluster(p, c);
      forall k | 0 <= k < |clusters|
        ensures Lists(clusters[k].Olds(), Members(before, k))
        ensures Lists(clusters[k].News(), Joiners(before, now[p := c], k))
      {
        JoinerAdded(before, now, p, c, k);
        if k == c {
          assert Lists([p], {p});
          ListsConcatenated(old(clusters[c].News()), Joiners(before, now, c), [p], {p});
        } else {
          assert clusters[k] != clusters[c] && clusters[k].points != clusters[c].points;
          assert clusters[k].Olds() == old(clusters[k].Olds());
          assert clusters[k].News() == old(clusters[k].News());
        }
      }
    }

    // The body of the loop of process_point.
    method Visit(i: nat, ghost before: seq<int>, ghost centres: seq<Point>) returns (ok: bool)
      requires Valid() && HasCentres(centres) && |before| == |feature| && i < |feature|
      requires Marks(before, membership[..], moved[..]) && Grouped(before, membership[..])
      requires membership[i] == before[i]
      modifies membership, moved, clusters, set c: Cluster | c in clusters :: c.points
      ensures Valid() && HasCentres(centres)
      ensures Marks(before, membership[..], moved[..]) && Grouped(before, membership[..])
      ensures forall k :: 0 <= k < |feature| && k != i ==> membership[k] == old(membership[k])
      ensures ok ==> Nearest(feature[i], centres, width, membership[i])
      ensures !ok ==> Far(feature[i], centres, width)
    {
      ok := true;
      var index := FindNearestPoint(feature[i], centres);
      if index == -1 {
        return false;
      }
      ghost var now := membership[..];
      if membership[i] != index {
        hide Marks, Grouped, Joiners, Members, Lists;
        assert index < |clusters|;
        hide HasCentres;
        Join(i, index, before, centres);
        assert forall k :: 0 <= k < |feature| ==> membership[k] == membership[..][k] == now[i := index][k];
      }
    }

    // One process_point task; false when the assertion in find_nearest_point stops the program.
    method ProcessPoint(tid: nat, work: nat, ghost before: seq<int>, ghost centres: seq<Point>) returns (ok: bool)
      requires Valid() && HasCentres(centres) && |before| == |feature|
      requires Marks(before, membership[..], moved[..]) && Grouped(before, membership[..])
      requires forall i :: First(tid, work) <= i < |feature| ==> membership[i] == before[i]
      modifies membership, moved, clusters, set c: Cluster | c in clusters :: c.points
      ensures Valid() && HasCentres(centres)
      ensures Marks(before, membership[..], moved[..]) && Grouped(before, membership[..])
      ensures forall i :: 0 <= i < First(tid, work) && i < |feature| ==> membership[i] == old(membership[i])
      ensures forall i :: First(tid, work) + work <= i < |feature| ==> membership[i] == old(membership[i])
      ensures ok ==> forall i :: First(tid, work) <= i < First(tid, work) + work && i < |feature| ==>
        Nearest(feature[i], centres, width, membership[i])
      ensures !ok ==> Stranded(feature, width, centres, First(tid, work), First(tid, work) + work)
    {
      var start := First(tid, work);
      var end := start + work;
      end := if end > |feature| then |feature| else end;
      hide Marks, Grouped, HasCentres, Nearest, First, Far;
      var i := start;
      while i < end
        invariant start <= i && (i <= end || i == start)
        invariant Valid() && HasCentres(centres)
        invariant Marks(before, membership[..], moved[..]) && Grouped(before, membership[..])
        invariant forall k :: 0 <= k < |feature| && !(start <= k < i) ==> membership[k] == old(membership[k])
        invariant forall k :: start <= k < i ==> Nearest(feature[k], centres, width, membership[k])
      {
        ok := Visit(i, before, centres);
        if !ok {
          return;
        }
        i := i + 1;
      }
      ok := true;
    }

    // The process_cluster task of cluster c.
    method UpdateCluster(c: nat, torn: real, ghost before: seq<int>, ghost now: seq<int>, ghost flags: seq<bool>,
                         ghost was: Point)
      returns (repaired: bool)
      requires Valid() && c < |clusters| && |now| == |feature|
      requires Marks(before, now, flags) && moved[..] == flags && clusters[c].Pending(before, now, c)
      requires clusters[c].centre[..] == was && Mean(feature, Members(before, c), width, was)
      modifies `sumDelta, clusters[c], clusters[c].points, clusters[c].centre, clusters[c].newCentre
      ensures Valid() && clusters[c].Updated(feature, before, now, c, was, torn)
      ensures sumDelta == old(sumDelta) + |Joiners(before, now, c)| && (repaired <==> Members(now, c) == {})
    {
      var k := clusters[c];
      ghost var olds, news := k.Olds(), k.News();
      PendingParts(k, before, now, c);
      ValidParts(c);
      assert |now| == |before| == |flags| by { MarksSizes(before, now, flags); }
      hide *;
      var delta: nat;
      delta, repaired := k.Process(c, feature, moved, torn, olds, news, flags);
      UpdatedBy(k, c, torn, before, now, flags, was, olds, news);
      StillValid(c);
      sumDelta := sumDelta + delta;
    }

    lemma MarksSizes(before: seq<int>, now: seq<int>, flags: seq<bool>)
      requires Marks(before, now, flags)
      ensures |before| == |now| == |flags|
    {
    }

    lemma ValidParts(c: nat)
      requires Valid() && c < |clusters|
      ensures Structured() && forall k :: 0 <= k < |clusters| ==> clusters[k].Valid(|feature|, width)
      ensures forall k :: 0 <= k < |clusters| && k != c ==> clusters[k] != clusters[c]
      ensures moved.Length == membership.Length == |feature|
    {
    }

    lemma StillValid(c: nat)
      requires Structured() && c < |clusters| && clusters[c].oldPoints + clusters[c].newPoints <= |feature|
      requires forall k :: 0 <= k < |clusters| && k != c ==> clusters[k].Valid(|feature|, width)
      ensures Valid()
    {
    }

    lemma PendingParts(k: Cluster, before: seq<int>, now: seq<int>, c: nat)
      requires Valid() && c < |clusters| && k == clusters[c] && |before| == |now| == |feature|
      requires k.Pending(before, now, c)
      ensures k.Valid(|feature|, width) && Table(feature, width) && c < |feature| && |feature[c]| == width
      ensures k.points.Length == |feature| && k.centre.Length == k.newCentre.Length == width
      ensures k.oldPoints <= k.points.Length && k.oldPoints + k.newPoints <= k.points.Length
      ensures Lists(k.Olds(), Members(before, c)) && Lists(k.News(), Joiners(before, now, c))
      ensures Distinct(k.Olds()) && Below(Elements(k.Olds()), |feature|) && Below(Elements(k.News()), |feature|)
    {
      k.ListedBelow(before, now, c);
    }

    lemma UpdatedBy(k: Cluster, c: nat, torn: real, before: seq<int>, now: seq<int>, flags: seq<bool>, was: Point,
                    olds: seq<int>, news: seq<int>)
      requires Marks(before, now, flags) && |now| == |feature| && Mean(feature, Members(before, c), |was|, was)
      requires Lists(olds, Members(before, c)) && Lists(news, Joiners(before, now, c))
      requires k.newPoints == 0 && k.prevNewPoints == |news| && k.points.Length == |feature|
      requires Processed(olds, news, flags, k.points[..], k.oldPoints)
      requires c < |feature| && |feature[c]| == |was| == k.centre.Length
      requires var start := if LosesAll(olds, news, flags) then Patched(was, feature[c], torn) else was;
               Shifted(feature, |olds|, start, news, Gone(olds, flags), k.oldPoints, k.centre[..])
      ensures k.Updated(feature, before, now, c, was, torn) && k.oldPoints <= |feature|
      ensures |news| == |Joiners(before, now, c)| && (LosesAll(olds, news, flags) <==> Members(now, c) == {})
    {
      RegionsListMembers(before, now, flags, olds, news, k.points[..], k.oldPoints, c);
      BelowMembers(before, now, c);
      ListLength(news, Joiners(before, now, c), |feature|);
      if LosesAll(olds, news, flags) {
        NothingJoins(olds, news, flags);
        hide Marks, Lists, Processed, Shifted, Mean, LosesAll, Gone, Patched;
        RepairedFromMean(feature, before, now, flags, olds, c, was, feature[c], torn, k.centre[..]);
        hide *;
        RepairedIsUpdated(k, c, torn, before, now, was);
      } else {
        hide Marks, Lists, Processed, Shifted, Mean, LosesAll, Gone, Patched;
        ListLength(k.points[..k.oldPoints], Members(now, c), |feature|);
        ShiftedIsMean(feature, before, now, flags, olds, news, k.oldPoints, c, was, k.centre[..]);
        hide *;
        RegroupedIsUpdated(k, c, torn, before, now, was, news);
      }
    }

    lemma NothingJoins(olds: seq<int>, news: seq<int>, flags: seq<bool>)
      requires LosesAll(olds, news, flags)
      ensures news == []
    {
    }

    lemma RepairedIsUpdated(k: Cluster, c: nat, torn: real, before: seq<int>, now: seq<int>, was: Point)
      requires |before| == |now| == |feature| && Members(now, c) == {} && c < |feature| && |feature[c]| == |was|
      requires k.newPoints == 0 == k.prevNewPoints && k.oldPoints == 1 <= k.points.Length
      requires k.centre[..] == RepairedCentre(|Members(before, c)|, was, feature[c], torn)
      ensures k.Updated(feature, before, now, c, was, torn)
    {
    }

    lemma RegroupedIsUpdated(k: Cluster, c: nat, torn: real, before: seq<int>, now: seq<int>, was: Point,
                             news: seq<int>)
      requires |before| == |now| == |feature| && Members(now, c) != {} && Lists(news, Joiners(before, now, c))
      requires k.newPoints == 0 && k.prevNewPoints == |news| <= k.oldPoints <= k.points.Length
      requires Lists(k.points[..][..k.oldPoints], Members(now, c))
      requires k.points[..][k.oldPoints - |news|..k.oldPoints] == news
      requires Mean(feature, Members(now, c), |was|, k.centre[..]) && k.centre.Length == |was|
      ensures k.Updated(feature, before, now, c, was, torn)
    {
      assert k.points[..][..k.oldPoints] == k.points[..k.oldPoints];
      assert k.points[..][k.oldPoints - |news|..k.oldPoints] == k.points[k.oldPoints - |news|..k.oldPoints];
    }

    // The first c clusters have been updated and the others have not.
    predicate Halfway(before: seq<int>, now: seq<int>, centres: seq<Point>, torn: seq<real>, c: nat)
      requires |before| == |now| && |centres| == |torn| == |clusters|
      reads clusters, set c: Cluster | c in clusters :: c.points, set c: Cluster | c in clusters :: c.centre
    {
      && (forall k :: 0 <= k < c && k < |clusters| ==>
            clusters[k].Updated(feature, before, now, k, centres[k], torn[k]))
      && (forall k :: c <= k < |clusters| ==>
        clusters[k].Pending(before, now, k) && clusters[k].centre[..] == centres[k])
    }

    method UpdateNext(c: nat, torn: seq<real>, ghost before: seq<int>, ghost now: seq<int>, ghost flags: seq<bool>,
                      ghost centres: seq<Point>)
      returns (repaired: bool)
      requires Valid() && c < |clusters| == |centres| == |torn| && |before| == |now| == |feature|
      requires Marks(before, now, flags) && moved[..] == flags && Halfway(before, now, centres, torn, c)
      requires Mean(feature, Members(before, c), width, centres[c])
      modifies `sumDelta, Footprint()
      ensures moved[..] == flags && unchanged(membership)
      ensures Valid() && Halfway(before, now, centres, torn, c + 1)
      ensures sumDelta == old(sumDelta) + |Joiners(before, now, c)| && (repaired <==> Members(now, c) == {})
    {
      hide Marks, Lists, Members, Joiners, Mean, Cluster.Pending, Cluster.Updated;
      repaired := UpdateCluster(c, torn[c], before, now, flags, centres[c]);
      forall k | 0 <= k < |clusters| && k != c
        ensures k < c ==> clusters[k].Updated(feature, before, now, k, centres[k], torn[k])
        ensures k > c ==> clusters[k].Pending(before, now, k) && clusters[k].centre[..] == centres[k]
      {
        assert clusters[k] != clusters[c] && clusters[k].points != clusters[c].points;
        assert clusters[k].centre != clusters[c].centre && clusters[k].centre != clusters[c].newCentre;
      }
    }

    lemma BeforeUpdates(before: seq<int>, now: seq<int>, centres: seq<Point>, torn: seq<real>)
      requires |before| == |now| && Grouped(before, now) && HasCentres(centres)
      requires Means(feature, width, Config(before, centres)) && |torn| == |clusters|
      ensures |centres| == |clusters| && Halfway(before, now, centres, torn, 0) && !AnyEmpty(now, 0)
      ensures forall c :: 0 <= c < |clusters| ==> Mean(feature, Members(before, c), width, centres[c])
    {
    }

    // The second wait of a round: process_cluster for every cluster.
    method UpdateClusters(torn: seq<real>, ghost before: seq<int>, ghost now: seq<int>, ghost flags: seq<bool>,
                          ghost centres: seq<Point>)
      returns (repaired: bool)
      requires Valid() && |torn| == |clusters| && |before| == |now| == |feature|
      requires Marks(before, now, flags) && moved[..] == flags && Grouped(before, now)
      requires |centres| == |clusters| && HasCentres(centres) && Means(feature, width, Config(before, centres))
      modifies `sumDelta, Footprint()
      ensures Valid() && Halfway(before, now, centres, torn, |clusters|) && moved[..] == flags && unchanged(membership)
      ensures sumDelta == old(sumDelta) + Arrivals(before, now, |clusters|)
      ensures repaired <==> AnyEmpty(now, |clusters|)
    {
      hide *;
      BeforeUpdates(before, now, centres, torn);
      NextArrivals(before, now, 0);
      repaired := false;
      for c := 0 to |clusters|
        invariant Valid() && moved[..] == flags && unchanged(membership) && Halfway(before, now, centres, torn, c)
        invariant repaired <==> AnyEmpty(now, c)
        invariant sumDelta == old(sumDelta) + Arrivals(before, now, c)
      {
        NextArrivals(before, now, c);
        var emptied := UpdateNext(c, torn, before, now, flags, centres);
        repaired := repaired || emptied;
        NextEmpty(now, c);
      }
    }

    // Clears the marks of the points that stand from `from` to `to`.
    method Unmark(points: array<int>, from: nat, to: nat)
      requires from <= to <= points.Length && Below(Elements(points[from..to]), moved.Length)
      modifies moved
      ensures forall i :: 0 <= i < moved.Length ==> (moved[i] <==> old(moved[i]) && i !in Elements(points[from..to]))
    {
      ghost var tail := points[from..to];
      for j := from to to
        invariant forall i :: 0 <= i < moved.Length ==> (moved[i] <==> old(moved[i]) && i !in tail[..j - from])
      {
        assert points[j] == tail[j - from] && tail[j - from] in Elements(tail);
        moved[points[j]] := false;
        assert tail[..j + 1 - from] == tail[..j - from] + [tail[j - from]];
      }
      assert tail[..to - from] == tail;
    }

    // The part of clear_move_status for one cluster.
    method ClearCluster(c: nat, ghost before: seq<int>, ghost now: seq<int>, ghost was: Point, ghost torn: real)
      requires Valid() && c < |clusters| && |before| == |now| == |feature|
      requires clusters[c].Updated(feature, before, now, c, was, torn)
      modifies moved
      ensures forall i :: 0 <= i < |feature| ==> (moved[i] <==> old(moved[i]) && i !in Joiners(before, now, c))
    {
      assert moved.Length == |feature|;
      hide *;
      var k := clusters[c];
      TailIsJoiners(k, before, now, c, was, torn);
      if k.prevNewPoints != 0 {
        Unmark(k.points, k.oldPoints - k.prevNewPoints, k.oldPoints);
      }
    }

    lemma TailIsJoiners(k: Cluster, before: seq<int>, now: seq<int>, c: nat, was: Point, torn: real)
      requires |before| == |now| && k.Updated(feature, before, now, c, was, torn)
      ensures k.prevNewPoints <= k.oldPoints <= k.points.Length
      ensures Elements(k.points[k.oldPoints - k.prevNewPoints..k.oldPoints]) == Joiners(before, now, c)
      ensures Below(Joiners(before, now, c), |now|)
      ensures k.prevNewPoints == 0 ==> Joiners(before, now, c) == {}
    {
      if Members(now, c) == {} {
        assert forall i :: i in Joiners(before, now, c) ==> i in Members(now, c);
      }
    }

    // The initial state, and the state between rounds: no point is marked, none awaits grouping,
    // and the lists and centres are those of s.
    predicate Settled(s: Config)
      reads membership, moved, clusters, set c: Cluster | c in clusters :: c.points,
        set c: Cluster | c in clusters :: c.centre
    {
      && Valid() && membership[..] == s.membership && HasCentres(s.centres)
      && Marks(s.membership, s.membership, moved[..]) && Grouped(s.membership, s.membership)
      && Means(feature, width, s)
    }

    method ClearMoveStatus(ghost before: seq<int>, ghost now: seq<int>, ghost centres: seq<Point>,
                           ghost torn: seq<real>)
      requires Valid() && |before| == |now| == |feature| && Marks(before, now, moved[..])
      requires |centres| == |torn| == |clusters| && Halfway(before, now, centres, torn, |clusters|)
      requires forall i :: 0 <= i < |now| && now[i] != before[i] ==> 0 <= now[i] < |clusters|
      modifies moved
      ensures moved.Length == |feature| && forall i :: 0 <= i < |feature| ==> !moved[i]
    {
      ghost var flags := moved[..];
      for c := 0 to |clusters|
        invariant forall i :: 0 <= i < |feature| ==> (moved[i] <==> flags[i] && !(0 <= now[i] < c))
      {
        ClearCluster(c, before, now, centres[c], torn[c]);
      }
    }

    // The first wait of a round: process_point for every task.
    method Reassign(ntasks: nat, work: nat, ghost s: Config) returns (ok: bool)
      requires Settled(s) && First(ntasks, work) <= |feature|
      modifies membership, moved, Footprint()
      ensures Valid() && HasCentres(s.centres)
      ensures Marks(s.membership, membership[..], moved[..]) && Grouped(s.membership, membership[..])
      ensures ok ==> Reassigned(feature, width, First(ntasks, work), s, membership[..])
      ensures !ok ==> Stranded(feature, width, s.centres, 0, First(ntasks, work))
      ensures sumDelta == old(sumDelta)
    {
      hide Marks, Grouped, HasCentres, Nearest, Means, Stranded;
      ok := true;
      assert First(0, work) == 0;
      for tid := 0 to ntasks
        invariant Valid() && HasCentres(s.centres)
        invariant Marks(s.membership, membership[..], moved[..]) && Grouped(s.membership, membership[..])
        invariant sumDelta == old(sumDelta)
        invariant forall i :: First(tid, work) <= i < |feature| ==> membership[i] == s.membership[i]
        invariant forall i :: 0 <= i < First(tid, work) && i < |feature| ==>
          Nearest(feature[i], s.centres, width, membership[i])
      {
        NextTask(tid, work);
        hide First;
        ok := ProcessPoint(tid, work, s.membership, s.centres);
        if !ok {
          StrandedInTask(feature, width, s.centres, tid, work, ntasks);
          return;
        }
      }
    }

    ghost function CentresBelow(n: nat): (r: seq<Point>)
      requires n <= |clusters|
      reads set c: Cluster | c in clusters :: c.centre
      ensures |r| == n && forall c :: 0 <= c < n ==> r[c] == clusters[c].centre[..]
    {
      if n == 0 then [] else CentresBelow(n - 1) + [clusters[n - 1].centre[..]]
    }

    // The lists agree with the membership exactly when no cluster has become empty.
    lemma GroupedIffPopulated(before: seq<int>, t: Config, centres: seq<Point>, torn: seq<real>)
      requires Valid() && |before| == |t.membership| == |feature| && HasCentres(t.centres)
      requires |centres| == |torn| == |clusters| && Halfway(before, t.membership, centres, torn, |clusters|)
      ensures Grouped(t.membership, t.membership) <==> Populated(t)
      ensures Recentred(feature, width, Config(before, centres), t, torn)
      ensures Populated(t) ==> Means(feature, width, t)
    {
      hide Mean, Nearest, RepairedCentre;
      forall c: nat | c < |clusters|
        ensures clusters[c].Pending(t.membership, t.membership, c) <==> Members(t.membership, c) != {}
        ensures CentreIs(feature, width, Config(before, centres), t, torn, c)
      {
        var k := clusters[c];
        assert Joiners(t.membership, t.membership, c) == {} == Elements([]);
        assert k.News() == [];
        if Members(t.membership, c) == {} {
          assert k.Olds()[0] in Elements(k.Olds());
        }
      }
    }

    // A round once its points are reassigned, in whatever order. t is the state at its end.
    method EndRound(visited: nat, torn: seq<real>, loop: nat, ghost s: Config)
      returns (repaired: bool, ghost t: Config)
      requires Valid() && HasCentres(s.centres) && Means(feature, width, s)
      requires Reassigned(feature, width, visited, s, membership[..])
      requires Marks(s.membership, membership[..], moved[..]) && Grouped(s.membership, membership[..])
      requires |torn| == |clusters| && Unvisited(s, visited) && sumDelta == 0
      modifies `sumDelta, moved, Footprint()
      ensures membership[..] == t.membership == old(membership[..])
      ensures |t.membership| == |s.membership| && sumDelta == |Changed(s.membership, t.membership)|
      ensures HasCentres(t.centres) && Recentred(feature, width, s, t, torn) && Unvisited(t, visited)
      ensures repaired <==> !EachAttracts(feature, width, visited, s.centres)
      ensures Grouped(t.membership, t.membership) <==> EachAttracts(feature, width, visited, s.centres)
      ensures !repaired ==> Settled(t) && Populated(t) && Round(feature, width, visited, s, t)
    {
      hide *;
      ghost var now := membership[..];
      CentresCount(s);
      AssignedInRange(feature, width, visited, s, now);
      repaired := FinishRound(torn, loop, s, now, moved[..]);
      t := Config(now, CentresBelow(|clusters|));
      CentresAreCurrent();
      GroupedIffPopulated(s.membership, t, s.centres, torn);
      PopulatedIffEachAttracts(feature, width, visited, s, t);
      RoundIsDone(visited, s, t);
    }

    // One iteration of the do loop.
    method OneRound(ntasks: nat, work: nat, torn: seq<real>, loop: nat, ghost s: Config)
      returns (ok: bool, repaired: bool, ghost t: Config)
      requires Settled(s) && First(ntasks, work) <= |feature| && |torn| == |clusters|
      requires Unvisited(s, First(ntasks, work))
      modifies `sumDelta, membership, moved, Footprint()
      ensures !ok ==> Stranded(feature, width, s.centres, 0, First(ntasks, work))
      ensures ok ==> membership[..] == t.membership && Reassigned(feature, width, First(ntasks, work), s, t.membership)
      ensures ok ==> HasCentres(t.centres) && Recentred(feature, width, s, t, torn)
      ensures ok ==> |t.membership| == |s.membership| && sumDelta == |Changed(s.membership, t.membership)|
      ensures ok ==> Unvisited(t, First(ntasks, work))
      ensures ok ==> (repaired <==> !EachAttracts(feature, width, First(ntasks, work), s.centres))
      ensures ok ==>
        (Grouped(t.membership, t.membership) <==> EachAttracts(feature, width, First(ntasks, work), s.centres))
      ensures ok && !repaired ==> Settled(t) && Populated(t) && Round(feature, width, First(ntasks, work), s, t)
    {
      hide *;
      t, repaired := s, false;
      sumDelta := 0;
      SettledParts(s);
      ok := Reassign(ntasks, work, s);
      if ok {
        repaired, t := EndRound(First(ntasks, work), torn, loop, s);
      }
    }

    lemma CentresCount(s: Config)
      requires HasCentres(s.centres)
      ensures |s.centres| == |clusters| && s == Config(s.membership, s.centres)
    {
    }

    lemma SettledParts(s: Config)
      requires Settled(s)
      ensures Valid() && Means(feature, width, s) && |s.centres| == |clusters| && |s.membership| == |feature|
      ensures s == Config(s.membership, s.centres)
    {
    }

    lemma CentresAreCurrent()
      ensures HasCentres(CentresBelow(|clusters|)) && |CentresBelow(|clusters|)| == |clusters|
    {
    }

    lemma RoundIsDone(visited: nat, s: Config, t: Config)
      requires Valid() && membership[..] == t.membership && HasCentres(t.centres) && |s.centres| == |clusters|
      requires |t.membership| == |feature| && Marks(t.membership, t.membership, moved[..])
      requires Grouped(t.membership, t.membership) <==> Populated(t)
      requires Populated(t) ==> Means(feature, width, t)
      requires Reassigned(feature, width, visited, s, t.membership)
      ensures Populated(t) ==> Settled(t) && Round(feature, width, visited, s, t)
      ensures AnyEmpty(t.membership, |clusters|) <==> !Populated(t)
    {
      hide Grouped, Means, Nearest, Reassigned, Marks;
    }

    // The second half of a round: update every cluster, then clear every mark.
    method FinishRound(torn: seq<real>, loop: nat, ghost s: Config, ghost now: seq<int>, ghost flags: seq<bool>)
      returns (repaired: bool)
      requires Valid() && |torn| == |clusters| && |s.membership| == |now| == |feature|
      requires Marks(s.membership, now, flags) && moved[..] == flags && Grouped(s.membership, now)
      requires |s.centres| == |clusters| && HasCentres(s.centres) && Means(feature, width, s) && sumDelta == 0
      requires forall i :: 0 <= i < |now| && now[i] != s.membership[i] ==> 0 <= now[i] < |clusters|
      modifies `sumDelta, moved, Footprint()
      ensures Valid() && Halfway(s.membership, now, s.centres, torn, |clusters|) && unchanged(membership)
      ensures sumDelta == |Changed(s.membership, now)|
      ensures repaired <==> AnyEmpty(now, |clusters|)
      ensures Marks(now, now, moved[..])
    {
      hide *;
      ArrivalsAreChanges(s.membership, now, |clusters|);
      assert s == Config(s.membership, s.centres);
      repaired := UpdateClusters(torn, s.membership, now, flags, s.centres);
      ClearMoveStatus(s.membership, now, s.centres, torn);
      ResetMarks(loop, now);
    }

    // The memset after the first round.
    method ResetMarks(loop: nat, ghost now: seq<int>)
      requires |now| == |feature| == moved.Length && forall i :: 0 <= i < |feature| ==> !moved[i]
      modifies moved
      ensures Marks(now, now, moved[..])
    {
      if loop == 0 {
        for i := 0 to |feature|
          invariant forall k :: 0 <= k < |feature| ==> !moved[k]
        {
          moved[i] := false;
        }
      }
      NothingMarked(now, moved[..]);
    }

    // kmeans_clustering up to the loop: no point has a cluster, and point c is the centre of cluster c.
    constructor (feature: seq<Point>, width: nat, nclusters: nat)
      requires Table(feature, width) && nclusters <= |feature|
      ensures this.feature == feature && this.width == width && |clusters| == nclusters
      ensures Settled(Config(seq(|feature|, _ => -1), feature[..nclusters]))
      ensures fresh(membership) && fresh(moved)
      ensures forall k :: k in clusters ==> fresh(k) && fresh(k.points) && fresh(k.centre) && fresh(k.newCentre)
    {
      var cs := ClustersInit(feature, width, nclusters);
      this.feature, this.width, clusters := feature, width, cs;
      membership := new int[|feature|](_ => -1);
      moved := new bool[|feature|](_ => false);
      sumDelta := 0;
      new;
      hide *;
      StartIsSettled(nclusters);
    }

    lemma StartIsSettled(nclusters: nat)
      requires Table(feature, width) && nclusters == |clusters| <= |feature| && Apart(clusters)
      requires forall c :: 0 <= c < |clusters| ==>
        clusters[c].Initial(|feature|, feature[c]) && clusters[c].points != membership
      requires membership.Length == moved.Length == |feature|
      requires forall i :: 0 <= i < |feature| ==> membership[i] == -1 && !moved[i]
      ensures Settled(Config(seq(|feature|, _ => -1), feature[..nclusters]))
    {
      var s := Config(seq(|feature|, _ => -1), feature[..nclusters]);
      assert membership[..] == s.membership;
      forall c | 0 <= c < |clusters|
        ensures clusters[c].Pending(s.membership, s.membership, c)
        ensures Mean(feature, Members(s.membership, c), width, feature[c])
      {
        assert Members(s.membership, c) == {} == Joiners(s.membership, s.membership, c) == Elements([]);
        forall j | 0 <= j < width
          ensures MeanOf(feature[c][j], Sum(feature, {}, j, |feature|), Count({}, |feature|))
        {
          SumOfEmpty(feature, j, |feature|);
        }
      }
    }

    static method ClustersInit(feature: seq<Point>, width: nat, nclusters: nat) returns (cs: seq<Cluster>)
      requires Table(feature, width) && nclusters <= |feature|
      ensures |cs| == nclusters && Apart(cs)
      ensures forall k :: k in cs ==> fresh(k) && fresh(k.points) && fresh(k.centre) && fresh(k.newCentre)
      ensures forall c :: 0 <= c < |cs| ==> cs[c].Initial(|feature|, feature[c])
    {
      hide Cluster.Initial;
      cs := [];
      for i := 0 to nclusters
        invariant |cs| == i && Apart(cs)
        invariant forall k :: k in cs ==> fresh(k) && fresh(k.points) && fresh(k.centre) && fresh(k.newCentre)
        invariant forall c :: 0 <= c < i ==> cs[c].Initial(|feature|, feature[c])
      {
        var k := new Cluster(|feature|, feature[i]);
        cs := cs + [k];
      }
    }

    // The do loop of kmeans_clustering. `run` holds the states at the ends of the rounds.
    method KMeansClustering(ntasks: nat, loopMax: int, threshold: int, torn: seq<real>, ghost s: Config)
      returns (outcome: Outcome, loop: nat, ghost run: seq<Config>)
      requires Settled(s) && ntasks > 0 && |torn| == |clusters|
      requires forall i :: 0 <= i < |s.membership| ==> s.membership[i] == -1
      modifies `sumDelta, membership, moved, Footprint()
      ensures |run| == loop + 1
      ensures outcome == Finished ==>
        && Ended(feature, width, Visited(|feature|, ntasks), s, run, loop, loopMax, threshold, sumDelta)
        && Settled(run[loop])
      ensures outcome != Finished ==>
        Going(feature, width, Visited(|feature|, ntasks), s, run, loop, loopMax, threshold)
      ensures outcome == NoNearestCentre ==> Stranded(feature, width, run[loop].centres, 0, Visited(|feature|, ntasks))
      ensures outcome == ClusterEmptied ==> !Grouped(membership[..], membership[..])
      ensures outcome == ClusterEmptied ==> !EachAttracts(feature, width, Visited(|feature|, ntasks), run[loop].centres)
      ensures outcome == ClusterEmptied ==>
        Reassigned(feature, width, Visited(|feature|, ntasks), run[loop], membership[..])
    {
      hide *;
      var work := |feature| / ntasks;
      ghost var visited := Visited(|feature|, ntasks);
      WholeTasksFit(|feature|, ntasks);
      loop, run := 0, [s];
      StartOfRun(feature, width, visited, s, loopMax, threshold);
      NoneVisited(s, visited);
      while true
        invariant |run| == loop + 1 && Settled(run[loop])
        invariant Going(feature, width, visited, s, run, loop, loopMax, threshold) && Unvisited(run[loop], visited)
        decreases loopMax - loop
      {
        ghost var t;
        var ok, repaired;
        ok, repaired, t := OneRound(ntasks, work, torn, loop, run[loop]);
        if !ok {
          return NoNearestCentre, loop, run;
        }
        if repaired {
          return ClusterEmptied, loop, run;
        }
        RunExtended(feature, width, visited, s, run, loop, loopMax, threshold, t, sumDelta);
        run := run + [t];
        loop := loop + 1;
        if !(loop < loopMax && sumDelta > threshold) {
          return Finished, loop, run;
        }
      }
    }
  }
}
