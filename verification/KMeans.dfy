/**
 The incremental clustering of kmeans.c: every cluster keeps the numbers of its points in an
 array, the points that joined in the current round behind the older ones, and updates its
 centre from what joined and what left.
 */
module KMeans {
  import opened Lloyd
  import opened PointLists

  predicate Table(rows: seq<Point>, width: nat) {
    forall i :: 0 <= i < |rows| ==> |rows[i]| == width
  }

  // Points of a list that the round has moved to another cluster.
  function Gone(s: seq<int>, moved: seq<bool>): set<int> {
    set x | x in s && 0 <= x < |moved| && moved[x]
  }

  // Every older point has moved away and none has joined.
  predicate LosesAll(olds: seq<int>, news: seq<int>, moved: seq<bool>) {
    news == [] && Elements(olds) == Gone(olds, moved)
  }

  // The points array after process_cluster: the older points that did not move, then those that
  // joined, as the first `count` entries; one entry of no meaning when there are no points.
  predicate Processed(olds: seq<int>, news: seq<int>, moved: seq<bool>, points: seq<int>, count: nat) {
    if LosesAll(olds, news, moved) then count == 1
    else
      && |news| <= count <= |points|
      && Lists(points[..count - |news|], Elements(olds) - Gone(olds, moved))
      && points[count - |news|..count] == news
  }

  lemma ProcessedRegions(olds: seq<int>, news: seq<int>, moved: seq<bool>, kept: seq<int>, points: seq<int>, mid: nat)
    requires Lists(kept, Elements(olds) - Gone(olds, moved))
    requires mid + |news| <= |points| && points[..mid] == kept && points[mid..mid + |news|] == news
    ensures Processed(olds, news, moved, points, if mid + |news| == 0 then 1 else mid + |news|)
    ensures LosesAll(olds, news, moved) <==> kept == [] && news == []
  {
    assert Gone(olds, moved) <= Elements(olds);
    if kept != [] {
      assert kept[0] in Elements(kept);
    } else {
      assert forall x :: x in Elements(olds) ==> x in Elements(kept) || x in Gone(olds, moved);
    }
  }

  // n entries have been moved down by `gap`, to position `keep` and up.
  predicate SlidDown(was: seq<int>, now: seq<int>, keep: nat, n: nat, gap: nat) {
    && |now| == |was| && keep + gap + n <= |was|
    && (forall k :: 0 <= k < keep ==> now[k] == was[k])
    && (forall k :: keep <= k < keep + n ==> now[k] == was[k + gap])
    && (forall k :: keep + gap + n <= k < |was| ==> now[k] == was[k])
  }

  lemma NoneSlid(was: seq<int>, keep: nat, gap: nat)
    requires keep + gap <= |was|
    ensures SlidDown(was, was, keep, 0, gap)
  {
  }

  lemma SlidOneMore(was: seq<int>, now: seq<int>, keep: nat, n: nat, gap: nat)
    requires SlidDown(was, now, keep, n, gap) && keep + gap + n < |was|
    ensures SlidDown(was, now[keep + n := now[keep + n + gap]], keep, n + 1, gap)
  {
  }

  lemma GapClosed(was: seq<int>, now: seq<int>, keep: nat, gap: nat, n: nat)
    requires SlidDown(was, now, keep, n, gap)
    ensures now[..keep] == was[..keep] && now[keep..keep + n] == was[keep + gap..keep + gap + n]
  {
  }

  // The sums `now` are the sums `start` less the coordinates of the points of S.
  predicate Reduced(feature: seq<Point>, start: seq<real>, S: set<int>, now: seq<real>) {
    |now| == |start| &&
    forall j :: 0 <= j < |start| ==> now[j] == start[j] - Sum(feature, S, j, |feature|)
  }

  lemma ReducedByNone(feature: seq<Point>, start: seq<real>)
    ensures Reduced(feature, start, {}, start)
  {
    forall j | 0 <= j < |start|
      ensures Sum(feature, {}, j, |feature|) == 0.0
    {
      SumOfEmpty(feature, j, |feature|);
    }
  }

  lemma ReducedByOne(feature: seq<Point>, start: seq<real>, S: set<int>, was: seq<real>, x: int, now: seq<real>)
    requires Reduced(feature, start, S, was) && x !in S && 0 <= x < |feature| && |now| == |was| == |feature[x]|
    requires forall j :: 0 <= j < |was| ==> now[j] == was[j] - feature[x][j]
    ensures Reduced(feature, start, S + {x}, now)
  {
    forall j | 0 <= j < |start|
      ensures Sum(feature, S + {x}, j, |feature|) == Sum(feature, S, j, |feature|) + feature[x][j]
    {
      SumWith(feature, S, x, j, |feature|);
    }
  }

  function Blend(w: nat, a: real, b: real): real {
    w as real * a + b
  }

  const FLOAT_SIZE: nat := 4
  const TYPE_SIZE: nat := 8

  // Coordinate j of a centre after the memcpy of one float's size per coordinate: the first half
  // of the coordinates is copied, and the middle one of an odd number comes out torn.
  function PatchedAt(was: Point, from: Point, torn: real, j: nat): real
    requires j < |was| == |from|
  {
    if TYPE_SIZE * (j + 1) <= FLOAT_SIZE * |was| then from[j]
    else if TYPE_SIZE * j < FLOAT_SIZE * |was| then torn
    else was[j]
  }

  function Patched(was: Point, from: Point, torn: real): (now: Point)
    requires |was| == |from|
    ensures |now| == |was|
  {
    seq(|was|, j requires 0 <= j < |was| => PatchedAt(was, from, torn, j))
  }

  // How coordinates lie in memory: eight bytes each, different for different values.
  type Encoding = real -> seq<nat>

  ghost predicate Encodes(enc: Encoding) {
    && (forall x :: |enc(x)| == TYPE_SIZE)
    && (forall x, y :: enc(x) == enc(y) ==> x == y)
  }

  ghost function Code(enc: Encoding, x: real): (bytes: seq<nat>)
    requires Encodes(enc)
    ensures |bytes| == TYPE_SIZE
  {
    enc(x)
  }

  // Byte k of a point in memory.
  ghost function ByteAt(enc: Encoding, p: Point, k: nat): nat
    requires Encodes(enc) && k < TYPE_SIZE * |p|
  {
    Code(enc, p[k / TYPE_SIZE])[k % TYPE_SIZE]
  }

  // memcpy(to, from, bytes) on two points of one length.
  ghost predicate Copied(enc: Encoding, was: Point, from: Point, bytes: nat, now: Point)
    requires Encodes(enc) && |was| == |from| == |now|
  {
    forall k :: 0 <= k < TYPE_SIZE * |now| ==>
      ByteAt(enc, now, k) == if k < bytes then ByteAt(enc, from, k) else ByteAt(enc, was, k)
  }

  // The four bytes of each half, when a coordinate is half written.
  ghost predicate Torn(enc: Encoding, was: real, from: real, now: real)
    requires Encodes(enc)
  {
    Code(enc, now) == Code(enc, from)[..FLOAT_SIZE] + Code(enc, was)[FLOAT_SIZE..]
  }

  lemma ByteOfCoordinate(enc: Encoding, p: Point, j: nat, b: nat)
    requires Encodes(enc) && j < |p| && b < TYPE_SIZE
    ensures TYPE_SIZE * j + b < TYPE_SIZE * |p| && ByteAt(enc, p, TYPE_SIZE * j + b) == Code(enc, p[j])[b]
  {
  }

  // What a copy of so many bytes does to one coordinate.
  lemma CopiedCoordinate(enc: Encoding, was: Point, from: Point, bytes: nat, now: Point, j: nat)
    requires Encodes(enc) && |was| == |from| == |now| && Copied(enc, was, from, bytes, now) && j < |now|
    ensures forall b :: 0 <= b < TYPE_SIZE ==>
      Code(enc, now[j])[b] == if TYPE_SIZE * j + b < bytes then Code(enc, from[j])[b] else Code(enc, was[j])[b]
  {
    forall b | 0 <= b < TYPE_SIZE
      ensures Code(enc, now[j])[b] == if TYPE_SIZE * j + b < bytes then Code(enc, from[j])[b] else Code(enc, was[j])[b]
    {
      ByteOfCoordinate(enc, now, j, b);
      ByteOfCoordinate(enc, from, j, b);
      ByteOfCoordinate(enc, was, j, b);
    }
  }

  // A coordinate of a centre that has been patched from another point.
  ghost predicate PatchedFrom(enc: Encoding, was: Point, from: Point, now: Point, j: nat)
    requires Encodes(enc) && j < |was| == |from| == |now|
  {
    if 2 * j + 1 == |now| then Torn(enc, was[j], from[j], now[j]) else now[j] == Patched(was, from, 0.0)[j]
  }

  lemma CopiedIsPatched(enc: Encoding, was: Point, from: Point, now: Point, j: nat)
    requires Encodes(enc) && j < |was| == |from| == |now| && Copied(enc, was, from, FLOAT_SIZE * |now|, now)
    ensures PatchedFrom(enc, was, from, now, j)
  {
    CopiedCoordinate(enc, was, from, FLOAT_SIZE * |now|, now, j);
    hide Copied;
    if 2 * j + 1 < |now| { assert Code(enc, now[j]) == Code(enc, from[j]); }
    if 2 * j >= |now| { assert Code(enc, now[j]) == Code(enc, was[j]); }
  }

  lemma PatchedByte(enc: Encoding, was: Point, from: Point, now: Point, k: nat)
    requires Encodes(enc) && |was| == |from| == |now| && k < TYPE_SIZE * |now|
    requires PatchedFrom(enc, was, from, now, k / TYPE_SIZE)
    ensures ByteAt(enc, now, k) == if k < FLOAT_SIZE * |now| then ByteAt(enc, from, k) else ByteAt(enc, was, k)
  {
  }

  /** The patched centre is what copying four bytes per coordinate leaves of eight-byte ones, for
      every representation of the coordinates: the first 4 * n bytes come from `from`. */
  lemma PatchedIsCopied(enc: Encoding, was: Point, from: Point, now: Point)
    requires Encodes(enc) && |was| == |from| == |now|
    ensures Copied(enc, was, from, FLOAT_SIZE * |now|, now) <==>
      forall j :: 0 <= j < |now| ==> PatchedFrom(enc, was, from, now, j)
  {
    hide PatchedFrom, ByteAt;
    if Copied(enc, was, from, FLOAT_SIZE * |now|, now) {
      forall j | 0 <= j < |now| ensures PatchedFrom(enc, was, from, now, j) { CopiedIsPatched(enc, was, from, now, j); }
    }
    if forall j :: 0 <= j < |now| ==> PatchedFrom(enc, was, from, now, j) {
      forall k | 0 <= k < TYPE_SIZE * |now|
        ensures ByteAt(enc, now, k)
             == if k < FLOAT_SIZE * |now| then ByteAt(enc, from, k) else ByteAt(enc, was, k)
      {
        PatchedByte(enc, was, from, now, k);
      }
    }
  }

  // The centre that the repair branch gives a cluster that had w points about `was`.
  function RepairedCentre(w: nat, was: Point, from: Point, torn: real): (now: Point)
    requires |was| == |from|
    ensures |now| == |was|
  {
    seq(|was|, j requires 0 <= j < |was| => w as real * (PatchedAt(was, from, torn, j) - was[j]))
  }

  /** The first half of the coordinates goes to w times the way from the old centre to `from`, the
      second half to zero; between them stands the torn one of an odd number. */
  lemma RepairedCoordinates(w: nat, was: Point, from: Point, torn: real, j: nat)
    requires j < |was| == |from|
    ensures var now := RepairedCentre(w, was, from, torn)[j];
            && (2 * j + 2 <= |was| ==> now == w as real * (from[j] - was[j]))
            && (2 * j >= |was| ==> now == 0.0)
            && (2 * j + 1 == |was| ==> now == w as real * (torn - was[j]))
  {
  }

  function MeanFrom(sum: real, k: nat): (m: real)
    requires k > 0
    ensures MeanOf(m, sum, k)
  {
    sum / k as real
  }

  // `now` is the mean of k points: w points with mean `was`, those that joined, less those gone.
  predicate Shifted(feature: seq<Point>, w: nat, was: Point, joined: seq<int>, gone: set<int>, k: nat, now: Point) {
    |now| == |was| && forall j :: 0 <= j < |was| ==>
      MeanOf(now[j], Blend(w, was[j], ListSum(feature, joined, j) - Sum(feature, gone, j, |feature|)), k)
  }

  // The sums of the points that joined less those of the points gone.
  predicate Change(feature: seq<Point>, joined: seq<int>, gone: set<int>, change: seq<real>) {
    forall j :: 0 <= j < |change| ==>
      change[j] == ListSum(feature, joined, j) - Sum(feature, gone, j, |feature|)
  }

  lemma ChangeOfSums(feature: seq<Point>, joined: seq<int>, sums: seq<real>, gone: set<int>, change: seq<real>)
    requires Reduced(feature, sums, gone, change)
    requires forall j :: 0 <= j < |sums| ==> sums[j] == ListSum(feature, joined, j)
    ensures Change(feature, joined, gone, change)
  {
    hide Sum, ListSum;
  }

  lemma ShiftedCentre(feature: seq<Point>, w: nat, was: Point, joined: seq<int>, gone: set<int>, change: seq<real>,
                      k: nat, now: Point)
    requires |was| == |change| == |now| && Change(feature, joined, gone, change)
    requires forall j :: 0 <= j < |was| ==> MeanOf(now[j], Blend(w, was[j], change[j]), k)
    ensures Shifted(feature, w, was, joined, gone, k, now)
  {
    hide Sum, ListSum, MeanOf, Blend;
  }

  lemma ElementOfList(s: seq<int>, S: set<int>, k: nat)
    requires Lists(s, S) && k < |s|
    ensures s[k] in S && Distinct(s) && Elements(s) == S
  {
    assert s[k] in Elements(s);
  }

  // When no listed point has moved, the points gone are exactly those that moved.
  lemma UnmovedRemain(s: seq<int>, all: set<int>, gone: set<int>, moved: seq<bool>)
    requires Lists(s, all - gone) && Below(all, |moved|) && gone <= all
    requires forall x :: x in gone ==> moved[x]
    requires forall k :: 0 <= k < |s| ==> s[k] in all && !moved[s[k]]
    ensures gone == set x | x in all && moved[x]
  {
    forall x | x in all - gone
      ensures !moved[x]
    {
      assert x in Elements(s);
    }
  }

  // The points that the round has brought to cluster c.
  function Joiners(before: seq<int>, now: seq<int>, c: int): set<int>
    requires |before| == |now|
  {
    set i | 0 <= i < |now| && now[i] == c && before[i] != c
  }

  class Cluster {
    const points: array<int>
    const centre: array<real>
    const newCentre: array<real>
    var newPoints: nat
    var oldPoints: nat
    var prevNewPoints: nat

    predicate Sized(n: nat, d: nat) {
      points.Length == n && centre.Length == d && newCentre.Length == d && centre != newCentre
    }

    predicate Valid(n: nat, d: nat)
      reads this
    {
      Sized(n, d) && oldPoints + newPoints <= n
    }

    // The points the cluster had at the end of the last round.
    function Olds(): seq<int>
      reads this, points
      requires oldPoints <= points.Length
    {
      points[..oldPoints]
    }

    // The points that joined since.
    function News(): seq<int>
      reads this, points
      requires oldPoints + newPoints <= points.Length
    {
      points[oldPoints..oldPoints + newPoints]
    }

    // An empty cluster at the given centre.
    predicate Initial(n: nat, start: Point)
      reads this, points, centre
    {
      Valid(n, |start|) && Olds() == [] && News() == [] && centre[..] == start
    }

    constructor (n: nat, start: Point)
      ensures Initial(n, start)
      ensures fresh(points) && fresh(centre) && fresh(newCentre) && centre != newCentre
    {
      points := new int[n](_ => -1);
      centre := new real[|start|](j requires 0 <= j < |start| => start[j]);
      newCentre := new real[|start|](_ => 0.0);
      newPoints, oldPoints, prevNewPoints := 0, 0, 0;
    }

    // The loop over features that adds a point to new_centers, or subtracts it.
    method Accumulate(p: Point, joins: bool)
      requires |p| == newCentre.Length
      modifies newCentre
      ensures forall j :: 0 <= j < |p| ==>
        newCentre[j] == if joins then old(newCentre[j]) + p[j] else old(newCentre[j]) - p[j]
    {
      for j := 0 to newCentre.Length
        invariant forall k :: 0 <= k < j ==>
          newCentre[k] == if joins then old(newCentre[k]) + p[k] else old(newCentre[k]) - p[k]
        invariant forall k :: j <= k < newCentre.Length ==> newCentre[k] == old(newCentre[k])
      {
        newCentre[j] := if joins then newCentre[j] + p[j] else newCentre[j] - p[j];
      }
    }

    // new_centers := the sum of the points that joined.
    method SumJoiners(feature: seq<Point>)
      requires Valid(|feature|, newCentre.Length) && Table(feature, newCentre.Length)
      requires Below(Elements(News()), |feature|)
      modifies newCentre
      ensures forall j :: 0 <= j < newCentre.Length ==> newCentre[j] == ListSum(feature, News(), j)
    {
      for j := 0 to newCentre.Length
        invariant forall k :: 0 <= k < j ==> newCentre[k] == 0.0
      {
        newCentre[j] := 0.0;
      }
      for i := 0 to newPoints
        invariant forall j :: 0 <= j < newCentre.Length ==> newCentre[j] == ListSum(feature, News()[..i], j)
      {
        var cur := points[oldPoints + i];
        assert cur == News()[i] && cur in Elements(News());
        assert News()[..i + 1][..i] == News()[..i];
        Accumulate(feature[cur], true);
      }
      assert News()[..newPoints] == News();
    }

    // Overwrites the point at pos by the last one; the tail index of the source is oldPoints - 1.
    method DropAt(p: Point, pos: nat)
      requires pos < oldPoints <= points.Length && |p| == newCentre.Length && Distinct(Olds())
      modifies this`oldPoints, points, newCentre
      ensures oldPoints == old(oldPoints) - 1
      ensures forall k :: 0 <= k < points.Length && k != pos ==> points[k] == old(points[k])
      ensures Lists(Olds(), old(Elements(Olds())) - {old(points[pos])})
      ensures forall j :: 0 <= j < |p| ==> newCentre[j] == old(newCentre[j]) - p[j]
    {
      ghost var s := Olds();
      SwapOut(s, pos);
      Accumulate(p, false);
      points[pos] := points[oldPoints - 1];
      oldPoints := oldPoints - 1;
      assert Olds() == s[pos := s[|s| - 1]][..|s| - 1];
    }

    // Overwrites every moved point by the last one, subtracting it from new_centers.
    method DropMoved(feature: seq<Point>, moved: array<bool>, ghost olds: seq<int>, ghost flags: seq<bool>)
      requires Valid(|feature|, newCentre.Length) && Table(feature, newCentre.Length)
      requires Olds() == olds && moved[..] == flags && |flags| == |feature|
      requires Distinct(olds) && Below(Elements(olds), |feature|)
      modifies this`oldPoints, points, newCentre
      ensures oldPoints <= old(oldPoints)
      ensures forall k :: old(oldPoints) <= k < points.Length ==> points[k] == old(points[k])
      ensures Lists(Olds(), Elements(olds) - Gone(olds, flags))
      ensures Reduced(feature, old(newCentre[..]), Gone(olds, flags), newCentre[..])
    {
      var pos, before := 0, oldPoints;
      ghost var start, all := newCentre[..], Elements(olds);
      ghost var gone: set<int> := {};
      ReducedByNone(feature, start);
      assert all - gone == all;
      assert Lists(Olds(), all - gone);
      hide Reduced, Lists, Distinct, Sum;
      for i := 0 to before
        invariant oldPoints == pos + (before - i) <= before <= points.Length
        invariant forall k :: before <= k < points.Length ==> points[k] == old(points[k])
        invariant Lists(Olds(), all - gone)
        invariant gone <= all && (forall x :: x in gone ==> flags[x])
        invariant forall k :: 0 <= k < pos ==> points[k] in all && !flags[points[k]]
        invariant Reduced(feature, start, gone, newCentre[..])
      {
        var x := points[pos];
        ElementOfList(Olds(), all - gone, pos);
        if moved[x] {
          ghost var was := newCentre[..];
          DropAt(feature[x], pos);
          ReducedByOne(feature, start, gone, was, x, newCentre[..]);
          gone := gone + {x};
          assert all - gone == all - (gone - {x}) - {x};
        } else {
          pos := pos + 1;
        }
      }
      UnmovedRemain(Olds(), all, gone, flags);
      assert gone == Gone(olds, flags);
    }

    // Closes the gap between the older points that stayed and the points that joined.
    method CopyDown(from: nat)
      requires oldPoints <= from <= from + newPoints <= points.Length
      modifies points
      ensures points[..oldPoints] == old(points[..oldPoints])
      ensures points[oldPoints..oldPoints + newPoints] == old(points[from..from + newPoints])
    {
      hide *;
      ghost var was, gap := points[..], from - oldPoints;
      NoneSlid(was, oldPoints, gap);
      for i := 0 to newPoints
        invariant SlidDown(was, points[..], oldPoints, i, gap)
      {
        SlidOneMore(was, points[..], oldPoints, i, gap);
        points[oldPoints + i] := points[from + i];
      }
      GapClosed(was, points[..], oldPoints, gap, newPoints);
    }

    // The centre from the weight and place it had and from what joined less what left.
    method UpdateCentre(before: nat)
      requires oldPoints > 0 && centre.Length == newCentre.Length && centre != newCentre
      modifies centre, newCentre
      ensures forall j :: 0 <= j < centre.Length ==>
        MeanOf(centre[j], Blend(before, old(centre[j]), old(newCentre[j])), oldPoints)
    {
      for j := 0 to centre.Length
        modifies newCentre
        invariant forall k :: j <= k < centre.Length ==> newCentre[k] == old(newCentre[k])
        invariant forall k :: 0 <= k < j ==>
          MeanOf(newCentre[k], Blend(before, centre[k], old(newCentre[k])), oldPoints)
      {
        newCentre[j] := MeanFrom(Blend(before, centre[j], newCentre[j]), oldPoints);
      }
      for j := 0 to centre.Length
        modifies centre
        invariant forall k :: 0 <= k < j ==> centre[k] == newCentre[k]
      {
        centre[j] := newCentre[j];
      }
    }

    // The memcpy of the repair branch; `torn` is what a half-written coordinate reads as.
    method Patch(from: Point, torn: real)
      requires |from| == centre.Length
      modifies centre
      ensures centre[..] == Patched(old(centre[..]), from, torn)
    {
      ghost var was := centre[..];
      for j := 0 to centre.Length
        invariant forall k :: 0 <= k < j ==> centre[k] == PatchedAt(was, from, torn, k)
        invariant forall k :: j <= k < centre.Length ==> centre[k] == was[k]
      {
        if TYPE_SIZE * (j + 1) <= FLOAT_SIZE * centre.Length {
          centre[j] := from[j];
        } else if TYPE_SIZE * j < FLOAT_SIZE * centre.Length {
          centre[j] := torn;
        }
      }
    }

    // The branch for a cluster without points, and the new centre.
    method Recentre(before: nat, from: Point, torn: real)
      requires centre.Length == newCentre.Length == |from| && centre != newCentre
      modifies this`oldPoints, centre, newCentre
      ensures oldPoints == if old(oldPoints) == 0 then 1 else old(oldPoints)
      ensures var start := if old(oldPoints) == 0 then Patched(old(centre[..]), from, torn) else old(centre[..]);
              forall j :: 0 <= j < centre.Length ==>
                MeanOf(centre[j], Blend(before, start[j], old(newCentre[j])), oldPoints)
    {
      if oldPoints <= 0 {
        oldPoints := 1;
        Patch(from, torn);
      }
      UpdateCentre(before);
    }

    // new_centers from what joins and what leaves; the moved points are dropped.
    method Balance(feature: seq<Point>, moved: array<bool>, ghost olds: seq<int>, ghost news: seq<int>,
                   ghost flags: seq<bool>)
      requires Valid(|feature|, newCentre.Length) && Table(feature, newCentre.Length)
      requires Olds() == olds && News() == news && moved[..] == flags && |flags| == |feature|
      requires Distinct(olds) && Below(Elements(olds), |feature|) && Below(Elements(news), |feature|)
      modifies this`oldPoints, points, newCentre
      ensures oldPoints <= |olds| && Lists(Olds(), Elements(olds) - Gone(olds, flags))
      ensures |olds| + newPoints <= points.Length && points[|olds|..|olds| + newPoints] == news
      ensures Change(feature, news, Gone(olds, flags), newCentre[..])
    {
      hide Lists, Table, Sum, ListSum, Elements, Distinct, Reduced, Below, Gone, Change;
      SumJoiners(feature);
      ghost var sums := newCentre[..];
      DropMoved(feature, moved, olds, flags);
      ChangeOfSums(feature, news, sums, Gone(olds, flags), newCentre[..]);
    }

    // The points that remain are followed by those that joined.
    method CloseUp(before: nat, ghost olds: seq<int>, ghost news: seq<int>, ghost flags: seq<bool>)
      requires oldPoints <= |olds| == before && |news| == newPoints && |olds| + newPoints <= points.Length
      requires Lists(Olds(), Elements(olds) - Gone(olds, flags)) && points[|olds|..|olds| + newPoints] == news
      modifies points
      ensures LosesAll(olds, news, flags) <==> oldPoints + newPoints == 0
      ensures Processed(olds, news, flags, points[..], if oldPoints + newPoints == 0 then 1 else oldPoints + newPoints)
    {
      ghost var kept := Olds();
      assert kept == points[..oldPoints];
      hide *;
      CopyDown(before);
      ProcessedRegions(olds, news, flags, kept, points[..], oldPoints);
    }

    // The point half of process_cluster: new_centers holds what joined less what left, and the
    // points that remain are followed by those that joined.
    method Regroup(feature: seq<Point>, moved: array<bool>, ghost olds: seq<int>, ghost news: seq<int>,
                   ghost flags: seq<bool>)
      requires Valid(|feature|, newCentre.Length) && Table(feature, newCentre.Length)
      requires Olds() == olds && News() == news && moved[..] == flags && |flags| == |feature|
      requires Distinct(olds) && Below(Elements(olds), |feature|) && Below(Elements(news), |feature|)
      modifies this, points, newCentre
      ensures newPoints == 0 && prevNewPoints == old(newPoints) && oldPoints <= old(oldPoints) + |news|
      ensures LosesAll(olds, news, flags) <==> oldPoints == 0
      ensures Processed(olds, news, flags, points[..], if oldPoints == 0 then 1 else oldPoints)
      ensures Change(feature, news, Gone(olds, flags), newCentre[..])
    {
      var before := oldPoints;
      assert |news| == newPoints && |olds| == oldPoints;
      hide *;
      Balance(feature, moved, olds, news, flags);
      CloseUp(before, olds, news, flags);
      prevNewPoints := newPoints;
      oldPoints := oldPoints + newPoints;
      newPoints := 0;
    }

    // The process_cluster task of cluster tid; it also reports whether the repair branch was taken.
    method Process(tid: nat, feature: seq<Point>, moved: array<bool>, torn: real, ghost olds: seq<int>,
                   ghost news: seq<int>, ghost flags: seq<bool>)
      returns (delta: nat, repaired: bool)
      requires Valid(|feature|, newCentre.Length) && Table(feature, newCentre.Length) && tid < |feature|
      requires Olds() == olds && News() == news && moved[..] == flags && |flags| == |feature|
      requires Distinct(olds) && Below(Elements(olds), |feature|) && Below(Elements(news), |feature|)
      modifies this, points, centre, newCentre
      ensures newPoints == 0 && delta == prevNewPoints == |news|
      ensures repaired <==> LosesAll(olds, news, flags)
      ensures Processed(olds, news, flags, points[..], oldPoints)
      ensures var was := old(centre[..]);
              var start := if LosesAll(olds, news, flags) then Patched(was, feature[tid], torn) else was;
              Shifted(feature, |olds|, start, news, Gone(olds, flags), oldPoints, centre[..])
    {
      delta := newPoints;
      var before := oldPoints;
      ghost var was := centre[..];
      Regroup(feature, moved, olds, news, flags);
      assert |feature[tid]| == centre.Length;
      hide *;
      ghost var change := newCentre[..];
      repaired := oldPoints <= 0;
      ghost var start := if repaired then Patched(was, feature[tid], torn) else was;
      Recentre(before, feature[tid], torn);
      ShiftedCentre(feature, before, start, news, Gone(olds, flags), change, oldPoints, centre[..]);
    }

    // Cluster c during reassignment: its points of the last round, then those that joined.
    predicate Pending(before: seq<int>, now: seq<int>, c: int)
      requires |before| == |now|
      reads this, points
    {
      && oldPoints + newPoints <= points.Length
      && Lists(Olds(), Members(before, c))
      && Lists(News(), Joiners(before, now, c))
    }

    // Cluster c at the end of the round. A cluster with members lists them, those that joined at
    // the end, and its centre is their mean; one without has been repaired.
    predicate Updated(feature: seq<Point>, before: seq<int>, now: seq<int>, c: nat, was: Point, torn: real)
      requires |before| == |now|
      reads this, points, centre
    {
      && newPoints == 0 && prevNewPoints <= oldPoints <= points.Length
      && if Members(now, c) == {} then
           && oldPoints == 1 && prevNewPoints == 0 && c < |feature| && |feature[c]| == |was|
           && centre[..] == RepairedCentre(|Members(before, c)|, was, feature[c], torn)
         else
           && Lists(Olds(), Members(now, c))
           && Elements(points[oldPoints - prevNewPoints..oldPoints]) == Joiners(before, now, c)
           && Mean(feature, Members(now, c), centre.Length, centre[..])
    }

    lemma ListedBelow(before: seq<int>, now: seq<int>, c: int)
      requires |before| == |now| && Pending(before, now, c)
      ensures Distinct(Olds()) && Below(Elements(Olds()), |now|) && Below(Elements(News()), |now|)
    {
    }
  }
}
