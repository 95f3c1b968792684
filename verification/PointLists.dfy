/** Lists of point numbers without repetition, and sums of coordinates over them. */
module PointLists {
  import opened Lloyd

  predicate Distinct(s: seq<int>) {
    forall a, b :: 0 <= a < b < |s| ==> s[a] != s[b]
  }

  function Elements(s: seq<int>): set<int> {
    set x | x in s
  }

  // s names every point of S exactly once.
  predicate Lists(s: seq<int>, S: set<int>) {
    Distinct(s) && Elements(s) == S
  }

  predicate Below(S: set<int>, n: nat) {
    forall x :: x in S ==> 0 <= x < n
  }

  // Sum of coordinate j along a list.
  function ListSum(points: seq<Point>, s: seq<int>, j: nat): real {
    if s == [] then 0.0
    else
      var x := s[|s| - 1];
      ListSum(points, s[..|s| - 1], j) + if 0 <= x < |points| then At(points[x], j) else 0.0
  }

  lemma {:induction false} SumWith(points: seq<Point>, S: set<int>, x: int, j: nat, n: nat)
    requires n <= |points| && x !in S && 0 <= x < |points|
    ensures Sum(points, S + {x}, j, n) == Sum(points, S, j, n) + if x < n then At(points[x], j) else 0.0
    ensures Count(S + {x}, n) == Count(S, n) + if x < n then 1 else 0
  {
    if n > 0 {
      SumWith(points, S, x, j, n - 1);
    }
  }

  lemma {:induction false} SumOfUnion(points: seq<Point>, S: set<int>, T: set<int>, j: nat, n: nat)
    requires n <= |points| && S !! T
    ensures Sum(points, S + T, j, n) == Sum(points, S, j, n) + Sum(points, T, j, n)
    ensures Count(S + T, n) == Count(S, n) + Count(T, n)
  {
    if n > 0 {
      SumOfUnion(points, S, T, j, n - 1);
    }
  }

  lemma {:induction false} SumOfEmpty(points: seq<Point>, j: nat, n: nat)
    requires n <= |points|
    ensures Sum(points, {}, j, n) == 0.0 && Count({}, n) == 0
  {
    if n > 0 {
      SumOfEmpty(points, j, n - 1);
    }
  }

  // Along a list without repetition, sum and length are those of its set of elements.
  lemma {:induction false} SumOfList(points: seq<Point>, s: seq<int>, j: nat)
    requires Distinct(s) && Below(Elements(s), |points|)
    ensures ListSum(points, s, j) == Sum(points, Elements(s), j, |points|)
    ensures |s| == Count(Elements(s), |points|)
  {
    if s == [] {
      SumOfEmpty(points, j, |points|);
      assert Elements(s) == {};
    } else {
      var front, x := s[..|s| - 1], s[|s| - 1];
      assert x in Elements(s);
      assert Elements(s) == Elements(front) + {x};
      SumOfList(points, front, j);
      SumWith(points, Elements(front), x, j, |points|);
    }
  }

  lemma {:induction false} CountIsSize(S: set<int>, n: nat)
    requires Below(S, n)
    ensures Count(S, n) == |S|
  {
    if n == 0 {
      assert forall x :: x !in S;
      assert S == {};
    } else {
      CountIgnores(S, n - 1);
      CountIsSize(S - {n - 1}, n - 1);
      if n - 1 in S {
        assert S == S - {n - 1} + {n - 1};
      } else {
        assert S == S - {n - 1};
      }
    }
  }

  lemma {:induction false} CountIgnores(S: set<int>, n: nat)
    ensures Count(S - {n}, n) == Count(S, n)
  {
    CountIgnoresAbove(S, n, n);
  }

  lemma {:induction false} CountIgnoresAbove(S: set<int>, x: nat, n: nat)
    requires n <= x
    ensures Count(S - {x}, n) == Count(S, n)
  {
    if n > 0 {
      CountIgnoresAbove(S, x, n - 1);
    }
  }

  lemma ListLength(s: seq<int>, S: set<int>, n: nat)
    requires Lists(s, S) && Below(S, n)
    ensures |s| == |S| <= n
  {
    var points := seq(n, i => []);
    SumOfList(points, s, 0);
    CountIsSize(S, n);
  }

  // Overwriting position p by the last element and dropping the last drops exactly s[p].
  lemma SwapOut(s: seq<int>, p: nat)
    requires p < |s| && Distinct(s)
    ensures Lists(s[p := s[|s| - 1]][..|s| - 1], Elements(s) - {s[p]})
  {
    var last := |s| - 1;
    var t := s[p := s[last]][..last];
    forall x | x in s && x != s[p]
      ensures x in t
    {
      var k :| 0 <= k < |s| && s[k] == x;
      if k == last { assert t[p] == x; } else { assert t[k] == x; }
    }
  }

  lemma ListsConcatenated(s: seq<int>, S: set<int>, t: seq<int>, T: set<int>)
    requires Lists(s, S) && Lists(t, T) && S !! T
    ensures Lists(s + t, S + T)
  {
    forall a, b | 0 <= a < b < |s + t|
      ensures (s + t)[a] != (s + t)[b]
    {
      if a < |s| { assert s[a] in S; }
      if b >= |s| { assert t[b - |s|] in T; }
    }
  }
}
