/**
 The edge layout of LDPC/main.c: for each edge, in the order of one half of the Tanner graph, its
 place in the order of the other half, found by counting.
 */
module LdpcLayout {
  import opened Arithmetic

  // ---------------------------------------------------------------- ranks

  // Entry l comes before entry j in a stable sort of the positive values.
  predicate Before(values: seq<int>, l: nat, j: nat)
    requires l < |values| && j < |values|
  {
    values[l] >= 1 && (values[l] < values[j] || (values[l] == values[j] && l < j))
  }

  // How many of the first n entries come before entry j.
  function Rank(values: seq<int>, j: nat, n: nat): (r: nat)
    requires j < |values| && n <= |values|
    ensures r <= n
  {
    if n == 0 then 0 else Rank(values, j, n - 1) + if Before(values, n - 1, j) then 1 else 0
  }

  // How many of the first n entries are from 1 up to, but not including, v.
  function Below(values: seq<int>, v: int, n: nat): (r: nat)
    requires n <= |values|
    ensures r <= n
  {
    if n == 0 then 0 else Below(values, v, n - 1) + if 1 <= values[n - 1] < v then 1 else 0
  }

  // How many of the first n entries are v.
  function Equal(values: seq<int>, v: int, n: nat): (r: nat)
    requires n <= |values|
  {
    if n == 0 then 0 else Equal(values, v, n - 1) + if values[n - 1] == v then 1 else 0
  }

  function Min(a: nat, b: nat): nat { if a < b then a else b }

  lemma {:induction false} RankIsCount(values: seq<int>, j: nat, n: nat)
    requires j < |values| && n <= |values| && values[j] >= 1
    ensures Rank(values, j, n) == Below(values, values[j], n) + Equal(values, values[j], Min(n, j))
  {
    if n > 0 {
      RankIsCount(values, j, n - 1);
    }
  }

  lemma {:induction false} BelowNext(values: seq<int>, v: int, n: nat)
    requires n <= |values| && v >= 1
    ensures Below(values, v + 1, n) == Below(values, v, n) + Equal(values, v, n)
  {
    if n > 0 {
      BelowNext(values, v, n - 1);
    }
  }

  lemma {:induction false} NoneBelow(values: seq<int>, n: nat)
    requires n <= |values|
    ensures Below(values, 1, n) == 0
  {
    if n > 0 {
      NoneBelow(values, n - 1);
    }
  }

  // All entries are counted exactly when all are in range.
  lemma {:induction false} AllCounted(values: seq<int>, limit: nat, n: nat)
    requires n <= |values|
    ensures Below(values, limit + 1, n) == n <==> forall j :: 0 <= j < n ==> 1 <= values[j] <= limit
  {
    if n > 0 {
      AllCounted(values, limit, n - 1);
    }
  }

  // ---------------------------------------------------------------- the counting loops

  // For i from 1 to limit, numbers the positions of i; k is the next number.
  method NumberEdges(values: array<int>, limit: nat, table: array<int>) returns (k: nat)
    requires values.Length == table.Length && values != table
    modifies table
    ensures k == table.Length <==> forall j :: 0 <= j < values.Length ==> 1 <= values[j] <= limit
    ensures forall j :: 0 <= j < values.Length ==>
      table[j] == if 1 <= values[j] <= limit then Rank(values[..], j, values.Length) else old(table[j])
  {
    ghost var vs, was := values[..], table[..];
    NoneBelow(vs, |vs|);
    k := 0;
    for i := 1 to limit + 1
      invariant k == Below(vs, i, |vs|)
      invariant forall j :: 0 <= j < |vs| ==>
        table[j] == if 1 <= vs[j] < i then Rank(vs, j, |vs|) else was[j]
    {
      for j := 0 to values.Length
        invariant k == Below(vs, i, |vs|) + Equal(vs, i, j)
        invariant forall l :: 0 <= l < |vs| ==>
          table[l] == if 1 <= vs[l] < i || (vs[l] == i && l < j) then Rank(vs, l, |vs|) else was[l]
      {
        if values[j] == i {
          RankIsCount(vs, j, |vs|);
          table[j] := k;
          k := k + 1;
        }
      }
      BelowNext(vs, i, |vs|);
    }
    AllCounted(vs, limit, |vs|);
  }

  // ---------------------------------------------------------------- stable permutations

  lemma {:induction false} RankGrows(values: seq<int>, l: nat, j: nat, n: nat)
    requires l < |values| && j < |values| && n <= |values| && Before(values, l, j)
    ensures Rank(values, l, n) <= Rank(values, j, n)
    ensures l < n ==> Rank(values, l, n) < Rank(values, j, n)
  {
    if n > 0 {
      RankGrows(values, l, j, n - 1);
    }
  }

  lemma {:induction false} RankBelowAll(values: seq<int>, j: nat, n: nat)
    requires j < n <= |values|
    ensures Rank(values, j, n) < n
  {
    if n - 1 > j {
      RankBelowAll(values, j, n - 1);
    }
  }

  // The table of a half whose check passed: the ranks of a stable sort of its values.
  predicate RankTable(values: seq<int>, table: seq<int>) {
    |table| == |values| && forall j :: 0 <= j < |values| ==> table[j] == Rank(values, j, |values|)
  }

  // Such a table is a permutation, it sorts the values, and it keeps equal values in order.
  lemma RankTableSorts(values: seq<int>, table: seq<int>, l: nat, j: nat)
    requires RankTable(values, table) && (forall k :: 0 <= k < |values| ==> values[k] >= 1)
    requires l < |values| && j < |values| && l != j
    ensures 0 <= table[j] < |values| && table[l] != table[j]
    ensures table[l] < table[j] <==> values[l] < values[j] || (values[l] == values[j] && l < j)
  {
    RankBelowAll(values, j, |values|);
    if Before(values, l, j) {
      RankGrows(values, l, j, |values|);
    } else {
      RankGrows(values, j, l, |values|);
    }
  }

  // ---------------------------------------------------------------- reading a code

  // How ReadAlistFile ends once the file is read: with both tables, by one of its error returns,
  // or by a failed assertion on a zero entry.
  datatype Outcome = Ready | EdgesInconsistent | ZeroEntry | XIncomplete | FIncomplete

  predicate InRange(values: seq<int>, limit: nat) {
    forall j :: 0 <= j < |values| ==> 1 <= values[j] <= limit
  }

  // bits is N, checks is M; bn lists the checks of every bit, cn the bits of every check.
  method ReadAlist(bits: nat, checks: nat, bitWeight: nat, checkWeight: nat, bn: array<int>, cn: array<int>)
    returns (outcome: Outcome, x: array<int>, f: array<int>)
    requires bn.Length == cn.Length == bitWeight * bits
    ensures outcome == EdgesInconsistent <==> checkWeight * checks != bitWeight * bits
    ensures outcome == Ready <==>
      checkWeight * checks == bitWeight * bits && InRange(bn[..], checks) && InRange(cn[..], bits)
    ensures outcome == ZeroEntry <==>
      checkWeight * checks == bitWeight * bits && exists j :: 0 <= j < bn.Length && (bn[j] == 0 || cn[j] == 0)
    ensures outcome == XIncomplete ==> !InRange(bn[..], checks)
    ensures outcome == FIncomplete ==> InRange(bn[..], checks) && !InRange(cn[..], bits)
    ensures outcome == Ready ==> RankTable(bn[..], x[..]) && RankTable(cn[..], f[..])
  {
    var edges := bitWeight * bits;
    x := new int[edges](_ => 0);
    f := new int[edges](_ => 0);
    if checkWeight * checks != edges {
      return EdgesInconsistent, x, f;
    }
    for i := 0 to edges
      invariant forall j :: 0 <= j < i ==> bn[j] != 0 && cn[j] != 0
    {
      if bn[i] == 0 || cn[i] == 0 {
        return ZeroEntry, x, f;
      }
    }
    var k := NumberEdges(bn, checks, x);
    if k != edges {
      return XIncomplete, x, f;
    }
    k := NumberEdges(cn, bits, f);
    if k != edges {
      return FIncomplete, x, f;
    }
    outcome := Ready;
  }

  // ---------------------------------------------------------------- edges

  // An edge as one half lists it: the row it is in, and the entry of that row.
  datatype Edge = Edge(row: int, entry: int)

  function Flip(e: Edge): Edge { Edge(e.entry, e.row) }

  predicate Less(e: Edge, g: Edge) {
    e.row < g.row || (e.row == g.row && e.entry < g.entry)
  }

  // The edges of a half whose rows have the same number of entries.
  function Edges(values: seq<int>, weight: nat): (s: seq<Edge>)
    requires weight > 0
    ensures |s| == |values|
  {
    seq(|values|, j requires 0 <= j < |values| => Edge(j / weight + 1, values[j]))
  }

  predicate Distinct(s: seq<Edge>) {
    forall a, b :: 0 <= a < b < |s| ==> s[a] != s[b]
  }

  predicate Sorted(s: seq<Edge>) {
    forall a, b :: 0 <= a < b < |s| ==> Less(s[a], s[b])
  }

  predicate RowsInOrder(s: seq<Edge>) {
    forall a, b :: 0 <= a < b < |s| ==> s[a].row <= s[b].row
  }

  // Both halves list the same edges, each once.
  ghost predicate SameEdges(p: seq<Edge>, q: seq<Edge>) {
    && Distinct(p) && Distinct(q)
    && (forall e :: e in p <==> Flip(e) in q)
  }

  // Every row of a half is strictly ascending.
  predicate Ascending(values: seq<int>, weight: nat)
    requires weight > 0
  {
    forall j :: 0 < j < |values| && (j - 1) / weight == j / weight ==> values[j - 1] < values[j]
  }

  lemma RowsOf(values: seq<int>, weight: nat)
    requires weight > 0
    ensures RowsInOrder(Edges(values, weight))
  {
    forall a, b | 0 <= a < b < |values|
      ensures a / weight <= b / weight
    {
      QuotientOrder(a, b, weight);
    }
  }

  lemma QuotientOrder(a: nat, b: nat, w: nat)
    requires a <= b && w > 0
    ensures a / w <= b / w
  {
    var p, q := a / w, b / w;
    assert b == q * w + b % w && a == p * w + a % w;
    if p > q { MulOrder(p, q, w); }
  }

  // Strictly ascending rows are what makes the whole list strictly sorted.
  lemma {:induction false} AscendingPair(values: seq<int>, weight: nat, a: nat, b: nat)
    requires weight > 0 && Ascending(values, weight) && a < b < |values|
    ensures Less(Edges(values, weight)[a], Edges(values, weight)[b])
  {
    QuotientOrder(a, b - 1, weight);
    QuotientOrder(b - 1, b, weight);
    if a < b - 1 {
      AscendingPair(values, weight, a, b - 1);
    }
  }

  lemma AscendingIsSorted(values: seq<int>, weight: nat)
    requires weight > 0
    ensures Ascending(values, weight) <==> Sorted(Edges(values, weight))
  {
    var s := Edges(values, weight);
    if Ascending(values, weight) {
      forall a, b | 0 <= a < b < |s|
        ensures Less(s[a], s[b])
      {
        AscendingPair(values, weight, a, b);
      }
    } else {
      var j :| 0 < j < |values| && (j - 1) / weight == j / weight && values[j - 1] >= values[j];
      assert !Less(s[j - 1], s[j]);
    }
  }

  // ---------------------------------------------------------------- places

  // How many of the first n edges of a list are less than e.
  function Place(s: seq<Edge>, e: Edge, n: nat): (r: nat)
    requires n <= |s|
    ensures r <= n
  {
    if n == 0 then 0 else Place(s, e, n - 1) + if Less(s[n - 1], e) then 1 else 0
  }

  function Lesser(s: seq<Edge>, e: Edge, n: nat): set<Edge>
    requires n <= |s|
  {
    set k | 0 <= k < n && Less(s[k], e) :: s[k]
  }

  lemma {:induction false} PlaceIsSize(s: seq<Edge>, e: Edge, n: nat)
    requires n <= |s| && Distinct(s)
    ensures Place(s, e, n) == |Lesser(s, e, n)|
  {
    if n == 0 {
      assert Lesser(s, e, 0) == {};
    } else {
      PlaceIsSize(s, e, n - 1);
      if Less(s[n - 1], e) {
        assert Lesser(s, e, n) == Lesser(s, e, n - 1) + {s[n - 1]};
        assert s[n - 1] !in Lesser(s, e, n - 1);
      } else {
        assert Lesser(s, e, n) == Lesser(s, e, n - 1);
      }
    }
  }

  function Flipped(s: seq<Edge>): (t: seq<Edge>)
    ensures |t| == |s| && forall k :: 0 <= k < |s| ==> t[k] == Flip(s[k])
  {
    seq(|s|, k requires 0 <= k < |s| => Flip(s[k]))
  }

  // The place of an edge does not depend on which half counts.
  lemma PlaceInEither(p: seq<Edge>, q: seq<Edge>, e: Edge)
    requires SameEdges(p, q)
    ensures Place(Flipped(p), e, |p|) == Place(q, e, |q|)
  {
    var t := Flipped(p);
    forall a, b | 0 <= a < b < |t|
      ensures t[a] != t[b]
    {
      assert p[a] != p[b];
    }
    PlaceIsSize(t, e, |t|);
    PlaceIsSize(q, e, |q|);
    forall g
      ensures g in Lesser(t, e, |t|) <==> g in Lesser(q, e, |q|)
    {
      if g in t { var k :| 0 <= k < |t| && t[k] == g; assert p[k] in p && Flip(p[k]) in q; }
      if g in q {
        assert Flip(Flip(g)) == g && Flip(g) in p;
        var k :| 0 <= k < |p| && p[k] == Flip(g);
        assert t[k] == g;
      }
    }
    assert Lesser(t, e, |t|) == Lesser(q, e, |q|);
  }

  // What the counting loops find is the place of the edge among the edges of the other half.
  lemma {:induction false} RankIsPlace(values: seq<int>, weight: nat, j: nat, n: nat)
    requires weight > 0 && j < |values| && n <= |values| && (forall l :: 0 <= l < |values| ==> values[l] >= 1)
    requires Distinct(Edges(values, weight))
    ensures Rank(values, j, n) == Place(Flipped(Edges(values, weight)), Flip(Edges(values, weight)[j]), n)
  {
    if n > 0 {
      RankIsPlace(values, weight, j, n - 1);
      var s, l := Edges(values, weight), n - 1;
      RowsOf(values, weight);
      assert l < j ==> s[l] != s[j] && s[l].row <= s[j].row;
      assert j < l ==> s[l] != s[j] && s[j].row <= s[l].row;
      assert Before(values, l, j) <==> Less(Flip(s[l]), Flip(s[j]));
      assert Flipped(s)[l] == Flip(s[l]);
    }
  }

  lemma {:induction false} PlaceBounds(s: seq<Edge>, e: Edge, n: nat, lo: nat, hi: nat)
    requires n <= |s|
    requires forall k :: 0 <= k < lo && k < |s| ==> Less(s[k], e)
    requires forall k :: hi <= k < |s| ==> !Less(s[k], e)
    ensures Min(n, lo) <= Place(s, e, n) <= Min(n, hi)
  {
    if n > 0 {
      PlaceBounds(s, e, n - 1, lo, hi);
    }
  }

  // In a sorted list every edge is at its place, and only a sorted list has every edge there.
  lemma SortedMeansInPlace(s: seq<Edge>)
    requires Distinct(s)
    ensures Sorted(s) <==> forall k :: 0 <= k < |s| ==> Place(s, s[k], |s|) == k
  {
    if Sorted(s) {
      forall k | 0 <= k < |s|
        ensures Place(s, s[k], |s|) == k
      {
        PlaceBounds(s, s[k], |s|, k, k);
      }
    }
    if forall k :: 0 <= k < |s| ==> Place(s, s[k], |s|) == k {
      forall a, b | 0 <= a < b < |s|
        ensures Less(s[a], s[b])
      {
        assert s[a] != s[b];
        if Less(s[b], s[a]) {
          PlaceGrows(s, s[b], s[a], |s|);
        }
      }
    }
  }

  lemma {:induction false} PlaceGrows(s: seq<Edge>, e: Edge, g: Edge, n: nat)
    requires n <= |s| && Less(e, g)
    ensures Place(s, e, n) <= Place(s, g, n)
  {
    if n > 0 {
      PlaceGrows(s, e, g, n - 1);
    }
  }

  // ---------------------------------------------------------------- inverse tables

  predicate Inverse(x: seq<int>, f: seq<int>) {
    |x| == |f| && (forall j :: 0 <= j < |x| ==> 0 <= x[j] < |f| && f[x[j]] == j)
  }

  // The two halves of a regular code: the same edges, row by row.
  ghost predicate Code(bn: seq<int>, bitWeight: nat, cn: seq<int>, checkWeight: nat) {
    && bitWeight > 0 && checkWeight > 0 && |bn| == |cn|
    && |bn| % bitWeight == 0 && |cn| % checkWeight == 0
    && SameEdges(Edges(bn, bitWeight), Edges(cn, checkWeight))
  }

  lemma CodeFlips(bn: seq<int>, bitWeight: nat, cn: seq<int>, checkWeight: nat)
    requires Code(bn, bitWeight, cn, checkWeight)
    ensures Code(cn, checkWeight, bn, bitWeight)
    ensures forall j :: 0 <= j < |bn| ==> bn[j] >= 1
  {
    var p, q := Edges(bn, bitWeight), Edges(cn, checkWeight);
    forall e
      ensures e in q <==> Flip(e) in p
    {
      assert Flip(Flip(e)) == e;
    }
    forall j | 0 <= j < |bn|
      ensures bn[j] >= 1
    {
      assert p[j] in p && Flip(p[j]) in q;
      var k :| 0 <= k < |q| && q[k] == Flip(p[j]);
      QuotientOrder(0, k, checkWeight);
      assert q[k].row == k / checkWeight + 1;
    }
  }

  // Each half's table gives the place of its edges in the other half.
  lemma TableIsPlace(bn: seq<int>, bitWeight: nat, cn: seq<int>, checkWeight: nat, x: seq<int>, j: nat)
    requires Code(bn, bitWeight, cn, checkWeight) && RankTable(bn, x) && j < |bn|
    ensures x[j] == Place(Edges(cn, checkWeight), Flip(Edges(bn, bitWeight)[j]), |cn|)
  {
    var p, q := Edges(bn, bitWeight), Edges(cn, checkWeight);
    CodeFlips(bn, bitWeight, cn, checkWeight);
    RankIsPlace(bn, bitWeight, j, |bn|);
    PlaceInEither(p, q, Flip(p[j]));
  }

  // With ascending rows the edge is found at the place that the table gives.
  lemma EdgeAtPlace(bn: seq<int>, bitWeight: nat, cn: seq<int>, checkWeight: nat, x: seq<int>, j: nat)
    requires Code(bn, bitWeight, cn, checkWeight) && RankTable(bn, x) && j < |bn| && Ascending(cn, checkWeight)
    ensures 0 <= x[j] < |cn| && Edges(cn, checkWeight)[x[j]] == Flip(Edges(bn, bitWeight)[j])
  {
    var p, q := Edges(bn, bitWeight), Edges(cn, checkWeight);
    TableIsPlace(bn, bitWeight, cn, checkWeight, x, j);
    AscendingIsSorted(cn, checkWeight);
    SortedMeansInPlace(q);
    assert p[j] in p && Flip(p[j]) in q;
    var k :| 0 <= k < |q| && q[k] == Flip(p[j]);
  }

  lemma SameIndex(p: seq<Edge>, l: nat, j: nat)
    requires Distinct(p) && l < |p| && j < |p| && p[l] == p[j]
    ensures l == j
  {
  }

  lemma AscendingGivesInverse(bn: seq<int>, bitWeight: nat, cn: seq<int>, checkWeight: nat, x: seq<int>, f: seq<int>)
    requires Code(bn, bitWeight, cn, checkWeight) && RankTable(bn, x) && RankTable(cn, f)
    requires Ascending(bn, bitWeight) && Ascending(cn, checkWeight)
    ensures Inverse(x, f)
  {
    var p, q := Edges(bn, bitWeight), Edges(cn, checkWeight);
    CodeFlips(bn, bitWeight, cn, checkWeight);
    forall j | 0 <= j < |x|
      ensures 0 <= x[j] < |f| && f[x[j]] == j
    {
      EdgeAtPlace(bn, bitWeight, cn, checkWeight, x, j);
      EdgeAtPlace(cn, checkWeight, bn, bitWeight, f, x[j]);
      var l := f[x[j]];
      assert p[l] == Flip(q[x[j]]) == p[j];
      SameIndex(p, l, j);
    }
  }

  // An entry that is not less takes one from the count.
  lemma {:induction false} PlaceMisses(s: seq<Edge>, e: Edge, n: nat, hi: nat, k: nat)
    requires n <= |s| && k < hi && k < |s| && !Less(s[k], e)
    requires forall l :: hi <= l < |s| ==> !Less(s[l], e)
    ensures Place(s, e, n) <= Min(n, hi) - if k < n then 1 else 0
  {
    if n > 0 {
      PlaceMisses(s, e, n - 1, hi, k);
    }
  }

  // Sorted or not, the place of an edge is in the edge's own row.
  lemma PlaceIsInRow(values: seq<int>, weight: nat, k: nat)
    requires weight > 0 && |values| % weight == 0 && k < |values|
    ensures Place(Edges(values, weight), Edges(values, weight)[k], |values|) / weight == k / weight
  {
    var s, r := Edges(values, weight), k / weight;
    var lo, hi := r * weight, r * weight + weight;
    assert k == lo + k % weight;
    forall l | 0 <= l < lo && l < |s|
      ensures Less(s[l], s[k])
    {
      RowBefore(l, r, weight);
    }
    forall l | hi <= l < |s|
      ensures !Less(s[l], s[k])
    {
      RowAfter(l, r, weight);
    }
    PlaceBounds(s, s[k], |s|, lo, hi);
    PlaceMisses(s, s[k], |s|, hi, k);
    var place := Place(s, s[k], |s|);
    DivModUnique(place, weight, r, place - lo);
  }

  lemma RowBefore(l: nat, r: nat, w: nat)
    requires w > 0 && l < r * w
    ensures l / w < r
  {
    var q := l / w;
    assert l == q * w + l % w;
    if q > r { MulOrder(q, r, w); }
  }

  lemma RowAfter(l: nat, r: nat, w: nat)
    requires w > 0 && l >= r * w + w
    ensures l / w > r
  {
    var q := l / w;
    assert l == q * w + l % w;
    if r > q { MulOrder(r, q, w); }
  }

  // The table leads to the right row of the other half.
  lemma TableFindsRow(bn: seq<int>, bitWeight: nat, cn: seq<int>, checkWeight: nat, x: seq<int>, j: nat)
    requires Code(bn, bitWeight, cn, checkWeight) && RankTable(bn, x) && j < |bn| && 0 <= x[j] < |cn|
    ensures Edges(cn, checkWeight)[x[j]].row == bn[j]
  {
    var p, q := Edges(bn, bitWeight), Edges(cn, checkWeight);
    TableIsPlace(bn, bitWeight, cn, checkWeight, x, j);
    assert p[j] in p && Flip(p[j]) in q;
    var k :| 0 <= k < |q| && q[k] == Flip(p[j]);
    PlaceIsInRow(cn, checkWeight, k);
    assert q[k].row == k / checkWeight + 1;
  }

  // Tables that undo each other one way force the first half's rows to be ascending.
  lemma InverseGivesAscending(bn: seq<int>, bitWeight: nat, cn: seq<int>, checkWeight: nat, x: seq<int>, f: seq<int>)
    requires Code(bn, bitWeight, cn, checkWeight) && RankTable(bn, x) && RankTable(cn, f) && Inverse(x, f)
    ensures Ascending(bn, bitWeight)
  {
    var p, q := Edges(bn, bitWeight), Edges(cn, checkWeight);
    CodeFlips(bn, bitWeight, cn, checkWeight);
    forall j | 0 <= j < |p|
      ensures Place(p, p[j], |p|) == j
    {
      TableFindsRow(bn, bitWeight, cn, checkWeight, x, j);
      TableFindsRow(cn, checkWeight, bn, bitWeight, f, x[j]);
      assert Flip(q[x[j]]) == p[j];
      TableIsPlace(cn, checkWeight, bn, bitWeight, f, x[j]);
    }
    SortedMeansInPlace(p);
    AscendingIsSorted(bn, bitWeight);
  }

  lemma InverseBothWays(cn: seq<int>, x: seq<int>, f: seq<int>)
    requires RankTable(cn, f) && Inverse(x, f) && (forall k :: 0 <= k < |cn| ==> cn[k] >= 1)
    ensures Inverse(f, x)
  {
    forall k | 0 <= k < |f|
      ensures 0 <= f[k] < |x| && x[f[k]] == k
    {
      RankBelowAll(cn, k, |cn|);
      var l := x[f[k]];
      assert f[l] == f[k];
      if l != k { RankTableSorts(cn, f, l, k); }
    }
  }

  // The tables of a regular code undo each other exactly when both halves list their rows in
  // strictly ascending order.
  lemma InverseIffAscending(bn: seq<int>, bitWeight: nat, cn: seq<int>, checkWeight: nat, x: seq<int>, f: seq<int>)
    requires Code(bn, bitWeight, cn, checkWeight) && RankTable(bn, x) && RankTable(cn, f)
    ensures Inverse(x, f) && Inverse(f, x) <==> Ascending(bn, bitWeight) && Ascending(cn, checkWeight)
    ensures Inverse(x, f) <==> Inverse(f, x)
  {
    CodeFlips(bn, bitWeight, cn, checkWeight);
    CodeFlips(cn, checkWeight, bn, bitWeight);
    if Inverse(x, f) {
      InverseBothWays(cn, x, f);
    }
    if Inverse(f, x) {
      InverseBothWays(bn, f, x);
      InverseGivesAscending(bn, bitWeight, cn, checkWeight, x, f);
      InverseGivesAscending(cn, checkWeight, bn, bitWeight, f, x);
    }
    if Ascending(bn, bitWeight) && Ascending(cn, checkWeight) {
      AscendingGivesInverse(bn, bitWeight, cn, checkWeight, x, f);
    }
  }

  // Two bits and two checks, all connected, the first bit listing its checks in descending
  // order: both tables are generated, and they do not undo each other.
  lemma DescendingRowBreaksInverse(x: seq<int>, f: seq<int>)
    requires RankTable([2, 1, 1, 2], x) && RankTable([1, 2, 1, 2], f)
    ensures Code([2, 1, 1, 2], 2, [1, 2, 1, 2], 2) && InRange([2, 1, 1, 2], 2) && InRange([1, 2, 1, 2], 2)
    ensures !Inverse(x, f)
  {
    var p, q := Edges([2, 1, 1, 2], 2), Edges([1, 2, 1, 2], 2);
    assert p == [Edge(1, 2), Edge(1, 1), Edge(2, 1), Edge(2, 2)];
    assert q == [Edge(1, 1), Edge(1, 2), Edge(2, 1), Edge(2, 2)];
    forall e
      ensures e in p <==> Flip(e) in q
    {
      assert e in p <==> e == p[0] || e == p[1] || e == p[2] || e == p[3];
      assert Flip(e) in q <==> Flip(e) == q[0] || Flip(e) == q[1] || Flip(e) == q[2] || Flip(e) == q[3];
    }
    assert [2, 1, 1, 2][0] >= [2, 1, 1, 2][1];
    InverseIffAscending([2, 1, 1, 2], 2, [1, 2, 1, 2], 2, x, f);
  }
}
