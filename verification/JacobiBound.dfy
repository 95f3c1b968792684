/**
 How far the sweeps of jacobi.c can be from the solution of a diagonally dominant system,
 whichever blocks of rows the scheduler lets run approximately.
 */
module JacobiBound {
  import opened Jacobi

  function Abs(r: real): (a: real)
    ensures a >= 0.0
  {
    if r < 0.0 then -r else r
  }

  // Sum of |A[i][j]| over the first n columns other than i.
  function AbsOff(mat: Matrix, i: nat, n: nat): (r: real)
    requires Shape(mat) && i < mat.size && n <= mat.size
    ensures r >= 0.0
  {
    if n == 0 then 0.0
    else AbsOff(mat, i, n - 1) + if n - 1 == i then 0.0 else Abs(Cell(mat, i, n - 1))
  }

  // Every diagonal entry is positive and at least the sum of the magnitudes beside it.
  predicate Dominant(mat: Matrix) {
    Shape(mat) && forall i :: 0 <= i < mat.size ==>
      Cell(mat, i, i) > 0.0 && AbsOff(mat, i, mat.size) <= Cell(mat, i, i)
  }

  // The magnitudes beside a diagonal entry are at most q times that entry.
  predicate RowContracts(mat: Matrix, q: real, i: nat)
    requires Shape(mat) && i < mat.size
  {
    Cell(mat, i, i) > 0.0 && AbsOff(mat, i, mat.size) <= q * Cell(mat, i, i)
  }

  predicate Contracts(mat: Matrix, q: real) {
    Shape(mat) && forall i :: 0 <= i < mat.size ==> RowContracts(mat, q, i)
  }

  lemma DominantContracts(mat: Matrix)
    ensures Dominant(mat) <==> Contracts(mat, 1.0)
    ensures Dominant(mat) ==> Divisible(mat)
  {
    hide Cell, AbsOff, Square;
    if Shape(mat) {
      assert forall i :: 0 <= i < mat.size ==>
        (RowContracts(mat, 1.0, i) <==> Cell(mat, i, i) > 0.0 && AbsOff(mat, i, mat.size) <= Cell(mat, i, i));
    }
  }

  // ---------------------------------------------------------------- norms

  function Max(a: real, b: real): real { if a < b then b else a }

  // Largest |x[i] - y[i]| over the first n entries.
  function Error(x: seq<real>, y: seq<real>, n: nat): (e: real)
    requires n <= |x| && n <= |y|
    ensures e >= 0.0 && forall i :: 0 <= i < n ==> Abs(x[i] - y[i]) <= e
  {
    if n == 0 then 0.0 else Max(Error(x, y, n - 1), Abs(x[n - 1] - y[n - 1]))
  }

  // Largest |y[i]| over the first n entries.
  function Magnitude(y: seq<real>, n: nat): (e: real)
    requires n <= |y|
    ensures e >= 0.0 && forall i :: 0 <= i < n ==> Abs(y[i]) <= e
  {
    if n == 0 then 0.0 else Max(Magnitude(y, n - 1), Abs(y[n - 1]))
  }

  lemma {:induction false} ErrorIsLeast(x: seq<real>, y: seq<real>, n: nat, m: real)
    requires n <= |x| && n <= |y| && m >= 0.0 && forall i :: 0 <= i < n ==> Abs(x[i] - y[i]) <= m
    ensures Error(x, y, n) <= m
  {
    if n > 0 {
      ErrorIsLeast(x, y, n - 1, m);
    }
  }

  lemma MaxTimes(q: real, a: real, b: real)
    requires q >= 0.0
    ensures Times(q, Max(a, b)) == Max(Times(q, a), Times(q, b))
  {
    TimesOrder(q, a, b);
    TimesOrder(q, b, a);
    hide Times;
  }

  lemma TimesOrder(q: real, a: real, b: real)
    requires q >= 0.0
    ensures a <= b ==> Times(q, a) <= Times(q, b)
    ensures a >= 0.0 ==> Times(q, a) >= 0.0
    ensures a >= 0.0 && q <= 1.0 ==> Times(q, a) <= a
  {
    hide *;
    TimesIs(q, a);
    TimesIs(q, b);
    if a <= b { ProductMonotone(q, a, b); }
    if a >= 0.0 { ProductNonNegative(q, a); }
    if a >= 0.0 && q <= 1.0 { ProductAtMost(q, a); }
  }

  lemma ProductNonNegative(a: real, b: real)
    requires a >= 0.0 && b >= 0.0
    ensures a * b >= 0.0
  {
  }

  lemma ProductAtMost(q: real, a: real)
    requires q <= 1.0 && a >= 0.0
    ensures q * a <= a
  {
    ProductNonNegative(1.0 - q, a);
  }

  // ---------------------------------------------------------------- one row

  lemma ProductMonotone(a: real, d: real, m: real)
    requires a >= 0.0 && d <= m
    ensures a * d <= a * m
  {
    ProductNonNegative(a, m - d);
  }

  lemma TermBound(a: real, d: real, m: real)
    requires Abs(d) <= m
    ensures Abs(Times(a, d)) <= Abs(a) * m
  {
    assert Abs(Times(a, d)) == Abs(a) * Abs(d);
    ProductMonotone(Abs(a), Abs(d), m);
  }

  lemma DistributeSum(m: real, u: real, v: real)
    ensures (u + v) * m == u * m + v * m
  {
  }

  function Min(a: nat, b: nat): nat { if a < b then a else b }

  lemma AbsOfSum(d: real, t: real, m: real, n: real)
    requires Abs(d) <= m && Abs(t) <= n
    ensures Abs(d + t) <= m + n
  {
  }

  // One more column: a factor a and a discrepancy of at most m.
  lemma OneMoreTerm(d: real, bound: real, a: real, t: real, m: real)
    requires Abs(d) <= bound * m && Abs(t) <= m
    ensures Abs(d + Times(a, t)) <= (bound + Abs(a)) * m
  {
    hide *;
    TermBound(a, t, m);
    AbsOfSum(d, Times(a, t), bound * m, Abs(a) * m);
    DistributeSum(m, bound, Abs(a));
  }

  // How far the sum over a band is from the sum over the first n columns.
  function Gap(mat: Matrix, x: seq<real>, y: seq<real>, i: nat, lo: nat, hi: nat, n: nat): real
    requires Shape(mat) && |x| == |y| == mat.size && i < mat.size && hi <= mat.size && n <= mat.size
  {
    Off(mat, x, i, lo, Min(n, hi)) - Off(mat, y, i, 0, n)
  }

  // What a band gets wrong in column j: the error of x inside, the whole entry outside.
  function Discrepancy(x: seq<real>, y: seq<real>, lo: nat, hi: nat, j: nat): real
    requires |x| == |y| && j < |x|
  {
    if lo <= j < hi then x[j] - y[j] else -y[j]
  }

  lemma TimesMinus(a: real, u: real, v: real)
    ensures Times(a, u) - Times(a, v) == Times(a, u - v)
    ensures -Times(a, v) == Times(a, -v)
  {
  }

  // What column j adds to the gap.
  lemma GapStep(mat: Matrix, x: seq<real>, y: seq<real>, i: nat, lo: nat, hi: nat, j: nat)
    requires Shape(mat) && |x| == |y| == mat.size && i < mat.size && hi <= mat.size && j < mat.size
    ensures Gap(mat, x, y, i, lo, hi, 0) == 0.0 && AbsOff(mat, i, 0) == 0.0
    ensures j == i ==> Gap(mat, x, y, i, lo, hi, j + 1) == Gap(mat, x, y, i, lo, hi, j)
    ensures j == i ==> AbsOff(mat, i, j + 1) == AbsOff(mat, i, j)
    ensures j != i ==>
      Gap(mat, x, y, i, lo, hi, j + 1) ==
        Gap(mat, x, y, i, lo, hi, j) + Times(Cell(mat, i, j), Discrepancy(x, y, lo, hi, j))
    ensures j != i ==> AbsOff(mat, i, j + 1) == AbsOff(mat, i, j) + Abs(Cell(mat, i, j))
  {
    hide Abs, Square, Flat, Times, Cell;
    TimesMinus(Cell(mat, i, j), x[j], y[j]);
  }

  // What an incomplete sum misses or gets wrong is at most m times the magnitudes in the row.
  lemma {:induction false} SumsDiffer(mat: Matrix, x: seq<real>, y: seq<real>, i: nat, lo: nat, hi: nat, n: nat,
                                      m: real)
    requires Shape(mat) && |x| == |y| == mat.size && i < mat.size && hi <= mat.size && n <= mat.size && m >= 0.0
    requires forall j :: 0 <= j < mat.size ==> Abs(Discrepancy(x, y, lo, hi, j)) <= m
    ensures Abs(Gap(mat, x, y, i, lo, hi, n)) <= AbsOff(mat, i, n) * m
  {
    hide *;
    if n == 0 {
      GapStep(mat, x, y, i, lo, hi, 0);
      NothingYet(Gap(mat, x, y, i, lo, hi, n), AbsOff(mat, i, n), m);
    } else {
      var j := n - 1;
      SumsDiffer(mat, x, y, i, lo, hi, j, m);
      GapStep(mat, x, y, i, lo, hi, j);
      if j != i {
        OneMoreTerm(Gap(mat, x, y, i, lo, hi, j), AbsOff(mat, i, j), Cell(mat, i, j), Discrepancy(x, y, lo, hi, j), m);
      }
    }
  }

  lemma NothingYet(d: real, bound: real, m: real)
    requires d == 0.0 && bound == 0.0
    ensures Abs(d) <= bound * m
  {
  }

  lemma AbsBelow(p: real, m: real)
    ensures Abs(p) <= m <==> p <= m && -p <= m
  {
  }

  // A bound of s * m with s at most q times the divisor.
  lemma BoundOverDivisor(s: real, d: real, q: real, m: real)
    requires s <= q * d && m >= 0.0
    ensures s * m <= q * m * d
  {
    ProductMonotone(m, s, q * d);
    assert m * (q * d) == q * m * d;
  }

  lemma CancelFactor(k: real, r: real, d: real)
    requires k * d <= r * d && d > 0.0
    ensures k <= r
  {
    if k > r { ProductPositive(k - r, d); }
  }

  lemma ProductPositive(a: real, b: real)
    requires a > 0.0 && b > 0.0
    ensures a * b > 0.0
  {
  }

  lemma QuotientTimes(p: real, d: real)
    requires d > 0.0
    ensures p / d * d == p && -(p / d) * d == -p
  {
  }

  lemma QuotientBound(p: real, d: real, r: real)
    requires Abs(p) <= r * d && d > 0.0
    ensures Abs(p / d) <= r
  {
    hide *;
    QuotientTimes(p, d);
    AbsBelow(p, r * d);
    CancelFactor(p / d, r, d);
    CancelFactor(-(p / d), r, d);
    AbsBelow(p / d, r);
  }

  lemma QuotientOfSum(u: real, v: real, d: real)
    requires d > 0.0
    ensures (u + Times(d, v)) / d == u / d + v
  {
    assert Times(d, v) / d == v;
  }

  lemma ShiftedQuotient(e: real, p: real, yi: real, d: real, r: real)
    requires e == p + Times(d, yi) && d > 0.0 && Abs(p) <= r * d
    ensures Abs(e / d - yi) <= r
  {
    hide *;
    QuotientBound(p, d, r);
    QuotientOfSum(p, yi, d);
  }

  lemma GapOverDivisor(ox: real, oy: real, s: real, d: real, q: real, m: real)
    requires s <= q * d && m >= 0.0 && Abs(ox - oy) <= s * m
    ensures Abs(oy - ox) <= q * m * d
  {
    BoundOverDivisor(s, d, q, m);
  }

  lemma SolveRow(b: real, ox: real, oy: real, d: real, yi: real, s: real, q: real, m: real)
    requires b == oy + Times(d, yi) && d > 0.0 && s <= q * d && m >= 0.0 && Abs(ox - oy) <= s * m
    ensures Abs((b - ox) / d - yi) <= Times(q, m)
  {
    hide *;
    GapOverDivisor(ox, oy, s, d, q, m);
    TimesIs(q, m);
    ShiftedQuotient(b - ox, oy - ox, yi, d, q * m);
  }

  lemma ContractsAt(mat: Matrix, q: real, i: nat)
    requires Contracts(mat, q) && i < mat.size
    ensures Shape(mat) && Cell(mat, i, i) > 0.0 && AbsOff(mat, i, mat.size) <= q * Cell(mat, i, i)
  {
    assert RowContracts(mat, q, i);
    hide AbsOff, Cell, Square;
  }

  lemma RowParts(mat: Matrix, b: seq<real>, x: seq<real>, y: seq<real>, i: nat, lo: nat, hi: nat)
    requires Divisible(mat) && Solves(mat, b, y) && |x| == mat.size && i < mat.size && hi <= mat.size
    ensures Shape(mat) && |b| == mat.size
    ensures b[i] == Off(mat, y, i, 0, mat.size) + Times(Cell(mat, i, i), y[i])
    ensures Gap(mat, x, y, i, lo, hi, mat.size) == Off(mat, x, i, lo, hi) - Off(mat, y, i, 0, mat.size)
    ensures NewValue(mat, b, x, i, lo, hi) == (b[i] - Off(mat, x, i, lo, hi)) / Cell(mat, i, i)
  {
    hide Off, Cell, Square, Times;
  }

  // The new value of a row is off by at most q * m when its band is off by at most m and what it
  // ignores is at most m.
  lemma RowError(mat: Matrix, b: seq<real>, x: seq<real>, y: seq<real>, i: nat, lo: nat, hi: nat, q: real, m: real)
    requires Contracts(mat, q) && Divisible(mat) && Solves(mat, b, y)
    requires |b| == |x| == |y| == mat.size && i < mat.size && hi <= mat.size && m >= 0.0
    requires forall j :: 0 <= j < mat.size ==> Abs(Discrepancy(x, y, lo, hi, j)) <= m
    ensures Abs(NewValue(mat, b, x, i, lo, hi) - y[i]) <= Times(q, m)
  {
    hide *;
    ContractsAt(mat, q, i);
    RowParts(mat, b, x, y, i, lo, hi);
    SumsDiffer(mat, x, y, i, lo, hi, mat.size, m);
    SolveRow(b[i], Off(mat, x, i, lo, hi), Off(mat, y, i, 0, mat.size), Cell(mat, i, i), y[i],
             AbsOff(mat, i, mat.size), q, m);
  }

  // ---------------------------------------------------------------- one sweep

  // The task of row i has run the approximate body.
  predicate Approximated(approx: seq<bool>, i: nat) {
    i / TASK_WORK < |approx| && approx[i / TASK_WORK]
  }

  lemma SweptRow(mat: Matrix, b: seq<real>, x: seq<real>, approx: seq<bool>, next: seq<real>, i: nat)
    requires Swept(mat, b, x, approx, next) && i < mat.size
    ensures Divisible(mat) && |b| == |x| == |next| == mat.size 
    ensures next[i] == ValueAt(mat, b, x, Approximated(approx, i), i)
  {
    BlockOfRow(i, |approx|);
    hide Divisible, ValueAt;
  }

  // The columns that the task of a row adds up.
  function Left(i: nat, approx: bool): nat { Lo(BlockStart(i), approx) }
  function Right(i: nat, approx: bool, size: nat): (hi: nat)
    ensures hi <= size
  {
    Hi(BlockStart(i), approx, size)
  }

  lemma ValueAtIs(mat: Matrix, b: seq<real>, x: seq<real>, approx: bool, i: nat)
    requires Divisible(mat) && |b| == |x| == mat.size && i < mat.size
    ensures ValueAt(mat, b, x, approx, i) == NewValue(mat, b, x, i, Left(i, approx), Right(i, approx, mat.size))
    ensures !approx ==> Left(i, approx) == 0 && Right(i, approx, mat.size) == mat.size
  {
    hide NewValue, Divisible;
  }

  // How far the entries that a row's task reads, and the solution entries it ignores, can be.
  predicate Near(x: seq<real>, y: seq<real>, lo: nat, hi: nat, m: real) {
    |x| == |y| && hi <= |x| && m >= 0.0 && forall j :: 0 <= j < |x| ==> Abs(Discrepancy(x, y, lo, hi, j)) <= m
  }

  lemma RowAfterSweep(mat: Matrix, b: seq<real>, x: seq<real>, y: seq<real>, approx: seq<bool>, next: seq<real>,
                      i: nat, q: real, m: real)
    requires Contracts(mat, q) && Swept(mat, b, x, approx, next) && Solves(mat, b, y) && |y| == |next| == mat.size
    requires i < mat.size
    requires Near(x, y, Left(i, Approximated(approx, i)), Right(i, Approximated(approx, i), mat.size), m)
    ensures Abs(next[i] - y[i]) <= Times(q, m)
  {
    var a := Approximated(approx, i);
    hide Contracts, Divisible, Swept, Solves, NewValue, ValueAt, Left, Right, Times, Abs, Approximated;
    SweptRow(mat, b, x, approx, next, i);
    ValueAtIs(mat, b, x, a, i);
    RowError(mat, b, x, y, i, Left(i, a), Right(i, a, mat.size), q, m);
  }

  lemma NearByNorms(x: seq<real>, y: seq<real>, lo: nat, hi: nat)
    requires |x| == |y| && hi <= |x|
    ensures Near(x, y, lo, hi, Max(Error(x, y, |x|), Magnitude(y, |x|)))
    ensures lo == 0 && hi == |x| ==> Near(x, y, lo, hi, Error(x, y, |x|))
  {
  }

  lemma SweptSizes(mat: Matrix, b: seq<real>, x: seq<real>, approx: seq<bool>, next: seq<real>)
    requires Swept(mat, b, x, approx, next)
    ensures |x| == |next| == mat.size
  {
  }

  // One sweep of a contracting system, whatever ran approximately.
  lemma SweepContracts(mat: Matrix, b: seq<real>, x: seq<real>, y: seq<real>, approx: seq<bool>, next: seq<real>,
                       q: real)
    requires Contracts(mat, q) && q >= 0.0 && Swept(mat, b, x, approx, next) && Solves(mat, b, y) && |y| == mat.size
    ensures |x| == |next| == mat.size
    ensures Error(next, y, mat.size) <= Times(q, Max(Error(x, y, mat.size), Magnitude(y, mat.size)))
  {
    hide *;
    SweptSizes(mat, b, x, approx, next);
    var m := Max(Error(x, y, mat.size), Magnitude(y, mat.size));
    forall i | 0 <= i < mat.size
      ensures Abs(next[i] - y[i]) <= Times(q, m)
    {
      SweptRow(mat, b, x, approx, next, i);
      var a := Approximated(approx, i);
      NearByNorms(x, y, Left(i, a), Right(i, a, mat.size));
      RowAfterSweep(mat, b, x, y, approx, next, i, q, m);
    }
    MaxNonNegative(Error(x, y, mat.size), Magnitude(y, mat.size));
    TimesOrder(q, m, m);
    ErrorIsLeast(next, y, mat.size, Times(q, m));
  }

  lemma MaxNonNegative(a: real, b: real)
    requires a >= 0.0
    ensures Max(a, b) >= 0.0
  {
  }

  lemma NoneApproximated(approx: seq<bool>, i: nat)
    requires forall k :: 0 <= k < |approx| ==> !approx[k]
    ensures !Approximated(approx, i)
  {
  }

  // One exact sweep of a contracting system.
  lemma ExactSweepContracts(mat: Matrix, b: seq<real>, x: seq<real>, y: seq<real>, approx: seq<bool>, next: seq<real>,
                            q: real)
    requires Contracts(mat, q) && q >= 0.0 && Swept(mat, b, x, approx, next) && Solves(mat, b, y) && |y| == mat.size
    requires forall k :: 0 <= k < |approx| ==> !approx[k]
    ensures |x| == |next| == mat.size
    ensures Error(next, y, mat.size) <= Times(q, Error(x, y, mat.size))
  {
    hide *;
    SweptSizes(mat, b, x, approx, next);
    var m := Error(x, y, mat.size);
    forall i | 0 <= i < mat.size
      ensures Abs(next[i] - y[i]) <= Times(q, m)
    {
      SweptRow(mat, b, x, approx, next, i);
      NoneApproximated(approx, i);
      ValueAtIs(mat, b, x, false, i);
      NearByNorms(x, y, Left(i, false), Right(i, false, mat.size));
      RowAfterSweep(mat, b, x, y, approx, next, i, q, m);
    }
    TimesOrder(q, m, m);
    ErrorIsLeast(next, y, mat.size, Times(q, m));
  }

  // One sweep, whatever ran approximately: the error stays within the larger of the error
  // before and the magnitude of the solution.
  lemma SweepBound(mat: Matrix, b: seq<real>, x: seq<real>, y: seq<real>, approx: seq<bool>, next: seq<real>)
    requires Dominant(mat) && Swept(mat, b, x, approx, next) && Solves(mat, b, y) && |y| == |x| == |next| == mat.size
    ensures Error(next, y, mat.size) <= Max(Error(x, y, mat.size), Magnitude(y, mat.size))
  {
    DominantContracts(mat);
    SweepContracts(mat, b, x, y, approx, next, 1.0);
    hide Dominant, Contracts, Swept, Solves, Error, Magnitude, Max;
  }

  // An all-exact sweep never increases the error.
  lemma ExactSweepBound(mat: Matrix, b: seq<real>, x: seq<real>, y: seq<real>, approx: seq<bool>, next: seq<real>)
    requires Dominant(mat) && Swept(mat, b, x, approx, next) && Solves(mat, b, y) && |y| == |x| == |next| == mat.size
    requires forall k :: 0 <= k < |approx| ==> !approx[k]
    ensures Error(next, y, mat.size) <= Error(x, y, mat.size)
  {
    DominantContracts(mat);
    ExactSweepContracts(mat, b, x, y, approx, next, 1.0);
    hide Dominant, Contracts, Swept, Solves, Error;
  }

  // ---------------------------------------------------------------- every run

  // xs[k] is the iterate before sweep k; choices[k] says which blocks it approximates.
  predicate Sweeps(mat: Matrix, b: seq<real>, xs: seq<seq<real>>, choices: seq<seq<bool>>) {
    |xs| == |choices| + 1 &&
    forall k :: 0 <= k < |choices| ==> Swept(mat, b, xs[k], choices[k], xs[k + 1])
  }

  lemma SweepOf(mat: Matrix, b: seq<real>, xs: seq<seq<real>>, choices: seq<seq<bool>>, k: nat)
    requires Sweeps(mat, b, xs, choices) && k < |choices|
    ensures Swept(mat, b, xs[k], choices[k], xs[k + 1]) && |xs[k]| == |xs[k + 1]| == mat.size
  {
    assert Swept(mat, b, xs[k], choices[k], xs[k + 1]);
  }

  lemma {:induction false} ErrorNeverExceeds(mat: Matrix, b: seq<real>, y: seq<real>, xs: seq<seq<real>>,
                                             choices: seq<seq<bool>>, k: nat)
    requires Dominant(mat) && Sweeps(mat, b, xs, choices) && Solves(mat, b, y) && |y| == |xs[0]| == mat.size && k < |xs|
    ensures |xs[k]| == mat.size
    ensures Error(xs[k], y, mat.size) <= Max(Error(xs[0], y, mat.size), Magnitude(y, mat.size))
  {
    hide Dominant, Sweeps, Swept, Solves, Error, Magnitude;
    if k > 0 {
      SizesOf(mat, b, xs, choices);
      ErrorNeverExceeds(mat, b, y, xs, choices, k - 1);
      SweepOf(mat, b, xs, choices, k - 1);
      SweepBound(mat, b, xs[k - 1], y, choices[k - 1], xs[k]);
    }
  }

  lemma SizesOf(mat: Matrix, b: seq<real>, xs: seq<seq<real>>, choices: seq<seq<bool>>)
    requires Sweeps(mat, b, xs, choices)
    ensures |xs| == |choices| + 1
  {
  }

  function Power(q: real, n: nat): (r: real)
    requires q >= 0.0
    ensures r >= 0.0
  {
    if n == 0 then 1.0
    else
      TimesOrder(q, Power(q, n - 1), 0.0);
      Times(q, Power(q, n - 1))
  }

  lemma PowerNext(q: real, n: nat, e: real)
    requires q >= 0.0
    ensures Times(Power(q, 0), e) == e && Times(Power(q, 1), e) == Times(q, e)
    ensures Times(Power(q, n + 1), e) == Times(q, Times(Power(q, n), e))
  {
    assert Power(q, 1) == q * Power(q, 0);
  }

  // In a contracting system the error of a mixed run falls geometrically until the columns that
  // approximate tasks ignore dominate it.
  lemma {:induction false} MixedRunContracts(mat: Matrix, b: seq<real>, y: seq<real>, xs: seq<seq<real>>,
                                             choices: seq<seq<bool>>, k: nat, q: real)
    requires Contracts(mat, q) && 0.0 <= q <= 1.0 && Sweeps(mat, b, xs, choices) && Solves(mat, b, y)
    requires 0 < k < |xs| && |y| == |xs[0]| == mat.size
    ensures |xs[k]| == mat.size
    ensures Error(xs[k], y, mat.size)
      <= Max(Times(Power(q, k), Error(xs[0], y, mat.size)), Times(q, Magnitude(y, mat.size)))
  {
    hide Contracts, Sweeps, Swept, Solves, Error, Magnitude, Max, Power, Times;
    SizesOf(mat, b, xs, choices);
    SweepOf(mat, b, xs, choices, k - 1);
    SweepContracts(mat, b, xs[k - 1], y, choices[k - 1], xs[k], q);
    var e, n, m := Error(xs[k - 1], y, mat.size), Error(xs[0], y, mat.size), Magnitude(y, mat.size);
    PowerNext(q, k - 1, n);
    if k == 1 {
      MaxTimes(q, e, m);
    } else {
      MixedRunContracts(mat, b, y, xs, choices, k - 1, q);
      Falls(q, e, Times(Power(q, k - 1), n), m);
    }
  }

  lemma Falls(q: real, e: real, p: real, m: real)
    requires 0.0 <= q <= 1.0 && m >= 0.0 && e <= Max(p, Times(q, m))
    ensures Times(q, Max(e, m)) <= Max(Times(q, p), Times(q, m))
  {
    hide Times;
    TimesOrder(q, m, m);
    TimesOrder(q, Max(e, m), Max(p, m));
    MaxTimes(q, p, m);
  }

  // From the first sweep after which all blocks run exactly, the error falls by q each time.
  lemma {:induction false} ExactRunContracts(mat: Matrix, b: seq<real>, y: seq<real>, xs: seq<seq<real>>,
                                             choices: seq<seq<bool>>, i: nat, k: nat, q: real)
    requires Contracts(mat, q) && q >= 0.0 && Sweeps(mat, b, xs, choices) && Solves(mat, b, y)
    requires i <= k < |xs| && |y| == |xs[i]| == mat.size
    requires forall s, c :: i <= s < |choices| && 0 <= c < |choices[s]| ==> !choices[s][c]
    ensures |xs[k]| == mat.size
    ensures Error(xs[k], y, mat.size) <= Times(Power(q, k - i), Error(xs[i], y, mat.size))
  {
    hide Contracts, Sweeps, Swept, Solves, Error, Power, Times;
    SizesOf(mat, b, xs, choices);
    if i == k {
      PowerNext(q, 0, Error(xs[i], y, mat.size));
    } else {
      ExactRunContracts(mat, b, y, xs, choices, i, k - 1, q);
      SweepOf(mat, b, xs, choices, k - 1);
      ExactSweepContracts(mat, b, xs[k - 1], y, choices[k - 1], xs[k], q);
      PowerNext(q, k - 1 - i, Error(xs[i], y, mat.size));
      TimesOrder(q, Error(xs[k - 1], y, mat.size), Times(Power(q, k - 1 - i), Error(xs[i], y, mat.size)));
    }
  }

  lemma {:induction false} PowerOfOne(n: nat)
    ensures Power(1.0, n) == 1.0
  {
    if n > 0 { PowerOfOne(n - 1); }
  }

  // From there on the error of a dominant system never increases again.
  lemma ExactRunsDescend(mat: Matrix, b: seq<real>, y: seq<real>, xs: seq<seq<real>>, choices: seq<seq<bool>>,
                         i: nat, k: nat)
    requires Dominant(mat) && Sweeps(mat, b, xs, choices) && Solves(mat, b, y)
    requires i <= k < |xs| && |y| == |xs[i]| == mat.size
    requires forall s, c :: i <= s < |choices| && 0 <= c < |choices[s]| ==> !choices[s][c]
    ensures |xs[k]| == mat.size && Error(xs[k], y, mat.size) <= Error(xs[i], y, mat.size)
  {
    hide Contracts, Dominant, Sweeps, Swept, Solves, Error, Power;
    DominantContracts(mat);
    ExactRunContracts(mat, b, y, xs, choices, i, k, 1.0);
    PowerOfOne(k - i);
  }
}
