/**
 Setting up and running the Jacobi solver of jacobi.c: the generated system, the loop over the
 sweeps, and when it stops approximating.
 */
module JacobiSolver {
  import opened Arithmetic
  import opened Jacobi
  import opened JacobiBound

  // ---------------------------------------------------------------- the generated system

  lemma OffNext(mat: Matrix, v: seq<real>, i: nat, j: nat)
    requires Shape(mat) && |v| == mat.size && i < mat.size && j < mat.size
    ensures Off(mat, v, i, 0, 0) == 0.0
    ensures Off(mat, v, i, 0, j + 1) == Off(mat, v, i, 0, j) + if j == i then 0.0 else Times(Cell(mat, i, j), v[j])
    ensures AbsOff(mat, i, 0) == 0.0
    ensures AbsOff(mat, i, j + 1) == AbsOff(mat, i, j) + if j == i then 0.0 else Abs(Cell(mat, i, j))
    ensures Flat(i, j, mat.size) < |mat.cells| && Cell(mat, i, j) == mat.cells[Flat(i, j, mat.size)]
  {
    hide Square, Flat, Times;
  }

  // What the first j products of a row add up to.
  function Products(mat: Matrix, v: seq<real>, i: nat, j: nat): real
    requires Shape(mat) && |v| == mat.size && i < mat.size && j <= mat.size
  {
    Off(mat, v, i, 0, j) + if i < j then Times(Cell(mat, i, i), v[i]) else 0.0
  }

  lemma ProductsNext(mat: Matrix, v: seq<real>, i: nat, j: nat)
    requires Shape(mat) && |v| == mat.size && i < mat.size && j < mat.size
    ensures Flat(i, j, mat.size) < |mat.cells|
    ensures Products(mat, v, i, j + 1) == Products(mat, v, i, j) + Times(mat.cells[Flat(i, j, mat.size)], v[j])
  {
    OffNext(mat, v, i, j);
    hide Off, Cell, Square, Flat, AbsOff, Abs, Times;
  }

  lemma ProductsEnds(mat: Matrix, v: seq<real>, i: nat)
    requires Shape(mat) && |v| == mat.size && i < mat.size
    ensures Products(mat, v, i, 0) == 0.0
    ensures Products(mat, v, i, mat.size) == Off(mat, v, i, 0, mat.size) + Times(Cell(mat, i, i), v[i])
  {
    OffNext(mat, v, i, i);
    hide Off, Cell, Square, Flat, AbsOff, Abs, Times;
  }

  // The inner loop of construct_right.
  method RowProduct(A: array<real>, sol: array<real>, size: nat, i: nat, ghost mat: Matrix) returns (s: real)
    requires Shape(mat) && A[..] == mat.cells && sol.Length == mat.size == size && i < size
    ensures s == Off(mat, sol[..], i, 0, size) + Times(Cell(mat, i, i), sol[i])
  {
    hide *;
    s := 0.0;
    ProductsEnds(mat, sol[..], i);
    for j := 0 to size
      invariant s == Products(mat, sol[..], i, j)
    {
      ProductsNext(mat, sol[..], i, j);
      TimesIs(A[Flat(i, j, size)], sol[j]);
      s := s + A[Flat(i, j, size)] * sol[j];
    }
  }

  method ConstructRight(ret: array<real>, A: array<real>, sol: array<real>, size: nat, ghost mat: Matrix)
    requires Shape(mat) && A[..] == mat.cells && ret.Length == sol.Length == mat.size == size && ret != A && ret != sol
    modifies ret
    ensures Solves(mat, ret[..], sol[..])
  {
    hide Cell, Square, Off, Times;
    for i := 0 to size
      invariant forall k :: 0 <= k < i ==> ret[k] == Off(mat, sol[..], k, 0, size) + Times(Cell(mat, k, k), sol[k])
    {
      ret[i] := RowProduct(A, sol, size, i, mat);
    }
  }

  lemma FlatIsInjective(i: nat, j: nat, k: nat, l: nat, size: nat)
    requires i < size && j < size && k < size && l < size && Flat(i, j, size) == Flat(k, l, size)
    ensures i == k && j == l
  {
    DivModUnique(Flat(i, j, size), size, i, j);
    DivModUnique(Flat(k, l, size), size, k, l);
  }

  // The first `rows` rows have been made dominant, from those of `was`.
  predicate Raised(was: Matrix, mat: Matrix, rows: nat)
    requires Shape(was) && Shape(mat) && was.size == mat.size
  {
    && (forall i, j :: 0 <= i < mat.size && 0 <= j < mat.size && (i != j || i >= rows) ==>
      Cell(mat, i, j) == Cell(was, i, j))
    && (forall i :: 0 <= i < rows && i < mat.size ==>
      Cell(mat, i, i) == Abs(Cell(was, i, i)) + (AbsOff(was, i, mat.size) + Abs(Cell(was, i, i))))
  }

  // The diagonally_dominant part of construct_jacobi_matrix.
  method MakeDominant(ret: array<real>, size: nat, ghost was: Matrix)
    requires Shape(was) && ret[..] == was.cells && was.size == size
    modifies ret
    ensures Shape(Matrix(size, ret[..])) && Raised(was, Matrix(size, ret[..]), size)
  {
    hide *;
    NothingRaised(was);
    for i := 0 to size
      invariant Shape(Matrix(size, ret[..])) && Raised(was, Matrix(size, ret[..]), i)
    {
      ghost var now := Matrix(size, ret[..]);
      var sum := RowMagnitude(ret, size, i, was, now);
      RowUntouched(was, now, i, i, i);
      ret[Flat(i, i, size)] := Abs(ret[Flat(i, i, size)]) + sum;
      OneMoreRaised(was, now, i, sum, Matrix(size, ret[..]));
    }
  }

  // The inner loop of the same: the magnitudes of a row that has not been raised.
  method RowMagnitude(ret: array<real>, size: nat, i: nat, ghost was: Matrix, ghost now: Matrix) returns (sum: real)
    requires Shape(was) && Shape(now) && was.size == now.size == size && ret[..] == now.cells && i < size
    requires Raised(was, now, i)
    ensures sum == AbsOff(was, i, size) + Abs(Cell(was, i, i))
  {
    hide *;
    sum := 0.0;
    ghost var zeros := seq(size, _ => 0.0);
    OffNext(was, zeros, i, i);
    for j := 0 to size
      invariant sum == AbsOff(was, i, j) + if i < j then Abs(Cell(was, i, i)) else 0.0
    {
      OffNext(was, zeros, i, j);
      RowUntouched(was, now, i, i, j);
      sum := sum + Abs(ret[Flat(i, j, size)]);
    }
  }

  lemma NothingRaised(mat: Matrix)
    requires Shape(mat)
    ensures Raised(mat, mat, 0)
  {
  }

  lemma RowUntouched(was: Matrix, now: Matrix, rows: nat, i: nat, j: nat)
    requires Shape(was) && Shape(now) && was.size == now.size && Raised(was, now, rows) && rows <= i < was.size
    requires j < was.size
    ensures Flat(i, j, was.size) < |now.cells| && now.cells[Flat(i, j, was.size)] == Cell(was, i, j)
  {
    assert Cell(now, i, j) == Cell(was, i, j);
  }

  lemma OneMoreRaised(was: Matrix, now: Matrix, i: nat, sum: real, next: Matrix)
    requires Shape(was) && Shape(now) && was.size == now.size && Raised(was, now, i) && i < was.size
    requires sum == AbsOff(was, i, was.size) + Abs(Cell(was, i, i))
    requires next == Matrix(was.size, now.cells[Flat(i, i, was.size) := Abs(Cell(was, i, i)) + sum])
    ensures Shape(next) && Raised(was, next, i + 1)
  {
    hide Square, Abs, AbsOff, Flat;
    forall k, j | 0 <= k < was.size && 0 <= j < was.size && !(k == i && j == i)
      ensures Cell(next, k, j) == Cell(now, k, j)
    {
      if Flat(k, j, was.size) == Flat(i, i, was.size) {
        FlatIsInjective(k, j, i, i, was.size);
      }
    }
  }

  lemma {:induction false} SameRowSameSum(was: Matrix, mat: Matrix, i: nat, n: nat)
    requires Shape(was) && Shape(mat) && was.size == mat.size && i < mat.size && n <= mat.size
    requires forall j :: 0 <= j < n && j != i ==> Cell(mat, i, j) == Cell(was, i, j)
    ensures AbsOff(mat, i, n) == AbsOff(was, i, n)
  {
    if n > 0 {
      SameRowSameSum(was, mat, i, n - 1);
    }
  }

  // The raised matrix is dominant with a positive diagonal exactly when no row was all zeros.
  lemma RaisedIsDominant(was: Matrix, mat: Matrix)
    requires Shape(was) && Shape(mat) && was.size == mat.size && Raised(was, mat, mat.size)
    ensures Dominant(mat) <==> forall i :: 0 <= i < mat.size ==>
      Cell(was, i, i) != 0.0 || AbsOff(was, i, mat.size) > 0.0
  {
    hide Square, Flat;
    forall i | 0 <= i < mat.size
      ensures AbsOff(mat, i, mat.size) == AbsOff(was, i, mat.size)
    {
      SameRowSameSum(was, mat, i, mat.size);
    }
    hide Cell, AbsOff;
  }

  lemma RatioBelowOne(a: real, s: real)
    requires a > 0.0 && s >= 0.0
    ensures s / (a + (s + a)) < 1.0
  {
  }

  lemma RatioWithin(s: real, d: real, q: real)
    requires d > 0.0 && s / d <= q
    ensures s <= q * d
  {
    QuotientTimes(s, d);
    ProductMonotone(d, s / d, q);
  }

  // The largest quotient of a row's magnitudes by its diagonal entry, over the first n rows.
  function Factor(mat: Matrix, n: nat): (q: real)
    requires Dominant(mat) && n <= mat.size
    ensures q >= 0.0
  {
    if n == 0 then 0.0
    else
      MaxNonNegative(Factor(mat, n - 1), 0.0);
      Max(Factor(mat, n - 1), AbsOff(mat, n - 1, mat.size) / Cell(mat, n - 1, n - 1))
  }

  lemma {:induction false} FactorBounds(mat: Matrix, n: nat, i: nat)
    requires Dominant(mat) && i < n <= mat.size
    ensures AbsOff(mat, i, mat.size) / Cell(mat, i, i) <= Factor(mat, n)
  {
    hide AbsOff, Cell, Dominant;
    if i < n - 1 { FactorBounds(mat, n - 1, i); }
  }

  lemma FactorContracts(mat: Matrix)
    requires Dominant(mat)
    ensures Contracts(mat, Factor(mat, mat.size))
  {
    hide Factor, AbsOff, Cell, RowContracts;
    forall i | 0 <= i < mat.size
      ensures RowContracts(mat, Factor(mat, mat.size), i)
    {
      FactorBounds(mat, mat.size, i);
      RowContractsBy(mat, Factor(mat, mat.size), i);
    }
  }

  lemma RowContractsBy(mat: Matrix, q: real, i: nat)
    requires Shape(mat) && i < mat.size && Cell(mat, i, i) > 0.0
    requires AbsOff(mat, i, mat.size) / Cell(mat, i, i) <= q
    ensures RowContracts(mat, q, i)
  {
    hide AbsOff, Cell, Square;
    RatioWithin(AbsOff(mat, i, mat.size), Cell(mat, i, i), q);
  }

  lemma {:induction false} FactorBelowOne(was: Matrix, mat: Matrix, n: nat)
    requires Shape(was) && Shape(mat) && Dominant(mat) && was.size == mat.size && n <= mat.size
    requires Raised(was, mat, mat.size)
    requires forall i :: 0 <= i < mat.size ==> Cell(was, i, i) != 0.0
    ensures Factor(mat, n) < 1.0
  {
    hide Cell, Square, AbsOff, Dominant;
    if n > 0 {
      var i := n - 1;
      FactorBelowOne(was, mat, i);
      RaisedRow(was, mat, i);
      RatioBelowOne(Abs(Cell(was, i, i)), AbsOff(mat, i, mat.size));
    }
  }

  lemma RaisedRow(was: Matrix, mat: Matrix, i: nat)
    requires Shape(was) && Shape(mat) && was.size == mat.size && Raised(was, mat, mat.size) && i < mat.size
    ensures Cell(mat, i, i) == Abs(Cell(was, i, i)) + (AbsOff(mat, i, mat.size) + Abs(Cell(was, i, i)))
    ensures Cell(was, i, i) != 0.0 ==> Abs(Cell(was, i, i)) > 0.0
  {
    hide Cell, Square;
    SameRowSameSum(was, mat, i, mat.size);
  }

  // The raised matrix shrinks every error by a fixed factor exactly when no diagonal entry was zero.
  lemma RaisedContracts(was: Matrix, mat: Matrix)
    requires Shape(was) && Shape(mat) && was.size == mat.size && Raised(was, mat, mat.size)
    ensures (exists q :: 0.0 <= q < 1.0 && Contracts(mat, q)) <==> forall i :: 0 <= i < mat.size ==>
      Cell(was, i, i) != 0.0
  {
    hide Square, Raised, AbsOff, Cell, Dominant, Factor, RowContracts;
    if forall i :: 0 <= i < mat.size ==> Cell(was, i, i) != 0.0 {
      RaisedIsDominant(was, mat);
      FactorContracts(mat);
      FactorBelowOne(was, mat, mat.size);
    }
    if exists q :: 0.0 <= q < 1.0 && Contracts(mat, q) {
      var q :| 0.0 <= q < 1.0 && Contracts(mat, q);
      forall i | 0 <= i < mat.size
        ensures Cell(was, i, i) != 0.0
      {
        RaisedRow(was, mat, i);
        assert RowContracts(mat, q, i);
        NotAllOfIt(mat, q, i);
      }
    }
  }

  // A factor below one leaves room beside the magnitudes of a row.
  lemma NotAllOfIt(mat: Matrix, q: real, i: nat)
    requires Shape(mat) && i < mat.size && RowContracts(mat, q, i) && q < 1.0
    ensures AbsOff(mat, i, mat.size) < Cell(mat, i, i)
  {
    hide AbsOff, Cell, Square;
    ProductPositive(1.0 - q, Cell(mat, i, i));
  }

  // ---------------------------------------------------------------- the relative error

  // The values that IEEE 754 division and comparison of magnitudes can give, rounding aside.
  datatype Double = Number(value: real) | Infinite | NotANumber

  function Ratio(p: real, d: real): Double
    requires p >= 0.0 && d >= 0.0
  {
    if d > 0.0 then Number(p / d) else if p > 0.0 then Infinite else NotANumber
  }

  predicate Greater(a: Double, b: Double) {
    b.Number? && (a.Infinite? || (a.Number? && a.value > b.value))
  }

  // fabs(a - b)
  function Apart(a: Double, b: Double): Double {
    if a.Number? && b.Number? then Number(Abs(a.value - b.value))
    else if (a.Infinite? && b.Number?) || (a.Number? && b.Infinite?) then Infinite
    else NotANumber
  }

  // dif: the largest relative error over the first n entries.
  function RelativeError(x: seq<real>, y: seq<real>, n: nat): (r: Double)
    requires n <= |x| && n <= |y|
    ensures r.Infinite? || (r.Number? && r.value >= 0.0)
  {
    if n == 0 then Number(0.0)
    else
      var r, t := RelativeError(x, y, n - 1), Ratio(Abs(y[n - 1] - x[n - 1]), Abs(y[n - 1]));
      if Greater(t, r) then t else r
  }

  // It is infinite exactly when a zero of the solution is missed; otherwise it is the largest
  // relative error over the other entries.
  lemma {:induction false} RelativeErrorIsLargest(x: seq<real>, y: seq<real>, n: nat)
    requires n <= |x| && n <= |y|
    ensures RelativeError(x, y, n).Infinite? <==> exists i :: 0 <= i < n && y[i] == 0.0 && x[i] != 0.0
    ensures RelativeError(x, y, n).Number? ==> forall i :: 0 <= i < n && y[i] != 0.0 ==>
      Abs(y[i] - x[i]) / Abs(y[i]) <= RelativeError(x, y, n).value
    ensures RelativeError(x, y, n).Number? && RelativeError(x, y, n).value > 0.0 ==> exists i ::
      0 <= i < n && y[i] != 0.0 && Abs(y[i] - x[i]) / Abs(y[i]) == RelativeError(x, y, n).value
  {
    if n > 0 {
      RelativeErrorIsLargest(x, y, n - 1);
    }
  }

  // x := x1, and the relative error.
  method CopyBack(x: array<real>, x1: array<real>, y: array<real>) returns (dif: Double)
    requires x.Length == x1.Length == y.Length && x != x1 && x != y
    modifies x
    ensures x[..] == x1[..] && dif == RelativeError(x[..], y[..], x.Length)
  {
    hide Ratio, Abs, Greater;
    dif := Number(0.0);
    for i := 0 to x.Length
      invariant forall k :: 0 <= k < i ==> x[k] == x1[k]
      invariant dif == RelativeError(x1[..], y[..], i)
    {
      var t := Ratio(Abs(y[i] - x1[i]), Abs(y[i]));
      x[i] := x1[i];
      if Greater(t, dif) {
        dif := t;
      }
    }
    assert x[..] == x1[..];
  }

  // ---------------------------------------------------------------- the solver

  function Blocks(size: nat): nat { size / TASK_WORK }

  // What chance and the scheduler decide in one iteration: the block at which the pushes start,
  // the order in which the tasks run, and which blocks run the approximate body.
  datatype Choice = Choice(shift: nat, order: seq<nat>, approx: seq<bool>)

  predicate Possible(c: Choice, blocks: nat) {
    |c.approx| == blocks && c.shift < blocks && Ordering(c.order, blocks)
  }

  // What a sweep of significant tasks approximates: nothing.
  function Exact(blocks: nat): (r: seq<bool>)
    ensures |r| == blocks && forall k :: 0 <= k < blocks ==> !r[k]
  {
    seq(blocks, _ => false)
  }

  function StartValue(mat: Matrix, i: nat): real
    requires Shape(mat) && Divisible(mat) && i < mat.size
  {
    1.0 / Cell(mat, i, i)
  }

  // The start vector solves the system without its other columns, for a right-hand side of ones.
  lemma StartSolvesDiagonal(mat: Matrix, i: nat)
    requires Shape(mat) && Divisible(mat) && i < mat.size
    ensures StartValue(mat, i) * Cell(mat, i, i) == 1.0
  {
    hide Cell;
  }

  method StartVector(A: array<real>, x: array<real>, size: nat, ghost mat: Matrix)
    requires Shape(mat) && Divisible(mat) && A[..] == mat.cells && x.Length == mat.size == size && x != A
    modifies x
    ensures forall i :: 0 <= i < size ==> x[i] == StartValue(mat, i)
  {
    hide Square, Flat;
    for i := 0 to size
      invariant forall k :: 0 <= k < i ==> x[k] == StartValue(mat, k)
    {
      assert Cell(mat, i, i) == A[Flat(i, i, size)];
      x[i] := 1.0 / A[Flat(i, i, size)];
    }
  }

  lemma NoSweeps(mat: Matrix, b: seq<real>, x: seq<real>)
    ensures Sweeps(mat, b, [x], [])
  {
  }

  lemma OneMoreSweep(mat: Matrix, b: seq<real>, xs: seq<seq<real>>, done: seq<seq<bool>>, approx: seq<bool>,
                     next: seq<real>)
    requires Sweeps(mat, b, xs, done) && Swept(mat, b, xs[|done|], approx, next)
    ensures Sweeps(mat, b, xs + [next], done + [approx])
  {
    hide Swept;
  }

  lemma PossibleParts(c: Choice, size: nat)
    requires size % TASK_WORK == 0 && size > 0 && Possible(c, Blocks(size))
    ensures |c.approx| == Blocks(size) > 0 && c.shift < |c.approx| && Ordering(c.order, |c.approx|)
    ensures size == Blocks(size) * TASK_WORK
  {
  }

  lemma ExactTail(mat: Matrix, b: seq<real>, y: seq<real>, xs: seq<seq<real>>, done: seq<seq<bool>>, from: nat,
                  blocks: nat)
    requires Sweeps(mat, b, xs, done) && Solves(mat, b, y) && from <= |done|
    requires |y| == |xs[from]| == |xs[|done|]| == mat.size
    requires forall k :: from <= k < |done| ==> done[k] == Exact(blocks)
    ensures Dominant(mat) ==> Error(xs[|done|], y, mat.size) <= Error(xs[from], y, mat.size)
    ensures forall q :: Contracts(mat, q) && q >= 0.0 ==>
      Error(xs[|done|], y, mat.size) <= Times(Power(q, |done| - from), Error(xs[from], y, mat.size))
  {
    hide Swept, Solves, Error, Magnitude, Dominant, Contracts, Power, Times;
    if Dominant(mat) { ExactRunsDescend(mat, b, y, xs, done, from, |done|); }
    forall q | Contracts(mat, q) && q >= 0.0
      ensures Error(xs[|done|], y, mat.size) <= Times(Power(q, |done| - from), Error(xs[from], y, mat.size))
    {
      ExactRunContracts(mat, b, y, xs, done, from, |done|, q);
    }
  }

  // prev_diff before iteration k of the approximate phase.
  function Previous(xs: seq<seq<real>>, y: seq<real>, k: nat): Double
    requires k < |xs| && |xs[k]| == |y|
  {
    if k == 0 then Number(10000.0) else RelativeError(xs[k], y, |y|)
  }

  // Iteration k ends the approximate phase: the relative error hardly changed, or nine tenths of
  // the iterations are over.
  predicate Ends(previous: Double, dif: Double, itol: real, iters: nat, k: nat) {
    Greater(Number(itol), Apart(previous, dif)) || k as real >= 0.9 * iters as real
  }

  predicate Settles(xs: seq<seq<real>>, y: seq<real>, itol: real, iters: nat, k: nat)
    requires k + 1 < |xs| && |xs[k]| == |xs[k + 1]| == |y|
  {
    Ends(Previous(xs, y, k), RelativeError(xs[k + 1], y, |y|), itol, iters, k)
  }

  /** Between finite relative errors the approximation stops exactly when they hardly differ or
      nine tenths of the iterations are over. */
  lemma SettlesIff(xs: seq<seq<real>>, y: seq<real>, itol: real, iters: nat, k: nat, a: real, e: real)
    requires 0 < k && k + 1 < |xs| && |xs[k]| == |xs[k + 1]| == |y|
    requires RelativeError(xs[k], y, |y|) == Number(a) && RelativeError(xs[k + 1], y, |y|) == Number(e)
    ensures Settles(xs, y, itol, iters, k) <==> -itol < a - e < itol || 10 * k >= 9 * iters
  {
    hide RelativeError;
  }

  lemma TenthLeft(xs: seq<seq<real>>, y: seq<real>, itol: real, iters: nat, k: nat)
    requires k + 1 < |xs| && |xs[k]| == |xs[k + 1]| == |y| && !Settles(xs, y, itol, iters, k)
    ensures 10 * k < 9 * iters
  {
    hide RelativeError, Greater, Apart, Previous;
  }

  lemma PreviousAtStart(x: seq<real>, y: seq<real>)
    requires |x| == |y|
    ensures Previous([x], y, 0) == Number(10000.0)
  {
  }

  lemma SettlesExtended(xs: seq<seq<real>>, y: seq<real>, itol: real, iters: nat, next: seq<real>)
    requires xs != [] && |next| == |y| && (forall k :: 0 <= k < |xs| ==> |xs[k]| == |y|)
    ensures forall k :: 0 <= k < |xs| - 1 ==> Settles(xs + [next], y, itol, iters, k) == Settles(xs, y, itol, iters, k)
    ensures Settles(xs + [next], y, itol, iters, |xs| - 1) <==>
      Ends(Previous(xs, y, |xs| - 1), RelativeError(next, y, |y|), itol, iters, |xs| - 1)
    ensures Previous(xs + [next], y, |xs|) == RelativeError(next, y, |y|)
  {
    var longer := xs + [next];
    assert longer[|xs|] == next && longer[|xs| - 1] == xs[|xs| - 1];
    forall k: nat | k < |xs| - 1
      ensures Settles(longer, y, itol, iters, k) == Settles(xs, y, itol, iters, k)
    {
      assert longer[k] == xs[k] && longer[k + 1] == xs[k + 1];
    }
    hide RelativeError, Ends;
  }

  // The solver. Significance 100 makes every task run exactly, in push order from row 0.
  method Solve(A: array<real>, x: array<real>, x1: array<real>, b: array<real>, y: array<real>, size: nat, itol: real,
               iters: nat, ratio: real, choices: seq<Choice>, ghost mat: Matrix)
    returns (failed: bool, itersApprox: nat, ghost xs: seq<seq<real>>, ghost done: seq<seq<bool>>)
    requires Shape(mat) && Divisible(mat) && A[..] == mat.cells && size % TASK_WORK == 0 && size > 0
    requires x.Length == b.Length == x1.Length == y.Length == mat.size == size && Solves(mat, b[..], y[..])
    requires x1 != A && x1 != b && x1 != x && x1 != y && x != A && x != b && x != y
    requires |choices| == iters && forall k :: 0 <= k < iters ==> Possible(choices[k], Blocks(size))
    modifies x, x1
    ensures |xs| == iters + 1 && xs[iters] == x[..] && itersApprox <= iters == |done|
    ensures Sweeps(mat, b[..], xs, done) && forall k :: 0 <= k <= iters ==> |xs[k]| == size
    ensures forall i :: 0 <= i < size ==> xs[0][i] == StartValue(mat, i)
    ensures forall k :: 0 <= k < itersApprox ==> done[k] == choices[k].approx
    ensures forall k :: itersApprox <= k < iters ==> done[k] == Exact(Blocks(size))
    ensures ratio >= 1.0 ==> itersApprox == 0
    ensures forall k :: 0 <= k < itersApprox - 1 ==> !Settles(xs, y[..], itol, iters, k)
    ensures ratio < 1.0 && itersApprox < iters ==> itersApprox > 0 && Settles(xs, y[..], itol, iters, itersApprox - 1)
    ensures itersApprox > 1 ==> 10 * (itersApprox - 2) < 9 * iters
    ensures iters > 0 ==> (failed <==> Greater(RelativeError(x[..], y[..], size), Number(itol)))
    ensures iters == 0 ==> (failed <==> itol * 100.0 + 1.0 > itol)
    ensures Dominant(mat) ==> Error(x[..], y[..], size) <= Max(Error(xs[0], y[..], size), Magnitude(y[..], size))
    ensures Dominant(mat) ==> Error(x[..], y[..], size) <= Error(xs[itersApprox], y[..], size)
    ensures forall q :: Contracts(mat, q) && q >= 0.0 ==>
      Error(x[..], y[..], size) <= Times(Power(q, iters - itersApprox), Error(xs[itersApprox], y[..], size))
  {
    hide *;
    var prevDiff, dif := Number(10000.0), Number(itol * 100.0 + 1.0);
    ghost var bs, ys := b[..], y[..];
    StartVector(A, x, size, mat);
    xs, done := [x[..]], [];
    NoSweeps(mat, bs, x[..]);
    PreviousAtStart(x[..], ys);
    var significant := !(ratio < 1.0);
    itersApprox := 0;
    for iter := 0 to iters
      invariant |xs| == iter + 1 && xs[iter] == x[..] && itersApprox <= iter == |done|
      invariant Sweeps(mat, bs, xs, done) && forall k :: 0 <= k <= iter ==> |xs[k]| == size
      invariant forall i :: 0 <= i < size ==> xs[0][i] == StartValue(mat, i)
      invariant forall k :: 0 <= k < itersApprox ==> done[k] == choices[k].approx
      invariant forall k :: itersApprox <= k < iter ==> done[k] == Exact(Blocks(size))
      invariant !significant ==> itersApprox == iter && ratio < 1.0
      invariant ratio >= 1.0 ==> itersApprox == 0
      invariant forall k :: 0 <= k < itersApprox - 1 ==> !Settles(xs, ys, itol, iters, k)
      invariant itersApprox > 0 ==> (significant <==> Settles(xs, ys, itol, iters, itersApprox - 1))
      invariant significant && ratio < 1.0 ==> itersApprox > 0
      invariant !significant ==> prevDiff == Previous(xs, ys, iter)
      invariant dif == if iter > 0 then RelativeError(x[..], ys, size) else Number(itol * 100.0 + 1.0)
    {
      PossibleParts(choices[iter], size);
      ghost var approx: seq<bool>;
      if !significant {
        Sweep(A, x, x1, b, size, choices[iter].shift, choices[iter].order, choices[iter].approx, mat);
        itersApprox := itersApprox + 1;
        dif := CopyBack(x, x1, y);
        if Ends(prevDiff, dif, itol, iters, iter) {
          significant := true;
        }
        prevDiff := dif;
        approx := choices[iter].approx;
      } else {
        Sweep(A, x, x1, b, size, 0, choices[iter].order, Exact(Blocks(size)), mat);
        approx := Exact(Blocks(size));
      }
      dif := CopyBack(x, x1, y);
      OneMoreSweep(mat, bs, xs, done, approx, x[..]);
      SettlesExtended(xs, ys, itol, iters, x[..]);
      xs, done := xs + [x[..]], done + [approx];
    }
    failed := Greater(dif, Number(itol));
    if itersApprox > 1 { TenthLeft(xs, ys, itol, iters, itersApprox - 2); }
    GreaterNumbers(itol * 100.0 + 1.0, itol);
    if Dominant(mat) { ErrorNeverExceeds(mat, bs, ys, xs, done, iters); }
    ExactTail(mat, bs, ys, xs, done, itersApprox, Blocks(size));
  }

  lemma GreaterNumbers(a: real, b: real)
    ensures Greater(Number(a), Number(b)) <==> a > b
  {
  }
}
