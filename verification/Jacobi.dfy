/**
 The Jacobi solver of jacobi.c: tiled exact sweeps, band-limited approximate ones, and the bound
 on the error that holds whichever blocks of rows the scheduler lets run approximately.
 */
module Jacobi {
  import opened Arithmetic

  const TASK_WORK: nat := 190
  // num_blocks: how many blocks of columns an approximate task looks at on each side of its start.
  const NUM_BLOCKS: nat := 2

  // ---------------------------------------------------------------- the linear system

  function Square(size: nat): nat { size * size }

  // Row-major position of an entry.
  function Flat(i: nat, j: nat, size: nat): (k: nat)
    requires i < size && j < size
    ensures k < Square(size)
  {
    MulOrder(size, i, size);
    i * size + j
  }

  // A square matrix, its rows one after the other.
  datatype Matrix = Matrix(size: nat, cells: seq<real>)

  predicate Shape(mat: Matrix) {
    |mat.cells| == Square(mat.size)
  }

  function Cell(mat: Matrix, i: nat, j: nat): real
    requires Shape(mat) && i < mat.size && j < mat.size
  {
    mat.cells[Flat(i, j, mat.size)]
  }

  // A product as a function, so that proofs can keep it folded.
  function Times(a: real, b: real): real { a * b }

  lemma TimesIs(a: real, b: real)
    ensures Times(a, b) == a * b
  {
  }

  // Sum of A[i][j] * v[j] over the columns lo <= j < hi other than i.
  function Off(mat: Matrix, v: seq<real>, i: nat, lo: nat, hi: nat): real
    requires Shape(mat) && |v| == mat.size && i < mat.size && hi <= mat.size
  {
    if hi <= lo then 0.0
    else Off(mat, v, i, lo, hi - 1) + if hi - 1 == i then 0.0 else Times(Cell(mat, i, hi - 1), v[hi - 1])
  }

  // Every diagonal entry can be divided by.
  predicate Divisible(mat: Matrix) {
    Shape(mat) && forall i :: 0 <= i < mat.size ==> Cell(mat, i, i) != 0.0
  }

  predicate Solves(mat: Matrix, b: seq<real>, y: seq<real>) {
    Shape(mat) && |b| == |y| == mat.size && forall i :: 0 <= i < mat.size ==>
      b[i] == Off(mat, y, i, 0, mat.size) + Times(Cell(mat, i, i), y[i])
  }

  // ---------------------------------------------------------------- one sweep, as a relation

  // The columns that the task starting at row `start` adds up.
  function Lo(start: nat, approx: bool): nat {
    if approx && start >= NUM_BLOCKS * TASK_WORK then start - NUM_BLOCKS * TASK_WORK else 0
  }

  function Hi(start: nat, approx: bool, size: nat): (hi: nat)
    ensures hi <= size
  {
    if approx && start + NUM_BLOCKS * TASK_WORK <= size then start + NUM_BLOCKS * TASK_WORK else size
  }

  function BlockStart(i: nat): (s: nat)
    ensures s <= i < s + TASK_WORK && s % TASK_WORK == 0
  {
    i / TASK_WORK * TASK_WORK
  }

  function NewValue(mat: Matrix, b: seq<real>, x: seq<real>, i: nat, lo: nat, hi: nat): real
    requires Divisible(mat) && |b| == |x| == mat.size && i < mat.size && hi <= mat.size
  {
    (b[i] - Off(mat, x, i, lo, hi)) / Cell(mat, i, i)
  }

  // approx says of every block of rows whether its task ran the approximate body.
  predicate Swept(mat: Matrix, b: seq<real>, x: seq<real>, approx: seq<bool>, next: seq<real>) {
    && Divisible(mat) && |b| == |x| == |next| == mat.size && |approx| * TASK_WORK == mat.size
    && forall i :: 0 <= i < mat.size ==> next[i] == ValueAt(mat, b, x, approx[i / TASK_WORK], i)
  }

  function ValueAt(mat: Matrix, b: seq<real>, x: seq<real>, approx: bool, i: nat): real
    requires Divisible(mat) && |b| == |x| == mat.size && i < mat.size
  {
    NewValue(mat, b, x, i, Lo(BlockStart(i), approx), Hi(BlockStart(i), approx, mat.size))
  }

  lemma BlockOfRow(i: nat, blocks: nat)
    requires i < blocks * TASK_WORK
    ensures i / TASK_WORK < blocks
  {
  }

  // ---------------------------------------------------------------- what an approximate row reads

  // The columns more than two blocks before the block of row i, or more than one behind it.
  predicate Ignored(i: nat, j: nat) {
    j / TASK_WORK + 2 < i / TASK_WORK || j / TASK_WORK > i / TASK_WORK + 1
  }

  // The vector with zeros in those columns.
  function Masked(x: seq<real>, i: nat): (z: seq<real>)
    ensures |z| == |x| && forall j :: 0 <= j < |x| ==> z[j] == if Ignored(i, j) then 0.0 else x[j]
  {
    seq(|x|, j requires 0 <= j < |x| => if Ignored(i, j) then 0.0 else x[j])
  }

  lemma BandIgnores(size: nat, i: nat, j: nat)
    requires i < size && j < size && size % TASK_WORK == 0
    ensures Ignored(i, j) <==> !(Lo(BlockStart(i), true) <= j < Hi(BlockStart(i), true, size))
  {
  }

  lemma {:induction false} OffAgrees(mat: Matrix, v: seq<real>, w: seq<real>, i: nat, lo: nat, hi: nat)
    requires Shape(mat) && |v| == |w| == mat.size && i < mat.size && hi <= mat.size
    requires forall j :: lo <= j < hi && j != i ==> v[j] == w[j] || Cell(mat, i, j) == 0.0
    ensures Off(mat, v, i, lo, hi) == Off(mat, w, i, lo, hi)
  {
    if lo < hi {
      OffAgrees(mat, v, w, i, lo, hi - 1);
      if Cell(mat, i, hi - 1) == 0.0 {
        TimesIs(Cell(mat, i, hi - 1), v[hi - 1]);
        TimesIs(Cell(mat, i, hi - 1), w[hi - 1]);
      }
    }
  }

  // Leading and trailing zeros can be left out of the sum.
  lemma {:induction false} OffOfZeros(mat: Matrix, v: seq<real>, i: nat, lo: nat, hi: nat, n: nat)
    requires Shape(mat) && |v| == mat.size && i < mat.size && hi <= mat.size && n <= mat.size
    requires forall j :: 0 <= j < n && !(lo <= j < hi) ==> v[j] == 0.0
    ensures Off(mat, v, i, 0, n) == Off(mat, v, i, lo, if n < hi then n else hi)
  {
    if n > 0 {
      OffOfZeros(mat, v, i, lo, hi, n - 1);
      TimesIs(Cell(mat, i, n - 1), v[n - 1]);
    }
  }

  /** An approximate row is the exact one for the vector with zeros in the columns it ignores. */
  lemma ApproximateIsMasked(mat: Matrix, b: seq<real>, x: seq<real>, i: nat)
    requires Divisible(mat) && |b| == |x| == mat.size && i < mat.size && mat.size % TASK_WORK == 0
    ensures ValueAt(mat, b, x, true, i) == ValueAt(mat, b, Masked(x, i), false, i)
  {
    var lo, hi, z := Lo(BlockStart(i), true), Hi(BlockStart(i), true, mat.size), Masked(x, i);
    forall j | 0 <= j < mat.size
      ensures Ignored(i, j) <==> !(lo <= j < hi)
    {
      BandIgnores(mat.size, i, j);
    }
    hide Cell, Ignored, Times;
    OffAgrees(mat, x, z, i, lo, hi);
    OffOfZeros(mat, z, i, lo, hi, mat.size);
  }

  /** So a row without entries in those columns is computed exactly, */
  lemma BandedRowIsExact(mat: Matrix, b: seq<real>, x: seq<real>, i: nat)
    requires Divisible(mat) && |b| == |x| == mat.size && i < mat.size && mat.size % TASK_WORK == 0
    requires forall j :: 0 <= j < mat.size && j != i && Ignored(i, j) ==> Cell(mat, i, j) == 0.0
    ensures ValueAt(mat, b, x, true, i) == ValueAt(mat, b, x, false, i)
  {
    ApproximateIsMasked(mat, b, x, i);
    hide Cell, Ignored;
    OffAgrees(mat, x, Masked(x, i), i, 0, mat.size);
  }

  /** the entries of the vector there do not matter, */
  lemma IgnoredDoNotMatter(mat: Matrix, b: seq<real>, x: seq<real>, z: seq<real>, i: nat)
    requires Divisible(mat) && |b| == |x| == |z| == mat.size && i < mat.size && mat.size % TASK_WORK == 0
    requires forall j :: 0 <= j < mat.size && j != i && !Ignored(i, j) ==> x[j] == z[j]
    ensures ValueAt(mat, b, x, true, i) == ValueAt(mat, b, z, true, i)
  {
    ApproximateIsMasked(mat, b, x, i);
    ApproximateIsMasked(mat, b, z, i);
    hide Cell, Ignored;
    OffAgrees(mat, Masked(x, i), Masked(z, i), i, 0, mat.size);
  }

  lemma {:induction false} OffUpdated(mat: Matrix, v: seq<real>, i: nat, j: nat, e: real, n: nat)
    requires Shape(mat) && |v| == mat.size && i < mat.size && j < mat.size && j != i && n <= mat.size
    ensures Off(mat, v[j := e], i, 0, n) == Off(mat, v, i, 0, n) + if j < n then Cell(mat, i, j) * (e - v[j]) else 0.0
  {
    if n > 0 {
      OffUpdated(mat, v, i, j, e, n - 1);
      TimesIs(Cell(mat, i, n - 1), v[n - 1]);
      TimesIs(Cell(mat, i, n - 1), v[j := e][n - 1]);
      hide Times, Cell;
    }
  }

  lemma QuotientsDiffer(b: real, off: real, change: real, d: real)
    requires d != 0.0 && change != 0.0
    ensures (b - (off + change)) / d != (b - off) / d
  {
    assert (b - off) / d - (b - (off + change)) / d == change / d;
  }

  lemma ProductNotZero(a: real, b: real)
    requires a != 0.0 && b != 0.0
    ensures a * b != 0.0
  {
  }

  // Another entry in a column with a coefficient changes an exact row.
  lemma ExactRowReads(mat: Matrix, b: seq<real>, x: seq<real>, i: nat, j: nat, e: real)
    requires Divisible(mat) && |b| == |x| == mat.size && i < mat.size && j < mat.size && j != i
    requires Cell(mat, i, j) != 0.0 && e != x[j]
    ensures ValueAt(mat, b, x[j := e], false, i) != ValueAt(mat, b, x, false, i)
  {
    OffUpdated(mat, x, i, j, e, mat.size);
    ProductNotZero(Cell(mat, i, j), e - x[j]);
    QuotientsDiffer(b[i], Off(mat, x, i, 0, mat.size), Cell(mat, i, j) * (e - x[j]), Cell(mat, i, i));
    hide Off, Cell;
  }

  /** and every other entry that has a coefficient does. */
  lemma EntryMattersIff(mat: Matrix, b: seq<real>, x: seq<real>, approx: bool, i: nat, j: nat, e: real)
    requires Divisible(mat) && |b| == |x| == mat.size && i < mat.size && j < mat.size && j != i
    requires Cell(mat, i, j) != 0.0 && e != x[j] && mat.size % TASK_WORK == 0
    ensures ValueAt(mat, b, x[j := e], approx, i) != ValueAt(mat, b, x, approx, i) <==> !(approx && Ignored(i, j))
  {
    hide Cell, ValueAt, Ignored;
    if !approx {
      ExactRowReads(mat, b, x, i, j, e);
    } else if Ignored(i, j) {
      IgnoredDoNotMatter(mat, b, x, x[j := e], i);
    } else {
      ApproximateIsMasked(mat, b, x, i);
      ApproximateIsMasked(mat, b, x[j := e], i);
      assert Masked(x[j := e], i) == Masked(x, i)[j := e];
      ExactRowReads(mat, b, Masked(x, i), i, j, e);
    }
  }

  // ---------------------------------------------------------------- the tasks

  lemma CellIs(mat: Matrix, i: nat, j: nat)
    requires Shape(mat) && i < mat.size && j < mat.size
    ensures Flat(i, j, mat.size) < |mat.cells| && Cell(mat, i, j) == mat.cells[Flat(i, j, mat.size)]
  {
  }

  // The innermost loop: adds column j to the sums of the rows from start.
  method AddColumn(A: array<real>, x: array<real>, s: array<real>, size: nat, start: nat, rows: nat, j: nat,
                   ghost mat: Matrix)
    requires Shape(mat) && A[..] == mat.cells && x.Length == mat.size == size && j < size
    requires start + rows <= size && rows <= s.Length && s != A && s != x
    modifies s
    ensures forall c :: 0 <= c < rows ==>
      s[c] == old(s[c]) + if j == start + c then 0.0 else Times(Cell(mat, start + c, j), x[j])
  {
    hide Square, Cell, Flat, Times, Shape;
    for c := 0 to rows
      invariant forall k :: 0 <= k < c ==>
        s[k] == old(s[k]) + if j == start + k then 0.0 else Times(Cell(mat, start + k, j), x[j])
      invariant forall k :: c <= k < rows ==> s[k] == old(s[k])
    {
      if j != start + c {
        CellIs(mat, start + c, j);
        TimesIs(A[Flat(start + c, j, size)], x[j]);
        s[c] := s[c] + A[Flat(start + c, j, size)] * x[j];
      }
    }
  }

  // The sums of `rows` rows over the columns from lo up to hi.
  predicate Sums(mat: Matrix, x: seq<real>, start: nat, rows: nat, lo: nat, hi: nat, s: seq<real>)
    requires Shape(mat) && |x| == mat.size && start + rows <= mat.size && hi <= mat.size
  {
    rows <= |s| && forall c :: 0 <= c < rows ==> s[c] == Off(mat, x, start + c, lo, hi)
  }

  lemma SumsStep(mat: Matrix, x: seq<real>, start: nat, rows: nat, lo: nat, j: nat, s: seq<real>, t: seq<real>)
    requires Shape(mat) && |x| == mat.size && start + rows <= mat.size && lo <= j < mat.size
    requires Sums(mat, x, start, rows, lo, j, s) && |t| == |s|
    requires forall c :: 0 <= c < rows ==>
      t[c] == s[c] + if j == start + c then 0.0 else Times(Cell(mat, start + c, j), x[j])
    ensures Sums(mat, x, start, rows, lo, j + 1, t)
  {
    hide Cell, Square, Times;
  }

  // The loops over tiles of columns.
  method AddTiles(A: array<real>, x: array<real>, s: array<real>, size: nat, start: nat, rows: nat, lo: nat, hi: nat,
                  ghost mat: Matrix)
    requires Shape(mat) && A[..] == mat.cells && x.Length == mat.size == size && s != A && s != x
    requires start + rows <= size && rows <= s.Length && lo <= hi <= size && (hi - lo) % TASK_WORK == 0
    requires forall c :: 0 <= c < rows ==> s[c] == 0.0
    modifies s
    ensures Sums(mat, x[..], start, rows, lo, hi, s[..])
  {
    hide Cell, Square, Sums, Times;
    ghost var xs := x[..];
    NothingSummed(mat, xs, start, rows, lo, s[..]);
    var from := lo;
    while from + TASK_WORK <= hi
      invariant lo <= from <= hi && (hi - from) % TASK_WORK == 0
      invariant Sums(mat, xs, start, rows, lo, from, s[..])
    {
      for j := from to from + TASK_WORK
        invariant Sums(mat, xs, start, rows, lo, j, s[..])
      {
        ghost var was := s[..];
        AddColumn(A, x, s, size, start, rows, j, mat);
        SumsStep(mat, xs, start, rows, lo, j, was, s[..]);
      }
      from := from + TASK_WORK;
    }
  }

  lemma NothingSummed(mat: Matrix, x: seq<real>, start: nat, rows: nat, lo: nat, s: seq<real>)
    requires Shape(mat) && |x| == mat.size && start + rows <= mat.size && lo <= mat.size && rows <= |s|
    requires forall c :: 0 <= c < rows ==> s[c] == 0.0
    ensures Sums(mat, x, start, rows, lo, lo, s)
  {
  }

  // The last loop of a task: the new values of its rows.
  method StoreRows(A: array<real>, b: array<real>, s: array<real>, x1: array<real>, size: nat, start: nat, rows: nat,
                   lo: nat, hi: nat, ghost mat: Matrix, ghost xs: seq<real>)
    requires Shape(mat) && Divisible(mat) && A[..] == mat.cells && b.Length == x1.Length == |xs| == mat.size == size
    requires start + rows <= size && hi <= size && Sums(mat, xs, start, rows, lo, hi, s[..])
    requires x1 != A && x1 != b && x1 != s && s != A && s != b
    modifies s, x1
    ensures forall i :: 0 <= i < size && !(start <= i < start + rows) ==> x1[i] == old(x1[i])
    ensures forall i :: start <= i < start + rows ==> x1[i] == NewValue(mat, b[..], xs, i, lo, hi)
  {
    hide Off, Square, Cell, NewValue, Divisible, Flat;
    ghost var sums := s[..];
    for c := 0 to rows
      invariant forall k :: c <= k < rows ==> s[k] == sums[k]
      invariant forall i :: 0 <= i < size && !(start <= i < start + c) ==> x1[i] == old(x1[i])
      invariant forall i :: start <= i < start + c ==> x1[i] == NewValue(mat, b[..], xs, i, lo, hi)
    {
      var i := start + c;
      DiagonalOf(mat, b[..], xs, i, lo, hi);
      assert sums[c] == Off(mat, xs, start + c, lo, hi);
      s[c] := (b[i] - s[c]) / A[Flat(i, i, size)];
      x1[i] := s[c];
    }
  }

  lemma DiagonalOf(mat: Matrix, b: seq<real>, x: seq<real>, i: nat, lo: nat, hi: nat)
    requires Shape(mat) && Divisible(mat) && |b| == |x| == mat.size && i < mat.size && hi <= mat.size
    ensures mat.cells[Flat(i, i, mat.size)] != 0.0
    ensures NewValue(mat, b, x, i, lo, hi) == (b[i] - Off(mat, x, i, lo, hi)) / mat.cells[Flat(i, i, mat.size)]
  {
    hide Off, Square, Flat;
    assert Cell(mat, i, i) == mat.cells[Flat(i, i, mat.size)];
  }

  lemma BlockStartIs(i: nat, start: nat)
    requires start % TASK_WORK == 0 && start <= i < start + TASK_WORK
    ensures BlockStart(i) == start
  {
  }

  // Tasks start at whole blocks: the columns of a band are whole tiles.
  lemma BandIsTiled(start: nat, size: nat, approx: bool)
    requires start < size && start % TASK_WORK == 0 && size % TASK_WORK == 0
    ensures start + TASK_WORK <= size
    ensures Lo(start, approx) <= Hi(start, approx, size)
    ensures (Hi(start, approx, size) - Lo(start, approx)) % TASK_WORK == 0
  {
    MultiplesApart(start, size);
    MultiplesApart(Lo(start, approx), Hi(start, approx, size));
  }

  lemma MultiplesApart(a: nat, b: nat)
    requires a % TASK_WORK == 0 && b % TASK_WORK == 0 && a <= b
    ensures (b - a) % TASK_WORK == 0 && (a < b ==> a + TASK_WORK <= b)
  {
  }

  lemma RowsOfTask(mat: Matrix, b: seq<real>, x: seq<real>, approx: bool, start: nat, x1: seq<real>)
    requires Divisible(mat) && |b| == |x| == mat.size == |x1| && start + TASK_WORK <= mat.size && start % TASK_WORK == 0
    requires forall i :: start <= i < start + TASK_WORK ==>
      x1[i] == NewValue(mat, b, x, i, Lo(start, approx), Hi(start, approx, mat.size))
    ensures forall i :: start <= i < start + TASK_WORK ==> x1[i] == ValueAt(mat, b, x, approx, i)
  {
    hide NewValue, Divisible, BlockStart, Lo, Hi;
    forall i | start <= i < start + TASK_WORK
      ensures x1[i] == ValueAt(mat, b, x, approx, i)
    {
      BlockStartIs(i, start);
    }
  }

  method JacobiTask(A: array<real>, x: array<real>, x1: array<real>, b: array<real>, size: nat, start: nat,
                    ghost mat: Matrix)
    requires Shape(mat) && Divisible(mat) && A[..] == mat.cells && x.Length == b.Length == x1.Length == mat.size == size
    requires start < size && start % TASK_WORK == 0 && size % TASK_WORK == 0 && x1 != A && x1 != b && x1 != x
    modifies x1
    ensures forall i :: 0 <= i < size && !(start <= i < start + TASK_WORK) ==> x1[i] == old(x1[i])
    ensures forall i :: start <= i < start + TASK_WORK ==> i < size && x1[i] == ValueAt(mat, b[..], x[..], false, i)
  {
    var end := if size - start > TASK_WORK then start + TASK_WORK else size;
    hide Divisible, NewValue, ValueAt, Off, Sums, Square, Cell;
    BandIsTiled(start, size, false);
    var s := new real[TASK_WORK](_ => 0.0);
    AddTiles(A, x, s, size, start, end - start, 0, size, mat);
    StoreRows(A, b, s, x1, size, start, end - start, 0, size, mat, x[..]);
    RowsOfTask(mat, b[..], x[..], false, start, x1[..]);
  }

  method JacobiTaskApprox(A: array<real>, x: array<real>, x1: array<real>, b: array<real>, size: nat, start: nat,
                          ghost mat: Matrix)
    requires Shape(mat) && Divisible(mat) && A[..] == mat.cells && x.Length == b.Length == x1.Length == mat.size == size
    requires start < size && start % TASK_WORK == 0 && size % TASK_WORK == 0 && x1 != A && x1 != b && x1 != x
    modifies x1
    ensures forall i :: 0 <= i < size && !(start <= i < start + TASK_WORK) ==> x1[i] == old(x1[i])
    ensures forall i :: start <= i < start + TASK_WORK ==> i < size && x1[i] == ValueAt(mat, b[..], x[..], true, i)
  {
    var end := if size - start > TASK_WORK then start + TASK_WORK else size;
    hide Divisible, NewValue, ValueAt, Off, Sums, Square, Cell;
    BandIsTiled(start, size, true);
    var s := new real[TASK_WORK](_ => 0.0);
    var from: int := start - NUM_BLOCKS * TASK_WORK;
    var to: int := start + NUM_BLOCKS * TASK_WORK;
    if from < 0 {
      from := 0;
    }
    if to > size {
      to := size;
    }
    assert from == Lo(start, true) && to == Hi(start, true, size);
    AddTiles(A, x, s, size, start, end - start, from, to, mat);
    StoreRows(A, b, s, x1, size, start, end - start, from, to, mat, x[..]);
    RowsOfTask(mat, b[..], x[..], true, start, x1[..]);
  }

  // ---------------------------------------------------------------- the tasks of a sweep

  // The first rows of the tasks, in push order: all blocks, starting from a random one.
  predicate Rotation(starts: seq<nat>, size: nat, shift: nat) {
    && shift < |starts| && |starts| * TASK_WORK == size
    && forall k :: 0 <= k < |starts| ==> starts[k] == Mod(k + shift, |starts|) * TASK_WORK
  }

  lemma RotatedStart(k: nat, shift: nat, blocks: nat)
    requires blocks > 0
    ensures (k * TASK_WORK + shift * TASK_WORK) % (blocks * TASK_WORK) == Mod(k + shift, blocks) * TASK_WORK
  {
    var q, r := (k + shift) / blocks, (k + shift) % blocks;
    assert k + shift == q * blocks + r;
    assert (q * blocks + r) * TASK_WORK == q * (blocks * TASK_WORK) + r * TASK_WORK;
    DivModUnique(k * TASK_WORK + shift * TASK_WORK, blocks * TASK_WORK, q, r * TASK_WORK);
  }

  method PushBlocks(size: nat, shift: nat) returns (starts: seq<nat>)
    requires size % TASK_WORK == 0 && shift < size / TASK_WORK
    ensures Rotation(starts, size, shift)
  {
    var blocks := size / TASK_WORK;
    starts := [];
    var i := 0;
    while i < size
      invariant i == |starts| * TASK_WORK && |starts| <= blocks
      invariant forall k :: 0 <= k < |starts| ==> starts[k] == Mod(k + shift, blocks) * TASK_WORK
    {
      RotatedStart(|starts|, shift, blocks);
      starts := starts + [(i + shift * TASK_WORK) % size];
      i := i + TASK_WORK;
    }
  }

  // Which task has row i.
  function TaskOf(i: nat, blocks: nat, shift: nat): nat
    requires shift < blocks && i < blocks * TASK_WORK
  {
    if i / TASK_WORK >= shift then i / TASK_WORK - shift else i / TASK_WORK + blocks - shift
  }

  // From whatever block the pushes start, every row belongs to exactly one task.
  lemma EveryRowInOneTask(starts: seq<nat>, size: nat, shift: nat, i: nat, k: nat)
    requires Rotation(starts, size, shift) && i < size && k < |starts|
    ensures TaskOf(i, |starts|, shift) < |starts|
    ensures starts[k] % TASK_WORK == 0 && starts[k] + TASK_WORK <= size
    ensures starts[k] <= i < starts[k] + TASK_WORK <==> k == TaskOf(i, |starts|, shift)
  {
    var block := Mod(k + shift, |starts|);
    if k + shift < |starts| {
      DivModUnique(k + shift, |starts|, 0, k + shift);
    } else {
      DivModUnique(k + shift, |starts|, 1, k + shift - |starts|);
    }
    BlockOfRow(i, |starts|);
    assert starts[k] == block * TASK_WORK;
    MultipleOfBlock(block, i, |starts|);
  }

  lemma MultipleOfBlock(block: nat, i: nat, blocks: nat)
    requires block < blocks
    ensures block * TASK_WORK % TASK_WORK == 0 && block * TASK_WORK + TASK_WORK <= blocks * TASK_WORK
    ensures block * TASK_WORK <= i < block * TASK_WORK + TASK_WORK <==> i / TASK_WORK == block
  {
  }

  // The rows of a task hold their new values.
  predicate RowsDone(mat: Matrix, b: seq<real>, x: seq<real>, approx: seq<bool>, start: nat, x1: seq<real>)
    requires Shape(mat) && Divisible(mat) && |b| == |x| == |x1| == mat.size == |approx| * TASK_WORK
  {
    forall i :: start <= i < start + TASK_WORK && i < mat.size && i / TASK_WORK < |approx| ==>
      x1[i] == ValueAt(mat, b, x, approx[i / TASK_WORK], i)
  }

  lemma OtherRowsStay(mat: Matrix, b: seq<real>, x: seq<real>, approx: seq<bool>, start: nat, other: nat,
                      x1: seq<real>, next: seq<real>)
    requires Shape(mat) && Divisible(mat) && |b| == |x| == |x1| == |next| == mat.size == |approx| * TASK_WORK
    requires RowsDone(mat, b, x, approx, other, x1) && RowsDone(mat, b, x, approx, start, next)
    requires forall i :: 0 <= i < mat.size && !(start <= i < start + TASK_WORK) ==> next[i] == x1[i]
    ensures RowsDone(mat, b, x, approx, other, next)
  {
    hide ValueAt, Shape, Divisible;
  }

  // One task, with the body that the scheduler has chosen for its block.
  method RunTask(A: array<real>, x: array<real>, x1: array<real>, b: array<real>, size: nat, start: nat,
                 approx: seq<bool>, ghost mat: Matrix)
    requires Shape(mat) && Divisible(mat) && A[..] == mat.cells && x.Length == b.Length == x1.Length == mat.size == size
    requires start % TASK_WORK == 0 && start + TASK_WORK <= size == |approx| * TASK_WORK && x1 != A && x1 != b
    requires x1 != x
    modifies x1
    ensures forall i :: 0 <= i < size && !(start <= i < start + TASK_WORK) ==> x1[i] == old(x1[i])
    ensures RowsDone(mat, b[..], x[..], approx, start, x1[..])
  {
    hide Divisible, Shape, ValueAt;
    var block := start / TASK_WORK;
    if approx[block] {
      JacobiTaskApprox(A, x, x1, b, size, start, mat);
    } else {
      JacobiTask(A, x, x1, b, size, start, mat);
    }
    forall i | start <= i < start + TASK_WORK
      ensures i / TASK_WORK == block
    {
    }
  }

  // The tasks run in the given order, each exactly once.
  predicate Ordering(order: seq<nat>, n: nat) {
    && |order| == n && (forall q :: 0 <= q < n ==> order[q] < n)
    && forall k :: 0 <= k < n ==> k in order
  }

  // One iteration up to the end of wait_group.
  method Sweep(A: array<real>, x: array<real>, x1: array<real>, b: array<real>, size: nat, shift: nat, order: seq<nat>,
               approx: seq<bool>, ghost mat: Matrix)
    requires Shape(mat) && Divisible(mat) && A[..] == mat.cells && x.Length == b.Length == x1.Length == mat.size == size
    requires size == |approx| * TASK_WORK && shift < |approx| && Ordering(order, |approx|) && x1 != A && x1 != b
    requires x1 != x
    modifies x1
    ensures Swept(mat, b[..], x[..], approx, x1[..])
  {
    hide Divisible, Shape, RowsDone, ValueAt, Rotation, TaskOf;
    BlocksOf(size, |approx|);
    var starts := PushBlocks(size, shift);
    RotationLength(starts, size, shift, |approx|);
    ghost var bs, xs := b[..], x[..];
    for q := 0 to |order|
      invariant forall p :: 0 <= p < q ==> RowsDone(mat, bs, xs, approx, starts[order[p]], x1[..])
    {
      ghost var was := x1[..];
      var start := starts[order[q]];
      EveryRowInOneTask(starts, size, shift, 0, order[q]);
      RunTask(A, x, x1, b, size, start, approx, mat);
      forall p | 0 <= p < q
        ensures RowsDone(mat, bs, xs, approx, starts[order[p]], x1[..])
      {
        OtherRowsStay(mat, bs, xs, approx, start, starts[order[p]], was, x1[..]);
      }
    }
    AllRowsDone(mat, bs, xs, approx, starts, shift, order, x1[..]);
  }

  lemma BlocksOf(size: nat, blocks: nat)
    requires size == blocks * TASK_WORK
    ensures size % TASK_WORK == 0 && size / TASK_WORK == blocks
  {
  }

  lemma RotationLength(starts: seq<nat>, size: nat, shift: nat, blocks: nat)
    requires Rotation(starts, size, shift) && size == blocks * TASK_WORK
    ensures |starts| == blocks && shift < blocks
  {
  }

  lemma AllRowsDone(mat: Matrix, b: seq<real>, x: seq<real>, approx: seq<bool>, starts: seq<nat>, shift: nat,
                    order: seq<nat>, x1: seq<real>)
    requires Shape(mat) && Divisible(mat) && |b| == |x| == |x1| == mat.size == |approx| * TASK_WORK
    requires Rotation(starts, mat.size, shift) && |starts| == |approx| && Ordering(order, |approx|)
    requires forall p :: 0 <= p < |order| ==> RowsDone(mat, b, x, approx, starts[order[p]], x1)
    ensures Swept(mat, b, x, approx, x1)
  {
    hide Divisible, Shape, ValueAt, Rotation, TaskOf;
    forall i | 0 <= i < mat.size
      ensures i / TASK_WORK < |approx| && x1[i] == ValueAt(mat, b, x, approx[i / TASK_WORK], i)
    {
      BlockOfRow(i, |approx|);
      RotationLength(starts, mat.size, shift, |approx|);
      EveryRowInOneTask(starts, mat.size, shift, i, 0);
      var k := TaskOf(i, |starts|, shift);
      EveryRowInOneTask(starts, mat.size, shift, i, k);
      assert k in order;
      var p :| 0 <= p < |order| && order[p] == k;
      assert RowsDone(mat, b, x, approx, starts[order[p]], x1);
    }
  }
}
