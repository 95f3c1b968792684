/**
 Bicubic interpolation of fisheye.c: the exact form over sixteen pixels, the approximate one over
 four, and how far apart they can be.
 */
module Bicubic {
  import opened Arithmetic

  // ---------------------------------------------------------------- weights

  function Half(x: real): real { x / 2.0 }

  // interp_row_val and interp_col_val of bicubic_interpolation.
  function W0(s: real): real { Half(((2.0 - s) * s - 1.0) * s) }
  function W1(s: real): real { Half((3.0 * s - 5.0) * s * s + 2.0) }
  function W2(s: real): real { Half(((4.0 - 3.0 * s) * s + 1.0) * s) }
  function W3(s: real): real { Half((s - 1.0) * s * s) }

  // The same of bicubic_interpolation_approx.
  function V1(s: real): real { Half((3.0 * s - 5.0) * s * s + 2.0 + ((2.0 - s) * s - 1.0) * s) }
  function V2(s: real): real { Half(((4.0 - 3.0 * s) * s + 1.0) * s + (s - 1.0) * s * s) }

  predicate Unit(s: real) { 0.0 <= s <= 1.0 }

  // Four neighbours in one direction, and four rows of them.
  datatype Line = Line(a: real, b: real, c: real, d: real)
  datatype Window = Window(r0: Line, r1: Line, r2: Line, r3: Line)

  function Interpolate(p: Line, s: real): real {
    p.b * W1(s) + p.c * W2(s) + (p.a * W0(s) + p.d * W3(s))
  }

  function Rows(w: Window, s: real): Line {
    Line(Interpolate(w.r0, s), Interpolate(w.r1, s), Interpolate(w.r2, s), Interpolate(w.r3, s))
  }

  // temp of bicubic_interpolation.
  function Exact(w: Window, s: real, t: real): real {
    var r := Rows(w, s);
    r.a * W0(t) + r.b * W1(t) + r.c * W2(t) + r.d * W3(t)
  }

  function Blend(b: real, c: real, s: real): real {
    b * V1(s) + c * V2(s)
  }

  // temp of bicubic_interpolation_approx.
  function Approx(w: Window, s: real, t: real): real {
    Blend(Blend(w.r1.b, w.r1.c, s), Blend(w.r2.b, w.r2.c, s), t)
  }

  // ---------------------------------------------------------------- polynomials

  // k0 + k1 * x + k2 * x^2
  datatype Quadratic = Quadratic(k0: real, k1: real, k2: real)

  // Its value at x, with x^2 given as u.
  function Eval(f: Quadratic, x: real, u: real): real {
    f.k0 + f.k1 * x + f.k2 * u
  }

  function At(f: Quadratic, x: real): real {
    Eval(f, x, x * x)
  }

  lemma WeightsReproducePowers(s: real)
    ensures W0(s) + W1(s) + W2(s) + W3(s) == 1.0
    ensures -W0(s) + W2(s) + 2.0 * W3(s) == s
    ensures W0(s) + W2(s) + 4.0 * W3(s) == s * s
  {
    var c := s * s * s;
    assert (2.0 - s) * s * s == 2.0 * (s * s) - c;
    assert 3.0 * s * s * s == 3.0 * c && (s - 1.0) * s * s == c - s * s;
  }

  // The kernel of cubic convolution with parameter -1/2.
  function Kernel(x: real): real {
    var r := if x < 0.0 then -x else x;
    if r <= 1.0 then (1.5 * r - 2.5) * r * r + 1.0
    else if r <= 2.0 then ((-0.5 * r + 2.5) * r - 4.0) * r + 2.0
    else 0.0
  }

  // The weights are the kernel at the distances of the four neighbours.
  lemma WeightsAreCubicConvolution(s: real)
    requires Unit(s)
    ensures W0(s) == Kernel(s + 1.0) && W1(s) == Kernel(s) && W2(s) == Kernel(1.0 - s) && W3(s) == Kernel(2.0 - s)
  {
    hide *;
    WeightsExpanded(s);
    KernelBehind(s);
    KernelBefore(s);
    KernelBeyond(s);
    UnitBounds(s);
    KernelIs(s);
  }

  lemma UnitBounds(s: real)
    requires Unit(s)
    ensures 0.0 <= s <= 1.0
  {
  }

  lemma WeightsExpanded(s: real)
    ensures W0(s) == s * s - 0.5 * (s * s * s) - 0.5 * s
    ensures W1(s) == 1.5 * (s * s * s) - 2.5 * (s * s) + 1.0
    ensures W2(s) == 2.0 * (s * s) - 1.5 * (s * s * s) + 0.5 * s
    ensures W3(s) == 0.5 * (s * s * s) - 0.5 * (s * s)
  {
    var c := s * s * s;
    assert (2.0 - s) * s * s == 2.0 * (s * s) - c && (3.0 * s - 5.0) * s * s == 3.0 * c - 5.0 * (s * s);
    assert (4.0 - 3.0 * s) * s * s == 4.0 * (s * s) - 3.0 * c && (s - 1.0) * s * s == c - s * s;
  }

  lemma Cube(d: real, s: real)
    ensures (d + s) * (d + s) == d * d + 2.0 * d * s + s * s
    ensures (d + s) * (d + s) * (d + s) == d * d * d + 3.0 * (d * d) * s + 3.0 * d * (s * s) + s * s * s
  {
    var q := s * s;
    assert (d + s) * (d + s) == d * d + 2.0 * d * s + q;
    assert (d * d + 2.0 * d * s + q) * d == d * d * d + 2.0 * (d * d) * s + d * q;
    assert (d * d + 2.0 * d * s + q) * s == (d * d) * s + 2.0 * d * q + s * q;
  }

  lemma KernelBehind(s: real)
    requires Unit(s)
    ensures Kernel(s + 1.0) == s * s - 0.5 * (s * s * s) - 0.5 * s
  {
    KernelIs(1.0 + s);
    Cube(1.0, s);
    hide Kernel;
  }

  lemma KernelBefore(s: real)
    requires Unit(s)
    ensures Kernel(1.0 - s) == 2.0 * (s * s) - 1.5 * (s * s * s) + 0.5 * s
  {
    KernelIs(1.0 - s);
    Cube(1.0, -s);
    MinusPowers(s);
    hide Kernel;
  }

  lemma KernelBeyond(s: real)
    requires Unit(s)
    ensures Kernel(2.0 - s) == 0.5 * (s * s * s) - 0.5 * (s * s)
  {
    KernelIs(2.0 - s);
    Cube(2.0, -s);
    MinusPowers(s);
    hide Kernel;
  }

  lemma MinusPowers(s: real)
    ensures (-s) * (-s) == s * s && (-s) * (-s) * (-s) == -(s * s * s)
  {
  }

  lemma KernelIs(r: real)
    requires 0.0 <= r <= 2.0
    ensures r <= 1.0 ==> Kernel(r) == 1.5 * (r * r * r) - 2.5 * (r * r) + 1.0
    ensures r >= 1.0 ==> Kernel(r) == -0.5 * (r * r * r) + 2.5 * (r * r) - 4.0 * r + 2.0
  {
    assert (1.5 * r - 2.5) * r * r == 1.5 * (r * r * r) - 2.5 * (r * r);
    assert (-0.5 * r + 2.5) * r * r == -0.5 * (r * r * r) + 2.5 * (r * r);
  }

  // The four samples of a quadratic around the interval from 0 to 1.
  function Samples(f: Quadratic): Line {
    Line(At(f, -1.0), At(f, 0.0), At(f, 1.0), At(f, 2.0))
  }

  lemma Collect(k0: real, k1: real, k2: real, a: real, b: real, c: real, d: real)
    ensures (k0 - k1 + k2) * a + k0 * b + (k0 + k1 + k2) * c + (k0 + 2.0 * k1 + 4.0 * k2) * d
      == k0 * (a + b + c + d) + k1 * (-a + c + 2.0 * d) + k2 * (a + c + 4.0 * d)
  {
  }

  lemma LineReproduces(f: Quadratic, s: real)
    ensures Interpolate(Samples(f), s) == At(f, s)
  {
    WeightsReproducePowers(s);
    Collect(f.k0, f.k1, f.k2, W0(s), W1(s), W2(s), W3(s));
    SamplesAre(f);
    hide *;
    var p := Samples(f);
    InterpolateExpanded(p, s);
    AtIs(f, s);
  }

  lemma SamplesAre(f: Quadratic)
    ensures Samples(f) == Line(f.k0 - f.k1 + f.k2, f.k0, f.k0 + f.k1 + f.k2, f.k0 + 2.0 * f.k1 + 4.0 * f.k2)
  {
  }

  lemma InterpolateExpanded(p: Line, s: real)
    ensures Interpolate(p, s) == p.a * W0(s) + p.b * W1(s) + p.c * W2(s) + p.d * W3(s)
  {
  }

  lemma AtIs(f: Quadratic, s: real)
    ensures At(f, s) == f.k0 * 1.0 + f.k1 * s + f.k2 * (s * s)
  {
  }

  // A polynomial of degree at most two in each variable: q0(y) + q1(y) * x + q2(y) * x^2.
  datatype Surface = Surface(q0: Quadratic, q1: Quadratic, q2: Quadratic)

  function RowAt(f: Surface, y: real): Quadratic {
    Quadratic(At(f.q0, y), At(f.q1, y), At(f.q2, y))
  }

  function ValueAt(f: Surface, x: real, y: real): real {
    At(RowAt(f, y), x)
  }

  function Grid(f: Surface): Window {
    Window(Samples(RowAt(f, -1.0)), Samples(RowAt(f, 0.0)), Samples(RowAt(f, 1.0)), Samples(RowAt(f, 2.0)))
  }

  // The surface along a fixed x, as a polynomial in y.
  function Section(f: Surface, x: real): Quadratic {
    Quadratic(At(Quadratic(f.q0.k0, f.q1.k0, f.q2.k0), x), At(Quadratic(f.q0.k1, f.q1.k1, f.q2.k1), x),
              At(Quadratic(f.q0.k2, f.q1.k2, f.q2.k2), x))
  }

  lemma TimesSum(p: real, q: real, r: real, x: real)
    ensures (p + q + r) * x == p * x + q * x + r * x
  {
  }

  // Summing a table of nine terms by rows or by columns.
  lemma Transposed(f: Surface, x: real, u: real, y: real, v: real)
    ensures Eval(Quadratic(Eval(Quadratic(f.q0.k0, f.q1.k0, f.q2.k0), x, u),
                           Eval(Quadratic(f.q0.k1, f.q1.k1, f.q2.k1), x, u),
                           Eval(Quadratic(f.q0.k2, f.q1.k2, f.q2.k2), x, u)), y, v)
      == Eval(Quadratic(Eval(f.q0, y, v), Eval(f.q1, y, v), Eval(f.q2, y, v)), x, u)
  {
    TimesSum(f.q0.k1, f.q1.k1 * x, f.q2.k1 * u, y);
    TimesSum(f.q0.k2, f.q1.k2 * x, f.q2.k2 * u, v);
    TimesSum(f.q1.k0, f.q1.k1 * y, f.q1.k2 * v, x);
    TimesSum(f.q2.k0, f.q2.k1 * y, f.q2.k2 * v, u);
    Swapped(f.q1.k1, x, y);
    Swapped(f.q2.k1, u, y);
    Swapped(f.q1.k2, x, v);
    Swapped(f.q2.k2, u, v);
  }

  lemma Swapped(k: real, x: real, y: real)
    ensures k * x * y == k * y * x
  {
  }

  lemma SectionMeetsRow(f: Surface, x: real, y: real)
    ensures At(Section(f, x), y) == At(RowAt(f, y), x)
  {
    hide Eval;
    Transposed(f, x, x * x, y, y * y);
  }

  // The sixteen-pixel form reproduces every such polynomial.
  lemma ReproducesQuadratics(f: Surface, s: real, t: real)
    ensures Exact(Grid(f), s, t) == ValueAt(f, s, t)
  {
    hide *;
    GridRows(f, s);
    LineReproduces(Section(f, s), t);
    SectionMeetsRow(f, s, t);
    ExactIs(Grid(f), s, t);
    ValueAtIs(f, s, t);
  }

  lemma GridRows(f: Surface, s: real)
    ensures Rows(Grid(f), s) == Samples(Section(f, s))
  {
    LineReproduces(RowAt(f, -1.0), s);
    LineReproduces(RowAt(f, 0.0), s);
    LineReproduces(RowAt(f, 1.0), s);
    LineReproduces(RowAt(f, 2.0), s);
    SectionMeetsRow(f, s, -1.0);
    SectionMeetsRow(f, s, 0.0);
    SectionMeetsRow(f, s, 1.0);
    SectionMeetsRow(f, s, 2.0);
    hide At, RowAt, Section, Interpolate;
  }

  lemma ExactIs(w: Window, s: real, t: real)
    ensures Exact(w, s, t) == Interpolate(Rows(w, s), t)
  {
    hide Rows, W0, W1, W2, W3;
  }

  lemma ValueAtIs(f: Surface, s: real, t: real)
    ensures ValueAt(f, s, t) == At(RowAt(f, t), s)
  {
  }

  // ---------------------------------------------------------------- signs and sums of weights

  // How much weight the outer pixels carry, in magnitude: at most 1/8.
  function Outer(s: real): real { Half(s * (1.0 - s)) }

  lemma OuterIsSmall(s: real)
    requires Unit(s)
    ensures 0.0 <= Outer(s) <= 0.125
  {
    ProductNonNegative(s, 1.0 - s);
    SquareNonNegative(s - 0.5);
  }

  lemma ProductNonNegative(a: real, b: real)
    requires a >= 0.0 && b >= 0.0
    ensures a * b >= 0.0
  {
  }

  lemma SquareNonNegative(a: real)
    ensures a * a >= 0.0
  {
  }

  lemma OuterWeights(s: real)
    requires Unit(s)
    ensures W0(s) <= 0.0 && W3(s) <= 0.0 && W0(s) + W3(s) == -Outer(s)
    ensures V1(s) == W0(s) + W1(s) && V2(s) == W2(s) + W3(s)
  {
    var r := 1.0 - s;
    ProductNonNegative(r, s);
    ProductNonNegative(r * s, r);
    ProductNonNegative(r * s, s);
    assert ((2.0 - s) * s - 1.0) * s == -(r * s * r);
    assert (s - 1.0) * s * s == -(r * s * s);
    assert r * s * r + r * s * s == r * s;
  }

  lemma InnerWeights(s: real)
    requires Unit(s)
    ensures W1(s) >= 0.0 && W2(s) >= 0.0 && W1(s) + W2(s) == 1.0 + Outer(s)
  {
    var r := 1.0 - s;
    var q := 2.0 + 2.0 * s - 3.0 * (s * s);
    assert (3.0 * s - 5.0) * s * s + 2.0 == r * q;
    assert ((4.0 - 3.0 * s) * s + 1.0) * s == s * (1.0 + 4.0 * s - 3.0 * (s * s));
    ProductNonNegative(s, r);
    assert s * s <= s;
    ProductNonNegative(r, q);
    ProductNonNegative(s, 1.0 + 4.0 * s - 3.0 * (s * s));
    WeightsReproducePowers(s);
    OuterWeights(s);
  }

  // The weights of the approximate form are those of a convex combination.
  lemma ApproxWeights(s: real)
    requires Unit(s)
    ensures 0.0 <= V1(s) <= 1.0 && 0.0 <= V2(s) <= 1.0 && V1(s) + V2(s) == 1.0
  {
    OuterWeights(s);
    WeightsReproducePowers(s);
    var r := 1.0 - s;
    ProductNonNegative(r, s);
    var q := 1.0 + s / 2.0 - s * s;
    assert s * s <= s;
    ProductNonNegative(r, q);
    var c := s * s * s;
    assert r * q == 1.0 - s / 2.0 - 1.5 * (s * s) + c;
    assert (3.0 * s - 5.0) * s * s == 3.0 * c - 5.0 * (s * s) && ((2.0 - s) * s - 1.0) * s == 2.0 * (s * s) - c - s;
    assert V1(s) == r * q;
    ProductNonNegative(s, 1.0 + 3.0 * s - 2.0 * (s * s));
    assert ((4.0 - 3.0 * s) * s + 1.0) * s == 4.0 * (s * s) - 3.0 * c + s && (s - 1.0) * s * s == c - s * s;
    assert s * (1.0 + 3.0 * s - 2.0 * (s * s)) == s + 3.0 * (s * s) - 2.0 * c;
  }

  // ---------------------------------------------------------------- bounds

  // A value between lo and hi.
  predicate Within(x: real, lo: real, hi: real) { lo <= x <= hi }

  lemma BlendIsConvex(b: real, c: real, s: real, lo: real, hi: real)
    requires Unit(s) && Within(b, lo, hi) && Within(c, lo, hi)
    ensures Within(Blend(b, c, s), lo, hi)
  {
    ApproxWeights(s);
    var v, w := V1(s), V2(s);
    hide V1, V2;
    ProductNonNegative(v, b - lo);
    ProductNonNegative(w, c - lo);
    ProductNonNegative(v, hi - b);
    ProductNonNegative(w, hi - c);
    assert v * (b - lo) + w * (c - lo) == Blend(b, c, s) - lo * (v + w);
    assert v * (hi - b) + w * (hi - c) == hi * (v + w) - Blend(b, c, s);
  }

  // The approximate value lies between the least and the greatest of its four pixels.
  lemma ApproxIsConvex(w: Window, s: real, t: real, lo: real, hi: real)
    requires Unit(s) && Unit(t)
    requires Within(w.r1.b, lo, hi) && Within(w.r1.c, lo, hi) && Within(w.r2.b, lo, hi) && Within(w.r2.c, lo, hi)
    ensures Within(Approx(w, s, t), lo, hi)
  {
    BlendIsConvex(w.r1.b, w.r1.c, s, lo, hi);
    BlendIsConvex(w.r2.b, w.r2.c, s, lo, hi);
    BlendIsConvex(Blend(w.r1.b, w.r1.c, s), Blend(w.r2.b, w.r2.c, s), t, lo, hi);
    hide Blend;
  }

  predicate Pixels(p: Line) {
    Within(p.a, 0.0, 255.0) && Within(p.b, 0.0, 255.0) && Within(p.c, 0.0, 255.0) && Within(p.d, 0.0, 255.0)
  }

  lemma Scaled(a: real, x: real, hi: real)
    requires a >= 0.0 && 0.0 <= x <= hi
    ensures 0.0 <= a * x <= a * hi
  {
    ProductNonNegative(a, x);
    ProductNonNegative(a, hi - x);
  }

  // Weighted sums of a line and of its two inner values.
  function Sum4(p: Line, w0: real, w1: real, w2: real, w3: real): real {
    p.a * w0 + p.b * w1 + p.c * w2 + p.d * w3
  }

  function Sum2(b: real, c: real, v: real, w: real): real {
    b * v + c * w
  }

  lemma InterpolateIs(p: Line, s: real)
    ensures Interpolate(p, s) == Sum4(p, W0(s), W1(s), W2(s), W3(s))
  {
  }

  lemma BlendIs(b: real, c: real, s: real)
    ensures Blend(b, c, s) == Sum2(b, c, V1(s), V2(s))
  {
  }

  lemma Spread(x: real, u: real, v: real)
    ensures x * (u + v) == x * u + x * v
  {
  }

  // A pixel times a weight.
  lemma Weighted(x: real, w: real)
    requires 0.0 <= x <= 255.0
    ensures w >= 0.0 ==> Within(x * w, 0.0, 255.0 * w)
    ensures w <= 0.0 ==> Within(x * w, 255.0 * w, 0.0)
  {
    if w >= 0.0 { Scaled(w, x, 255.0); } else { Scaled(-w, x, 255.0); }
  }

  // Two values no further than m apart, times a weight.
  lemma WeightedApart(x: real, y: real, w: real, m: real)
    requires Within(x - y, -m, m)
    ensures w >= 0.0 ==> Within(x * w - y * w, -(m * w), m * w)
    ensures w <= 0.0 ==> Within(x * w - y * w, m * w, -(m * w))
  {
    if w >= 0.0 { ScaledGap(w, x - y, m); } else { ScaledGap(-w, x - y, m); }
    assert (x - y) * w == x * w - y * w;
  }

  lemma LinearRange(a: real, b: real, c: real, d: real, w0: real, w1: real, w2: real, w3: real, outer: real)
    requires Within(a, 255.0 * w0, 0.0) && Within(b, 0.0, 255.0 * w1) && Within(c, 0.0, 255.0 * w2)
    requires Within(d, 255.0 * w3, 0.0)
    requires w0 + w3 == -outer && w1 + w2 == 1.0 + outer
    ensures Within(a + b + c + d, -255.0 * outer, 255.0 + 255.0 * outer)
  {
  }

  // Four weighted pixels, the outer weights negative.
  lemma WeightedRange(p: Line, w0: real, w1: real, w2: real, w3: real, outer: real)
    requires Pixels(p) && w0 <= 0.0 && w3 <= 0.0 && w1 >= 0.0 && w2 >= 0.0
    requires w0 + w3 == -outer && w1 + w2 == 1.0 + outer
    ensures Within(Sum4(p, w0, w1, w2, w3), -255.0 * outer, 255.0 + 255.0 * outer)
  {
    Weighted(p.a, w0);
    Weighted(p.b, w1);
    Weighted(p.c, w2);
    Weighted(p.d, w3);
    LinearRange(p.a * w0, p.b * w1, p.c * w2, p.d * w3, w0, w1, w2, w3, outer);
    hide Within;
  }

  // One line of pixels: the interpolant leaves their range by no more than the outer weight.
  lemma LineRange(p: Line, s: real)
    requires Unit(s) && Pixels(p)
    ensures Within(Interpolate(p, s), -255.0 * Outer(s), 255.0 + 255.0 * Outer(s))
  {
    hide *;
    OuterWeights(s);
    InnerWeights(s);
    InterpolateIs(p, s);
    WeightedRange(p, W0(s), W1(s), W2(s), W3(s), Outer(s));
  }

  // Moving the outer weights inwards moves the weighted sum by what the outer values differ
  // from their neighbours.
  lemma Regrouped(r: Line, w0: real, w1: real, w2: real, w3: real)
    ensures Sum2(r.b, r.c, w0 + w1, w2 + w3) - Sum4(r, w0, w1, w2, w3)
      == (r.b * w0 - r.a * w0) + (r.c * w3 - r.d * w3)
  {
    Spread(r.b, w0, w1);
    Spread(r.c, w2, w3);
  }

  // Line values in a range of width span: the sum moves by at most span times the outer weight.
  lemma RegroupedGap(r: Line, lo: real, span: real, w0: real, w1: real, w2: real, w3: real, outer: real, gap: real)
    requires Within(r.a, lo, lo + span) && Within(r.b, lo, lo + span) && Within(r.c, lo, lo + span)
    requires Within(r.d, lo, lo + span)
    requires w0 <= 0.0 && w3 <= 0.0 && w0 + w3 == -outer && gap == span * outer
    ensures Within(Sum2(r.b, r.c, w0 + w1, w2 + w3) - Sum4(r, w0, w1, w2, w3), -gap, gap)
  {
    hide Sum2, Sum4;
    Regrouped(r, w0, w1, w2, w3);
    WeightedApart(r.b, r.a, w0, span);
    WeightedApart(r.c, r.d, w3, span);
    Spread(span, w0, w3);
    assert span * -outer == -(span * outer);
    AddWithin(r.b * w0 - r.a * w0, r.c * w3 - r.d * w3, -(span * w0), -(span * w3), gap);
  }

  lemma AddWithin(x: real, y: real, m: real, n: real, total: real)
    requires Within(x, -m, m) && Within(y, -n, n) && m + n <= total
    ensures Within(x + y, -total, total)
  {
  }

  lemma PixelsWithin(p: Line)
    requires Pixels(p)
    ensures Within(p.a, 0.0, 0.0 + 255.0) && Within(p.b, 0.0, 0.0 + 255.0) && Within(p.c, 0.0, 0.0 + 255.0)
    ensures Within(p.d, 0.0, 0.0 + 255.0)
  {
  }

  // One line: dropping the outer pixels changes the value by at most 255 times their weight.
  lemma LineDiffers(p: Line, s: real)
    requires Unit(s) && Pixels(p)
    ensures Within(Blend(p.b, p.c, s) - Interpolate(p, s), -(255.0 * Outer(s)), 255.0 * Outer(s))
  {
    hide *;
    OuterWeights(s);
    InterpolateIs(p, s);
    BlendIs(p.b, p.c, s);
    PixelsWithin(p);
    RegroupedGap(p, 0.0, 255.0, W0(s), W1(s), W2(s), W3(s), Outer(s), 255.0 * Outer(s));
  }

  lemma ScaledGap(a: real, x: real, m: real)
    requires a >= 0.0 && -m <= x <= m
    ensures -(a * m) <= a * x <= a * m
  {
    ProductNonNegative(a, m - x);
    ProductNonNegative(a, m + x);
  }

  // The row values lie in a range of this width.
  function Span(a: real): real { 255.0 + 510.0 * a }

  lemma SpanOfRow(x: real, a: real)
    requires Within(x, -255.0 * a, 255.0 + 255.0 * a)
    ensures Within(x, -255.0 * a, -255.0 * a + Span(a))
  {
  }

  lemma BlendGap(p: real, q: real, b: real, c: real, v: real, w: real, m: real)
    requires Within(p - b, -m, m) && Within(q - c, -m, m) && v >= 0.0 && w >= 0.0 && v + w == 1.0
    ensures Within(Sum2(p, q, v, w) - Sum2(b, c, v, w), -m, m)
  {
    hide Sum2;
    WeightedApart(p, b, v, m);
    WeightedApart(q, c, w, m);
    Spread(m, v, w);
    AddWithin(p * v - b * v, q * w - c * w, m * v, m * w, m);
    Sum2Differs(p, q, b, c, v, w);
  }

  lemma Sum2Differs(p: real, q: real, b: real, c: real, v: real, w: real)
    ensures Sum2(p, q, v, w) - Sum2(b, c, v, w) == (p * v - b * v) + (q * w - c * w)
  {
  }

  // 255 * 9 / 32
  const GAP: real := 71.71875

  lemma SmallProduct(a: real, o: real)
    requires 0.0 <= a <= 0.125 && 0.0 <= o <= 0.125
    ensures a * o <= 0.125 * a <= 0.015625
  {
    Scaled(a, o, 0.125);
  }

  lemma SpanTimes(a: real, o: real)
    ensures Span(a) * o == 255.0 * o + 510.0 * (a * o)
  {
  }

  lemma LinearTotal(a: real, o: real, p: real)
    requires a <= 0.125 && o <= 0.125 && p <= 0.015625
    ensures 255.0 * a + (255.0 * o + 510.0 * p) <= GAP
  {
  }

  lemma TotalGap(a: real, o: real)
    requires 0.0 <= a <= 0.125 && 0.0 <= o <= 0.125
    ensures 255.0 * a + Span(a) * o <= GAP
  {
    hide *;
    SmallProduct(a, o);
    SpanTimes(a, o);
    LinearTotal(a, o, a * o);
  }

  // For all offsets and pixels the two forms differ by at most 255 * 9 / 32 before clipping.
  lemma FormsDiffer(w: Window, s: real, t: real)
    requires Unit(s) && Unit(t) && Pixels(w.r0) && Pixels(w.r1) && Pixels(w.r2) && Pixels(w.r3)
    ensures Within(Approx(w, s, t) - Exact(w, s, t), -GAP, GAP)
  {
    hide *;
    var r, a, o := Rows(w, s), Outer(s), Outer(t);
    RowsWithin(w, s);
    OuterIsSmall(s);
    OuterIsSmall(t);
    OuterWeights(t);
    ApproxWeights(t);
    var p, q := Blend(w.r1.b, w.r1.c, s), Blend(w.r2.b, w.r2.c, s);
    BlendGap(p, q, r.b, r.c, V1(t), V2(t), 255.0 * a);
    var gap := Span(a) * o;
    RegroupedGap(r, -255.0 * a, Span(a), W0(t), W1(t), W2(t), W3(t), o, gap);
    ApproxIs(w, s, t);
    BlendIs(p, q, t);
    ExactIs(w, s, t);
    InterpolateIs(r, t);
    TotalGap(a, o);
    assert Sum2(r.b, r.c, V1(t), V2(t)) == Sum2(r.b, r.c, W0(t) + W1(t), W2(t) + W3(t));
    AddWithin(Sum2(p, q, V1(t), V2(t)) - Sum2(r.b, r.c, V1(t), V2(t)),
              Sum2(r.b, r.c, V1(t), V2(t)) - Sum4(r, W0(t), W1(t), W2(t), W3(t)),
              255.0 * a, gap, GAP);
  }

  // The bound cannot be lowered: between four black pixels with bright sides it is met.
  lemma BoundIsMet()
    ensures
      var (edge, side) := (Line(0.0, 255.0, 255.0, 0.0), Line(255.0, 0.0, 0.0, 255.0));
      Approx(Window(edge, side, side, edge), 0.5, 0.5) - Exact(Window(edge, side, side, edge), 0.5, 0.5) == GAP
  {
    var edge, side := Line(0.0, 255.0, 255.0, 0.0), Line(255.0, 0.0, 0.0, 255.0);
    var w := Window(edge, side, side, edge);
    ApproxIs(w, 0.5, 0.5);
    ExactIs(w, 0.5, 0.5);
    RowsAre(w, 0.5);
    hide Approx, Exact, Rows, Interpolate, Blend;
    MiddleOf(edge);
    MiddleOf(side);
    MiddleOf(Rows(w, 0.5));
    MiddleOf(Line(0.0, 0.0, 0.0, 0.0));
  }

  // At the middle of a line.
  lemma MiddleOf(p: Line)
    ensures Interpolate(p, 0.5) == 0.5625 * (p.b + p.c) - 0.0625 * (p.a + p.d)
    ensures Blend(p.b, p.c, 0.5) == 0.5 * (p.b + p.c)
  {
    hide *;
    HalfWeights(0.5);
    InterpolateIs(p, 0.5);
    BlendIs(p.b, p.c, 0.5);
    MiddleSums(p);
  }

  lemma MiddleSums(p: Line)
    ensures Sum4(p, -0.0625, 0.5625, 0.5625, -0.0625) == 0.5625 * (p.b + p.c) - 0.0625 * (p.a + p.d)
    ensures Sum2(p.b, p.c, 0.5, 0.5) == 0.5 * (p.b + p.c)
  {
  }

  lemma HalfWeights(s: real)
    requires s == 0.5
    ensures W0(s) == -0.0625 && W1(s) == 0.5625 && W2(s) == 0.5625 && W3(s) == -0.0625 && V1(s) == 0.5 && V2(s) == 0.5
  {
    assert s * s == 0.25;
    assert (2.0 - s) * s == 0.75 && (3.0 * s - 5.0) * s == -1.75;
    assert (4.0 - 3.0 * s) * s == 1.25 && (s - 1.0) * s == -0.25;
  }

  lemma RowsWithin(w: Window, s: real)
    requires Unit(s) && Pixels(w.r0) && Pixels(w.r1) && Pixels(w.r2) && Pixels(w.r3)
    ensures
      var r, lo, hi := Rows(w, s), -255.0 * Outer(s), -255.0 * Outer(s) + Span(Outer(s));
      Within(r.a, lo, hi) && Within(r.b, lo, hi) && Within(r.c, lo, hi) && Within(r.d, lo, hi)
    ensures Within(Blend(w.r1.b, w.r1.c, s) - Rows(w, s).b, -(255.0 * Outer(s)), 255.0 * Outer(s))
    ensures Within(Blend(w.r2.b, w.r2.c, s) - Rows(w, s).c, -(255.0 * Outer(s)), 255.0 * Outer(s))
  {
    hide *;
    RowsAre(w, s);
    LineRange(w.r0, s);
    LineRange(w.r1, s);
    LineRange(w.r2, s);
    LineRange(w.r3, s);
    SpanOfRow(Interpolate(w.r0, s), Outer(s));
    SpanOfRow(Interpolate(w.r1, s), Outer(s));
    SpanOfRow(Interpolate(w.r2, s), Outer(s));
    SpanOfRow(Interpolate(w.r3, s), Outer(s));
    LineDiffers(w.r1, s);
    LineDiffers(w.r2, s);
  }

  lemma RowsAre(w: Window, s: real)
    ensures Rows(w, s) == Line(Interpolate(w.r0, s), Interpolate(w.r1, s), Interpolate(w.r2, s), Interpolate(w.r3, s))
  {
  }

  lemma ApproxIs(w: Window, s: real, t: real)
    ensures Approx(w, s, t) == Blend(Blend(w.r1.b, w.r1.c, s), Blend(w.r2.b, w.r2.c, s), t)
  {
  }

  // ---------------------------------------------------------------- frames

  // The frame with its border of one pixel: three bytes a pixel, row after row.
  datatype Frame = Frame(width: nat, height: nat, bytes: seq<int>)

  function RowLength(f: Frame): nat { f.width + 2 }

  // The number of pixels before the given one in the extended frame.
  function PixelsBefore(f: Frame, row: nat, col: nat): nat { row * RowLength(f) + col }

  predicate WellFormed(f: Frame) {
    && |f.bytes| == PixelsBefore(f, f.height + 2, 0) * 3
    && forall k :: 0 <= k < |f.bytes| ==> 0 <= f.bytes[k] <= 255
  }

  predicate InFrame(f: Frame, left: int, top: int, channel: int) {
    WellFormed(f) && 0 <= left < f.width && 0 <= top < f.height && 0 <= channel < 3
  }

  // The byte offset that the source computes for the neighbour at distance (dr, dc).
  function Offset(f: Frame, left: int, top: int, dr: int, dc: int, channel: int): int {
    var loc := ((top + 1) * RowLength(f) + left + 1) * 3;
    loc + 3 * dr * RowLength(f) + 3 * dc + channel
  }

  // That offset counts pixels of three bytes; it is a pixel of the extended frame as long as
  // row and column are.
  lemma OffsetIsNeighbour(f: Frame, left: int, top: int, dr: int, dc: int, channel: int)
    requires InFrame(f, left, top, channel) && -1 <= dr <= 2 && -1 <= dc <= 2
    ensures Offset(f, left, top, dr, dc, channel) == PixelsBefore(f, top + 1 + dr, left + 1 + dc) * 3 + channel
    ensures top + 1 + dr < f.height + 2 && left + 1 + dc < RowLength(f) ==>
      0 <= Offset(f, left, top, dr, dc, channel) < |f.bytes|
  {
    var n, row := RowLength(f), top + 1 + dr;
    RowsBefore(top + 1, dr, n);
    MulNonNegative(row, n);
    if row < f.height + 2 { MulOrder(f.height + 2, row, n); }
  }

  lemma RowsBefore(top: int, dr: int, n: int)
    ensures (top + dr) * n == top * n + dr * n && 3 * dr * n == 3 * (dr * n)
  {
  }

  // To the right of the last column the window wraps around to the next row.
  lemma LastColumnWraps(f: Frame, top: int, dr: int, channel: int)
    requires InFrame(f, f.width - 1, top, channel) && -1 <= dr <= 2
    ensures Offset(f, f.width - 1, top, dr, 2, channel) == PixelsBefore(f, top + 2 + dr, 0) * 3 + channel
  {
    OffsetIsNeighbour(f, f.width - 1, top, dr, 2, channel);
    RowsBefore(top + 1 + dr, 1, RowLength(f));
  }

  // All sixteen reads are inside the extended frame.
  predicate ReadsFit(f: Frame, left: int, top: int, channel: int) {
    forall dr, dc :: -1 <= dr <= 2 && -1 <= dc <= 2 ==> 0 <= Offset(f, left, top, dr, dc, channel) < |f.bytes|
  }

  // Above the last row, and not in the corner where the last column meets the row above it.
  predicate Fits(f: Frame, left: int, top: int) {
    top < f.height - 1 && (left < f.width - 1 || top < f.height - 2)
  }

  // The window of a pixel stays in the extended frame exactly there.
  lemma ReadsFitIff(f: Frame, left: int, top: int, channel: int)
    requires InFrame(f, left, top, channel)
    ensures ReadsFit(f, left, top, channel) <==> Fits(f, left, top)
  {
    var n, last := RowLength(f), Offset(f, left, top, 2, 2, channel);
    OffsetIsNeighbour(f, left, top, 2, 2, channel);
    LastReadFitsIff(top + 3, left + 3, n, f.height + 2);
    forall dr, dc | -1 <= dr <= 2 && -1 <= dc <= 2
      ensures 0 <= Offset(f, left, top, dr, dc, channel) <= last
    {
      OffsetIsNeighbour(f, left, top, dr, dc, channel);
      RowOrder(top + 1 + dr, top + 3, n);
    }
  }

  lemma RowOrder(row: nat, last: nat, n: nat)
    requires row <= last
    ensures 0 <= row * n <= last * n
  {
    MulNonNegative(row, n);
    if row < last { MulOrder(last, row, n); }
  }

  // Whether the pixel in the given row and column, which may lie one beyond the end of its row,
  // is among those of the first `rows` rows.
  lemma LastReadFitsIff(row: nat, col: nat, n: nat, rows: nat)
    requires row <= rows && 0 < col <= n
    ensures row * n + col < rows * n <==> row < rows && (col < n || row + 1 < rows)
  {
    if row + 1 < rows {
      MulOrder(rows, row + 1, n);
      RowsBefore(row, 1, n);
    } else if row < rows {
      RowsBefore(row, 1, n);
    }
  }

  // Two frames with a coordinate that the source accepts and a read beyond their end: the last
  // row, and the last column in the row above it.
  lemma ReadsLeaveSmallFrames(last: Frame, corner: Frame)
    requires WellFormed(last) && last.width == 1 && last.height == 1
    requires WellFormed(corner) && corner.width == 1 && corner.height == 2
    ensures !Outside(last, 0.0, 0.0) && Offset(last, 0, 0, 2, 2, 0) > |last.bytes|
    ensures !Outside(corner, 0.0, 0.0) && Offset(corner, 0, 0, 2, 2, 0) == |corner.bytes|
  {
  }

  function Sample(f: Frame, left: int, top: int, dr: int, dc: int, channel: int): (p: real)
    requires WellFormed(f) && 0 <= Offset(f, left, top, dr, dc, channel) < |f.bytes|
    ensures 0.0 <= p <= 255.0
  {
    f.bytes[Offset(f, left, top, dr, dc, channel)] as real
  }

  function LineAt(f: Frame, left: int, top: int, dr: int, channel: int): (p: Line)
    requires WellFormed(f) && ReadsFit(f, left, top, channel) && -1 <= dr <= 2
    ensures Pixels(p)
  {
    Line(Sample(f, left, top, dr, -1, channel), Sample(f, left, top, dr, 0, channel),
         Sample(f, left, top, dr, 1, channel), Sample(f, left, top, dr, 2, channel))
  }

  function WindowAt(f: Frame, left: int, top: int, channel: int): Window
    requires WellFormed(f) && ReadsFit(f, left, top, channel)
  {
    Window(LineAt(f, left, top, -1, channel), LineAt(f, left, top, 0, channel),
           LineAt(f, left, top, 1, channel), LineAt(f, left, top, 2, channel))
  }

  // The four reads of the approximate form; they are inside the extended frame for every pixel.
  function Corners(f: Frame, left: int, top: int, channel: int): (w: Window)
    requires InFrame(f, left, top, channel)
    ensures Pixels(w.r1) && Pixels(w.r2)
  {
    OffsetIsNeighbour(f, left, top, 0, 0, channel);
    OffsetIsNeighbour(f, left, top, 0, 1, channel);
    OffsetIsNeighbour(f, left, top, 1, 0, channel);
    OffsetIsNeighbour(f, left, top, 1, 1, channel);
    var unread := Line(0.0, 0.0, 0.0, 0.0);
    Window(unread,
           Line(0.0, Sample(f, left, top, 0, 0, channel), Sample(f, left, top, 0, 1, channel), 0.0),
           Line(0.0, Sample(f, left, top, 1, 0, channel), Sample(f, left, top, 1, 1, channel), 0.0),
           unread)
  }

  // ---------------------------------------------------------------- which pixels these are

  // The pixel dr rows below and dc columns to the right of the given one. Rows and columns count
  // from the frame's own first pixel, behind its border; one column beyond the border is the
  // first of the next row.
  predicate HasPixel(f: Frame, row: int, col: int, dr: int, dc: int, channel: int) {
    row + dr >= -1 && col + dc >= -1 && 0 <= PixelsBefore(f, row + 1 + dr, col + 1 + dc) * 3 + channel < |f.bytes|
  }

  function Pixel(f: Frame, row: int, col: int, dr: int, dc: int, channel: int): real
    requires HasPixel(f, row, col, dr, dc, channel)
  {
    f.bytes[PixelsBefore(f, row + 1 + dr, col + 1 + dc) * 3 + channel] as real
  }

  function Entry(p: Line, dc: int): real
    requires -1 <= dc <= 2
  {
    if dc == -1 then p.a else if dc == 0 then p.b else if dc == 1 then p.c else p.d
  }

  function Row(w: Window, dr: int): Line
    requires -1 <= dr <= 2
  {
    if dr == -1 then w.r0 else if dr == 0 then w.r1 else if dr == 1 then w.r2 else w.r3
  }

  lemma SampleIsPixel(f: Frame, left: int, top: int, dr: int, dc: int, channel: int)
    requires InFrame(f, left, top, channel) && -1 <= dr <= 2 && -1 <= dc <= 2
    ensures HasPixel(f, top, left, dr, dc, channel) <==> 0 <= Offset(f, left, top, dr, dc, channel) < |f.bytes|
    ensures HasPixel(f, top, left, dr, dc, channel) ==>
      Sample(f, left, top, dr, dc, channel) == Pixel(f, top, left, dr, dc, channel)
  {
    OffsetIsNeighbour(f, left, top, dr, dc, channel);
    hide Offset, PixelsBefore;
  }

  /** Row dr and column dc of the window hold the pixel dr rows below and dc columns to the right. */
  lemma WindowHoldsPixels(f: Frame, left: int, top: int, channel: int, dr: int, dc: int)
    requires InFrame(f, left, top, channel) && ReadsFit(f, left, top, channel) && -1 <= dr <= 2 && -1 <= dc <= 2
    ensures HasPixel(f, top, left, dr, dc, channel)
    ensures Entry(Row(WindowAt(f, left, top, channel), dr), dc) == Pixel(f, top, left, dr, dc, channel)
  {
    SampleIsPixel(f, left, top, dr, dc, channel);
    hide Offset, PixelsBefore, Sample, HasPixel, Pixel;
  }

  lemma CornersHoldPixels(f: Frame, left: int, top: int, channel: int, dr: int, dc: int)
    requires InFrame(f, left, top, channel) && 0 <= dr <= 1 && 0 <= dc <= 1
    ensures HasPixel(f, top, left, dr, dc, channel)
    ensures Entry(Row(Corners(f, left, top, channel), dr), dc) == Pixel(f, top, left, dr, dc, channel)
  {
    OffsetIsNeighbour(f, left, top, dr, dc, channel);
    SampleIsPixel(f, left, top, dr, dc, channel);
    hide Offset, PixelsBefore, Sample, HasPixel, Pixel;
  }

  // A pixel, the one above it and the two below it.
  predicate HasColumn(f: Frame, row: int, col: int, channel: int) {
    forall dr :: -1 <= dr <= 2 ==> HasPixel(f, row, col, dr, 0, channel)
  }

  function ColumnAt(f: Frame, row: int, col: int, channel: int): Line
    requires HasColumn(f, row, col, channel)
  {
    Line(Pixel(f, row, col, -1, 0, channel), Pixel(f, row, col, 0, 0, channel),
         Pixel(f, row, col, 1, 0, channel), Pixel(f, row, col, 2, 0, channel))
  }

  // ---------------------------------------------------------------- bytes

  // Conversion of a double to int: truncation towards zero.
  function Truncate(x: real): (n: int)
    ensures x >= 0.0 ==> n as real <= x < n as real + 1.0
    ensures x <= 0.0 ==> n as real - 1.0 < x <= n as real
  {
    if x >= 0.0 then x.Floor else -((-x).Floor)
  }

  function Distance(x: int, y: int): nat { if x < y then y - x else x - y }

  function Clip(x: int, a: int, b: int): (r: int)
    requires a <= b
    ensures a <= r <= b && forall y :: a <= y <= b ==> Distance(x, r) <= Distance(x, y)
  {
    if x < a then a else if x > b then b else x
  }

  predicate Outside(f: Frame, u: real, v: real) {
    u < 0.0 || u > (f.width - 1) as real || v < 0.0 || v > (f.height - 1) as real
  }

  // Coordinates in the frame, in all of the frame's last row and column.
  lemma FloorInFrame(f: Frame, u: real, v: real, channel: int)
    requires WellFormed(f) && !Outside(f, u, v) && 0 <= channel < 3
    ensures InFrame(f, u.Floor, v.Floor, channel)
    ensures Unit(u - u.Floor as real) && Unit(v - v.Floor as real)
    ensures u.Floor == f.width - 1 ==> u - u.Floor as real == 0.0
  {
  }

  predicate Readable(f: Frame, u: real, v: real, channel: int) {
    WellFormed(f) && 0 <= channel < 3 && (Outside(f, u, v) || ReadsFit(f, u.Floor, v.Floor, channel))
  }

  function BicubicInterpolation(f: Frame, u: real, v: real, channel: int): (val: int)
    requires Readable(f, u, v, channel)
    ensures 0 <= val <= 255
    ensures u < 0.0 || u > f.width as real - 1.0 || v < 0.0 || v > f.height as real - 1.0 ==> val == 0
  {
    if Outside(f, u, v) then 0
    else Clip(Truncate(Exact(WindowAt(f, u.Floor, v.Floor, channel), u - u.Floor as real, v - v.Floor as real)), 0, 255)
  }

  function BicubicInterpolationApprox(f: Frame, u: real, v: real, channel: int): (val: int)
    requires WellFormed(f) && 0 <= channel < 3
    ensures 0 <= val <= 255
    ensures u < 0.0 || u > f.width as real - 1.0 || v < 0.0 || v > f.height as real - 1.0 ==> val == 0
  {
    if Outside(f, u, v) then 0
    else
      FloorInFrame(f, u, v, channel);
      Clip(Truncate(Approx(Corners(f, u.Floor, v.Floor, channel), u - u.Floor as real, v - v.Floor as real)), 0, 255)
  }

  lemma TruncateApart(x: real, y: real)
    requires Within(x - y, -GAP, GAP)
    ensures -72 <= Truncate(x) - Truncate(y) <= 72
  {
  }

  lemma ClipApart(x: int, y: int, m: int)
    requires -m <= x - y <= m
    ensures -m <= Clip(x, 0, 255) - Clip(y, 0, 255) <= m
  {
  }

  lemma SameCorners(w: Window, c: Window, s: real, t: real)
    requires w.r1.b == c.r1.b && w.r1.c == c.r1.c && w.r2.b == c.r2.b && w.r2.c == c.r2.c
    ensures Approx(w, s, t) == Approx(c, s, t)
  {
    hide Blend;
  }

  lemma CornersOfWindow(f: Frame, left: int, top: int, channel: int, s: real, t: real)
    requires InFrame(f, left, top, channel) && ReadsFit(f, left, top, channel)
    ensures Approx(WindowAt(f, left, top, channel), s, t) == Approx(Corners(f, left, top, channel), s, t)
    ensures
      var w := WindowAt(f, left, top, channel);
      Pixels(w.r0) && Pixels(w.r1) && Pixels(w.r2) && Pixels(w.r3)
  {
    SameCorners(WindowAt(f, left, top, channel), Corners(f, left, top, channel), s, t);
    hide Approx, Offset, Sample;
  }

  // Wherever the sixteen reads stay in the frame, the bytes of the two forms differ by at most 72.
  lemma BytesDiffer(f: Frame, u: real, v: real, channel: int)
    requires Readable(f, u, v, channel)
    ensures -72 <= BicubicInterpolationApprox(f, u, v, channel) - BicubicInterpolation(f, u, v, channel) <= 72
  {
    if !Outside(f, u, v) {
      var left, top, s, t := u.Floor, v.Floor, u - u.Floor as real, v - v.Floor as real;
      FloorInFrame(f, u, v, channel);
      var w, c := WindowAt(f, left, top, channel), Corners(f, left, top, channel);
      CornersOfWindow(f, left, top, channel, s, t);
      FormsDiffer(w, s, t);
      TruncateApart(Approx(c, s, t), Exact(w, s, t));
      ClipApart(Truncate(Approx(c, s, t)), Truncate(Exact(w, s, t)), 72);
      hide Exact, Approx, Sample, Clip, Truncate, Within, Corners, WindowAt, ReadsFit, Offset;
    }
  }

  lemma ClipBetween(x: real, lo: int, hi: int)
    requires 0 <= lo && hi <= 255 && lo as real <= x <= hi as real
    ensures lo <= Clip(Truncate(x), 0, 255) <= hi
  {
  }

  // The pixel that holds the coordinates and its neighbours to the right and below.
  predicate FourWithin(f: Frame, row: int, col: int, channel: int, lo: int, hi: int) {
    forall dr, dc :: 0 <= dr <= 1 && 0 <= dc <= 1 ==>
      HasPixel(f, row, col, dr, dc, channel) && lo as real <= Pixel(f, row, col, dr, dc, channel) <= hi as real
  }

  lemma CornersWithin(f: Frame, left: int, top: int, channel: int, lo: int, hi: int)
    requires InFrame(f, left, top, channel) && FourWithin(f, top, left, channel, lo, hi)
    ensures var w := Corners(f, left, top, channel);
            && Within(w.r1.b, lo as real, hi as real) && Within(w.r1.c, lo as real, hi as real)
            && Within(w.r2.b, lo as real, hi as real) && Within(w.r2.c, lo as real, hi as real)
  {
    CornersHoldPixels(f, left, top, channel, 0, 0);
    CornersHoldPixels(f, left, top, channel, 0, 1);
    CornersHoldPixels(f, left, top, channel, 1, 0);
    CornersHoldPixels(f, left, top, channel, 1, 1);
    hide Corners, Pixel, HasPixel;
  }

  // The approximate byte lies between the least and the greatest of the four pixels around the
  // coordinates, so that clipping never changes it, everywhere in the frame.
  lemma ApproxByteIsBetween(f: Frame, u: real, v: real, channel: int, lo: int, hi: int)
    requires WellFormed(f) && 0 <= channel < 3 && !Outside(f, u, v) && 0 <= lo && hi <= 255
    requires FourWithin(f, v.Floor, u.Floor, channel, lo, hi)
    ensures lo <= BicubicInterpolationApprox(f, u, v, channel) <= hi
  {
    FloorInFrame(f, u, v, channel);
    CornersWithin(f, u.Floor, v.Floor, channel, lo, hi);
    var w, s, t := Corners(f, u.Floor, v.Floor, channel), u - u.Floor as real, v - v.Floor as real;
    hide FourWithin, InFrame, WellFormed;
    ApproxIsConvex(w, s, t, lo as real, hi as real);
    ClipBetween(Approx(w, s, t), lo, hi);
    hide Approx, Corners, Clip, Truncate;
  }

  // Where a row is level between two columns it does not matter how far between them.
  lemma BlendOfEqual(b: real, s: real)
    requires Unit(s)
    ensures Blend(b, b, s) == b
  {
    ApproxWeights(s);
    hide V1, V2;
    assert b * V1(s) + b * V2(s) == b * (V1(s) + V2(s));
  }

  // The pixel and its right neighbour, in row dr, have the value p; so have those in column dc.
  predicate LevelRow(f: Frame, row: int, col: int, dr: int, channel: int, p: real) {
    forall dc :: 0 <= dc <= 1 ==> HasPixel(f, row, col, dr, dc, channel) && Pixel(f, row, col, dr, dc, channel) == p
  }

  predicate LevelColumn(f: Frame, row: int, col: int, dc: int, channel: int, p: real) {
    forall dr :: 0 <= dr <= 1 ==> HasPixel(f, row, col, dr, dc, channel) && Pixel(f, row, col, dr, dc, channel) == p
  }

  lemma LevelCorners(f: Frame, left: int, top: int, channel: int, p: real, q: real)
    requires InFrame(f, left, top, channel)
    ensures LevelRow(f, top, left, 0, channel, p) && LevelRow(f, top, left, 1, channel, q) ==>
      var w := Corners(f, left, top, channel); w.r1.b == w.r1.c == p && w.r2.b == w.r2.c == q
    ensures LevelColumn(f, top, left, 0, channel, p) && LevelColumn(f, top, left, 1, channel, q) ==>
      var w := Corners(f, left, top, channel); w.r1.b == w.r2.b == p && w.r1.c == w.r2.c == q
  {
    CornersHoldPixels(f, left, top, channel, 0, 0);
    CornersHoldPixels(f, left, top, channel, 0, 1);
    CornersHoldPixels(f, left, top, channel, 1, 0);
    CornersHoldPixels(f, left, top, channel, 1, 1);
    hide Corners, Pixel, HasPixel, InFrame;
  }

  // Both rows level: the byte is their blend over the distance down, whatever the one across.
  lemma LevelRows(f: Frame, u: real, v: real, channel: int, p: real, q: real)
    requires WellFormed(f) && 0 <= channel < 3 && !Outside(f, u, v)
    requires LevelRow(f, v.Floor, u.Floor, 0, channel, p) && LevelRow(f, v.Floor, u.Floor, 1, channel, q)
    ensures BicubicInterpolationApprox(f, u, v, channel) == Clip(Truncate(Blend(p, q, v - v.Floor as real)), 0, 255)
  {
    FloorInFrame(f, u, v, channel);
    LevelCorners(f, u.Floor, v.Floor, channel, p, q);
    BlendOfEqual(p, u - u.Floor as real);
    BlendOfEqual(q, u - u.Floor as real);
    hide Corners, LevelRow, LevelColumn, Blend, Clip, Truncate, InFrame, WellFormed;
  }

  // Both columns level: the byte is their blend over the distance across.
  lemma LevelColumns(f: Frame, u: real, v: real, channel: int, p: real, q: real)
    requires WellFormed(f) && 0 <= channel < 3 && !Outside(f, u, v)
    requires LevelColumn(f, v.Floor, u.Floor, 0, channel, p) && LevelColumn(f, v.Floor, u.Floor, 1, channel, q)
    ensures BicubicInterpolationApprox(f, u, v, channel) == Clip(Truncate(Blend(p, q, u - u.Floor as real)), 0, 255)
  {
    FloorInFrame(f, u, v, channel);
    LevelCorners(f, u.Floor, v.Floor, channel, p, q);
    BlendOfEqual(Blend(p, q, u - u.Floor as real), v - v.Floor as real);
    hide Corners, LevelRow, LevelColumn, Blend, Clip, Truncate, InFrame, WellFormed;
  }

  // The frame around a pixel holds the values of a surface at whole distances from it.
  predicate HoldsSurface(f: Frame, row: int, col: int, channel: int, q: Surface) {
    forall dr, dc :: -1 <= dr <= 2 && -1 <= dc <= 2 && HasPixel(f, row, col, dr, dc, channel) ==>
      Pixel(f, row, col, dr, dc, channel) == ValueAt(q, dc as real, dr as real)
  }

  lemma GridEntry(q: Surface, dr: int, dc: int)
    requires -1 <= dr <= 2 && -1 <= dc <= 2
    ensures Entry(Row(Grid(q), dr), dc) == ValueAt(q, dc as real, dr as real)
  {
    hide At, RowAt;
  }

  lemma SameEntries(w: Window, z: Window)
    requires forall dr, dc :: -1 <= dr <= 2 && -1 <= dc <= 2 ==> Entry(Row(w, dr), dc) == Entry(Row(z, dr), dc)
    ensures w == z
  {
    forall dr | -1 <= dr <= 2 ensures Row(w, dr) == Row(z, dr) {
      assert Entry(Row(w, dr), -1) == Entry(Row(z, dr), -1) && Entry(Row(w, dr), 0) == Entry(Row(z, dr), 0);
      assert Entry(Row(w, dr), 1) == Entry(Row(z, dr), 1) && Entry(Row(w, dr), 2) == Entry(Row(z, dr), 2);
    }
    assert Row(w, -1) == Row(z, -1) && Row(w, 0) == Row(z, 0) && Row(w, 1) == Row(z, 1) && Row(w, 2) == Row(z, 2);
  }

  // Where the frame holds a polynomial of degree at most two in each direction, the exact byte is
  // its value at the coordinates, across for u and down for v, cut off and clipped.
  lemma ReproducesQuadraticFrames(f: Frame, u: real, v: real, channel: int, q: Surface)
    requires Readable(f, u, v, channel) && !Outside(f, u, v)
    requires HoldsSurface(f, v.Floor, u.Floor, channel, q)
    ensures BicubicInterpolation(f, u, v, channel)
      == Clip(Truncate(ValueAt(q, u - u.Floor as real, v - v.Floor as real)), 0, 255)
  {
    FloorInFrame(f, u, v, channel);
    var w := WindowAt(f, u.Floor, v.Floor, channel);
    forall dr, dc | -1 <= dr <= 2 && -1 <= dc <= 2
      ensures Entry(Row(w, dr), dc) == Entry(Row(Grid(q), dr), dc)
    {
      WindowHoldsPixels(f, u.Floor, v.Floor, channel, dr, dc);
      GridEntry(q, dr, dc);
    }
    SameEntries(w, Grid(q));
    ReproducesQuadratics(q, u - u.Floor as real, v - v.Floor as real);
    hide WindowAt, Pixel, HasPixel, Exact, ValueAt, Grid, Clip, Truncate, InFrame, WellFormed, ReadsFit, HoldsSurface;
  }

  // ---------------------------------------------------------------- whole coordinates

  lemma WeightsAtZero(s: real)
    requires s == 0.0
    ensures W0(s) == 0.0 && W1(s) == 1.0 && W2(s) == 0.0 && W3(s) == 0.0 && V1(s) == 1.0 && V2(s) == 0.0
  {
    TimesZero((2.0 - s) * s - 1.0, s);
    TimesZero((3.0 * s - 5.0) * s, s);
    TimesZero((4.0 - 3.0 * s) * s + 1.0, s);
    TimesZero((s - 1.0) * s, s);
  }

  lemma TimesZero(a: real, s: real)
    requires s == 0.0
    ensures a * s == 0.0
  {
  }

  lemma SumsOfOne(p: Line)
    ensures Sum4(p, 0.0, 1.0, 0.0, 0.0) == p.b && Sum2(p.b, p.c, 1.0, 0.0) == p.b
  {
  }

  // At offset zero a line's value is its second pixel, whatever the others are.
  lemma LineAtPixel(p: Line)
    ensures Interpolate(p, 0.0) == p.b && Blend(p.b, p.c, 0.0) == p.b
  {
    hide *;
    WeightsAtZero(0.0);
    InterpolateIs(p, 0.0);
    BlendIs(p.b, p.c, 0.0);
    SumsOfOne(p);
  }

  lemma RowsAtPixel(w: Window)
    ensures Rows(w, 0.0) == Line(w.r0.b, w.r1.b, w.r2.b, w.r3.b)
  {
    hide *;
    RowsAre(w, 0.0);
    LineAtPixel(w.r0);
    LineAtPixel(w.r1);
    LineAtPixel(w.r2);
    LineAtPixel(w.r3);
  }

  lemma ExactAtPixel(w: Window)
    ensures Exact(w, 0.0, 0.0) == w.r1.b
  {
    hide *;
    ExactIs(w, 0.0, 0.0);
    RowsAtPixel(w);
    LineAtPixel(Rows(w, 0.0));
  }

  lemma ApproxAtPixel(w: Window)
    ensures Approx(w, 0.0, 0.0) == w.r1.b
  {
    hide *;
    ApproxIs(w, 0.0, 0.0);
    LineAtPixel(w.r1);
    LineAtPixel(w.r2);
    LineAtPixel(Line(0.0, w.r1.b, w.r2.b, 0.0));
  }

  // On the last column the value is that of the four pixels above each other: the bytes that the
  // window reads from the next row have weight zero.
  lemma LastColumnIgnoresTheWrap(f: Frame, v: real, channel: int)
    requires WellFormed(f) && 0 <= channel < 3 && !Outside(f, (f.width - 1) as real, v)
    requires ReadsFit(f, f.width - 1, v.Floor, channel)
    ensures Readable(f, (f.width - 1) as real, v, channel)
    ensures HasColumn(f, v.Floor, f.width - 1, channel)
    ensures BicubicInterpolation(f, (f.width - 1) as real, v, channel)
      == Clip(Truncate(Interpolate(ColumnAt(f, v.Floor, f.width - 1, channel), v - v.Floor as real)), 0, 255)
  {
    FloorOfWhole(f.width - 1);
    FloorInFrame(f, (f.width - 1) as real, v, channel);
    var w := WindowAt(f, f.width - 1, v.Floor, channel);
    WindowHoldsColumn(f, f.width - 1, v.Floor, channel);
    hide Exact, Rows, Interpolate, WindowAt, Clip, Truncate, ReadsFit, HasColumn, ColumnAt, WellFormed, InFrame;
    ExactIs(w, 0.0, v - v.Floor as real);
    RowsAtPixel(w);
  }

  lemma WindowHoldsColumn(f: Frame, left: int, top: int, channel: int)
    requires InFrame(f, left, top, channel) && ReadsFit(f, left, top, channel)
    ensures HasColumn(f, top, left, channel)
    ensures var w := WindowAt(f, left, top, channel);
            ColumnAt(f, top, left, channel) == Line(w.r0.b, w.r1.b, w.r2.b, w.r3.b)
  {
    hide WindowAt, Pixel, HasPixel, ReadsFit;
    var w := WindowAt(f, left, top, channel);
    forall dr | -1 <= dr <= 2
      ensures HasPixel(f, top, left, dr, 0, channel) && Entry(Row(w, dr), 0) == Pixel(f, top, left, dr, 0, channel)
    {
      WindowHoldsPixels(f, left, top, channel, dr, 0);
    }
    assert w.r0.b == Entry(Row(w, -1), 0) && w.r1.b == Entry(Row(w, 0), 0);
    assert w.r2.b == Entry(Row(w, 1), 0) && w.r3.b == Entry(Row(w, 2), 0);
  }

  lemma FloorOfWhole(k: int)
    ensures (k as real).Floor == k
  {
  }

  lemma ClipOfByte(k: int)
    requires 0 <= k <= 255
    ensures Clip(Truncate(k as real), 0, 255) == k
  {
  }

  // On every pixel of the frame the approximate form returns that pixel, and so does the exact
  // one wherever its reads stay in the frame.
  lemma PixelsAreKept(f: Frame, col: nat, row: nat, channel: int)
    requires InFrame(f, col, row, channel)
    ensures 0 <= PixelsBefore(f, row + 1, col + 1) * 3 + channel < |f.bytes|
    ensures BicubicInterpolationApprox(f, col as real, row as real, channel)
      == f.bytes[PixelsBefore(f, row + 1, col + 1) * 3 + channel]
    ensures Readable(f, col as real, row as real, channel) <==> ReadsFit(f, col, row, channel)
    ensures Readable(f, col as real, row as real, channel) ==>
      BicubicInterpolation(f, col as real, row as real, channel)
      == f.bytes[PixelsBefore(f, row + 1, col + 1) * 3 + channel]
  {
    OffsetIsNeighbour(f, col, row, 0, 0, channel);
    FloorOfWhole(col);
    FloorOfWhole(row);
    ApproxAtPixel(Corners(f, col, row, channel));
    ClipOfByte(f.bytes[PixelsBefore(f, row + 1, col + 1) * 3 + channel]);
    if ReadsFit(f, col, row, channel) {
      ExactAtPixel(WindowAt(f, col, row, channel));
    }
    hide Exact, Approx, Offset, PixelsBefore, Clip, Truncate, ReadsFit;
  }
}
