/** Facts about multiplication and division that the solver needs spelled out. */
module Arithmetic {

  lemma MulAtLeast(a: int, d: int)
    requires a >= 1 && d >= 0
    ensures a * d >= d
  {
    assert a * d == (a - 1) * d + d;
    MulNonNegative(a - 1, d);
  }

  lemma MulNonNegative(a: int, d: int)
    requires a >= 0 && d >= 0
    ensures a * d >= 0
  {
  }

  lemma MulOrder(q: int, p: int, d: int)
    requires q > p && d >= 0
    ensures q * d >= p * d + d
  {
    MulAtLeast(q - p, d);
    assert q * d == p * d + (q - p) * d;
  }

  // Quotient and remainder are determined by n == q * d + r with 0 <= r < d.
  lemma DivModUnique(n: nat, d: nat, q: nat, r: nat)
    requires d > 0 && r < d && n == q * d + r
    ensures n / d == q && n % d == r
  {
    var p := n / d;
    assert n == p * d + n % d;
    if q > p { MulOrder(q, p, d); }
    if q < p { MulOrder(p, q, d); }
  }

  lemma NextDivMod(n: nat, d: nat)
    requires d > 0
    ensures if n % d == d - 1 then (n + 1) / d == n / d + 1 && (n + 1) % d == 0
            else (n + 1) / d == n / d && (n + 1) % d == n % d + 1
  {
    var q, r := n / d, n % d;
    assert n == q * d + r;
    if r == d - 1 {
      assert (q + 1) * d == q * d + d;
      DivModUnique(n + 1, d, q + 1, 0);
    } else {
      DivModUnique(n + 1, d, q, r + 1);
    }
  }

  // Counting modulo d: the remainder as a function, so that proofs can keep it folded.
  function Mod(n: nat, d: nat): (r: nat)
    requires d > 0
    ensures r < d
  {
    n % d
  }

  lemma ModNext(n: nat, d: nat)
    requires d > 0
    ensures (Mod(n, d) + 1) % d == Mod(n + 1, d)
  {
    NextDivMod(n, d);
    if n % d == d - 1 { DivModUnique(d, d, 1, 0); }
    else { DivModUnique(n % d + 1, d, 0, n % d + 1); }
  }
}
