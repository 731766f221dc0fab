/** Products, quotients and remainders with a variable factor, and byte casts. */
module Arithmetic {

  function Min(a: nat, b: nat): nat {
    if a < b then a else b
  }

  lemma {:induction false} MulStep(a: nat, b: nat, n: nat)
    requires a < b
    ensures a * n + n <= b * n
    decreases b
  {
    if a + 1 < b {
      MulStep(a, b - 1, n);
      assert b * n == (b - 1) * n + n;
    } else {
      assert b * n == a * n + n;
    }
  }

  lemma MulAdd(a: nat, b: nat, n: nat)
    ensures (a + b) * n == a * n + b * n
  {
  }

  lemma DivMod(x: nat, n: nat)
    requires n > 0
    ensures x == (x / n) * n + x % n && 0 <= x % n < n
  {
  }

  lemma {:induction false} DivModUnique(x: nat, n: nat, q: nat, r: nat)
    requires n > 0 && r < n && x == q * n + r
    ensures x / n == q && x % n == r
  {
    DivMod(x, n);
    var q', r' := x / n, x % n;
    if q' > q {
      MulStep(q, q', n);
    } else if q' < q {
      MulStep(q', q, n);
    }
  }

  function Pow2(n: nat): (p: nat)
    ensures p > 0
  {
    if n == 0 then 1 else 2 * Pow2(n - 1)
  }

  // The byte reached from 0 in n increments.
  function ByteAfter(n: nat): bv8 {
    if n == 0 then 0 else ByteAfter(n - 1) + 1
  }

  lemma {:induction false} ByteAfterValue(n: nat)
    requires n < 256
    ensures ByteAfter(n) as nat == n
  {
    if n > 0 {
      ByteAfterValue(n - 1);
    }
  }

  lemma ByteCast(n: nat)
    requires n < 256
    ensures (n as bv8) as nat == n
  {
    ByteAfterValue(n);
    assert (ByteAfter(n) as nat) as bv8 == ByteAfter(n);
  }
}
