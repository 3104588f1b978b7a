/** Facts about multiplication and integer division used by the layout and id arithmetic. */
module Arithmetic {
  lemma MulLe(a: nat, b: nat, c: nat)
    requires a <= b
    ensures a * c <= b * c
  {
    assert b * c - a * c == (b - a) * c;
  }

  lemma MulSucc(a: nat, b: nat)
    ensures (a + 1) * b == a * b + b
  {
  }

  /** Quotient and remainder are unique. */
  lemma DivUnique(k: nat, cols: nat, r: nat, c: nat)
    requires cols >= 1 && c < cols && r * cols + c == k
    ensures r == k / cols && c == k % cols
  {
    var q := k / cols;
    var m := k % cols;
    assert k == q * cols + m;
    if r > q {
      MulLe(q + 1, r, cols);
      MulSucc(q, cols);
      assert false;
    } else if r < q {
      MulLe(r + 1, q, cols);
      MulSucc(r, cols);
      assert false;
    }
  }

  lemma DivPlus(x: nat, d: nat)
    requires d >= 1
    ensures (x + d) / d == x / d + 1
  {
    MulSucc(x / d, d);
    DivUnique(x + d, d, x / d + 1, x % d);
  }

  /** Whole multiples of the divisor pass through the division. */
  lemma DivAddMul(q: nat, a: nat, d: nat)
    requires d >= 1
    ensures (d * q + a) / d == q + a / d
  {
    assert (q + a / d) * d == q * d + (a / d) * d;
    DivUnique(d * q + a, d, q + a / d, a % d);
  }
}
