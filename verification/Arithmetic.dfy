/** Facts about products and floor division of naturals. */
module Arithmetic {

  lemma MulLe(a: nat, b: nat, c: nat)
    requires a <= b
    ensures a * c <= b * c
  {
  }

  lemma MulLt(a: nat, b: nat, c: nat)
    requires a < b && c > 0
    ensures a * c < b * c
  {
  }

  lemma MulCancel(a: nat, b: nat, c: nat)
    requires c > 0 && a * c <= b * c
    ensures a <= b
  {
    if b < a {
      MulLt(b, a, c);
    }
  }

  lemma DivideBounds(n: nat, d: nat)
    requires d > 0
    ensures 0 <= n / d && d * (n / d) <= n < d * (n / d) + d
  {
  }

  /** Floor division is the adjoint of multiplication. */
  lemma FloorIff(n: nat, d: nat, x: nat)
    requires d > 0
    ensures x <= n / d <==> x * d <= n
  {
    DivideBounds(n, d);
    if x <= n / d {
      MulLe(x, n / d, d);
    } else {
      MulLe(n / d + 1, x, d);
    }
  }
}
