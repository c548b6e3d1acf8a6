/** Exact prices as integer ratios in canonical form. */
module RationalPrice {
  import opened Arithmetic
  import Decimal

  function Gcd(a: nat, b: nat): (g: nat)
    ensures a > 0 || b > 0 ==> g > 0
    decreases b
  {
    if b == 0 then a else Gcd(b, a % b)
  }

  /** Two decimal strings, as the price is serialised. */
  datatype Price = Price(numerator: string, denominator: string)

  function New(numerator: nat, denominator: nat): Price
    requires denominator > 0
  {
    var g := Gcd(numerator, denominator);
    Price(Decimal.Natural(numerator / g), Decimal.Natural(denominator / g))
  }

  // ---------- what gcd is ----------

  /** The gcd divides both arguments and is a combination of them. */
  lemma {:induction false} GcdBezout(a: nat, b: nat) returns (p: int, q: int, x: int, y: int)
    ensures a == Gcd(a, b) * p && b == Gcd(a, b) * q
    ensures Gcd(a, b) == a * x + b * y
    decreases b
  {
    if b == 0 {
      p, q, x, y := 1, 0, 1, 0;
    } else {
      var g, k, r := Gcd(a, b), a / b, a % b;
      var p', q', x', y' := GcdBezout(b, r);
      assert a == b * k + r;
      Combine(g, p', q', k);
      p, q := p' * k + q', p';
      Rearrange(a, b, k, r, x', y');
      x, y := y', x' - k * y';
    }
  }

  lemma Combine(g: int, p: int, q: int, k: int)
    ensures (g * p) * k + g * q == g * (p * k + q)
  {
  }

  lemma Rearrange(a: int, b: int, k: int, r: int, x: int, y: int)
    requires a == b * k + r
    ensures b * x + r * y == a * y + b * (x - k * y)
  {
    assert r * y == a * y - (b * k) * y;
    assert b * (x - k * y) == b * x - b * (k * y);
    assert (b * k) * y == b * (k * y);
  }

  // ---------- lowest terms ----------

  /** No common divisor but one, witnessed by a combination. */
  ghost predicate Coprime(a: int, b: int) {
    exists x: int, y: int :: a * x + b * y == 1
  }

  lemma CancelFactor(g: nat, m: int, n: int)
    requires g > 0 && g * m == g * n
    ensures m == n
  {
    assert g * (n - m) == 0;
    ProductSign(g, n - m);
  }

  lemma ProductSign(g: nat, k: int)
    requires g > 0
    ensures g * k > 0 <==> k > 0
    ensures g * k < 0 <==> k < 0
  {
  }

  lemma Reduced(a: nat, b: nat) returns (m: nat, n: nat)
    requires b > 0
    ensures var g := Gcd(a, b); g > 0 && a / g == m && b / g == n && a == g * m && b == g * n
    ensures n > 0 && Coprime(m, n)
  {
    var g := Gcd(a, b);
    var p, q, x, y := GcdBezout(a, b);
    Quotient(g, a, p);
    Quotient(g, b, q);
    m, n := p, q;
    assert g * (m * x + n * y) == g * 1 by {
      assert (g * m) * x == g * (m * x);
      assert (g * n) * y == g * (n * y);
    }
    CancelFactor(g, m * x + n * y, 1);
  }

  lemma Quotient(g: nat, a: nat, p: int)
    requires g > 0 && a == g * p
    ensures p >= 0 && a / g == p
  {
    ProductSign(g, p);
    FloorIff(a, g, p);
    FloorIff(a, g, p + 1);
  }

  lemma Rotate(a: int, b: int, c: int)
    ensures a * (b * c) == (b * a) * c && a * (b * c) == b * (a * c)
  {
  }

  lemma Distribute(a: int, b: int, c: int)
    ensures a * (b + c) == a * b + a * c
  {
  }

  /** A number coprime to `b` can be cancelled from a multiple of `b`. */
  lemma EuclidLemma(a: int, b: int, d: int, k: int) returns (q: int)
    requires Coprime(a, b) && a * d == b * k
    ensures d == b * q
  {
    var x, y :| a * x + b * y == 1;
    q := k * x + d * y;
    Distribute(d, a * x, b * y);
    Rotate(d, a, x);
    Rotate(d, b, y);
    Rotate(k, b, x);
    Distribute(b, k * x, d * y);
  }

  lemma MutualDivisors(b: nat, d: nat, q: int, r: int)
    requires b > 0 && d > 0 && d == b * q && b == d * r
    ensures b == d
  {
    ProductSign(b, q);
    ProductSign(d, r);
    MulLe(1, q, b);
    MulLe(1, r, d);
  }

  /** Fractions in lowest terms with the same value are the same fraction. */
  lemma LowestTermsUnique(a: nat, b: nat, c: nat, d: nat)
    requires b > 0 && d > 0 && Coprime(a, b) && Coprime(c, d) && a * d == c * b
    ensures a == c && b == d
  {
    var q := EuclidLemma(a, b, d, c);
    var r := EuclidLemma(c, d, b, a);
    MutualDivisors(b, d, q, r);
    CancelFactor(b, a, c);
  }

  lemma Scaled(g: nat, h: nat, a: nat, b: nat, c: nat, d: nat)
    requires g > 0 && h > 0
    ensures (g * a) * (h * d) == (h * c) * (g * b) <==> a * d == c * b
  {
    assert (g * a) * (h * d) == (g * h) * (a * d);
    assert (h * c) * (g * b) == (g * h) * (c * b);
    assert g * h > 0;
    if (g * h) * (a * d) == (g * h) * (c * b) {
      CancelFactor(g * h, a * d, c * b);
    }
  }

  /** Two prices are written alike exactly when they are the same ratio. */
  lemma PriceIsCanonical(a: nat, b: nat, c: nat, d: nat)
    requires b > 0 && d > 0
    ensures New(a, b) == New(c, d) <==> a * d == c * b
  {
    var m, n := Reduced(a, b);
    var u, v := Reduced(c, d);
    Scaled(Gcd(a, b), Gcd(c, d), m, n, u, v);
    Decimal.NaturalInjective(m, u);
    Decimal.NaturalInjective(n, v);
    if m * v == u * n {
      LowestTermsUnique(m, n, u, v);
    }
  }

  /** A price is written in lowest terms and has the value it was made from. */
  lemma PriceInLowestTerms(a: nat, b: nat) returns (m: nat, n: nat)
    requires b > 0
    ensures New(a, b) == Price(Decimal.Natural(m), Decimal.Natural(n))
    ensures n > 0 && Coprime(m, n) && a * n == m * b
  {
    m, n := Reduced(a, b);
    SameValue(Gcd(a, b), m, n, a, b);
  }

  lemma SameValue(g: nat, m: nat, n: nat, a: nat, b: nat)
    requires a == g * m && b == g * n
    ensures a * n == m * b
  {
    Rotate(m, g, n);
  }

  lemma ZeroPrice(b: nat)
    requires b > 0
    ensures New(0, b) == Price("0", "1")
  {
    assert Gcd(0, b) == b;
    Quotient(b, 0, 0);
    Quotient(b, b, 1);
  }
}
