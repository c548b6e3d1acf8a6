/** Constant-product quotes in checked 128-bit arithmetic. */
module PoolMath {
  import opened Arithmetic

  const U128_MAX: nat := 0xFFFF_FFFF_FFFF_FFFF_FFFF_FFFF_FFFF_FFFF

  type u128 = x: nat | x <= U128_MAX

  const FEE_NUMERATOR: u128 := 997
  const FEE_DENOMINATOR: u128 := 1_000
  const MINIMUM_LIQUIDITY: u128 := 1_000

  datatype MathError = ZeroAmount | InsufficientLiquidity | Overflow

  datatype Quote<+T> = Ok(value: T) | Err(error: MathError) {
    predicate IsFailure() {
      Err?
    }

    function PropagateFailure<U>(): Quote<U>
      requires Err?
    {
      Err(error)
    }

    function Extract(): T
      requires Ok?
    {
      value
    }
  }

  /** A result that must fit in 128 bits. */
  function Checked(x: nat): Quote<u128> {
    if x <= U128_MAX then Ok(x) else Err(Overflow)
  }

  function GetAmountOut(amountIn: u128, reserveIn: u128, reserveOut: u128): Quote<u128> {
    if amountIn == 0 then Err(ZeroAmount)
    else if reserveIn == 0 || reserveOut == 0 then Err(InsufficientLiquidity)
    else
      var feeIn :- Checked(amountIn * FEE_NUMERATOR);
      var numerator :- Checked(feeIn * reserveOut);
      var scaled :- Checked(reserveIn * FEE_DENOMINATOR);
      var denominator :- Checked(scaled + feeIn);
      DivideFits(numerator, denominator);
      Ok(numerator / denominator)
  }

  function GetAmountIn(amountOut: u128, reserveIn: u128, reserveOut: u128): Quote<u128> {
    if amountOut == 0 then Err(ZeroAmount)
    else if reserveIn == 0 || reserveOut == 0 then Err(InsufficientLiquidity)
    else
      var product :- Checked(reserveIn * amountOut);
      var numerator :- Checked(product * FEE_DENOMINATOR);
      if amountOut > reserveOut then Err(InsufficientLiquidity)
      else
        var denominator :- Checked((reserveOut - amountOut) * FEE_NUMERATOR);
        if denominator == 0 then Err(Overflow)
        else
          DivideFits(numerator, denominator);
          Checked(numerator / denominator + 1)
  }

  function LpTokensToMint(amount0: u128, amount1: u128, reserve0: u128, reserve1: u128, totalSupply: u128): Quote<u128>
    requires totalSupply > 0 ==> reserve0 > 0 && reserve1 > 0
  {
    if totalSupply == 0 then
      var product :- Checked(amount0 * amount1);
      var root := SquareRoot(product);
      if root <= MINIMUM_LIQUIDITY then Err(InsufficientLiquidity)
      else RootFits(product); Ok(root - MINIMUM_LIQUIDITY)
    else
      var share0 :- Checked(amount0 * totalSupply);
      var share1 :- Checked(amount1 * totalSupply);
      DivideFits(share0, reserve0);
      DivideFits(share1, reserve1);
      var lp0: u128, lp1: u128 := share0 / reserve0, share1 / reserve1;
      Ok(if lp0 <= lp1 then lp0 else lp1)
  }

  function WithdrawalAmounts(liquidity: u128, reserve0: u128, reserve1: u128, totalSupply: u128): Quote<(u128, u128)>
    requires totalSupply > 0
  {
    var share0 :- Checked(liquidity * reserve0);
    var share1 :- Checked(liquidity * reserve1);
    DivideFits(share0, totalSupply);
    DivideFits(share1, totalSupply);
    Ok((share0 / totalSupply, share1 / totalSupply))
  }

  lemma DivideFits(n: u128, d: u128)
    requires d > 0
    ensures 0 <= n / d <= n
  {
    DivideBounds(n, d);
    MulLe(1, d, n / d);
  }

  // ---------- integer square root ----------

  /** The integer square root, by its defining property. */
  function SquareRoot(n: nat): (z: nat)
    ensures z * z <= n < (z + 1) * (z + 1)
  {
    if n == 0 then 0
    else
      var r := SquareRoot(n - 1);
      if (r + 1) * (r + 1) <= n then r + 1 else r
  }

  lemma SquareRootUnique(n: nat, z: nat)
    requires z * z <= n < (z + 1) * (z + 1)
    ensures z == SquareRoot(n)
  {
    var r := SquareRoot(n);
    if z < r {
      SquareMonotone(z + 1, r);
    } else if r < z {
      SquareMonotone(r + 1, z);
    }
  }

  lemma RootFits(n: u128)
    ensures SquareRoot(n) <= n
  {
    var z := SquareRoot(n);
    if z > 0 {
      assert z * 1 <= z * z;
    }
  }

  lemma SquareOfSum(a: nat, b: nat)
    ensures 4 * (a * b) <= (a + b) * (a + b)
  {
    assert (a + b) * (a + b) == a * a + 2 * (a * b) + b * b;
    assert (a - b) * (a - b) == a * a - 2 * (a * b) + b * b;
    SquareNonNegative(a - b);
  }

  lemma SquareNonNegative(d: int)
    ensures d * d >= 0
  {
  }

  lemma SquareMonotone(a: nat, b: nat)
    requires a <= b
    ensures a * a <= b * b
  {
    MulLe(a, b, a);
    MulLe(a, b, b);
  }

  /** One Newton iteration from any positive guess stays at or above the root. */
  lemma NewtonAbove(n: nat, x: nat)
    requires x > 0
    ensures var y := (n / x + x) / 2; n < (y + 1) * (y + 1)
  {
    var q := n / x;
    var h := (q + x) / 2 + 1;
    DivideBounds(n, x);
    Successor(q, x);
    SquareOfSum(q + 1, x);
    SquareMonotone(q + 1 + x, h + h);
    SquareOfDouble(h);
  }

  lemma Successor(q: nat, x: nat)
    ensures (q + 1) * x == x * q + x
  {
  }

  lemma SquareOfDouble(h: nat)
    ensures (h + h) * (h + h) == 4 * (h * h)
  {
  }

  /** `integer_sqrt`: every intermediate value fits in 128 bits, although the
      first guess after `n` is not a Newton iterate. */
  method IntegerSqrt(n: u128) returns (z: u128)
    ensures z == SquareRoot(n)
  {
    if n < 4 {
      z := if n == 0 then 0 else 1;
      SquareRootUnique(n, z);
      return;
    }
    z := n;
    var x: u128 := n / 2 + 1;
    assert n < (x + 1) * (x + 1);
    while x < z
      invariant 2 <= x <= n / 2 + 1 && 2 <= z <= n
      invariant n < (x + 1) * (x + 1)
      invariant n < (z + 1) * (z + 1)
      invariant z == n || x == (n / z + z) / 2
      invariant z == n ==> x == n / 2 + 1
      decreases z
    {
      z := x;
      StepFits(n, x);
      var sum: u128 := n / x + x;
      NewtonAbove(n, x);
      x := sum / 2;
    }
    DivideBounds(n, z);
    assert n / z >= z;
    MulLe(z, n / z, z);
    SquareRootUnique(n, z);
  }

  lemma StepFits(n: u128, x: u128)
    requires 4 <= n && 2 <= x <= n / 2 + 1
    ensures n / x + x <= U128_MAX
    ensures 2 <= (n / x + x) / 2 <= n / 2 + 1
  {
    DivideBounds(n, x);
    MulLe(2, x, n / x);
    assert x == 2 ==> n / x >= 2;
  }
}
