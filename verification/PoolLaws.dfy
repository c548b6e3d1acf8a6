/** Laws of the constant-product quotes, floors and overflow checks included. */
module PoolLaws {
  import opened Arithmetic
  import opened PoolMath

  // ---------- the relation a quote must keep ----------

  /** Paying `out` for `amountIn` keeps the reserve product, counting only the
      part of the input that is left after the fee. */
  predicate Keeps(amountIn: nat, reserveIn: nat, reserveOut: nat, out: nat) {
    && out <= reserveOut
    && (FEE_DENOMINATOR * reserveIn) * reserveOut
         <= (FEE_DENOMINATOR * reserveIn + FEE_NUMERATOR * amountIn) * (reserveOut - out)
  }

  /** The same relation without the subtraction. */
  lemma KeepsAsCost(s: nat, f: nat, reserveOut: nat, out: nat)
    requires out <= reserveOut
    ensures s * reserveOut <= (s + f) * (reserveOut - out) <==> out * (s + f) <= f * reserveOut
    ensures s * reserveOut <= (s + f) * (reserveOut - out) <==> s * out <= f * (reserveOut - out)
  {
    assert (s + f) * (reserveOut - out) == s * reserveOut + f * reserveOut - out * (s + f);
    assert (s + f) * (reserveOut - out) == s * reserveOut - s * out + f * (reserveOut - out);
  }

  /** The quote is the greatest output that keeps the product. */
  lemma AmountOutIsGreatest(a: u128, reserveIn: u128, reserveOut: u128, x: nat)
    requires GetAmountOut(a, reserveIn, reserveOut).Ok?
    ensures Keeps(a, reserveIn, reserveOut, x) <==> x <= GetAmountOut(a, reserveIn, reserveOut).value
    ensures GetAmountOut(a, reserveIn, reserveOut).value < reserveOut
  {
    var f, s := a * FEE_NUMERATOR, reserveIn * FEE_DENOMINATOR;
    var out := GetAmountOut(a, reserveIn, reserveOut).value;
    assert out == (f * reserveOut) / (s + f);
    FloorIff(f * reserveOut, s + f, x);
    FloorIff(f * reserveOut, s + f, reserveOut);
    assert reserveOut * (s + f) == f * reserveOut + s * reserveOut;
    assert s * reserveOut > 0 by { MulLt(0, s, reserveOut); }
    if x <= reserveOut {
      KeepsAsCost(s, f, reserveOut, x);
    }
  }

  /** A quote fails exactly for a zero input, an empty pool or a value beyond
      128 bits, each with its own error. */
  lemma AmountOutFailsWhen(a: u128, reserveIn: u128, reserveOut: u128)
    ensures var q, empty := GetAmountOut(a, reserveIn, reserveOut), reserveIn == 0 || reserveOut == 0;
            && (q == Err(ZeroAmount) <==> a == 0)
            && (q == Err(InsufficientLiquidity) <==> a > 0 && empty)
            && (q == Err(Overflow) <==>
                  && a > 0 && !empty
                  && (a * 997 * reserveOut > U128_MAX || reserveIn * 1_000 + a * 997 > U128_MAX))
  {
    if a > 0 && reserveOut > 0 {
      MulLe(1, reserveOut, a * FEE_NUMERATOR);
    }
  }

  // ---------- the inverse quote ----------

  /** `get_amount_in` answers an input that suffices; the one below it suffices
      exactly when the division was exact, and nothing smaller does. */
  lemma AmountInIsSufficientAndTight(out: u128, reserveIn: u128, reserveOut: u128, a: nat)
    requires GetAmountIn(out, reserveIn, reserveOut).Ok?
    ensures var r := GetAmountIn(out, reserveIn, reserveOut).value;
            && out < reserveOut && r > 0
            && (a >= r ==> Keeps(a, reserveIn, reserveOut, out))
            && (a + 1 == r ==> (Keeps(a, reserveIn, reserveOut, out) <==>
                  (reserveIn * out * FEE_DENOMINATOR) % ((reserveOut - out) * FEE_NUMERATOR) == 0))
            && (a + 2 <= r ==> !Keeps(a, reserveIn, reserveOut, out))
  {
    var n, d := reserveIn * out * FEE_DENOMINATOR, (reserveOut - out) * FEE_NUMERATOR;
    var r := GetAmountIn(out, reserveIn, reserveOut).value;
    assert r == n / d + 1;
    var s, f := FEE_DENOMINATOR * reserveIn, FEE_NUMERATOR * a;
    KeepsAsCost(s, f, reserveOut, out);
    assert s * out == n;
    assert f * (reserveOut - out) == a * d;
    DivideBounds(n, d);
    if a >= r {
      MulLe(r, a, d);
    } else if a + 1 == r {
      assert a * d == n - n % d;
    } else {
      MulLe(a + 1, n / d, d);
    }
  }

  /** An inverse quote fails exactly for a zero output, an empty pool, an output
      beyond the reserve, or a value beyond 128 bits; asking for the whole
      reserve counts as the last. */
  lemma AmountInFailsWhen(out: u128, reserveIn: u128, reserveOut: u128)
    ensures var q, empty := GetAmountIn(out, reserveIn, reserveOut), reserveIn == 0 || reserveOut == 0;
            var tooLarge := reserveIn * out * 1_000 > U128_MAX;
            && (q == Err(ZeroAmount) <==> out == 0)
            && (q == Err(InsufficientLiquidity) <==> out > 0 && (empty || (!tooLarge && out > reserveOut)))
            && (q == Err(Overflow) <==>
                  && out > 0 && !empty
                  && (tooLarge || out == reserveOut || (out < reserveOut && (reserveOut - out) * 997 > U128_MAX)))
  {
    var n, d := reserveIn * out * FEE_DENOMINATOR, (reserveOut - out) * FEE_NUMERATOR;
    if 0 < out < reserveOut && 0 < reserveIn && n <= U128_MAX {
      DivideBounds(n, d);
      MulLe(997, d, n / d);
    }
  }

  /** Feeding the answered input back yields at least the requested output,
      unless that second quote overflows. */
  lemma AmountInThenOut(out: u128, reserveIn: u128, reserveOut: u128)
    requires GetAmountIn(out, reserveIn, reserveOut).Ok?
    ensures var back := GetAmountOut(GetAmountIn(out, reserveIn, reserveOut).value, reserveIn, reserveOut);
            if back.Ok? then back.value >= out else back.error == Overflow
  {
    var a := GetAmountIn(out, reserveIn, reserveOut).value;
    AmountInIsSufficientAndTight(out, reserveIn, reserveOut, a);
    if GetAmountOut(a, reserveIn, reserveOut).Ok? {
      AmountOutIsGreatest(a, reserveIn, reserveOut, out);
    }
  }

  /** Any priced input that is smaller by two or more yields strictly less. */
  lemma SmallerInputYieldsLess(out: u128, reserveIn: u128, reserveOut: u128, a: u128)
    ensures var needed, priced := GetAmountIn(out, reserveIn, reserveOut), GetAmountOut(a, reserveIn, reserveOut);
            needed.Ok? && priced.Ok? && a + 2 <= needed.value ==> priced.value < out
  {
    var needed, priced := GetAmountIn(out, reserveIn, reserveOut), GetAmountOut(a, reserveIn, reserveOut);
    if needed.Ok? && priced.Ok? {
      AmountInIsSufficientAndTight(out, reserveIn, reserveOut, a);
      AmountOutIsGreatest(a, reserveIn, reserveOut, out);
    }
  }

  /** Asking for the input of an output that was quoted never asks more than one unit extra. */
  lemma AmountOutThenIn(a: u128, reserveIn: u128, reserveOut: u128)
    ensures var priced := GetAmountOut(a, reserveIn, reserveOut);
            priced.Ok? ==>
              var needed := GetAmountIn(priced.value, reserveIn, reserveOut);
              needed.Ok? ==> needed.value <= a + 1
  {
    var priced := GetAmountOut(a, reserveIn, reserveOut);
    if priced.Ok? && GetAmountIn(priced.value, reserveIn, reserveOut).Ok? {
      AmountOutIsGreatest(a, reserveIn, reserveOut, priced.value);
      AmountInIsSufficientAndTight(priced.value, reserveIn, reserveOut, a);
    }
  }

  // ---------- no gain from round trips ----------

  /** A swap leaves an output reserve, and the reserve product does not fall. */
  lemma SwapKeepsProduct(a: u128, reserveIn: u128, reserveOut: u128)
    requires GetAmountOut(a, reserveIn, reserveOut).Ok?
    ensures var out := GetAmountOut(a, reserveIn, reserveOut).value;
            out < reserveOut && reserveIn * reserveOut <= (reserveIn + a) * (reserveOut - out)
  {
    var out := GetAmountOut(a, reserveIn, reserveOut).value;
    AmountOutIsGreatest(a, reserveIn, reserveOut, out);
    KeepsProduct(a, reserveIn, reserveOut, out);
  }

  lemma KeepsProduct(a: nat, reserveIn: nat, reserveOut: nat, out: nat)
    requires Keeps(a, reserveIn, reserveOut, out)
    ensures reserveIn * reserveOut <= (reserveIn + a) * (reserveOut - out)
  {
    MulLe(1_000 * reserveIn + 997 * a, 1_000 * (reserveIn + a), reserveOut - out);
    assert (1_000 * (reserveIn + a)) * (reserveOut - out) == 1_000 * ((reserveIn + a) * (reserveOut - out));
    assert (1_000 * reserveIn) * reserveOut == 1_000 * (reserveIn * reserveOut);
  }

  /** A swap and the reserves it leaves, or the reason why there is none. */
  function Swapped(a: u128, reserveIn: u128, reserveOut: u128): Quote<(u128, u128, u128)> {
    var out :- GetAmountOut(a, reserveIn, reserveOut);
    if reserveIn + a > U128_MAX || out > reserveOut then Err(Overflow)
    else Ok((out, reserveIn + a, reserveOut - out))
  }

  /** Swapping the whole output straight back returns at most the input. */
  lemma SwapBackNeverGains(a: u128, reserveIn: u128, reserveOut: u128)
    ensures var there := Swapped(a, reserveIn, reserveOut);
            there.Ok? ==>
              var back := GetAmountOut(there.value.0, there.value.2, there.value.1);
              back.Ok? ==> back.value <= a
  {
    var there := Swapped(a, reserveIn, reserveOut);
    if there.Ok? {
      var (out, newIn, newOut) := there.value;
      var back := GetAmountOut(out, newOut, newIn);
      if back.Ok? {
        SwapKeepsProduct(a, reserveIn, reserveOut);
        SwapKeepsProduct(out, newOut, newIn);
        ReturnBounded(reserveIn, reserveOut, a, back.value);
      }
    }
  }

  lemma ReturnBounded(reserveIn: nat, reserveOut: nat, a: nat, back: nat)
    requires reserveOut > 0 && back <= reserveIn + a
    requires reserveIn * reserveOut <= reserveOut * (reserveIn + a - back)
    ensures back <= a
  {
    MulCancel(reserveIn, reserveIn + a - back, reserveOut);
  }

  // ---------- splitting a trade ----------

  lemma CrossCompose(p: nat, q: nat, g: nat, y: nat, z: nat)
    requires p <= q && 0 < q && q * y <= (q + g) * z
    ensures p * y <= (p + g) * z
  {
    MulLe(q * y, (q + g) * z, p);
    CrossTerms(p, q, g, z);
    assert (q * y) * p == (p * y) * q;
    MulCancel(p * y, (p + g) * z, q);
  }

  lemma CrossTerms(p: nat, q: nat, g: nat, z: nat)
    requires p <= q
    ensures ((q + g) * z) * p <= ((p + g) * z) * q
  {
    MulLe(p, q, g * z);
    assert ((q + g) * z) * p == p * (q * z) + p * (g * z);
    assert ((p + g) * z) * q == p * (q * z) + q * (g * z);
  }

  /** Two trades that keep the product keep it as one trade. */
  lemma KeepsComposes(a: nat, b: nat, reserveIn: nat, reserveOut: nat, out1: nat, out2: nat)
    requires reserveIn > 0
    requires Keeps(a, reserveIn, reserveOut, out1)
    requires Keeps(b, reserveIn + a, reserveOut - out1, out2)
    ensures Keeps(a + b, reserveIn, reserveOut, out1 + out2)
  {
    CrossCompose(1_000 * reserveIn + 997 * a, 1_000 * (reserveIn + a), 997 * b,
                 reserveOut - out1, reserveOut - out1 - out2);
  }

  /** Splitting a trade never pays, whenever all three quotes succeed. */
  lemma SplittingNeverPays(a: u128, b: u128, reserveIn: u128, reserveOut: u128)
    requires a + b <= U128_MAX
    ensures var first, whole := Swapped(a, reserveIn, reserveOut), GetAmountOut(a + b, reserveIn, reserveOut);
            first.Ok? && whole.Ok? ==>
              var second := GetAmountOut(b, first.value.1, first.value.2);
              second.Ok? ==> first.value.0 + second.value <= whole.value
  {
    var first, whole := Swapped(a, reserveIn, reserveOut), GetAmountOut(a + b, reserveIn, reserveOut);
    if first.Ok? && whole.Ok? {
      var (out1, newIn, newOut) := first.value;
      var second := GetAmountOut(b, newIn, newOut);
      if second.Ok? {
        AmountOutIsGreatest(a, reserveIn, reserveOut, out1);
        AmountOutIsGreatest(b, newIn, newOut, second.value);
        KeepsComposes(a, b, reserveIn, reserveOut, out1, second.value);
        AmountOutIsGreatest(a + b, reserveIn, reserveOut, out1 + second.value);
      }
    }
  }

  // ---------- liquidity ----------

  /** Minting is the greatest share both deposits pay for. */
  lemma MintIsGreatestShare(amount0: u128, amount1: u128, reserve0: u128, reserve1: u128, supply: u128, x: nat)
    requires supply > 0 && reserve0 > 0 && reserve1 > 0
    requires LpTokensToMint(amount0, amount1, reserve0, reserve1, supply).Ok?
    ensures x <= LpTokensToMint(amount0, amount1, reserve0, reserve1, supply).value <==>
            x * reserve0 <= amount0 * supply && x * reserve1 <= amount1 * supply
  {
    FloorIff(amount0 * supply, reserve0, x);
    FloorIff(amount1 * supply, reserve1, x);
  }

  /** A later deposit is refused exactly when one of the two products does not fit. */
  lemma MintFailsWhen(amount0: u128, amount1: u128, reserve0: u128, reserve1: u128, supply: u128)
    requires supply > 0 && reserve0 > 0 && reserve1 > 0
    ensures var q := LpTokensToMint(amount0, amount1, reserve0, reserve1, supply);
            && (q.Err? <==> amount0 * supply > U128_MAX || amount1 * supply > U128_MAX)
            && (q.Err? ==> q.error == Overflow)
  {
  }

  /** A burn is refused exactly when one of the two products does not fit. */
  lemma WithdrawalFailsWhen(liquidity: u128, reserve0: u128, reserve1: u128, supply: u128)
    requires supply > 0
    ensures var q := WithdrawalAmounts(liquidity, reserve0, reserve1, supply);
            && (q.Err? <==> liquidity * reserve0 > U128_MAX || liquidity * reserve1 > U128_MAX)
            && (q.Err? ==> q.error == Overflow)
  {
  }

  /** Burning pays the greatest whole amounts that the burnt share is worth. */
  lemma WithdrawalIsGreatestShare(liquidity: u128, reserve0: u128, reserve1: u128, supply: u128, x: nat)
    requires supply > 0 && WithdrawalAmounts(liquidity, reserve0, reserve1, supply).Ok?
    ensures var out := WithdrawalAmounts(liquidity, reserve0, reserve1, supply).value;
            && (x <= out.0 <==> x * supply <= liquidity * reserve0)
            && (x <= out.1 <==> x * supply <= liquidity * reserve1)
  {
    FloorIff(liquidity * reserve0, supply, x);
    FloorIff(liquidity * reserve1, supply, x);
  }

  /** The first deposit: what is minted, together with the locked minimum, is
      the integer square root of the product; it is refused exactly below that
      minimum, or when the product does not fit. */
  lemma FirstMintIsRoot(amount0: u128, amount1: u128, reserve0: u128, reserve1: u128)
    ensures var q := LpTokensToMint(amount0, amount1, reserve0, reserve1, 0);
            && (q.Ok? <==> 1_001 * 1_001 <= amount0 * amount1 <= U128_MAX)
            && (q.Ok? ==> var m := q.value + 1_000; m * m <= amount0 * amount1 < (m + 1) * (m + 1))
            && (q.Err? ==> q.error == if amount0 * amount1 > U128_MAX then Overflow else InsufficientLiquidity)
  {
    var product := amount0 * amount1;
    if product <= U128_MAX {
      RootReaches(product, 1_001);
      var q := LpTokensToMint(amount0, amount1, reserve0, reserve1, 0);
      assert q == if SquareRoot(product) <= 1_000 then Err(InsufficientLiquidity) else Ok(SquareRoot(product) - 1_000);
    }
  }

  lemma RootReaches(n: nat, m: nat)
    ensures m <= SquareRoot(n) <==> m * m <= n
  {
    var root := SquareRoot(n);
    if m <= root {
      SquareMonotone(m, root);
    } else {
      SquareMonotone(root + 1, m);
    }
  }

  /** Burning just-minted shares returns at most the deposit, in each token. */
  lemma MintThenBurnNeverGains(amount0: u128, amount1: u128, reserve0: u128, reserve1: u128, supply: u128)
    requires supply > 0 && reserve0 > 0 && reserve1 > 0
    requires reserve0 + amount0 <= U128_MAX && reserve1 + amount1 <= U128_MAX
    ensures var minted := LpTokensToMint(amount0, amount1, reserve0, reserve1, supply);
            minted.Ok? && supply + minted.value <= U128_MAX ==>
              var back := WithdrawalAmounts(minted.value, reserve0 + amount0, reserve1 + amount1,
                                            supply + minted.value);
              back.Ok? ==> back.value.0 <= amount0 && back.value.1 <= amount1
  {
    var minted := LpTokensToMint(amount0, amount1, reserve0, reserve1, supply);
    if minted.Ok? {
      var lp := minted.value;
      MintIsGreatestShare(amount0, amount1, reserve0, reserve1, supply, lp);
      ShareWorthAtMost(lp, amount0, reserve0, supply);
      ShareWorthAtMost(lp, amount1, reserve1, supply);
    }
  }

  lemma ShareWorthAtMost(lp: nat, amount: nat, reserve: nat, supply: nat)
    requires supply > 0 && lp * reserve <= amount * supply
    ensures (lp * (reserve + amount)) / (supply + lp) <= amount
  {
    FloorIff(lp * (reserve + amount), supply + lp, amount + 1);
    assert (amount + 1) * (supply + lp) == amount * supply + amount * lp + supply + lp;
    assert lp * (reserve + amount) == lp * reserve + amount * lp;
  }
}
