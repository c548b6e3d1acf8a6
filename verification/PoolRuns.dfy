/**
  A pool driven by the quoted amounts: each trade, deposit or withdrawal moves
  the reserves and the LP supply by exactly what the quote says. The contract
  that executes them is not part of this model, so the update is the model's.
 */
module PoolRuns {
  import opened Arithmetic
  import opened PoolMath
  import opened PoolLaws

  datatype Pool = Pool(reserve0: u128, reserve1: u128, supply: u128)

  predicate Live(p: Pool) {
    p.reserve0 > 0 && p.reserve1 > 0 && p.supply > 0
  }

  datatype Action =
    | Swap0For1(amountIn: u128)
    | Swap1For0(amountIn: u128)
    | Deposit(amount0: u128, amount1: u128)
    | Withdraw(liquidity: u128)

  /** The pool after an action, or `Refused` when it is refused or does not fit. */
  datatype Next = Refused | Moved(pool: Pool)

  function Fit(reserve0: int, reserve1: int, supply: int): Next {
    if 0 <= reserve0 <= U128_MAX && 0 <= reserve1 <= U128_MAX && 0 <= supply <= U128_MAX
    then Moved(Pool(reserve0, reserve1, supply))
    else Refused
  }

  function Act(p: Pool, a: Action): Next
    requires Live(p)
  {
    match a
    case Swap0For1(amountIn) =>
      var q := GetAmountOut(amountIn, p.reserve0, p.reserve1);
      if q.Ok? then Fit(p.reserve0 + amountIn, p.reserve1 - q.value, p.supply) else Refused
    case Swap1For0(amountIn) =>
      var q := GetAmountOut(amountIn, p.reserve1, p.reserve0);
      if q.Ok? then Fit(p.reserve0 - q.value, p.reserve1 + amountIn, p.supply) else Refused
    case Deposit(amount0, amount1) =>
      var q := LpTokensToMint(amount0, amount1, p.reserve0, p.reserve1, p.supply);
      if q.Ok? then Fit(p.reserve0 + amount0, p.reserve1 + amount1, p.supply + q.value) else Refused
    case Withdraw(liquidity) =>
      var q := WithdrawalAmounts(liquidity, p.reserve0, p.reserve1, p.supply);
      if q.Ok? && liquidity < p.supply
      then Fit(p.reserve0 - q.value.0, p.reserve1 - q.value.1, p.supply - liquidity)
      else Refused
  }

  /** What comes in, goes out and is minted or burnt by an action, as quoted. */
  datatype Flows = Flows(in0: u128, in1: u128, out0: u128, out1: u128, minted: u128, burnt: u128)

  predicate Quoted(p: Pool, a: Action, f: Flows)
    requires Live(p)
  {
    match a
    case Swap0For1(n) => GetAmountOut(n, p.reserve0, p.reserve1) == Ok(f.out1) && f == Flows(n, 0, 0, f.out1, 0, 0)
    case Swap1For0(n) => GetAmountOut(n, p.reserve1, p.reserve0) == Ok(f.out0) && f == Flows(0, n, f.out0, 0, 0, 0)
    case Deposit(n, m) =>
      LpTokensToMint(n, m, p.reserve0, p.reserve1, p.supply) == Ok(f.minted) && f == Flows(n, m, 0, 0, f.minted, 0)
    case Withdraw(n) =>
      && WithdrawalAmounts(n, p.reserve0, p.reserve1, p.supply) == Ok((f.out0, f.out1))
      && f == Flows(0, 0, f.out0, f.out1, 0, n) && n < p.supply
  }

  /** Conservation: an accepted action moves reserves and supply by its quoted
      flows and nothing else, and it is accepted exactly when they fit. */
  lemma ActConserves(p: Pool, a: Action, q: Pool)
    requires Live(p)
    ensures Act(p, a) == Moved(q) <==>
            exists f: Flows :: && Quoted(p, a, f)
                               && q.reserve0 + f.out0 == p.reserve0 + f.in0
                               && q.reserve1 + f.out1 == p.reserve1 + f.in1
                               && q.supply + f.burnt == p.supply + f.minted
  {
    match a {
      case Swap0For1(n) =>
        var quote := GetAmountOut(n, p.reserve0, p.reserve1);
        assert quote.Ok? ==> Quoted(p, a, Flows(n, 0, 0, quote.value, 0, 0));
      case Swap1For0(n) =>
        var quote := GetAmountOut(n, p.reserve1, p.reserve0);
        assert quote.Ok? ==> Quoted(p, a, Flows(0, n, quote.value, 0, 0, 0));
      case Deposit(n, m) =>
        var quote := LpTokensToMint(n, m, p.reserve0, p.reserve1, p.supply);
        assert quote.Ok? ==> Quoted(p, a, Flows(n, m, 0, 0, quote.value, 0));
      case Withdraw(n) =>
        var quote := WithdrawalAmounts(n, p.reserve0, p.reserve1, p.supply);
        assert quote.Ok? && n < p.supply ==> Quoted(p, a, Flows(0, 0, quote.value.0, quote.value.1, 0, n));
    }
  }

  function Product(p: Pool): nat {
    p.reserve0 * p.reserve1
  }

  function SupplySquared(p: Pool): nat {
    p.supply * p.supply
  }

  /** A share of `q` is worth at least a share of `p`: the product per squared
      share has not fallen. */
  predicate WorthAtLeast(q: Pool, p: Pool) {
    Product(q) * SupplySquared(p) >= Product(p) * SupplySquared(q)
  }

  lemma SwapWorth(p: Pool, q: Pool)
    requires q.supply == p.supply && Product(q) >= Product(p)
    ensures WorthAtLeast(q, p)
  {
    MulLe(Product(p), Product(q), SupplySquared(p));
  }

  /** Both reserves grew at least as fast as the supply did. */
  lemma ProportionalWorth(p: Pool, q: Pool)
    requires p.reserve0 * q.supply <= q.reserve0 * p.supply
    requires p.reserve1 * q.supply <= q.reserve1 * p.supply
    ensures WorthAtLeast(q, p)
  {
    var a, b, c, d := p.reserve0 * q.supply, q.reserve0 * p.supply, p.reserve1 * q.supply, q.reserve1 * p.supply;
    MulLe(a, b, c);
    MulLe(c, d, b);
    Regroup(p.reserve0, q.supply, p.reserve1, q.supply);
    Regroup(q.reserve0, p.supply, q.reserve1, p.supply);
  }

  lemma Regroup(a: nat, b: nat, c: nat, d: nat)
    ensures (a * b) * (c * d) == (a * c) * (b * d)
  {
    assert (a * b) * (c * d) == a * (b * (c * d));
    assert b * (c * d) == c * (b * d);
    assert a * (c * (b * d)) == (a * c) * (b * d);
  }

  /** The part of a reserve that a burn takes out, and what it leaves. */
  lemma BurnLeaves(liquidity: nat, reserve: nat, supply: nat)
    requires liquidity < supply && 0 < reserve
    ensures var out := (liquidity * reserve) / supply;
            out < reserve && reserve * (supply - liquidity) <= (reserve - out) * supply
  {
    var out := (liquidity * reserve) / supply;
    FloorIff(liquidity * reserve, supply, out);
    FloorIff(liquidity * reserve, supply, reserve);
    MulLt(liquidity, supply, reserve);
    assert (reserve - out) * supply == reserve * supply - out * supply;
    assert reserve * (supply - liquidity) == reserve * supply - liquidity * reserve;
  }

  lemma DepositCovers(lp: nat, amount: nat, reserve: nat, supply: nat)
    requires lp * reserve <= amount * supply
    ensures reserve * (supply + lp) <= (reserve + amount) * supply
  {
    assert reserve * (supply + lp) == reserve * supply + lp * reserve;
    assert (reserve + amount) * supply == reserve * supply + amount * supply;
  }

  /** What an accepted action leaves behind is live and worth no less per share. */
  ghost predicate Sound(p: Pool, next: Next) {
    next.Moved? ==> Live(next.pool) && WorthAtLeast(next.pool, p)
  }

  lemma DepositKeeps(p: Pool, amount0: u128, amount1: u128)
    requires Live(p)
    ensures Sound(p, Act(p, Deposit(amount0, amount1)))
  {
    var quote := LpTokensToMint(amount0, amount1, p.reserve0, p.reserve1, p.supply);
    var next := Act(p, Deposit(amount0, amount1));
    if next.Moved? {
      MintIsGreatestShare(amount0, amount1, p.reserve0, p.reserve1, p.supply, quote.value);
      DepositCovers(quote.value, amount0, p.reserve0, p.supply);
      DepositCovers(quote.value, amount1, p.reserve1, p.supply);
      ProportionalWorth(p, next.pool);
    }
  }

  lemma WithdrawKeeps(p: Pool, liquidity: u128)
    requires Live(p)
    ensures Sound(p, Act(p, Withdraw(liquidity)))
  {
    var next := Act(p, Withdraw(liquidity));
    if next.Moved? {
      BurnLeaves(liquidity, p.reserve0, p.supply);
      BurnLeaves(liquidity, p.reserve1, p.supply);
      ProportionalWorth(p, next.pool);
    }
  }

  lemma Swap0Keeps(p: Pool, amountIn: u128)
    requires Live(p)
    ensures Sound(p, Act(p, Swap0For1(amountIn)))
  {
    var next := Act(p, Swap0For1(amountIn));
    if next.Moved? {
      SwapKeepsProduct(amountIn, p.reserve0, p.reserve1);
      SwapWorth(p, next.pool);
    }
  }

  lemma Swap1Keeps(p: Pool, amountIn: u128)
    requires Live(p)
    ensures Sound(p, Act(p, Swap1For0(amountIn)))
  {
    var next := Act(p, Swap1For0(amountIn));
    if next.Moved? {
      SwapKeepsProduct(amountIn, p.reserve1, p.reserve0);
      Commutes(p.reserve1, p.reserve0);
      Commutes(next.pool.reserve1, next.pool.reserve0);
      SwapWorth(p, next.pool);
    }
  }

  lemma Commutes(a: nat, b: nat)
    ensures a * b == b * a
  {
  }

  lemma ActKeeps(p: Pool, a: Action)
    requires Live(p)
    ensures Sound(p, Act(p, a))
  {
    match a {
      case Swap0For1(amountIn) => Swap0Keeps(p, amountIn);
      case Swap1For0(amountIn) => Swap1Keeps(p, amountIn);
      case Deposit(amount0, amount1) => DepositKeeps(p, amount0, amount1);
      case Withdraw(liquidity) => WithdrawKeeps(p, liquidity);
    }
  }

  lemma WorthTransitive(p: Pool, q: Pool, r: Pool)
    requires Live(q) && WorthAtLeast(q, p) && WorthAtLeast(r, q)
    ensures WorthAtLeast(r, p)
  {
    assert q.supply * q.supply > 0 by { MulLt(0, q.supply, q.supply); }
    CrossTransitive(Product(p), SupplySquared(p), Product(q), SupplySquared(q), Product(r), SupplySquared(r));
  }

  lemma CrossTransitive(k1: nat, s1: nat, k2: nat, s2: nat, k3: nat, s3: nat)
    requires s2 > 0 && k1 * s2 <= k2 * s1 && k2 * s3 <= k3 * s2
    ensures k1 * s3 <= k3 * s1
  {
    MulLe(k1 * s2, k2 * s1, s3);
    MulLe(k2 * s3, k3 * s2, s1);
    assert (k1 * s2) * s3 == (k1 * s3) * s2;
    assert (k2 * s1) * s3 == (k2 * s3) * s1;
    assert (k3 * s2) * s1 == (k3 * s1) * s2;
    MulCancel(k1 * s3, k3 * s1, s2);
  }

  /** `pools` is a run: each pool follows from the one before by some accepted action. */
  predicate IsRun(pools: seq<Pool>, actions: seq<Action>) {
    && |pools| == |actions| + 1 && Live(pools[0])
    && forall i :: 0 <= i < |actions| ==> Live(pools[i]) ==> Act(pools[i], actions[i]) == Moved(pools[i + 1])
  }

  /** Over any run the reserves stay positive and no share ever loses value. */
  lemma {:induction false} ShareValueNeverFalls(pools: seq<Pool>, actions: seq<Action>, i: nat, j: nat)
    requires IsRun(pools, actions) && i <= j < |pools|
    ensures Live(pools[i]) && Live(pools[j])
    ensures WorthAtLeast(pools[j], pools[i])
  {
    if i == j {
      if i > 0 {
        ShareValueNeverFalls(pools, actions, i - 1, i - 1);
        ActKeeps(pools[i - 1], actions[i - 1]);
      }
    } else {
      ShareValueNeverFalls(pools, actions, i, j - 1);
      assert Act(pools[j - 1], actions[j - 1]) == Moved(pools[j - 1 + 1]);
      ActKeeps(pools[j - 1], actions[j - 1]);
      WorthTransitive(pools[i], pools[j - 1], pools[j]);
    }
  }
}
