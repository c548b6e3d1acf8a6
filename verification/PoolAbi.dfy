/** The pool contract's audited functions and argument shapes. */
module PoolAbi {
  import opened Common

  datatype AbiType = AddressType | I128Type | U64Type

  datatype PoolFunction = Swap | AddLiquidity | RemoveLiquidity

  datatype AbiParam = AbiParam(name: string, ty: AbiType)

  datatype ManifestEntry = ManifestEntry(fn: PoolFunction, name: string, params: seq<AbiParam>)

  const SWAP_PARAMS := [
    AbiParam("to", AddressType),
    AbiParam("amount_0_out", I128Type),
    AbiParam("amount_1_out", I128Type),
    AbiParam("deadline", U64Type)]

  const ADD_LIQUIDITY_PARAMS := [
    AbiParam("from", AddressType),
    AbiParam("to", AddressType),
    AbiParam("amount_0_desired", I128Type),
    AbiParam("amount_1_desired", I128Type),
    AbiParam("amount_0_min", I128Type),
    AbiParam("amount_1_min", I128Type),
    AbiParam("deadline", U64Type)]

  const REMOVE_LIQUIDITY_PARAMS := [
    AbiParam("from", AddressType),
    AbiParam("to", AddressType),
    AbiParam("liquidity", I128Type),
    AbiParam("amount_0_min", I128Type),
    AbiParam("amount_1_min", I128Type),
    AbiParam("deadline", U64Type)]

  const MANIFEST := [
    ManifestEntry(Swap, "swap", SWAP_PARAMS),
    ManifestEntry(AddLiquidity, "add_liquidity", ADD_LIQUIDITY_PARAMS),
    ManifestEntry(RemoveLiquidity, "remove_liquidity", REMOVE_LIQUIDITY_PARAMS)]

  function WireName(f: PoolFunction): string {
    match f
    case Swap => "swap"
    case AddLiquidity => "add_liquidity"
    case RemoveLiquidity => "remove_liquidity"
  }

  function FindName(entries: seq<ManifestEntry>, name: string): Option<PoolFunction> {
    if entries == [] then None
    else if entries[0].name == name then Some(entries[0].fn)
    else FindName(entries[1..], name)
  }

  function FindParams(entries: seq<ManifestEntry>, f: PoolFunction): seq<AbiParam> {
    if entries == [] then []
    else if entries[0].fn == f then entries[0].params
    else FindParams(entries[1..], f)
  }

  function Lookup(name: string): Option<PoolFunction> {
    FindName(MANIFEST, name)
  }

  function Params(f: PoolFunction): seq<AbiParam> {
    FindParams(MANIFEST, f)
  }

  function RequireKnownFunction(name: string, argCount: nat): Result<PoolFunction> {
    match Lookup(name)
    case None => Err(InvalidRequest)
    case Some(f) => if argCount != |Params(f)| then Err(InvalidRequest) else Ok(f)
  }

  /** The position of a parameter, searched by name. */
  function Position(params: seq<AbiParam>, name: string): (r: Option<nat>)
    ensures r.Some? ==> r.value < |params| && params[r.value].name == name
    ensures r.None? ==> forall i :: 0 <= i < |params| ==> params[i].name != name
  {
    if params == [] then None
    else if params[0].name == name then Some(0)
    else
      match Position(params[1..], name)
      case None => None
      case Some(i) => Some(i + 1)
  }

  /** The manifest knows each function by its wire name, and nothing else. */
  lemma LookupInvertsWireName(name: string, f: PoolFunction)
    ensures Lookup(name) == Some(f) <==> name == WireName(f)
  {
    var last := MANIFEST[2..];
    assert MANIFEST[1..][1..] == last && last[1..] == [];
    assert FindName(last, name) == if name == "remove_liquidity" then Some(RemoveLiquidity) else None;
    assert FindName(MANIFEST[1..], name)
        == if name == "add_liquidity" then Some(AddLiquidity) else FindName(last, name);
    assert FindName(MANIFEST, name) == if name == "swap" then Some(Swap) else FindName(MANIFEST[1..], name);
  }

  lemma KnownFunctionExactly(name: string, argCount: nat, f: PoolFunction)
    ensures RequireKnownFunction(name, argCount) == Ok(f) <==> name == WireName(f) && argCount == |Params(f)|
    ensures RequireKnownFunction(name, argCount).Err? ==> RequireKnownFunction(name, argCount).error == InvalidRequest
  {
    LookupInvertsWireName(name, f);
  }

  /** The three calls by name, with their numbers of arguments. */
  lemma KnownCalls(name: string, argCount: nat)
    ensures var r := RequireKnownFunction(name, argCount);
            && (r == Ok(Swap) <==> name == "swap" && argCount == 4)
            && (r == Ok(AddLiquidity) <==> name == "add_liquidity" && argCount == 7)
            && (r == Ok(RemoveLiquidity) <==> name == "remove_liquidity" && argCount == 6)
  {
    KnownFunctionExactly(name, argCount, Swap);
    KnownFunctionExactly(name, argCount, AddLiquidity);
    KnownFunctionExactly(name, argCount, RemoveLiquidity);
    ParamsOf(Swap);
    ParamsOf(AddLiquidity);
    ParamsOf(RemoveLiquidity);
  }

  lemma ParamsOf(f: PoolFunction)
    ensures Params(f) == match f
                         case Swap => SWAP_PARAMS
                         case AddLiquidity => ADD_LIQUIDITY_PARAMS
                         case RemoveLiquidity => REMOVE_LIQUIDITY_PARAMS
  {
    assert MANIFEST[1..][1..] == MANIFEST[2..];
    assert FindParams(MANIFEST[2..], RemoveLiquidity) == REMOVE_LIQUIDITY_PARAMS;
    assert FindParams(MANIFEST[1..], RemoveLiquidity) == REMOVE_LIQUIDITY_PARAMS;
    assert FindParams(MANIFEST[1..], AddLiquidity) == ADD_LIQUIDITY_PARAMS;
  }

  predicate DistinctNames(ps: seq<AbiParam>) {
    forall i, j :: 0 <= i < j < |ps| ==> ps[i].name != ps[j].name
  }

  lemma SwapNamesDistinct()
    ensures DistinctNames(SWAP_PARAMS)
  {
  }

  lemma AddLiquidityNamesDistinct()
    ensures DistinctNames(ADD_LIQUIDITY_PARAMS)
  {
  }

  lemma RemoveLiquidityNamesDistinct()
    ensures DistinctNames(REMOVE_LIQUIDITY_PARAMS)
  {
  }

  lemma NamesDistinct(f: PoolFunction)
    ensures DistinctNames(Params(f))
  {
    ParamsOf(f);
    match f {
      case Swap => SwapNamesDistinct();
      case AddLiquidity => AddLiquidityNamesDistinct();
      case RemoveLiquidity => RemoveLiquidityNamesDistinct();
    }
  }

  /** Every function ends with a deadline of type u64, and a search by name finds it there. */
  lemma EveryFunctionHasDeadline(f: PoolFunction)
    ensures Params(f) != [] && Position(Params(f), "deadline") == Some(|Params(f)| - 1)
    ensures Params(f)[|Params(f)| - 1] == AbiParam("deadline", U64Type)
  {
    ParamsOf(f);
    NamesDistinct(f);
    LastPosition(Params(f), "deadline");
  }

  lemma LastPosition(ps: seq<AbiParam>, name: string)
    requires DistinctNames(ps) && ps != [] && ps[|ps| - 1].name == name
    ensures Position(ps, name) == Some(|ps| - 1)
  {
  }
}
