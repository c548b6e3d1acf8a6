/**
  Construct, simulate, validate: preparing a transaction for a pool call. The
  RPC's answers, the strkey and XDR codecs and the Debug rendering of foreign
  values are parameters.
 */
module Prepare {
  import opened Common
  import opened PoolAbi
  import opened PoolXdr
  import Decimal

  datatype Codecs = Codecs(
    strkey: Strkey,
    encode: Envelope -> Result<string>,
    decode: string -> Result<Envelope>,
    debug: ScVal -> string)

  ghost predicate CodecsOk(cs: Codecs) {
    && StrkeyOk(cs.strkey)
    && (forall e: Envelope, x: string :: cs.encode(e) == Ok(x) ==> cs.decode(x) == Ok(e))
  }

  datatype Review = Review(
    contract: string,
    fn: string,
    args: Value,
    sourceAccount: string,
    sequence: int,
    fee: int,
    resourceFee: Option<int>,
    deadline: nat,
    operationCount: nat,
    auth: seq<Option<string>>)

  datatype Context = Context(
    network: Network,
    declaredNetwork: Network,
    contractId: string,
    feeCeiling: nat,
    now: nat,
    expectedSequence: Option<int>)

  // ---------- arguments as JSON ----------

  function ScValToJson(cs: Codecs, v: ScVal, expected: Option<AbiType>): Value {
    match expected
    case Some(AddressType) => if v.Address? then String(AddressToString(cs.strkey, v.address)) else String(cs.debug(v))
    case Some(I128Type) =>
      (match ScValToI128(v)
       case Ok(n) => String(Decimal.Integer(n))
       case Err(_) => String(cs.debug(v)))
    case Some(U64Type) =>
      (match ScValToU64(v)
       case Ok(n) => Number(Decimal.Natural(n))
       case Err(_) => String(cs.debug(v)))
    case None => String(cs.debug(v))
  }

  function ArgName(params: seq<AbiParam>, i: nat): string {
    if i < |params| then params[i].name else "arg_" + Decimal.Natural(i)
  }

  function ArgType(params: seq<AbiParam>, i: nat): Option<AbiType> {
    if i < |params| then Some(params[i].ty) else None
  }

  /** The fields the first `n` arguments give. */
  function ArgFields(cs: Codecs, params: seq<AbiParam>, args: seq<ScVal>, n: nat): map<string, Value>
    requires n <= |args|
  {
    if n == 0 then map[]
    else
      var value := ScValToJson(cs, args[n - 1], ArgType(params, n - 1));
      ArgFields(cs, params, args, n - 1)[ArgName(params, n - 1) := value]
  }

  function ArgsToJson(cs: Codecs, f: PoolFunction, args: seq<ScVal>): Value {
    Object(ArgFields(cs, Params(f), args, |args|))
  }

  method FillArgs(cs: Codecs, f: PoolFunction, args: seq<ScVal>) returns (v: Value)
    ensures v == ArgsToJson(cs, f, args)
  {
    var params := Params(f);
    var fields: map<string, Value> := map[];
    for i := 0 to |args|
      invariant fields == ArgFields(cs, params, args, i)
    {
      fields := fields[ArgName(params, i) := ScValToJson(cs, args[i], ArgType(params, i))];
    }
    v := Object(fields);
  }

  // ---------- validate ----------

  function MuxedKey(m: MuxedAccount): Key {
    m.key
  }

  function AuthSummary(cs: Codecs, auth: seq<AuthEntry>): seq<Option<string>> {
    seq(|auth|, i requires 0 <= i < |auth| =>
      if auth[i].SourceAccountAuth? then None else Some(AddressToString(cs.strkey, auth[i].address)))
  }

  function Validate(cs: Codecs, xdr: string, ctx: Context): Result<Review> {
    if ctx.declaredNetwork != ctx.network then Err(InvalidRequest)
    else
      var envelope :- cs.decode(xdr);
      if envelope.OtherEnvelope? || |envelope.tx.operations| != 1 || envelope.tx.operations[0].OtherOperation?
         || envelope.tx.operations[0].host.OtherHostFunction? then Err(InvalidRequest)
      else ValidateCall(cs, envelope.tx, envelope.tx.operations[0].host, ctx)
  }

  function ValidateCall(cs: Codecs, tx: Transaction, call: HostFunction, ctx: Context): Result<Review>
    requires |tx.operations| == 1 && tx.operations[0].InvokeHostFunction? && call.InvokeContract?
  {
    var contract := AddressToString(cs.strkey, call.contract);
    if contract != ctx.contractId then Err(InvalidRequest)
    else
      var f :- RequireKnownFunction(call.functionName, |call.args|);
      match Position(Params(f), "deadline")
      case None => Err(Internal)
      case Some(i) =>
        if i >= |call.args| then Err(Internal)
        else
          var deadline :- ScValToU64(call.args[i]);
          if deadline <= ctx.now then Err(PreconditionFailed)
          else if tx.fee > ctx.feeCeiling then Err(PreconditionFailed)
          else if ctx.expectedSequence.Some? && tx.sequence != ctx.expectedSequence.value + 1 then
            Err(PreconditionFailed)
          else
            Ok(Review(contract, WireName(f), ArgsToJson(cs, f, call.args),
                      AddressToString(cs.strkey, AccountAddress(MuxedKey(tx.source))), tx.sequence, tx.fee,
                      if tx.ext.V1? then Some(tx.ext.data.resourceFee) else None, deadline, |tx.operations|,
                      AuthSummary(cs, tx.operations[0].auth)))
  }

  // ---------- prepare ----------

  datatype Pool = Pool(contractId: string, baseFee: nat, feeCeiling: nat)

  datatype Request = Request(network: Network, sourceAccount: string, deadline: nat)

  /** What `simulateTransaction` reports. */
  datatype Simulation = Simulation(
    failed: bool,
    mustRestore: bool,
    data: Option<Result<SorobanData>>,
    minResourceFee: Option<Result<int>>,
    auth: Result<seq<AuthEntry>>)

  /** The RPC: the source account's sequence number, and the simulator. */
  datatype Rpc = Rpc(sequence: string -> Result<int>, simulate: string -> Result<Simulation>)

  datatype Prepared = Prepared(xdr: string, review: Review)

  function Need<T>(o: Option<Result<T>>): Result<T> {
    if o.Some? then o.value else Err(AdapterError)
  }

  /** A finished envelope, with the sequence number it was built on and what
      the simulation asked for. */
  datatype Built = Built(xdr: string, sequence: int, minResourceFee: int, data: SorobanData, auth: seq<AuthEntry>)

  function Construct(cs: Codecs, rpc: Rpc, pool: Pool, engine: Network, f: PoolFunction, args: seq<ScVal>,
                     req: Request, now: nat): Result<Built>
  {
    if req.network != engine then Err(InvalidRequest)
    else if req.deadline <= now then Err(PreconditionFailed)
    else
      var account :- ParseAccount(cs.strkey, req.sourceAccount);
      var sequence :- rpc.sequence(req.sourceAccount);
      var unsimulated :- BuildInvokeEnvelope(cs.strkey, pool.contractId, f, args, req.sourceAccount, sequence,
                                             pool.baseFee, req.deadline);
      var unsimulatedXdr :- cs.encode(unsimulated);
      var sim :- rpc.simulate(unsimulatedXdr);
      if sim.failed || sim.mustRestore then Err(PreconditionFailed)
      else if sim.data.None? then Err(AdapterError)
      else
        var minResourceFee :- Need(sim.minResourceFee);
        var data :- Need(sim.data);
        var auth :- sim.auth;
        var prepared :- Simulated(unsimulated, data, auth, minResourceFee, pool.baseFee, pool.feeCeiling);
        var xdr :- cs.encode(prepared);
        Ok(Built(xdr, sequence, minResourceFee, data, auth))
  }

  function PrepareTransaction(cs: Codecs, rpc: Rpc, pool: Pool, engine: Network, f: PoolFunction, args: seq<ScVal>,
                              req: Request, now: nat): Result<Prepared>
  {
    var built :- Construct(cs, rpc, pool, engine, f, args, req, now);
    var review :- Validate(cs, built.xdr,
                           Context(engine, req.network, pool.contractId, pool.feeCeiling, now, Some(built.sequence)));
    if review.args != ArgsToJson(cs, f, args) then Err(PreconditionFailed)
    else Ok(Prepared(built.xdr, review))
  }

  // ---------- arguments of the declared types ----------

  predicate HasType(v: ScVal, ty: AbiType) {
    match ty
    case AddressType => v.Address? && !v.address.ForeignAddress?
    case I128Type => v.I128? && PartsInRange(v)
    case U64Type => v.U64?
  }

  predicate Typed(f: PoolFunction, args: seq<ScVal>) {
    |args| == |Params(f)| && forall i :: 0 <= i < |args| ==> HasType(args[i], Params(f)[i].ty)
  }

  /** The arguments of a call that ends at `deadline`. */
  predicate TypedCall(f: PoolFunction, args: seq<ScVal>, deadline: nat) {
    Typed(f, args) && args != [] && args[|args| - 1] == U64(deadline)
  }

  /** The envelope that was asked for: simulation added its fee, footprint and
      authorisation, and changed nothing else. */
  ghost predicate BuiltFrom(cs: Codecs, e: Envelope, pool: Pool, f: PoolFunction, args: seq<ScVal>, req: Request,
                            b: Built)
  {
    && ParseAddress(cs.strkey, pool.contractId).Ok? && ParseAccount(cs.strkey, req.sourceAccount).Ok?
    && var call := InvokeContract(ParseAddress(cs.strkey, pool.contractId).value, WireName(f), args);
    && e == Tx(Transaction(Ed25519(ParseAccount(cs.strkey, req.sourceAccount).value), pool.baseFee + b.minResourceFee,
                           b.sequence + 1, req.deadline, [InvokeHostFunction(call, b.auth)], V1(b.data)))
    && pool.baseFee + b.minResourceFee <= pool.feeCeiling
  }

  /** The call as it is sent to be simulated: no footprint, no authorisation, the base fee. */
  ghost predicate Asked(cs: Codecs, e: Envelope, pool: Pool, f: PoolFunction, args: seq<ScVal>, req: Request,
                        sequence: int)
  {
    && ParseAddress(cs.strkey, pool.contractId).Ok? && ParseAccount(cs.strkey, req.sourceAccount).Ok?
    && var call := InvokeContract(ParseAddress(cs.strkey, pool.contractId).value, WireName(f), args);
    && e == Tx(Transaction(Ed25519(ParseAccount(cs.strkey, req.sourceAccount).value), pool.baseFee, sequence + 1,
                           req.deadline, [InvokeHostFunction(call, [])], V0))
    && sequence + 1 <= I64_MAX
  }

  /** The simulation of `asked` went through, needs no restore, and says exactly what `b` took from it. */
  ghost predicate SimulatedAs(cs: Codecs, rpc: Rpc, asked: Envelope, b: Built) {
    && cs.encode(asked).Ok? && rpc.simulate(cs.encode(asked).value).Ok?
    && var sim := rpc.simulate(cs.encode(asked).value).value;
    && !sim.failed && !sim.mustRestore
    && sim.data == Some(Ok(b.data)) && sim.minResourceFee == Some(Ok(b.minResourceFee)) && sim.auth == Ok(b.auth)
  }

  /** A transaction is built exactly when the request is for this network and
      ahead of its deadline, the RPC gave the account's sequence number and a
      clean simulation of this very call, and the total fee is in range; and
      then it is that call with that sequence, footprint, authorisation and fee. */
  lemma ConstructExactly(cs: Codecs, rpc: Rpc, pool: Pool, engine: Network, f: PoolFunction, args: seq<ScVal>,
                         req: Request, now: nat, b: Built)
    ensures Construct(cs, rpc, pool, engine, f, args, req, now) == Ok(b) <==>
            && req.network == engine && req.deadline > now
            && rpc.sequence(req.sourceAccount) == Ok(b.sequence)
            && (exists asked :: Asked(cs, asked, pool, f, args, req, b.sequence) && SimulatedAs(cs, rpc, asked, b))
            && 0 <= pool.baseFee + b.minResourceFee <= I64_MAX
            && (exists e :: BuiltFrom(cs, e, pool, f, args, req, b) && cs.encode(e) == Ok(b.xdr))
  {
    if Construct(cs, rpc, pool, engine, f, args, req, now) == Ok(b) {
      ConstructSays(cs, rpc, pool, engine, f, args, req, now, b);
    }
    forall asked, e | && req.network == engine && req.deadline > now
                      && rpc.sequence(req.sourceAccount) == Ok(b.sequence)
                      && Asked(cs, asked, pool, f, args, req, b.sequence) && SimulatedAs(cs, rpc, asked, b)
                      && 0 <= pool.baseFee + b.minResourceFee <= I64_MAX
                      && BuiltFrom(cs, e, pool, f, args, req, b) && cs.encode(e) == Ok(b.xdr)
      ensures Construct(cs, rpc, pool, engine, f, args, req, now) == Ok(b)
    {
      assert BuildInvokeEnvelope(cs.strkey, pool.contractId, f, args, req.sourceAccount, b.sequence, pool.baseFee,
                                 req.deadline) == Ok(asked);
      assert Simulated(asked, b.data, b.auth, b.minResourceFee, pool.baseFee, pool.feeCeiling) == Ok(e);
    }
  }

  lemma ConstructSays(cs: Codecs, rpc: Rpc, pool: Pool, engine: Network, f: PoolFunction, args: seq<ScVal>,
                      req: Request, now: nat, b: Built)
    requires Construct(cs, rpc, pool, engine, f, args, req, now) == Ok(b)
    ensures req.network == engine && req.deadline > now && rpc.sequence(req.sourceAccount) == Ok(b.sequence)
    ensures exists asked :: Asked(cs, asked, pool, f, args, req, b.sequence) && SimulatedAs(cs, rpc, asked, b)
    ensures 0 <= pool.baseFee + b.minResourceFee <= I64_MAX
    ensures exists e :: BuiltFrom(cs, e, pool, f, args, req, b) && cs.encode(e) == Ok(b.xdr)
  {
    var asked := BuildInvokeEnvelope(cs.strkey, pool.contractId, f, args, req.sourceAccount, b.sequence, pool.baseFee,
                                     req.deadline).value;
    assert Asked(cs, asked, pool, f, args, req, b.sequence) && SimulatedAs(cs, rpc, asked, b);
    var e := Simulated(asked, b.data, b.auth, b.minResourceFee, pool.baseFee, pool.feeCeiling).value;
    assert BuiltFrom(cs, e, pool, f, args, req, b) && cs.encode(e) == Ok(b.xdr);
  }

  /** Why a request is refused before anything is simulated. */
  lemma RequestRefusals(cs: Codecs, rpc: Rpc, pool: Pool, engine: Network, f: PoolFunction, args: seq<ScVal>,
                        req: Request, now: nat)
    ensures var r := Construct(cs, rpc, pool, engine, f, args, req, now);
            var account, sequence := ParseAccount(cs.strkey, req.sourceAccount), rpc.sequence(req.sourceAccount);
            if req.network != engine then r == Err(InvalidRequest)
            else if req.deadline <= now then r == Err(PreconditionFailed)
            else if account.Err? then r == Err(account.error)
            else if sequence.Err? then r == Err(sequence.error)
            else if ParseAddress(cs.strkey, pool.contractId).Err? then r == Err(InvalidRequest)
            else sequence.value >= I64_MAX ==> r == Err(Internal)
  {
  }

  /** What the simulation says decides the refusal: it fails closed when the
      call failed or entries must be restored, whatever else came with it. */
  lemma SimulationRefusals(cs: Codecs, rpc: Rpc, pool: Pool, engine: Network, f: PoolFunction, args: seq<ScVal>,
                           req: Request, now: nat, sequence: int, asked: Envelope)
    requires req.network == engine && req.deadline > now && rpc.sequence(req.sourceAccount) == Ok(sequence)
    requires Asked(cs, asked, pool, f, args, req, sequence) && cs.encode(asked).Ok?
    ensures var r, answer := Construct(cs, rpc, pool, engine, f, args, req, now), rpc.simulate(cs.encode(asked).value);
            && (answer.Err? ==> r == Err(answer.error))
            && (answer.Ok? ==>
                  var sim := answer.value;
                  if sim.failed || sim.mustRestore then r == Err(PreconditionFailed)
                  else if sim.data == None || sim.minResourceFee == None then r == Err(AdapterError)
                  else if sim.minResourceFee.value.Err? then r == Err(sim.minResourceFee.value.error)
                  else if sim.data.value.Err? then r == Err(sim.data.value.error)
                  else if sim.auth.Err? then r == Err(sim.auth.error)
                  else
                    var total := pool.baseFee + sim.minResourceFee.value.value;
                    if total > I64_MAX then r == Err(Internal)
                    else total < 0 || total > pool.feeCeiling ==> r == Err(PreconditionFailed))
  {
    assert BuildInvokeEnvelope(cs.strkey, pool.contractId, f, args, req.sourceAccount, sequence, pool.baseFee,
                               req.deadline) == Ok(asked);
  }

  lemma ConstructBuilds(cs: Codecs, rpc: Rpc, pool: Pool, engine: Network, f: PoolFunction, args: seq<ScVal>,
                        req: Request, now: nat) returns (e: Envelope)
    requires CodecsOk(cs) && Construct(cs, rpc, pool, engine, f, args, req, now).Ok?
    ensures var b := Construct(cs, rpc, pool, engine, f, args, req, now).value;
            && cs.decode(b.xdr) == Ok(e) && BuiltFrom(cs, e, pool, f, args, req, b)
            && req.network == engine && req.deadline > now
  {
    var b := Construct(cs, rpc, pool, engine, f, args, req, now).value;
    e := cs.decode(b.xdr).value;
  }

  /** What the review of a built transaction reports. */
  ghost predicate Reports(cs: Codecs, review: Review, pool: Pool, f: PoolFunction, args: seq<ScVal>, req: Request,
                          b: Built)
  {
    && review.contract == pool.contractId && review.fn == WireName(f)
    && review.args == ArgsToJson(cs, f, args) && review.sourceAccount == req.sourceAccount
    && review.sequence == b.sequence + 1
    && review.fee == pool.baseFee + b.minResourceFee <= pool.feeCeiling
    && review.resourceFee == Some(b.data.resourceFee)
    && review.deadline == req.deadline && review.operationCount == 1
    && review.auth == AuthSummary(cs, b.auth)
  }

  lemma BuiltValidates(cs: Codecs, e: Envelope, pool: Pool, f: PoolFunction, args: seq<ScVal>, req: Request, b: Built,
                       ctx: Context)
    requires CodecsOk(cs) && BuiltFrom(cs, e, pool, f, args, req, b)
    requires TypedCall(f, args, req.deadline) && req.deadline > ctx.now
    requires ctx.contractId == pool.contractId && ctx.feeCeiling == pool.feeCeiling
    requires ctx.expectedSequence == Some(b.sequence)
    ensures var r := ValidateCall(cs, e.tx, e.tx.operations[0].host, ctx);
            r.Ok? && Reports(cs, r.value, pool, f, args, req, b)
  {
    var call := e.tx.operations[0].host;
    AddressRoundTrip(cs.strkey, pool.contractId, call.contract);
    LookupInvertsWireName(call.functionName, f);
    EveryFunctionHasDeadline(f);
  }

  /** Once a transaction has been built, the engine's own policy accepts it, the
      drift check holds, and the review reports what was asked for. */
  lemma PreparedPassesOwnPolicy(cs: Codecs, rpc: Rpc, pool: Pool, engine: Network, f: PoolFunction, args: seq<ScVal>,
                                req: Request, now: nat)
    requires CodecsOk(cs) && TypedCall(f, args, req.deadline)
    ensures var built := Construct(cs, rpc, pool, engine, f, args, req, now);
            var r := PrepareTransaction(cs, rpc, pool, engine, f, args, req, now);
            if built.Err? then r == Err(built.error)
            else r.Ok? && r.value.xdr == built.value.xdr && Reports(cs, r.value.review, pool, f, args, req, built.value)
  {
    var built := Construct(cs, rpc, pool, engine, f, args, req, now);
    if built.Ok? {
      var e := ConstructBuilds(cs, rpc, pool, engine, f, args, req, now);
      var ctx := Context(engine, req.network, pool.contractId, pool.feeCeiling, now, Some(built.value.sequence));
      BuiltValidates(cs, e, pool, f, args, req, built.value, ctx);
    }
  }

  // ---------- what an accepted transaction is, wherever it came from ----------

  /** One direct call of the pool contract, by a function of the manifest with
      its number of arguments, the last one a deadline still ahead, within the
      fee ceiling and following the expected sequence number. */
  ghost predicate Policy(cs: Codecs, e: Envelope, f: PoolFunction, ctx: Context) {
    && e.Tx? && |e.tx.operations| == 1 && e.tx.operations[0].InvokeHostFunction?
    && var call := e.tx.operations[0].host;
    && call.InvokeContract? && AddressToString(cs.strkey, call.contract) == ctx.contractId
    && call.functionName == WireName(f) && |call.args| == |Params(f)| > 0
    && var last := call.args[|call.args| - 1];
    && last.U64? && last.n > ctx.now
    && e.tx.fee <= ctx.feeCeiling
    && (ctx.expectedSequence.Some? ==> e.tx.sequence == ctx.expectedSequence.value + 1)
  }

  /** A single call of a contract. */
  predicate OneCall(e: Envelope) {
    && e.Tx? && |e.tx.operations| == 1 && e.tx.operations[0].InvokeHostFunction?
    && e.tx.operations[0].host.InvokeContract?
  }

  lemma WithinPolicyAccepted(cs: Codecs, e: Envelope, f: PoolFunction, ctx: Context)
    requires OneCall(e) && Policy(cs, e, f, ctx)
    ensures var r := ValidateCall(cs, e.tx, e.tx.operations[0].host, ctx);
            r.Ok? && r.value.fn == WireName(f)
  {
    var call := e.tx.operations[0].host;
    KnownFunctionExactly(call.functionName, |call.args|, f);
    EveryFunctionHasDeadline(f);
  }

  lemma AcceptedIsKnown(cs: Codecs, e: Envelope, ctx: Context)
    requires OneCall(e) && ValidateCall(cs, e.tx, e.tx.operations[0].host, ctx).Ok?
    ensures var call := e.tx.operations[0].host;
            var known := RequireKnownFunction(call.functionName, |call.args|);
            && known.Ok?
            && ValidateCall(cs, e.tx, call, ctx).value.fn == WireName(known.value) && Policy(cs, e, known.value, ctx)
  {
    var call := e.tx.operations[0].host;
    var known := RequireKnownFunction(call.functionName, |call.args|).value;
    KnownFunctionExactly(call.functionName, |call.args|, known);
    EveryFunctionHasDeadline(known);
  }

  lemma AcceptedWithinPolicy(cs: Codecs, e: Envelope, f: PoolFunction, ctx: Context)
    requires OneCall(e)
    requires var r := ValidateCall(cs, e.tx, e.tx.operations[0].host, ctx);
             r.Ok? && r.value.fn == WireName(f)
    ensures Policy(cs, e, f, ctx)
  {
    var call := e.tx.operations[0].host;
    AcceptedIsKnown(cs, e, ctx);
    OneFunctionPerName(RequireKnownFunction(call.functionName, |call.args|).value, f);
  }

  lemma ValidateCallExactly(cs: Codecs, e: Envelope, f: PoolFunction, ctx: Context)
    requires OneCall(e)
    ensures var r := ValidateCall(cs, e.tx, e.tx.operations[0].host, ctx);
            Policy(cs, e, f, ctx) <==> r.Ok? && r.value.fn == WireName(f)
  {
    var r := ValidateCall(cs, e.tx, e.tx.operations[0].host, ctx);
    if Policy(cs, e, f, ctx) {
      WithinPolicyAccepted(cs, e, f, ctx);
    }
    if r.Ok? && r.value.fn == WireName(f) {
      AcceptedWithinPolicy(cs, e, f, ctx);
    }
  }

  /** The call is one of the pool contract by a function of the manifest, with its number of arguments. */
  ghost predicate Addressed(cs: Codecs, e: Envelope, f: PoolFunction, ctx: Context) {
    && OneCall(e) && AddressToString(cs.strkey, e.tx.operations[0].host.contract) == ctx.contractId
    && e.tx.operations[0].host.functionName == WireName(f) && |e.tx.operations[0].host.args| == |Params(f)| > 0
  }

  /** Why an accepted text is not: what is not such a call is an invalid request;
      a deadline of the wrong type is an internal error; a deadline, fee or
      sequence number out of policy fails a precondition. */
  lemma ValidateRefusals(cs: Codecs, xdr: string, f: PoolFunction, ctx: Context)
    ensures var r, decoded := Validate(cs, xdr, ctx), cs.decode(xdr);
            && (ctx.declaredNetwork != ctx.network ==> r == Err(InvalidRequest))
            && (ctx.declaredNetwork == ctx.network && decoded.Err? ==> r == Err(decoded.error))
            && (ctx.declaredNetwork == ctx.network && decoded.Ok? ==>
                  && ((forall g :: !Addressed(cs, decoded.value, g, ctx)) ==> r == Err(InvalidRequest))
                  && (Addressed(cs, decoded.value, f, ctx) && r.Err? ==>
                        var args := decoded.value.tx.operations[0].host.args;
                        r.error == if args[|args| - 1].U64? then PreconditionFailed else Internal))
  {
    var decoded := cs.decode(xdr);
    if decoded.Ok? && OneCall(decoded.value) {
      var call := decoded.value.tx.operations[0].host;
      var known := RequireKnownFunction(call.functionName, |call.args|);
      KnownFunctionExactly(call.functionName, |call.args|, f);
      EveryFunctionHasDeadline(f);
      if known.Ok? {
        KnownFunctionExactly(call.functionName, |call.args|, known.value);
        EveryFunctionHasDeadline(known.value);
        assert AddressToString(cs.strkey, call.contract) == ctx.contractId ==>
            Addressed(cs, decoded.value, known.value, ctx);
      }
    }
  }

  /** The summary lists each authorisation in order: none for the source
      account's own, the address in its text form for any other. */
  ghost predicate ListsAuth(cs: Codecs, listed: seq<Option<string>>, auth: seq<AuthEntry>) {
    && |listed| == |auth|
    && forall i :: 0 <= i < |auth| ==>
         match auth[i]
         case SourceAccountAuth => listed[i] == None
         case AddressAuth(ContractAddress(k)) => listed[i] == Some(cs.strkey.contractTo(k))
         case AddressAuth(AccountAddress(k)) => listed[i] == Some(cs.strkey.accountTo(k))
         case AddressAuth(ForeignAddress(text)) => listed[i] == Some(text)
  }

  /** A review says of the accepted transaction, wherever it came from, what it is. */
  lemma ReviewTellsTransaction(cs: Codecs, xdr: string, ctx: Context)
    requires Validate(cs, xdr, ctx).Ok?
    ensures var review, tx := Validate(cs, xdr, ctx).value, cs.decode(xdr).value.tx;
            var call := tx.operations[0].host;
            && review.contract == ctx.contractId && review.fn == call.functionName
            && review.sourceAccount == cs.strkey.accountTo(tx.source.key)
            && review.sequence == tx.sequence && review.fee == tx.fee && review.operationCount == |tx.operations| == 1
            && (tx.ext == V0 ==> review.resourceFee == None)
            && (tx.ext.V1? ==> review.resourceFee == Some(tx.ext.data.resourceFee))
            && call.args != [] && call.args[|call.args| - 1] == U64(review.deadline)
            && ListsAuth(cs, review.auth, tx.operations[0].auth)
            && exists f :: call.functionName == WireName(f) && review.args == ArgsToJson(cs, f, call.args)
  {
    var e := cs.decode(xdr).value;
    AcceptedIsKnown(cs, e, ctx);
    var call := e.tx.operations[0].host;
    var known := RequireKnownFunction(call.functionName, |call.args|).value;
    KnownFunctionExactly(call.functionName, |call.args|, known);
    EveryFunctionHasDeadline(known);
  }

  lemma OneFunctionPerName(f: PoolFunction, g: PoolFunction)
    ensures WireName(f) == WireName(g) <==> f == g
  {
    LookupInvertsWireName(WireName(f), f);
    LookupInvertsWireName(WireName(f), g);
  }

  /** `validate` accepts a text, as a call of `f`, exactly when it decodes to a
      transaction within the policy and the networks agree. */
  lemma ValidateExactly(cs: Codecs, xdr: string, f: PoolFunction, ctx: Context)
    ensures var r := Validate(cs, xdr, ctx);
            r.Ok? && r.value.fn == WireName(f) <==>
              ctx.declaredNetwork == ctx.network && cs.decode(xdr).Ok? && Policy(cs, cs.decode(xdr).value, f, ctx)
  {
    if cs.decode(xdr).Ok? {
      var e := cs.decode(xdr).value;
      if OneCall(e) {
        ValidateCallExactly(cs, e, f, ctx);
      }
    }
  }

  // ---------- the reviewed arguments are the invoked arguments ----------

  /** Each argument shows under its own name, whatever comes after it. */
  lemma {:induction false} FieldShown(cs: Codecs, params: seq<AbiParam>, args: seq<ScVal>, n: nat, i: nat)
    requires i < n <= |args| && n <= |params| && DistinctNames(params)
    ensures var fields := ArgFields(cs, params, args, n);
            params[i].name in fields && fields[params[i].name] == ScValToJson(cs, args[i], Some(params[i].ty))
  {
    if i < n - 1 {
      FieldShown(cs, params, args, n - 1, i);
      assert params[i].name != params[n - 1].name;
    }
  }

  /** How an argument shows: as what it is when it has the declared type, and
      otherwise as a diagnostic text. */
  lemma ArgumentShown(cs: Codecs, v: ScVal, ty: AbiType)
    requires PartsInRange(v)
    ensures var shown := ScValToJson(cs, v, Some(ty));
            match (ty, v)
            case (AddressType, Address(ContractAddress(k))) => shown == String(cs.strkey.contractTo(k))
            case (AddressType, Address(AccountAddress(k))) => shown == String(cs.strkey.accountTo(k))
            case (AddressType, Address(ForeignAddress(text))) => shown == String(text)
            case (I128Type, I128(hi, lo)) =>
              shown == String(Decimal.Integer(hi * 0x1_0000_0000_0000_0000 + lo))
            case (U64Type, U64(n)) => shown == Number(Decimal.Natural(n))
            case (_, _) => shown == String(cs.debug(v))
    ensures ScValToJson(cs, v, None) == String(cs.debug(v))
  {
    if v.I128? {
      PartsValue(v.hi, v.lo);
    }
  }

  lemma ShownPinsValue(cs: Codecs, v: ScVal, w: ScVal, ty: AbiType)
    requires CodecsOk(cs) && HasType(v, ty) && HasType(w, ty)
    requires ScValToJson(cs, v, Some(ty)) == ScValToJson(cs, w, Some(ty))
    ensures v == w
  {
    match ty {
      case AddressType =>
        AddressRoundTrip(cs.strkey, AddressToString(cs.strkey, v.address), v.address);
        AddressRoundTrip(cs.strkey, AddressToString(cs.strkey, v.address), w.address);
      case I128Type =>
        PartsRoundTrip(v);
        PartsRoundTrip(w);
        Decimal.IntegerInjective(ScValToI128(v).value, ScValToI128(w).value);
      case U64Type =>
        Decimal.NaturalInjective(v.n, w.n);
    }
  }

  /** Typed arguments that are shown alike are alike, so an unchanged review
      means an unchanged invocation. */
  lemma ReviewPinsArguments(cs: Codecs, f: PoolFunction, args: seq<ScVal>, args': seq<ScVal>)
    requires CodecsOk(cs) && Typed(f, args) && Typed(f, args')
    ensures ArgsToJson(cs, f, args) == ArgsToJson(cs, f, args') <==> args == args'
  {
    if ArgsToJson(cs, f, args) == ArgsToJson(cs, f, args') {
      var params := Params(f);
      NamesDistinct(f);
      forall i | 0 <= i < |args|
        ensures args[i] == args'[i]
      {
        FieldShown(cs, params, args, |args|, i);
        FieldShown(cs, params, args', |args|, i);
        ShownPinsValue(cs, args[i], args'[i], params[i].ty);
      }
    }
  }

  // ---------- encoders ----------

  function EncodeAddress(cs: Codecs, s: string): Result<ScVal> {
    var a :- ParseAddress(cs.strkey, s);
    Ok(Address(a))
  }

  function EncodeAmount(amount: nat): Result<ScVal> {
    var v :- U128ToPositiveI128(amount);
    Ok(I128ToScVal(v))
  }

  function EncodeSwapArgs(cs: Codecs, to: string, amount0Out: nat, amount1Out: nat, deadline: nat): Result<seq<ScVal>> {
    var t :- EncodeAddress(cs, to);
    var a0 :- EncodeAmount(amount0Out);
    var a1 :- EncodeAmount(amount1Out);
    Ok([t, a0, a1, U64(deadline)])
  }

  function EncodeAddLiquidityArgs(cs: Codecs, from: string, to: string, desired0: nat, desired1: nat, min0: nat,
                                  min1: nat, deadline: nat): Result<seq<ScVal>>
  {
    var f :- EncodeAddress(cs, from);
    var t :- EncodeAddress(cs, to);
    var d0 :- EncodeAmount(desired0);
    var d1 :- EncodeAmount(desired1);
    var m0 :- EncodeAmount(min0);
    var m1 :- EncodeAmount(min1);
    Ok([f, t, d0, d1, m0, m1, U64(deadline)])
  }

  function EncodeRemoveLiquidityArgs(cs: Codecs, from: string, to: string, liquidity: nat, min0: nat, min1: nat,
                                     deadline: nat): Result<seq<ScVal>>
  {
    var f :- EncodeAddress(cs, from);
    var t :- EncodeAddress(cs, to);
    var l :- EncodeAmount(liquidity);
    var m0 :- EncodeAmount(min0);
    var m1 :- EncodeAmount(min1);
    Ok([f, t, l, m0, m1, U64(deadline)])
  }

  /** A value of type `ty` that a review shows as `shown`. */
  ghost predicate ShownAs(cs: Codecs, v: ScVal, ty: AbiType, shown: Value) {
    HasType(v, ty) && ScValToJson(cs, v, Some(ty)) == shown
  }

  lemma AddressShown(cs: Codecs, s: string)
    requires CodecsOk(cs) && EncodeAddress(cs, s).Ok?
    ensures ShownAs(cs, EncodeAddress(cs, s).value, AddressType, String(s))
  {
    AddressRoundTrip(cs.strkey, s, EncodeAddress(cs, s).value.address);
  }

  lemma AmountShown(cs: Codecs, amount: nat)
    requires EncodeAmount(amount).Ok?
    ensures ShownAs(cs, EncodeAmount(amount).value, I128Type, Amount(amount))
  {
    I128RoundTrip(amount);
  }

  lemma {:induction false} FieldKeys(cs: Codecs, params: seq<AbiParam>, args: seq<ScVal>, n: nat)
    requires n <= |args| && n <= |params|
    ensures ArgFields(cs, params, args, n).Keys == set i | 0 <= i < n :: params[i].name
  {
    if n > 0 {
      FieldKeys(cs, params, args, n - 1);
    }
  }

  /** The document has exactly these fields with these values. */
  ghost predicate ShowsUnder(v: Value, names: seq<string>, values: seq<Value>) {
    && v.Object? && |names| == |values|
    && v.fields.Keys == (set i | 0 <= i < |names| :: names[i])
    && forall i :: 0 <= i < |names| ==> names[i] in v.fields && v.fields[names[i]] == values[i]
  }

  predicate Encodable(cs: Codecs, s: string) {
    ParseAddress(cs.strkey, s).Ok?
  }

  predicate FitsI128(amount: nat) {
    amount <= 0x7FFF_FFFF_FFFF_FFFF_FFFF_FFFF_FFFF_FFFF
  }

  predicate Named(ps: seq<AbiParam>, names: seq<string>) {
    |ps| == |names| && forall i :: 0 <= i < |ps| ==> ps[i].name == names[i]
  }

  lemma EachShown(cs: Codecs, f: PoolFunction, args: seq<ScVal>, names: seq<string>, values: seq<Value>)
    requires |args| == |values| && Named(Params(f), names) && |args| == |names|
    requires forall i :: 0 <= i < |args| ==> ShownAs(cs, args[i], Params(f)[i].ty, values[i])
    ensures Typed(f, args) && ShowsUnder(ArgsToJson(cs, f, args), names, values)
  {
    var ps := Params(f);
    NamesDistinct(f);
    FieldKeys(cs, ps, args, |args|);
    forall i | 0 <= i < |ps|
      ensures HasType(args[i], ps[i].ty)
      ensures names[i] in ArgFields(cs, ps, args, |args|) && ArgFields(cs, ps, args, |args|)[names[i]] == values[i]
    {
      assert ShownAs(cs, args[i], ps[i].ty, values[i]);
      FieldShown(cs, ps, args, |args|, i);
    }
    SameNames(ps, names);
  }

  lemma SameNames(ps: seq<AbiParam>, names: seq<string>)
    requires Named(ps, names)
    ensures (set i | 0 <= i < |ps| :: ps[i].name) == (set i | 0 <= i < |names| :: names[i])
  {
    forall i | 0 <= i < |names|
      ensures names[i] in (set k | 0 <= k < |ps| :: ps[k].name)
    {
      assert ps[i].name == names[i];
    }
  }

  function Amount(n: nat): Value {
    String(Decimal.Natural(n))
  }

  function Deadline(deadline: nat): Value {
    Number(Decimal.Natural(deadline))
  }

  /** One argument of a swap, and how a review shows it. */
  lemma SwapArgShown(cs: Codecs, to: string, amount0Out: nat, amount1Out: nat, deadline: nat, i: nat)
    requires CodecsOk(cs) && EncodeSwapArgs(cs, to, amount0Out, amount1Out, deadline).Ok? && i < 4
    ensures var args := EncodeSwapArgs(cs, to, amount0Out, amount1Out, deadline).value;
            var shown := [String(to), Amount(amount0Out), Amount(amount1Out), Deadline(deadline)];
            |args| == 4 && ShownAs(cs, args[i], SWAP_PARAMS[i].ty, shown[i])
  {
    match i {
      case 0 => AddressShown(cs, to);
      case 1 => AmountShown(cs, amount0Out);
      case 2 => AmountShown(cs, amount1Out);
      case _ =>
    }
  }

  /** What a swap asks for is what its review shows, under these names; it is
      refused exactly for a bad address or an amount beyond i128. */
  lemma SwapArgsShown(cs: Codecs, to: string, amount0Out: nat, amount1Out: nat, deadline: nat)
    requires CodecsOk(cs)
    ensures var r := EncodeSwapArgs(cs, to, amount0Out, amount1Out, deadline);
            && (r.Ok? <==> Encodable(cs, to) && FitsI128(amount0Out) && FitsI128(amount1Out))
            && (r.Err? ==> r.error == InvalidRequest)
            && (r.Ok? ==>
                  && TypedCall(Swap, r.value, deadline)
                  && ShowsUnder(ArgsToJson(cs, Swap, r.value),
                                ["to", "amount_0_out", "amount_1_out", "deadline"],
                                [String(to), Amount(amount0Out), Amount(amount1Out), Deadline(deadline)]))
  {
    var r := EncodeSwapArgs(cs, to, amount0Out, amount1Out, deadline);
    if r.Ok? {
      ParamsOf(Swap);
      var names := ["to", "amount_0_out", "amount_1_out", "deadline"];
      var shown := [String(to), Amount(amount0Out), Amount(amount1Out), Deadline(deadline)];
      forall i | 0 <= i < |r.value|
        ensures ShownAs(cs, r.value[i], Params(Swap)[i].ty, shown[i])
      {
        SwapArgShown(cs, to, amount0Out, amount1Out, deadline, i);
      }
      assert Named(SWAP_PARAMS, names);
      EachShown(cs, Swap, r.value, names, shown);
    }
  }

  lemma AddLiquidityArgShown(cs: Codecs, from: string, to: string, desired0: nat, desired1: nat, min0: nat, min1: nat,
                             deadline: nat, i: nat)
    requires CodecsOk(cs) && EncodeAddLiquidityArgs(cs, from, to, desired0, desired1, min0, min1, deadline).Ok?
    requires i < 7
    ensures var args := EncodeAddLiquidityArgs(cs, from, to, desired0, desired1, min0, min1, deadline).value;
            var shown := [String(from), String(to), Amount(desired0), Amount(desired1), Amount(min0), Amount(min1),
                          Deadline(deadline)];
            |args| == 7 && ShownAs(cs, args[i], ADD_LIQUIDITY_PARAMS[i].ty, shown[i])
  {
    match i {
      case 0 => AddressShown(cs, from);
      case 1 => AddressShown(cs, to);
      case 2 => AmountShown(cs, desired0);
      case 3 => AmountShown(cs, desired1);
      case 4 => AmountShown(cs, min0);
      case 5 => AmountShown(cs, min1);
      case _ =>
    }
  }

  /** The same for adding liquidity. */
  lemma AddLiquidityArgsShown(cs: Codecs, from: string, to: string, desired0: nat, desired1: nat, min0: nat, min1: nat,
                              deadline: nat)
    requires CodecsOk(cs)
    ensures var r := EncodeAddLiquidityArgs(cs, from, to, desired0, desired1, min0, min1, deadline);
            && (r.Ok? <==> && Encodable(cs, from) && Encodable(cs, to) && FitsI128(desired0) && FitsI128(desired1)
                           && FitsI128(min0) && FitsI128(min1))
            && (r.Err? ==> r.error == InvalidRequest)
            && (r.Ok? ==>
                  && TypedCall(AddLiquidity, r.value, deadline)
                  && ShowsUnder(ArgsToJson(cs, AddLiquidity, r.value),
                                ["from", "to", "amount_0_desired", "amount_1_desired", "amount_0_min",
                                 "amount_1_min", "deadline"],
                                [String(from), String(to), Amount(desired0), Amount(desired1), Amount(min0),
                                 Amount(min1), Deadline(deadline)]))
  {
    var r := EncodeAddLiquidityArgs(cs, from, to, desired0, desired1, min0, min1, deadline);
    if r.Ok? {
      ParamsOf(AddLiquidity);
      var names := ["from", "to", "amount_0_desired", "amount_1_desired", "amount_0_min", "amount_1_min",
                   "deadline"];
      var shown := [String(from), String(to), Amount(desired0), Amount(desired1), Amount(min0), Amount(min1),
                   Deadline(deadline)];
      forall i | 0 <= i < |r.value|
        ensures ShownAs(cs, r.value[i], Params(AddLiquidity)[i].ty, shown[i])
      {
        AddLiquidityArgShown(cs, from, to, desired0, desired1, min0, min1, deadline, i);
      }
      assert Named(ADD_LIQUIDITY_PARAMS, names);
      EachShown(cs, AddLiquidity, r.value, names, shown);
    }
  }

  lemma RemoveLiquidityArgShown(cs: Codecs, from: string, to: string, liquidity: nat, min0: nat, min1: nat,
                                deadline: nat, i: nat)
    requires CodecsOk(cs) && EncodeRemoveLiquidityArgs(cs, from, to, liquidity, min0, min1, deadline).Ok? && i < 6
    ensures var args := EncodeRemoveLiquidityArgs(cs, from, to, liquidity, min0, min1, deadline).value;
            var shown := [String(from), String(to), Amount(liquidity), Amount(min0), Amount(min1), Deadline(deadline)];
            |args| == 6 && ShownAs(cs, args[i], REMOVE_LIQUIDITY_PARAMS[i].ty, shown[i])
  {
    match i {
      case 0 => AddressShown(cs, from);
      case 1 => AddressShown(cs, to);
      case 2 => AmountShown(cs, liquidity);
      case 3 => AmountShown(cs, min0);
      case 4 => AmountShown(cs, min1);
      case _ =>
    }
  }

  /** The same for removing liquidity. */
  lemma RemoveLiquidityArgsShown(cs: Codecs, from: string, to: string, liquidity: nat, min0: nat, min1: nat,
                                 deadline: nat)
    requires CodecsOk(cs)
    ensures var r := EncodeRemoveLiquidityArgs(cs, from, to, liquidity, min0, min1, deadline);
            && (r.Ok? <==> && Encodable(cs, from) && Encodable(cs, to) && FitsI128(liquidity) && FitsI128(min0)
                           && FitsI128(min1))
            && (r.Err? ==> r.error == InvalidRequest)
            && (r.Ok? ==>
                  && TypedCall(RemoveLiquidity, r.value, deadline)
                  && ShowsUnder(ArgsToJson(cs, RemoveLiquidity, r.value),
                                ["from", "to", "liquidity", "amount_0_min", "amount_1_min", "deadline"],
                                [String(from), String(to), Amount(liquidity), Amount(min0), Amount(min1),
                                 Deadline(deadline)]))
  {
    var r := EncodeRemoveLiquidityArgs(cs, from, to, liquidity, min0, min1, deadline);
    if r.Ok? {
      ParamsOf(RemoveLiquidity);
      var names := ["from", "to", "liquidity", "amount_0_min", "amount_1_min", "deadline"];
      var shown := [String(from), String(to), Amount(liquidity), Amount(min0), Amount(min1), Deadline(deadline)];
      forall i | 0 <= i < |r.value|
        ensures ShownAs(cs, r.value[i], Params(RemoveLiquidity)[i].ty, shown[i])
      {
        RemoveLiquidityArgShown(cs, from, to, liquidity, min0, min1, deadline, i);
      }
      assert Named(REMOVE_LIQUIDITY_PARAMS, names);
      EachShown(cs, RemoveLiquidity, r.value, names, shown);
    }
  }
}
