/** Typed Soroban values and the envelope of one contract call. */
module PoolXdr {
  import opened Common
  import opened PoolAbi

  // ---------- addresses ----------

  /** The 32 bytes of a contract or account key. */
  type Key = k: seq<nat> | |k| == 32 && forall i :: 0 <= i < |k| ==> k[i] < 256 witness seq(32, _ => 0)

  /** Addresses of other kinds only ever show up as a diagnostic text. */
  datatype ScAddress = ContractAddress(key: Key) | AccountAddress(key: Key) | ForeignAddress(text: string)

  /** The strkey codec: checksummed text of contract and account keys. */
  datatype Strkey = Strkey(
    contractFrom: string -> Option<Key>,
    contractTo: Key -> string,
    accountFrom: string -> Option<Key>,
    accountTo: Key -> string)

  /** Text and keys correspond one to one, and no text is both kinds. */
  ghost predicate StrkeyOk(sk: Strkey) {
    && (forall s: string, k: Key :: sk.contractFrom(s) == Some(k) <==> sk.contractTo(k) == s)
    && (forall s: string, k: Key :: sk.accountFrom(s) == Some(k) <==> sk.accountTo(k) == s)
    && (forall k: Key :: sk.contractFrom(sk.accountTo(k)) == None)
  }

  function Spell(kind: char, k: Key): string {
    [kind] + seq(|k|, i requires 0 <= i < |k| => k[i] as char)
  }

  function Unspell(kind: char, s: string): Option<Key> {
    if |s| == 33 && s[0] == kind && forall c :: c in s[1..] ==> c as nat < 256 then
      assert forall i :: 0 <= i < 32 ==> s[1..][i] in s[1..];
      var k: Key := seq(32, i requires 0 <= i < 32 => s[1..][i] as nat);
      Some(k)
    else
      None
  }

  lemma UnspellInvertsSpell(kind: char, s: string, k: Key)
    ensures Unspell(kind, s) == Some(k) <==> Spell(kind, k) == s
  {
    if Unspell(kind, s) == Some(k) {
      assert Spell(kind, k)[1..] == s[1..];
      assert s == [kind] + s[1..];
    }
    if Spell(kind, k) == s {
      assert |s[1..]| == 32;
      assert forall i :: 0 <= i < |k| ==> s[1..][i] as nat == k[i];
      assert Unspell(kind, s).value == k;
    }
  }

  /** Such codecs exist. */
  lemma StrkeyExists() returns (sk: Strkey)
    ensures StrkeyOk(sk)
  {
    sk := Strkey(s => Unspell('C', s), (k: Key) => Spell('C', k), s => Unspell('G', s), (k: Key) => Spell('G', k));
    forall s: string, k: Key
      ensures sk.contractFrom(s) == Some(k) <==> sk.contractTo(k) == s
      ensures sk.accountFrom(s) == Some(k) <==> sk.accountTo(k) == s
    {
      UnspellInvertsSpell('C', s, k);
      UnspellInvertsSpell('G', s, k);
    }
  }

  function ParseAddress(sk: Strkey, s: string): Result<ScAddress> {
    match sk.contractFrom(s)
    case Some(k) => Ok(ContractAddress(k))
    case None =>
      match sk.accountFrom(s)
      case Some(k) => Ok(AccountAddress(k))
      case None => Err(InvalidRequest)
  }

  function ParseAccount(sk: Strkey, s: string): Result<Key> {
    match sk.accountFrom(s)
    case Some(k) => Ok(k)
    case None => Err(InvalidRequest)
  }

  function AddressToString(sk: Strkey, a: ScAddress): string {
    match a
    case ContractAddress(k) => sk.contractTo(k)
    case AccountAddress(k) => sk.accountTo(k)
    case ForeignAddress(text) => text
  }

  /** Parsing is exactly the inverse of printing, on the two kinds it accepts. */
  lemma AddressRoundTrip(sk: Strkey, s: string, a: ScAddress)
    requires StrkeyOk(sk)
    ensures ParseAddress(sk, s) == Ok(a) <==> !a.ForeignAddress? && AddressToString(sk, a) == s
  {
  }

  /** An account is read exactly from its own text, and what is no address is an invalid request. */
  lemma AccountRoundTrip(sk: Strkey, s: string, k: Key)
    requires StrkeyOk(sk)
    ensures ParseAccount(sk, s) == Ok(k) <==> sk.accountTo(k) == s
    ensures ParseAccount(sk, s).Err? ==> ParseAccount(sk, s).error == InvalidRequest
    ensures ParseAddress(sk, s).Err? ==> ParseAddress(sk, s).error == InvalidRequest
  {
  }

  // ---------- scalars ----------

  const I128_MAX: int := 0x7FFF_FFFF_FFFF_FFFF_FFFF_FFFF_FFFF_FFFF
  const I128_MIN: int := -I128_MAX - 1
  const U64_SIZE: int := 0x1_0000_0000_0000_0000
  const U128_SIZE: int := 0x1_0000_0000_0000_0000_0000_0000_0000_0000

  datatype ScVal =
    | I128(hi: int, lo: int)
    | U64(n: nat)
    | Address(address: ScAddress)
    | Other(text: string)

  /** Reinterpreting the low `size` values as signed or unsigned, as `as` casts do. */
  function Unsigned(v: int, size: int): int
    requires size > 0
  {
    if v < 0 then v + size else v
  }

  function Signed(v: int, size: int): int
    requires size > 0
  {
    if v >= size / 2 then v - size else v
  }

  function I128ToScVal(v: int): ScVal
    requires I128_MIN <= v <= I128_MAX
  {
    var bits := Unsigned(v, U128_SIZE);
    I128(Signed(bits / U64_SIZE, U64_SIZE), bits % U64_SIZE)
  }

  function ScValToI128(v: ScVal): Result<int> {
    match v
    case I128(hi, lo) => Ok(Signed(Unsigned(hi, U64_SIZE) * U64_SIZE + lo, U128_SIZE))
    case _ => Err(Internal)
  }

  function ScValToU64(v: ScVal): Result<nat> {
    match v
    case U64(n) => Ok(n)
    case _ => Err(Internal)
  }

  function U128ToPositiveI128(amount: nat): Result<int> {
    if amount <= I128_MAX then Ok(amount) else Err(InvalidRequest)
  }

  predicate PartsInRange(v: ScVal) {
    v.I128? ==> I64_MIN <= v.hi <= I64_MAX && 0 <= v.lo < U64_SIZE
  }

  /** An i128 survives its two halves, and every pair of halves is one i128. */
  lemma I128RoundTrip(v: int)
    requires I128_MIN <= v <= I128_MAX
    ensures PartsInRange(I128ToScVal(v)) && ScValToI128(I128ToScVal(v)) == Ok(v)
  {
  }

  lemma PartsRoundTrip(v: ScVal)
    requires v.I128? && PartsInRange(v)
    ensures var n := ScValToI128(v); n.Ok? && I128_MIN <= n.value <= I128_MAX && I128ToScVal(n.value) == v
  {
    var bits := Unsigned(v.hi, U64_SIZE) * U64_SIZE + v.lo;
    assert bits / U64_SIZE == Unsigned(v.hi, U64_SIZE) && bits % U64_SIZE == v.lo;
  }

  /** Two halves in range stand for hi * 2^64 + lo. */
  lemma PartsValue(hi: int, lo: int)
    requires PartsInRange(I128(hi, lo))
    ensures ScValToI128(I128(hi, lo)) == Ok(hi * 0x1_0000_0000_0000_0000 + lo)
  {
  }

  // ---------- envelopes ----------

  datatype AuthEntry = SourceAccountAuth | AddressAuth(address: ScAddress)

  datatype HostFunction =
    | InvokeContract(contract: ScAddress, functionName: string, args: seq<ScVal>)
    | OtherHostFunction

  datatype Operation = InvokeHostFunction(host: HostFunction, auth: seq<AuthEntry>) | OtherOperation

  datatype SorobanData = SorobanData(resourceFee: int, footprint: string)

  datatype Ext = V0 | V1(data: SorobanData)

  datatype MuxedAccount = Ed25519(key: Key) | MuxedEd25519(key: Key, id: nat)

  datatype Transaction = Transaction(
    source: MuxedAccount,
    fee: int,
    sequence: int,
    maxTime: nat,
    operations: seq<Operation>,
    ext: Ext)

  datatype Envelope = Tx(tx: Transaction) | OtherEnvelope

  function BuildInvokeEnvelope(sk: Strkey, contract: string, f: PoolFunction, args: seq<ScVal>, sourceAccount: string,
                               sequence: int, baseFee: nat, deadline: nat): Result<Envelope>
  {
    var contractAddress :- ParseAddress(sk, contract);
    var source :- ParseAccount(sk, sourceAccount);
    if sequence + 1 > I64_MAX then Err(Internal)
    else
      var op := InvokeHostFunction(InvokeContract(contractAddress, WireName(f), args), []);
      Ok(Tx(Transaction(Ed25519(source), baseFee, sequence + 1, deadline, [op], V0)))
  }

  /** Attaches footprint, authorisation and fee to a single-call envelope. */
  method ApplySimulation(envelope: Envelope, data: SorobanData, auth: seq<AuthEntry>, resourceFee: int, baseFee: nat,
                         feeCeiling: nat) returns (r: Result<Envelope>)
    ensures r == Simulated(envelope, data, auth, resourceFee, baseFee, feeCeiling)
  {
    if envelope.OtherEnvelope? {
      return Err(Internal);
    }
    var tx := envelope.tx;
    if |tx.operations| != 1 {
      return Err(Internal);
    }
    var op := tx.operations[0];
    if op.OtherOperation? {
      return Err(Internal);
    }
    op := op.(auth := auth);
    var totalFee := baseFee + resourceFee;
    if totalFee > I64_MAX {
      return Err(Internal);
    }
    if totalFee < 0 || totalFee > feeCeiling {
      return Err(PreconditionFailed);
    }
    tx := tx.(fee := totalFee);
    tx := tx.(ext := V1(data));
    tx := tx.(operations := [op]);
    r := Ok(Tx(tx));
  }

  function Simulated(envelope: Envelope, data: SorobanData, auth: seq<AuthEntry>, resourceFee: int, baseFee: nat,
                     feeCeiling: nat): Result<Envelope>
  {
    if envelope.OtherEnvelope? || |envelope.tx.operations| != 1 || envelope.tx.operations[0].OtherOperation? then
      Err(Internal)
    else if baseFee + resourceFee > I64_MAX then Err(Internal)
    else if baseFee + resourceFee < 0 || baseFee + resourceFee > feeCeiling then Err(PreconditionFailed)
    else
      Ok(Tx(envelope.tx.(fee := baseFee + resourceFee, ext := V1(data),
                         operations := [envelope.tx.operations[0].(auth := auth)])))
  }

  /** Simulation is applied exactly to a single host-function call whose total
      fee fits and stays within the ceiling; then fee, resource data and
      authorisation are what was given, and all else is as it was. */
  lemma SimulatedExactly(e: Envelope, data: SorobanData, auth: seq<AuthEntry>, resourceFee: int, baseFee: nat,
                         feeCeiling: nat)
    ensures var r, total := Simulated(e, data, auth, resourceFee, baseFee, feeCeiling), baseFee + resourceFee;
            var single := e.Tx? && |e.tx.operations| == 1 && e.tx.operations[0].InvokeHostFunction?;
            && (r == Err(Internal) <==> !single || total > I64_MAX)
            && (r == Err(PreconditionFailed) <==> single && total <= I64_MAX && (total < 0 || total > feeCeiling))
            && (r.Ok? <==> single && 0 <= total <= I64_MAX && total <= feeCeiling)
            && (r.Ok? ==>
                  && r.value.Tx? && r.value.tx.fee == total && r.value.tx.ext == V1(data)
                  && r.value.tx.operations == [InvokeHostFunction(e.tx.operations[0].host, auth)]
                  && r.value.tx.source == e.tx.source && r.value.tx.sequence == e.tx.sequence
                  && r.value.tx.maxTime == e.tx.maxTime)
  {
  }
}
