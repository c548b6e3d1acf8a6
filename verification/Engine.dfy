/**
  `Engine::initiate_idempotent` as the code performs it: ordered calls on the
  claim store and on the instance's payment store, with anything the rest of
  the deployment may do at every point where the code awaits. Every call is
  shown to be one step of the protocol, so whatever holds of all runs holds of
  the engine. What the surroundings decide (fresh ids, clock readings, the
  validation and routing results, the adapter's answers, the steps of others)
  are parameters.
 */
module Engine {
  import opened Common
  import opened ClaimStore
  import opened PaymentStore
  import opened EngineProtocol
  import opened EngineSafety
  import EngineTheorems

  /** What one initiation meets. `others` lists, for each await in turn, steps
      that the rest of the deployment attempts there. The clock is read anew
      for every stamp. */
  datatype Surroundings = Surroundings(
    valid: bool,
    route: Result<u64>,
    routeError: string,
    paymentId: string,
    claimedAt: int,
    markedAt: int,
    createdAt: string,
    startedAt: string,
    settledAt: string,
    attempts: seq<Settlement>,
    others: seq<seq<Step>>)
  {
    function Others(await: nat): seq<Step> {
      if await < |others| then others[await] else []
    }
  }

  /** What retrying reports: the first acceptance, or else the last rejection. */
  function RetryOutcome(attempts: seq<Settlement>): Settlement
    requires attempts != []
  {
    if attempts[0].Accepted? || |attempts| == 1 then attempts[0] else RetryOutcome(attempts[1..])
  }

  /** How many attempts that takes. */
  function AttemptsMade(attempts: seq<Settlement>): (n: nat)
    requires attempts != []
    ensures 0 < n <= |attempts| && RetryOutcome(attempts) == attempts[n - 1]
    ensures forall i :: 0 <= i < n - 1 ==> attempts[i].Rejected?
    ensures n < |attempts| ==> attempts[n - 1].Accepted?
  {
    if attempts[0].Accepted? || |attempts| == 1 then 1 else 1 + AttemptsMade(attempts[1..])
  }

  lemma AttemptsEnd(attempts: seq<Settlement>, n: nat)
    requires 0 < n <= |attempts| && (n == |attempts| || attempts[n - 1].Accepted?)
    requires forall i :: 0 <= i < n - 1 ==> attempts[i].Rejected?
    ensures n == AttemptsMade(attempts) && attempts[n - 1] == RetryOutcome(attempts)
  {
  }

  function FailedPayment(request: Request, env: Surroundings): Payment {
    NewPayment(request, env.paymentId, Failed, 0, Some(env.routeError), env.createdAt)
  }

  function PendingPayment(request: Request, fee: u64, env: Surroundings): Payment {
    NewPayment(request, env.paymentId, Pending, fee, None, env.createdAt)
  }

  function StartedPayment(request: Request, fee: u64, env: Surroundings): Payment {
    WithStatus(PendingPayment(request, fee, env), Processing, env.startedAt)
  }

  /** Where a claim's outcome takes the request. */
  function PhaseAfter(claim: ClaimOutcome): Phase {
    match claim
    case Claimed(_) => Granted
    case TookOver(_) => Granted
    case AwaitingResult(executionRef) => Reconciling(executionRef)
    case HeldByOther => Done
    case Replay(_) => Done
  }

  /** The payment that an initiation ends with, if it ends. */
  function FinalPayment(request: Request, env: Surroundings): Payment
    requires env.attempts != []
  {
    match env.route
    case Err(_) => FailedPayment(request, env)
    case Ok(fee) => Settled(StartedPayment(request, fee, env), RetryOutcome(env.attempts), env.settledAt)
  }

  predicate SomeAccepted(attempts: seq<Settlement>) {
    exists i :: 0 <= i < |attempts| && attempts[i].Accepted?
  }

  /** `hash` is what the first accepted attempt brought. */
  predicate FirstHash(attempts: seq<Settlement>, hash: string) {
    exists i :: && 0 <= i < |attempts| && attempts[i] == Accepted(hash)
                && forall k :: 0 <= k < i ==> attempts[k].Rejected?
  }

  /** The payment is the one asked for, and tells how it ended: confirmed with
      the hash of the first accepted attempt, or failed with the last reason,
      or failed for want of a route. */
  ghost predicate TellsOutcome(request: Request, env: Surroundings, p: Payment)
    requires env.attempts != []
  {
    && p.id == env.paymentId && p.sender == request.sender && p.recipient == request.recipient
    && p.amount == request.amount && p.asset == request.asset && p.urgency == request.urgency
    && p.createdAt == env.createdAt
    && (p.status == Confirmed <==> env.route.Ok? && SomeAccepted(env.attempts))
    && (p.status == Failed <==> env.route.Err? || !SomeAccepted(env.attempts))
    && (p.status == Confirmed ==> p.txHash.Some? && FirstHash(env.attempts, p.txHash.value) && p.error == None)
    && (p.status == Failed ==> p.txHash == None)
    && match env.route
       case Err(_) => p.feeStroops == 0 && p.error == Some(env.routeError) && p.updatedAt == env.createdAt
       case Ok(fee) =>
         && p.feeStroops == fee && p.updatedAt == env.settledAt
         && (p.status == Failed ==>
               env.attempts[|env.attempts| - 1].Rejected? &&
               p.error == Some(env.attempts[|env.attempts| - 1].reason))
  }

  lemma FinalPaymentTells(request: Request, env: Surroundings)
    requires env.attempts != []
    ensures TellsOutcome(request, env, FinalPayment(request, env))
  {
    var n := AttemptsMade(env.attempts);
    assert RetryOutcome(env.attempts) == env.attempts[n - 1];
    if env.attempts[n - 1].Accepted? {
      assert SomeAccepted(env.attempts) && FirstHash(env.attempts, env.attempts[n - 1].txHash);
    } else {
      assert n == |env.attempts| && !SomeAccepted(env.attempts);
    }
  }

  /** How many hand-overs to the adapter that takes. */
  function HandOversMade(env: Surroundings): nat
    requires env.attempts != []
  {
    if env.route.Ok? then AttemptsMade(env.attempts) else 0
  }

  lemma {:induction false} RunExtends(s: System, steps: seq<Step>, step: Step)
    requires IsRun(s, steps) && Enabled(After(s, steps), step)
    ensures IsRun(s, steps + [step])
    ensures After(s, steps + [step]) == Apply(After(s, steps), step)
    decreases |steps|
  {
    var all := steps + [step];
    if steps == [] {
      assert all[1..] == [];
    } else {
      RunExtends(Apply(s, steps[0]), steps[1..], step);
      assert all[1..] == steps[1..] + [step];
    }
  }

  // ---------- the hand-overs of one worker ----------

  /** The places in the log where a worker handed its payment to the adapter. */
  function HandedAt(log: seq<Event>, owner: string): set<nat> {
    set i | 0 <= i < |log| && log[i].Submit? && log[i].owner == owner
  }

  function HandOvers(log: seq<Event>, owner: string): nat {
    |HandedAt(log, owner)|
  }

  lemma HandOversGrow(log: seq<Event>, e: Event, owner: string)
    ensures HandOvers(log + [e], owner) == HandOvers(log, owner) + if e.Submit? && e.owner == owner then 1 else 0
  {
    if e.Submit? && e.owner == owner {
      assert HandedAt(log + [e], owner) == HandedAt(log, owner) + {|log|};
    } else {
      assert HandedAt(log + [e], owner) == HandedAt(log, owner);
    }
  }

  /** No event but its own changes a worker's hand-overs. */
  lemma HandOversKept(log: seq<Event>, log': seq<Event>, owner: string)
    requires log <= log' && |log'| <= |log| + 1
    requires log' != log ==> !log'[|log|].Submit? || log'[|log|].owner != owner
    ensures HandOvers(log', owner) == HandOvers(log, owner)
  {
    if log' != log {
      assert log' == log + [log'[|log|]];
      HandOversGrow(log, log'[|log|], owner);
    }
  }

  /** A request that has not begun has handed nothing over. */
  lemma NewcomerHandsNothing(s: System, owner: string)
    requires Inv(s) && owner !in s.workers
    ensures HandOvers(s.log, owner) == 0
  {
    forall e | e in s.log && e.Submit?
      ensures e.owner != owner
    {
      assert EventOk(s, e);
    }
    assert HandedAt(s.log, owner) == {};
  }

  /** How a claim leaves its worker: its phase, no payment, and a replay logged. */
  lemma ClaimBegins(s: System, s': System, o: string, instance: nat, request: Request, now: int,
                    r: Result<ClaimOutcome>)
    requires s' == AfterClaim(s, o, instance, request, now)
    requires r == ClaimStep(s.records, request.key, request.fingerprint, o, CLAIM_LEASE, now).1
    ensures o in s'.workers && s'.workers[o].request == request && s'.workers[o].instance == instance
    ensures s'.workers[o].phase == (if r.Ok? then PhaseAfter(r.value) else Done) && s'.workers[o].paymentId == None
    ensures s'.makers == s.makers && s'.stores == s.stores
    ensures s.log <= s'.log && |s'.log| <= |s.log| + 1 && (s'.log != s.log ==> !s'.log[|s.log|].Submit?)
    ensures r.Ok? && r.value.Replay? ==>
              s'.log != s.log && Answers(s'.log[|s'.log| - 1], request.key, o, Replayed(r.value.response))
  {
  }

  /** Between `s` and `s'` only worker `o` has moved on. */
  ghost predicate OnlyWorker(s: System, s': System, o: string, phase: Phase) {
    && o in s.workers && o in s'.workers && s'.makers == s.makers
    && s'.workers[o].request == s.workers[o].request && s'.workers[o].instance == s.workers[o].instance
    && s'.workers[o].paymentId == s.workers[o].paymentId && s'.workers[o].phase == phase
  }

  lemma StartMoves(s: System, s': System, o: string, time: string, p: Payment)
    requires o in s.workers && s' == AfterStart(s, o, time) && InStore(s, s.workers[o], p)
    requires p.id == PaymentId(s.workers[o])
    ensures OnlyWorker(s, s', o, Started) && s'.log == s.log && s'.records == s.records
    ensures var i := s.workers[o].instance;
            StoreOf(s', i) == StoreOf(s, i)[p.id := WithStatus(p, Processing, time)]
  {
  }

  lemma SendMoves(s: System, s': System, o: string)
    requires o in s.workers && s.workers[o].phase.Sending? && s' == AfterSend(s, o)
    ensures OnlyWorker(s, s', o, Sending(s.workers[o].phase.attempts + 1))
    ensures s'.records == s.records && s'.stores == s.stores && HandOvers(s'.log, o) == HandOvers(s.log, o) + 1
  {
    var w := s.workers[o];
    HandOversGrow(s.log, Submit(w.request.key, w.life, o, PaymentId(w)), o);
  }

  /** A worker owns only a record made for its own request. */
  lemma OwnRecord(trace: seq<Step>, o: string)
    requires IsRun(INITIAL, trace)
    ensures var s := After(INITIAL, trace);
            o in s.workers && Owns(s.records, s.workers[o].request.key, o) ==>
              s.records[s.workers[o].request.key].fingerprint == s.workers[o].request.fingerprint
  {
    var s := After(INITIAL, trace);
    EngineTheorems.Reachable(trace);
    if o in s.workers && s.workers[o].request.key in s.records {
      assert RecordOk(s, s.workers[o].request.key);
    }
  }

  lemma CompleteMoves(s: System, s': System, o: string)
    requires o in s.workers && s.workers[o].phase.Holding? && s' == AfterComplete(s, o)
    ensures OnlyWorker(s, s', o, Done) && s'.stores == s.stores && HandOvers(s'.log, o) == HandOvers(s.log, o)
    ensures var key := s.workers[o].request.key;
            if Owns(s.records, key, o) then
              s'.log != [] && Answers(s'.log[|s'.log| - 1], key, o, Executed(s.workers[o].phase.payment))
            else
              s'.records == s.records && s'.log == s.log
  {
    HandOversKept(s.log, s'.log, o);
  }

  ghost predicate Answers(e: Event, key: string, owner: string, answer: Answer) {
    e.Reply? && e.key == key && e.owner == owner && e.answer == answer
  }

  // ---------- the steps of others ----------

  /** A step of another worker, an expiry, or the restart of another instance,
      that does not make the payment id reserved here. */
  predicate Foreign(step: Step, owner: string, instance: nat, reserved: string) {
    match step
    case Expire(_) => true
    case Restart(i) => i != instance
    case RouteFails(o, pid, _, _) => o != owner && pid != reserved
    case RouteFound(o, pid, _, _) => o != owner && pid != reserved
    case _ => step.owner != owner
  }

  /** Others leave a worker alone, and the payment id reserved for it. */
  lemma ForeignPaymentLeavesWorker(s: System, step: Step, owner: string, instance: nat, reserved: string)
    requires Enabled(s, step) && EngineTheorems.Paying(step) && Foreign(step, owner, instance, reserved)
    requires owner in s.workers
    ensures owner in Apply(s, step).workers && Apply(s, step).workers[owner] == s.workers[owner]
    ensures reserved in Apply(s, step).makers <==> reserved in s.makers
  {
  }

  lemma ForeignClaimLeavesWorker(s: System, step: Step, owner: string, instance: nat, reserved: string)
    requires Enabled(s, step) && !EngineTheorems.Local(step) && Foreign(step, owner, instance, reserved)
    requires owner in s.workers
    ensures owner in Apply(s, step).workers && Apply(s, step).workers[owner] == s.workers[owner]
    ensures Apply(s, step).makers == s.makers
  {
  }

  lemma ForeignMoveLeavesWorker(s: System, step: Step, owner: string, instance: nat, reserved: string)
    requires Enabled(s, step) && EngineTheorems.Local(step) && !EngineTheorems.Paying(step)
    requires Foreign(step, owner, instance, reserved) && owner in s.workers && s.workers[owner].instance == instance
    ensures owner in Apply(s, step).workers && Apply(s, step).workers[owner] == s.workers[owner]
    ensures Apply(s, step).makers == s.makers
  {
  }

  lemma ForeignLeavesWorker(s: System, step: Step, owner: string, instance: nat, reserved: string)
    requires Enabled(s, step) && Foreign(step, owner, instance, reserved)
    requires owner in s.workers && s.workers[owner].instance == instance
    ensures owner in Apply(s, step).workers && Apply(s, step).workers[owner] == s.workers[owner]
    ensures reserved in Apply(s, step).makers <==> reserved in s.makers
    ensures HandOvers(Apply(s, step).log, owner) == HandOvers(s.log, owner)
  {
    if EngineTheorems.Paying(step) {
      ForeignPaymentLeavesWorker(s, step, owner, instance, reserved);
    } else if EngineTheorems.Local(step) {
      ForeignMoveLeavesWorker(s, step, owner, instance, reserved);
    } else {
      ForeignClaimLeavesWorker(s, step, owner, instance, reserved);
    }
    EngineTheorems.StepLogs(s, step);
    HandOversKept(s.log, Apply(s, step).log, owner);
  }

  /** Others leave its own payment alone. */
  lemma ForeignPaymentLeavesPayment(s: System, step: Step, owner: string, p: Payment)
    requires Inv(s) && Enabled(s, step) && EngineTheorems.Paying(step) && step.owner != owner
    requires owner in s.workers && InStore(s, s.workers[owner], p)
    ensures InStore(Apply(s, step), s.workers[owner], p)
  {
    assert WorkerOk(s, owner);
    if step.Start? || step.Report? {
      var w := s.workers[step.owner];
      assert WorkerOk(s, step.owner);
      assert StoreOk(s, w.instance, PaymentId(w));
    }
  }

  lemma ForeignMoveLeavesStore(s: System, step: Step, instance: nat)
    requires Enabled(s, step) && !EngineTheorems.Paying(step) && step != Restart(instance)
    ensures StoreOf(Apply(s, step), instance) == StoreOf(s, instance)
  {
  }

  lemma ForeignLeavesPayment(s: System, step: Step, owner: string, instance: nat, reserved: string, p: Payment)
    requires Inv(s) && Enabled(s, step) && Foreign(step, owner, instance, reserved)
    requires owner in s.workers && s.workers[owner].instance == instance && InStore(s, s.workers[owner], p)
    ensures InStore(Apply(s, step), s.workers[owner], p)
  {
    if EngineTheorems.Paying(step) {
      ForeignPaymentLeavesPayment(s, step, owner, p);
    } else {
      ForeignMoveLeavesStore(s, step, instance);
    }
  }

  class Engine {
    const instance: nat
    const claims: MemoryClaimStore
    const store: PaymentStore
    /** The deployment this engine is part of, and how it got here. */
    var sys: System
    ghost var trace: seq<Step>

    /** The stores hold what the steps taken so far have put in them. */
    ghost predicate Valid()
      reads this, claims, store
    {
      && IsRun(INITIAL, trace) && sys == After(INITIAL, trace)
      && claims.records == sys.records
      && store.payments == StoreOf(sys, instance)
    }

    ghost predicate At(owner: string, request: Request, phase: Phase)
      reads this
    {
      && owner in sys.workers && sys.workers[owner].request == request
      && sys.workers[owner].instance == instance && sys.workers[owner].phase == phase
    }

    /** The worker has made its payment, which is stored as `p`. */
    ghost predicate Made(owner: string, p: Payment)
      reads this
    {
      owner in sys.workers && sys.workers[owner].paymentId == Some(p.id) && InStore(sys, sys.workers[owner], p)
    }

    /** The worker has made no payment but `id`. */
    ghost predicate Makes(owner: string, id: string)
      reads this
    {
      owner in sys.workers && (sys.workers[owner].paymentId == None || sys.workers[owner].paymentId == Some(id))
    }

    /** How often this request has been handed to the adapter so far. */
    ghost function Sent(owner: string): nat
      reads this
    {
      HandOvers(sys.log, owner)
    }

    /** Whatever this owner has handed over is payment `id`, under this key. */
    ghost predicate SentOnly(owner: string, key: string, id: string)
      reads this
    {
      forall e :: e in sys.log && e.Submit? && e.owner == owner ==> e.key == key && e.paymentId == id
    }

    ghost predicate Answered(key: string, owner: string, answer: Answer)
      reads this
    {
      sys.log != [] && Answers(sys.log[|sys.log| - 1], key, owner, answer)
    }

    /** The claim of this request is completed with payment `p`. */
    ghost predicate Recorded(request: Request, p: Payment)
      reads claims
    {
      && request.key in claims.records && claims.records[request.key].fingerprint == request.fingerprint
      && claims.records[request.key].lifecycle == Completed(ToValue(p), p.txHash)
    }

    constructor (instance: nat)
      ensures Valid() && trace == [] && sys == INITIAL && fresh(claims) && fresh(store)
      ensures this.instance == instance
    {
      this.instance := instance;
      claims := new MemoryClaimStore();
      store := new PaymentStore();
      trace := [];
      sys := INITIAL;
    }

    method Take(step: Step)
      requires IsRun(INITIAL, trace) && sys == After(INITIAL, trace) && Enabled(sys, step)
      modifies this`trace, this`sys
      ensures trace == old(trace) + [step] && sys == Apply(old(sys), step)
      ensures IsRun(INITIAL, trace) && sys == After(INITIAL, trace)
    {
      RunExtends(INITIAL, trace, step);
      trace := trace + [step];
      sys := Apply(sys, step);
    }

    /** An await: whatever of `others` is possible happens. */
    method Await(others: seq<Step>, owner: string, reserved: string)
      requires Valid() && owner in sys.workers && sys.workers[owner].instance == instance
      modifies this`trace, this`sys, claims, store
      ensures Valid() && old(trace) <= trace
      ensures owner in sys.workers && sys.workers[owner] == old(sys.workers[owner])
      ensures reserved in sys.makers <==> reserved in old(sys.makers)
      ensures Sent(owner) == old(Sent(owner))
      ensures forall p :: old(InStore(sys, sys.workers[owner], p)) ==> InStore(sys, sys.workers[owner], p)
    {
      for i := 0 to |others|
        invariant IsRun(INITIAL, trace) && sys == After(INITIAL, trace) && old(trace) <= trace
        invariant owner in sys.workers && sys.workers[owner] == old(sys.workers[owner])
        invariant reserved in sys.makers <==> reserved in old(sys.makers)
        invariant Sent(owner) == old(Sent(owner))
        invariant forall p :: old(InStore(sys, sys.workers[owner], p)) ==> InStore(sys, sys.workers[owner], p)
      {
        var step := others[i];
        if Enabled(sys, step) && Foreign(step, owner, instance, reserved) {
          EngineTheorems.Reachable(trace);
          ForeignLeavesWorker(sys, step, owner, instance, reserved);
          forall p | InStore(sys, sys.workers[owner], p)
            ensures InStore(Apply(sys, step), sys.workers[owner], p)
          {
            ForeignLeavesPayment(sys, step, owner, instance, reserved, p);
          }
          Take(step);
        }
      }
      claims.records := sys.records;
      store.payments := StoreOf(sys, instance);
    }

    /** The result that each outcome of the claim leads to. An execution fails
        only for a bad request or because the claim was lost meanwhile. */
    ghost predicate Follows(request: Request, owner: string, env: Surroundings, claim: Result<ClaimOutcome>,
                            r: Result<Answer>)
      reads this, claims, store
    {
      match claim
      case Err(e) => r == Err(e)
      case Ok(Replay(v)) => r == Ok(Replayed(v))
      case Ok(HeldByOther) => r == Err(Conflict)
      case Ok(AwaitingResult(ref)) => r == ReplayOf(ref)
      case Ok(_) => Runs(request, owner, env, r)
    }

    /** What a prior submission is answered with, as this instance knows it. */
    ghost function ReplayOf(executionRef: string): Result<Answer>
      reads store
    {
      if executionRef in store.payments && IsTerminal(store.payments[executionRef].status)
      then Ok(Replayed(ToValue(store.payments[executionRef])))
      else Err(PreconditionFailed)
    }

    ghost predicate Runs(request: Request, owner: string, env: Surroundings, r: Result<Answer>)
      reads claims
    {
      if !env.valid then r == Err(InvalidRequest)
      else if Owns(claims.records, request.key, owner) then r.Ok? && r.value.Executed?
      else r == Err(Lost(request.key))
    }

    /** Why a write of a displaced owner is refused. */
    ghost function Lost(key: string): Error
      reads claims
    {
      if key in claims.records then Conflict else PreconditionFailed
    }

    /** A successful call is exactly a logged answer of this owner under this
        key, so that all that is proved of answers is true of results. A
        replay hands nothing over; an execution, one payment, as often as its
        attempts need. */
    method InitiateIdempotent(request: Request, owner: string, env: Surroundings) returns (r: Result<Answer>)
      requires Valid() && env.attempts != []
      requires owner !in sys.workers && env.paymentId !in sys.makers
      modifies this`trace, this`sys, claims, store
      ensures Valid() && old(trace) <= trace && At(owner, request, Done)
      ensures r.Ok? ==> Answered(request.key, owner, r.value)
      ensures r.Ok? && r.value.Executed? ==>
                Recorded(request, r.value.payment) && TellsOutcome(request, env, r.value.payment)
      ensures var claim := ClaimStep(old(claims.records), request.key, request.fingerprint, owner, CLAIM_LEASE,
                                     env.claimedAt).1;
              Follows(request, owner, env, claim, r)
      ensures forall p :: old(Recorded(request, p)) ==>
                r == Ok(Replayed(ToValue(p))) && claims.records == old(claims.records)
      ensures SentOnly(owner, request.key, env.paymentId)
      ensures if r.Ok? then Sent(owner) == (if r.value.Executed? then HandOversMade(env) else 0)
              else Sent(owner) == 0 || Sent(owner) == HandOversMade(env)
    {
      EngineTheorems.Reachable(trace);
      NewcomerHandsNothing(sys, owner);
      var claim := ClaimKey(request, owner, env.claimedAt);
      if claim.Err? {
        r := Err(claim.error);
      } else if claim.value.Replay? {
        r := Ok(Replayed(claim.value.response));
      } else {
        r := Proceed(request, owner, claim.value, env);
      }
      SendsOnly(owner, request.key, env.paymentId);
      FinalPaymentTells(request, env);
    }

    /** Acts on a claim that brought no recorded response. */
    method Proceed(request: Request, owner: string, claim: ClaimOutcome, env: Surroundings)
      returns (r: Result<Answer>)
      requires Valid() && env.attempts != [] && !claim.Replay? && env.paymentId !in sys.makers
      requires At(owner, request, PhaseAfter(claim)) && Makes(owner, env.paymentId) && Sent(owner) == 0
      modifies this`trace, this`sys, claims, store
      ensures Valid() && old(trace) <= trace && At(owner, request, Done) && Makes(owner, env.paymentId)
      ensures r.Ok? ==> Answered(request.key, owner, r.value)
      ensures r.Ok? && r.value.Executed? ==>
                Recorded(request, r.value.payment) && r.value.payment == FinalPayment(request, env)
      ensures Follows(request, owner, env, Ok(claim), r)
      ensures if r.Ok? then Sent(owner) == (if r.value.Executed? then HandOversMade(env) else 0)
              else Sent(owner) == 0 || Sent(owner) == HandOversMade(env)
    {
      match claim {
        case HeldByOther =>
          r := Err(Conflict);
        case AwaitingResult(executionRef) =>
          Await(env.Others(0), owner, env.paymentId);
          r := AwaitResult(request, owner, executionRef);
        case Claimed(token) =>
          r := Execute(request, owner, env);
        case TookOver(token) =>
          r := Execute(request, owner, env);
      }
    }

    lemma SendsOnly(owner: string, key: string, id: string)
      requires Valid() && Makes(owner, id) && sys.workers[owner].request.key == key
      ensures SentOnly(owner, key, id)
    {
      EngineTheorems.Reachable(trace);
      forall e | e in sys.log && e.Submit? && e.owner == owner
        ensures e.key == key && e.paymentId == id
      {
        assert EventOk(sys, e);
      }
    }

    method ClaimKey(request: Request, owner: string, now: int) returns (r: Result<ClaimOutcome>)
      requires Valid() && owner !in sys.workers
      modifies this`trace, this`sys, claims
      ensures Valid() && old(trace) <= trace && sys.makers == old(sys.makers)
      ensures At(owner, request, if r.Ok? then PhaseAfter(r.value) else Done)
      ensures r.Ok? && r.value.Replay? ==> Answered(request.key, owner, Replayed(r.value.response))
      ensures sys.workers[owner].paymentId == None && Sent(owner) == old(Sent(owner))
      ensures (claims.records, r)
           == ClaimStep(old(claims.records), request.key, request.fingerprint, owner, CLAIM_LEASE, now)
      ensures forall p :: old(Recorded(request, p)) ==>
                r == Ok(Replay(ToValue(p))) && claims.records == old(claims.records)
    {
      ghost var s := sys;
      r := claims.Claim(request.key, request.fingerprint, owner, CLAIM_LEASE, now);
      Take(Claim(owner, instance, request, now));
      ClaimBegins(s, sys, owner, instance, request, now, r);
      HandOversKept(s.log, sys.log, owner);
    }

    /** A prior attempt submitted: replay its payment if it is known and settled, and never submit again. */
    method AwaitResult(request: Request, owner: string, executionRef: string) returns (r: Result<Answer>)
      requires Valid() && At(owner, request, Reconciling(executionRef))
      modifies this`trace, this`sys
      ensures Valid() && old(trace) <= trace && At(owner, request, Done)
      ensures sys.workers[owner].paymentId == old(sys.workers[owner].paymentId)
      ensures r == ReplayOf(executionRef) && (r.Ok? ==> Answered(request.key, owner, r.value))
      ensures old(sys.log) <= sys.log && |sys.log| == |old(sys.log)| + (if r.Ok? then 1 else 0)
      ensures Sent(owner) == old(Sent(owner))
    {
      var found := store.Get(executionRef);
      ghost var log := sys.log;
      Take(Reconcile(owner));
      if found.Ok? && IsTerminal(found.value.status) {
        r := Ok(Replayed(ToValue(found.value)));
      } else {
        r := Err(PreconditionFailed);
      }
      HandOversKept(log, sys.log, owner);
    }

    method Execute(request: Request, owner: string, env: Surroundings) returns (r: Result<Answer>)
      requires Valid() && env.attempts != [] && At(owner, request, Granted) && env.paymentId !in sys.makers
      requires Makes(owner, env.paymentId) && Sent(owner) == 0
      modifies this`trace, this`sys, claims, store
      ensures Valid() && old(trace) <= trace && At(owner, request, Done) && Makes(owner, env.paymentId)
      ensures r.Ok? ==> Answered(request.key, owner, r.value)
      ensures r.Ok? ==> r.value.Executed? && r.value.payment == FinalPayment(request, env)
      ensures r.Ok? ==> Recorded(request, r.value.payment)
      ensures Runs(request, owner, env, r)
      ensures Sent(owner) == HandOversMade(env) || (r.Err? && Sent(owner) == 0)
    {
      var made := RunInitiation(request, owner, env);
      if made.Err? {
        return Err(made.error);
      }
      Await(env.Others(2), owner, env.paymentId);
      r := CompleteClaim(request, owner, made.value);
    }

    /** The answer is given out exactly when the claim takes it; a refused
        write leaves every record as it was. */
    method CompleteClaim(request: Request, owner: string, payment: Payment) returns (r: Result<Answer>)
      requires Valid() && At(owner, request, Holding(payment))
      modifies this`trace, this`sys, claims
      ensures Valid() && old(trace) <= trace && At(owner, request, Done)
      ensures sys.workers[owner].paymentId == old(sys.workers[owner].paymentId) && Sent(owner) == old(Sent(owner))
      ensures r.Ok? <==> Owns(old(claims.records), request.key, owner)
      ensures r.Ok? ==> r.value == Executed(payment) && Answered(request.key, owner, r.value)
      ensures r.Ok? ==> Recorded(request, payment)
      ensures r.Err? ==>
                claims.records == old(claims.records) && sys.log == old(sys.log) && r.error == Lost(request.key)
      ensures r.Ok? ==> Owns(claims.records, request.key, owner)
    {
      OwnRecord(trace, owner);
      ghost var s := sys;
      var done := claims.Complete(ClaimToken(request.key, owner), ToValue(payment), payment.txHash);
      Take(EngineProtocol.Complete(owner));
      CompleteMoves(s, sys, owner);
      if done.Err? {
        return Err(done.error);
      }
      r := Ok(Executed(payment));
    }

    /** Route, insert, start, mark the claim, submit, settle, read back. */
    method RunInitiation(request: Request, owner: string, env: Surroundings) returns (r: Result<Payment>)
      requires Valid() && env.attempts != [] && At(owner, request, Granted) && env.paymentId !in sys.makers
      requires Makes(owner, env.paymentId) && Sent(owner) == 0
      modifies this`trace, this`sys, claims, store
      ensures Valid() && old(trace) <= trace && Makes(owner, env.paymentId)
      ensures At(owner, request, if r.Ok? then Holding(r.value) else Done)
      ensures r.Ok? ==> r.value == FinalPayment(request, env)
      ensures Sent(owner) == if r.Ok? then HandOversMade(env) else 0
      ensures !env.valid ==> r == Err(InvalidRequest)
      ensures env.valid && r.Err? ==> !Owns(claims.records, request.key, owner) && r.error == Lost(request.key)
    {
      if !env.valid {
        Take(Reject(owner));
        return Err(InvalidRequest);
      }
      Await(env.Others(0), owner, env.paymentId);
      if env.route.Err? {
        r := FailPayment(request, owner, env);
        return;
      }
      StartPayment(request, owner, env.route.value, env);
      r := SubmitPayment(request, owner, env.route.value, env);
    }

    method SubmitPayment(request: Request, owner: string, fee: u64, env: Surroundings) returns (r: Result<Payment>)
      requires Valid() && env.attempts != [] && At(owner, request, Started)
      requires Made(owner, StartedPayment(request, fee, env))
      modifies this`trace, this`sys, claims, store
      ensures Valid() && old(trace) <= trace && Makes(owner, env.paymentId)
      ensures At(owner, request, if r.Ok? then Holding(r.value) else Done)
      ensures r.Ok? ==>
                r.value == Settled(StartedPayment(request, fee, env), RetryOutcome(env.attempts), env.settledAt)
      ensures Sent(owner) == old(Sent(owner)) + if r.Ok? then AttemptsMade(env.attempts) else 0
      ensures r.Err? ==> !Owns(claims.records, request.key, owner) && r.error == Lost(request.key)
    {
      Await(env.Others(1), owner, env.paymentId);
      var marked := RecordSubmitting(request, owner, env);
      if marked.Err? {
        return Err(marked.error);
      }
      r := HandOver(request, owner, StartedPayment(request, fee, env), env);
    }

    /** Submits the marked payment and stores how that ended. */
    method HandOver(request: Request, owner: string, ghost p: Payment, env: Surroundings)
      returns (r: Result<Payment>)
      requires Valid() && env.attempts != [] && At(owner, request, Sending(0))
      requires Made(owner, p) && p.id == env.paymentId
      modifies this`trace, this`sys, claims, store
      ensures Valid() && old(trace) <= trace && Makes(owner, env.paymentId)
      ensures r == Ok(Settled(p, RetryOutcome(env.attempts), env.settledAt)) && At(owner, request, Holding(r.value))
      ensures Sent(owner) == old(Sent(owner)) + AttemptsMade(env.attempts)
      ensures env.paymentId in store.payments && store.payments[env.paymentId] == r.value
    {
      var outcome := Retry(request, owner, p, env);
      r := SettlePayment(request, owner, p, outcome, env);
    }

    method FailPayment(request: Request, owner: string, env: Surroundings) returns (r: Result<Payment>)
      requires Valid() && At(owner, request, Granted) && env.paymentId !in sys.makers
      modifies this`trace, this`sys, store
      ensures Valid() && old(trace) <= trace && Makes(owner, env.paymentId)
      ensures r == Ok(FailedPayment(request, env)) && At(owner, request, Holding(r.value))
      ensures store.payments == old(store.payments)[env.paymentId := r.value] && sys.log == old(sys.log)
    {
      var failed := FailedPayment(request, env);
      store.Insert(failed);
      Take(RouteFails(owner, env.paymentId, env.routeError, env.createdAt));
      r := Ok(failed);
    }

    method StartPayment(request: Request, owner: string, fee: u64, env: Surroundings)
      requires Valid() && At(owner, request, Granted) && env.paymentId !in sys.makers
      modifies this`trace, this`sys, store
      ensures Valid() && old(trace) <= trace && At(owner, request, Started)
      ensures Made(owner, StartedPayment(request, fee, env)) && sys.log == old(sys.log)
      ensures store.payments == old(store.payments)[env.paymentId := StartedPayment(request, fee, env)]
    {
      InsertPending(request, owner, fee, env);
      SetProcessing(request, owner, PendingPayment(request, fee, env), env);
    }

    method SetProcessing(request: Request, owner: string, ghost p: Payment, env: Surroundings)
      requires Valid() && At(owner, request, Routed) && Made(owner, p) && p.id == env.paymentId
      modifies this`trace, this`sys, store
      ensures Valid() && old(trace) <= trace && At(owner, request, Started)
      ensures Made(owner, WithStatus(p, Processing, env.startedAt)) && sys.log == old(sys.log)
      ensures store.payments == old(store.payments)[p.id := WithStatus(p, Processing, env.startedAt)]
    {
      ghost var s := sys;
      var started := store.SetStatus(env.paymentId, PaymentStatus.Processing, env.startedAt);
      Take(Start(owner, env.startedAt));
      StartMoves(s, sys, owner, env.startedAt, p);
    }

    method InsertPending(request: Request, owner: string, fee: u64, env: Surroundings)
      requires Valid() && At(owner, request, Granted) && env.paymentId !in sys.makers
      modifies this`trace, this`sys, store
      ensures Valid() && old(trace) <= trace && At(owner, request, Routed)
      ensures Made(owner, PendingPayment(request, fee, env)) && sys.log == old(sys.log)
      ensures store.payments == old(store.payments)[env.paymentId := PendingPayment(request, fee, env)]
    {
      store.Insert(PendingPayment(request, fee, env));
      Take(RouteFound(owner, env.paymentId, fee, env.createdAt));
    }

    /** The checkpoint before the irreversible submission. */
    method RecordSubmitting(request: Request, owner: string, env: Surroundings) returns (r: Result<()>)
      requires Valid() && At(owner, request, Started) && sys.workers[owner].paymentId == Some(env.paymentId)
      modifies this`trace, this`sys, claims
      ensures Valid() && old(trace) <= trace && sys.stores == old(sys.stores)
      ensures At(owner, request, if r.Ok? then Sending(0) else Done)
      ensures sys.workers[owner].paymentId == Some(env.paymentId) && Sent(owner) == old(Sent(owner))
      ensures r.Ok? ==>
                request.key in claims.records && claims.records[request.key].lifecycle == Submitting(env.paymentId)
      ensures r.Ok? <==> Owns(old(claims.records), request.key, owner)
      ensures r.Err? ==>
                claims.records == old(claims.records) && sys.log == old(sys.log) && r.error == Lost(request.key)
    {
      ghost var log := sys.log;
      r := claims.MarkSubmitting(ClaimToken(request.key, owner), env.paymentId, CLAIM_LEASE, env.markedAt);
      Take(Mark(owner, env.markedAt));
      HandOversKept(log, sys.log, owner);
    }

    /** One attempt: the payment is handed over once. */
    method Attempt(request: Request, owner: string, ghost p: Payment, attempt: nat, env: Surroundings)
      requires Valid() && At(owner, request, Sending(attempt)) && Made(owner, p)
      modifies this`trace, this`sys, claims, store
      ensures Valid() && old(trace) <= trace && At(owner, request, Sending(attempt + 1)) && Made(owner, p)
      ensures Sent(owner) == old(Sent(owner)) + 1
    {
      Submission(request, owner, p, attempt);
      Await(env.Others(3 + attempt), owner, env.paymentId);
    }

    method Submission(request: Request, owner: string, ghost p: Payment, attempt: nat)
      requires Valid() && At(owner, request, Sending(attempt)) && Made(owner, p)
      modifies this`trace, this`sys
      ensures Valid() && old(trace) <= trace && At(owner, request, Sending(attempt + 1)) && Made(owner, p)
      ensures Sent(owner) == old(Sent(owner)) + 1
    {
      ghost var s := sys;
      Take(Send(owner));
      SendMoves(s, sys, owner);
    }

    /** Hands the payment over until it is accepted or the attempts are spent. */
    method Retry(request: Request, owner: string, ghost p: Payment, env: Surroundings) returns (outcome: Settlement)
      requires Valid() && env.attempts != [] && At(owner, request, Sending(0)) && Made(owner, p)
      modifies this`trace, this`sys, claims, store
      ensures Valid() && old(trace) <= trace && Made(owner, p)
      ensures At(owner, request, Sending(AttemptsMade(env.attempts)))
      ensures outcome == RetryOutcome(env.attempts)
      ensures Sent(owner) == old(Sent(owner)) + AttemptsMade(env.attempts)
      ensures SentOnly(owner, request.key, p.id)
    {
      var i := 0;
      outcome := env.attempts[0];
      while i < |env.attempts|
        invariant 0 <= i <= |env.attempts|
        invariant Valid() && old(trace) <= trace && At(owner, request, Sending(i)) && Made(owner, p)
        invariant Sent(owner) == old(Sent(owner)) + i
        invariant i == 0 || outcome == env.attempts[i - 1]
        invariant forall k :: 0 <= k < i ==> env.attempts[k].Rejected?
      {
        Attempt(request, owner, p, i, env);
        outcome := env.attempts[i];
        i := i + 1;
        if outcome.Accepted? {
          break;
        }
      }
      AttemptsEnd(env.attempts, i);
      SendsOnly(owner, request.key, p.id);
    }

    method SettlePayment(request: Request, owner: string, ghost p: Payment, outcome: Settlement, env: Surroundings)
      returns (r: Result<Payment>)
      requires Valid() && (exists n :: n > 0 && At(owner, request, Sending(n)))
      requires Made(owner, p) && p.id == env.paymentId
      modifies this`trace, this`sys, store
      ensures Valid() && old(trace) <= trace && Makes(owner, env.paymentId) && sys.log == old(sys.log)
      ensures r == Ok(Settled(p, outcome, env.settledAt)) && At(owner, request, Holding(r.value))
      ensures store.payments == old(store.payments)[env.paymentId := r.value]
    {
      var written: Result<()>;
      match outcome {
        case Accepted(txHash) => written := store.SetConfirmed(env.paymentId, txHash, env.settledAt);
        case Rejected(reason) => written := store.SetFailed(env.paymentId, reason, env.settledAt);
      }
      Take(Report(owner, outcome, env.settledAt));
      r := store.Get(env.paymentId);
      Take(Fetch(owner));
    }
  }
}
