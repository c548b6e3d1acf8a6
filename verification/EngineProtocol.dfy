/**
  Payment initiation under an idempotency claim, as a step system. Any number
  of requests, on any number of engine instances and keys, interleave one
  atomic step at a time: claim, route, insert, set status, mark_submitting,
  hand the payment to the adapter (any number of retries), settle, fetch and
  complete. A worker may stop for good at any point (it simply takes no more
  steps), clock readings are arbitrary, a stored claim may expire at any
  moment, and an instance may restart, which loses its payments and workers.
  Owner ids and payment ids are fresh, as the UUIDs of the code are.
 */
module EngineProtocol {
  import opened Common
  import opened ClaimStore
  import opened PaymentStore

  const CLAIM_LEASE: nat := 30_000

  datatype Request = Request(
    key: string,
    fingerprint: string,
    sender: string,
    recipient: string,
    amount: u64,
    asset: string,
    urgency: Urgency)

  /** Where a worker stands in `initiate_idempotent` and `run_initiation`. */
  datatype Phase =
    | Granted
    | Routed
    | Started
    | Sending(attempts: nat)
    | Reported
    | Holding(payment: Payment)
    | Reconciling(executionRef: string)
    | Done

  /** A worker is one request in progress, named by its owner id. The last
      four fields are history: the life of the key's record it met, the payment
      it made, whether one of its writes to the claim succeeded, and the
      terminal payment it reached. */
  datatype Worker = Worker(
    instance: nat,
    request: Request,
    phase: Phase,
    life: nat,
    paymentId: Option<string>,
    committed: bool,
    final: Option<Payment>)

  datatype Answer = Executed(payment: Payment) | Replayed(response: Value)

  datatype Event =
    | Grant(key: string, life: nat, owner: string, at: int)
    | Marked(key: string, life: nat, owner: string, paymentId: string, at: int)
    | Submit(key: string, life: nat, owner: string, paymentId: string)
    | Reply(key: string, life: nat, owner: string, source: string, answer: Answer)
    | Expiry(key: string, life: nat, committed: bool)

  /** The first three fields are what the deployment holds; the rest is history:
      how many records each key has had, who made each payment id, and what
      happened. */
  datatype System = System(
    records: Records,
    stores: map<nat, Payments>,
    workers: map<string, Worker>,
    lives: map<string, nat>,
    makers: map<string, string>,
    log: seq<Event>)

  const INITIAL: System := System(map[], map[], map[], map[], map[], [])

  function Life(s: System, key: string): nat {
    if key in s.lives then s.lives[key] else 0
  }

  function StoreOf(s: System, instance: nat): Payments {
    if instance in s.stores then s.stores[instance] else map[]
  }

  // ---------- steps ----------

  datatype Step =
    | Claim(owner: string, instance: nat, request: Request, now: int)
    | Reconcile(owner: string)
    | Reject(owner: string)
    | RouteFails(owner: string, paymentId: string, reason: string, time: string)
    | RouteFound(owner: string, paymentId: string, fee: u64, time: string)
    | Start(owner: string, time: string)
    | Mark(owner: string, now: int)
    | Send(owner: string)
    | Report(owner: string, outcome: Settlement, time: string)
    | Fetch(owner: string)
    | Complete(owner: string)
    | Expire(key: string)
    | Restart(instance: nat)

  predicate Enabled(s: System, step: Step) {
    match step
    case Claim(o, _, _, _) => o !in s.workers
    case Reconcile(o) => o in s.workers && s.workers[o].phase.Reconciling?
    case Reject(o) => o in s.workers && s.workers[o].phase.Granted?
    case RouteFails(o, pid, _, _) => o in s.workers && s.workers[o].phase.Granted? && pid !in s.makers
    case RouteFound(o, pid, _, _) => o in s.workers && s.workers[o].phase.Granted? && pid !in s.makers
    case Start(o, _) => o in s.workers && s.workers[o].phase.Routed?
    case Mark(o, _) => o in s.workers && s.workers[o].phase.Started?
    case Send(o) => o in s.workers && s.workers[o].phase.Sending?
    case Report(o, _, _) => o in s.workers && s.workers[o].phase.Sending? && s.workers[o].phase.attempts > 0
    case Fetch(o) => o in s.workers && s.workers[o].phase.Reported?
    case Complete(o) => o in s.workers && s.workers[o].phase.Holding?
    case Expire(key) => key in s.records
    case Restart(_) => true
  }

  function Paid(s: System, instance: nat, p: Payment): map<nat, Payments> {
    s.stores[instance := StoreOf(s, instance)[p.id := p]]
  }

  /** The state in which only worker `o` has moved. */
  function Moved(s: System, o: string, w: Worker): System {
    System(s.records, s.stores, s.workers[o := w], s.lives, s.makers, s.log)
  }

  /** The id of the payment a worker made ("" before it has made one). */
  function PaymentId(w: Worker): string {
    if w.paymentId.Some? then w.paymentId.value else ""
  }

  function NewPayment(r: Request, id: string, status: PaymentStatus, fee: u64, error: Option<string>, now: string)
    : Payment
  {
    Payment(id, r.sender, r.recipient, r.amount, r.asset, status, None, fee, r.urgency, error, now, now)
  }

  // What the engine does with the claim store's answers. `records` is what the
  // store then holds, `holder` the owner of the record a claim met.

  function OnClaim(s: System, records: Records, o: string, instance: nat, request: Request, now: int,
                   holder: Option<string>, r: Result<ClaimOutcome>): System
  {
    var key := request.key;
    var life := if holder.Some? then Life(s, key) else Life(s, key) + 1;
    var phase :=
      match r
      case Ok(Claimed(_)) => Granted
      case Ok(TookOver(_)) => Granted
      case Ok(AwaitingResult(executionRef)) => Reconciling(executionRef)
      case _ => Done;
    var events :=
      if phase.Granted? then [Grant(key, life, o, now)]
      else if r.Ok? && r.value.Replay? && holder.Some? then
        [Reply(key, life, o, holder.value, Replayed(r.value.response))]
      else [];
    System(records, s.stores, s.workers[o := Worker(instance, request, phase, life, None, false, None)],
           if holder.Some? then s.lives else s.lives[key := life], s.makers, s.log + events)
  }

  function OnMark(s: System, records: Records, o: string, now: int, r: Result<()>): System
    requires o in s.workers
  {
    var w := s.workers[o];
    if r.Ok? then
      System(records, s.stores, s.workers[o := w.(phase := Sending(0), committed := true)], s.lives, s.makers,
             s.log + [Marked(w.request.key, w.life, o, PaymentId(w), now)])
    else
      System(records, s.stores, s.workers[o := w.(phase := Done)], s.lives, s.makers, s.log)
  }

  function OnComplete(s: System, records: Records, o: string, r: Result<()>): System
    requires o in s.workers && s.workers[o].phase.Holding?
  {
    var w := s.workers[o];
    System(records, s.stores, s.workers[o := w.(phase := Done, committed := w.committed || r.Ok?)], s.lives, s.makers,
           if r.Ok? then s.log + [Reply(w.request.key, w.life, o, o, Executed(w.phase.payment))] else s.log)
  }

  function OnExpiry(s: System, records: Records, key: string, committed: bool): System {
    System(records, s.stores, s.workers, s.lives, s.makers, s.log + [Expiry(key, Life(s, key), committed)])
  }

  /** The owner of the record under a key, if there is one. */
  function Holder(records: Records, key: string): Option<string> {
    if key in records then Some(records[key].owner) else None
  }

  function AfterClaim(s: System, o: string, instance: nat, request: Request, now: int): System {
    var (records', r) := ClaimStep(s.records, request.key, request.fingerprint, o, CLAIM_LEASE, now);
    OnClaim(s, records', o, instance, request, now, Holder(s.records, request.key), r)
  }

  function AfterReconcile(s: System, o: string): System
    requires o in s.workers && s.workers[o].phase.Reconciling?
  {
    var w := s.workers[o];
    var ref := w.phase.executionRef;
    var store := StoreOf(s, w.instance);
    if ref in store && IsTerminal(store[ref].status) then
      System(s.records, s.stores, s.workers[o := w.(phase := Done)], s.lives, s.makers,
             s.log + [Reply(w.request.key, w.life, o, if ref in s.makers then s.makers[ref] else "",
                            Replayed(ToValue(store[ref])))])
    else
      Moved(s, o, w.(phase := Done))
  }

  function AfterRouteFails(s: System, o: string, pid: string, reason: string, time: string): System
    requires o in s.workers
  {
    var w := s.workers[o];
    var p := NewPayment(w.request, pid, Failed, 0, Some(reason), time);
    System(s.records, Paid(s, w.instance, p),
           s.workers[o := w.(phase := Holding(p), paymentId := Some(pid), final := Some(p))],
           s.lives, s.makers[pid := o], s.log)
  }

  function AfterRouteFound(s: System, o: string, pid: string, fee: u64, time: string): System
    requires o in s.workers
  {
    var w := s.workers[o];
    var p := NewPayment(w.request, pid, Pending, fee, None, time);
    System(s.records, Paid(s, w.instance, p), s.workers[o := w.(phase := Routed, paymentId := Some(pid))],
           s.lives, s.makers[pid := o], s.log)
  }

  function AfterStart(s: System, o: string, time: string): System
    requires o in s.workers
  {
    var w := s.workers[o];
    var store := StoreOf(s, w.instance);
    if PaymentId(w) in store then
      System(s.records, Paid(s, w.instance, WithStatus(store[PaymentId(w)], Processing, time)),
             s.workers[o := w.(phase := Started)], s.lives, s.makers, s.log)
    else
      Moved(s, o, w.(phase := Done))
  }

  function AfterMark(s: System, o: string, now: int): System
    requires o in s.workers
  {
    var w := s.workers[o];
    var (records', r) := MarkSubmittingStep(s.records, ClaimToken(w.request.key, o), PaymentId(w), CLAIM_LEASE, now);
    OnMark(s, records', o, now, r)
  }

  function AfterSend(s: System, o: string): System
    requires o in s.workers && s.workers[o].phase.Sending?
  {
    var w := s.workers[o];
    System(s.records, s.stores, s.workers[o := w.(phase := Sending(w.phase.attempts + 1))], s.lives, s.makers,
           s.log + [Submit(w.request.key, w.life, o, PaymentId(w))])
  }

  function AfterReport(s: System, o: string, outcome: Settlement, time: string): System
    requires o in s.workers
  {
    var w := s.workers[o];
    var store := StoreOf(s, w.instance);
    if PaymentId(w) in store then
      var p := Settled(store[PaymentId(w)], outcome, time);
      System(s.records, Paid(s, w.instance, p), s.workers[o := w.(phase := Reported, final := Some(p))],
             s.lives, s.makers, s.log)
    else
      Moved(s, o, w.(phase := Done))
  }

  function AfterFetch(s: System, o: string): System
    requires o in s.workers
  {
    var w := s.workers[o];
    var store := StoreOf(s, w.instance);
    Moved(s, o, w.(phase := if PaymentId(w) in store then Holding(store[PaymentId(w)]) else Done))
  }

  function AfterComplete(s: System, o: string): System
    requires o in s.workers && s.workers[o].phase.Holding?
  {
    var w := s.workers[o];
    var p := w.phase.payment;
    var (records', r) := CompleteStep(s.records, ClaimToken(w.request.key, o), ToValue(p), p.txHash);
    OnComplete(s, records', o, r)
  }

  function AfterExpiry(s: System, key: string): System
    requires key in s.records
  {
    OnExpiry(s, s.records - {key}, key, !s.records[key].lifecycle.InFlight?)
  }

  function AfterRestart(s: System, instance: nat): System {
    System(s.records, s.stores[instance := map[]],
           map o | o in s.workers ::
             if s.workers[o].instance == instance then s.workers[o].(phase := Done) else s.workers[o],
           s.lives, s.makers, s.log)
  }

  function Apply(s: System, step: Step): System
    requires Enabled(s, step)
  {
    match step
    case Claim(o, instance, request, now) => AfterClaim(s, o, instance, request, now)
    case Reconcile(o) => AfterReconcile(s, o)
    case Reject(o) => Moved(s, o, s.workers[o].(phase := Done))
    case RouteFails(o, pid, reason, time) => AfterRouteFails(s, o, pid, reason, time)
    case RouteFound(o, pid, fee, time) => AfterRouteFound(s, o, pid, fee, time)
    case Start(o, time) => AfterStart(s, o, time)
    case Mark(o, now) => AfterMark(s, o, now)
    case Send(o) => AfterSend(s, o)
    case Report(o, outcome, time) => AfterReport(s, o, outcome, time)
    case Fetch(o) => AfterFetch(s, o)
    case Complete(o) => AfterComplete(s, o)
    case Expire(key) => AfterExpiry(s, key)
    case Restart(instance) => AfterRestart(s, instance)
  }

  /** `steps` is a run from `s`: every step is enabled where it is taken. */
  predicate IsRun(s: System, steps: seq<Step>)
    decreases |steps|
  {
    steps == [] || (Enabled(s, steps[0]) && IsRun(Apply(s, steps[0]), steps[1..]))
  }

  function After(s: System, steps: seq<Step>): System
    requires IsRun(s, steps)
    decreases |steps|
  {
    if steps == [] then s else After(Apply(s, steps[0]), steps[1..])
  }
}
