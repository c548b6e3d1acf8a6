/**
  The separation that `EngineExpiry` and `EngineTtl` promise is no wider than
  they say: once a record has expired, the next life submits its own payment,
  and may do so at the very moment the first mark's time to live ends.
 */
module EngineWitness {
  import opened Common
  import opened ClaimStore
  import opened EngineProtocol
  import opened EngineTtl

  /** Some run with `expiries` expiries leads from the beginning to `t`. */
  ghost predicate Reached(ttl: Ttl, clock: int, expiries: nat, t: Timed) {
    exists xs :: IsTimedRun(ttl, Beginning(clock), xs) && TimedAfter(ttl, Beginning(clock), xs) == t
                 && Expiries(xs) == expiries
  }

  function Expiries(xs: seq<TimedStep>): nat {
    if xs == [] then 0 else Expiries(xs[..|xs| - 1]) + if xs[|xs| - 1].step.Expire? then 1 else 0
  }

  lemma {:induction false} RunExtends(ttl: Ttl, t: Timed, xs: seq<TimedStep>, x: TimedStep)
    requires IsTimedRun(ttl, t, xs) && TimedEnabled(TimedAfter(ttl, t, xs), x)
    ensures IsTimedRun(ttl, t, xs + [x])
    ensures TimedAfter(ttl, t, xs + [x]) == TimedApply(ttl, TimedAfter(ttl, t, xs), x)
    decreases |xs|
  {
    var all := xs + [x];
    if xs == [] {
      assert all[1..] == [];
    } else {
      RunExtends(ttl, TimedApply(ttl, t, xs[0]), xs[1..], x);
      assert all[1..] == xs[1..] + [x];
    }
  }

  lemma ReachesOn(ttl: Ttl, clock: int, expiries: nat, t: Timed, x: TimedStep)
    requires Reached(ttl, clock, expiries, t) && TimedEnabled(t, x)
    ensures Reached(ttl, clock, expiries + if x.step.Expire? then 1 else 0, TimedApply(ttl, t, x))
  {
    var xs :| IsTimedRun(ttl, Beginning(clock), xs) && TimedAfter(ttl, Beginning(clock), xs) == t
              && Expiries(xs) == expiries;
    RunExtends(ttl, Beginning(clock), xs, x);
    assert (xs + [x])[..|xs|] == xs;
  }

  /** One request that begins a new life of its key, at one moment. */
  datatype Attempt = Attempt(owner: string, instance: nat, request: Request, paymentId: string, at: int, time: string)

  function NewLife(s: System, a: Attempt): nat {
    Life(s, a.request.key) + 1
  }

  function Granting(s: System, a: Attempt): Event {
    Grant(a.request.key, NewLife(s, a), a.owner, a.at)
  }

  function Marking(s: System, a: Attempt): Event {
    Marked(a.request.key, NewLife(s, a), a.owner, a.paymentId, a.at)
  }

  function Submitting(s: System, a: Attempt): Event {
    Submit(a.request.key, NewLife(s, a), a.owner, a.paymentId)
  }

  /** From `s` to `s'` the attempt has claimed its key, got as far as `phase`, and logged `es`. */
  ghost predicate Underway(s: System, s': System, a: Attempt, phase: Phase, es: seq<Event>) {
    && s'.workers.Keys == s.workers.Keys + {a.owner} && s'.log == s.log + es
    && Life(s', a.request.key) == NewLife(s, a) && Owns(s'.records, a.request.key, a.owner)
    && var w := s'.workers[a.owner];
    && w.instance == a.instance && w.request == a.request && w.life == NewLife(s, a) && w.phase == phase
  }

  /** Its payment is made and stored. */
  ghost predicate HasPaid(s: System, s': System, a: Attempt) {
    && s'.makers.Keys == s.makers.Keys + {a.paymentId} && a.owner in s'.workers
    && s'.workers[a.owner].paymentId == Some(a.paymentId) && a.paymentId in StoreOf(s', a.instance)
    && StoreOf(s', a.instance)[a.paymentId].id == a.paymentId
  }

  predicate New(s: System, a: Attempt) {
    a.request.key !in s.records && a.owner !in s.workers && a.paymentId !in s.makers
  }

  /** The record will be kept for its time to live. */
  ghost predicate Kept(ttl: Ttl, t: Timed, a: Attempt) {
    t.clock == a.at && a.request.key in t.expiresAt && t.expiresAt[a.request.key] == a.at + ttl(a.owner)
  }

  lemma ClaimBegins(s: System, a: Attempt)
    requires New(s, a)
    ensures var s' := AfterClaim(s, a.owner, a.instance, a.request, a.at);
            Underway(s, s', a, Granted, [Granting(s, a)]) && s'.makers == s.makers
  {
  }

  lemma Claims(ttl: Ttl, clock: int, expiries: nat, t: Timed, a: Attempt) returns (t': Timed)
    requires Reached(ttl, clock, expiries, t) && New(t.sys, a) && t.clock <= a.at
    ensures Reached(ttl, clock, expiries, t')
    ensures Underway(t.sys, t'.sys, a, Granted, [Granting(t.sys, a)]) && t'.sys.makers == t.sys.makers
    ensures Kept(ttl, t', a)
  {
    var x := TimedStep(a.at, Claim(a.owner, a.instance, a.request, a.at));
    ReachesOn(ttl, clock, expiries, t, x);
    t' := TimedApply(ttl, t, x);
    ClaimBegins(t.sys, a);
  }

  lemma Routes(ttl: Ttl, clock: int, expiries: nat, t: Timed, a: Attempt) returns (t': Timed)
    requires Reached(ttl, clock, expiries, t) && New(t.sys, a) && t.clock <= a.at
    ensures Reached(ttl, clock, expiries, t') && Kept(ttl, t', a)
    ensures Underway(t.sys, t'.sys, a, Routed, [Granting(t.sys, a)]) && HasPaid(t.sys, t'.sys, a)
  {
    var t1 := Claims(ttl, clock, expiries, t, a);
    var x := TimedStep(a.at, RouteFound(a.owner, a.paymentId, 0, a.time));
    ReachesOn(ttl, clock, expiries, t1, x);
    t' := TimedApply(ttl, t1, x);
    assert t'.sys == AfterRouteFound(t1.sys, a.owner, a.paymentId, 0, a.time);
  }

  lemma Starts(ttl: Ttl, clock: int, expiries: nat, t: Timed, a: Attempt) returns (t': Timed)
    requires Reached(ttl, clock, expiries, t) && New(t.sys, a) && t.clock <= a.at
    ensures Reached(ttl, clock, expiries, t') && Kept(ttl, t', a)
    ensures Underway(t.sys, t'.sys, a, Started, [Granting(t.sys, a)]) && HasPaid(t.sys, t'.sys, a)
  {
    var t1 := Routes(ttl, clock, expiries, t, a);
    var x := TimedStep(a.at, Start(a.owner, a.time));
    ReachesOn(ttl, clock, expiries, t1, x);
    t' := TimedApply(ttl, t1, x);
    assert t'.sys == AfterStart(t1.sys, a.owner, a.time);
  }

  lemma Marks(ttl: Ttl, clock: int, expiries: nat, t: Timed, a: Attempt) returns (t': Timed)
    requires Reached(ttl, clock, expiries, t) && New(t.sys, a) && t.clock <= a.at
    ensures Reached(ttl, clock, expiries, t') && Kept(ttl, t', a)
    ensures Underway(t.sys, t'.sys, a, Sending(0), [Granting(t.sys, a), Marking(t.sys, a)]) && HasPaid(t.sys, t'.sys, a)
  {
    var t1 := Starts(ttl, clock, expiries, t, a);
    var x := TimedStep(a.at, Mark(a.owner, a.at));
    ReachesOn(ttl, clock, expiries, t1, x);
    t' := TimedApply(ttl, t1, x);
    assert t'.sys == AfterMark(t1.sys, a.owner, a.at);
    assert t.sys.log + [Granting(t.sys, a)] + [Marking(t.sys, a)]
        == t.sys.log + [Granting(t.sys, a), Marking(t.sys, a)];
  }

  /** An attempt on a key without a record ends in a submission. */
  lemma AttemptSubmits(ttl: Ttl, clock: int, expiries: nat, t: Timed, a: Attempt) returns (t': Timed)
    requires Reached(ttl, clock, expiries, t) && New(t.sys, a) && t.clock <= a.at
    ensures Reached(ttl, clock, expiries, t') && Kept(ttl, t', a)
    ensures Underway(t.sys, t'.sys, a, Sending(1), LogOf(t.sys, a)) && HasPaid(t.sys, t'.sys, a)
  {
    var t1 := Marks(ttl, clock, expiries, t, a);
    var x := TimedStep(a.at, Send(a.owner));
    ReachesOn(ttl, clock, expiries, t1, x);
    t' := TimedApply(ttl, t1, x);
    assert t'.sys == AfterSend(t1.sys, a.owner);
    assert t.sys.log + [Granting(t.sys, a), Marking(t.sys, a)] + [Submitting(t.sys, a)]
        == t.sys.log + LogOf(t.sys, a);
  }

  /** What an attempt logs. */
  function LogOf(s: System, a: Attempt): seq<Event> {
    [Granting(s, a), Marking(s, a), Submitting(s, a)]
  }

  lemma Expires(ttl: Ttl, clock: int, expiries: nat, t: Timed, key: string, at: int) returns (t': Timed)
    requires Reached(ttl, clock, expiries, t) && key in t.sys.records && t.clock <= at
    requires key in t.expiresAt && t.expiresAt[key] <= at
    ensures Reached(ttl, clock, expiries + 1, t')
    ensures key !in t'.sys.records && t'.sys.workers == t.sys.workers && t'.sys.makers == t.sys.makers
    ensures t'.clock == at && Life(t'.sys, key) == Life(t.sys, key) && t.sys.log <= t'.sys.log
  {
    ReachesOn(ttl, clock, expiries, t, TimedStep(at, Expire(key)));
    t' := TimedApply(ttl, t, TimedStep(at, Expire(key)));
    assert t'.sys == AfterExpiry(t.sys, key);
  }

  lemma FoundInLog(s: System, a: Attempt, log: seq<Event>)
    requires log == s.log + LogOf(s, a)
    ensures Marking(s, a) in log && Submitting(s, a) in log
  {
    assert log[|s.log| + 1] == Marking(s, a) && log[|s.log| + 2] == Submitting(s, a);
  }

  lemma Nothing(ttl: Ttl, clock: int)
    ensures Reached(ttl, clock, 0, Beginning(clock))
  {
    assert IsTimedRun(ttl, Beginning(clock), []) && TimedAfter(ttl, Beginning(clock), []) == Beginning(clock);
  }

  /** Two payments marked and handed over under one key. */
  ghost predicate BothSubmitted(log: seq<Event>, a: Attempt, b: Attempt) {
    var key := a.request.key;
    && Marked(key, 1, a.owner, a.paymentId, a.at) in log && Submit(key, 1, a.owner, a.paymentId) in log
    && Marked(key, 2, b.owner, b.paymentId, b.at) in log && Submit(key, 2, b.owner, b.paymentId) in log
  }

  predicate Distinct(a: Attempt, b: Attempt) {
    a.request.key == b.request.key && a.owner != b.owner && a.paymentId != b.paymentId
  }

  /** The state of a deployment in which attempt `a` alone has run, up to its submission. */
  ghost predicate Alone(ttl: Ttl, t: Timed, a: Attempt) {
    && t.sys.workers.Keys == {a.owner} && t.sys.makers.Keys == {a.paymentId}
    && a.request.key in t.sys.records && Life(t.sys, a.request.key) == 1 && Kept(ttl, t, a)
    && Marked(a.request.key, 1, a.owner, a.paymentId, a.at) in t.sys.log
    && Submit(a.request.key, 1, a.owner, a.paymentId) in t.sys.log
  }

  lemma FirstSubmits(ttl: Ttl, a: Attempt) returns (t: Timed)
    ensures Reached(ttl, a.at, 0, t) && Alone(ttl, t, a)
  {
    Nothing(ttl, a.at);
    t := AttemptSubmits(ttl, a.at, 0, Beginning(a.at), a);
    FoundInLog(INITIAL, a, t.sys.log);
  }

  lemma FirstLife(ttl: Ttl, a: Attempt, b: Attempt) returns (t: Timed)
    requires Distinct(a, b) && b.at == a.at + ttl(a.owner)
    ensures Reached(ttl, a.at, 1, t) && New(t.sys, b) && t.clock == b.at && Life(t.sys, a.request.key) == 1
    ensures Marked(a.request.key, 1, a.owner, a.paymentId, a.at) in t.sys.log
    ensures Submit(a.request.key, 1, a.owner, a.paymentId) in t.sys.log
  {
    var t1 := FirstSubmits(ttl, a);
    t := Expires(ttl, a.at, 0, t1, a.request.key, b.at);
    assert b.owner !in t1.sys.workers.Keys && b.paymentId !in t1.sys.makers.Keys;
  }

  lemma BothLives(ttl: Ttl, a: Attempt, b: Attempt) returns (t: Timed)
    requires Distinct(a, b) && b.at == a.at + ttl(a.owner)
    ensures Reached(ttl, a.at, 1, t) && BothSubmitted(t.sys.log, a, b)
  {
    var t1 := FirstLife(ttl, a, b);
    t := AttemptSubmits(ttl, a.at, 1, t1, b);
    FoundInLog(t1.sys, b, t.sys.log);
  }

  /** The bound is met: with a single expiry, two payments are marked and
      submitted under one key, exactly the first mark's time to live apart. */
  lemma SecondMarkAtTtl(ttl: Ttl, a: Attempt, b: Attempt) returns (xs: seq<TimedStep>)
    requires Distinct(a, b) && b.at == a.at + ttl(a.owner)
    ensures IsTimedRun(ttl, Beginning(a.at), xs) && Expiries(xs) == 1
    ensures BothSubmitted(TimedAfter(ttl, Beginning(a.at), xs).sys.log, a, b)
  {
    var t := BothLives(ttl, a, b);
    xs :| IsTimedRun(ttl, Beginning(a.at), xs) && TimedAfter(ttl, Beginning(a.at), xs) == t && Expiries(xs) == 1;
  }

  /** Without the clock too, a single expiry lets two payments be submitted under one key. */
  lemma OneExpiryTwoSubmissions(a: Attempt, b: Attempt) returns (xs: seq<TimedStep>)
    requires Distinct(a, b) && a.at <= b.at
    ensures Expiries(xs) == 1 && IsRun(INITIAL, Untimed(xs))
    ensures BothSubmitted(After(INITIAL, Untimed(xs)).log, a, b)
  {
    var ttl: Ttl := _ => b.at - a.at;
    xs := SecondMarkAtTtl(ttl, a, b);
    TimedRunIsRun(ttl, Beginning(a.at), xs);
  }
}
