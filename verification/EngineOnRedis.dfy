/**
  The payment protocol driven by the durable claim store instead of the
  in-memory one. The engine is the same: it acts on the store's decoded
  answers. Every run on the scripts is a run of the protocol, step for step and
  with the same log, so the protocol's promises are promises of it too.
 */
module EngineOnRedis {
  import opened Common
  import opened ClaimStore
  import Redis = RedisClaimStore
  import opened PaymentStore
  import opened EngineProtocol
  import EngineTheorems
  import EngineSafety
  import CanonicalJson
  import Decimal
  import EngineExpiry
  import opened EngineTtl

  /** The shared database, and all else a deployment holds; `rest.records`,
      which the scripts do not use, is empty. */
  datatype Deployment = Deployment(db: Redis.Database, rest: System)

  const START := Deployment(map[], INITIAL)

  function Owner(db: Redis.Database, key: string): Option<string> {
    if key in db then Some(db[key].owner) else None
  }

  predicate RedisEnabled(d: Deployment, step: Step) {
    match step
    case Expire(key) => key in d.db
    case _ => Enabled(d.rest, step)
  }

  function RedisApply(codec: Redis.Codec, d: Deployment, step: Step): Deployment
    requires RedisEnabled(d, step)
  {
    match step
    case Claim(o, instance, r, now) =>
      var call := Redis.CallClaim(r.key, r.fingerprint, o, CLAIM_LEASE, now);
      var (db, answer) := Redis.RedisCall(codec, d.db, call);
      Deployment(db, OnClaim(d.rest, map[], o, instance, r, now, Owner(d.db, r.key), answer.outcome))
    case Mark(o, now) =>
      var w := d.rest.workers[o];
      var call := Redis.CallMark(ClaimToken(w.request.key, o), PaymentId(w), CLAIM_LEASE, now);
      var (db, answer) := Redis.RedisCall(codec, d.db, call);
      Deployment(db, OnMark(d.rest, map[], o, now, answer.done))
    case Complete(o) =>
      var w := d.rest.workers[o];
      var p := w.phase.payment;
      var call := Redis.CallComplete(ClaimToken(w.request.key, o), ToValue(p), p.txHash);
      var (db, answer) := Redis.RedisCall(codec, d.db, call);
      Deployment(db, OnComplete(d.rest, map[], o, answer.done))
    case Expire(key) =>
      var (db, _) := Redis.RedisCall(codec, d.db, Redis.Expires(key));
      Deployment(db, OnExpiry(d.rest, map[], key, d.db[key].lifecycle != "in_flight"))
    case _ =>
      Deployment(d.db, Apply(d.rest, step))
  }

  predicate IsRedisRun(codec: Redis.Codec, d: Deployment, steps: seq<Step>)
    decreases |steps|
  {
    steps == [] || (RedisEnabled(d, steps[0]) && IsRedisRun(codec, RedisApply(codec, d, steps[0]), steps[1..]))
  }

  function RedisAfter(codec: Redis.Codec, d: Deployment, steps: seq<Step>): Deployment
    requires IsRedisRun(codec, d, steps)
    decreases |steps|
  {
    if steps == [] then d else RedisAfter(codec, RedisApply(codec, d, steps[0]), steps[1..])
  }

  // ---------- step for step ----------

  function WithoutRecords(s: System): System {
    System(map[], s.stores, s.workers, s.lives, s.makers, s.log)
  }

  /** Every payment's body comes back from its JSON text as it was. */
  ghost predicate BodiesRoundTrip(codec: Redis.Codec) {
    forall p: Payment :: Redis.RoundTrips(codec, ToValue(p))
  }

  /** The deployment is the protocol's state with its records kept as tables. */
  ghost predicate Mirrors(codec: Redis.Codec, d: Deployment, s: System) {
    d.rest == WithoutRecords(s) && Redis.Simulates(codec, d.db, s.records)
  }

  /** Steps that touch no claim do not read the records. */
  lemma PayingStepMirrors(s: System, step: Step)
    requires Enabled(s, step) && EngineTheorems.Paying(step)
    ensures Enabled(WithoutRecords(s), step)
    ensures Apply(WithoutRecords(s), step) == WithoutRecords(Apply(s, step))
  {
    assert forall i :: StoreOf(WithoutRecords(s), i) == StoreOf(s, i);
  }

  lemma OtherStepMirrors(s: System, step: Step)
    requires Enabled(s, step)
    requires step.Reconcile? || step.Reject? || step.Send? || step.Fetch? || step.Restart?
    ensures Enabled(WithoutRecords(s), step)
    ensures Apply(WithoutRecords(s), step) == WithoutRecords(Apply(s, step))
  {
    assert forall i :: StoreOf(WithoutRecords(s), i) == StoreOf(s, i);
  }

  lemma ClaimMirrors(codec: Redis.Codec, d: Deployment, s: System, step: Step)
    requires Mirrors(codec, d, s) && step.Claim? && Enabled(s, step)
    ensures RedisEnabled(d, step) && Mirrors(codec, RedisApply(codec, d, step), Apply(s, step))
  {
    var r := step.request;
    Redis.ClaimSimulates(codec, d.db, s.records,
                         Redis.CallClaim(r.key, r.fingerprint, step.owner, CLAIM_LEASE, step.now));
    assert Owner(d.db, r.key) == Holder(s.records, r.key);
    assert Life(d.rest, r.key) == Life(s, r.key);
  }

  lemma MarkMirrors(codec: Redis.Codec, d: Deployment, s: System, step: Step)
    requires Mirrors(codec, d, s) && step.Mark? && Enabled(s, step)
    ensures RedisEnabled(d, step) && Mirrors(codec, RedisApply(codec, d, step), Apply(s, step))
  {
    var w := s.workers[step.owner];
    Redis.MarkSimulates(codec, d.db, s.records,
                        Redis.CallMark(ClaimToken(w.request.key, step.owner), PaymentId(w), CLAIM_LEASE, step.now));
  }

  lemma CompleteMirrors(codec: Redis.Codec, d: Deployment, s: System, step: Step)
    requires BodiesRoundTrip(codec) && Mirrors(codec, d, s) && step.Complete? && Enabled(s, step)
    ensures RedisEnabled(d, step) && Mirrors(codec, RedisApply(codec, d, step), Apply(s, step))
  {
    var w := s.workers[step.owner];
    var p := w.phase.payment;
    Redis.CompleteSimulates(codec, d.db, s.records,
                            Redis.CallComplete(ClaimToken(w.request.key, step.owner), ToValue(p), p.txHash));
  }

  lemma ExpireMirrors(codec: Redis.Codec, d: Deployment, s: System, step: Step)
    requires Mirrors(codec, d, s) && step.Expire? && Enabled(s, step)
    ensures RedisEnabled(d, step) && Mirrors(codec, RedisApply(codec, d, step), Apply(s, step))
  {
    assert Redis.Represents(codec, d.db[step.key], s.records[step.key]);
    assert Life(d.rest, step.key) == Life(s, step.key);
  }

  lemma LocalMirrors(codec: Redis.Codec, d: Deployment, s: System, step: Step)
    requires Mirrors(codec, d, s) && EngineTheorems.Local(step) && Enabled(s, step)
    ensures RedisEnabled(d, step) && Mirrors(codec, RedisApply(codec, d, step), Apply(s, step))
  {
    if EngineTheorems.Paying(step) {
      PayingStepMirrors(s, step);
    } else {
      OtherStepMirrors(s, step);
    }
    EngineTheorems.LocalStep(s, step);
    assert RedisApply(codec, d, step) == Deployment(d.db, Apply(d.rest, step));
  }

  /** The same steps are possible in both, and lead to mirroring states. */
  lemma StepMirrors(codec: Redis.Codec, d: Deployment, s: System, step: Step)
    requires BodiesRoundTrip(codec) && Mirrors(codec, d, s)
    ensures RedisEnabled(d, step) <==> Enabled(s, step)
    ensures Enabled(s, step) ==> Mirrors(codec, RedisApply(codec, d, step), Apply(s, step))
  {
    if Enabled(s, step) {
      match step {
        case Claim(_, _, _, _) => ClaimMirrors(codec, d, s, step);
        case Mark(_, _) => MarkMirrors(codec, d, s, step);
        case Complete(_) => CompleteMirrors(codec, d, s, step);
        case Expire(_) => ExpireMirrors(codec, d, s, step);
        case _ => LocalMirrors(codec, d, s, step);
      }
    }
  }

  /** The runs on the scripts are exactly the runs of the protocol, and leave
      the same workers, payments and log. */
  lemma {:induction false} RunsAlike(codec: Redis.Codec, d: Deployment, s: System, steps: seq<Step>)
    requires BodiesRoundTrip(codec) && Mirrors(codec, d, s)
    ensures IsRedisRun(codec, d, steps) <==> IsRun(s, steps)
    ensures IsRun(s, steps) ==> Mirrors(codec, RedisAfter(codec, d, steps), After(s, steps))
    decreases |steps|
  {
    if steps != [] {
      StepMirrors(codec, d, s, steps[0]);
      if Enabled(s, steps[0]) {
        RunsAlike(codec, RedisApply(codec, d, steps[0]), Apply(s, steps[0]), steps[1..]);
      }
    }
  }

  // ---------- the promises, on the scripts ----------

  lemma AtMostOneSubmission(codec: Redis.Codec, steps: seq<Step>, e: Event, f: Event)
    requires BodiesRoundTrip(codec) && IsRedisRun(codec, START, steps)
    requires var log := RedisAfter(codec, START, steps).rest.log; e in log && f in log
    requires e.Submit? && f.Submit? && e.key == f.key && Expire(e.key) !in steps
    ensures e.paymentId == f.paymentId
  {
    RunsAlike(codec, START, INITIAL, steps);
    EngineTheorems.AtMostOneSubmission(steps, e, f);
  }

  lemma AnswersAgree(codec: Redis.Codec, steps: seq<Step>, e: Event, f: Event)
    requires BodiesRoundTrip(codec) && IsRedisRun(codec, START, steps)
    requires var log := RedisAfter(codec, START, steps).rest.log; e in log && f in log
    requires e.Reply? && f.Reply? && e.key == f.key && e.life == f.life
    ensures EngineTheorems.Body(e.answer) == EngineTheorems.Body(f.answer)
    ensures exists p: Payment :: IsTerminal(p.status) && EngineTheorems.Body(e.answer) == ToValue(p)
    ensures var ws := RedisAfter(codec, START, steps).rest.workers;
            e.owner in ws && f.owner in ws && ws[e.owner].request.fingerprint == ws[f.owner].request.fingerprint
  {
    RunsAlike(codec, START, INITIAL, steps);
    EngineTheorems.AnswersAgree(steps, e, f);
  }

  lemma SubmissionsSeparatedByExpiry(codec: Redis.Codec, steps: seq<Step>, e: Event, f: Event)
    requires BodiesRoundTrip(codec) && IsRedisRun(codec, START, steps)
    requires var log := RedisAfter(codec, START, steps).rest.log; e in log && f in log
    requires e.Submit? && f.Submit? && e.key == f.key && e.paymentId != f.paymentId
    ensures e.life != f.life
    ensures EngineSafety.ExpiredCommitted(RedisAfter(codec, START, steps).rest, e.key,
                                          if e.life < f.life then e.life else f.life)
  {
    RunsAlike(codec, START, INITIAL, steps);
    EngineTheorems.SubmissionsSeparatedByExpiry(steps, e, f);
  }

  lemma ExpiryPrecedesSubmission(codec: Redis.Codec, steps: seq<Step>, i: nat, j: nat)
    requires BodiesRoundTrip(codec) && IsRedisRun(codec, START, steps)
    requires var log := RedisAfter(codec, START, steps).rest.log;
             && i < |log| && j < |log| && log[i].Submit? && log[j].Submit?
             && log[i].key == log[j].key && log[i].paymentId != log[j].paymentId
    ensures var log := RedisAfter(codec, START, steps).rest.log;
            && log[i].life != log[j].life
            && (log[i].life < log[j].life ==>
                  exists m :: 0 <= m < j && log[m] == Expiry(log[i].key, log[i].life, true))
  {
    RunsAlike(codec, START, INITIAL, steps);
    EngineExpiry.ExpiryPrecedesSubmission(steps, i, j);
  }

  // ---------- with the scripts' time to live ----------

  datatype TimedDeployment = TimedDeployment(now: Deployment, clock: int, expiresAt: map<string, int>)

  predicate RedisTimedEnabled(t: TimedDeployment, x: TimedStep) {
    RedisEnabled(t.now, x.step) && Timely(t.clock, t.expiresAt, x)
  }

  /** Every script that writes sets `PX` anew. */
  function RedisDeadlines(codec: Redis.Codec, ttl: Ttl, t: TimedDeployment, x: TimedStep): map<string, int>
    requires RedisTimedEnabled(t, x)
  {
    var db, rest := t.now.db, t.now.rest;
    match x.step
    case Claim(o, _, r, now) =>
      var answer := Redis.RedisCall(codec, db, Redis.CallClaim(r.key, r.fingerprint, o, CLAIM_LEASE, now)).1;
      Written(t.expiresAt, r.key, Stored(answer.outcome), x.at + ttl(o))
    case Mark(o, now) =>
      var w := rest.workers[o];
      var token := ClaimToken(w.request.key, o);
      var answer := Redis.RedisCall(codec, db, Redis.CallMark(token, PaymentId(w), CLAIM_LEASE, now)).1;
      Written(t.expiresAt, w.request.key, answer.done.Ok?, x.at + ttl(o))
    case Complete(o) =>
      var w := rest.workers[o];
      var p := w.phase.payment;
      var token := ClaimToken(w.request.key, o);
      var answer := Redis.RedisCall(codec, db, Redis.CallComplete(token, ToValue(p), p.txHash)).1;
      Written(t.expiresAt, w.request.key, answer.done.Ok?, x.at + ttl(o))
    case Expire(key) => t.expiresAt - {key}
    case _ => t.expiresAt
  }

  function RedisTimedApply(codec: Redis.Codec, ttl: Ttl, t: TimedDeployment, x: TimedStep): TimedDeployment
    requires RedisTimedEnabled(t, x)
  {
    TimedDeployment(RedisApply(codec, t.now, x.step), x.at, RedisDeadlines(codec, ttl, t, x))
  }

  predicate IsRedisTimedRun(codec: Redis.Codec, ttl: Ttl, t: TimedDeployment, xs: seq<TimedStep>)
    decreases |xs|
  {
    xs == [] ||
    (RedisTimedEnabled(t, xs[0]) && IsRedisTimedRun(codec, ttl, RedisTimedApply(codec, ttl, t, xs[0]), xs[1..]))
  }

  function RedisTimedAfter(codec: Redis.Codec, ttl: Ttl, t: TimedDeployment, xs: seq<TimedStep>): TimedDeployment
    requires IsRedisTimedRun(codec, ttl, t, xs)
    decreases |xs|
  {
    if xs == [] then t else RedisTimedAfter(codec, ttl, RedisTimedApply(codec, ttl, t, xs[0]), xs[1..])
  }

  ghost predicate TimedMirrors(codec: Redis.Codec, d: TimedDeployment, t: Timed) {
    Mirrors(codec, d.now, t.sys) && d.clock == t.clock && d.expiresAt == t.expiresAt
  }

  /** The scripts accept what the in-memory store accepts, so the deadlines agree. */
  lemma DeadlinesAlike(codec: Redis.Codec, ttl: Ttl, d: TimedDeployment, t: Timed, x: TimedStep)
    requires BodiesRoundTrip(codec) && TimedMirrors(codec, d, t)
    requires RedisTimedEnabled(d, x) && TimedEnabled(t, x)
    ensures RedisDeadlines(codec, ttl, d, x) == Deadlines(ttl, t, x)
  {
    var db, s := d.now.db, t.sys;
    match x.step {
      case Claim(o, _, r, now) =>
        Redis.ClaimSimulates(codec, db, s.records, Redis.CallClaim(r.key, r.fingerprint, o, CLAIM_LEASE, now));
      case Mark(o, now) =>
        var w := s.workers[o];
        Redis.MarkSimulates(codec, db, s.records,
                            Redis.CallMark(ClaimToken(w.request.key, o), PaymentId(w), CLAIM_LEASE, now));
      case Complete(o) =>
        var w := s.workers[o];
        var p := w.phase.payment;
        Redis.CompleteSimulates(codec, db, s.records,
                                Redis.CallComplete(ClaimToken(w.request.key, o), ToValue(p), p.txHash));
      case _ =>
    }
  }

  lemma {:induction false} TimedRunsAlike(codec: Redis.Codec, ttl: Ttl, d: TimedDeployment, t: Timed,
                                          xs: seq<TimedStep>)
    requires BodiesRoundTrip(codec) && TimedMirrors(codec, d, t)
    ensures IsRedisTimedRun(codec, ttl, d, xs) <==> IsTimedRun(ttl, t, xs)
    ensures IsTimedRun(ttl, t, xs) ==>
              TimedMirrors(codec, RedisTimedAfter(codec, ttl, d, xs), TimedAfter(ttl, t, xs))
    decreases |xs|
  {
    if xs != [] {
      StepMirrors(codec, d.now, t.sys, xs[0].step);
      if TimedEnabled(t, xs[0]) {
        DeadlinesAlike(codec, ttl, d, t, xs[0]);
        TimedRunsAlike(codec, ttl, RedisTimedApply(codec, ttl, d, xs[0]), TimedApply(ttl, t, xs[0]), xs[1..]);
      }
    }
  }

  lemma SecondMarkWaits(codec: Redis.Codec, ttl: Ttl, clock: int, xs: seq<TimedStep>, e: Event, f: Event)
    requires BodiesRoundTrip(codec) && IsRedisTimedRun(codec, ttl, TimedDeployment(START, clock, map[]), xs)
    requires var log := RedisTimedAfter(codec, ttl, TimedDeployment(START, clock, map[]), xs).now.rest.log;
             e in log && f in log
    requires e.Marked? && f.Marked? && e.key == f.key && e.paymentId != f.paymentId
    ensures if e.life < f.life then e.at + ttl(e.owner) <= f.at else f.at + ttl(f.owner) <= e.at
  {
    TimedRunsAlike(codec, ttl, TimedDeployment(START, clock, map[]), Beginning(clock), xs);
    EngineTtl.SecondMarkWaits(ttl, clock, xs, e, f);
  }

  // ---------- such codecs exist ----------

  lemma NumberWellFormed(n: nat)
    ensures CanonicalJson.WellFormed(Number(Decimal.Natural(n)))
  {
    var s := Decimal.Natural(n);
    forall c | c in s
      ensures CanonicalJson.NumberChar(c)
    {
      var i :| 0 <= i < |s| && s[i] == c;
    }
  }

  lemma BodyWellFormed(p: Payment)
    ensures CanonicalJson.WellFormed(ToValue(p))
  {
    NumberWellFormed(p.amount);
    NumberWellFormed(p.feeStroops);
  }

  /** The document that has this canonical text, if there is one. */
  ghost function Reading(printable: char -> bool, s: string): Result<Value> {
    if exists v :: CanonicalJson.WellFormed(v) && CanonicalJson.Canon(printable, v) == s then
      var v :| CanonicalJson.WellFormed(v) && CanonicalJson.Canon(printable, v) == s;
      Ok(v)
    else
      Err(Internal)
  }

  lemma ReadingInvertsCanon(printable: char -> bool, v: Value)
    requires CanonicalJson.WellFormed(v)
    ensures Reading(printable, CanonicalJson.Canon(printable, v)) == Ok(v)
  {
    var r := Reading(printable, CanonicalJson.Canon(printable, v));
    CanonicalJson.CanonExact(printable, v, r.value);
  }

  /** Canonical text is one rendering from which every payment's body can be read back. */
  lemma CanonicalBodiesRoundTrip(printable: char -> bool) returns (codec: Redis.Codec)
    ensures BodiesRoundTrip(codec)
  {
    codec := Redis.Codec(v => CanonicalJson.Canon(printable, v), s => Reading(printable, s));
    forall p: Payment
      ensures Redis.RoundTrips(codec, ToValue(p))
    {
      BodyWellFormed(p);
      ReadingInvertsCanon(printable, ToValue(p));
    }
  }
}
