/** The promises of idempotent initiation, for every run of the protocol. */
module EngineTheorems {
  import opened Common
  import opened ClaimStore
  import opened PaymentStore
  import opened EngineProtocol
  import opened EngineSafety

  lemma {:induction false} RunKeeps(s: System, steps: seq<Step>)
    requires Inv(s) && IsRun(s, steps)
    ensures Inv(After(s, steps))
    decreases |steps|
  {
    if steps != [] {
      StepKeeps(s, steps[0]);
      RunKeeps(Apply(s, steps[0]), steps[1..]);
    }
  }

  lemma Reachable(steps: seq<Step>)
    requires IsRun(INITIAL, steps)
    ensures Inv(After(INITIAL, steps))
  {
    RunKeeps(INITIAL, steps);
  }

  // ---------- one submission ----------

  /** Within one life of a key's record, whatever reaches the adapter is one payment. */
  lemma OneSubmissionPerLife(steps: seq<Step>, e: Event, f: Event)
    requires IsRun(INITIAL, steps)
    requires e in After(INITIAL, steps).log && f in After(INITIAL, steps).log
    requires e.Submit? && f.Submit? && e.key == f.key && e.life == f.life
    ensures e.paymentId == f.paymentId && e.owner == f.owner
  {
    var s := After(INITIAL, steps);
    Reachable(steps);
    assert EventOk(s, e) && EventOk(s, f);
    assert OneCommit(s, e.owner, f.owner);
  }

  /** Two payments submitted under one key are separated by the expiry of a
      record that had already reached Submitting or Completed. */
  lemma SubmissionsSeparatedByExpiry(steps: seq<Step>, e: Event, f: Event)
    requires IsRun(INITIAL, steps)
    requires e in After(INITIAL, steps).log && f in After(INITIAL, steps).log
    requires e.Submit? && f.Submit? && e.key == f.key && e.paymentId != f.paymentId
    ensures e.life != f.life
    ensures ExpiredCommitted(After(INITIAL, steps), e.key, if e.life < f.life then e.life else f.life)
  {
    var s := After(INITIAL, steps);
    Reachable(steps);
    if e.life == f.life {
      OneSubmissionPerLife(steps, e, f);
      assert false;
    }
    assert EventOk(s, e) && EventOk(s, f);
    assert WorkerOk(s, e.owner) && WorkerOk(s, f.owner);
  }

  lemma NewExpiryIsExpire(s: System, step: Step, e: Event)
    requires Enabled(s, step) && e !in s.log && e.Expiry?
    ensures e in Apply(s, step).log ==> step == Expire(e.key)
  {
    StepLogs(s, step);
  }

  lemma {:induction false} ExpiryNeedsExpire(s: System, steps: seq<Step>, e: Event)
    requires IsRun(s, steps)
    requires e in After(s, steps).log && e !in s.log && e.Expiry?
    ensures Expire(e.key) in steps
    decreases |steps|
  {
    if steps != [] {
      var s' := Apply(s, steps[0]);
      if e in s'.log {
        NewExpiryIsExpire(s, steps[0], e);
      } else {
        ExpiryNeedsExpire(s', steps[1..], e);
      }
    }
  }

  /** As long as the key's record is not lost, at most one payment id is ever
      handed to the adapter under it. */
  lemma AtMostOneSubmission(steps: seq<Step>, e: Event, f: Event)
    requires IsRun(INITIAL, steps)
    requires e in After(INITIAL, steps).log && f in After(INITIAL, steps).log
    requires e.Submit? && f.Submit? && e.key == f.key
    requires Expire(e.key) !in steps
    ensures e.paymentId == f.paymentId
  {
    if e.paymentId != f.paymentId {
      SubmissionsSeparatedByExpiry(steps, e, f);
      var x :| x in After(INITIAL, steps).log && x.Expiry? && x.key == e.key;
      ExpiryNeedsExpire(INITIAL, steps, x);
      assert false;
    }
  }

  // ---------- one answer ----------

  /** What the client reads in an answer. */
  function Body(a: Answer): Value {
    match a
    case Executed(p) => ToValue(p)
    case Replayed(v) => v
  }

  /** All answers given out in one life of a key tell the same final payment,
      and only to requests with the fingerprint of the one that ran. */
  lemma AnswersAgree(steps: seq<Step>, e: Event, f: Event)
    requires IsRun(INITIAL, steps)
    requires e in After(INITIAL, steps).log && f in After(INITIAL, steps).log
    requires e.Reply? && f.Reply? && e.key == f.key && e.life == f.life
    ensures Body(e.answer) == Body(f.answer)
    ensures exists p: Payment :: IsTerminal(p.status) && Body(e.answer) == ToValue(p)
    ensures e.answer.Executed? && f.answer.Executed? ==> e.answer == f.answer
    ensures var ws := After(INITIAL, steps).workers;
            e.owner in ws && f.owner in ws && ws[e.owner].request.fingerprint == ws[f.owner].request.fingerprint
  {
    var s := After(INITIAL, steps);
    Reachable(steps);
    assert EventOk(s, e) && EventOk(s, f);
    assert OneCommit(s, e.source, f.source);
    assert WorkerOk(s, e.source);
    var p := s.workers[e.source].final.value;
    assert IsTerminal(p.status) && Body(e.answer) == ToValue(p);
  }

  /** An answer and a submission of one life speak of the same payment. */
  lemma AnswerTellsSubmission(steps: seq<Step>, e: Event, f: Event)
    requires IsRun(INITIAL, steps)
    requires e in After(INITIAL, steps).log && f in After(INITIAL, steps).log
    requires e.Reply? && f.Submit? && e.key == f.key && e.life == f.life
    ensures exists p: Payment :: p.id == f.paymentId && Body(e.answer) == ToValue(p)
  {
    var s := After(INITIAL, steps);
    Reachable(steps);
    assert EventOk(s, e) && EventOk(s, f);
    assert OneCommit(s, e.source, f.owner);
    assert WorkerOk(s, e.source);
    var p := s.workers[e.source].final.value;
    assert p.id == f.paymentId && Body(e.answer) == ToValue(p);
  }

  lemma AtMostOneExecuted(steps: seq<Step>, i: nat, j: nat)
    requires IsRun(INITIAL, steps)
    requires i < |After(INITIAL, steps).log| && j < |After(INITIAL, steps).log|
    requires var e, f := After(INITIAL, steps).log[i], After(INITIAL, steps).log[j];
             && e.Reply? && f.Reply? && e.answer.Executed? && f.answer.Executed?
             && e.key == f.key && e.life == f.life
    ensures i == j
  {
    var s := After(INITIAL, steps);
    var e, f := s.log[i], s.log[j];
    Reachable(steps);
    assert EventOk(s, e) && EventOk(s, f);
    assert OneCommit(s, e.source, f.source);
  }

  // ---------- the record over time ----------

  function Rank(l: ClaimLifecycle): nat {
    match l
    case InFlight => 0
    case Submitting(_) => 1
    case Completed(_, _) => 2
  }

  /** `r'` is a later stage of record `r`. */
  predicate Forward(r: ClaimRecord, r': ClaimRecord) {
    && r'.fingerprint == r.fingerprint && r'.createdAtMs == r.createdAtMs
    && Rank(r.lifecycle) <= Rank(r'.lifecycle)
    && (!r.lifecycle.InFlight? ==> r'.owner == r.owner)
    && (r.lifecycle.Submitting? && r'.lifecycle.Submitting? ==> r'.lifecycle == r.lifecycle)
    && (r.lifecycle.Completed? ==> r' == r)
  }

  /** Every record of `records` is still there, at the same or a later stage. */
  predicate AllForward(records: Records, records': Records) {
    forall key :: key in records ==> key in records' && Forward(records[key], records'[key])
  }

  /** A claim never moves a record back. */
  lemma ClaimForward(records: Records, key: string, fingerprint: string, owner: string, lease: nat, now: int)
    ensures AllForward(records, ClaimStep(records, key, fingerprint, owner, lease, now).0)
  {
  }

  /** mark_submitting moves no record back exactly when the token does not own
      the record, or the record is in flight or already carries this reference. */
  lemma MarkForwardExactly(records: Records, token: ClaimToken, ref: string, lease: nat, now: int)
    ensures AllForward(records, MarkSubmittingStep(records, token, ref, lease, now).0) <==>
            (Owns(records, token.key, token.owner) ==>
               records[token.key].lifecycle.InFlight? || records[token.key].lifecycle == Submitting(ref))
  {
    var records' := MarkSubmittingStep(records, token, ref, lease, now).0;
    if Owns(records, token.key, token.owner) {
      assert AllForward(records, records') <==> Forward(records[token.key], records'[token.key]);
    }
  }

  /** complete moves no record back exactly when the token does not own the
      record, or the record was not completed before, or with this very
      response and reference. */
  lemma CompleteForwardExactly(records: Records, token: ClaimToken, v: Value, finalRef: Option<string>)
    ensures AllForward(records, CompleteStep(records, token, v, finalRef).0) <==>
            (Owns(records, token.key, token.owner) && records[token.key].lifecycle.Completed? ==>
               records[token.key].lifecycle == Completed(v, finalRef))
  {
    var records' := CompleteStep(records, token, v, finalRef).0;
    if Owns(records, token.key, token.owner) {
      assert AllForward(records, records') <==> Forward(records[token.key], records'[token.key]);
    }
  }

  /** Each step's effect on the stored records, in terms of the store's calls. */
  function RecordsAfter(s: System, step: Step): Records
    requires Enabled(s, step)
  {
    match step
    case Claim(o, _, r, now) => ClaimStep(s.records, r.key, r.fingerprint, o, CLAIM_LEASE, now).0
    case Mark(o, now) =>
      var w := s.workers[o];
      MarkSubmittingStep(s.records, ClaimToken(w.request.key, o), PaymentId(w), CLAIM_LEASE, now).0
    case Complete(o) =>
      var w := s.workers[o];
      CompleteStep(s.records, ClaimToken(w.request.key, o), ToValue(w.phase.payment), w.phase.payment.txHash).0
    case Expire(key) => s.records - {key}
    case _ => s.records
  }

  /** Steps that do not touch the claim store. */
  predicate Local(step: Step) {
    !(step.Claim? || step.Mark? || step.Complete? || step.Expire?)
  }

  /** Steps that write a payment. */
  predicate Paying(step: Step) {
    step.RouteFails? || step.RouteFound? || step.Start? || step.Report?
  }

  lemma PayingStepLocal(s: System, step: Step)
    requires Enabled(s, step) && Paying(step)
    ensures Apply(s, step).records == s.records && Apply(s, step).log == s.log && Apply(s, step).lives == s.lives
  {
  }

  lemma SilentStepLocal(s: System, step: Step)
    requires Enabled(s, step) && (step.Reject? || step.Fetch? || step.Restart?)
    ensures Apply(s, step).records == s.records && Apply(s, step).log == s.log && Apply(s, step).lives == s.lives
  {
  }

  /** The step is a sender handing its payment over, as the event says. */
  predicate HandsOver(s: System, e: Event, step: Step) {
    && e.Submit? && step == Send(e.owner) && e.owner in s.workers && s.workers[e.owner].phase.Sending?
    && e == Submit(s.workers[e.owner].request.key, s.workers[e.owner].life, e.owner, PaymentId(s.workers[e.owner]))
  }

  /** What is the same after a step that logs at most an answer or a hand-over. */
  predicate LogsOwn(s: System, s': System, step: Step) {
    && s'.records == s.records && s'.lives == s.lives
    && s.log <= s'.log && |s'.log| <= |s.log| + 1
    && (s'.log != s.log ==> s'.log[|s.log|].Reply? || HandsOver(s, s'.log[|s.log|], step))
  }

  lemma ReconcileLocal(s: System, o: string)
    requires o in s.workers && s.workers[o].phase.Reconciling?
    ensures LogsOwn(s, AfterReconcile(s, o), Reconcile(o))
  {
  }

  lemma SendLocal(s: System, o: string)
    requires o in s.workers && s.workers[o].phase.Sending?
    ensures LogsOwn(s, AfterSend(s, o), Send(o))
  {
  }

  lemma LocalStep(s: System, step: Step)
    requires Enabled(s, step) && Local(step)
    ensures LogsOwn(s, Apply(s, step), step)
  {
    if Paying(step) {
      PayingStepLocal(s, step);
    } else if step.Reconcile? {
      ReconcileLocal(s, step.owner);
    } else if step.Send? {
      SendLocal(s, step.owner);
    } else {
      SilentStepLocal(s, step);
    }
  }

  lemma RecordsAfterApply(s: System, step: Step)
    requires Enabled(s, step)
    ensures Apply(s, step).records == RecordsAfter(s, step)
  {
    match step {
      case Claim(o, instance, r, now) => assert Apply(s, step) == AfterClaim(s, o, instance, r, now);
      case Mark(o, now) => assert Apply(s, step) == AfterMark(s, o, now);
      case Complete(o) => assert Apply(s, step) == AfterComplete(s, o);
      case Expire(key) => assert Apply(s, step) == AfterExpiry(s, key);
      case _ => LocalStep(s, step);
    }
  }

  /** A step logs at most one event: an expiry only when a record expires, a
      mark only by mark_submitting, and a hand-over only by a sender. */
  lemma StepLogs(s: System, step: Step)
    requires Enabled(s, step)
    ensures var s' := Apply(s, step);
            && s.log <= s'.log && |s'.log| <= |s.log| + 1
            && (s'.log != s.log && s'.log[|s.log|].Expiry? ==> step == Expire(s'.log[|s.log|].key))
            && (s'.log != s.log && s'.log[|s.log|].Marked? ==> step.Mark?)
            && (s'.log != s.log && s'.log[|s.log|].Submit? ==> HandsOver(s, s'.log[|s.log|], step))
  {
    match step {
      case Claim(o, instance, r, now) => assert Apply(s, step) == AfterClaim(s, o, instance, r, now);
      case Mark(o, now) => assert Apply(s, step) == AfterMark(s, o, now);
      case Complete(o) => assert Apply(s, step) == AfterComplete(s, o);
      case Expire(key) => assert Apply(s, step) == AfterExpiry(s, key);
      case _ => LocalStep(s, step);
    }
  }

  /** The engine calls the store only where that moves a record forward. */
  lemma StepForward(s: System, step: Step, key: string)
    requires Enabled(s, step) && key in s.records && key in RecordsAfter(s, step)
    requires RecordOk(s, key)
    requires (step.Mark? || step.Complete?) ==> WorkerOk(s, step.owner)
    ensures Forward(s.records[key], RecordsAfter(s, step)[key])
  {
    match step {
      case Claim(o, _, r, now) => ClaimForward(s.records, r.key, r.fingerprint, o, CLAIM_LEASE, now);
      case Mark(o, now) => MarkStepForward(s, o, now, key);
      case Complete(o) => CompleteStepForward(s, o, key);
      case _ =>
    }
  }

  lemma MarkStepForward(s: System, o: string, now: int, key: string)
    requires Enabled(s, Mark(o, now)) && key in s.records && RecordOk(s, key) && WorkerOk(s, o)
    ensures key in RecordsAfter(s, Mark(o, now)) && Forward(s.records[key], RecordsAfter(s, Mark(o, now))[key])
  {
    var w := s.workers[o];
    if key == w.request.key {
      MarkForwardExactly(s.records, ClaimToken(key, o), PaymentId(w), CLAIM_LEASE, now);
    }
  }

  lemma CompleteStepForward(s: System, o: string, key: string)
    requires Enabled(s, Complete(o)) && key in s.records && RecordOk(s, key) && WorkerOk(s, o)
    ensures key in RecordsAfter(s, Complete(o)) && Forward(s.records[key], RecordsAfter(s, Complete(o))[key])
  {
    var w := s.workers[o];
    if key == w.request.key {
      CompleteForwardExactly(s.records, ClaimToken(key, o), ToValue(w.phase.payment), w.phase.payment.txHash);
    }
  }

  /** Once lost, a life of a key never comes back. */
  lemma {:induction false} LostForGood(s: System, steps: seq<Step>, key: string, life: nat)
    requires Inv(s) && IsRun(s, steps)
    requires life <= Life(s, key) && !Alive(s, key, life)
    ensures !Alive(After(s, steps), key, life)
    decreases |steps|
  {
    if steps != [] {
      StepKeeps(s, steps[0]);
      LostForGood(Apply(s, steps[0]), steps[1..], key, life);
    }
  }

  lemma StepForwardWhileAlive(s: System, step: Step, key: string)
    requires Inv(s) && Enabled(s, step)
    requires key in s.records && key in Apply(s, step).records
    ensures Forward(s.records[key], Apply(s, step).records[key])
  {
    RecordsAfterApply(s, step);
    assert RecordOk(s, key);
    if step.Mark? || step.Complete? {
      assert WorkerOk(s, step.owner);
    }
    StepForward(s, step, key);
  }

  /** The lifecycle never moves back; fingerprint, creation time, and the owner
      and content of what was once recorded never change. */
  lemma {:induction false} RecordForward(s: System, steps: seq<Step>, key: string)
    requires Inv(s) && IsRun(s, steps)
    requires key in s.records && Alive(After(s, steps), key, Life(s, key))
    ensures Forward(s.records[key], After(s, steps).records[key])
    decreases |steps|
  {
    if steps != [] {
      var s' := Apply(s, steps[0]);
      StepKeeps(s, steps[0]);
      if Alive(s', key, Life(s, key)) {
        StepForwardWhileAlive(s, steps[0], key);
        RecordForward(s', steps[1..], key);
      } else {
        LostForGood(s', steps[1..], key, Life(s, key));
        assert false;
      }
    }
  }

  /** Only a claim changes an owner, and only that of an InFlight record whose lease has run out. */
  lemma OwnerChangesByTakeover(s: System, step: Step, key: string)
    requires Enabled(s, step) && key in s.records && key in Apply(s, step).records
    requires Apply(s, step).records[key].owner != s.records[key].owner
    ensures step.Claim? && step.request.key == key && Apply(s, step).records[key].owner == step.owner
    ensures s.records[key].lifecycle.InFlight? && s.records[key].LeaseExpired(step.now)
  {
    RecordsAfterApply(s, step);
    TakeoverInStore(s, step, key);
  }

  lemma TakeoverInStore(s: System, step: Step, key: string)
    requires Enabled(s, step) && key in s.records && key in RecordsAfter(s, step)
    requires RecordsAfter(s, step)[key].owner != s.records[key].owner
    ensures step.Claim? && step.request.key == key && RecordsAfter(s, step)[key].owner == step.owner
    ensures s.records[key].lifecycle.InFlight? && s.records[key].LeaseExpired(step.now)
  {
  }

  /** A worker that does not own its key's record. */
  predicate Displaced(s: System, o: string) {
    && o in s.workers
    && !Owns(s.records, s.workers[o].request.key, o)
  }

  /** No step gives a record back to a worker that has already begun. */
  lemma NeverRegained(s: System, step: Step, key: string, o: string)
    requires Enabled(s, step) && o in s.workers && !Owns(s.records, key, o)
    ensures !Owns(RecordsAfter(s, step), key, o)
  {
  }

  lemma StepKeepsDisplaced(s: System, step: Step, o: string)
    requires Enabled(s, step) && Displaced(s, o)
    ensures Grows(s, Apply(s, step)) ==> Displaced(Apply(s, step), o)
  {
    RecordsAfterApply(s, step);
    NeverRegained(s, step, s.workers[o].request.key, o);
    assert Grows(s, Apply(s, step)) ==> Continues(s.workers[o], Apply(s, step).workers[o]);
  }

  /** A displaced worker stays displaced, and no write of it is ever accepted again. */
  lemma {:induction false} DisplacedNeverWrites(s: System, steps: seq<Step>, o: string,
                                                ref: string, lease: nat, now: int, v: Value, finalRef: Option<string>)
    requires Inv(s) && IsRun(s, steps) && Displaced(s, o)
    ensures var s' := After(s, steps);
            && Displaced(s', o)
            && var token := ClaimToken(s'.workers[o].request.key, o);
            && var mark, complete := MarkSubmittingStep(s'.records, token, ref, lease, now),
                                     CompleteStep(s'.records, token, v, finalRef);
            && mark.0 == s'.records && mark.1.Err?
            && complete.0 == s'.records && complete.1.Err?
    decreases |steps|
  {
    if steps != [] {
      StepKeeps(s, steps[0]);
      StepKeepsDisplaced(s, steps[0], o);
      DisplacedNeverWrites(Apply(s, steps[0]), steps[1..], o, ref, lease, now, v, finalRef);
    }
  }

  /** Two grants in one life of a key are at least one lease apart by the clock. */
  lemma GrantsOneLeaseApart(steps: seq<Step>, i: nat, j: nat)
    requires IsRun(INITIAL, steps) && i < j < |After(INITIAL, steps).log|
    requires var e, f := After(INITIAL, steps).log[i], After(INITIAL, steps).log[j];
             e.Grant? && f.Grant? && e.key == f.key && e.life == f.life
    ensures After(INITIAL, steps).log[j].at >= After(INITIAL, steps).log[i].at + CLAIM_LEASE
  {
    Reachable(steps);
    var log := After(INITIAL, steps).log;
    assert Spaced(log[i], log[j]);
  }

  /** The store alone does not keep the lifecycle moving forward: only the
      order in which the engine calls it does. MarkForwardExactly and
      CompleteForwardExactly say which calls move a record back. */
  lemma StoreAloneCanRegress(v: Value)
    ensures var token := ClaimToken("k", "o");
            var records := CompleteStep(ClaimStep(map[], "k", "f", "o", 0, 0).0, token, v, None).0;
            var records' := MarkSubmittingStep(records, token, "p", 0, 0).0;
            "k" in records && "k" in records' && !Forward(records["k"], records'["k"])
  {
    var records := ClaimStep(map[], "k", "f", "o", 0, 0).0;
    assert records["k"].owner == "o";
  }
}
