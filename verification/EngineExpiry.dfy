/**
  When a claim may be lost. Each life of a key's record ends in one expiry,
  which precedes whatever a later life submits.
 */
module EngineExpiry {
  import opened EngineProtocol
  import opened EngineSafety
  import opened EngineTheorems

  // ---------- every life ends in one expiry ----------

  ghost predicate Expired(log: seq<Event>, key: string, life: nat) {
    Expiry(key, life, true) in log || Expiry(key, life, false) in log
  }

  ghost predicate PastHasExpired(s: System, key: string, life: nat) {
    1 <= life <= Life(s, key) && !Alive(s, key, life) ==> Expired(s.log, key, life)
  }

  ghost predicate ExpiryIsPast(s: System, e: Event) {
    e.Expiry? ==> 1 <= e.life <= Life(s, e.key) && !Alive(s, e.key, e.life)
  }

  ghost predicate InOrder(e: Event, f: Event) {
    e.Expiry? && f.Expiry? && e.key == f.key ==> e.life < f.life
  }

  ghost predicate ExpiriesInOrder(log: seq<Event>) {
    forall i, j :: 0 <= i < j < |log| ==> InOrder(log[i], log[j])
  }

  /** The expiries of a key name its past lives, all of them, in order. */
  ghost predicate LivesOk(s: System) {
    && (forall key :: key in s.records ==> Life(s, key) >= 1)
    && (forall key, life: nat {:trigger PastHasExpired(s, key, life)} :: PastHasExpired(s, key, life))
    && (forall e {:trigger ExpiryIsPast(s, e)} :: e in s.log ==> ExpiryIsPast(s, e))
    && ExpiriesInOrder(s.log)
  }

  /** What every step but an expiry must show: past lives stay past, and only
      a life that begins is new. */
  lemma LivesKept(s: System, s': System)
    requires LivesOk(s)
    requires forall key :: key in s'.records ==> Life(s', key) >= 1
    requires forall key, life: nat :: 1 <= life <= Life(s, key) ==> (Alive(s', key, life) <==> Alive(s, key, life))
    requires forall key, life: nat :: Life(s, key) < life <= Life(s', key) ==> Alive(s', key, life)
    requires forall key :: Life(s, key) <= Life(s', key)
    requires s.log <= s'.log && |s'.log| <= |s.log| + 1
    requires s'.log != s.log ==> !s'.log[|s.log|].Expiry?
    ensures LivesOk(s')
  {
    forall key, life: nat
      ensures PastHasExpired(s', key, life)
    {
      assert PastHasExpired(s, key, life);
    }
    forall e | e in s'.log
      ensures ExpiryIsPast(s', e)
    {
      assert e in s.log ==> ExpiryIsPast(s, e);
    }
  }

  lemma SameLivesKept(s: System, s': System)
    requires LivesOk(s) && s'.lives == s.lives && s'.records.Keys == s.records.Keys
    requires s.log <= s'.log && |s'.log| <= |s.log| + 1
    requires s'.log != s.log ==> !s'.log[|s.log|].Expiry?
    ensures LivesOk(s')
  {
    LivesKept(s, s');
  }

  lemma ClaimLives(s: System, s': System, o: string, instance: nat, request: Request, now: int)
    requires LivesOk(s) && s' == AfterClaim(s, o, instance, request, now)
    ensures LivesOk(s')
  {
    LivesKept(s, s');
  }

  lemma ExpiryLives(s: System, s': System, key: string)
    requires LivesOk(s) && key in s.records && s' == AfterExpiry(s, key)
    ensures LivesOk(s')
  {
    var last := s'.log[|s.log|];
    assert last == Expiry(key, Life(s, key), true) || last == Expiry(key, Life(s, key), false);
    forall k, life: nat
      ensures PastHasExpired(s', k, life)
    {
      assert PastHasExpired(s, k, life);
    }
    forall e | e in s'.log
      ensures ExpiryIsPast(s', e)
      ensures e in s.log ==> InOrder(e, last)
    {
      assert e in s.log ==> ExpiryIsPast(s, e);
    }
  }

  lemma SameLives(s: System, step: Step)
    requires Enabled(s, step) && !step.Claim? && !step.Expire?
    ensures Apply(s, step).lives == s.lives && Apply(s, step).records.Keys == s.records.Keys
  {
    match step {
      case Mark(o, now) => assert Apply(s, step) == AfterMark(s, o, now);
      case Complete(o) => assert Apply(s, step) == AfterComplete(s, o);
      case _ => LocalStep(s, step);
    }
  }

  lemma StepLives(s: System, step: Step)
    requires LivesOk(s) && Enabled(s, step)
    ensures LivesOk(Apply(s, step))
  {
    var s' := Apply(s, step);
    match step {
      case Claim(o, instance, request, now) => ClaimLives(s, s', o, instance, request, now);
      case Expire(key) => ExpiryLives(s, s', key);
      case _ =>
        SameLives(s, step);
        StepLogs(s, step);
        SameLivesKept(s, s');
    }
  }

  lemma {:induction false} RunLives(s: System, steps: seq<Step>)
    requires LivesOk(s) && IsRun(s, steps)
    ensures LivesOk(After(s, steps))
    decreases |steps|
  {
    if steps != [] {
      StepLives(s, steps[0]);
      RunLives(Apply(s, steps[0]), steps[1..]);
    }
  }

  // ---------- the moment of an event ----------

  lemma {:induction false} RunLogs(s: System, steps: seq<Step>)
    requires IsRun(s, steps)
    ensures s.log <= After(s, steps).log
    decreases |steps|
  {
    if steps != [] {
      StepLogs(s, steps[0]);
      RunLogs(Apply(s, steps[0]), steps[1..]);
    }
  }

  /** Some part of the run has logged exactly the first `j` events. */
  lemma {:induction false} Moment(s: System, steps: seq<Step>, j: nat) returns (n: nat)
    requires IsRun(s, steps) && |s.log| <= j <= |After(s, steps).log|
    ensures n <= |steps| && IsRun(s, steps[..n]) && After(s, steps[..n]).log == After(s, steps).log[..j]
    decreases |steps|
  {
    RunLogs(s, steps);
    if j == |s.log| {
      n := 0;
    } else {
      StepLogs(s, steps[0]);
      n := Moment(Apply(s, steps[0]), steps[1..], j);
      n := n + 1;
      assert steps[..n][1..] == steps[1..][..n - 1];
    }
  }

  /** Of two different payments submitted under a key, the one of the later
      life is submitted only after the earlier life's record, already past
      InFlight, has expired. */
  lemma ExpiryPrecedesSubmission(steps: seq<Step>, i: nat, j: nat)
    requires IsRun(INITIAL, steps)
    requires var log := After(INITIAL, steps).log;
             && i < |log| && j < |log| && log[i].Submit? && log[j].Submit?
             && log[i].key == log[j].key && log[i].paymentId != log[j].paymentId
    ensures var log := After(INITIAL, steps).log;
            && log[i].life != log[j].life
            && (log[i].life < log[j].life ==>
                  exists m :: 0 <= m < j && log[m] == Expiry(log[i].key, log[i].life, true))
  {
    var s := After(INITIAL, steps);
    var e, f := s.log[i], s.log[j];
    SubmissionsSeparatedByExpiry(steps, e, f);
    if e.life < f.life {
      var x :| x in s.log && x == Expiry(e.key, e.life, true);
      RunLives(INITIAL, steps);
      assert ExpiryIsPast(s, x);
      var n := Moment(INITIAL, steps, j + 1);
      Reachable(steps[..n]);
      RunLives(INITIAL, steps[..n]);
      ExpiredByThen(After(INITIAL, steps[..n]), j, e.key, e.life);
      var early := After(INITIAL, steps[..n]).log;
      var m :| 0 <= m < j && early[m].Expiry? && early[m].key == e.key && early[m].life == e.life;
      assert s.log[m] == early[m];
      OneExpiryPerLife(s, x, s.log[m]);
    }
  }

  lemma OneExpiryPerLife(s: System, e: Event, f: Event)
    requires LivesOk(s) && e in s.log && f in s.log
    requires e.Expiry? && f.Expiry? && e.key == f.key && e.life == f.life
    ensures e == f
  {
    var i :| 0 <= i < |s.log| && s.log[i] == e;
    var j :| 0 <= j < |s.log| && s.log[j] == f;
    assert i < j ==> InOrder(e, f);
    assert j < i ==> InOrder(f, e);
  }

  /** When a life submits, every earlier life of the key has expired. */
  lemma ExpiredByThen(s: System, j: nat, key: string, life: nat)
    requires Inv(s) && LivesOk(s) && |s.log| == j + 1
    requires s.log[j].Submit? && s.log[j].key == key && 1 <= life < s.log[j].life
    ensures exists m :: 0 <= m < j && s.log[m].Expiry? && s.log[m].key == key && s.log[m].life == life
  {
    assert EventOk(s, s.log[j]);
    assert WorkerOk(s, s.log[j].owner);
    assert PastHasExpired(s, key, life);
    var x :| x in s.log && x.Expiry? && x.key == key && x.life == life;
    var m :| 0 <= m < |s.log| && s.log[m] == x;
  }

  // ---------- every submission was marked ----------

  ghost predicate HasMark(log: seq<Event>, key: string, life: nat, o: string, pid: string) {
    exists at :: Marked(key, life, o, pid, at) in log
  }

  ghost predicate SenderMarked(s: System, o: string)
    requires o in s.workers
  {
    var w := s.workers[o];
    w.phase.Sending? ==> HasMark(s.log, w.request.key, w.life, o, PaymentId(w))
  }

  ghost predicate SubmitMarked(s: System, e: Event) {
    e.Submit? ==> HasMark(s.log, e.key, e.life, e.owner, e.paymentId)
  }

  ghost predicate MarksOk(s: System) {
    && (forall o {:trigger SenderMarked(s, o)} :: o in s.workers ==> SenderMarked(s, o))
    && (forall e {:trigger SubmitMarked(s, e)} :: e in s.log ==> SubmitMarked(s, e))
  }

  lemma HasMarkKept(log: seq<Event>, log': seq<Event>, key: string, life: nat, o: string, pid: string)
    requires log <= log' && HasMark(log, key, life, o, pid)
    ensures HasMark(log', key, life, o, pid)
  {
    var at :| Marked(key, life, o, pid, at) in log;
    assert Marked(key, life, o, pid, at) in log';
  }

  predicate SendsIn(s: System, o: string) {
    o in s.workers && s.workers[o].phase.Sending?
  }

  /** A worker that hands a payment over did so before, or has just marked its claim. */
  lemma PayingStepSends(s: System, step: Step, o: string)
    requires Enabled(s, step) && Paying(step)
    ensures SendsIn(Apply(s, step), o) ==> SendsIn(s, o)
  {
  }

  lemma ClaimingStepSends(s: System, step: Step, o: string)
    requires Enabled(s, step) && (step.Claim? || step.Complete? || step.Expire?)
    ensures SendsIn(Apply(s, step), o) ==> SendsIn(s, o)
  {
  }

  lemma MovingStepSends(s: System, step: Step, o: string)
    requires Enabled(s, step) && (step.Reconcile? || step.Send?)
    ensures SendsIn(Apply(s, step), o) ==> SendsIn(s, o)
  {
  }

  lemma SilentStepSends(s: System, step: Step, o: string)
    requires Enabled(s, step) && (step.Reject? || step.Fetch? || step.Restart?)
    ensures SendsIn(Apply(s, step), o) ==> SendsIn(s, o)
  {
  }

  lemma MarkingStepSends(s: System, o: string, now: int, a: string)
    requires o in s.workers
    ensures SendsIn(AfterMark(s, o, now), a) ==>
              a in s.workers && (SendsIn(s, a) || SenderMarked(AfterMark(s, o, now), a))
  {
    var s' := AfterMark(s, o, now);
    if a == o && SendsIn(s', a) {
      var w := s.workers[o];
      var e := Marked(w.request.key, w.life, o, PaymentId(w), now);
      assert s'.log == s.log + [e];
      assert e in s'.log;
    }
  }

  lemma StepSends(s: System, step: Step, o: string)
    requires Enabled(s, step)
    ensures SendsIn(Apply(s, step), o) ==> o in s.workers && (SendsIn(s, o) || SenderMarked(Apply(s, step), o))
  {
    match step {
      case Mark(a, now) => MarkingStepSends(s, a, now, o);
      case Claim(_, _, _, _) => ClaimingStepSends(s, step, o);
      case Complete(_) => ClaimingStepSends(s, step, o);
      case Expire(_) => ClaimingStepSends(s, step, o);
      case _ =>
        if Paying(step) {
          PayingStepSends(s, step, o);
        } else if step.Reconcile? || step.Send? {
          MovingStepSends(s, step, o);
        } else {
          SilentStepSends(s, step, o);
        }
    }
  }

  lemma SenderStaysMarked(s: System, s': System, o: string)
    requires Inv(s) && Grows(s, s') && s.log <= s'.log && o in s.workers && o in s'.workers
    requires s.workers[o].phase.Sending? && SenderMarked(s, o)
    ensures SenderMarked(s', o)
  {
    var w := s.workers[o];
    assert WorkerOk(s, o);
    assert Continues(w, s'.workers[o]);
    HasMarkKept(s.log, s'.log, w.request.key, w.life, o, PaymentId(w));
  }

  lemma SubmitStaysMarked(s: System, s': System, step: Step, e: Event)
    requires MarksOk(s) && s.log <= s'.log && (e in s.log || HandsOver(s, e, step))
    ensures SubmitMarked(s', e)
  {
    if e.Submit? {
      assert e in s.log ==> SubmitMarked(s, e);
      assert HandsOver(s, e, step) ==> SenderMarked(s, e.owner);
      HasMarkKept(s.log, s'.log, e.key, e.life, e.owner, e.paymentId);
    }
  }

  /** Who sends did so before or has its mark, and what is new was handed over by a sender. */
  ghost predicate SendersOnly(s: System, s': System, step: Step) {
    && s.log <= s'.log
    && (forall o :: o in s'.workers && s'.workers[o].phase.Sending? ==>
          o in s.workers && (s.workers[o].phase.Sending? || SenderMarked(s', o)))
    && (forall e :: e in s'.log && e.Submit? ==> e in s.log || HandsOver(s, e, step))
  }

  lemma MarksKept(s: System, s': System, step: Step)
    requires Inv(s) && MarksOk(s) && Grows(s, s') && SendersOnly(s, s', step)
    ensures MarksOk(s')
  {
    forall o | o in s'.workers && s'.workers[o].phase.Sending?
      ensures SenderMarked(s', o)
    {
      if s.workers[o].phase.Sending? {
        assert SenderMarked(s, o);
        SenderStaysMarked(s, s', o);
      }
    }
    forall e | e in s'.log && e.Submit?
      ensures SubmitMarked(s', e)
    {
      SubmitStaysMarked(s, s', step, e);
    }
  }

  lemma StepSendersOnly(s: System, step: Step)
    requires Enabled(s, step)
    ensures SendersOnly(s, Apply(s, step), step)
  {
    StepLogs(s, step);
    forall o | o in Apply(s, step).workers && Apply(s, step).workers[o].phase.Sending?
      ensures o in s.workers && (s.workers[o].phase.Sending? || SenderMarked(Apply(s, step), o))
    {
      StepSends(s, step, o);
    }
  }

  lemma {:induction false} RunMarks(s: System, steps: seq<Step>)
    requires Inv(s) && MarksOk(s) && IsRun(s, steps)
    ensures MarksOk(After(s, steps))
    decreases |steps|
  {
    if steps != [] {
      StepKeeps(s, steps[0]);
      StepSendersOnly(s, steps[0]);
      MarksKept(s, Apply(s, steps[0]), steps[0]);
      RunMarks(Apply(s, steps[0]), steps[1..]);
    }
  }

  predicate SamePayment(e: Event, f: Event) {
    && e.Marked? && f.Submit?
    && e.key == f.key && e.life == f.life && e.owner == f.owner && e.paymentId == f.paymentId
  }

  lemma MarkedByThen(s: System, j: nat)
    requires MarksOk(s) && |s.log| == j + 1 && s.log[j].Submit?
    ensures exists i :: 0 <= i < j && SamePayment(s.log[i], s.log[j])
  {
    var f := s.log[j];
    assert SubmitMarked(s, f);
    var at :| Marked(f.key, f.life, f.owner, f.paymentId, at) in s.log;
    assert SamePayment(Marked(f.key, f.life, f.owner, f.paymentId, at), f);
  }

  /** Nothing is handed to the adapter before the claim is marked with that very payment. */
  lemma MarkPrecedesSubmission(steps: seq<Step>, j: nat)
    requires IsRun(INITIAL, steps)
    requires j < |After(INITIAL, steps).log| && After(INITIAL, steps).log[j].Submit?
    ensures var log := After(INITIAL, steps).log;
            exists i :: 0 <= i < j && SamePayment(log[i], log[j])
  {
    var log := After(INITIAL, steps).log;
    var n := Moment(INITIAL, steps, j + 1);
    var early := After(INITIAL, steps[..n]);
    RunMarks(INITIAL, steps[..n]);
    MarkedByThen(early, j);
    var i :| 0 <= i < j && SamePayment(early.log[i], early.log[j]);
    assert SamePayment(log[i], log[j]);
  }
}
