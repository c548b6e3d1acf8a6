/**
  Expiry by the clock. Every accepted write stores the record with the
  request's time to live, and the record is lost no earlier than that. So a key
  that has been marked for one payment is not marked for another until the
  first mark's time to live has passed. One clock that never runs back gives
  every reading.
 */
module EngineTtl {
  import opened Common
  import opened ClaimStore
  import opened PaymentStore
  import opened EngineProtocol
  import opened EngineSafety
  import opened EngineTheorems
  import opened EngineExpiry

  /** The protocol with its clock, and when each stored record may be lost. */
  datatype Timed = Timed(sys: System, clock: int, expiresAt: map<string, int>)

  datatype TimedStep = TimedStep(at: int, step: Step)

  /** The time to live that each owner's request brings. */
  type Ttl = string -> nat

  /** The clock has not run back, the step reads it, and a record is lost only
      once its deadline has come. */
  predicate Timely(clock: int, expiresAt: map<string, int>, x: TimedStep) {
    && clock <= x.at
    && match x.step
       case Claim(_, _, _, now) => now == x.at
       case Mark(_, now) => now == x.at
       case Expire(key) => key in expiresAt && expiresAt[key] <= x.at
       case _ => true
  }

  predicate TimedEnabled(t: Timed, x: TimedStep) {
    Enabled(t.sys, x.step) && Timely(t.clock, t.expiresAt, x)
  }

  function Written(expiresAt: map<string, int>, key: string, accepted: bool, until: int): map<string, int> {
    if accepted then expiresAt[key := until] else expiresAt
  }

  /** The claim stored a record or took one over. */
  predicate Stored(outcome: Result<ClaimOutcome>) {
    outcome.Ok? && (outcome.value.Claimed? || outcome.value.TookOver?)
  }

  /** An accepted write sets the deadline anew; a refused one and a mere answer do not. */
  function Deadlines(ttl: Ttl, t: Timed, x: TimedStep): map<string, int>
    requires TimedEnabled(t, x)
  {
    var s := t.sys;
    match x.step
    case Claim(o, _, r, now) =>
      var outcome := ClaimStep(s.records, r.key, r.fingerprint, o, CLAIM_LEASE, now).1;
      Written(t.expiresAt, r.key, Stored(outcome), x.at + ttl(o))
    case Mark(o, now) =>
      var w := s.workers[o];
      var token := ClaimToken(w.request.key, o);
      var accepted := MarkSubmittingStep(s.records, token, PaymentId(w), CLAIM_LEASE, now).1.Ok?;
      Written(t.expiresAt, w.request.key, accepted, x.at + ttl(o))
    case Complete(o) =>
      var w := s.workers[o];
      var p := w.phase.payment;
      var accepted := CompleteStep(s.records, ClaimToken(w.request.key, o), ToValue(p), p.txHash).1.Ok?;
      Written(t.expiresAt, w.request.key, accepted, x.at + ttl(o))
    case Expire(key) => t.expiresAt - {key}
    case _ => t.expiresAt
  }

  function TimedApply(ttl: Ttl, t: Timed, x: TimedStep): Timed
    requires TimedEnabled(t, x)
  {
    Timed(Apply(t.sys, x.step), x.at, Deadlines(ttl, t, x))
  }

  predicate IsTimedRun(ttl: Ttl, t: Timed, xs: seq<TimedStep>)
    decreases |xs|
  {
    xs == [] || (TimedEnabled(t, xs[0]) && IsTimedRun(ttl, TimedApply(ttl, t, xs[0]), xs[1..]))
  }

  function TimedAfter(ttl: Ttl, t: Timed, xs: seq<TimedStep>): Timed
    requires IsTimedRun(ttl, t, xs)
    decreases |xs|
  {
    if xs == [] then t else TimedAfter(ttl, TimedApply(ttl, t, xs[0]), xs[1..])
  }

  /** The key under which a step writes a claim record, and who writes it. */
  ghost predicate Writes(s: System, step: Step, key: string, o: string) {
    match step
    case Claim(a, instance, r, now) =>
      a == o && r.key == key && AfterClaim(s, a, instance, r, now).workers[a].phase.Granted?
    case Mark(a, _) => a == o && a in s.workers && s.workers[a].request.key == key && Owns(s.records, key, a)
    case Complete(a) => a == o && a in s.workers && s.workers[a].request.key == key && Owns(s.records, key, a)
    case _ => false
  }

  /** A grant and an accepted write, and nothing else, set a record's deadline anew. */
  lemma DeadlinesMove(ttl: Ttl, t: Timed, x: TimedStep, key: string)
    requires TimedEnabled(t, x)
    ensures var deadlines := Deadlines(ttl, t, x);
            && (forall o :: Writes(t.sys, x.step, key, o) ==> key in deadlines && deadlines[key] == x.at + ttl(o))
            && (x.step == Expire(key) ==> key !in deadlines)
            && (x.step != Expire(key) && (forall o :: !Writes(t.sys, x.step, key, o)) ==>
                  && (key in deadlines <==> key in t.expiresAt)
                  && (key in deadlines ==> deadlines[key] == t.expiresAt[key]))
  {
    match x.step {
      case Claim(o, _, r, now) =>
        assert r.key == key && key in Deadlines(ttl, t, x) && !Writes(t.sys, x.step, key, o) ==>
            key in t.expiresAt;
      case Mark(o, _) => assert Writes(t.sys, x.step, t.sys.workers[o].request.key, o) <==>
                                Owns(t.sys.records, t.sys.workers[o].request.key, o);
      case Complete(o) => assert Writes(t.sys, x.step, t.sys.workers[o].request.key, o) <==>
                                 Owns(t.sys.records, t.sys.workers[o].request.key, o);
      case _ =>
    }
  }

  // ---------- what every timed step keeps ----------

  /** The time to live of a mark is either still running or has passed. */
  ghost predicate MarkHolds(ttl: Ttl, t: Timed, e: Event) {
    e.Marked? ==>
      && e.at <= t.clock
      && if Alive(t.sys, e.key, e.life) then
           e.key in t.expiresAt && e.at + ttl(e.owner) <= t.expiresAt[e.key]
         else
           e.at + ttl(e.owner) <= t.clock
  }

  ghost predicate MarksApart(ttl: Ttl, e: Event, f: Event) {
    e.Marked? && f.Marked? && e.key == f.key && e.life < f.life ==> e.at + ttl(e.owner) <= f.at
  }

  ghost predicate TimedInv(ttl: Ttl, t: Timed) {
    && Inv(t.sys)
    && (forall e {:trigger MarkHolds(ttl, t, e)} :: e in t.sys.log ==> MarkHolds(ttl, t, e))
    && (forall e, f {:trigger MarksApart(ttl, e, f)} ::
          e in t.sys.log && f in t.sys.log ==> MarksApart(ttl, e, f))
  }

  /** The mark of the life that is stored now was written by its owner. */
  lemma MarkedOwner(s: System, e: Event)
    requires Inv(s) && e in s.log && e.Marked? && Alive(s, e.key, e.life)
    ensures e.owner in s.workers && s.workers[e.owner].committed
    ensures s.records[e.key].owner == e.owner && !s.records[e.key].lifecycle.InFlight?
  {
    assert EventOk(s, e);
    assert WorkerOk(s, e.owner);
  }

  lemma ClaimHolds(ttl: Ttl, t: Timed, x: TimedStep, e: Event)
    requires TimedInv(ttl, t) && TimedEnabled(t, x) && x.step.Claim? && e in t.sys.log && e.Marked?
    ensures MarkHolds(ttl, TimedApply(ttl, t, x), e)
  {
    assert MarkHolds(ttl, t, e) && EventOk(t.sys, e);
    assert WorkerOk(t.sys, e.owner);
    if Alive(t.sys, e.key, e.life) {
      MarkedOwner(t.sys, e);
    }
  }

  lemma WriteHolds(ttl: Ttl, t: Timed, x: TimedStep, e: Event)
    requires TimedInv(ttl, t) && TimedEnabled(t, x) && (x.step.Mark? || x.step.Complete?)
    requires e in t.sys.log && e.Marked?
    ensures MarkHolds(ttl, TimedApply(ttl, t, x), e)
  {
    SameLives(t.sys, x.step);
    assert MarkHolds(ttl, t, e);
    if Alive(t.sys, e.key, e.life) {
      MarkedOwner(t.sys, e);
    }
  }

  lemma ExpireHolds(ttl: Ttl, t: Timed, x: TimedStep, e: Event)
    requires TimedInv(ttl, t) && TimedEnabled(t, x) && x.step.Expire? && e in t.sys.log && e.Marked?
    ensures MarkHolds(ttl, TimedApply(ttl, t, x), e)
  {
    assert MarkHolds(ttl, t, e);
  }

  lemma LocalHolds(ttl: Ttl, t: Timed, t': Timed, e: Event)
    requires MarkHolds(ttl, t, e) && t.clock <= t'.clock && t'.expiresAt == t.expiresAt
    requires t'.sys.lives == t.sys.lives && t'.sys.records.Keys == t.sys.records.Keys
    ensures MarkHolds(ttl, t', e)
  {
  }

  /** The marks made so far hold on. */
  lemma OldMarksHold(ttl: Ttl, t: Timed, x: TimedStep, e: Event)
    requires TimedInv(ttl, t) && TimedEnabled(t, x) && e in t.sys.log && e.Marked?
    ensures MarkHolds(ttl, TimedApply(ttl, t, x), e)
  {
    if x.step.Claim? {
      ClaimHolds(ttl, t, x, e);
    } else if x.step.Expire? {
      ExpireHolds(ttl, t, x, e);
    } else if x.step.Mark? || x.step.Complete? {
      WriteHolds(ttl, t, x, e);
    } else {
      SameLives(t.sys, x.step);
      assert MarkHolds(ttl, t, e);
      LocalHolds(ttl, t, TimedApply(ttl, t, x), e);
    }
  }

  /** At most one event is new; a new mark belongs to the record stored now,
      whose time starts anew. */
  ghost predicate NewMarkOk(ttl: Ttl, t: Timed, t': Timed) {
    && t.sys.log <= t'.sys.log && |t'.sys.log| <= |t.sys.log| + 1
    && (t'.sys.log != t.sys.log ==>
          var e := t'.sys.log[|t.sys.log|];
          e.Marked? ==> e.at == t'.clock && e.life == Life(t.sys, e.key) && MarkHolds(ttl, t', e))
  }

  lemma MarkIsOk(ttl: Ttl, t: Timed, x: TimedStep)
    requires TimedEnabled(t, x) && x.step.Mark?
    requires var key := t.sys.workers[x.step.owner].request.key;
             key in t.sys.records ==> RecordOk(t.sys, key)
    ensures NewMarkOk(ttl, t, TimedApply(ttl, t, x))
  {
    assert TimedApply(ttl, t, x).sys == AfterMark(t.sys, x.step.owner, x.step.now);
  }

  lemma StepNewMark(ttl: Ttl, t: Timed, x: TimedStep)
    requires Inv(t.sys) && TimedEnabled(t, x)
    ensures NewMarkOk(ttl, t, TimedApply(ttl, t, x))
  {
    if x.step.Mark? {
      var key := t.sys.workers[x.step.owner].request.key;
      assert key in t.sys.records ==> RecordOk(t.sys, key);
      MarkIsOk(ttl, t, x);
    } else {
      StepLogs(t.sys, x.step);
    }
  }

  lemma NewMarkApart(ttl: Ttl, t: Timed, at: int, e: Event, f: Event)
    requires TimedInv(ttl, t) && e in t.sys.log && t.clock <= at
    requires f.Marked? && f.at == at && f.life == Life(t.sys, f.key)
    ensures MarksApart(ttl, e, f) && MarksApart(ttl, f, e)
  {
    if e.Marked? {
      assert EventOk(t.sys, e) && MarkHolds(ttl, t, e);
      assert WorkerOk(t.sys, e.owner);
    }
  }

  lemma MarksStayApart(ttl: Ttl, t: Timed, t': Timed)
    requires TimedInv(ttl, t) && t.clock <= t'.clock && NewMarkOk(ttl, t, t')
    ensures forall e, f {:trigger MarksApart(ttl, e, f)} ::
              e in t'.sys.log && f in t'.sys.log ==> MarksApart(ttl, e, f)
  {
    forall e, f | e in t'.sys.log && f in t'.sys.log
      ensures MarksApart(ttl, e, f)
    {
      if e in t.sys.log && f in t.sys.log {
        assert MarksApart(ttl, e, f);
      } else if e.Marked? && f.Marked? && f in t.sys.log {
        NewMarkApart(ttl, t, t'.clock, f, e);
      } else if e.Marked? && f.Marked? && e in t.sys.log {
        NewMarkApart(ttl, t, t'.clock, e, f);
      }
    }
  }

  lemma MarksHold(ttl: Ttl, t: Timed, t': Timed)
    requires NewMarkOk(ttl, t, t')
    requires forall e :: e in t.sys.log && e.Marked? ==> MarkHolds(ttl, t', e)
    ensures forall e {:trigger MarkHolds(ttl, t', e)} :: e in t'.sys.log ==> MarkHolds(ttl, t', e)
  {
  }

  lemma TimedStepKeeps(ttl: Ttl, t: Timed, x: TimedStep)
    requires TimedInv(ttl, t) && TimedEnabled(t, x)
    ensures TimedInv(ttl, TimedApply(ttl, t, x))
  {
    var t' := TimedApply(ttl, t, x);
    StepKeeps(t.sys, x.step);
    StepNewMark(ttl, t, x);
    forall e | e in t.sys.log && e.Marked?
      ensures MarkHolds(ttl, t', e)
    {
      OldMarksHold(ttl, t, x, e);
    }
    MarksHold(ttl, t, t');
    MarksStayApart(ttl, t, t');
  }

  lemma {:induction false} TimedRunKeeps(ttl: Ttl, t: Timed, xs: seq<TimedStep>)
    requires TimedInv(ttl, t) && IsTimedRun(ttl, t, xs)
    ensures TimedInv(ttl, TimedAfter(ttl, t, xs))
    decreases |xs|
  {
    if xs != [] {
      TimedStepKeeps(ttl, t, xs[0]);
      TimedRunKeeps(ttl, TimedApply(ttl, t, xs[0]), xs[1..]);
    }
  }

  // ---------- a second payment waits ----------

  /** Where a timed run begins. */
  function Beginning(clock: int): Timed {
    Timed(INITIAL, clock, map[])
  }

  /** Two different payments marked under one key: the one of the later life
      is marked no earlier than the time to live of the first after it. */
  lemma SecondMarkWaits(ttl: Ttl, clock: int, xs: seq<TimedStep>, e: Event, f: Event)
    requires IsTimedRun(ttl, Beginning(clock), xs)
    requires var log := TimedAfter(ttl, Beginning(clock), xs).sys.log; e in log && f in log
    requires e.Marked? && f.Marked? && e.key == f.key && e.paymentId != f.paymentId
    ensures if e.life < f.life then e.at + ttl(e.owner) <= f.at else f.at + ttl(f.owner) <= e.at
  {
    TimedRunKeeps(ttl, Beginning(clock), xs);
    var s := TimedAfter(ttl, Beginning(clock), xs).sys;
    assert EventOk(s, e) && EventOk(s, f);
    assert OneCommit(s, e.owner, f.owner);
    assert MarksApart(ttl, e, f) && MarksApart(ttl, f, e);
  }

  /** A timed run is a run: all that holds of runs holds of it. */
  function Untimed(xs: seq<TimedStep>): (steps: seq<Step>) {
    if xs == [] then [] else [xs[0].step] + Untimed(xs[1..])
  }

  lemma {:induction false} TimedRunIsRun(ttl: Ttl, t: Timed, xs: seq<TimedStep>)
    requires IsTimedRun(ttl, t, xs)
    ensures IsRun(t.sys, Untimed(xs)) && After(t.sys, Untimed(xs)) == TimedAfter(ttl, t, xs).sys
    decreases |xs|
  {
    if xs != [] {
      TimedRunIsRun(ttl, TimedApply(ttl, t, xs[0]), xs[1..]);
      assert Untimed(xs)[1..] == Untimed(xs[1..]);
    }
  }

  /** Two different payments handed over under one key were marked at least a time to live apart. */
  lemma SecondSubmissionWaits(ttl: Ttl, clock: int, xs: seq<TimedStep>, e: Event, f: Event)
    requires IsTimedRun(ttl, Beginning(clock), xs)
    requires var log := TimedAfter(ttl, Beginning(clock), xs).sys.log; e in log && f in log
    requires e.Submit? && f.Submit? && e.key == f.key && e.paymentId != f.paymentId
    ensures var log := TimedAfter(ttl, Beginning(clock), xs).sys.log;
            exists a, b :: && a in log && b in log && SamePayment(a, e) && SamePayment(b, f)
                           && (a.at + ttl(a.owner) <= b.at || b.at + ttl(b.owner) <= a.at)
  {
    var s := TimedAfter(ttl, Beginning(clock), xs).sys;
    TimedRunIsRun(ttl, Beginning(clock), xs);
    RunMarks(INITIAL, Untimed(xs));
    assert SubmitMarked(s, e) && SubmitMarked(s, f);
    var x :| Marked(e.key, e.life, e.owner, e.paymentId, x) in s.log;
    var y :| Marked(f.key, f.life, f.owner, f.paymentId, y) in s.log;
    var a, b := Marked(e.key, e.life, e.owner, e.paymentId, x), Marked(f.key, f.life, f.owner, f.paymentId, y);
    SecondMarkWaits(ttl, clock, xs, a, b);
    assert SamePayment(a, e) && SamePayment(b, f);
  }
}
