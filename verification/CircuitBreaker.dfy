/** The circuit breaker in front of a chain adapter. Times are clock ticks. */
module CircuitBreaker {
  import opened Arithmetic

  datatype State = Closed(failures: nat) | Open(openedAt: int) | HalfOpen

  datatype Settings = Settings(failureThreshold: nat, resetTimeout: nat)

  function AdmitStep(cfg: Settings, state: State, now: int): (State, bool) {
    match state
    case Open(openedAt) => if now - openedAt >= cfg.resetTimeout then (HalfOpen, true) else (state, false)
    case _ => (state, true)
  }

  function FailureStep(cfg: Settings, state: State, now: int): State {
    match state
    case Closed(failures) => if failures + 1 >= cfg.failureThreshold then Open(now) else Closed(failures + 1)
    case HalfOpen => Open(now)
    case Open(_) => state
  }

  class CircuitBreaker {
    const settings: Settings
    var state: State

    constructor (settings: Settings)
      ensures this.settings == settings && state == Closed(0)
    {
      this.settings := settings;
      state := Closed(0);
    }

    method CheckAndTransition(now: int) returns (admitted: bool)
      modifies this
      ensures (state, admitted) == AdmitStep(settings, old(state), now)
    {
      match state {
        case Open(openedAt) =>
          if now - openedAt >= settings.resetTimeout {
            state := HalfOpen;
            admitted := true;
          } else {
            admitted := false;
          }
        case _ =>
          admitted := true;
      }
    }

    method OnSuccess()
      modifies this
      ensures state == Closed(0)
    {
      state := Closed(0);
    }

    method OnFailure(now: int)
      modifies this
      ensures state == FailureStep(settings, old(state), now)
    {
      match state {
        case Closed(failures) =>
          var next := failures + 1;
          if next >= settings.failureThreshold {
            state := Open(now);
          } else {
            state := Closed(next);
          }
        case HalfOpen =>
          state := Open(now);
        case Open(_) =>
      }
    }

    /** The `submit` and `fee_estimate` wrappers: `ok` is what the inner call
        says, `done` the time at which it says so. */
    method Call(now: int, ok: bool, done: int) returns (admitted: bool)
      modifies this
      ensures (state, admitted) == CallStep(settings, old(state), now, ok, done)
    {
      admitted := CheckAndTransition(now);
      if admitted {
        if ok {
          OnSuccess();
        } else {
          OnFailure(done);
        }
      }
    }
  }

  function CallStep(cfg: Settings, state: State, now: int, ok: bool, done: int): (State, bool) {
    var (state', admitted) := AdmitStep(cfg, state, now);
    if !admitted then (state', false)
    else (if ok then Closed(0) else FailureStep(cfg, state', done), true)
  }

  // ---------- any interleaving ----------

  /** Admissions and reports of concurrent callers, in any order. */
  datatype Event = Admit(now: int) | Success | Failure(now: int)

  function Step(cfg: Settings, state: State, e: Event): State {
    match e
    case Admit(now) => AdmitStep(cfg, state, now).0
    case Success => Closed(0)
    case Failure(now) => FailureStep(cfg, state, now)
  }

  /** The state after all events, oldest first. */
  function Run(cfg: Settings, events: seq<Event>): State {
    if events == [] then Closed(0)
    else Step(cfg, Run(cfg, events[..|events| - 1]), events[|events| - 1])
  }

  lemma RunExtends(cfg: Settings, events: seq<Event>, e: Event)
    ensures Run(cfg, events + [e]) == Step(cfg, Run(cfg, events), e)
  {
    assert (events + [e])[..|events|] == events;
  }

  /** A wrapped call is an admission and, if it was admitted, the report of how it ended. */
  lemma CallIsEvents(cfg: Settings, events: seq<Event>, now: int, ok: bool, done: int)
    ensures var (state, admitted) := CallStep(cfg, Run(cfg, events), now, ok, done);
            var asked := events + [Admit(now)];
            && admitted == AdmitStep(cfg, Run(cfg, events), now).1
            && state == Run(cfg, if !admitted then asked else if ok then asked + [Success] else asked + [Failure(done)])
  {
    var asked := events + [Admit(now)];
    RunExtends(cfg, events, Admit(now));
    RunExtends(cfg, asked, Success);
    RunExtends(cfg, asked, Failure(done));
  }

  /** Failures reported since the last success. */
  function Failures(events: seq<Event>): nat {
    if events == [] then 0
    else match events[|events| - 1]
      case Success => 0
      case Failure(_) => Failures(events[..|events| - 1]) + 1
      case Admit(_) => Failures(events[..|events| - 1])
  }

  /** A threshold of zero acts as a threshold of one. */
  function Threshold(cfg: Settings): nat {
    if cfg.failureThreshold == 0 then 1 else cfg.failureThreshold
  }

  /** Whatever the interleaving, the breaker is closed exactly while fewer
      failures than the threshold were reported since the last success, and
      then it stores their number. */
  lemma {:induction false} ClosedExactly(cfg: Settings, events: seq<Event>)
    ensures Run(cfg, events).Closed? <==> Failures(events) < Threshold(cfg)
    ensures Run(cfg, events).Closed? ==> Run(cfg, events).failures == Failures(events)
  {
    if events != [] {
      ClosedExactly(cfg, events[..|events| - 1]);
    }
  }

  /** A caller is turned away only while at least a threshold of failures stands
      against the adapter, and never once the reset timeout has passed since the opening. */
  lemma RefusedOnlyWhileFailing(cfg: Settings, events: seq<Event>, now: int)
    requires !AdmitStep(cfg, Run(cfg, events), now).1
    ensures Failures(events) >= Threshold(cfg)
    ensures Run(cfg, events).Open? && now < Run(cfg, events).openedAt + cfg.resetTimeout
  {
    ClosedExactly(cfg, events);
  }

  /** The breaker opened at event `k` and has not been tried since: a failure
      met it closed or half-open, and after it came only stragglers' failures
      and callers inside the timeout. */
  ghost predicate OpenSince(cfg: Settings, events: seq<Event>, k: nat) {
    && k < |events| && events[k].Failure? && !Run(cfg, events[..k]).Open?
    && Failures(events[..k + 1]) >= Threshold(cfg)
    && forall m :: k < m < |events| ==>
         events[m].Failure? || (events[m].Admit? && events[m].now < events[k].now + cfg.resetTimeout)
  }

  lemma OpenSinceExtends(cfg: Settings, events: seq<Event>, k: nat)
    requires events != [] && k < |events| - 1
    ensures var init, last := events[..|events| - 1], events[|events| - 1];
            OpenSince(cfg, events, k) <==>
              OpenSince(cfg, init, k) &&
              (last.Failure? || (last.Admit? && last.now < events[k].now + cfg.resetTimeout))
  {
    var init := events[..|events| - 1];
    assert init[..k] == events[..k] && init[..k + 1] == events[..k + 1];
  }

  /** An open breaker carries the time of the failure that opened it, which
      no straggler moves. */
  lemma OpenExactly(cfg: Settings, events: seq<Event>, t: int)
    ensures Run(cfg, events) == Open(t) <==> exists k: nat :: OpenSince(cfg, events, k) && events[k].now == t
  {
    if Run(cfg, events) == Open(t) {
      Opened(cfg, events);
    }
    forall k: nat | OpenSince(cfg, events, k)
      ensures Run(cfg, events) == Open(events[k].now)
    {
      StaysOpen(cfg, events, k);
    }
  }

  lemma {:induction false} Opened(cfg: Settings, events: seq<Event>)
    requires Run(cfg, events).Open?
    ensures exists k: nat :: OpenSince(cfg, events, k) && events[k].now == Run(cfg, events).openedAt
    decreases |events|
  {
    var n := |events| - 1;
    var init := events[..n];
    if Run(cfg, init).Open? {
      Opened(cfg, init);
      var k: nat :| OpenSince(cfg, init, k) && init[k].now == Run(cfg, init).openedAt;
      OpenSinceExtends(cfg, events, k);
      assert OpenSince(cfg, events, k);
    } else {
      ClosedExactly(cfg, init);
      assert events[..n + 1] == events;
      assert OpenSince(cfg, events, n);
    }
  }

  lemma {:induction false} StaysOpen(cfg: Settings, events: seq<Event>, k: nat)
    requires OpenSince(cfg, events, k)
    ensures Run(cfg, events) == Open(events[k].now)
    decreases |events|
  {
    var n := |events| - 1;
    if k < n {
      OpenSinceExtends(cfg, events, k);
      StaysOpen(cfg, events[..n], k);
    } else {
      assert events[..k + 1] == events;
      ClosedExactly(cfg, events);
    }
  }

  /** A caller is turned away exactly while the breaker has been open for less
      than the timeout, counted from the failure that opened it. */
  lemma RefusedExactly(cfg: Settings, events: seq<Event>, now: int)
    ensures !AdmitStep(cfg, Run(cfg, events), now).1 <==>
            exists k: nat :: OpenSince(cfg, events, k) && now < events[k].now + cfg.resetTimeout
  {
    var state := Run(cfg, events);
    if state.Open? {
      OpenExactly(cfg, events, state.openedAt);
    }
    forall k: nat | OpenSince(cfg, events, k)
      ensures state == Open(events[k].now)
    {
      StaysOpen(cfg, events, k);
    }
  }

  // ---------- a sequential caller of a failing adapter ----------

  /** One call: asked at `now`, and the inner call (if made) failed at `done`. */
  datatype Attempt = Attempt(now: int, done: int)

  predicate Sequential(calls: seq<Attempt>) {
    && (forall i :: 0 <= i < |calls| ==> calls[i].now <= calls[i].done)
    && (forall i :: 0 < i < |calls| ==> calls[i - 1].done <= calls[i].now)
  }

  /** The breaker, the inner calls made, and when it first opened. */
  datatype Tally = Tally(state: State, inner: nat, firstOpened: int)

  function Count(cfg: Settings, calls: seq<Attempt>): Tally {
    if calls == [] then Tally(Closed(0), 0, 0)
    else
      var before, call := Count(cfg, calls[..|calls| - 1]), calls[|calls| - 1];
      var (state', admitted) := CallStep(cfg, before.state, call.now, false, call.done);
      Tally(state', if admitted then before.inner + 1 else before.inner,
            if before.state.Closed? && state'.Open? then state'.openedAt else before.firstOpened)
  }

  ghost predicate Bounded(cfg: Settings, t: Tally, now: int) {
    match t.state
    case Closed(failures) => t.inner == failures && failures < Threshold(cfg)
    case Open(openedAt) =>
      && t.firstOpened <= openedAt <= now
      && t.inner >= Threshold(cfg)
      && (t.inner - Threshold(cfg)) * cfg.resetTimeout <= openedAt - t.firstOpened
    case HalfOpen => false
  }

  lemma {:induction false} CountBounded(cfg: Settings, calls: seq<Attempt>)
    requires Sequential(calls)
    ensures Bounded(cfg, Count(cfg, calls), if calls == [] then 0 else calls[|calls| - 1].done)
  {
    if calls != [] {
      var init, call := calls[..|calls| - 1], calls[|calls| - 1];
      CountBounded(cfg, init);
      var before, after := Count(cfg, init), Count(cfg, calls);
      if before.state.Open? && after.inner == before.inner + 1 {
        ProbeCosts(before.inner - Threshold(cfg), cfg.resetTimeout, before.state.openedAt - before.firstOpened,
                   call.done - before.firstOpened);
      }
    }
  }

  lemma ProbeCosts(probes: nat, timeout: nat, then0: int, now: int)
    requires probes * timeout <= then0 && then0 + timeout <= now
    ensures (probes + 1) * timeout <= now
  {
    assert (probes + 1) * timeout == probes * timeout + timeout;
  }

  /** A sequential caller of an adapter that always fails reaches it at most
      threshold + floor(T / reset_timeout) times, T being the time since the
      breaker first opened. */
  lemma InnerCallsBounded(cfg: Settings, calls: seq<Attempt>, now: int)
    requires Sequential(calls) && cfg.resetTimeout > 0
    requires calls != [] ==> calls[|calls| - 1].done <= now
    ensures var t := Count(cfg, calls);
            if t.state.Closed? then t.inner < Threshold(cfg)
            else t.firstOpened <= now && t.inner <= Threshold(cfg) + (now - t.firstOpened) / cfg.resetTimeout
  {
    CountBounded(cfg, calls);
    var t := Count(cfg, calls);
    if t.state.Open? {
      FloorIff(now - t.firstOpened, cfg.resetTimeout, t.inner - Threshold(cfg));
    }
  }
}
