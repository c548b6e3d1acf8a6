/**
  Replay protection over whole runs. A request's headers are checked against
  the clock when it arrives; its nonce is looked up only when its body has been
  read, which the caller paces. Any number of requests, their bodies, the
  store's evictions and restarts of the process interleave, under one clock
  that never runs back. The key id is not signed, so a captured message may
  come back under any id.
 */
module AuthRuns {
  import opened Common
  import opened NonceStore
  import opened Auth

  /** A request whose headers are in order, waiting for its body. */
  datatype Pending = Pending(required: Scope, req: Request, screenedAt: int)

  datatype Event =
    | Arrives(required: Scope, req: Request, now: int)
    | BodyRead(pending: Pending, now: int, delay: nat)
    | Evicts(now: int)
    | Restarts(now: int)

  function When(e: Event): int {
    e.now
  }

  /** A request that was let through: when its nonce was looked up and stored,
      and how often the process had restarted by then. */
  datatype Pass = Pass(pending: Pending, at: int, storedAt: int, epoch: nat)
  {
    function Key(): string {
      ReplayKey(pending.req.keyId, pending.req.message.nonce)
    }
  }

  datatype State = State(entries: Entries, pending: multiset<Pending>, passes: seq<Pass>, epoch: nat, clock: int)

  const START: State := State(map[], multiset{}, [], 0, 0)

  function Handle(config: Config, s: State, e: Event): State {
    match e
    case Arrives(required, req, now) =>
      State(s.entries,
            if Screen(config, required, req, now).None?
            then s.pending + multiset{Pending(required, req, now)}
            else s.pending,
            s.passes, s.epoch, now)
    case BodyRead(p, now, delay) =>
      if p !in s.pending then s.(clock := now)
      else
        var (entries, verdict) := Spend(config, p.req, s.entries, now, delay);
        State(entries, s.pending - multiset{p},
              if verdict == Accepted then s.passes + [Pass(p, now, now + delay, s.epoch)] else s.passes,
              s.epoch, now)
    case Evicts(now) =>
      State(EvictStep(s.entries, config.Window(), now), s.pending, s.passes, s.epoch, now)
    case Restarts(now) =>
      State(map[], multiset{}, s.passes, s.epoch + 1, now)
  }

  function HandleAll(config: Config, s: State, events: seq<Event>): State
    decreases |events|
  {
    if events == [] then s else HandleAll(config, Handle(config, s, events[0]), events[1..])
  }

  /** The requests a run lets through, in order. */
  function Passes(config: Config, events: seq<Event>): seq<Pass> {
    HandleAll(config, START, events).passes
  }

  // ---------- what every event keeps ----------

  /** The request may do what it asks: its key is registered and holds the
      required scope, which it names, for this network; its timestamp was near
      the clock on arrival; its nonce is of a proper length. */
  ghost predicate Entitled(config: Config, p: Pending) {
    var m := p.req.message;
    && p.req.keyId in config.keys && p.required in config.keys[p.req.keyId].scopes
    && ParseScope(m.scope) == Some(p.required)
    && m.network == (if config.network == Mainnet then "mainnet" else "testnet")
    && ReadTimestamp(m.timestamp).Some? && WithinSkew(config, ReadTimestamp(m.timestamp).value, p.screenedAt)
    && 8 <= |m.nonce| <= 128
  }

  /** The request carries the code of its own message under its own key. */
  ghost predicate Signed(config: Config, req: Request) {
    req.signature == Mac(config.HmacKeyOf(req.keyId), SignedText(req.message))
  }

  ghost predicate PassOk(config: Config, s: State, p: Pass) {
    && Entitled(config, p.pending) && Signed(config, p.pending.req) && p.pending.req.bodyFits
    && p.pending.screenedAt <= p.at <= s.clock && p.at <= p.storedAt && p.epoch <= s.epoch
    && (p.epoch == s.epoch && Fresh(p.storedAt, config.Window(), s.clock) ==>
          p.Key() in s.entries && s.entries[p.Key()] >= p.storedAt)
  }

  ghost predicate PendingOk(config: Config, s: State, p: Pending) {
    Entitled(config, p) && p.screenedAt <= s.clock
  }

  /** Every entry was stored when a request with its key id and nonce passed. */
  ghost predicate EntryOk(s: State, key: string)
    requires key in s.entries
  {
    exists p :: p in s.passes && p.Key() == key && p.storedAt == s.entries[key] && p.epoch == s.epoch
  }

  /** One replay key is spent once per window, as long as the process lives. */
  ghost predicate Apart(p: Pass, q: Pass, window: nat) {
    p.Key() == q.Key() && p.epoch == q.epoch ==> q.at - p.at >= window
  }

  ghost predicate AllApart(ps: seq<Pass>, window: nat) {
    forall i, j :: 0 <= i < j < |ps| ==> Apart(ps[i], ps[j], window)
  }

  lemma OneMoreApart(ps: seq<Pass>, q: Pass, window: nat)
    requires AllApart(ps, window) && forall p :: p in ps ==> Apart(p, q, window)
    ensures AllApart(ps + [q], window)
  {
  }

  ghost predicate Inv(config: Config, s: State) {
    && (forall p {:trigger PassOk(config, s, p)} :: p in s.passes ==> PassOk(config, s, p))
    && (forall p {:trigger PendingOk(config, s, p)} :: p in s.pending ==> PendingOk(config, s, p))
    && (forall key {:trigger EntryOk(s, key)} :: key in s.entries ==> EntryOk(s, key))
    && AllApart(s.passes, config.Window())
  }

  /** Time passes, requests arrive or are turned away, and expired entries may go. */
  lemma WaitKeeps(config: Config, s: State, s': State)
    requires Inv(config, s) && s.clock <= s'.clock && s'.passes == s.passes && s'.epoch == s.epoch
    requires forall p :: p in s'.pending ==> p in s.pending || PendingOk(config, s', p)
    requires forall key :: key in s'.entries ==> key in s.entries && s'.entries[key] == s.entries[key]
    requires forall key :: key in s.entries && Fresh(s.entries[key], config.Window(), s'.clock) ==> key in s'.entries
    ensures Inv(config, s')
  {
    forall key | key in s'.entries
      ensures EntryOk(s', key)
    {
      assert EntryOk(s, key);
    }
    forall p | p in s'.passes
      ensures PassOk(config, s', p)
    {
      assert PassOk(config, s, p);
    }
    forall p | p in s'.pending
      ensures PendingOk(config, s', p)
    {
      assert p in s.pending ==> PendingOk(config, s, p);
    }
  }

  /** A request passes: its replay key was not stored, or had expired. */
  function Passed(s: State, q: Pass): State {
    State(s.entries[q.Key() := q.storedAt], s.pending - multiset{q.pending}, s.passes + [q], s.epoch, q.at)
  }

  predicate MayPass(config: Config, s: State, q: Pass) {
    && s.clock == q.at <= q.storedAt && s.epoch == q.epoch
    && q.pending in s.pending && CheckBody(config, q.pending.req).None?
    && (q.Key() in s.entries ==> !Fresh(s.entries[q.Key()], config.Window(), q.at))
  }

  lemma PassKeepsEntry(config: Config, s: State, q: Pass, key: string)
    requires Inv(config, s) && MayPass(config, s, q) && key in Passed(s, q).entries
    ensures EntryOk(Passed(s, q), key)
  {
    var s' := Passed(s, q);
    assert q in s'.passes;
    if key != q.Key() {
      assert EntryOk(s, key);
      var p :| p in s.passes && p.Key() == key && p.storedAt == s.entries[key] && p.epoch == s.epoch;
      assert p in s'.passes;
    }
  }

  lemma PassKeepsPass(config: Config, s: State, q: Pass, p: Pass)
    requires Inv(config, s) && MayPass(config, s, q) && (p in s.passes || p == q)
    ensures PassOk(config, Passed(s, q), p)
    ensures p in s.passes ==> Apart(p, q, config.Window())
  {
    if p in s.passes {
      assert PassOk(config, s, p);
    } else {
      assert PendingOk(config, s, q.pending);
    }
  }

  lemma PassKeeps(config: Config, s: State, q: Pass)
    requires Inv(config, s) && MayPass(config, s, q)
    ensures Inv(config, Passed(s, q))
  {
    var s' := Passed(s, q);
    forall key | key in s'.entries
      ensures EntryOk(s', key)
    {
      PassKeepsEntry(config, s, q, key);
    }
    forall p | p in s'.passes
      ensures PassOk(config, s', p) && (p in s.passes ==> Apart(p, q, config.Window()))
    {
      PassKeepsPass(config, s, q, p);
    }
    assert forall p :: p in s.passes ==> p in s'.passes;
    OneMoreApart(s.passes, q, config.Window());
    forall p | p in s'.pending
      ensures PendingOk(config, s', p)
    {
      assert PendingOk(config, s, p);
    }
  }

  lemma ArrivalEntitled(config: Config, required: Scope, req: Request, now: int)
    ensures Screen(config, required, req, now).None? <==> Entitled(config, Pending(required, req, now))
  {
  }

  lemma ArrivalKeeps(config: Config, s: State, required: Scope, req: Request, now: int)
    requires Inv(config, s) && s.clock <= now
    ensures Inv(config, Handle(config, s, Arrives(required, req, now)))
  {
    ArrivalEntitled(config, required, req, now);
    WaitKeeps(config, s, Handle(config, s, Arrives(required, req, now)));
  }

  lemma BodyReadKeeps(config: Config, s: State, p: Pending, now: int, delay: nat)
    requires Inv(config, s) && s.clock <= now
    ensures Inv(config, Handle(config, s, BodyRead(p, now, delay)))
  {
    if p in s.pending && Spend(config, p.req, s.entries, now, delay).1 == Accepted {
      var waited, q := s.(clock := now), Pass(p, now, now + delay, s.epoch);
      WaitKeeps(config, s, waited);
      PassKeeps(config, waited, q);
      assert Handle(config, s, BodyRead(p, now, delay)) == Passed(waited, q);
    } else {
      WaitKeeps(config, s, Handle(config, s, BodyRead(p, now, delay)));
    }
  }

  lemma EvictionKeeps(config: Config, s: State, now: int)
    requires Inv(config, s) && s.clock <= now
    ensures Inv(config, Handle(config, s, Evicts(now)))
  {
    WaitKeeps(config, s, Handle(config, s, Evicts(now)));
  }

  lemma RestartKeeps(config: Config, s: State, now: int)
    requires Inv(config, s) && s.clock <= now
    ensures Inv(config, Handle(config, s, Restarts(now)))
  {
    var s' := Handle(config, s, Restarts(now));
    forall p | p in s'.passes
      ensures PassOk(config, s', p)
    {
      assert PassOk(config, s, p);
    }
  }

  lemma HandleKeeps(config: Config, s: State, e: Event)
    requires Inv(config, s) && s.clock <= e.now
    ensures Inv(config, Handle(config, s, e))
  {
    match e {
      case Arrives(required, req, now) => ArrivalKeeps(config, s, required, req, now);
      case BodyRead(p, now, delay) => BodyReadKeeps(config, s, p, now, delay);
      case Evicts(now) => EvictionKeeps(config, s, now);
      case Restarts(now) => RestartKeeps(config, s, now);
    }
  }

  lemma {:induction false} HandleAllKeeps(config: Config, s: State, events: seq<Event>)
    requires Inv(config, s) && Monotone(When, events, s.clock)
    ensures Inv(config, HandleAll(config, s, events))
    decreases |events|
  {
    if events != [] {
      HandleKeeps(config, s, events[0]);
      HandleAllKeeps(config, Handle(config, s, events[0]), events[1..]);
    }
  }

  /** Whatever a run lets through was entitled to it, and signed with its own key. */
  lemma PassesEntitled(config: Config, events: seq<Event>, p: Pass)
    requires Monotone(When, events, START.clock) && p in Passes(config, events)
    ensures Entitled(config, p.pending) && Signed(config, p.pending.req) && p.pending.req.bodyFits
    ensures p.pending.screenedAt <= p.at
  {
    HandleAllKeeps(config, START, events);
    assert PassOk(config, HandleAll(config, START, events), p);
  }

  /** A captured signature serves its own message only: nothing it covers can
      be altered, and the request goes where that message was meant to go. */
  lemma NothingSignedChanges(config: Config, events: seq<Event>, p: Pass, key: seq<nat>, m: Message)
    requires Monotone(When, events, START.clock) && p in Passes(config, events)
    requires p.pending.req.signature == Mac(key, SignedText(m))
    ensures p.pending.req.message == m && ParseScope(m.scope) == Some(p.pending.required)
    ensures m.network == (if config.network == Mainnet then "mainnet" else "testnet")
    ensures key == config.HmacKeyOf(p.pending.req.keyId)
  {
    PassesEntitled(config, events, p);
    SignedTextExact(p.pending.req.message, m);
  }

  /** A nonce is called replayed only when that very key stored it within the window. */
  lemma ReplayMeansReuse(config: Config, events: seq<Event>, p: Pending, now: int, delay: nat)
    requires Monotone(When, events, START.clock) && WellFormed(config.keys)
    requires var s := HandleAll(config, START, events);
             p in s.pending && s.clock <= now && Spend(config, p.req, s.entries, now, delay).1 == ReplayedNonce
    ensures exists q :: && q in Passes(config, events) && q.pending.req.keyId == p.req.keyId
                        && q.pending.req.message.nonce == p.req.message.nonce
                        && now - q.storedAt < config.Window()
  {
    var s := HandleAll(config, START, events);
    HandleAllKeeps(config, START, events);
    var key := ReplayKey(p.req.keyId, p.req.message.nonce);
    assert EntryOk(s, key) && PendingOk(config, s, p);
    var q :| q in s.passes && q.Key() == key && q.storedAt == s.entries[key];
    assert PassOk(config, s, q);
    ReplayKeysDistinct(q.pending.req.keyId, q.pending.req.message.nonce, p.req.keyId, p.req.message.nonce);
  }

  /** A waiting request is let through exactly when its body fits, it is signed
      with its own key, and that key has not stored its nonce within the window
      in this life of the process; its refusals are just as exact. */
  lemma AcceptedExactly(config: Config, events: seq<Event>, p: Pending, now: int, delay: nat)
    requires Monotone(When, events, START.clock)
    requires var s := HandleAll(config, START, events); p in s.pending && s.clock <= now
    ensures var s := HandleAll(config, START, events);
            var verdict := Spend(config, p.req, s.entries, now, delay).1;
            var key := ReplayKey(p.req.keyId, p.req.message.nonce);
            var sound, used := p.req.bodyFits && Signed(config, p.req), UsedWithin(config, s, key, now);
            && (verdict == Accepted <==> sound && !used)
            && (verdict == ReplayedNonce <==> sound && used)
  {
    var s := HandleAll(config, START, events);
    var key := ReplayKey(p.req.keyId, p.req.message.nonce);
    HandleAllKeeps(config, START, events);
    BodyVerdicts(config, p.req);
    if key in s.entries {
      assert EntryOk(s, key);
    }
    forall q | q in s.passes && q.Key() == key && q.epoch == s.epoch && Fresh(q.storedAt, config.Window(), now)
      ensures key in s.entries && Fresh(s.entries[key], config.Window(), now)
    {
      assert PassOk(config, s, q);
    }
  }

  /** A request with this replay key has passed within the window, in this life of the process. */
  ghost predicate UsedWithin(config: Config, s: State, key: string, now: int) {
    exists q :: q in s.passes && q.Key() == key && q.epoch == s.epoch && now - q.storedAt < config.Window()
  }

  // ---------- forged requests ----------

  /** The event does not come from a request that fails its signature. */
  predicate Genuine(config: Config, e: Event) {
    match e
    case Arrives(_, req, _) => CheckBody(config, req).None?
    case BodyRead(p, _, _) => CheckBody(config, p.req).None?
    case Evicts(_) => true
    case Restarts(_) => true
  }

  function WithoutForgeries(config: Config, events: seq<Event>): seq<Event>
    decreases |events|
  {
    if events == [] then []
    else (if Genuine(config, events[0]) then [events[0]] else []) + WithoutForgeries(config, events[1..])
  }

  /** Two states that differ in forged requests only. */
  ghost predicate AlikeButForged(config: Config, s: State, t: State) {
    && s.entries == t.entries && s.passes == t.passes && s.epoch == t.epoch
    && forall p: Pending :: CheckBody(config, p.req).None? ==> s.pending[p] == t.pending[p]
  }

  lemma BodyReadAlike(config: Config, s: State, t: State, p: Pending, now: int, delay: nat)
    requires AlikeButForged(config, s, t) && CheckBody(config, p.req).None?
    ensures var e := BodyRead(p, now, delay); AlikeButForged(config, Handle(config, s, e), Handle(config, t, e))
  {
    assert p in s.pending <==> p in t.pending;
  }

  lemma GenuineAlike(config: Config, s: State, t: State, e: Event)
    requires AlikeButForged(config, s, t) && Genuine(config, e)
    ensures AlikeButForged(config, Handle(config, s, e), Handle(config, t, e))
  {
    if e.BodyRead? {
      BodyReadAlike(config, s, t, e.pending, e.now, e.delay);
    }
  }

  lemma ForgeryAlike(config: Config, s: State, t: State, e: Event)
    requires AlikeButForged(config, s, t) && !Genuine(config, e)
    ensures AlikeButForged(config, Handle(config, s, e), t)
  {
  }

  lemma {:induction false} ForgeriesLeaveNoTrace(config: Config, s: State, t: State, events: seq<Event>)
    requires AlikeButForged(config, s, t)
    ensures AlikeButForged(config, HandleAll(config, s, events), HandleAll(config, t, WithoutForgeries(config, events)))
    decreases |events|
  {
    if events != [] {
      var e, rest, kept := events[0], events[1..], WithoutForgeries(config, events);
      if Genuine(config, e) {
        GenuineAlike(config, s, t, e);
        assert kept[0] == e && kept[1..] == WithoutForgeries(config, rest);
        ForgeriesLeaveNoTrace(config, Handle(config, s, e), Handle(config, t, e), rest);
      } else {
        ForgeryAlike(config, s, t, e);
        assert kept == WithoutForgeries(config, rest);
        ForgeriesLeaveNoTrace(config, Handle(config, s, e), t, rest);
      }
    }
  }

  /** Who cannot sign cannot burn a nonce: a run lets through exactly what it
      would if no wrongly signed request had ever been sent. */
  lemma ForgeriesUnobservable(config: Config, events: seq<Event>)
    ensures Passes(config, events) == Passes(config, WithoutForgeries(config, events))
  {
    ForgeriesLeaveNoTrace(config, START, START, events);
  }
}
