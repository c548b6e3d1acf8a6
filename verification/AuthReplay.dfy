/**
  How often a captured message can be accepted: never twice in one life of the
  process, exactly under the stated conditions, and a run for each way in which
  they can fail.
 */
module AuthReplay {
  import opened Common
  import opened NonceStore
  import opened Auth
  import opened AuthRuns
  import Decimal

  // ---------- accepted at most once ----------

  /** Passes `i` and `j` of a run bring the same signed message, under whatever
      key ids, to one life of the process. */
  ghost predicate AcceptsTwice(config: Config, events: seq<Event>, i: nat, j: nat) {
    var ps := Passes(config, events);
    i < j < |ps| && ps[i].pending.req.signature == ps[j].pending.req.signature && ps[i].epoch == ps[j].epoch
  }

  /** Every request that passed had its body read within `bound` ticks. */
  ghost predicate Prompt(config: Config, events: seq<Event>, bound: nat) {
    forall p :: p in Passes(config, events) ==> p.at - p.pending.screenedAt <= bound
  }

  /** Two ids that hold a common scope verify with one HMAC key. */
  predicate Twins(config: Config, k: string, k': string, scope: Scope) {
    && k in config.keys && k' in config.keys && k != k'
    && scope in config.keys[k].scopes && scope in config.keys[k'].scopes
    && config.HmacKeyOf(k) == config.HmacKeyOf(k')
  }

  ghost predicate NoTwins(config: Config) {
    forall k, k', scope :: !Twins(config, k, k', scope)
  }

  /** The window outlasts twice the skew and the slowest body. */
  predicate LongEnough(config: Config, bound: nat) {
    config.Window() >= (2 * config.skewSecs + 1) * TICKS + bound
  }

  /** Two accepted uses of one timestamp, bodies read within `bound`. */
  lemma UsesBounded(config: Config, p: Pass, q: Pass, bound: nat)
    requires Entitled(config, p.pending) && Entitled(config, q.pending)
    requires p.pending.req.message.timestamp == q.pending.req.message.timestamp
    requires p.pending.screenedAt <= p.at && q.at - q.pending.screenedAt <= bound
    ensures q.at - p.at < (2 * config.skewSecs + 1) * TICKS + bound
  {
  }

  /** Without twins, one signed message belongs to one key id, and so to one replay key. */
  lemma OneReplayKey(config: Config, p: Pass, q: Pass)
    requires NoTwins(config) && Entitled(config, p.pending) && Entitled(config, q.pending)
    requires Signed(config, p.pending.req) && Signed(config, q.pending.req)
    requires p.pending.req.signature == q.pending.req.signature
    ensures p.pending.req.message == q.pending.req.message && p.Key() == q.Key()
  {
    SignedTextExact(p.pending.req.message, q.pending.req.message);
    assert !Twins(config, p.pending.req.keyId, q.pending.req.keyId, p.pending.required);
  }

  /** With a window that is long enough and no twins, each signed message is
      accepted at most once while the process lives. */
  lemma AcceptedAtMostOnce(config: Config, events: seq<Event>, bound: nat, i: nat, j: nat)
    requires Monotone(When, events, START.clock) && Prompt(config, events, bound)
    requires LongEnough(config, bound) && NoTwins(config)
    ensures !AcceptsTwice(config, events, i, j)
  {
    if AcceptsTwice(config, events, i, j) {
      var s := HandleAll(config, START, events);
      HandleAllKeeps(config, START, events);
      var p, q := s.passes[i], s.passes[j];
      assert PassOk(config, s, p) && PassOk(config, s, q);
      assert Apart(p, q, config.Window());
      OneReplayKey(config, p, q);
      UsesBounded(config, p, q, bound);
      assert false;
    }
  }

  // ---------- the runs that accept twice ----------

  /** A message for `scope`, stamped one skew after 0. */
  function Sample(config: Config, scope: Scope): Message {
    Message("POST", "/", "", Decimal.Natural(config.skewSecs), "nonce-01", ScopeName(scope),
            if config.network == Mainnet then "mainnet" else "testnet")
  }

  /** That message signed with `signer`'s key and sent under `keyId`. */
  function Sent(config: Config, scope: Scope, signer: string, keyId: string): Request {
    var m := Sample(config, scope);
    Request(keyId, m, true, Mac(config.HmacKeyOf(signer), SignedText(m)))
  }

  lemma SampleIsEntitled(config: Config, scope: Scope, signer: string, keyId: string, now: int)
    requires keyId in config.keys && scope in config.keys[keyId].scopes
    requires WithinSkew(config, config.skewSecs, now)
    ensures Entitled(config, Pending(scope, Sent(config, scope, signer, keyId), now))
  {
    var m := Sample(config, scope);
    ReadsNatural(config.skewSecs);
    assert m.timestamp == Decimal.Natural(config.skewSecs) && m.scope == ScopeName(scope) && |m.nonce| == 8;
  }

  lemma SentIsEntitled(config: Config, scope: Scope, signer: string, keyId: string, now: int)
    requires keyId in config.keys && scope in config.keys[keyId].scopes
    requires config.HmacKeyOf(signer) == config.HmacKeyOf(keyId) && WithinSkew(config, config.skewSecs, now)
    ensures var req := Sent(config, scope, signer, keyId);
            Screen(config, scope, req, now).None? && CheckBody(config, req).None?
  {
    SampleIsEntitled(config, scope, signer, keyId, now);
    ArrivalEntitled(config, scope, Sent(config, scope, signer, keyId), now);
  }

  /** One use: the request arrives, its body is read, and nothing fresh stands against it. */
  lemma Used(config: Config, s: State, required: Scope, req: Request, arrived: int, read: int)
    requires s.pending == multiset{} && Screen(config, required, req, arrived).None? && CheckBody(config, req).None?
    requires var key := ReplayKey(req.keyId, req.message.nonce);
             key in s.entries ==> !Fresh(s.entries[key], config.Window(), read)
    ensures var p := Pending(required, req, arrived);
            Handle(config, Handle(config, s, Arrives(required, req, arrived)), BodyRead(p, read, 0)) ==
            State(s.entries[ReplayKey(req.keyId, req.message.nonce) := read], multiset{},
                  s.passes + [Pass(p, read, read, s.epoch)], s.epoch, read)
  {
    var p := Pending(required, req, arrived);
    var waiting := Handle(config, s, Arrives(required, req, arrived));
    assert waiting == State(s.entries, multiset{p}, s.passes, s.epoch, arrived);
    assert multiset{p} - multiset{p} == multiset{};
  }

  lemma HandleTwo(config: Config, s: State, a: Event, b: Event, rest: seq<Event>)
    ensures HandleAll(config, s, [a, b] + rest) == HandleAll(config, Handle(config, Handle(config, s, a), b), rest)
  {
    assert ([a, b] + rest)[1..] == [b] + rest && ([b] + rest)[1..] == rest;
    assert HandleAll(config, Handle(config, s, a), [b] + rest)
        == HandleAll(config, Handle(config, Handle(config, s, a), b), rest);
  }

  /** The two events of one use. */
  function Use(required: Scope, req: Request, arrived: int, read: int): seq<Event> {
    [Arrives(required, req, arrived), BodyRead(Pending(required, req, arrived), read, 0)]
  }

  lemma InTime(a: Event, b: Event, rest: seq<Event>, since: int)
    requires since <= a.now <= b.now && Monotone(When, rest, b.now)
    ensures Monotone(When, [a, b] + rest, since)
  {
    assert ([a, b] + rest)[1..] == [b] + rest && ([b] + rest)[1..] == rest;
    assert Monotone(When, [b] + rest, a.now);
  }

  /** What the first use at 0 leaves. */
  function UsedOnce(config: Config, scope: Scope, k: string): State {
    var req := Sent(config, scope, k, k);
    State(map[ReplayKey(k, req.message.nonce) := 0], multiset{}, [Pass(Pending(scope, req, 0), 0, 0, 0)], 0, 0)
  }

  lemma FirstUse(config: Config, scope: Scope, k: string, rest: seq<Event>)
    requires k in config.keys && scope in config.keys[k].scopes && Monotone(When, rest, 0)
    ensures var events := Use(scope, Sent(config, scope, k, k), 0, 0) + rest;
            Monotone(When, events, 0) && HandleAll(config, START, events)
                                      == HandleAll(config, UsedOnce(config, scope, k), rest)
  {
    var req := Sent(config, scope, k, k);
    var a, b := Arrives(scope, req, 0), BodyRead(Pending(scope, req, 0), 0, 0);
    SentIsEntitled(config, scope, k, k, 0);
    Used(config, START, scope, req, 0, 0);
    assert Handle(config, Handle(config, START, a), b) == UsedOnce(config, scope, k);
    HandleTwo(config, START, a, b, rest);
    InTime(a, b, rest, 0);
  }

  /** A later use of the same signed message, under id `k'`, that nothing fresh stands against. */
  lemma SecondUse(config: Config, scope: Scope, k: string, k': string, s: State, arrived: int, read: int)
    requires k' in config.keys && scope in config.keys[k'].scopes && config.HmacKeyOf(k) == config.HmacKeyOf(k')
    requires 0 <= arrived <= read && WithinSkew(config, config.skewSecs, arrived) && s.pending == multiset{}
    requires var key := ReplayKey(k', "nonce-01");
             key in s.entries ==> !Fresh(s.entries[key], config.Window(), read)
    ensures var req := Sent(config, scope, k, k');
            && Monotone(When, Use(scope, req, arrived, read), 0)
            && HandleAll(config, s, Use(scope, req, arrived, read)).passes
               == s.passes + [Pass(Pending(scope, req, arrived), read, read, s.epoch)]
  {
    var req := Sent(config, scope, k, k');
    var a, b := Arrives(scope, req, arrived), BodyRead(Pending(scope, req, arrived), read, 0);
    SentIsEntitled(config, scope, k, k', arrived);
    Used(config, s, scope, req, arrived, read);
    HandleTwo(config, s, a, b, []);
    InTime(a, b, [], 0);
    assert Use(scope, req, arrived, read) == [a, b] + [];
  }

  /** One signed message used twice, the second time under `k'`, which is
      another id or comes after the window. */
  lemma UsedTwice(config: Config, scope: Scope, k: string, k': string, arrived: int, read: int)
    returns (events: seq<Event>)
    requires k in config.keys && scope in config.keys[k].scopes
    requires k' in config.keys && scope in config.keys[k'].scopes && config.HmacKeyOf(k) == config.HmacKeyOf(k')
    requires 0 <= arrived <= read && WithinSkew(config, config.skewSecs, arrived)
    requires k != k' || read >= config.Window()
    ensures Monotone(When, events, START.clock) && AcceptsTwice(config, events, 0, 1)
    ensures Prompt(config, events, read - arrived)
  {
    var req, req' := Sent(config, scope, k, k), Sent(config, scope, k, k');
    var rest := Use(scope, req', arrived, read);
    events := Use(scope, req, 0, 0) + rest;
    ReplayKeysOfIds(k, k', "nonce-01");
    SecondUse(config, scope, k, k', UsedOnce(config, scope, k), arrived, read);
    FirstUse(config, scope, k, rest);
    TwoPasses(config, events, Pass(Pending(scope, req, 0), 0, 0, 0),
              Pass(Pending(scope, req', arrived), read, read, 0));
  }

  lemma TwoPasses(config: Config, events: seq<Event>, p: Pass, q: Pass)
    requires Passes(config, events) == [p] + [q] && p.at == p.pending.screenedAt <= q.pending.screenedAt <= q.at
    ensures |Passes(config, events)| == 2 && Passes(config, events)[0] == p && Passes(config, events)[1] == q
    ensures Prompt(config, events, q.at - q.pending.screenedAt)
    ensures p.pending.req.signature == q.pending.req.signature && p.epoch == q.epoch ==>
              AcceptsTwice(config, events, 0, 1)
  {
  }

  /** However long the window: a caller who paces the body gets one request
      accepted twice, if nothing bounds how long a body may take. */
  lemma SlowBodyAcceptsTwice(config: Config, keyId: string) returns (events: seq<Event>)
    requires keyId in config.keys && config.keys[keyId].scopes != []
    ensures Monotone(When, events, START.clock) && AcceptsTwice(config, events, 0, 1)
  {
    events := UsedTwice(config, config.keys[keyId].scopes[0], keyId, keyId, 0, config.Window());
  }

  /** A shorter window lets some request through twice, whatever key is registered. */
  lemma ShortWindowAcceptsTwice(config: Config, keyId: string, bound: nat) returns (events: seq<Event>)
    requires keyId in config.keys && config.keys[keyId].scopes != [] && !LongEnough(config, bound)
    ensures Monotone(When, events, START.clock) && Prompt(config, events, bound)
    ensures AcceptsTwice(config, events, 0, 1)
  {
    var second := (2 * config.skewSecs + 1) * TICKS - 1;
    events := UsedTwice(config, config.keys[keyId].scopes[0], keyId, keyId, second, second + bound);
  }

  /** However long the window and prompt the bodies: a captured message passes
      again under a second id that shares scope and HMAC key. */
  lemma TwinsAcceptTwice(config: Config, k: string, k': string, scope: Scope) returns (events: seq<Event>)
    requires Twins(config, k, k', scope)
    ensures Monotone(When, events, START.clock) && Prompt(config, events, 0)
    ensures AcceptsTwice(config, events, 0, 1)
  {
    events := UsedTwice(config, scope, k, k', 0, 0);
  }

  lemma RestartForgets(config: Config, s: State, rest: seq<Event>)
    requires Monotone(When, rest, 0)
    ensures Monotone(When, [Restarts(0)] + rest, 0)
    ensures HandleAll(config, s, [Restarts(0)] + rest)
         == HandleAll(config, State(map[], multiset{}, s.passes, s.epoch + 1, 0), rest)
  {
    assert ([Restarts(0)] + rest)[1..] == rest;
  }

  /** However long the window and prompt the bodies: the store does not outlive
      its process, so a captured request passes again after a restart. */
  lemma RestartAcceptsAgain(config: Config, keyId: string) returns (events: seq<Event>)
    requires keyId in config.keys && config.keys[keyId].scopes != []
    ensures Monotone(When, events, START.clock) && Prompt(config, events, 0)
    ensures var ps := Passes(config, events);
            |ps| == 2 && ps[0].pending == ps[1].pending && ps[1].epoch == ps[0].epoch + 1
  {
    var scope := config.keys[keyId].scopes[0];
    var req, once := Sent(config, scope, keyId, keyId), UsedOnce(config, scope, keyId);
    var again := Use(scope, req, 0, 0);
    var rest := [Restarts(0)] + again;
    events := again + rest;
    SecondUse(config, scope, keyId, keyId, State(map[], multiset{}, once.passes, 1, 0), 0, 0);
    RestartForgets(config, once, again);
    FirstUse(config, scope, keyId, rest);
    TwoPasses(config, events, once.passes[0], Pass(Pending(scope, req, 0), 0, 0, 1));
  }

  /** So, over all runs whose bodies take at most `bound`, no signed message is
      accepted twice in one life of the process exactly when the window is long
      enough and no two ids with a common scope share an HMAC key. */
  lemma ReplayProtectedExactly(config: Config, keyId: string, bound: nat)
    requires keyId in config.keys && config.keys[keyId].scopes != []
    ensures (forall events, i, j :: Monotone(When, events, START.clock) && Prompt(config, events, bound) ==>
               !AcceptsTwice(config, events, i, j))
            <==> LongEnough(config, bound) && NoTwins(config)
  {
    if !LongEnough(config, bound) {
      var events := ShortWindowAcceptsTwice(config, keyId, bound);
    } else if !NoTwins(config) {
      var k, k', scope :| Twins(config, k, k', scope);
      var events := TwinsAcceptTwice(config, k, k', scope);
      assert Prompt(config, events, bound);
    } else {
      forall events, i, j | Monotone(When, events, START.clock) && Prompt(config, events, bound)
        ensures !AcceptsTwice(config, events, i, j)
      {
        AcceptedAtMostOnce(config, events, bound, i, j);
      }
    }
  }
}
