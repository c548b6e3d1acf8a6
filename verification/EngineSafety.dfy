/** What every run of the payment protocol keeps, and what follows from it. */
module EngineSafety {
  import opened Common
  import opened ClaimStore
  import opened PaymentStore
  import opened EngineProtocol

  // ---------- the inductive invariant ----------

  /** The record that key had in its `life`-th life is the one stored now. */
  ghost predicate Alive(s: System, key: string, life: nat) {
    key in s.records && life == Life(s, key)
  }

  ghost predicate ExpiredCommitted(s: System, key: string, life: nat) {
    exists e :: e in s.log && e.Expiry? && e.key == key && e.life == life && e.committed
  }

  /** A record belongs to a worker of its own life, and says what that worker did. */
  ghost predicate RecordOk(s: System, key: string)
    requires key in s.records
  {
    var rec := s.records[key];
    && rec.owner in s.workers
    && var w := s.workers[rec.owner];
    && w.request.key == key && w.life == Life(s, key) && w.request.fingerprint == rec.fingerprint
    && match rec.lifecycle
       case InFlight => !w.committed
       case Submitting(ref) => w.committed && w.paymentId == Some(ref)
       case Completed(response, _) =>
         w.committed && w.phase.Done? && w.final.Some? && response == ToValue(w.final.value)
  }

  ghost predicate InStore(s: System, w: Worker, p: Payment) {
    && w.paymentId.Some?
    && PaymentId(w) in StoreOf(s, w.instance) && StoreOf(s, w.instance)[PaymentId(w)] == p
  }

  ghost predicate Open(s: System, w: Worker) {
    && w.paymentId.Some? && w.final.None?
    && PaymentId(w) in StoreOf(s, w.instance)
    && !IsTerminal(StoreOf(s, w.instance)[PaymentId(w)].status)
  }

  ghost predicate PhaseOk(s: System, w: Worker) {
    match w.phase
    case Granted => w.paymentId.None? && !w.committed && w.final.None?
    case Routed => Open(s, w) && !w.committed
    case Started => Open(s, w) && !w.committed
    case Sending(_) => Open(s, w) && w.committed
    case Reported => w.committed && w.final.Some? && InStore(s, w, w.final.value)
    case Holding(p) => w.final == Some(p)
    case Reconciling(ref) =>
      && w.paymentId.None? && !w.committed && w.final.None?
      && ref in s.makers && s.makers[ref] in s.workers
      && SameLife(s.workers[s.makers[ref]], w) && s.workers[s.makers[ref]].committed
      && s.workers[s.makers[ref]].request.fingerprint == w.request.fingerprint
    case Done => true
  }

  ghost predicate SameLife(v: Worker, w: Worker) {
    v.request.key == w.request.key && v.life == w.life
  }

  ghost predicate WorkerOk(s: System, o: string)
    requires o in s.workers
  {
    var w := s.workers[o];
    && w.life <= Life(s, w.request.key)
    && PhaseOk(s, w)
    && (w.paymentId.Some? ==> w.paymentId.value in s.makers && s.makers[w.paymentId.value] == o)
    && (w.committed ==> w.paymentId.Some?)
    && (w.final.Some? ==> w.paymentId == Some(w.final.value.id) && IsTerminal(w.final.value.status))
    && (w.committed ==>
          if Alive(s, w.request.key, w.life)
          then s.records[w.request.key].owner == o && !s.records[w.request.key].lifecycle.InFlight?
          else ExpiredCommitted(s, w.request.key, w.life))
  }

  ghost predicate MakerOk(s: System, pid: string)
    requires pid in s.makers
  {
    s.makers[pid] in s.workers && s.workers[s.makers[pid]].paymentId == Some(pid)
  }

  /** A stored payment was made by a worker of that instance, and is terminal
      only as that worker's final payment. */
  ghost predicate StoreOk(s: System, instance: nat, pid: string)
    requires pid in StoreOf(s, instance)
  {
    var p := StoreOf(s, instance)[pid];
    && p.id == pid
    && pid in s.makers && s.makers[pid] in s.workers
    && s.workers[s.makers[pid]].instance == instance
    && (IsTerminal(p.status) ==> s.workers[s.makers[pid]].final == Some(p))
  }

  ghost predicate By(s: System, o: string, key: string, life: nat) {
    o in s.workers && s.workers[o].request.key == key && s.workers[o].life == life
  }

  ghost predicate Tells(w: Worker, a: Answer) {
    && w.committed && w.final.Some?
    && match a
       case Executed(p) => p == w.final.value
       case Replayed(v) => v == ToValue(w.final.value)
  }

  ghost predicate EventOk(s: System, e: Event) {
    match e
    case Grant(key, life, o, at) =>
      && By(s, o, key, life) && life <= Life(s, key)
      && (Alive(s, key, life) && s.records[key].lifecycle.InFlight? ==>
            at + CLAIM_LEASE <= s.records[key].leaseExpiresAtMs)
    case Marked(key, life, o, pid, _) =>
      By(s, o, key, life) && s.workers[o].committed && s.workers[o].paymentId == Some(pid)
    case Submit(key, life, o, pid) =>
      By(s, o, key, life) && s.workers[o].committed && s.workers[o].paymentId == Some(pid)
    case Reply(key, life, o, source, answer) =>
      && By(s, o, key, life) && s.workers[o].phase.Done?
      && By(s, source, key, life) && Tells(s.workers[source], answer)
      && s.workers[source].request.fingerprint == s.workers[o].request.fingerprint
      && (answer.Executed? ==> source == o)
    case Expiry(key, life, _) => life <= Life(s, key) && !Alive(s, key, life)
  }

  /** Two workers that both wrote to one life of a key are the same worker. */
  ghost predicate OneCommit(s: System, a: string, b: string)
    requires a in s.workers && b in s.workers
  {
    s.workers[a].committed && s.workers[b].committed && SameLife(s.workers[a], s.workers[b]) ==> a == b
  }

  /** Later events never repeat an answer's owner or crowd a grant. */
  ghost predicate Spaced(e: Event, f: Event) {
    && (e.Reply? && f.Reply? ==> e.owner != f.owner)
    && (e.Grant? && f.Grant? && e.key == f.key && e.life == f.life ==> f.at >= e.at + CLAIM_LEASE)
  }

  ghost predicate LogSpaced(log: seq<Event>) {
    forall i, j :: 0 <= i < j < |log| ==> Spaced(log[i], log[j])
  }

  ghost predicate Inv(s: System) {
    && (forall key {:trigger RecordOk(s, key)} :: key in s.records ==> RecordOk(s, key))
    && (forall o {:trigger WorkerOk(s, o)} :: o in s.workers ==> WorkerOk(s, o))
    && (forall pid {:trigger MakerOk(s, pid)} :: pid in s.makers ==> MakerOk(s, pid))
    && (forall i, pid {:trigger StoreOk(s, i, pid)} :: pid in StoreOf(s, i) ==> StoreOk(s, i, pid))
    && (forall e {:trigger EventOk(s, e)} :: e in s.log ==> EventOk(s, e))
    && (forall a, b {:trigger OneCommit(s, a, b)} :: a in s.workers && b in s.workers ==> OneCommit(s, a, b))
    && LogSpaced(s.log)
  }

  // ---------- what no step ever undoes ----------

  ghost predicate Continues(w: Worker, w': Worker) {
    && w'.request == w.request && w'.instance == w.instance && w'.life == w.life
    && (w.paymentId.Some? ==> w'.paymentId == w.paymentId)
    && (w.committed ==> w'.committed)
    && (w.final.Some? ==> w'.final == w.final)
    && (w.phase.Done? ==> w'.phase.Done?)
  }

  /** A record past InFlight keeps its owner until it expires. */
  ghost predicate RecordKept(s: System, s': System, key: string)
    requires key in s.records
  {
    if Alive(s', key, Life(s, key)) then
      && (s'.records[key].lifecycle.InFlight? ==>
            s.records[key].lifecycle.InFlight? && s.records[key].leaseExpiresAtMs <= s'.records[key].leaseExpiresAtMs)
      && (!s.records[key].lifecycle.InFlight? ==> s'.records[key].owner == s.records[key].owner)
    else
      !s.records[key].lifecycle.InFlight? ==> ExpiredCommitted(s', key, Life(s, key))
  }

  ghost predicate Grows(s: System, s': System) {
    && (forall o :: o in s.workers ==> o in s'.workers && Continues(s.workers[o], s'.workers[o]))
    && (forall pid :: pid in s.makers ==> pid in s'.makers && s'.makers[pid] == s.makers[pid])
    && (forall e :: e in s.log ==> e in s'.log)
    && (forall key :: Life(s, key) <= Life(s', key))
    && (forall key :: key in s'.records && key !in s.records ==> Life(s, key) < Life(s', key))
    && (forall key :: key in s.records ==> RecordKept(s, s', key))
  }

  lemma EventKept(s: System, s': System, e: Event)
    requires Grows(s, s') && EventOk(s, e)
    ensures EventOk(s', e)
  {
    if e.Reply? {
      assert Continues(s.workers[e.source], s'.workers[e.source]);
    }
  }

  /** A worker that takes no part in a step stays as it should be. */
  lemma WorkerKept(s: System, s': System, o: string)
    requires Inv(s) && Grows(s, s') && o in s.workers && s'.workers[o] == s.workers[o]
    requires var w := s.workers[o];
             forall p :: InStore(s, w, p) ==> InStore(s', w, p)
    ensures WorkerOk(s', o)
  {
    var w := s.workers[o];
    assert WorkerOk(s, o);
    if w.phase.Reconciling? {
      var m := s.makers[w.phase.executionRef];
      assert Continues(s.workers[m], s'.workers[m]);
    }
    if w.paymentId.Some? && PaymentId(w) in StoreOf(s, w.instance) {
      assert InStore(s, w, StoreOf(s, w.instance)[PaymentId(w)]);
      assert InStore(s', w, StoreOf(s, w.instance)[PaymentId(w)]);
    }
  }

  lemma LogGrows(s: System, s': System, es: seq<Event>)
    requires LogSpaced(s.log) && s'.log == s.log + es && |es| <= 1
    requires forall e :: e in s.log ==> EventOk(s', e)
    requires es != [] ==> EventOk(s', es[0]) && forall f :: f in s.log ==> Spaced(f, es[0])
    ensures LogSpaced(s'.log)
    ensures forall e {:trigger EventOk(s', e)} :: e in s'.log ==> EventOk(s', e)
  {
  }

  /** Everything but the worker that moves: what a step must show for itself. */
  lemma Reassemble(s: System, s': System, o: string)
    requires Inv(s) && Grows(s, s')
    requires forall a :: a in s'.workers && a != o ==> a in s.workers && s'.workers[a] == s.workers[a]
    requires forall i, pid :: pid in StoreOf(s, i) && pid in s.makers && s.makers[pid] != o ==>
               pid in StoreOf(s', i) && StoreOf(s', i)[pid] == StoreOf(s, i)[pid]
    ensures forall a :: a in s'.workers && a != o ==> WorkerOk(s', a)
    ensures forall e :: e in s.log ==> EventOk(s', e)
    ensures forall pid :: pid in s.makers ==> MakerOk(s', pid)
  {
    forall a | a in s'.workers && a != o
      ensures WorkerOk(s', a)
    {
      var w := s.workers[a];
      assert WorkerOk(s, a);
      forall p | InStore(s, w, p)
        ensures InStore(s', w, p)
      {
        assert StoreOk(s, w.instance, PaymentId(w));
        assert MakerOk(s, PaymentId(w));
      }
      WorkerKept(s, s', a);
    }
    forall e | e in s.log
      ensures EventOk(s', e)
    {
      EventKept(s, s', e);
    }
    forall pid | pid in s.makers
      ensures MakerOk(s', pid)
    {
      assert MakerOk(s, pid);
    }
  }

  // ---------- every step keeps the invariant ----------

  /** A step that changes one worker's phase, and at most logs one event. */
  ghost predicate Quiet(s: System, s': System, o: string, es: seq<Event>) {
    && o in s'.workers && |es| <= 1
    && s' == System(s.records, s.stores, s.workers[o := s'.workers[o]], s.lives, s.makers, s.log + es)
    && if o in s.workers then
         OnlyMoved(s.workers[o], s'.workers[o])
       else
         !s'.workers[o].committed
  }

  ghost predicate OnlyMoved(w: Worker, w': Worker) {
    w' == w.(phase := w'.phase) && (w.phase.Done? ==> w'.phase.Done?)
  }

  /** Between `s` and `s'` phases may have moved, uncommitted workers appeared,
      and records and stored payments gone; nothing else about them changed. */
  ghost predicate SameHistory(s: System, s': System) {
    && s'.makers == s.makers && (forall key :: Life(s', key) == Life(s, key))
    && (forall o :: o in s.workers ==> o in s'.workers && OnlyMoved(s.workers[o], s'.workers[o]))
    && (forall o :: o in s'.workers && o !in s.workers ==> !s'.workers[o].committed)
    && (forall key :: key in s'.records ==> key in s.records && s'.records[key] == s.records[key])
    && (forall i, pid :: pid in StoreOf(s', i) ==> pid in StoreOf(s, i) && StoreOf(s', i)[pid] == StoreOf(s, i)[pid])
  }

  lemma HistoryKeeps(s: System, s': System)
    requires Inv(s) && SameHistory(s, s')
    ensures forall key {:trigger RecordOk(s', key)} :: key in s'.records ==> RecordOk(s', key)
    ensures forall pid {:trigger MakerOk(s', pid)} :: pid in s'.makers ==> MakerOk(s', pid)
    ensures forall i, pid {:trigger StoreOk(s', i, pid)} :: pid in StoreOf(s', i) ==> StoreOk(s', i, pid)
    ensures forall a, b {:trigger OneCommit(s', a, b)} :: a in s'.workers && b in s'.workers ==> OneCommit(s', a, b)
  {
    forall key | key in s'.records
      ensures RecordOk(s', key)
    {
      assert RecordOk(s, key);
    }
    forall pid | pid in s'.makers
      ensures MakerOk(s', pid)
    {
      assert MakerOk(s, pid);
    }
    forall i, pid | pid in StoreOf(s', i)
      ensures StoreOk(s', i, pid)
    {
      assert StoreOk(s, i, pid);
    }
    forall a, b | a in s'.workers && b in s'.workers
      ensures OneCommit(s', a, b)
    {
      if a in s.workers && b in s.workers {
        assert OneCommit(s, a, b);
      }
    }
  }

  lemma QuietGrows(s: System, s': System, o: string, es: seq<Event>)
    requires Quiet(s, s', o, es)
    ensures Grows(s, s')
  {
  }

  lemma QuietHistory(s: System, s': System, o: string, es: seq<Event>)
    requires Quiet(s, s', o, es)
    ensures SameHistory(s, s')
  {
  }

  lemma QuietKeeps(s: System, s': System, o: string, es: seq<Event>)
    requires Inv(s) && Quiet(s, s', o, es)
    requires WorkerOk(s', o)
    requires es != [] ==> EventOk(s', es[0]) && forall f :: f in s.log ==> Spaced(f, es[0])
    ensures Inv(s') && Grows(s, s')
  {
    QuietGrows(s, s', o, es);
    QuietHistory(s, s', o, es);
    HistoryKeeps(s, s');
    Reassemble(s, s', o);
    LogGrows(s, s', es);
  }

  /** A step in which a worker writes its own, still open, payment. */
  ghost predicate Pays(s: System, s': System, o: string, p: Payment) {
    && o in s.workers && o in s'.workers
    && var w, w' := s.workers[o], s'.workers[o];
    && s' == System(s.records, Paid(s, w.instance, p), s.workers[o := w'], s.lives, s.makers[p.id := o], s.log)
    && (p.id in s.makers ==> s.makers[p.id] == o)
    && (w.paymentId.Some? ==> w.paymentId == Some(p.id))
    && w.final.None? && !w.phase.Done?
    && w' == w.(phase := w'.phase, paymentId := Some(p.id), final := if IsTerminal(p.status) then Some(p) else None)
  }

  lemma PaysStores(s: System, s': System, o: string, p: Payment, i: nat, pid: string)
    requires Inv(s) && Pays(s, s', o, p) && pid in StoreOf(s', i)
    ensures StoreOk(s', i, pid)
  {
    if pid in StoreOf(s, i) {
      assert StoreOk(s, i, pid);
      assert MakerOk(s, pid);
    }
  }

  lemma PaysGrows(s: System, s': System, o: string, p: Payment)
    requires Pays(s, s', o, p)
    ensures Grows(s, s')
  {
  }

  lemma PaysRest(s: System, s': System, o: string, p: Payment)
    requires Inv(s) && Pays(s, s', o, p)
    ensures forall key :: key in s'.records ==> RecordOk(s', key)
    ensures forall a, b :: a in s'.workers && b in s'.workers ==> OneCommit(s', a, b)
    ensures forall pid :: pid in s'.makers ==> pid in s.makers || MakerOk(s', pid)
  {
    forall key | key in s'.records
      ensures RecordOk(s', key)
    {
      assert RecordOk(s, key);
    }
    forall a, b | a in s'.workers && b in s'.workers
      ensures OneCommit(s', a, b)
    {
      assert OneCommit(s, a, b);
    }
  }

  lemma PaysOthers(s: System, s': System, o: string, p: Payment)
    requires Pays(s, s', o, p)
    ensures forall a :: a in s'.workers && a != o ==> a in s.workers && s'.workers[a] == s.workers[a]
    ensures forall i, pid :: pid in StoreOf(s, i) && pid in s.makers && s.makers[pid] != o ==>
              pid in StoreOf(s', i) && StoreOf(s', i)[pid] == StoreOf(s, i)[pid]
  {
  }

  lemma PaysKeeps(s: System, s': System, o: string, p: Payment)
    requires Inv(s) && Pays(s, s', o, p)
    requires WorkerOk(s', o)
    ensures Inv(s') && Grows(s, s')
  {
    PaysGrows(s, s', o, p);
    PaysRest(s, s', o, p);
    PaysOthers(s, s', o, p);
    Reassemble(s, s', o);
    LogGrows(s, s', []);
    forall i, pid | pid in StoreOf(s', i)
      ensures StoreOk(s', i, pid)
    {
      PaysStores(s, s', o, p, i, pid);
    }
  }

  /** A step in which the owner of a record writes to it. */
  ghost predicate Commits(s: System, s': System, o: string, es: seq<Event>) {
    && o in s.workers && o in s'.workers && |es| <= 1
    && var w := s.workers[o];
    && var key := w.request.key;
    && key in s.records && key in s'.records && s.records[key].owner == o
    && s'.records[key] == s.records[key].(lifecycle := s'.records[key].lifecycle,
                                          leaseExpiresAtMs := s'.records[key].leaseExpiresAtMs)
    && !s'.records[key].lifecycle.InFlight?
    && s' == System(s.records[key := s'.records[key]], s.stores, s.workers[o := s'.workers[o]],
                    s.lives, s.makers, s.log + es)
    && s'.workers[o] == w.(phase := s'.workers[o].phase, committed := true)
    && !w.phase.Done?
  }

  lemma CommitsGrows(s: System, s': System, o: string, es: seq<Event>)
    requires Inv(s) && Commits(s, s', o, es)
    ensures Grows(s, s')
  {
  }

  /** The owner of the current record is the only worker that wrote in its life. */
  lemma CommitsAlone(s: System, s': System, o: string, es: seq<Event>, a: string, b: string)
    requires Inv(s) && Commits(s, s', o, es)
    requires a in s'.workers && b in s'.workers
    ensures OneCommit(s', a, b)
  {
    assert RecordOk(s, s.workers[o].request.key);
    assert WorkerOk(s, a) && WorkerOk(s, b) && OneCommit(s, a, b);
  }

  lemma CommitsRest(s: System, s': System, o: string, es: seq<Event>)
    requires Inv(s) && Commits(s, s', o, es)
    ensures forall key :: key in s'.records && key != s.workers[o].request.key ==> RecordOk(s', key)
    ensures forall i, pid :: pid in StoreOf(s', i) ==> StoreOk(s', i, pid)
  {
    forall key | key in s'.records && key != s.workers[o].request.key
      ensures RecordOk(s', key)
    {
      assert RecordOk(s, key);
    }
    forall i, pid | pid in StoreOf(s', i)
      ensures StoreOk(s', i, pid)
    {
      assert StoreOk(s, i, pid);
    }
  }

  lemma CommitsKeeps(s: System, s': System, o: string, es: seq<Event>)
    requires Inv(s) && Commits(s, s', o, es)
    requires WorkerOk(s', o) && RecordOk(s', s.workers[o].request.key)
    requires es != [] ==> EventOk(s', es[0]) && forall f :: f in s.log ==> Spaced(f, es[0])
    ensures Inv(s') && Grows(s, s')
  {
    CommitsGrows(s, s', o, es);
    CommitsRest(s, s', o, es);
    Reassemble(s, s', o);
    forall a, b | a in s'.workers && b in s'.workers
      ensures OneCommit(s', a, b)
    {
      CommitsAlone(s, s', o, es, a, b);
    }
    LogGrows(s, s', es);
  }

  /** A claim that is granted: a new record, or an expired InFlight one taken over. */
  ghost predicate Grants(s: System, s': System, o: string, w: Worker, now: int) {
    var key, rec := w.request.key, ClaimRecord(w.request.fingerprint, o, now + CLAIM_LEASE, now, InFlight);
    && o !in s.workers
    && w == Worker(w.instance, w.request, Granted, Life(s', key), None, false, None)
    && s'.stores == s.stores && s'.makers == s.makers && s'.workers == s.workers[o := w]
    && s'.log == s.log + [Grant(key, Life(s', key), o, now)]
    && if key in s.records then
         && s.records[key].lifecycle.InFlight? && s.records[key].LeaseExpired(now)
         && s.records[key].fingerprint == rec.fingerprint
         && s'.records == s.records[key := rec.(createdAtMs := s.records[key].createdAtMs)]
         && s'.lives == s.lives
       else
         s'.records == s.records[key := rec] && s'.lives == s.lives[key := Life(s, key) + 1]
  }

  lemma GrantGrows(s: System, s': System, o: string, w: Worker, now: int)
    requires Grants(s, s', o, w, now)
    ensures Grows(s, s')
  {
    forall key | key in s.records
      ensures RecordKept(s, s', key)
    {
      assert key != w.request.key ==> s'.records[key] == s.records[key];
    }
  }

  lemma GrantEvents(s: System, s': System, o: string, w: Worker, now: int)
    requires Inv(s) && Grants(s, s', o, w, now)
    ensures EventOk(s', s'.log[|s.log|])
    ensures forall f :: f in s.log ==> Spaced(f, s'.log[|s.log|])
  {
    forall f | f in s.log
      ensures Spaced(f, s'.log[|s.log|])
    {
      assert EventOk(s, f);
    }
  }

  lemma GrantRecords(s: System, s': System, o: string, w: Worker, now: int, key: string)
    requires Inv(s) && Grants(s, s', o, w, now) && key in s'.records
    ensures RecordOk(s', key)
  {
    if key != w.request.key {
      assert RecordOk(s, key);
    }
  }

  lemma GrantRest(s: System, s': System, o: string, w: Worker, now: int)
    requires Inv(s) && Grants(s, s', o, w, now)
    ensures forall i, pid :: pid in StoreOf(s', i) ==> StoreOk(s', i, pid)
    ensures forall a, b :: a in s'.workers && b in s'.workers ==> OneCommit(s', a, b)
    ensures WorkerOk(s', o)
  {
    forall i, pid | pid in StoreOf(s', i)
      ensures StoreOk(s', i, pid)
    {
      assert StoreOk(s, i, pid);
    }
    forall a, b | a in s'.workers && b in s'.workers
      ensures OneCommit(s', a, b)
    {
      if a in s.workers && b in s.workers {
        assert OneCommit(s, a, b);
      }
    }
  }

  lemma GrantOthers(s: System, s': System, o: string, w: Worker, now: int)
    requires Grants(s, s', o, w, now)
    ensures forall a :: a in s'.workers && a != o ==> a in s.workers && s'.workers[a] == s.workers[a]
    ensures s'.makers == s.makers && forall i :: StoreOf(s', i) == StoreOf(s, i)
    ensures s'.log == s.log + [s'.log[|s.log|]]
  {
  }

  lemma GrantKeeps(s: System, s': System, o: string, w: Worker, now: int)
    requires Inv(s) && Grants(s, s', o, w, now)
    ensures Inv(s') && Grows(s, s')
  {
    GrantGrows(s, s', o, w, now);
    GrantEvents(s, s', o, w, now);
    GrantRest(s, s', o, w, now);
    GrantOthers(s, s', o, w, now);
    Reassemble(s, s', o);
    LogGrows(s, s', [s'.log[|s.log|]]);
    forall key | key in s'.records
      ensures RecordOk(s', key)
    {
      GrantRecords(s, s', o, w, now, key);
    }
  }

  lemma ClaimGrants(s: System, s': System, o: string, instance: nat, request: Request, now: int)
    requires o !in s.workers && s' == AfterClaim(s, o, instance, request, now)
    requires s'.workers[o].phase.Granted?
    ensures Grants(s, s', o, s'.workers[o], now)
  {
    var r := ClaimStep(s.records, request.key, request.fingerprint, o, CLAIM_LEASE, now).1;
    if request.key in s.records {
      assert r.Ok? && r.value.TookOver?;
    } else {
      assert r.Ok? && r.value.Claimed?;
    }
  }

  lemma ClaimQuiet(s: System, s': System, o: string, instance: nat, request: Request, now: int, es: seq<Event>)
    requires o !in s.workers && s' == AfterClaim(s, o, instance, request, now)
    requires request.key in s.records ==> RecordOk(s, request.key) && WorkerOk(s, s.records[request.key].owner)
    requires !s'.workers[o].phase.Granted? && es == s'.log[|s.log|..]
    ensures Quiet(s, s', o, es) && WorkerOk(s', o)
    ensures es != [] ==> EventOk(s', es[0])
  {
    var r := ClaimStep(s.records, request.key, request.fingerprint, o, CLAIM_LEASE, now).1;
    if r.Ok? && r.value.Replay? {
      assert es == [Reply(request.key, Life(s, request.key), o, s.records[request.key].owner,
                          Replayed(r.value.response))];
    } else {
      assert es == [];
    }
  }

  lemma ClaimKeeps(s: System, o: string, instance: nat, request: Request, now: int)
    requires Inv(s) && o !in s.workers
    ensures Inv(AfterClaim(s, o, instance, request, now)) && Grows(s, AfterClaim(s, o, instance, request, now))
  {
    var s' := AfterClaim(s, o, instance, request, now);
    if s'.workers[o].phase.Granted? {
      ClaimGrants(s, s', o, instance, request, now);
      GrantKeeps(s, s', o, s'.workers[o], now);
    } else {
      var es := s'.log[|s.log|..];
      assert RecordOk(s, request.key) && WorkerOk(s, s.records[request.key].owner);
      ClaimQuiet(s, s', o, instance, request, now, es);
      QuietAnswer(s, s', o, es);
    }
  }

  /** No answer has been given yet to a worker that is new or not done. */
  lemma FirstAnswer(s: System, o: string, e: Event)
    requires Inv(s) && (o in s.workers ==> !s.workers[o].phase.Done?)
    requires e.Reply? && e.owner == o
    ensures forall f :: f in s.log ==> Spaced(f, e)
  {
    forall f | f in s.log
      ensures Spaced(f, e)
    {
      assert EventOk(s, f);
    }
  }

  lemma QuietAnswer(s: System, s': System, o: string, es: seq<Event>)
    requires Inv(s) && Quiet(s, s', o, es) && WorkerOk(s', o)
    requires o in s.workers ==> !s.workers[o].phase.Done?
    requires es != [] ==> EventOk(s', es[0]) && es[0].Reply? && es[0].owner == o
    ensures Inv(s') && Grows(s, s')
  {
    if es != [] {
      FirstAnswer(s, o, es[0]);
    }
    QuietKeeps(s, s', o, es);
  }

  lemma ReconcileQuiet(s: System, s': System, o: string, es: seq<Event>)
    requires o in s.workers && s.workers[o].phase.Reconciling? && WorkerOk(s, o)
    requires s' == AfterReconcile(s, o) && es == s'.log[|s.log|..]
    requires var ref := s.workers[o].phase.executionRef;
             ref in StoreOf(s, s.workers[o].instance) ==> StoreOk(s, s.workers[o].instance, ref)
    ensures Quiet(s, s', o, es) && WorkerOk(s', o)
    ensures es != [] ==> EventOk(s', es[0]) && es[0].Reply? && es[0].owner == o
  {
  }

  lemma ReconcileKeeps(s: System, o: string)
    requires Inv(s) && o in s.workers && s.workers[o].phase.Reconciling?
    ensures Inv(AfterReconcile(s, o)) && Grows(s, AfterReconcile(s, o))
  {
    var s' := AfterReconcile(s, o);
    var w := s.workers[o];
    assert WorkerOk(s, o);
    if w.phase.executionRef in StoreOf(s, w.instance) {
      assert StoreOk(s, w.instance, w.phase.executionRef);
    }
    ReconcileQuiet(s, s', o, s'.log[|s.log|..]);
    QuietAnswer(s, s', o, s'.log[|s.log|..]);
  }

  lemma RejectKeeps(s: System, o: string)
    requires Inv(s) && o in s.workers
    ensures Inv(Moved(s, o, s.workers[o].(phase := Done))) && Grows(s, Moved(s, o, s.workers[o].(phase := Done)))
  {
    assert WorkerOk(s, o);
    QuietKeeps(s, Moved(s, o, s.workers[o].(phase := Done)), o, []);
  }

  lemma SendKeeps(s: System, o: string)
    requires Inv(s) && o in s.workers && s.workers[o].phase.Sending?
    ensures Inv(AfterSend(s, o)) && Grows(s, AfterSend(s, o))
  {
    var w := s.workers[o];
    assert WorkerOk(s, o);
    QuietKeeps(s, AfterSend(s, o), o, [Submit(w.request.key, w.life, o, PaymentId(w))]);
  }

  lemma FetchKeeps(s: System, o: string)
    requires Inv(s) && o in s.workers && s.workers[o].phase.Reported?
    ensures Inv(AfterFetch(s, o)) && Grows(s, AfterFetch(s, o))
  {
    assert WorkerOk(s, o);
    QuietKeeps(s, AfterFetch(s, o), o, []);
  }

  lemma RouteFailsKeeps(s: System, o: string, pid: string, reason: string, time: string)
    requires Inv(s) && o in s.workers && s.workers[o].phase.Granted? && pid !in s.makers
    ensures Inv(AfterRouteFails(s, o, pid, reason, time)) && Grows(s, AfterRouteFails(s, o, pid, reason, time))
  {
    assert WorkerOk(s, o);
    PaysKeeps(s, AfterRouteFails(s, o, pid, reason, time), o,
              NewPayment(s.workers[o].request, pid, Failed, 0, Some(reason), time));
  }

  lemma RouteFoundKeeps(s: System, o: string, pid: string, fee: u64, time: string)
    requires Inv(s) && o in s.workers && s.workers[o].phase.Granted? && pid !in s.makers
    ensures Inv(AfterRouteFound(s, o, pid, fee, time)) && Grows(s, AfterRouteFound(s, o, pid, fee, time))
  {
    assert WorkerOk(s, o);
    PaysKeeps(s, AfterRouteFound(s, o, pid, fee, time), o,
              NewPayment(s.workers[o].request, pid, Pending, fee, None, time));
  }

  lemma StartKeeps(s: System, o: string, time: string)
    requires Inv(s) && o in s.workers && s.workers[o].phase.Routed?
    ensures Inv(AfterStart(s, o, time)) && Grows(s, AfterStart(s, o, time))
  {
    var w := s.workers[o];
    assert WorkerOk(s, o);
    assert StoreOk(s, w.instance, PaymentId(w));
    assert s.makers == s.makers[PaymentId(w) := o];
    PaysKeeps(s, AfterStart(s, o, time), o, WithStatus(StoreOf(s, w.instance)[PaymentId(w)], Processing, time));
  }

  lemma ReportKeeps(s: System, o: string, outcome: Settlement, time: string)
    requires Inv(s) && o in s.workers && s.workers[o].phase.Sending?
    ensures Inv(AfterReport(s, o, outcome, time)) && Grows(s, AfterReport(s, o, outcome, time))
  {
    var w := s.workers[o];
    assert WorkerOk(s, o);
    assert StoreOk(s, w.instance, PaymentId(w));
    assert s.makers == s.makers[PaymentId(w) := o];
    PaysKeeps(s, AfterReport(s, o, outcome, time), o, Settled(StoreOf(s, w.instance)[PaymentId(w)], outcome, time));
  }

  lemma MarkCommits(s: System, s': System, o: string, now: int, e: Event)
    requires o in s.workers && s.workers[o].phase.Started? && WorkerOk(s, o)
    requires Owns(s.records, s.workers[o].request.key, o) && RecordOk(s, s.workers[o].request.key)
    requires s' == AfterMark(s, o, now)
    requires e == Marked(s.workers[o].request.key, s.workers[o].life, o, PaymentId(s.workers[o]), now)
    ensures Commits(s, s', o, [e])
    ensures WorkerOk(s', o) && RecordOk(s', s.workers[o].request.key) && EventOk(s', e)
  {
  }

  lemma MarkKeeps(s: System, o: string, now: int)
    requires Inv(s) && o in s.workers && s.workers[o].phase.Started?
    ensures Inv(AfterMark(s, o, now)) && Grows(s, AfterMark(s, o, now))
  {
    var s' := AfterMark(s, o, now);
    var w := s.workers[o];
    assert WorkerOk(s, o);
    if Owns(s.records, s.workers[o].request.key, o) {
      var e := Marked(w.request.key, w.life, o, PaymentId(w), now);
      assert RecordOk(s, w.request.key);
      MarkCommits(s, s', o, now, e);
      CommitsKeeps(s, s', o, [e]);
    } else {
      QuietKeeps(s, s', o, []);
    }
  }

  lemma CompleteCommits(s: System, s': System, o: string, e: Event)
    requires o in s.workers && s.workers[o].phase.Holding? && WorkerOk(s, o)
    requires Owns(s.records, s.workers[o].request.key, o) && RecordOk(s, s.workers[o].request.key)
    requires s' == AfterComplete(s, o)
    requires e == Reply(s.workers[o].request.key, s.workers[o].life, o, o, Executed(s.workers[o].phase.payment))
    ensures Commits(s, s', o, [e])
    ensures WorkerOk(s', o) && RecordOk(s', s.workers[o].request.key) && EventOk(s', e)
  {
  }

  lemma CompleteKeeps(s: System, o: string)
    requires Inv(s) && o in s.workers && s.workers[o].phase.Holding?
    ensures Inv(AfterComplete(s, o)) && Grows(s, AfterComplete(s, o))
  {
    var s' := AfterComplete(s, o);
    var w := s.workers[o];
    assert WorkerOk(s, o);
    if Owns(s.records, s.workers[o].request.key, o) {
      var e := Reply(w.request.key, w.life, o, o, Executed(w.phase.payment));
      assert RecordOk(s, w.request.key);
      CompleteCommits(s, s', o, e);
      FirstAnswer(s, o, e);
      CommitsKeeps(s, s', o, [e]);
    } else {
      QuietKeeps(s, s', o, []);
    }
  }

  lemma ExpireGrows(s: System, s': System, key: string)
    requires key in s.records && s' == AfterExpiry(s, key)
    ensures Grows(s, s')
  {
    var e := s'.log[|s.log|];
    assert e in s'.log;
  }

  lemma ExpireHistory(s: System, s': System, key: string)
    requires key in s.records && s' == AfterExpiry(s, key)
    ensures SameHistory(s, s')
  {
  }

  lemma ExpireKeeps(s: System, key: string)
    requires Inv(s) && key in s.records
    ensures Inv(AfterExpiry(s, key)) && Grows(s, AfterExpiry(s, key))
  {
    var s' := AfterExpiry(s, key);
    ExpireGrows(s, s', key);
    ExpireHistory(s, s', key);
    forall o | o in s'.workers
      ensures WorkerOk(s', o)
    {
      WorkerKept(s, s', o);
    }
    forall f | f in s.log
      ensures EventOk(s', f)
    {
      EventKept(s, s', f);
    }
    HistoryKeeps(s, s');
    LogGrows(s, s', [s'.log[|s.log|]]);
  }

  lemma RestartGrows(s: System, s': System, instance: nat)
    requires s' == AfterRestart(s, instance)
    ensures Grows(s, s')
  {
  }

  lemma RestartHistory(s: System, s': System, instance: nat)
    requires s' == AfterRestart(s, instance)
    ensures SameHistory(s, s')
  {
  }

  lemma RestartWorker(s: System, s': System, instance: nat, o: string)
    requires Inv(s) && s' == AfterRestart(s, instance) && Grows(s, s') && o in s'.workers
    ensures WorkerOk(s', o)
  {
    if s.workers[o].instance == instance {
      assert WorkerOk(s, o);
    } else {
      WorkerKept(s, s', o);
    }
  }

  lemma RestartKeeps(s: System, instance: nat)
    requires Inv(s)
    ensures Inv(AfterRestart(s, instance)) && Grows(s, AfterRestart(s, instance))
  {
    var s' := AfterRestart(s, instance);
    RestartGrows(s, s', instance);
    forall o | o in s'.workers
      ensures WorkerOk(s', o)
    {
      RestartWorker(s, s', instance, o);
    }
    forall f | f in s.log
      ensures EventOk(s', f)
    {
      EventKept(s, s', f);
    }
    RestartHistory(s, s', instance);
    HistoryKeeps(s, s');
  }

  lemma StepKeeps(s: System, step: Step)
    requires Inv(s) && Enabled(s, step)
    ensures Inv(Apply(s, step)) && Grows(s, Apply(s, step))
  {
    match step {
      case Claim(o, instance, request, now) => ClaimKeeps(s, o, instance, request, now);
      case Reconcile(o) => ReconcileKeeps(s, o);
      case Reject(o) => RejectKeeps(s, o);
      case RouteFails(o, pid, reason, time) => RouteFailsKeeps(s, o, pid, reason, time);
      case RouteFound(o, pid, fee, time) => RouteFoundKeeps(s, o, pid, fee, time);
      case Start(o, time) => StartKeeps(s, o, time);
      case Mark(o, now) => MarkKeeps(s, o, now);
      case Send(o) => SendKeeps(s, o);
      case Report(o, outcome, time) => ReportKeeps(s, o, outcome, time);
      case Fetch(o) => FetchKeeps(s, o);
      case Complete(o) => CompleteKeeps(s, o);
      case Expire(key) => ExpireKeeps(s, key);
      case Restart(instance) => RestartKeeps(s, instance);
    }
  }
}
