/** What the protocol grants: a claim that may run, does. */
module EngineProgress {
  import opened ClaimStore
  import opened EngineProtocol
  import opened EngineSafety
  import opened EngineTheorems

  /** An in-flight record carries the lease of the grant it came from. */
  ghost predicate LeaseLogged(s: System, key: string) {
    key in s.records && s.records[key].lifecycle.InFlight? ==>
      Grant(key, Life(s, key), s.records[key].owner, s.records[key].leaseExpiresAtMs - CLAIM_LEASE) in s.log
  }

  ghost predicate LeasesLogged(s: System) {
    forall key {:trigger LeaseLogged(s, key)} :: LeaseLogged(s, key)
  }

  lemma ClaimLogsLease(s: System, o: string, instance: nat, request: Request, now: int, key: string)
    requires LeaseLogged(s, key)
    ensures LeaseLogged(AfterClaim(s, o, instance, request, now), key)
  {
  }

  lemma MarkLogsLease(s: System, o: string, now: int, key: string)
    requires o in s.workers && LeaseLogged(s, key)
    ensures LeaseLogged(AfterMark(s, o, now), key)
  {
  }

  lemma CompleteLogsLease(s: System, o: string, key: string)
    requires o in s.workers && s.workers[o].phase.Holding? && LeaseLogged(s, key)
    ensures LeaseLogged(AfterComplete(s, o), key)
  {
  }

  lemma ExpiryLogsLease(s: System, gone: string, key: string)
    requires gone in s.records && LeaseLogged(s, key)
    ensures LeaseLogged(AfterExpiry(s, gone), key)
  {
  }

  lemma StepLogsLeases(s: System, step: Step)
    requires LeasesLogged(s) && Enabled(s, step)
    ensures LeasesLogged(Apply(s, step))
  {
    var s' := Apply(s, step);
    forall key
      ensures LeaseLogged(s', key)
    {
      assert LeaseLogged(s, key);
      match step {
        case Claim(o, instance, request, now) => ClaimLogsLease(s, o, instance, request, now, key);
        case Mark(o, now) => MarkLogsLease(s, o, now, key);
        case Complete(o) => CompleteLogsLease(s, o, key);
        case Expire(gone) => ExpiryLogsLease(s, gone, key);
        case _ => LocalStep(s, step);
      }
    }
  }

  lemma {:induction false} RunLogsLeases(s: System, steps: seq<Step>)
    requires LeasesLogged(s) && IsRun(s, steps)
    ensures LeasesLogged(After(s, steps))
    decreases |steps|
  {
    if steps != [] {
      StepLogsLeases(s, steps[0]);
      RunLogsLeases(Apply(s, steps[0]), steps[1..]);
    }
  }

  /** Every grant given to the current life of a key is at least a lease old. */
  ghost predicate LeasesOver(s: System, key: string, now: int) {
    forall g :: g in s.log && g.Grant? && g.key == key && g.life == Life(s, key) ==> now >= g.at + 30_000
  }

  /** The lease of an in-flight record runs from the last grant of its life. */
  lemma LeaseFromLastGrant(steps: seq<Step>, key: string, now: int)
    requires IsRun(INITIAL, steps)
    ensures var s := After(INITIAL, steps);
            key in s.records && s.records[key].lifecycle.InFlight? ==>
              (now >= s.records[key].leaseExpiresAtMs <==> LeasesOver(s, key, now))
  {
    var s := After(INITIAL, steps);
    Reachable(steps);
    RunLogsLeases(INITIAL, steps);
    assert LeaseLogged(s, key);
    forall g | && key in s.records && s.records[key].lifecycle.InFlight?
               && g in s.log && g.Grant? && g.key == key && g.life == Life(s, key)
      ensures g.at + 30_000 <= s.records[key].leaseExpiresAtMs
    {
      assert EventOk(s, g);
    }
  }

  lemma ClaimGranted(s: System, o: string, instance: nat, request: Request, now: int)
    ensures var s', key := AfterClaim(s, o, instance, request, now), request.key;
            && (s'.workers[o].phase.Granted? <==>
                  || key !in s.records
                  || (&& s.records[key].lifecycle.InFlight? && s.records[key].fingerprint == request.fingerprint
                      && now >= s.records[key].leaseExpiresAtMs))
            && (s'.workers[o].phase.Granted? ==>
                  s'.log == s.log + [Grant(key, Life(s', key), o, now)] && Owns(s'.records, key, o))
  {
    ClaimExactly(s.records, request.key, request.fingerprint, o, CLAIM_LEASE, now);
  }

  /** Over all runs, a claim is granted exactly when the key has no record, or
      an in-flight one for the same request whose last grant is a lease old: a
      crashed worker's claim never stays stuck longer than that. */
  lemma GrantedExactly(steps: seq<Step>, o: string, instance: nat, request: Request, now: int)
    requires IsRun(INITIAL, steps) && o !in After(INITIAL, steps).workers
    ensures var s, key := After(INITIAL, steps), request.key;
            var s' := AfterClaim(s, o, instance, request, now);
            && (s'.workers[o].phase.Granted? <==>
                  || key !in s.records
                  || (&& s.records[key].lifecycle.InFlight? && s.records[key].fingerprint == request.fingerprint
                      && LeasesOver(s, key, now)))
            && (s'.workers[o].phase.Granted? ==>
                  s'.log == s.log + [Grant(key, Life(s', key), o, now)] && Owns(s'.records, key, o))
  {
    var s, key := After(INITIAL, steps), request.key;
    ClaimGranted(s, o, instance, request, now);
    LeaseFromLastGrant(steps, key, now);
  }

  /** A restart loses the instance's payments and stops its requests; claims,
      and whatever other instances hold, outlive it. A prior submission that
      only this instance knew of can then no longer be answered. */
  lemma RestartLoses(s: System, i: nat)
    ensures var s' := AfterRestart(s, i);
            && s'.records == s.records && s'.log == s.log
            && StoreOf(s', i) == map[] && (forall j: nat :: j != i ==> StoreOf(s', j) == StoreOf(s, j))
            && s'.workers.Keys == s.workers.Keys
            && (forall o :: o in s.workers ==>
                  s'.workers[o] == if s.workers[o].instance == i then s.workers[o].(phase := Done) else s.workers[o])
  {
  }
}
