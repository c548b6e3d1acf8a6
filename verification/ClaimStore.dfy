/**
  The atomic claim / result protocol for idempotent execution, as the
  in-memory store implements it. Each call is one atomic step that reads the
  clock once; `now` is that reading, in milliseconds.
 */
module ClaimStore {
  import opened Common

  datatype ClaimLifecycle =
    | InFlight
    | Submitting(executionRef: string)
    | Completed(response: Value, finalRef: Option<string>)

  datatype ClaimRecord = ClaimRecord(
    fingerprint: string,
    owner: string,
    leaseExpiresAtMs: int,
    createdAtMs: int,
    lifecycle: ClaimLifecycle)
  {
    predicate LeaseExpired(now: int) {
      now >= leaseExpiresAtMs
    }
  }

  datatype ClaimToken = ClaimToken(key: string, owner: string)

  datatype ClaimOutcome =
    | Claimed(token: ClaimToken)
    | TookOver(token: ClaimToken)
    | HeldByOther
    | AwaitingResult(executionRef: string)
    | Replay(response: Value)

  type Records = map<string, ClaimRecord>

  predicate Owns(records: Records, key: string, owner: string) {
    key in records && records[key].owner == owner
  }

  // ---------- what each call does to the map of records ----------

  function NewInFlight(fingerprint: string, owner: string, lease: nat, now: int): ClaimRecord {
    ClaimRecord(fingerprint, owner, now + lease, now, InFlight)
  }

  function ClaimStep(records: Records, key: string, fingerprint: string, owner: string, lease: nat, now: int)
    : (Records, Result<ClaimOutcome>)
  {
    var token := ClaimToken(key, owner);
    if key !in records then
      (records[key := NewInFlight(fingerprint, owner, lease, now)], Ok(Claimed(token)))
    else
      var rec := records[key];
      if rec.fingerprint != fingerprint then
        (records, Err(Conflict))
      else match rec.lifecycle
        case Completed(response, _) => (records, Ok(Replay(response)))
        case Submitting(executionRef) => (records, Ok(AwaitingResult(executionRef)))
        case InFlight =>
          if !rec.LeaseExpired(now) then
            (records, Ok(HeldByOther))
          else
            (records[key := rec.(owner := owner, leaseExpiresAtMs := now + lease)], Ok(TookOver(token)))
  }

  function MarkSubmittingStep(records: Records, token: ClaimToken, executionRef: string, lease: nat, now: int)
    : (Records, Result<()>)
  {
    if token.key !in records then
      (records, Err(PreconditionFailed))
    else if records[token.key].owner != token.owner then
      (records, Err(Conflict))
    else
      (records[token.key := records[token.key].(lifecycle := Submitting(executionRef),
                                                leaseExpiresAtMs := now + lease)],
       Ok(()))
  }

  function CompleteStep(records: Records, token: ClaimToken, response: Value, finalRef: Option<string>)
    : (Records, Result<()>)
  {
    if token.key !in records then
      (records, Err(PreconditionFailed))
    else if records[token.key].owner != token.owner then
      (records, Err(Conflict))
    else
      (records[token.key := records[token.key].(lifecycle := Completed(response, finalRef))], Ok(()))
  }

  // ---------- when each call answers what ----------

  /** The record under `key` is the one given, and no other record changed. */
  predicate Becomes(records: Records, records': Records, key: string, rec: ClaimRecord) {
    && records'.Keys == records.Keys + {key} && records'[key] == rec
    && forall k :: k in records && k != key ==> records'[k] == records[k]
  }

  /** Every outcome of a claim, exactly when it comes, and what is then stored:
      in particular an abandoned claim is taken over as soon as its lease ends. */
  lemma ClaimExactly(records: Records, key: string, fingerprint: string, owner: string, lease: nat, now: int)
    ensures var (records', r) := ClaimStep(records, key, fingerprint, owner, lease, now);
            var token, held := ClaimToken(key, owner), key in records && records[key].fingerprint == fingerprint;
            && (r == Ok(Claimed(token)) <==> key !in records)
            && (r == Err(Conflict) <==> key in records && !held)
            && (r == Ok(TookOver(token)) <==>
                  held && records[key].lifecycle.InFlight? && now >= records[key].leaseExpiresAtMs)
            && (r == Ok(HeldByOther) <==>
                  held && records[key].lifecycle.InFlight? && now < records[key].leaseExpiresAtMs)
            && (forall ref :: r == Ok(AwaitingResult(ref)) <==> held && records[key].lifecycle == Submitting(ref))
            && (forall v :: r == Ok(Replay(v)) <==>
                  held && records[key].lifecycle.Completed? && records[key].lifecycle.response == v)
            && (r == Ok(Claimed(token)) ==>
                  Becomes(records, records', key, ClaimRecord(fingerprint, owner, now + lease, now, InFlight)))
            && (r == Ok(TookOver(token)) ==>
                  Becomes(records, records', key,
                          ClaimRecord(fingerprint, owner, now + lease, records[key].createdAtMs, InFlight)))
            && (r != Ok(Claimed(token)) && r != Ok(TookOver(token)) ==> records' == records)
  {
  }

  /** A write is accepted exactly from the owner, and refused as gone or as taken over. */
  predicate WriteAnswers(records: Records, token: ClaimToken, r: Result<()>) {
    && (r == Ok(()) <==> Owns(records, token.key, token.owner))
    && (r == Err(PreconditionFailed) <==> token.key !in records)
    && (r == Err(Conflict) <==> token.key in records && records[token.key].owner != token.owner)
  }

  lemma MarkExactly(records: Records, token: ClaimToken, ref: string, lease: nat, now: int)
    ensures var (records', r) := MarkSubmittingStep(records, token, ref, lease, now);
            && WriteAnswers(records, token, r)
            && (r.Err? ==> records' == records)
            && (r.Ok? ==>
                  var rec := records[token.key];
                  Becomes(records, records', token.key,
                          ClaimRecord(rec.fingerprint, rec.owner, now + lease, rec.createdAtMs, Submitting(ref))))
  {
  }

  lemma CompleteExactly(records: Records, token: ClaimToken, v: Value, finalRef: Option<string>)
    ensures var (records', r) := CompleteStep(records, token, v, finalRef);
            && WriteAnswers(records, token, r)
            && (r.Err? ==> records' == records)
            && (r.Ok? ==>
                  var rec := records[token.key];
                  Becomes(records, records', token.key,
                          ClaimRecord(rec.fingerprint, rec.owner, rec.leaseExpiresAtMs, rec.createdAtMs,
                                      Completed(v, finalRef))))
  {
  }

  // ---------- the store itself ----------

  class MemoryClaimStore {
    var records: map<string, ClaimRecord>

    constructor ()
      ensures records == map[]
    {
      records := map[];
    }

    method Claim(key: string, fingerprint: string, owner: string, lease: nat, now: int)
      returns (r: Result<ClaimOutcome>)
      modifies this
      ensures (records, r) == ClaimStep(old(records), key, fingerprint, owner, lease, now)
    {
      if key !in records {
        records := records[key := NewInFlight(fingerprint, owner, lease, now)];
        return Ok(Claimed(ClaimToken(key, owner)));
      }
      var rec := records[key];
      if rec.fingerprint != fingerprint {
        return Err(Conflict);
      }
      match rec.lifecycle {
        case Completed(response, _) =>
          r := Ok(Replay(response));
        case Submitting(executionRef) =>
          r := Ok(AwaitingResult(executionRef));
        case InFlight =>
          if !rec.LeaseExpired(now) {
            return Ok(HeldByOther);
          }
          rec := rec.(owner := owner);
          rec := rec.(leaseExpiresAtMs := now + lease);
          records := records[key := rec];
          r := Ok(TookOver(ClaimToken(key, owner)));
      }
    }

    method MarkSubmitting(token: ClaimToken, executionRef: string, lease: nat, now: int)
      returns (r: Result<()>)
      modifies this
      ensures (records, r) == MarkSubmittingStep(old(records), token, executionRef, lease, now)
    {
      if token.key !in records {
        return Err(PreconditionFailed);
      }
      var rec := records[token.key];
      if rec.owner != token.owner {
        return Err(Conflict);
      }
      rec := rec.(lifecycle := Submitting(executionRef));
      rec := rec.(leaseExpiresAtMs := now + lease);
      records := records[token.key := rec];
      r := Ok(());
    }

    method Complete(token: ClaimToken, response: Value, finalRef: Option<string>)
      returns (r: Result<()>)
      modifies this
      ensures (records, r) == CompleteStep(old(records), token, response, finalRef)
    {
      if token.key !in records {
        return Err(PreconditionFailed);
      }
      var rec := records[token.key];
      if rec.owner != token.owner {
        return Err(Conflict);
      }
      rec := rec.(lifecycle := Completed(response, finalRef));
      records := records[token.key := rec];
      r := Ok(());
    }
  }
}
