/**
  The durable claim store: three server-side Lua scripts over one key, and the
  client code that decodes their replies. A stored record is the table that
  cjson encodes, with its tag and its optional fields as the scripts see them.
  The `PX` expiry of a key is an event of its own, which may come at any time.
 */
module RedisClaimStore {
  import opened Common
  import opened ClaimStore

  /** The table a script decodes: absent fields are `None`. */
  datatype LuaRecord = LuaRecord(
    fingerprint: string,
    owner: string,
    leaseExpiresAtMs: int,
    createdAtMs: int,
    lifecycle: string,
    executionRef: Option<string>,
    response: Option<string>)

  type Database = map<string, LuaRecord>

  /** A script's reply is a list of strings; a nil element ends it. */
  function Reply(tag: string, detail: Option<string>): seq<string> {
    if detail.Some? then [tag, detail.value] else [tag]
  }

  function ClaimScript(db: Database, key: string, fingerprint: string, owner: string, leaseMs: int, nowMs: int)
    : (Database, seq<string>)
  {
    if key !in db then
      (db[key := LuaRecord(fingerprint, owner, nowMs + leaseMs, nowMs, "in_flight", None, None)], ["claimed"])
    else
      var rec := db[key];
      if rec.fingerprint != fingerprint then (db, ["mismatch"])
      else if rec.lifecycle == "completed" then (db, Reply("replay", rec.response))
      else if rec.lifecycle == "submitting" then (db, Reply("awaiting", rec.executionRef))
      else if nowMs < rec.leaseExpiresAtMs then (db, ["in_flight"])
      else (db[key := rec.(owner := owner, leaseExpiresAtMs := nowMs + leaseMs)], ["took_over"])
  }

  function MarkSubmittingScript(db: Database, key: string, owner: string, executionRef: string, leaseMs: int,
                                nowMs: int)
    : (Database, seq<string>)
  {
    if key !in db then (db, ["gone"])
    else if db[key].owner != owner then (db, ["conflict"])
    else
      (db[key := db[key].(lifecycle := "submitting",
                          executionRef := Some(executionRef),
                          leaseExpiresAtMs := nowMs + leaseMs)],
       ["ok"])
  }

  function CompleteScript(db: Database, key: string, owner: string, responseJson: string, executionRef: string)
    : (Database, seq<string>)
  {
    if key !in db then (db, ["gone"])
    else if db[key].owner != owner then (db, ["conflict"])
    else
      var rec := db[key].(lifecycle := "completed", response := Some(responseJson));
      (db[key := if executionRef != "" then rec.(executionRef := Some(executionRef)) else rec], ["ok"])
  }

  /** Rendering of a response as JSON text and back, as serde_json does it. */
  datatype Codec = Codec(encode: Value -> string, decode: string -> Result<Value>)

  /** A document comes back from its text as it was. */
  predicate RoundTrips(codec: Codec, v: Value) {
    codec.decode(codec.encode(v)) == Ok(v)
  }

  /** So does the response that a call records, if it records one. */
  predicate Recordable(codec: Codec, c: Call) {
    c.CallComplete? ==> RoundTrips(codec, c.response)
  }

  // ---------- client-side decoding ----------

  function DecodeClaim(codec: Codec, parts: seq<string>, token: ClaimToken): Result<ClaimOutcome> {
    if parts == [] then Err(Internal)
    else match parts[0]
      case "claimed" => Ok(Claimed(token))
      case "took_over" => Ok(TookOver(token))
      case "in_flight" => Ok(HeldByOther)
      case "mismatch" => Err(Conflict)
      case "awaiting" => Ok(AwaitingResult(if |parts| > 1 then parts[1] else ""))
      case "replay" =>
        var response :- codec.decode(if |parts| > 1 then parts[1] else "null");
        Ok(Replay(response))
      case _ => Err(Internal)
  }

  function InterpretWrite(parts: seq<string>): Result<()> {
    if parts == [] then Err(Internal)
    else match parts[0]
      case "ok" => Ok(())
      case "conflict" => Err(Conflict)
      case "gone" => Err(PreconditionFailed)
      case _ => Err(Internal)
  }

  // ---------- both stores driven by the same calls and expiries ----------

  datatype Call =
    | CallClaim(key: string, fingerprint: string, owner: string, lease: nat, now: int)
    | CallMark(token: ClaimToken, executionRef: string, lease: nat, now: int)
    | CallComplete(token: ClaimToken, response: Value, finalRef: Option<string>)
    | Expires(key: string)

  datatype Answer = ToClaim(outcome: Result<ClaimOutcome>) | ToWrite(done: Result<()>) | NoAnswer

  function MemoryCall(records: Records, c: Call): (Records, Answer) {
    match c
    case CallClaim(key, fingerprint, owner, lease, now) =>
      var (records', r) := ClaimStep(records, key, fingerprint, owner, lease, now);
      (records', ToClaim(r))
    case CallMark(token, executionRef, lease, now) =>
      var (records', r) := MarkSubmittingStep(records, token, executionRef, lease, now);
      (records', ToWrite(r))
    case CallComplete(token, response, finalRef) =>
      var (records', r) := CompleteStep(records, token, response, finalRef);
      (records', ToWrite(r))
    case Expires(key) =>
      (records - {key}, NoAnswer)
  }

  function RedisCall(codec: Codec, db: Database, c: Call): (Database, Answer) {
    match c
    case CallClaim(key, fingerprint, owner, lease, now) =>
      var (db', parts) := ClaimScript(db, key, fingerprint, owner, lease, now);
      (db', ToClaim(DecodeClaim(codec, parts, ClaimToken(key, owner))))
    case CallMark(token, executionRef, lease, now) =>
      var (db', parts) := MarkSubmittingScript(db, token.key, token.owner, executionRef, lease, now);
      (db', ToWrite(InterpretWrite(parts)))
    case CallComplete(token, response, finalRef) =>
      var (db', parts) := CompleteScript(db, token.key, token.owner, codec.encode(response),
                                         if finalRef.Some? then finalRef.value else "");
      (db', ToWrite(InterpretWrite(parts)))
    case Expires(key) =>
      (db - {key}, NoAnswer)
  }

  /** The answers a whole sequence of calls receives, in order. */
  function MemoryAnswers(records: Records, calls: seq<Call>): seq<Answer>
    decreases |calls|
  {
    if calls == [] then []
    else
      var (records', a) := MemoryCall(records, calls[0]);
      [a] + MemoryAnswers(records', calls[1..])
  }

  function RedisAnswers(codec: Codec, db: Database, calls: seq<Call>): seq<Answer>
    decreases |calls|
  {
    if calls == [] then []
    else
      var (db', a) := RedisCall(codec, db, calls[0]);
      [a] + RedisAnswers(codec, db', calls[1..])
  }

  // ---------- the simulation ----------

  /** A table stands for a record. When `complete` brings no reference the
      scripts keep the one written before submission, which the in-memory store
      drops; so a completed record's reference is left out in that case. */
  predicate Represents(codec: Codec, t: LuaRecord, r: ClaimRecord) {
    && t.fingerprint == r.fingerprint
    && t.owner == r.owner
    && t.leaseExpiresAtMs == r.leaseExpiresAtMs
    && t.createdAtMs == r.createdAtMs
    && match r.lifecycle
       case InFlight => t.lifecycle == "in_flight"
       case Submitting(executionRef) => t.lifecycle == "submitting" && t.executionRef == Some(executionRef)
       case Completed(response, finalRef) =>
         && t.lifecycle == "completed" && t.response == Some(codec.encode(response)) && RoundTrips(codec, response)
         && (finalRef.Some? && finalRef.value != "" ==> t.executionRef == finalRef)
  }

  ghost predicate Simulates(codec: Codec, db: Database, records: Records) {
    && db.Keys == records.Keys
    && forall k :: k in records ==> Represents(codec, db[k], records[k])
  }

  lemma ClaimSimulates(codec: Codec, db: Database, records: Records, c: Call)
    requires Simulates(codec, db, records) && c.CallClaim?
    ensures RedisCall(codec, db, c).1 == MemoryCall(records, c).1
    ensures Simulates(codec, RedisCall(codec, db, c).0, MemoryCall(records, c).0)
  {
    if c.key in records {
      assert Represents(codec, db[c.key], records[c.key]);
    }
  }

  lemma MarkSimulates(codec: Codec, db: Database, records: Records, c: Call)
    requires Simulates(codec, db, records) && c.CallMark?
    ensures RedisCall(codec, db, c).1 == MemoryCall(records, c).1
    ensures Simulates(codec, RedisCall(codec, db, c).0, MemoryCall(records, c).0)
  {
    if c.token.key in records {
      assert Represents(codec, db[c.token.key], records[c.token.key]);
    }
  }

  lemma CompleteSimulates(codec: Codec, db: Database, records: Records, c: Call)
    requires Simulates(codec, db, records) && c.CallComplete? && Recordable(codec, c)
    ensures RedisCall(codec, db, c).1 == MemoryCall(records, c).1
    ensures Simulates(codec, RedisCall(codec, db, c).0, MemoryCall(records, c).0)
  {
    if c.token.key in records {
      assert Represents(codec, db[c.token.key], records[c.token.key]);
    }
  }

  lemma CallSimulates(codec: Codec, db: Database, records: Records, c: Call)
    requires Simulates(codec, db, records) && Recordable(codec, c)
    ensures RedisCall(codec, db, c).1 == MemoryCall(records, c).1
    ensures Simulates(codec, RedisCall(codec, db, c).0, MemoryCall(records, c).0)
  {
    match c {
      case CallClaim(_, _, _, _, _) => ClaimSimulates(codec, db, records, c);
      case CallMark(_, _, _, _) => MarkSimulates(codec, db, records, c);
      case CallComplete(_, _, _) => CompleteSimulates(codec, db, records, c);
      case Expires(_) =>
    }
  }

  /** No sequence of calls, with keys expiring at any point between them, can
      tell the scripts from an in-memory store that drops the same keys. */
  lemma {:induction false} RedisAnswersLikeMemory(codec: Codec, db: Database, records: Records, calls: seq<Call>)
    requires Simulates(codec, db, records) && forall c :: c in calls ==> Recordable(codec, c)
    ensures RedisAnswers(codec, db, calls) == MemoryAnswers(records, calls)
    decreases |calls|
  {
    if calls != [] {
      CallSimulates(codec, db, records, calls[0]);
      RedisAnswersLikeMemory(codec, RedisCall(codec, db, calls[0]).0, MemoryCall(records, calls[0]).0, calls[1..]);
    }
  }

  /** The reference a completed table carries: the one `complete` brings, or else the earlier one. */
  lemma CompletedReference(db: Database, key: string, owner: string, json: string, ref: string)
    requires key in db && db[key].owner == owner
    ensures var rec := CompleteScript(db, key, owner, json, ref).0[key];
            rec.executionRef == if ref == "" then db[key].executionRef else Some(ref)
  {
  }

  /** The two stores really do differ inside: after the same three calls one
      keeps a reference that the other has dropped. */
  lemma CompletedReferenceDiffers(codec: Codec, v: Value)
    ensures var token := ClaimToken("k", "o");
            var claim := CallClaim("k", "f", "o", 0, 0);
            var mark := CallMark(token, "p", 0, 0);
            var complete := CallComplete(token, v, None);
            var records := MemoryCall(MemoryCall(MemoryCall(map[], claim).0, mark).0, complete).0;
            var db := RedisCall(codec, RedisCall(codec, RedisCall(codec, map[], claim).0, mark).0, complete).0;
            && "k" in records && records["k"].lifecycle == Completed(v, None)
            && "k" in db && db["k"].executionRef == Some("p")
  {
    var token := ClaimToken("k", "o");
    var records := MemoryCall(map[], CallClaim("k", "f", "o", 0, 0)).0;
    records := MemoryCall(records, CallMark(token, "p", 0, 0)).0;
    assert records["k"].owner == "o";
    var db := RedisCall(codec, map[], CallClaim("k", "f", "o", 0, 0)).0;
    db := RedisCall(codec, db, CallMark(token, "p", 0, 0)).0;
    assert db["k"].owner == "o";
  }

  // ---------- the store itself ----------

  class Store {
    var db: map<string, LuaRecord>
    const codec: Codec

    constructor (codec: Codec)
      ensures db == map[] && this.codec == codec
    {
      db := map[];
      this.codec := codec;
    }

    method Claim(key: string, fingerprint: string, owner: string, lease: nat, now: int)
      returns (r: Result<ClaimOutcome>)
      modifies this
      ensures (db, ToClaim(r)) == RedisCall(codec, old(db), CallClaim(key, fingerprint, owner, lease, now))
    {
      var parts;
      if key !in db {
        db := db[key := LuaRecord(fingerprint, owner, now + lease, now, "in_flight", None, None)];
        parts := ["claimed"];
      } else {
        var rec := db[key];
        if rec.fingerprint != fingerprint {
          parts := ["mismatch"];
        } else if rec.lifecycle == "completed" {
          parts := Reply("replay", rec.response);
        } else if rec.lifecycle == "submitting" {
          parts := Reply("awaiting", rec.executionRef);
        } else if now < rec.leaseExpiresAtMs {
          parts := ["in_flight"];
        } else {
          rec := rec.(owner := owner);
          rec := rec.(leaseExpiresAtMs := now + lease);
          db := db[key := rec];
          parts := ["took_over"];
        }
      }
      r := DecodeClaim(codec, parts, ClaimToken(key, owner));
    }

    method MarkSubmitting(token: ClaimToken, executionRef: string, lease: nat, now: int)
      returns (r: Result<()>)
      modifies this
      ensures (db, ToWrite(r)) == RedisCall(codec, old(db), CallMark(token, executionRef, lease, now))
    {
      var parts := ["gone"];
      if token.key in db {
        var rec := db[token.key];
        if rec.owner != token.owner {
          parts := ["conflict"];
        } else {
          rec := rec.(lifecycle := "submitting");
          rec := rec.(executionRef := Some(executionRef));
          rec := rec.(leaseExpiresAtMs := now + lease);
          db := db[token.key := rec];
          parts := ["ok"];
        }
      }
      r := InterpretWrite(parts);
    }

    method Complete(token: ClaimToken, response: Value, finalRef: Option<string>)
      returns (r: Result<()>)
      modifies this
      ensures (db, ToWrite(r)) == RedisCall(codec, old(db), CallComplete(token, response, finalRef))
    {
      var responseJson := codec.encode(response);
      var executionRef := if finalRef.Some? then finalRef.value else "";
      var parts := ["gone"];
      if token.key in db {
        var rec := db[token.key];
        if rec.owner != token.owner {
          parts := ["conflict"];
        } else {
          rec := rec.(lifecycle := "completed");
          rec := rec.(response := Some(responseJson));
          if executionRef != "" {
            rec := rec.(executionRef := Some(executionRef));
          }
          db := db[token.key := rec];
          parts := ["ok"];
        }
      }
      r := InterpretWrite(parts);
    }
  }
}
