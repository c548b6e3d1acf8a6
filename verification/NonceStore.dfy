/**
  Replay protection: nonces seen within a window. Times are clock ticks. A check
  that stores a nonce reads the clock again to do so, `delay` ticks later.
 */
module NonceStore {
  import opened Common

  type Entries = map<string, int>

  predicate Fresh(storedAt: int, ttl: nat, now: int) {
    now - storedAt < ttl
  }

  /** The new entries, and whether the key was already there. */
  function CheckAndSetStep(entries: Entries, key: string, ttl: nat, now: int, delay: nat): (Entries, bool) {
    if key in entries && Fresh(entries[key], ttl, now) then (entries, true)
    else (entries[key := now + delay], false)
  }

  function EvictStep(entries: Entries, ttl: nat, now: int): Entries {
    map k | k in entries && Fresh(entries[k], ttl, now) :: entries[k]
  }

  /** A nonce counts as seen exactly within the window since it was stored; only
      a check that does not find it so stores it, with the later reading. */
  lemma CheckExactly(entries: Entries, key: string, ttl: nat, now: int, delay: nat)
    ensures var (entries', seen) := CheckAndSetStep(entries, key, ttl, now, delay);
            && (seen <==> key in entries && now < entries[key] + ttl)
            && (seen ==> entries' == entries)
            && (!seen ==> entries'.Keys == entries.Keys + {key} && entries'[key] == now + delay)
            && forall k :: k in entries && k != key ==> entries'[k] == entries[k]
  {
  }

  /** An eviction takes away exactly the entries whose window is over. */
  lemma EvictExactly(entries: Entries, ttl: nat, now: int, k: string)
    ensures k in EvictStep(entries, ttl, now) <==> k in entries && now < entries[k] + ttl
    ensures k in EvictStep(entries, ttl, now) ==> EvictStep(entries, ttl, now)[k] == entries[k]
  {
  }

  class MemoryNonceStore {
    var entries: map<string, int>

    constructor ()
      ensures entries == map[]
    {
      entries := map[];
    }

    method EvictExpired(ttl: nat, now: int)
      modifies this
      ensures entries == EvictStep(old(entries), ttl, now)
    {
      entries := map k | k in entries && now - entries[k] < ttl :: entries[k];
    }

    method CheckAndSet(key: string, ttl: nat, now: int, delay: nat) returns (seen: bool)
      modifies this
      ensures (entries, seen) == CheckAndSetStep(old(entries), key, ttl, now, delay)
    {
      if key in entries {
        if now - entries[key] >= ttl {
          entries := entries[key := now + delay];
          seen := false;
        } else {
          seen := true;
        }
      } else {
        entries := entries[key := now + delay];
        seen := false;
      }
    }
  }

  // ---------- eviction is unobservable ----------

  datatype Op = Check(key: string, now: int, delay: nat) | Evict(now: int)

  function Time(op: Op): int {
    op.now
  }

  /** What a store holds after a sequence of operations. */
  function AfterOps(entries: Entries, ttl: nat, ops: seq<Op>): Entries
    decreases |ops|
  {
    if ops == [] then entries
    else match ops[0]
      case Check(key, now, delay) => AfterOps(CheckAndSetStep(entries, key, ttl, now, delay).0, ttl, ops[1..])
      case Evict(now) => AfterOps(EvictStep(entries, ttl, now), ttl, ops[1..])
  }

  /** The answers to the checks, in order. */
  function Answers(entries: Entries, ttl: nat, ops: seq<Op>): seq<bool>
    decreases |ops|
  {
    if ops == [] then []
    else match ops[0]
      case Check(key, now, delay) =>
        var (entries', seen) := CheckAndSetStep(entries, key, ttl, now, delay);
        [seen] + Answers(entries', ttl, ops[1..])
      case Evict(now) => Answers(EvictStep(entries, ttl, now), ttl, ops[1..])
  }

  /** The same checks against a store that is never evicted. */
  function Checks(ops: seq<Op>): seq<Op>
    decreases |ops|
  {
    if ops == [] then []
    else (if ops[0].Check? then [ops[0]] else []) + Checks(ops[1..])
  }

  /** `pruned` lacks nothing of `full` but entries already expired at `now`. */
  ghost predicate Prunes(pruned: Entries, full: Entries, ttl: nat, now: int) {
    && (forall k :: k in pruned ==> k in full && full[k] == pruned[k])
    && (forall k :: k in full && k !in pruned ==> !Fresh(full[k], ttl, now))
  }

  lemma {:induction false} PrunedAnswersAlike(pruned: Entries, full: Entries, ttl: nat, ops: seq<Op>, now: int)
    requires Prunes(pruned, full, ttl, now) && Monotone(Time, ops, now)
    ensures Answers(pruned, ttl, ops) == Answers(full, ttl, Checks(ops))
    decreases |ops|
  {
    if ops != [] {
      var later := ops[0].now;
      match ops[0] {
        case Check(key, _, delay) =>
          assert Checks(ops)[0] == ops[0] && Checks(ops)[1..] == Checks(ops[1..]);
          PrunedAnswersAlike(CheckAndSetStep(pruned, key, ttl, later, delay).0,
                             CheckAndSetStep(full, key, ttl, later, delay).0, ttl, ops[1..], later);
        case Evict(_) =>
          assert Checks(ops) == Checks(ops[1..]);
          PrunedAnswersAlike(EvictStep(pruned, ttl, later), full, ttl, ops[1..], later);
      }
    }
  }

  /** However evictions are interleaved, every check gets the answer it would
      get from a store that never evicts. */
  lemma EvictionUnobservable(ttl: nat, ops: seq<Op>, start: int)
    requires Monotone(Time, ops, start)
    ensures Answers(map[], ttl, ops) == Answers(map[], ttl, Checks(ops))
  {
    PrunedAnswersAlike(map[], map[], ttl, ops, start);
  }
}
