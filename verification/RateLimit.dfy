/**
  Fixed-window rate limiting per workload and scope. Times are clock ticks. One
  call may read the clock three times, with its key's bucket locked throughout:
  when it makes the bucket, when it checks the window, when it restarts it.
 */
module RateLimit {

  datatype Limit = Limit(limit: nat, window: nat)

  datatype Bucket = Bucket(windowStart: int, count: nat)

  type Buckets = map<string, Bucket>

  datatype Readings = Readings(made: int, checked: int, restarted: int)

  /** The bucket a request meets, restarted if its window has elapsed. */
  function Current(buckets: Buckets, key: string, limit: Limit, r: Readings): Bucket {
    var entry := if key in buckets then buckets[key] else Bucket(r.made, 0);
    if r.checked - entry.windowStart >= limit.window then Bucket(r.restarted, 0) else entry
  }

  function AllowStep(buckets: Buckets, key: string, limit: Limit, r: Readings): (Buckets, bool) {
    var current := Current(buckets, key, limit, r);
    if current.count >= limit.limit then (buckets[key := current], false)
    else (buckets[key := current.(count := current.count + 1)], true)
  }

  class RateLimiter {
    var buckets: map<string, Bucket>

    constructor ()
      ensures buckets == map[]
    {
      buckets := map[];
    }

    method Allow(key: string, limit: Limit, r: Readings) returns (allowed: bool)
      modifies this
      ensures (buckets, allowed) == AllowStep(old(buckets), key, limit, r)
    {
      var entry := Bucket(r.made, 0);
      if key in buckets {
        entry := buckets[key];
      }
      if r.checked - entry.windowStart >= limit.window {
        entry := entry.(windowStart := r.restarted);
        entry := entry.(count := 0);
      }
      if entry.count >= limit.limit {
        allowed := false;
      } else {
        entry := entry.(count := entry.count + 1);
        allowed := true;
      }
      buckets := buckets[key := entry];
    }
  }

  // ---------- runs ----------

  datatype Arrival = Arrival(key: string, readings: Readings)

  /** An allowed request: when it was checked, and the start of its window. */
  datatype Use = Use(at: int, window: int)

  /** The buckets, and the requests allowed under each key. */
  datatype State = State(buckets: Buckets, allowed: map<string, seq<Use>>)

  const START := State(map[], map[])

  function Allowed(s: State, key: string): seq<Use> {
    if key in s.allowed then s.allowed[key] else []
  }

  function Handle(limit: Limit, s: State, a: Arrival): State {
    var (buckets', ok) := AllowStep(s.buckets, a.key, limit, a.readings);
    var use := Use(a.readings.checked, buckets'[a.key].windowStart);
    State(buckets', if ok then s.allowed[a.key := Allowed(s, a.key) + [use]] else s.allowed)
  }

  /** The state after all arrivals, oldest first. */
  function Run(limit: Limit, arrivals: seq<Arrival>): State {
    if arrivals == [] then START
    else Handle(limit, Run(limit, arrivals[..|arrivals| - 1]), arrivals[|arrivals| - 1])
  }

  /** Under one key each call ends before the next begins; other keys may interleave. */
  predicate Ordered(arrivals: seq<Arrival>) {
    && (forall i :: 0 <= i < |arrivals| ==> InTurn(arrivals[i].readings))
    && (forall i, j :: 0 <= i < j < |arrivals| && arrivals[i].key == arrivals[j].key ==>
          arrivals[i].readings.restarted <= arrivals[j].readings.made)
  }

  predicate InTurn(r: Readings) {
    r.made <= r.checked <= r.restarted
  }

  /** How many of `uses` lie in [from, until). */
  function Count(uses: seq<Use>, from: int, until: int): nat {
    if uses == [] then 0
    else Count(uses[..|uses| - 1], from, until) + if from <= uses[|uses| - 1].at < until then 1 else 0
  }

  /** How many of `uses` belong to the window that began at `start`. */
  function CountWindow(uses: seq<Use>, start: int): nat {
    if uses == [] then 0
    else CountWindow(uses[..|uses| - 1], start) + if uses[|uses| - 1].window == start then 1 else 0
  }

  lemma {:induction false} CountSplits(uses: seq<Use>, k: nat, from: int, until: int)
    requires k <= |uses|
    ensures Count(uses, from, until) == Count(uses[..k], from, until) + Count(uses[k..], from, until)
  {
    if k < |uses| {
      var init := uses[..|uses| - 1];
      CountSplits(init, k, from, until);
      assert init[..k] == uses[..k];
      assert uses[k..][..|uses| - k - 1] == init[k..];
    } else {
      assert uses[..k] == uses;
    }
  }

  lemma {:induction false} CountAtMost(uses: seq<Use>, from: int, until: int)
    ensures Count(uses, from, until) <= |uses|
  {
    if uses != [] {
      CountAtMost(uses[..|uses| - 1], from, until);
    }
  }

  /** Fewer of the uses fall into an interval that admits fewer of them. */
  lemma {:induction false} CountWithin(uses: seq<Use>, from: int, until: int, from': int, until': int)
    requires forall i :: 0 <= i < |uses| && from' <= uses[i].at < until' ==> from <= uses[i].at < until
    ensures Count(uses, from', until') <= Count(uses, from, until)
  {
    if uses != [] {
      CountWithin(uses[..|uses| - 1], from, until, from', until');
    }
  }

  lemma {:induction false} CountAll(uses: seq<Use>, from: int, until: int)
    requires forall i :: 0 <= i < |uses| ==> from <= uses[i].at < until
    ensures Count(uses, from, until) == |uses|
  {
    if uses != [] {
      CountAll(uses[..|uses| - 1], from, until);
    }
  }

  lemma {:induction false} CountNone(uses: seq<Use>, from: int, until: int)
    requires forall i :: 0 <= i < |uses| ==> !(from <= uses[i].at < until)
    ensures Count(uses, from, until) == 0
  {
    if uses != [] {
      CountNone(uses[..|uses| - 1], from, until);
    }
  }

  /** The last `n` uses, and no others, belong to the window. */
  lemma {:induction false} CountLast(uses: seq<Use>, n: nat, start: int)
    requires n <= |uses|
    requires forall i :: 0 <= i < |uses| ==> (uses[i].window == start <==> |uses| - n <= i)
    ensures CountWindow(uses, start) == n
  {
    if uses != [] {
      CountLast(uses[..|uses| - 1], if n == 0 then 0 else n - 1, start);
    }
  }

  // ---------- what a run keeps, per key ----------

  /** Allowed requests in the half-open interval of one window that begins at `from`. */
  function InWindow(uses: seq<Use>, window: nat, from: int): nat {
    Count(uses, from, from + window)
  }

  ghost predicate NeverMore(limit: Limit, uses: seq<Use>) {
    forall from :: InWindow(uses, limit.window, from) <= 2 * limit.limit
  }

  ghost predicate InOrder(uses: seq<Use>, now: int) {
    && (forall i, j :: 0 <= i < j < |uses| ==> uses[i].at <= uses[j].at)
    && (forall i :: 0 <= i < |uses| ==> uses[i].at <= now)
  }

  ghost predicate OfCurrent(limit: Limit, b: Bucket, u: Use) {
    u.window == b.windowStart && (u.at < b.windowStart + limit.window || limit.window == 0)
  }

  ghost predicate OfEarlier(limit: Limit, b: Bucket, u: Use) {
    u.at <= b.windowStart && (u.window < b.windowStart || limit.window == 0)
  }

  /** The uses checked within the window length up to `at`. */
  function Reach(limit: Limit, uses: seq<Use>, at: int): nat {
    Count(uses, at - limit.window + 1, at + 1)
  }

  /** The last `count` uses are of the current window, the others of earlier
      ones, at most `limit` of them within reach of the first current one. */
  ghost predicate KeyOk(limit: Limit, b: Bucket, uses: seq<Use>, now: int) {
    && 0 < b.count <= |uses| && b.count <= limit.limit && b.windowStart <= now
    && InOrder(uses, now)
    && (forall i :: |uses| - b.count <= i < |uses| ==> OfCurrent(limit, b, uses[i]))
    && (forall i :: 0 <= i < |uses| - b.count ==> OfEarlier(limit, b, uses[i]))
    && Reach(limit, uses[..|uses| - b.count], uses[|uses| - b.count].at) <= limit.limit
    && NeverMore(limit, uses)
  }

  ghost predicate KeyInv(limit: Limit, s: State, key: string, now: int) {
    if key in s.buckets && limit.limit > 0 then KeyOk(limit, s.buckets[key], Allowed(s, key), now)
    else Allowed(s, key) == []
  }

  lemma KeyLater(limit: Limit, b: Bucket, uses: seq<Use>, now: int, later: int)
    requires KeyOk(limit, b, uses, now) && now <= later
    ensures KeyOk(limit, b, uses, later)
  {
  }

  /** The very first request of a key. */
  lemma FirstKeeps(limit: Limit, start: int, at: int, now: int, uses: seq<Use>)
    requires limit.limit > 0 && start <= now && at <= now && (at < start + limit.window || limit.window == 0)
    requires uses == [Use(at, start)]
    ensures KeyOk(limit, Bucket(start, 1), uses, now)
  {
    var b := Bucket(start, 1);
    assert InOrder(uses, now) && OfCurrent(limit, b, uses[0]);
    assert uses[..|uses| - b.count] == [];
    assert Reach(limit, uses[..|uses| - b.count], at) == 0;
    forall from
      ensures InWindow(uses, limit.window, from) <= 2 * limit.limit
    {
      CountAtMost(uses, from, from + limit.window);
    }
    assert NeverMore(limit, uses);
  }

  /** An interval that holds a new use of the current window holds at most what
      is in that, and what lies within reach before it. */
  lemma SameWindowBound(limit: Limit, b: Bucket, uses: seq<Use>, now: int, use: Use, from: int)
    requires KeyOk(limit, b, uses, now) && b.count < limit.limit && now <= use.at
    ensures InWindow(uses + [use], limit.window, from) <= 2 * limit.limit
  {
    var uses', k, until := uses + [use], |uses| - b.count, from + limit.window;
    if from <= use.at < until {
      CountSplits(uses', k, from, until);
      assert uses'[..k] == uses[..k];
      CountAtMost(uses'[k..], from, until);
      CountWithin(uses[..k], uses[k].at - limit.window + 1, uses[k].at + 1, from, until);
    } else {
      assert uses'[..|uses'| - 1] == uses;
      assert InWindow(uses, limit.window, from) <= 2 * limit.limit;
    }
  }

  /** One more request is allowed in the current window. */
  lemma SameWindowKeeps(limit: Limit, b: Bucket, uses: seq<Use>, now: int, at: int)
    requires KeyOk(limit, b, uses, now) && b.count < limit.limit && now <= at < b.windowStart + limit.window
    ensures KeyOk(limit, b.(count := b.count + 1), uses + [Use(at, b.windowStart)], at)
  {
    var use, k := Use(at, b.windowStart), |uses| - b.count;
    var uses' := uses + [use];
    assert uses'[..k] == uses[..k] && uses'[k] == uses[k];
    assert Reach(limit, uses'[..k], uses'[k].at) <= limit.limit;
    forall i | k <= i < |uses'|
      ensures OfCurrent(limit, b, uses'[i])
    {
      assert i < |uses| ==> uses'[i] == uses[i] && OfCurrent(limit, b, uses[i]);
    }
    forall from
      ensures InWindow(uses', limit.window, from) <= 2 * limit.limit
    {
      SameWindowBound(limit, b, uses, now, use, from);
    }
    assert NeverMore(limit, uses');
  }

  /** When a window restarts, what was current may be within reach, and nothing older is. */
  lemma RestartReach(limit: Limit, b: Bucket, uses: seq<Use>, now: int, at: int)
    requires KeyOk(limit, b, uses, now) && at - b.windowStart >= limit.window
    ensures Reach(limit, uses, at) <= limit.limit
  {
    var k := |uses| - b.count;
    CountSplits(uses, k, at - limit.window + 1, at + 1);
    CountAtMost(uses[k..], at - limit.window + 1, at + 1);
    forall i | 0 <= i < k
      ensures uses[..k][i].at < at - limit.window + 1
    {
      assert OfEarlier(limit, b, uses[i]);
    }
    CountNone(uses[..k], at - limit.window + 1, at + 1);
  }

  lemma RestartBound(limit: Limit, b: Bucket, uses: seq<Use>, now: int, use: Use, from: int)
    requires KeyOk(limit, b, uses, now) && now <= use.at && use.at - b.windowStart >= limit.window
    ensures InWindow(uses + [use], limit.window, from) <= 2 * limit.limit
  {
    var uses', until := uses + [use], from + limit.window;
    assert uses'[..|uses'| - 1] == uses;
    if from <= use.at < until {
      RestartReach(limit, b, uses, now, use.at);
      CountWithin(uses, use.at - limit.window + 1, use.at + 1, from, until);
    } else {
      assert InWindow(uses, limit.window, from) <= 2 * limit.limit;
    }
  }

  lemma RestartKeeps(limit: Limit, b: Bucket, uses: seq<Use>, now: int, at: int, start: int)
    requires KeyOk(limit, b, uses, now) && now <= at <= start && at - b.windowStart >= limit.window
    ensures KeyOk(limit, Bucket(start, 1), uses + [Use(at, start)], start)
  {
    var use, b' := Use(at, start), Bucket(start, 1);
    var uses' := uses + [use];
    assert uses'[..|uses|] == uses;
    RestartReach(limit, b, uses, now, at);
    forall i | 0 <= i < |uses|
      ensures OfEarlier(limit, b', uses'[i])
    {
      assert uses'[i] == uses[i] && uses[i].at <= now;
      assert OfCurrent(limit, b, uses[i]) || OfEarlier(limit, b, uses[i]);
    }
    forall from
      ensures InWindow(uses', limit.window, from) <= 2 * limit.limit
    {
      RestartBound(limit, b, uses, now, use, from);
    }
    assert NeverMore(limit, uses');
  }

  /** What a call under `key` makes of the bucket it meets and the uses so far. */
  ghost predicate Becomes(limit: Limit, met: Bucket, at: int, uses: seq<Use>, b': Bucket, uses': seq<Use>) {
    if met.count < limit.limit then
      b' == met.(count := met.count + 1) && uses' == uses + [Use(at, met.windowStart)]
    else
      b' == met && uses' == uses
  }

  /** What one arrival does to the bucket and the history of each key. */
  lemma HandleEffect(limit: Limit, s: State, a: Arrival, key: string)
    ensures var s', b := Handle(limit, s, a), Current(s.buckets, a.key, limit, a.readings);
            if key == a.key then
              && key in s'.buckets
              && Becomes(limit, b, a.readings.checked, Allowed(s, key), s'.buckets[key], Allowed(s', key))
            else
              && (key in s'.buckets <==> key in s.buckets) && Allowed(s', key) == Allowed(s, key)
              && (key in s.buckets ==> s'.buckets[key] == s.buckets[key])
  {
  }

  /** A call that finds bucket `b` leaves a good one, whether it is allowed or not. */
  lemma MeetKeeps(limit: Limit, b: Bucket, uses: seq<Use>, now: int, r: Readings, met: Bucket,
                  b': Bucket, uses': seq<Use>)
    requires KeyOk(limit, b, uses, now) && now <= r.made && InTurn(r)
    requires met == if r.checked - b.windowStart >= limit.window then Bucket(r.restarted, 0) else b
    requires Becomes(limit, met, r.checked, uses, b', uses')
    ensures KeyOk(limit, b', uses', r.restarted)
  {
    if r.checked - b.windowStart >= limit.window {
      RestartKeeps(limit, b, uses, now, r.checked, r.restarted);
    } else if b.count < limit.limit {
      SameWindowKeeps(limit, b, uses, now, r.checked);
      KeyLater(limit, b', uses', r.checked, r.restarted);
    } else {
      KeyLater(limit, b, uses, now, r.restarted);
    }
  }

  lemma OpenKeeps(limit: Limit, r: Readings, met: Bucket, b': Bucket, uses': seq<Use>)
    requires limit.limit > 0 && InTurn(r)
    requires met == Bucket(if r.checked - r.made >= limit.window then r.restarted else r.made, 0)
    requires Becomes(limit, met, r.checked, [], b', uses')
    ensures KeyOk(limit, b', uses', r.restarted)
  {
    assert uses' == [Use(r.checked, met.windowStart)];
    FirstKeeps(limit, met.windowStart, r.checked, r.restarted, uses');
  }

  lemma HandleKeeps(limit: Limit, s: State, now: int, a: Arrival)
    requires KeyInv(limit, s, a.key, now) && now <= a.readings.made && InTurn(a.readings)
    ensures KeyInv(limit, Handle(limit, s, a), a.key, a.readings.restarted)
  {
    var s', met := Handle(limit, s, a), Current(s.buckets, a.key, limit, a.readings);
    HandleEffect(limit, s, a, a.key);
    if limit.limit > 0 {
      if a.key in s.buckets {
        MeetKeeps(limit, s.buckets[a.key], Allowed(s, a.key), now, a.readings, met,
                  s'.buckets[a.key], Allowed(s', a.key));
      } else {
        OpenKeeps(limit, a.readings, met, s'.buckets[a.key], Allowed(s', a.key));
      }
    }
  }

  /** `now` is no earlier than any reading made under the key. */
  ghost predicate Since(arrivals: seq<Arrival>, key: string, now: int) {
    forall i :: 0 <= i < |arrivals| && arrivals[i].key == key ==> arrivals[i].readings.restarted <= now
  }

  lemma {:induction false} RunKeeps(limit: Limit, arrivals: seq<Arrival>, key: string, now: int)
    requires Ordered(arrivals) && Since(arrivals, key, now)
    ensures KeyInv(limit, Run(limit, arrivals), key, now)
  {
    if arrivals != [] {
      var init, a := arrivals[..|arrivals| - 1], arrivals[|arrivals| - 1];
      var s := Run(limit, init);
      if a.key == key {
        RunKeeps(limit, init, key, a.readings.made);
        HandleKeeps(limit, s, a.readings.made, a);
        var s' := Handle(limit, s, a);
        if key in s'.buckets && limit.limit > 0 {
          KeyLater(limit, s'.buckets[key], Allowed(s', key), a.readings.restarted, now);
        }
      } else {
        RunKeeps(limit, init, key, now);
        HandleEffect(limit, s, a, key);
      }
    }
  }

  /** The latest reading made under a key, if that is after 0. */
  function Latest(arrivals: seq<Arrival>, key: string): (now: int)
    ensures Since(arrivals, key, now)
  {
    if arrivals == [] then 0
    else
      var last, before := arrivals[|arrivals| - 1], Latest(arrivals[..|arrivals| - 1], key);
      if last.key == key && last.readings.restarted > before then last.readings.restarted else before
  }

  // ---------- how many are allowed ----------

  /** Any half-open interval as long as the window holds at most twice the
      limit of allowed requests under one key. */
  lemma AtMostTwiceTheLimit(limit: Limit, arrivals: seq<Arrival>, key: string, from: int)
    requires Ordered(arrivals)
    ensures Count(Allowed(Run(limit, arrivals), key), from, from + limit.window) <= 2 * limit.limit
  {
    var s := Run(limit, arrivals);
    RunKeeps(limit, arrivals, key, Latest(arrivals, key));
    if key in s.buckets && limit.limit > 0 {
      assert NeverMore(limit, Allowed(s, key));
      assert InWindow(Allowed(s, key), limit.window, from) <= 2 * limit.limit;
    }
  }

  /** A request is refused exactly when the current window, still running, has
      already seen the limit of allowed requests under its key; with an empty
      window, exactly when nothing is allowed at all. */
  lemma RefusedExactlyWhenSpent(limit: Limit, arrivals: seq<Arrival>, key: string, r: Readings)
    requires Ordered(arrivals) && InTurn(r) && Since(arrivals, key, r.made)
    ensures var s := Run(limit, arrivals);
            var start := Current(s.buckets, key, limit, r).windowStart;
            var refused := !AllowStep(s.buckets, key, limit, r).1;
            if limit.window == 0 then
              refused <==> limit.limit == 0
            else
              && r.checked < start + limit.window
              && (refused <==> CountWindow(Allowed(s, key), start) >= limit.limit)
  {
    var s := Run(limit, arrivals);
    RunKeeps(limit, arrivals, key, r.made);
    if limit.window > 0 && limit.limit > 0 {
      CurrentIsCounted(limit, s, key, r);
    }
  }

  lemma CurrentIsCounted(limit: Limit, s: State, key: string, r: Readings)
    requires KeyInv(limit, s, key, r.made) && InTurn(r) && limit.window > 0 && limit.limit > 0
    ensures var b := Current(s.buckets, key, limit, r); CountWindow(Allowed(s, key), b.windowStart) == b.count
  {
    var b, uses := Current(s.buckets, key, limit, r), Allowed(s, key);
    if key in s.buckets {
      var stored := s.buckets[key];
      forall i | 0 <= i < |uses|
        ensures uses[i].window == b.windowStart <==> |uses| - b.count <= i
      {
        assert OfCurrent(limit, stored, uses[i]) || OfEarlier(limit, stored, uses[i]);
      }
      CountLast(uses, b.count, b.windowStart);
    }
  }

  /** The window a call falls into runs on while it has not elapsed, and
      otherwise begins at the reading that makes or restarts the bucket. */
  lemma WindowBegins(limit: Limit, buckets: Buckets, key: string, r: Readings)
    ensures var b, known := Current(buckets, key, limit, r), key in buckets;
            var began := if known then buckets[key].windowStart else r.made;
            && (r.checked < began + limit.window ==>
                  b.windowStart == began && b.count == if known then buckets[key].count else 0)
            && (r.checked >= began + limit.window ==> b == Bucket(r.restarted, 0))
  {
  }

  // ---------- the bound is met ----------

  /** All of a call's readings at one moment. */
  function At(key: string, now: int): Arrival {
    Arrival(key, Readings(now, now, now))
  }

  function Repeat(key: string, now: int, n: nat): seq<Arrival> {
    seq(n, _ => At(key, now))
  }

  function Uses(now: int, start: int, n: nat): seq<Use> {
    seq(n, _ => Use(now, start))
  }

  function HandleMany(limit: Limit, s: State, key: string, now: int, n: nat): State {
    if n == 0 then s else Handle(limit, HandleMany(limit, s, key, now, n - 1), At(key, now))
  }

  lemma RunExtends(limit: Limit, before: seq<Arrival>, a: Arrival)
    ensures Run(limit, before + [a]) == Handle(limit, Run(limit, before), a)
  {
    assert (before + [a])[..|before|] == before;
  }

  lemma RepeatExtends(before: seq<Arrival>, key: string, now: int, n: nat)
    requires n > 0
    ensures before + Repeat(key, now, n) == (before + Repeat(key, now, n - 1)) + [At(key, now)]
  {
  }

  lemma {:induction false} RunRepeat(limit: Limit, before: seq<Arrival>, key: string, now: int, n: nat)
    ensures Run(limit, before + Repeat(key, now, n)) == HandleMany(limit, Run(limit, before), key, now, n)
  {
    if n == 0 {
      assert before + Repeat(key, now, n) == before;
    } else {
      RunRepeat(limit, before, key, now, n - 1);
      RepeatExtends(before, key, now, n);
      RunExtends(limit, before + Repeat(key, now, n - 1), At(key, now));
    }
  }

  lemma OneMore(limit: Limit, s: State, key: string, now: int, b: Bucket)
    requires limit.window > 0 && b == Current(s.buckets, key, limit, At(key, now).readings) && b.count < limit.limit
    ensures var s' := Handle(limit, s, At(key, now));
            && key in s'.buckets && s'.buckets[key] == Bucket(b.windowStart, b.count + 1)
            && Current(s'.buckets, key, limit, At(key, now).readings) == Bucket(b.windowStart, b.count + 1)
            && Allowed(s', key) == Allowed(s, key) + [Use(now, b.windowStart)]
  {
    HandleEffect(limit, s, At(key, now), key);
  }

  lemma UsesExtend(before: seq<Use>, now: int, start: int, n: nat)
    requires n > 0
    ensures before + Uses(now, start, n) == (before + Uses(now, start, n - 1)) + [Use(now, start)]
  {
  }

  /** As many requests at one moment as the current window has room for are all allowed. */
  lemma {:induction false} ManyAllowed(limit: Limit, s: State, key: string, now: int, n: nat, b: Bucket)
    requires limit.window > 0 && b == Current(s.buckets, key, limit, At(key, now).readings)
    requires b.count + n <= limit.limit
    ensures var s' := HandleMany(limit, s, key, now, n);
            && Current(s'.buckets, key, limit, At(key, now).readings) == Bucket(b.windowStart, b.count + n)
            && (n > 0 ==> key in s'.buckets && s'.buckets[key] == Bucket(b.windowStart, b.count + n))
            && Allowed(s', key) == Allowed(s, key) + Uses(now, b.windowStart, n)
  {
    if n > 0 {
      ManyAllowed(limit, s, key, now, n - 1, b);
      OneMore(limit, HandleMany(limit, s, key, now, n - 1), key, now, Bucket(b.windowStart, b.count + n - 1));
      UsesExtend(Allowed(s, key), now, b.windowStart, n);
    }
  }

  lemma RepeatAllowed(limit: Limit, before: seq<Arrival>, key: string, now: int, n: nat, b: Bucket)
    requires limit.window > 0 && b == Current(Run(limit, before).buckets, key, limit, At(key, now).readings)
    requires b.count + n <= limit.limit
    ensures var s' := Run(limit, before + Repeat(key, now, n));
            && Allowed(s', key) == Allowed(Run(limit, before), key) + Uses(now, b.windowStart, n)
            && (n > 0 ==> key in s'.buckets && s'.buckets[key] == Bucket(b.windowStart, b.count + n))
            && (n == 0 ==> s' == Run(limit, before))
  {
    RunRepeat(limit, before, key, now, n);
    ManyAllowed(limit, Run(limit, before), key, now, n, b);
  }

  /** A bucket made at 0 by a call that checks it a tick later, and the rest of the limit right after. */
  function FirstBurst(limit: Limit, key: string): seq<Arrival>
    requires limit.limit > 0
  {
    [Arrival(key, Readings(0, 1, 1))] + Repeat(key, 1, limit.limit - 1)
  }

  /** Then the whole limit, as soon as the window can restart. */
  function Burst(limit: Limit, key: string): seq<Arrival>
    requires limit.limit > 0
  {
    FirstBurst(limit, key) + Repeat(key, limit.window, limit.limit)
  }

  lemma OneAllowed(limit: Limit, key: string)
    requires limit.limit > 0 && limit.window > 1
    ensures var s := Run(limit, [Arrival(key, Readings(0, 1, 1))]);
            key in s.buckets && s.buckets[key] == Bucket(0, 1) && Allowed(s, key) == Uses(1, 0, 1)
  {
    var a := Arrival(key, Readings(0, 1, 1));
    assert [a][..0] == [];
    HandleEffect(limit, START, a, key);
    assert [] + [Use(1, 0)] == Uses(1, 0, 1);
  }

  lemma FirstBurstAllowed(limit: Limit, key: string)
    requires limit.limit > 0 && limit.window > 1
    ensures var s := Run(limit, FirstBurst(limit, key));
            && key in s.buckets && s.buckets[key] == Bucket(0, limit.limit)
            && Allowed(s, key) == Uses(1, 0, limit.limit)
  {
    OneAllowed(limit, key);
    RepeatAllowed(limit, [Arrival(key, Readings(0, 1, 1))], key, 1, limit.limit - 1, Bucket(0, 1));
    assert Uses(1, 0, 1) + Uses(1, 0, limit.limit - 1) == Uses(1, 0, limit.limit);
  }

  lemma BurstAllowed(limit: Limit, key: string)
    requires limit.limit > 0 && limit.window > 1
    ensures Allowed(Run(limit, Burst(limit, key)), key)
         == Uses(1, 0, limit.limit) + Uses(limit.window, limit.window, limit.limit)
  {
    FirstBurstAllowed(limit, key);
    RepeatAllowed(limit, FirstBurst(limit, key), key, limit.window, limit.limit, Bucket(limit.window, 0));
  }

  lemma BurstOrdered(limit: Limit, key: string)
    requires limit.limit > 0 && limit.window > 1
    ensures Ordered(Burst(limit, key))
  {
    var arrivals := Burst(limit, key);
    forall i | 0 <= i < |arrivals|
      ensures arrivals[i] == if i == 0 then Arrival(key, Readings(0, 1, 1))
                             else if i < limit.limit then At(key, 1) else At(key, limit.window)
    {
    }
  }

  /** Some run has twice the limit in one interval of the window's length. */
  lemma TwiceTheLimitReached(limit: Limit, key: string) returns (arrivals: seq<Arrival>)
    requires limit.window > 1
    ensures Ordered(arrivals)
    ensures Count(Allowed(Run(limit, arrivals), key), 1, 1 + limit.window) == 2 * limit.limit
  {
    if limit.limit == 0 {
      arrivals := [];
    } else {
      arrivals := Burst(limit, key);
      BurstOrdered(limit, key);
      BurstAllowed(limit, key);
      CountAll(Uses(1, 0, limit.limit) + Uses(limit.window, limit.window, limit.limit), 1, 1 + limit.window);
    }
  }
}
