/** The limiters of the authentication endpoints: the Redis counter, the in-memory sliding log it
    falls back to, and the two together under outages (backend/app/app.py). Both read one clock. */
module RateLimits {

  datatype Call = Call(key: string, now: real)

  ghost predicate Ordered(calls: seq<Call>) {
    forall i, j :: 0 <= i < j < |calls| ==> calls[i].now <= calls[j].now
  }

  ghost predicate NotAfter(calls: seq<Call>, now: real) {
    forall i :: 0 <= i < |calls| ==> calls[i].now <= now
  }

  // ---- the sliding log ---------------------------------------------------------------

  type Logs = map<string, seq<real>>

  function Push<T>(ts: seq<T>, wanted: bool, t: T): seq<T> {
    if wanted then ts + [t] else ts
  }

  function Get(logs: Logs, key: string): seq<real> { if key in logs then logs[key] else [] }

  /** The timestamps still inside the window. */
  function Recent(ts: seq<real>, now: real, window: real): seq<real> {
    if ts == [] then [] else Push(Recent(ts[..|ts| - 1], now, window), now - ts[|ts| - 1] < window, ts[|ts| - 1])
  }

  function MemoryStep(logs: Logs, call: Call, max: nat, window: real): (Logs, bool) {
    var ts := Recent(Get(logs, call.key), call.now, window);
    var pruned := if ts == [] then logs - {call.key} else logs[call.key := ts];
    if |ts| >= max then (pruned, false) else (pruned[call.key := ts + [call.now]], true)
  }

  // ---- the Redis counter --------------------------------------------------------------

  /** A counter and the time it expires. */
  datatype Counter = Counter(count: nat, expires: real)

  type Counters = map<string, Counter>

  function LiveCount(counters: Counters, key: string, now: real): nat {
    if key in counters && now < counters[key].expires then counters[key].count else 0
  }

  /** INCR and EXPIRE in one transaction: every request counts and renews the expiry. */
  function Increment(counters: Counters, call: Call, window: real): Counters {
    counters[call.key := Counter(LiveCount(counters, call.key, call.now) + 1, call.now + window)]
  }

  function RedisStep(counters: Counters, call: Call, max: nat, window: real): (Counters, bool) {
    (Increment(counters, call, window), LiveCount(counters, call.key, call.now) + 1 <= max)
  }

  // ---- the two together -----------------------------------------------------------------

  /** A request meets Redis up, or down with its increment carried out or not. */
  datatype Redis = Up | Down(counted: bool)

  datatype Request = Request(call: Call, redis: Redis)

  function LimitStep(logs: Logs, counters: Counters, r: Request, max: nat, window: real): (Logs, Counters, bool) {
    match r.redis
    case Up =>
      var (counters', ok) := RedisStep(counters, r.call, max, window);
      (logs, counters', ok)
    case Down(counted) =>
      var (logs', ok) := MemoryStep(logs, r.call, max, window);
      (logs', if counted then Increment(counters, r.call, window) else counters, ok)
  }

  class AuthLimiter {
    var logs: Logs
    var counters: Counters

    constructor ()
      ensures logs == map[] && counters == map[]
    {
      logs, counters := map[], map[];
    }

    method CheckMemory(key: string, max: nat, window: real, now: real) returns (ok: bool)
      modifies `logs
      ensures (logs, ok) == MemoryStep(old(logs), Call(key, now), max, window)
    {
      var timestamps := Recent(Get(logs, key), now, window);
      if |timestamps| == 0 {
        logs := logs - {key};
      } else {
        logs := logs[key := timestamps];
      }
      if |timestamps| >= max {
        return false;
      }
      logs := logs[key := timestamps + [now]];
      return true;
    }

    /** One request; `redis` says how its pipeline fares. */
    method Check(key: string, max: nat, window: real, now: real, redis: Redis) returns (ok: bool)
      modifies this
      ensures (logs, counters, ok) == LimitStep(old(logs), old(counters), Request(Call(key, now), redis), max, window)
    {
      if redis == Up || redis.counted {
        counters := Increment(counters, Call(key, now), window);
      }
      if redis.Down? {
        ok := CheckMemory(key, max, window, now);
        return;
      }
      return counters[key].count <= max;
    }
  }

  // ---- runs of the sliding log --------------------------------------------------------

  function MemoryLogs(calls: seq<Call>, max: nat, window: real): Logs {
    if calls == [] then map[]
    else MemoryStep(MemoryLogs(calls[..|calls| - 1], max, window), calls[|calls| - 1], max, window).0
  }

  /** The log accepts the last of the calls. */
  function MemoryAccepts(calls: seq<Call>, max: nat, window: real): bool
    requires calls != []
  {
    MemoryStep(MemoryLogs(calls[..|calls| - 1], max, window), calls[|calls| - 1], max, window).1
  }

  /** The times of the accepted calls of one key. */
  function Accepted(calls: seq<Call>, max: nat, window: real, key: string): seq<real> {
    if calls == [] then []
    else
      Push(Accepted(calls[..|calls| - 1], max, window, key),
           calls[|calls| - 1].key == key && MemoryAccepts(calls, max, window), calls[|calls| - 1].now)
  }

  /** How many of the times lie in the half-open interval. */
  function CountIn(ts: seq<real>, from: real, to: real): nat {
    if ts == [] then 0 else CountIn(ts[..|ts| - 1], from, to) + if from <= ts[|ts| - 1] < to then 1 else 0
  }

  lemma {:induction false} RecentAppend(ts: seq<real>, t: real, now: real, window: real)
    ensures Recent(ts + [t], now, window) == Push(Recent(ts, now, window), now - t < window, t)
  {
    assert (ts + [t])[..|ts|] == ts;
  }

  lemma {:induction false} CountAppend(ts: seq<real>, t: real, from: real, to: real)
    ensures CountIn(ts + [t], from, to) == CountIn(ts, from, to) + if from <= t < to then 1 else 0
  {
    assert (ts + [t])[..|ts|] == ts;
  }

  /** Pruning earlier does not change what is recent later. */
  lemma {:induction false} RecentTwice(ts: seq<real>, earlier: real, now: real, window: real)
    requires earlier <= now
    ensures Recent(Recent(ts, earlier, window), now, window) == Recent(ts, now, window)
    ensures |Recent(ts, now, window)| <= |Recent(ts, earlier, window)|
  {
    if ts != [] {
      var init, t := ts[..|ts| - 1], ts[|ts| - 1];
      RecentTwice(init, earlier, now, window);
      if earlier - t < window {
        RecentAppend(Recent(init, earlier, window), t, now, window);
      }
    }
  }

  /** Everything in an interval no longer than the window that reaches up to `now` is recent. */
  lemma {:induction false} CountIsRecent(ts: seq<real>, from: real, now: real, window: real)
    requires from <= now < from + window
    ensures CountIn(ts, from, from + window) <= |Recent(ts, now, window)|
  {
    if ts != [] {
      CountIsRecent(ts[..|ts| - 1], from, now, window);
    }
  }

  lemma OrderedInit(calls: seq<Call>)
    requires calls != [] && Ordered(calls)
    ensures Ordered(calls[..|calls| - 1]) && NotAfter(calls[..|calls| - 1], calls[|calls| - 1].now)
  {
    assert forall i :: 0 <= i < |calls| - 1 ==> calls[..|calls| - 1][i] == calls[i];
  }

  /** For any time since the last call, the stored log holds exactly the accepted calls that are
      still inside the window; it never holds more than the allowed number. */
  lemma {:induction false} LogIsRecentAccepts(calls: seq<Call>, max: nat, window: real, key: string, now: real)
    requires Ordered(calls) && NotAfter(calls, now)
    ensures Recent(Get(MemoryLogs(calls, max, window), key), now, window)
        == Recent(Accepted(calls, max, window, key), now, window)
    ensures |Get(MemoryLogs(calls, max, window), key)| <= max
  {
    if calls != [] {
      var n := |calls| - 1;
      var last := calls[n];
      OrderedInit(calls);
      LogIsRecentAccepts(calls[..n], max, window, key, now);
      if last.key == key {
        var stored := Get(MemoryLogs(calls[..n], max, window), key);
        RecentTwice(stored, last.now, now, window);
        RecentShorter(stored, last.now, window);
        RecentAppend(Recent(stored, last.now, window), last.now, now, window);
        RecentAppend(Accepted(calls[..n], max, window, key), last.now, now, window);
      }
    }
  }

  lemma {:induction false} RecentShorter(ts: seq<real>, now: real, window: real)
    ensures |Recent(ts, now, window)| <= |ts|
  {
    if ts != [] {
      RecentShorter(ts[..|ts| - 1], now, window);
    }
  }

  /** Just after an accepted call the stored log is exactly the accepted calls inside the window. */
  lemma {:induction false} StoredAfterAccept(calls: seq<Call>, max: nat, window: real)
    requires calls != [] && Ordered(calls) && window > 0.0 && MemoryAccepts(calls, max, window)
    ensures var last := calls[|calls| - 1];
            Get(MemoryLogs(calls, max, window), last.key)
                == Recent(Accepted(calls, max, window, last.key), last.now, window)
  {
    var n := |calls| - 1;
    OrderedInit(calls);
    LogIsRecentAccepts(calls[..n], max, window, calls[n].key, calls[n].now);
    RecentAppend(Accepted(calls[..n], max, window, calls[n].key), calls[n].now, calls[n].now, window);
  }

  /** After any call, accepted or not, the stored log is the accepted calls inside the window, and a key without any is
      not stored at all. */
  lemma {:induction false} StoredAfterCall(calls: seq<Call>, max: nat, window: real)
    requires calls != [] && Ordered(calls) && window > 0.0
    ensures var last, logs := calls[|calls| - 1], MemoryLogs(calls, max, window);
            && Get(logs, last.key) == Recent(Accepted(calls, max, window, last.key), last.now, window)
            && (last.key in logs <==> Get(logs, last.key) != [])
  {
    var n := |calls| - 1;
    OrderedInit(calls);
    LogIsRecentAccepts(calls[..n], max, window, calls[n].key, calls[n].now);
    if MemoryAccepts(calls, max, window) {
      StoredAfterAccept(calls, max, window);
    }
  }

  /** The sliding-window bound: no interval as long as the window contains more accepted calls of one
      key than allowed. */
  lemma {:induction false} SlidingWindowBound(calls: seq<Call>, max: nat, window: real, key: string, from: real)
    requires Ordered(calls)
    ensures CountIn(Accepted(calls, max, window, key), from, from + window) <= max
  {
    if calls != [] {
      var n := |calls| - 1;
      var last := calls[n];
      OrderedInit(calls);
      SlidingWindowBound(calls[..n], max, window, key, from);
      if last.key == key && MemoryAccepts(calls, max, window) {
        var before := Accepted(calls[..n], max, window, key);
        CountAppend(before, last.now, from, from + window);
        if from <= last.now < from + window {
          CountIsRecent(before, from, last.now, window);
          LogIsRecentAccepts(calls[..n], max, window, key, last.now);
        }
      }
    }
  }

  // ---- runs of the counter ------------------------------------------------------------

  function RedisCounters(calls: seq<Call>, window: real): Counters {
    if calls == [] then map[] else Increment(RedisCounters(calls[..|calls| - 1], window), calls[|calls| - 1], window)
  }

  function RedisAccepts(calls: seq<Call>, max: nat, window: real): bool
    requires calls != []
  {
    RedisStep(RedisCounters(calls[..|calls| - 1], window), calls[|calls| - 1], max, window).1
  }

  /** The number of calls of the key in its current burst: going back from `now`, as long as each
      call is less than a window before the next. */
  function Burst(calls: seq<Call>, window: real, key: string, now: real): nat {
    if calls == [] then 0
    else
      var init, last := calls[..|calls| - 1], calls[|calls| - 1];
      if last.key != key then Burst(init, window, key, now)
      else if now - last.now < window then 1 + Burst(init, window, key, last.now)
      else 0
  }

  /** The counter counts the current burst, since every request renews the expiry. */
  lemma {:induction false} CounterIsBurst(calls: seq<Call>, window: real, key: string, now: real)
    ensures LiveCount(RedisCounters(calls, window), key, now) == Burst(calls, window, key, now)
  {
    if calls != [] {
      var n := |calls| - 1;
      CounterIsBurst(calls[..n], window, key, now);
      CounterIsBurst(calls[..n], window, calls[n].key, calls[n].now);
    }
  }

  function Times(calls: seq<Call>, key: string): seq<real> {
    if calls == [] then []
    else Push(Times(calls[..|calls| - 1], key), calls[|calls| - 1].key == key, calls[|calls| - 1].now)
  }

  lemma {:induction false} OldTimesAreNotRecent(calls: seq<Call>, window: real, key: string, now: real)
    requires forall i :: 0 <= i < |calls| ==> now - calls[i].now >= window
    ensures Recent(Times(calls, key), now, window) == []
  {
    if calls != [] {
      var n := |calls| - 1;
      assert forall i :: 0 <= i < n ==> calls[..n][i] == calls[i];
      OldTimesAreNotRecent(calls[..n], window, key, now);
      if calls[n].key == key {
        RecentAppend(Times(calls[..n], key), calls[n].now, now, window);
      }
    }
  }

  /** Every recent call of the key is in its current burst. */
  lemma {:induction false} RecentCallsAreInBurst(calls: seq<Call>, window: real, key: string, now: real)
    requires Ordered(calls) && NotAfter(calls, now)
    ensures |Recent(Times(calls, key), now, window)| <= Burst(calls, window, key, now)
  {
    if calls != [] {
      var n := |calls| - 1;
      var last := calls[n];
      OrderedInit(calls);
      if last.key != key {
        RecentCallsAreInBurst(calls[..n], window, key, now);
      } else if now - last.now < window {
        RecentCallsAreInBurst(calls[..n], window, key, last.now);
        RecentTwice(Times(calls[..n], key), last.now, now, window);
        RecentAppend(Times(calls[..n], key), last.now, now, window);
      } else {
        OldTimesAreNotRecent(calls, window, key, now);
      }
    }
  }

  // ---- the counter is stricter than the log -----------------------------------------------

  /** Recent accepted calls are recent calls. */
  lemma {:induction false} AcceptedAreCalls(calls: seq<Call>, max: nat, window: real, key: string, now: real)
    ensures |Recent(Accepted(calls, max, window, key), now, window)| <= |Recent(Times(calls, key), now, window)|
  {
    if calls != [] {
      var n := |calls| - 1;
      AcceptedAreCalls(calls[..n], max, window, key, now);
      if calls[n].key == key {
        RecentAppend(Accepted(calls[..n], max, window, key), calls[n].now, now, window);
        RecentAppend(Times(calls[..n], key), calls[n].now, now, window);
      }
    }
  }

  /** On the same stream of calls the counter accepts a call only if the sliding log does. */
  lemma RedisImpliesMemory(calls: seq<Call>, max: nat, window: real)
    requires calls != [] && Ordered(calls) && RedisAccepts(calls, max, window)
    ensures MemoryAccepts(calls, max, window)
  {
    var n := |calls| - 1;
    var last := calls[n];
    OrderedInit(calls);
    CounterIsBurst(calls[..n], window, last.key, last.now);
    RecentCallsAreInBurst(calls[..n], window, last.key, last.now);
    AcceptedAreCalls(calls[..n], max, window, last.key, last.now);
    LogIsRecentAccepts(calls[..n], max, window, last.key, last.now);
  }

  /** The counter accepts a call exactly when the burst it extends has at most `max` calls with it,
      however many of them were rejected. */
  lemma {:induction false} RedisAcceptsIff(calls: seq<Call>, max: nat, window: real)
    requires calls != []
    ensures var last := calls[|calls| - 1];
            RedisAccepts(calls, max, window) <==> Burst(calls[..|calls| - 1], window, last.key, last.now) < max
  {
    CounterIsBurst(calls[..|calls| - 1], window, calls[|calls| - 1].key, calls[|calls| - 1].now);
  }

  /** Calls of one key that follow each other within the window are all one burst. */
  lemma {:induction false} SteadyCallsStayInBurst(calls: seq<Call>, window: real, key: string, now: real)
    requires forall i :: 0 <= i < |calls| ==> calls[i].key == key
    requires forall i :: 0 < i < |calls| ==> calls[i].now - calls[i - 1].now < window
    requires calls != [] ==> now - calls[|calls| - 1].now < window
    ensures Burst(calls, window, key, now) == |calls|
  {
    if calls != [] {
      var n := |calls| - 1;
      SteadyCallsStayInBurst(calls[..n], window, key, calls[n].now);
    }
  }

  /** So a client that keeps asking more often than once per window is never accepted again by the counter
      after its first `max` calls. */
  lemma SteadyClientIsLockedOut(calls: seq<Call>, max: nat, window: real)
    requires forall i :: 0 < i < |calls| ==> calls[i].key == calls[0].key && calls[i].now - calls[i - 1].now < window
    requires |calls| > max
    ensures !RedisAccepts(calls, max, window)
  {
    var n := |calls| - 1;
    SteadyCallsStayInBurst(calls[..n], window, calls[0].key, calls[n].now);
    RedisAcceptsIff(calls, max, window);
  }

  /** The log would accept such a client once its earlier calls have left the window. */
  lemma CounterIsStricter()
    ensures var calls := [Call("k", 0.0), Call("k", 6.0), Call("k", 12.0)];
            !RedisAccepts(calls, 1, 10.0) && MemoryAccepts(calls, 1, 10.0)
  {
    var calls := [Call("k", 0.0), Call("k", 6.0), Call("k", 12.0)];
    assert calls[..2] == [Call("k", 0.0), Call("k", 6.0)];
    assert calls[..2][..1] == [Call("k", 0.0)] && calls[..2][..1][..0] == [];
    SteadyCallsStayInBurst(calls[..2], 10.0, "k", 12.0);
    RedisAcceptsIff(calls, 1, 10.0);
    var empty: seq<real> := [];
    assert Recent(empty, 0.0, 10.0) == empty && empty + [0.0] == [0.0] && [0.0][..0] == empty;
    assert Get(MemoryLogs(calls[..2][..1], 1, 10.0), "k") == [0.0];
    assert Recent([0.0], 6.0, 10.0) == [0.0];
    assert Get(MemoryLogs(calls[..2], 1, 10.0), "k") == [0.0];
    assert Recent([0.0], 12.0, 10.0) == [];
  }

  // ---- outages ----------------------------------------------------------------------------

  function Limiter(rs: seq<Request>, max: nat, window: real): (Logs, Counters, bool) {
    if rs == [] then (map[], map[], true)
    else
      var s := Limiter(rs[..|rs| - 1], max, window);
      LimitStep(s.0, s.1, rs[|rs| - 1], max, window)
  }

  /** The calls the log decided, and those the counter counted. */
  function Fallbacks(rs: seq<Request>): seq<Call> {
    if rs == [] then []
    else Push(Fallbacks(rs[..|rs| - 1]), rs[|rs| - 1].redis.Down?, rs[|rs| - 1].call)
  }

  function Counted(rs: seq<Request>): seq<Call> {
    if rs == [] then []
    else Push(Counted(rs[..|rs| - 1]), rs[|rs| - 1].redis != Down(false), rs[|rs| - 1].call)
  }

  lemma {:induction false} LimiterProjects(rs: seq<Request>, max: nat, window: real)
    ensures Limiter(rs, max, window).0 == MemoryLogs(Fallbacks(rs), max, window)
    ensures Limiter(rs, max, window).1 == RedisCounters(Counted(rs), window)
  {
    if rs != [] {
      var n := |rs| - 1;
      LimiterProjects(rs[..n], max, window);
      MemoryLogsAppend(Fallbacks(rs[..n]), rs[n].call, max, window);
      RedisCountersAppend(Counted(rs[..n]), rs[n].call, window);
    }
  }

  lemma {:induction false} MemoryLogsAppend(calls: seq<Call>, call: Call, max: nat, window: real)
    ensures MemoryLogs(calls + [call], max, window) == MemoryStep(MemoryLogs(calls, max, window), call, max, window).0
  {
    assert (calls + [call])[..|calls|] == calls;
  }

  lemma {:induction false} RedisCountersAppend(calls: seq<Call>, call: Call, window: real)
    ensures RedisCounters(calls + [call], window) == Increment(RedisCounters(calls, window), call, window)
  {
    assert (calls + [call])[..|calls|] == calls;
  }

  /** The times of one key's requests accepted by the counter, or by the log. */
  function AcceptedBy(rs: seq<Request>, max: nat, window: real, key: string, up: bool): seq<real> {
    if rs == [] then []
    else
      var r := rs[|rs| - 1];
      Push(AcceptedBy(rs[..|rs| - 1], max, window, key, up),
           r.call.key == key && r.redis.Up? == up && Limiter(rs, max, window).2, r.call.now)
  }

  function AcceptedInAll(rs: seq<Request>, max: nat, window: real, key: string): seq<real> {
    if rs == [] then []
    else
      Push(AcceptedInAll(rs[..|rs| - 1], max, window, key),
           rs[|rs| - 1].call.key == key && Limiter(rs, max, window).2, rs[|rs| - 1].call.now)
  }

  ghost predicate OrderedRequests(rs: seq<Request>) {
    forall i, j :: 0 <= i < j < |rs| ==> rs[i].call.now <= rs[j].call.now
  }

  lemma OrderedPush(calls: seq<Call>, wanted: bool, call: Call)
    requires Ordered(calls) && NotAfter(calls, call.now)
    ensures Ordered(Push(calls, wanted, call)) && NotAfter(Push(calls, wanted, call), call.now)
  {}

  lemma NotAfterLater(calls: seq<Call>, now: real, later: real)
    requires NotAfter(calls, now) && now <= later
    ensures NotAfter(calls, later)
  {}

  lemma {:induction false} ProjectionsOrdered(rs: seq<Request>, now: real)
    requires OrderedRequests(rs) && (rs != [] ==> rs[|rs| - 1].call.now <= now)
    ensures Ordered(Fallbacks(rs)) && Ordered(Counted(rs)) && NotAfter(Fallbacks(rs), now) && NotAfter(Counted(rs), now)
  {
    if rs != [] {
      var n := |rs| - 1;
      var r := rs[n];
      assert forall i :: 0 <= i < n ==> rs[..n][i] == rs[i];
      ProjectionsOrdered(rs[..n], r.call.now);
      OrderedPush(Fallbacks(rs[..n]), r.redis.Down?, r.call);
      OrderedPush(Counted(rs[..n]), r.redis != Down(false), r.call);
      NotAfterLater(Fallbacks(rs), r.call.now, now);
      NotAfterLater(Counted(rs), r.call.now, now);
    }
  }

  lemma {:induction false} LogAccepts(rs: seq<Request>, max: nat, window: real, key: string)
    ensures AcceptedBy(rs, max, window, key, false) == Accepted(Fallbacks(rs), max, window, key)
  {
    if rs != [] {
      var n := |rs| - 1;
      LogAccepts(rs[..n], max, window, key);
      LimiterProjects(rs[..n], max, window);
      var before := Fallbacks(rs[..n]);
      if rs[n].redis.Down? {
        assert (before + [rs[n].call])[..|before|] == before;
      }
    }
  }

  lemma {:induction false} TimesAppend(calls: seq<Call>, call: Call, key: string)
    ensures Times(calls + [call], key) == Push(Times(calls, key), call.key == key, call.now)
  {
    assert (calls + [call])[..|calls|] == calls;
  }

  lemma {:induction false} CounterAcceptsAreCounted(rs: seq<Request>, max: nat, window: real, key: string, now: real)
    ensures |Recent(AcceptedBy(rs, max, window, key, true), now, window)| <= |Recent(Times(Counted(rs), key),
        now, window)|
  {
    if rs != [] {
      var n := |rs| - 1;
      var r, init := rs[n], rs[..n];
      CounterAcceptsAreCounted(init, max, window, key, now);
      RecentAppend(AcceptedBy(init, max, window, key, true), r.call.now, now, window);
      TimesAppend(Counted(init), r.call, key);
      RecentAppend(Times(Counted(init), key), r.call.now, now, window);
    }
  }

  /** Whatever Redis does, no interval as long as the window contains more than `max` requests of a
      key that the counter accepted. */
  lemma {:induction false} CounterWindowBound(rs: seq<Request>, max: nat, window: real, key: string, from: real)
    requires OrderedRequests(rs)
    ensures CountIn(AcceptedBy(rs, max, window, key, true), from, from + window) <= max
  {
    if rs != [] {
      var n := |rs| - 1;
      var r, init := rs[n], rs[..n];
      assert forall i :: 0 <= i < n ==> init[i] == rs[i];
      CounterWindowBound(init, max, window, key, from);
      var before := AcceptedBy(init, max, window, key, true);
      if r.call.key == key && r.redis.Up? && Limiter(rs, max, window).2 {
        CountAppend(before, r.call.now, from, from + window);
        if from <= r.call.now < from + window {
          LimiterProjects(init, max, window);
          ProjectionsOrdered(init, r.call.now);
          CounterIsBurst(Counted(init), window, key, r.call.now);
          RecentCallsAreInBurst(Counted(init), window, key, r.call.now);
          CounterAcceptsAreCounted(init, max, window, key, r.call.now);
          CountIsRecent(before, from, r.call.now, window);
        }
      }
    }
  }

  lemma {:induction false} AcceptedSplits(rs: seq<Request>, max: nat, window: real, key: string, from: real, to: real)
    ensures CountIn(AcceptedInAll(rs, max, window, key), from, to)
            == CountIn(AcceptedBy(rs, max, window, key, true), from, to)
                + CountIn(AcceptedBy(rs, max, window, key, false), from, to)
  {
    if rs != [] {
      var n := |rs| - 1;
      var r, init := rs[n], rs[..n];
      AcceptedSplits(init, max, window, key, from, to);
      var all, up, down := AcceptedInAll(init, max, window, key), AcceptedBy(init, max, window, key, true),
          AcceptedBy(init, max, window, key, false);
      CountAppend(all, r.call.now, from, to);
      CountAppend(up, r.call.now, from, to);
      CountAppend(down, r.call.now, from, to);
    }
  }

  lemma LogWindowBound(rs: seq<Request>, max: nat, window: real, key: string, from: real)
    requires OrderedRequests(rs)
    ensures CountIn(AcceptedBy(rs, max, window, key, false), from, from + window) <= max
  {
    LogAccepts(rs, max, window, key);
    ProjectionsOrdered(rs, if rs == [] then 0.0 else rs[|rs| - 1].call.now);
    SlidingWindowBound(Fallbacks(rs), max, window, key, from);
  }

  /** With any outages, one worker accepts at most twice the allowed number of a key's requests in any
      interval as long as the window. */
  lemma OutageBound(rs: seq<Request>, max: nat, window: real, key: string, from: real)
    requires OrderedRequests(rs)
    ensures CountIn(AcceptedInAll(rs, max, window, key), from, from + window) <= 2 * max
  {
    AcceptedSplits(rs, max, window, key, from, from + window);
    CounterWindowBound(rs, max, window, key, from);
    LogWindowBound(rs, max, window, key, from);
  }

  // ---- the answer to each request, exactly -------------------------------------------------

  /** How many of the times are less than a window ago. */
  lemma {:induction false} RecentCounts(ts: seq<real>, now: real, window: real)
    ensures |Recent(ts, now, window)| == |set i | 0 <= i < |ts| && now - ts[i] < window|
  {
    if ts != [] {
      var n := |ts| - 1;
      RecentCounts(ts[..n], now, window);
      var before := set i | 0 <= i < |ts[..n]| && now - ts[..n][i] < window;
      var all := set i | 0 <= i < |ts| && now - ts[i] < window;
      assert all == before + if now - ts[n] < window then {n} else {};
      assert n !in before;
    }
  }

  /** The log accepts a call exactly when fewer than `max` calls of the key that it accepted are less than a window
      ago; rejected calls do not count. */
  lemma {:induction false} MemoryAcceptsIff(calls: seq<Call>, max: nat, window: real)
    requires calls != [] && Ordered(calls)
    ensures var last := calls[|calls| - 1];
            var accepted := Accepted(calls[..|calls| - 1], max, window, last.key);
            MemoryAccepts(calls, max, window)
            <==> |set i | 0 <= i < |accepted| && last.now - accepted[i] < window| < max
  {
    var n := |calls| - 1;
    OrderedInit(calls);
    LogIsRecentAccepts(calls[..n], max, window, calls[n].key, calls[n].now);
    RecentCounts(Accepted(calls[..n], max, window, calls[n].key), calls[n].now, window);
  }

  /** A request that meets Redis up is answered by the counter alone: it passes exactly when the burst of counted
      requests before it, with it, is not longer than allowed. One that meets it down is answered by the log alone:
      it passes exactly when fewer than allowed of the requests the log accepted are less than a window ago. */
  lemma {:induction false} LimiterAnswersIff(rs: seq<Request>, max: nat, window: real)
    requires rs != [] && OrderedRequests(rs)
    ensures var init, r := rs[..|rs| - 1], rs[|rs| - 1];
            var accepted := AcceptedBy(init, max, window, r.call.key, false);
            Limiter(rs, max, window).2
            <==> match r.redis
                 case Up => Burst(Counted(init), window, r.call.key, r.call.now) + 1 <= max
                 case Down(_) => |set i | 0 <= i < |accepted| && r.call.now - accepted[i] < window| < max
  {
    var n := |rs| - 1;
    var init, r := rs[..n], rs[n];
    assert forall i :: 0 <= i < n ==> init[i] == rs[i];
    LimiterProjects(init, max, window);
    ProjectionsOrdered(init, r.call.now);
    CounterIsBurst(Counted(init), window, r.call.key, r.call.now);
    LogAccepts(init, max, window, r.call.key);
    LogIsRecentAccepts(Fallbacks(init), max, window, r.call.key, r.call.now);
    RecentCounts(Accepted(Fallbacks(init), max, window, r.call.key), r.call.now, window);
  }
}
