/**
 * The fixed-window rate limiter that guards the chat endpoint
 * (`RateLimiter` in app/utils.py).  All limiters share one table of
 * counters, keyed by scope, caller and route; each check creates, resets,
 * increments or refuses the caller's counter and then drops the expired
 * counters of its own scope.  The clock is a parameter.
 */
module RateLimit {
  import opened Wrappers
  import opened Text

  /** One counter of the shared table: when its window started and how many requests it admitted. */
  datatype Counter = Counter(timestamp: int, count: int)

  /** The outcome of one check. */
  datatype Decision =
    | Admitted                          // the dependency returns True
    | TooManyRequests(detail: string)   // HTTPException with status 429
    | InvalidLimitType                  // ValueError, raised before the table is touched

  const IpPath: string := "ip_path"
  const GlobalPath: string := "global_path"

  /** The counter key of a request, or None when the limit type is unknown. */
  function CounterKey(limitType: string, clientIp: string, routePath: string): (r: Option<string>)
    ensures r.Some? <==> limitType == IpPath || limitType == GlobalPath
    ensures limitType == IpPath ==> r == Some("ip:" + clientIp + ":" + routePath)
    ensures limitType == GlobalPath ==> r == Some("global:" + routePath)
  {
    if limitType == IpPath then Some("ip:" + clientIp + ":" + routePath)
    else if limitType == GlobalPath then Some("global:" + routePath)
    else None
  }

  /** The part of `s` before its first `sep`: `s.split(sep)[0]`. */
  function BeforeFirst(s: string, sep: char): (r: string)
    ensures StartsWith(s, r) && sep !in r
    ensures |r| < |s| ==> s[|r|] == sep
  {
    if s == [] || s[0] == sep then "" else [s[0]] + BeforeFirst(s[1..], sep)
  }

  /** The prefix shared by every key of a limit type's scope: `limit_type.split('_')[0] + ":"`. */
  function ScopePrefix(limitType: string): string
  {
    BeforeFirst(limitType, '_') + ":"
  }

  /** A counter whose window has run out: strictly more than `window` seconds old. */
  predicate Expired(c: Counter, now: int, window: int)
  {
    now - c.timestamp > window
  }

  /** The table after the eviction pass: expired counters of the scope are gone. */
  function Evict(m: map<string, Counter>, prefix: string, now: int, window: int): map<string, Counter>
  {
    map k | k in m && !(StartsWith(k, prefix) && Expired(m[k], now, window)) :: m[k]
  }

  function TooManyDetail(limitType: string): string
  {
    "Too Many Requests. Limit type: " + limitType
  }

  /** The counter table after the request on `key` is counted (before eviction). */
  function Counted(m: map<string, Counter>, key: string, now: int, window: int): map<string, Counter>
  {
    if key !in m || Expired(m[key], now, window) then m[key := Counter(now, 1)]
    else m[key := m[key].(count := m[key].count + 1)]
  }

  /**
   * One check of a limiter with the given configuration, as a function of the
   * table before it: the decision and the table after it.
   */
  function Check(m: map<string, Counter>, limitType: string, limit: int, window: int,
                 clientIp: string, routePath: string, now: int): (Decision, map<string, Counter>)
  {
    match CounterKey(limitType, clientIp, routePath)
    case None => (InvalidLimitType, m)
    case Some(key) =>
      if key in m && !Expired(m[key], now, window) && m[key].count >= limit then
        (TooManyRequests(TooManyDetail(limitType)), m)
      else
        (Admitted, Evict(Counted(m, key, now, window), ScopePrefix(limitType), now, window))
  }

  /** The table before a check, the key its request maps to, and what that key's counter says. */
  predicate InWindow(m: map<string, Counter>, key: string, now: int, window: int)
  {
    key in m && !Expired(m[key], now, window)
  }

  /** An unknown limit type is refused before the table is looked at. */
  lemma CheckInvalidType(m: map<string, Counter>, limitType: string, limit: int, window: int,
                         clientIp: string, routePath: string, now: int)
    requires limitType != IpPath && limitType != GlobalPath
    ensures Check(m, limitType, limit, window, clientIp, routePath, now) == (InvalidLimitType, m)
  {
  }

  /**
   * A request whose counter is absent, or older than the window, starts a new
   * window: it is admitted and its counter becomes (now, 1).
   */
  lemma CheckStartsWindow(m: map<string, Counter>, limitType: string, limit: int, window: int,
                          clientIp: string, routePath: string, now: int)
    requires CounterKey(limitType, clientIp, routePath).Some?
    requires window >= 0
    requires !InWindow(m, CounterKey(limitType, clientIp, routePath).value, now, window)
    ensures var key := CounterKey(limitType, clientIp, routePath).value;
            var (d, m') := Check(m, limitType, limit, window, clientIp, routePath, now);
            d == Admitted && key in m' && m'[key] == Counter(now, 1)
  {
  }

  /** Within the window, a counter that reached the limit refuses the request and nothing changes. */
  lemma CheckRefuses(m: map<string, Counter>, limitType: string, limit: int, window: int,
                     clientIp: string, routePath: string, now: int)
    requires CounterKey(limitType, clientIp, routePath).Some?
    requires var key := CounterKey(limitType, clientIp, routePath).value;
             InWindow(m, key, now, window) && m[key].count >= limit
    ensures Check(m, limitType, limit, window, clientIp, routePath, now)
            == (TooManyRequests("Too Many Requests. Limit type: " + limitType), m)
  {
  }

  /**
   * Within the window (elapsed time up to and including `window`), a counter
   * below the limit admits the request: its count goes up by one and its
   * window start stays.
   */
  lemma CheckIncrements(m: map<string, Counter>, limitType: string, limit: int, window: int,
                        clientIp: string, routePath: string, now: int)
    requires CounterKey(limitType, clientIp, routePath).Some?
    requires var key := CounterKey(limitType, clientIp, routePath).value;
             InWindow(m, key, now, window) && m[key].count < limit
    ensures var key := CounterKey(limitType, clientIp, routePath).value;
            var (d, m') := Check(m, limitType, limit, window, clientIp, routePath, now);
            d == Admitted && key in m' && m'[key] == Counter(m[key].timestamp, m[key].count + 1)
  {
  }

  /** After any admission the caller's counter is kept and holds at most max(limit, 1) requests. */
  lemma CheckAdmittedBound(m: map<string, Counter>, limitType: string, limit: int, window: int,
                           clientIp: string, routePath: string, now: int)
    requires window >= 0
    requires Check(m, limitType, limit, window, clientIp, routePath, now).0 == Admitted
    ensures CounterKey(limitType, clientIp, routePath).Some?
    ensures var key := CounterKey(limitType, clientIp, routePath).value;
            var m' := Check(m, limitType, limit, window, clientIp, routePath, now).1;
            key in m' && m'[key].count <= (if limit > 1 then limit else 1)
  {
    var key := CounterKey(limitType, clientIp, routePath).value;
    if InWindow(m, key, now, window) {
      CheckIncrements(m, limitType, limit, window, clientIp, routePath, now);
    } else {
      CheckStartsWindow(m, limitType, limit, window, clientIp, routePath, now);
    }
  }

  /**
   * After an admission, a counter other than the caller's disappears exactly
   * when its key has the limiter's scope prefix and its window ran out; every
   * counter that stays is unchanged.
   */
  lemma CheckEvictsExactly(m: map<string, Counter>, limitType: string, limit: int, window: int,
                           clientIp: string, routePath: string, now: int, k: string)
    requires Check(m, limitType, limit, window, clientIp, routePath, now).0 == Admitted
    requires CounterKey(limitType, clientIp, routePath) != Some(k)
    ensures var m' := Check(m, limitType, limit, window, clientIp, routePath, now).1;
            (k in m' <==> k in m && !(StartsWith(k, ScopePrefix(limitType)) && Expired(m[k], now, window)))
            && (k in m' ==> m'[k] == m[k])
  {
  }

  /** A word without the separator, then the separator: the word is what comes before the first separator. */
  lemma {:induction false} BeforeFirstWord(w: string, sep: char, rest: string)
    requires sep !in w
    ensures BeforeFirst(w + [sep] + rest, sep) == w
  {
    if w != [] {
      BeforeFirstWord(w[1..], sep, rest);
      assert (w + [sep] + rest)[1..] == w[1..] + [sep] + rest;
    } else {
      assert (w + [sep] + rest)[0] == sep;
    }
  }

  lemma ScopePrefixes()
    ensures ScopePrefix(IpPath) == "ip:" && ScopePrefix(GlobalPath) == "global:"
  {
    assert IpPath == "ip" + ['_'] + "path";
    BeforeFirstWord("ip", '_', "path");
    assert GlobalPath == "global" + ['_'] + "path";
    BeforeFirstWord("global", '_', "path");
  }

  /** A check never touches the counters of the other scope. */
  lemma CheckKeepsOtherScope(m: map<string, Counter>, limitType: string, limit: int, window: int,
                             clientIp: string, routePath: string, now: int, otherIp: string, otherPath: string)
    requires limitType == IpPath || limitType == GlobalPath
    ensures var other := CounterKey(if limitType == IpPath then GlobalPath else IpPath, otherIp, otherPath).value;
            var m' := Check(m, limitType, limit, window, clientIp, routePath, now).1;
            other in m ==> other in m' && m'[other] == m[other]
  {
    var otherType := if limitType == IpPath then GlobalPath else IpPath;
    ScopeInitial(limitType, clientIp, routePath);
    ScopeInitial(otherType, otherIp, otherPath);
    var other := CounterKey(otherType, otherIp, otherPath).value;
    var key := CounterKey(limitType, clientIp, routePath).value;
    if other in m {
      var (d, m') := Check(m, limitType, limit, window, clientIp, routePath, now);
      if d == Admitted {
        assert m' == Evict(Counted(m, key, now, window), ScopePrefix(limitType), now, window);
        OutsideScopeKept(m, key, ScopePrefix(limitType), now, window, other);
      }
    }
  }

  /** Every key of a scope starts with the first letter of the scope's prefix: 'i' or 'g'. */
  lemma ScopeInitial(limitType: string, clientIp: string, routePath: string)
    requires limitType == IpPath || limitType == GlobalPath
    ensures var key := CounterKey(limitType, clientIp, routePath).value;
            var prefix := ScopePrefix(limitType);
            key != [] && prefix != [] && key[0] == prefix[0] == (if limitType == IpPath then 'i' else 'g')
  {
    ScopePrefixes();
  }

  /** Counting a request and evicting keeps every other counter whose key lies outside the scope. */
  lemma OutsideScopeKept(m: map<string, Counter>, key: string, prefix: string, now: int, window: int, k: string)
    requires k in m && k != key && k != [] && prefix != [] && k[0] != prefix[0]
    ensures var m' := Evict(Counted(m, key, now, window), prefix, now, window);
            k in m' && m'[k] == m[k]
  {
    assert !StartsWith(k, prefix);
  }

  /** The decisions and final table of a series of checks by one limiter for one caller. */
  function Replay(m: map<string, Counter>, limitType: string, limit: int, window: int,
                  clientIp: string, routePath: string, times: seq<int>): (r: (seq<Decision>, map<string, Counter>))
    ensures |r.0| == |times|
    decreases |times|
  {
    if times == [] then ([], m)
    else
      var (d, m') := Check(m, limitType, limit, window, clientIp, routePath, times[0]);
      var (ds, last) := Replay(m', limitType, limit, window, clientIp, routePath, times[1..]);
      ([d] + ds, last)
  }

  /**
   * Requests inside the window of a counter that already holds `c >= 1`
   * requests: the i-th is admitted exactly when c + i < limit.
   */
  lemma {:induction false} ReplayInsideWindow(m: map<string, Counter>, limitType: string, limit: int, window: int,
                                              clientIp: string, routePath: string, times: seq<int>, t0: int, c: int)
    requires CounterKey(limitType, clientIp, routePath).Some?
    requires var key := CounterKey(limitType, clientIp, routePath).value;
             key in m && m[key] == Counter(t0, c)
    requires c >= 1
    requires forall i :: 0 <= i < |times| ==> t0 <= times[i] <= t0 + window
    ensures var ds := Replay(m, limitType, limit, window, clientIp, routePath, times).0;
            forall i :: 0 <= i < |times| ==>
              ds[i] == if c + i < limit then Admitted else TooManyRequests(TooManyDetail(limitType))
    ensures var key := CounterKey(limitType, clientIp, routePath).value;
            var last := Replay(m, limitType, limit, window, clientIp, routePath, times).1;
            key in last
            && last[key] == Counter(t0, if c >= limit then c else if c + |times| <= limit then c + |times| else limit)
    decreases |times|
  {
    if times != [] {
      var key := CounterKey(limitType, clientIp, routePath).value;
      var (d, m') := Check(m, limitType, limit, window, clientIp, routePath, times[0]);
      ReplayStep(m, limitType, limit, window, clientIp, routePath, times, d, m');
      var ds := Replay(m, limitType, limit, window, clientIp, routePath, times).0;
      var rest := Replay(m', limitType, limit, window, clientIp, routePath, times[1..]).0;
      assert InWindow(m, key, times[0], window);
      var c' := if c >= limit then c else c + 1;
      if c >= limit {
        CheckRefuses(m, limitType, limit, window, clientIp, routePath, times[0]);
      } else {
        CheckIncrements(m, limitType, limit, window, clientIp, routePath, times[0]);
      }
      ReplayInsideWindow(m', limitType, limit, window, clientIp, routePath, times[1..], t0, c');
      forall i | 1 <= i < |times|
        ensures ds[i] == if c + i < limit then Admitted else TooManyRequests(TooManyDetail(limitType))
      {
        assert ds[i] == rest[i - 1];
      }
    }
  }

  /**
   * A caller with no live counter sends requests that all fall inside the
   * window opened by the first: exactly the first max(limit, 1) are admitted
   * and every later one is refused.
   */
  lemma QuotaPerWindow(m: map<string, Counter>, limitType: string, limit: int, window: int,
                       clientIp: string, routePath: string, times: seq<int>)
    requires CounterKey(limitType, clientIp, routePath).Some?
    requires window >= 0 && times != []
    requires !InWindow(m, CounterKey(limitType, clientIp, routePath).value, times[0], window)
    requires forall i :: 0 <= i < |times| ==> times[0] <= times[i] <= times[0] + window
    ensures var ds := Replay(m, limitType, limit, window, clientIp, routePath, times).0;
            forall i :: 0 <= i < |times| ==>
              ds[i] == if i < limit || i == 0 then Admitted else TooManyRequests(TooManyDetail(limitType))
  {
    var key := CounterKey(limitType, clientIp, routePath).value;
    CheckStartsWindow(m, limitType, limit, window, clientIp, routePath, times[0]);
    var (d, m') := Check(m, limitType, limit, window, clientIp, routePath, times[0]);
    ReplayInsideWindow(m', limitType, limit, window, clientIp, routePath, times[1..], times[0], 1);
    var ds := Replay(m, limitType, limit, window, clientIp, routePath, times).0;
    assert ds == [d] + Replay(m', limitType, limit, window, clientIp, routePath, times[1..]).0;
  }

  /**
   * Limit 3 per 60 seconds, requests at 0, 10, 20, 30 and 65 from a caller
   * with no live counter: admitted, admitted, admitted, refused, admitted
   * (the last one opens a new window).
   */
  lemma ThreePerMinute(m: map<string, Counter>, clientIp: string, routePath: string)
    requires !InWindow(m, CounterKey(IpPath, clientIp, routePath).value, 0, 60)
    ensures Replay(m, IpPath, 3, 60, clientIp, routePath, [0, 10, 20, 30, 65]).0
            == [Admitted, Admitted, Admitted, TooManyRequests(TooManyDetail(IpPath)), Admitted]
  {
    assert [0, 10, 20, 30, 65] == [0, 10, 20, 30] + [65];
    ReplayAppend(m, IpPath, 3, 60, clientIp, routePath, [0, 10, 20, 30], [65]);
    OpeningMinute(m, clientIp, routePath);
    var m4 := Replay(m, IpPath, 3, 60, clientIp, routePath, [0, 10, 20, 30]).1;
    NextMinute(m4, clientIp, routePath);
  }

  /** The request at 0 opens a window; those at 10 and 20 fill it and the one at 30 is refused. */
  lemma OpeningMinute(m: map<string, Counter>, clientIp: string, routePath: string)
    requires !InWindow(m, CounterKey(IpPath, clientIp, routePath).value, 0, 60)
    ensures var (ds, m') := Replay(m, IpPath, 3, 60, clientIp, routePath, [0, 10, 20, 30]);
            var key := CounterKey(IpPath, clientIp, routePath).value;
            ds == [Admitted, Admitted, Admitted, TooManyRequests(TooManyDetail(IpPath))]
            && key in m' && m'[key] == Counter(0, 3)
  {
    var times := [0, 10, 20, 30];
    CheckStartsWindow(m, IpPath, 3, 60, clientIp, routePath, 0);
    var m1 := Check(m, IpPath, 3, 60, clientIp, routePath, 0).1;
    ReplayStep(m, IpPath, 3, 60, clientIp, routePath, times, Admitted, m1);
    assert times[1..] == [10, 20, 30];
    FirstMinute(m1, clientIp, routePath);
  }

  /** Inside a window opened at 0, the requests at 10 and 20 are admitted and the one at 30 is refused. */
  lemma FirstMinute(m: map<string, Counter>, clientIp: string, routePath: string)
    requires var key := CounterKey(IpPath, clientIp, routePath).value;
             key in m && m[key] == Counter(0, 1)
    ensures var (ds, m') := Replay(m, IpPath, 3, 60, clientIp, routePath, [10, 20, 30]);
            var key := CounterKey(IpPath, clientIp, routePath).value;
            ds == [Admitted, Admitted, TooManyRequests(TooManyDetail(IpPath))]
            && key in m' && m'[key] == Counter(0, 3)
  {
    ReplayInsideWindow(m, IpPath, 3, 60, clientIp, routePath, [10, 20, 30], 0, 1);
  }

  /** The request at 65 falls outside the window opened at 0 and is admitted. */
  lemma NextMinute(m: map<string, Counter>, clientIp: string, routePath: string)
    requires var key := CounterKey(IpPath, clientIp, routePath).value;
             key in m && m[key] == Counter(0, 3)
    ensures Replay(m, IpPath, 3, 60, clientIp, routePath, [65]).0 == [Admitted]
  {
    CheckStartsWindow(m, IpPath, 3, 60, clientIp, routePath, 65);
    var m' := Check(m, IpPath, 3, 60, clientIp, routePath, 65).1;
    ReplayStep(m, IpPath, 3, 60, clientIp, routePath, [65], Admitted, m');
    assert [65][1..] == [] && Replay(m', IpPath, 3, 60, clientIp, routePath, []).0 == [];
  }

  /** Replaying two series one after the other is replaying their concatenation. */
  lemma {:induction false} ReplayAppend(m: map<string, Counter>, limitType: string, limit: int, window: int,
                                        clientIp: string, routePath: string, a: seq<int>, b: seq<int>)
    ensures var (da, ma) := Replay(m, limitType, limit, window, clientIp, routePath, a);
            Replay(m, limitType, limit, window, clientIp, routePath, a + b)
              == (da + Replay(ma, limitType, limit, window, clientIp, routePath, b).0,
                  Replay(ma, limitType, limit, window, clientIp, routePath, b).1)
    decreases |a|
  {
    if a == [] {
      assert a + b == b;
      assert Replay(m, limitType, limit, window, clientIp, routePath, a) == ([], m);
      var rb := Replay(m, limitType, limit, window, clientIp, routePath, b);
      assert [] + rb.0 == rb.0;
    } else {
      var d := Check(m, limitType, limit, window, clientIp, routePath, a[0]).0;
      var m' := Check(m, limitType, limit, window, clientIp, routePath, a[0]).1;
      ReplayAppend(m', limitType, limit, window, clientIp, routePath, a[1..], b);
      var ra := Replay(m', limitType, limit, window, clientIp, routePath, a[1..]);
      var rb := Replay(ra.1, limitType, limit, window, clientIp, routePath, b);
      ReplayStep(m, limitType, limit, window, clientIp, routePath, a, d, m');
      assert (a + b)[0] == a[0];
      assert (a + b)[1..] == a[1..] + b;
      ReplayStep(m, limitType, limit, window, clientIp, routePath, a + b, d, m');
      assert [d] + (ra.0 + rb.0) == ([d] + ra.0) + rb.0;
    }
  }

  /** One step of a series: the first check, then the rest from the table it leaves. */
  lemma ReplayStep(m: map<string, Counter>, limitType: string, limit: int, window: int,
                   clientIp: string, routePath: string, times: seq<int>, d: Decision, m': map<string, Counter>)
    requires times != []
    requires (d, m') == Check(m, limitType, limit, window, clientIp, routePath, times[0])
    ensures Replay(m, limitType, limit, window, clientIp, routePath, times)
            == ([d] + Replay(m', limitType, limit, window, clientIp, routePath, times[1..]).0,
                Replay(m', limitType, limit, window, clientIp, routePath, times[1..]).1)
  {
  }

  /** The counters shared by every limiter (the class attribute `request_counters`). */
  class CounterTable {
    var counters: map<string, Counter>

    constructor()
      ensures counters == map[]
    {
      counters := map[];
    }
  }

  class RateLimiter {
    const requestsLimit: int
    const timeWindow: int
    const limitType: string
    const table: CounterTable

    constructor(requestsLimit: int, timeWindow: int, limitType: string, table: CounterTable)
      ensures this.requestsLimit == requestsLimit && this.timeWindow == timeWindow
      ensures this.limitType == limitType && this.table == table
    {
      this.requestsLimit := requestsLimit;
      this.timeWindow := timeWindow;
      this.limitType := limitType;
      this.table := table;
    }

    /** Checks one request from `clientIp` on `routePath` at time `now`. */
    method Call(clientIp: string, routePath: string, now: int) returns (d: Decision)
      modifies table
      ensures (d, table.counters)
              == Check(old(table.counters), limitType, requestsLimit, timeWindow, clientIp, routePath, now)
    {
      var key: string;
      if limitType == IpPath {
        key := "ip:" + clientIp + ":" + routePath;
      } else if limitType == GlobalPath {
        key := "global:" + routePath;
      } else {
        return InvalidLimitType;
      }

      if key !in table.counters {
        table.counters := table.counters[key := Counter(now, 1)];
      } else {
        var c := table.counters[key];
        if now - c.timestamp > timeWindow {
          table.counters := table.counters[key := Counter(now, 1)];
        } else if c.count >= requestsLimit {
          return TooManyRequests(TooManyDetail(limitType));
        } else {
          table.counters := table.counters[key := c.(count := c.count + 1)];
        }
      }

      EvictExpired(BeforeFirst(limitType, '_') + ":", now);
      d := Admitted;
    }

    /** The eviction pass: drops every counter of the scope whose window has run out. */
    method EvictExpired(prefix: string, now: int)
      modifies table
      ensures table.counters == Evict(old(table.counters), prefix, now, timeWindow)
    {
      ghost var before := table.counters;
      var pending := table.counters.Keys;
      while pending != {}
        invariant pending <= before.Keys
        invariant table.counters
                  == map k | k in before && (k in pending || !(StartsWith(k, prefix) && Expired(before[k], now, timeWindow)))
                       :: before[k]
        decreases |pending|
      {
        var k :| k in pending;
        if StartsWith(k, prefix) && now - table.counters[k].timestamp > timeWindow {
          table.counters := table.counters - {k};
        }
        pending := pending - {k};
      }
    }
  }
}
