/** The gateway's rate limiter: a Redis counter per route and client whose expiry is renewed by every request. */
module RateLimiter {
  import Texts

  /** FullPath and ClientIP of a request. */
  function Key(path: string, ip: string): string {
    "rl:" + path + ":" + ip
  }

  /** The limited routes contain no colon, so no two clients or routes share a counter, IPv6 included. */
  lemma {:induction false} KeyInjective(path: string, ip: string, path': string, ip': string)
    requires ':' !in path && ':' !in path'
    ensures Key(path, ip) == Key(path', ip') <==> path == path' && ip == ip'
  {
    if Key(path, ip) == Key(path', ip') {
      assert Key(path, ip)[3..] == path + ":" + ip && Key(path', ip')[3..] == path' + ":" + ip';
      Texts.ColonSplits(path, ip, path', ip');
    }
  }

  // ---- Bursts: what the counter counts ----

  ghost predicate Sorted(ts: seq<int>) {
    forall i, j :: 0 <= i < j < |ts| ==> ts[i] <= ts[j]
  }

  /** The requests of one key since the last pause of a whole window. */
  ghost function Burst(ts: seq<int>, window: int): (n: nat)
    ensures n <= |ts| && (ts != [] ==> n > 0)
    decreases |ts|
  {
    if ts == [] then 0
    else if |ts| > 1 && Gap(ts, |ts| - 1) < window then Burst(ts[..|ts| - 1], window) + 1
    else 1
  }

  ghost function Gap(ts: seq<int>, i: int): int
    requires 0 < i < |ts|
  {
    ts[i] - ts[i - 1]
  }

  /** The last n requests follow each other within the window; the one before them does not. */
  ghost predicate IsBurst(ts: seq<int>, window: int, n: nat) {
    && 0 < n <= |ts|
    && (forall i :: |ts| - n < i < |ts| ==> Gap(ts, i) < window)
    && (n < |ts| ==> Gap(ts, |ts| - n) >= window)
  }

  lemma {:induction false} BurstMeans(ts: seq<int>, window: int, n: nat)
    requires ts != []
    ensures n == Burst(ts, window) <==> IsBurst(ts, window, n)
    decreases |ts|
  {
    var last := |ts| - 1;
    if |ts| > 1 && Gap(ts, last) < window {
      var front := ts[..last];
      assert forall i :: 0 < i < last ==> Gap(front, i) == Gap(ts, i);
      if n > 0 {
        BurstMeans(front, window, n - 1);
        if n == 1 {
          assert !IsBurst(ts, window, n) by {
            assert Gap(ts, |ts| - n) < window;
          }
        } else {
          assert |front| - (n - 1) == |ts| - n;
          assert IsBurst(ts, window, n) <==> IsBurst(front, window, n - 1);
        }
      }
    } else if |ts| > 1 {
      assert n > 1 && n <= |ts| ==> |ts| - n < last < |ts|;
    }
  }

  /** Whether request i of a key's history is admitted. */
  ghost predicate Admitted(ts: seq<int>, i: int, limit: int, window: int)
    requires 0 <= i < |ts|
  {
    Burst(ts[..i + 1], window) <= limit
  }

  lemma {:induction false} BurstStep(ts: seq<int>, i: int, window: int)
    requires 0 < i < |ts|
    ensures Burst(ts[..i + 1], window) == if Gap(ts, i) < window then Burst(ts[..i], window) + 1 else 1
  {
    assert ts[..i + 1][..i] == ts[..i];
    assert Gap(ts[..i + 1], i) == Gap(ts, i);
  }

  ghost predicate NoPause(ts: seq<int>, window: int, i: int, j: int) {
    forall k :: 0 <= i < k <= j < |ts| ==> Gap(ts, k) < window
  }

  lemma {:induction false} BurstGrows(ts: seq<int>, i: int, j: int, window: int)
    requires 0 <= i <= j < |ts| && NoPause(ts, window, i, j)
    ensures Burst(ts[..j + 1], window) == Burst(ts[..i + 1], window) + (j - i)
    decreases j
  {
    if i < j {
      BurstGrows(ts, i, j - 1, window);
      BurstStep(ts, j, window);
      assert Gap(ts, j) < window;
    }
  }

  /** A rejected client stays rejected until it has been silent for a whole window ... */
  lemma {:induction false} RejectedUntilPause(ts: seq<int>, i: int, j: int, limit: int, window: int)
    requires 0 <= i < j < |ts| && !Admitted(ts, i, limit, window) && Admitted(ts, j, limit, window)
    ensures exists k :: i < k <= j && Gap(ts, k) >= window
  {
    if NoPause(ts, window, i, j) {
      BurstGrows(ts, i, j, window);
    }
  }

  /** ... and is then admitted again; the request after a rejected one is admitted exactly after such a pause. */
  lemma {:induction false} PauseReadmits(ts: seq<int>, i: int, limit: int, window: int)
    requires 0 < i < |ts| && limit > 0 && !Admitted(ts, i - 1, limit, window)
    ensures Admitted(ts, i, limit, window) <==> Gap(ts, i) >= window
  {
    BurstStep(ts, i, window);
  }

  /**
   * The limiter is no quota per window: a client that never pauses for a window is cut off for good after
   * `limit` requests, however far apart they are.
   */
  lemma {:induction false} SteadyClientIsCutOff(ts: seq<int>, i: int, limit: int, window: int)
    requires 0 <= i < |ts| && NoPause(ts, window, 0, |ts| - 1)
    ensures Admitted(ts, i, limit, window) <==> i < limit
  {
    assert NoPause(ts, window, 0, i);
    BurstGrows(ts, 0, i, window);
  }

  // ---- The bound ----

  /** Requests admitted in the interval [a, a + window). */
  ghost function AdmittedIn(ts: seq<int>, limit: int, window: int, a: int): nat
    decreases |ts|
  {
    if ts == [] then 0
    else AdmittedIn(ts[..|ts| - 1], limit, window, a)
         + if a <= ts[|ts| - 1] < a + window && Burst(ts, window) <= limit then 1 else 0
  }

  ghost function AtLeastZero(n: int): nat {
    if n < 0 then 0 else n
  }

  lemma {:induction false} WindowBound(ts: seq<int>, limit: int, window: int, a: int)
    requires Sorted(ts)
    ensures AdmittedIn(ts, limit, window, a) <= AtLeastZero(limit)
    ensures ts != [] && ts[|ts| - 1] < a + window ==> AdmittedIn(ts, limit, window, a) <= Burst(ts, window)
    ensures ts != [] && ts[|ts| - 1] < a ==> AdmittedIn(ts, limit, window, a) == 0
    decreases |ts|
  {
    if ts != [] {
      var n := |ts| - 1;
      WindowBound(ts[..n], limit, window, a);
      if n > 0 {
        assert ts[n - 1] <= ts[n];
        BurstStep(ts, n, window);
        assert ts[..n + 1] == ts;
      }
    }
  }

  // ---- The middleware ----

  /** Whether the pipeline ran, and whether its reply came back. */
  datatype Redis = Answered | ReplyLost | Down

  datatype Request = Request(key: string, at: int, redis: Redis, admitted: bool)

  datatype Counter = Counter(count: nat, deadline: int)

  ghost function Hits(trace: seq<Request>, key: string): seq<int>
    decreases |trace|
  {
    if trace == [] then []
    else
      var r := trace[|trace| - 1];
      Hits(trace[..|trace| - 1], key) + if r.key == key && r.redis != Down then [r.at] else []
  }

  /** The clock does not go back, and every answer was the limiter's. */
  ghost predicate Sound(trace: seq<Request>, limit: int, window: int)
    decreases |trace|
  {
    trace == [] ||
    (var n := |trace| - 1;
     && Sound(trace[..n], limit, window)
     && (n > 0 ==> trace[n - 1].at <= trace[n].at)
     && (trace[n].admitted <==> trace[n].redis != Answered || Burst(Hits(trace, trace[n].key), window) <= limit))
  }

  class Limiter {
    const limit: int
    const window: int
    var counters: map<string, Counter>
    ghost var trace: seq<Request>

    /** The counter of every key holds its current burst and expires a window after its last request. */
    ghost predicate Valid()
      reads this
    {
      && Sound(trace, limit, window)
      && forall key :: Agrees(key)
    }

    ghost predicate Agrees(key: string)
      reads this
    {
      var ts := Hits(trace, key);
      if ts == [] then key !in counters
      else key in counters && counters[key] == Counter(Burst(ts, window), ts[|ts| - 1] + window)
    }

    constructor (limit: int, window: int)
      ensures Valid() && trace == [] && this.limit == limit && this.window == window
    {
      this.limit, this.window, this.counters, this.trace := limit, window, map[], [];
    }

    /** INCR: an expired key starts again. */
    method Incr(key: string, now: int) returns (count: nat)
      modifies `counters
      ensures count == if key in old(counters) && now < old(counters)[key].deadline then old(counters)[key].count + 1 else 1
      ensures key in counters && counters[key].count == count && counters == old(counters)[key := counters[key]]
    {
      if key in counters && now < counters[key].deadline {
        count := counters[key].count + 1;
        counters := counters[key := Counter(count, counters[key].deadline)];
      } else {
        count := 1;
        counters := counters[key := Counter(count, now)];
      }
    }

    method Expire(key: string, deadline: int)
      requires key in counters
      modifies `counters
      ensures counters == old(counters)[key := Counter(old(counters)[key].count, deadline)]
    {
      counters := counters[key := Counter(counters[key].count, deadline)];
    }

    /** A request is refused exactly when Redis answers and the burst it belongs to exceeds the limit. */
    method Handle(key: string, now: int, redis: Redis) returns (admitted: bool)
      requires Valid() && (trace != [] ==> trace[|trace| - 1].at <= now)
      modifies this
      ensures Valid() && trace == old(trace) + [Request(key, now, redis, admitted)]
      ensures admitted <==> redis != Answered || Burst(Hits(old(trace), key) + [now], window) <= limit
      ensures forall k :: k != key ==> Hits(trace, k) == old(Hits(trace, k))
    {
      hide Burst, Hits, Sound;
      ghost var was := trace;
      ghost var ts := Hits(was, key);
      var count := 0;
      assert Agrees(key);
      if redis != Down {
        count := Incr(key, now);
        Expire(key, now + window);
        BurstSnoc(ts, now, window);
      }
      admitted := redis != Answered || count <= limit;
      trace := trace + [Request(key, now, redis, admitted)];
      SoundSnoc(was, Request(key, now, redis, admitted), limit, window);
      forall k
        ensures Agrees(k) && (k != key ==> Hits(trace, k) == Hits(was, k))
      {
        assert old(Agrees(k));
        HitsSnoc(was, Request(key, now, redis, admitted), k);
      }
    }
  }

  lemma {:induction false} HitsSnoc(trace: seq<Request>, r: Request, key: string)
    ensures Hits(trace + [r], key) == if r.key == key && r.redis != Down then Hits(trace, key) + [r.at] else Hits(trace, key)
  {
    assert (trace + [r])[..|trace|] == trace;
  }

  lemma {:induction false} SoundSnoc(trace: seq<Request>, r: Request, limit: int, window: int)
    requires Sound(trace, limit, window) && (trace != [] ==> trace[|trace| - 1].at <= r.at)
    requires r.admitted <==> r.redis != Answered || Burst(Hits(trace, r.key) + [r.at], window) <= limit
    ensures Sound(trace + [r], limit, window)
  {
    assert (trace + [r])[..|trace|] == trace;
    HitsSnoc(trace, r, r.key);
  }

  lemma {:induction false} BurstSnoc(ts: seq<int>, now: int, window: int)
    ensures Burst(ts + [now], window) == if ts != [] && now - ts[|ts| - 1] < window then Burst(ts, window) + 1 else 1
  {
    assert (ts + [now])[..|ts|] == ts;
  }

  // ---- The bound over whole runs ----

  ghost function AdmittedRequests(trace: seq<Request>, key: string, a: int, window: int): nat
    decreases |trace|
  {
    if trace == [] then 0
    else
      var r := trace[|trace| - 1];
      AdmittedRequests(trace[..|trace| - 1], key, a, window)
      + if r.key == key && r.redis == Answered && r.admitted && a <= r.at < a + window then 1 else 0
  }

  lemma {:induction false} NoHits(key: string)
    ensures Hits([], key) == [] && Sorted([])
  {
  }

  lemma {:induction false} SortedSnoc(ts: seq<int>, t: int)
    requires Sorted(ts)
    ensures (ts != [] ==> ts[|ts| - 1] <= t) ==> Sorted(ts + [t])
  {
  }

  lemma {:induction false} HitsSorted(trace: seq<Request>, key: string, limit: int, window: int)
    requires Sound(trace, limit, window)
    ensures Sorted(Hits(trace, key))
    ensures Hits(trace, key) != [] ==> Hits(trace, key)[|Hits(trace, key)| - 1] <= trace[|trace| - 1].at
    decreases |trace|
  {
    hide Hits, Burst, Sorted;
    NoHits(key);
    if trace != [] {
      var n := |trace| - 1;
      HitsSorted(trace[..n], key, limit, window);
      assert trace == trace[..n] + [trace[n]];
      HitsSnoc(trace[..n], trace[n], key);
      assert if n == 0 then trace[..n] == [] else trace[..n][n - 1] == trace[n - 1];
      SortedSnoc(Hits(trace[..n], key), trace[n].at);
    }
  }

  lemma {:induction false} AdmittedRequestsAreHits(trace: seq<Request>, key: string, limit: int, window: int, a: int)
    requires Sound(trace, limit, window)
    ensures AdmittedRequests(trace, key, a, window) <= AdmittedIn(Hits(trace, key), limit, window, a)
    decreases |trace|
  {
    hide Burst;
    if trace != [] {
      var n := |trace| - 1;
      AdmittedRequestsAreHits(trace[..n], key, limit, window, a);
      var ts := Hits(trace[..n], key);
      assert trace == trace[..n] + [trace[n]];
      HitsSnoc(trace[..n], trace[n], key);
      assert (ts + [trace[n].at])[..|ts|] == ts;
    }
  }

  /**
   * Over any history, interleaved with any other keys and Redis failures, every half-open interval of one
   * window holds at most `limit` requests of a key that the limiter answered and admitted.
   */
  lemma {:induction false} LimitHolds(limiter: Limiter, key: string, a: int)
    requires limiter.Valid()
    ensures AdmittedRequests(limiter.trace, key, a, limiter.window) <= AtLeastZero(limiter.limit)
  {
    HitsSorted(limiter.trace, key, limiter.limit, limiter.window);
    AdmittedRequestsAreHits(limiter.trace, key, limiter.limit, limiter.window, a);
    WindowBound(Hits(limiter.trace, key), limiter.limit, limiter.window, a);
  }
}
