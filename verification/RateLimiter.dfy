/** The sliding-window rate limiter: per key it keeps only timestamps that still matter. */
module RateLimiter {
  /** The timestamps still inside the window that ends now. */
  function Recent(ts: seq<real>, now: real, window: real): seq<real> {
    if ts == [] then [] else
      var rest, last := Recent(ts[..|ts| - 1], now, window), ts[|ts| - 1];
      if now - last < window then rest + [last] else rest
  }

  /** A dictionary of timestamp lists; an unknown key has an empty list. */
  class TimestampStore {
    var entries: map<string, seq<real>>

    constructor ()
      ensures entries == map[]
    {
      entries := map[];
    }

    function Of(key: string): seq<real>
      reads this
    {
      if key in entries then entries[key] else []
    }
  }

  class Limiter {
    const rest: TimestampStore
    const ws: TimestampStore
    const img: TimestampStore

    constructor ()
      ensures fresh(rest) && fresh(ws) && fresh(img) && rest != ws && ws != img && rest != img
      ensures rest.entries == ws.entries == img.entries == map[]
    {
      rest := new TimestampStore();
      ws := new TimestampStore();
      img := new TimestampStore();
    }

    /** Prunes the key's list, then admits and records the request if fewer than `limit` are left. */
    method Check(store: TimestampStore, userId: string, limit: int, window: real, now: real) returns (ok: bool)
      modifies store
      ensures ok <==> |Recent(old(store.Of(userId)), now, window)| < limit
      ensures store.Of(userId) == Recent(old(store.Of(userId)), now, window) + (if ok then [now] else [])
      ensures forall k | k != userId ::
                (k in store.entries <==> k in old(store.entries)) && store.Of(k) == old(store.Of(k))
    {
      var timestamps := store.Of(userId);
      var kept := [];
      for i := 0 to |timestamps|
        modifies {}
        invariant kept == Recent(timestamps[..i], now, window)
      {
        assert timestamps[..i + 1][..i] == timestamps[..i];
        if now - timestamps[i] < window {
          kept := kept + [timestamps[i]];
        }
      }
      assert timestamps[..|timestamps|] == timestamps;
      store.entries := store.entries[userId := kept];
      if |kept| >= limit {
        return false;
      }
      store.entries := store.entries[userId := kept + [now]];
      ok := true;
    }
  }

  // ---------- one key over a whole history of requests ----------

  ghost predicate Ascending(ts: seq<real>) {
    forall i, j | 0 <= i <= j < |ts| :: ts[i] <= ts[j]
  }

  /** What the limiter keeps for the key after the first n requests. */
  ghost function Kept(times: seq<real>, n: nat, limit: int, window: real): seq<real>
    requires n <= |times|
  {
    if n == 0 then [] else
      var list := Recent(Kept(times, n - 1, limit, window), times[n - 1], window);
      if |list| < limit then list + [times[n - 1]] else list
  }

  ghost predicate Admits(times: seq<real>, n: nat, limit: int, window: real)
    requires n < |times|
  {
    |Recent(Kept(times, n, limit, window), times[n], window)| < limit
  }

  /** All requests ever admitted among the first n, with nothing forgotten. */
  ghost function AllAdmitted(times: seq<real>, n: nat, limit: int, window: real): seq<real>
    requires n <= |times|
  {
    if n == 0 then [] else
      var before := AllAdmitted(times, n - 1, limit, window);
      if Admits(times, n - 1, limit, window) then before + [times[n - 1]] else before
  }

  lemma {:induction false} RecentNarrows(ts: seq<real>, s: real, t: real, window: real)
    requires s <= t
    ensures Recent(Recent(ts, s, window), t, window) == Recent(ts, t, window)
  {
    if ts != [] {
      var rest, last := ts[..|ts| - 1], ts[|ts| - 1];
      RecentNarrows(rest, s, t, window);
      if s - last < window {
        assert (Recent(rest, s, window) + [last])[..|Recent(rest, s, window)|] == Recent(rest, s, window);
      }
    }
  }

  lemma {:induction false} RecentSnoc(ts: seq<real>, x: real, now: real, window: real)
    ensures Recent(ts + [x], now, window) == Recent(ts, now, window) + (if now - x < window then [x] else [])
  {
    assert (ts + [x])[..|ts|] == ts;
  }

  /** The pruned list sees exactly what the full history would show, now and at any later moment. */
  lemma {:induction false} PrunedListSeesHistory(times: seq<real>, n: nat, limit: int, window: real, now: real)
    requires Ascending(times) && n <= |times| && (n > 0 ==> times[n - 1] <= now)
    ensures Recent(Kept(times, n, limit, window), now, window) ==
            Recent(AllAdmitted(times, n, limit, window), now, window)
    decreases n
  {
    if n > 0 {
      var t := times[n - 1];
      var kept, all := Kept(times, n - 1, limit, window), AllAdmitted(times, n - 1, limit, window);
      PrunedListSeesHistory(times, n - 1, limit, window, now);
      RecentNarrows(kept, t, now, window);
      RecentSnoc(Recent(kept, t, window), t, now, window);
      RecentSnoc(all, t, now, window);
    }
  }

  lemma {:induction false} RecentHoldsSuffix(ts: seq<real>, i: nat, now: real, window: real)
    requires Ascending(ts) && i < |ts| && now - ts[i] < window
    ensures |Recent(ts, now, window)| >= |ts| - i
    decreases |ts|
  {
    if i < |ts| - 1 {
      RecentHoldsSuffix(ts[..|ts| - 1], i, now, window);
    }
  }

  lemma {:induction false} RecentBounded(ts: seq<real>, i: nat, now: real, window: real)
    requires Ascending(ts) && i <= |ts| && (i > 0 ==> now - ts[i - 1] >= window)
    ensures |Recent(ts, now, window)| <= |ts| - i
    decreases |ts|
  {
    if ts != [] {
      if i == |ts| {
        RecentBounded(ts[..|ts| - 1], i - 1, now, window);
      } else {
        RecentBounded(ts[..|ts| - 1], i, now, window);
      }
    }
  }

  ghost predicate UpTo(ts: seq<real>, x: real) {
    forall i | 0 <= i < |ts| :: ts[i] <= x
  }

  lemma {:induction false} AscendingPush(ts: seq<real>, s: real, x: real)
    requires Ascending(ts) && UpTo(ts, s) && s <= x
    ensures Ascending(ts + [x]) && UpTo(ts + [x], x) && UpTo(ts, x)
  {
  }

  lemma {:induction false} AdmittedAscend(times: seq<real>, n: nat, limit: int, window: real)
    requires Ascending(times) && n <= |times|
    ensures Ascending(AllAdmitted(times, n, limit, window))
    ensures n == 0 ==> AllAdmitted(times, n, limit, window) == []
    ensures n > 0 ==> UpTo(AllAdmitted(times, n, limit, window), times[n - 1])
  {
    if n > 0 {
      AdmittedAscend(times, n - 1, limit, window);
      AscendingPush(AllAdmitted(times, n - 1, limit, window), if n > 1 then times[n - 2] else times[0], times[n - 1]);
    }
  }

  /** Exactly when a request is refused: when the `limit` most recent admitted requests all lie inside the window. */
  lemma {:induction false} RefusedIff(times: seq<real>, n: nat, limit: nat, window: real)
    requires Ascending(times) && n < |times| && limit > 0
    ensures !Admits(times, n, limit, window) <==>
            var all := AllAdmitted(times, n, limit, window);
            |all| >= limit && times[n] - all[|all| - limit] < window
  {
    var all := AllAdmitted(times, n, limit, window);
    PrunedListSeesHistory(times, n, limit, window, times[n]);
    AdmittedAscend(times, n, limit, window);
    if |all| >= limit {
      var i := |all| - limit;
      if times[n] - all[i] < window {
        RecentHoldsSuffix(all, i, times[n], window);
      } else {
        RecentBounded(all, i + 1, times[n], window);
      }
    } else {
      RecentBounded(all, 0, times[n], window);
    }
  }

  /** Whoever is admitted next finds fewer than `limit` admissions inside the window. */
  lemma {:induction false} RoomForNext(times: seq<real>, n: nat, limit: int, window: real, i: nat)
    requires Ascending(times) && n < |times| && Admits(times, n, limit, window)
    requires i < |AllAdmitted(times, n, limit, window)|
    requires times[n] - AllAdmitted(times, n, limit, window)[i] < window
    ensures |AllAdmitted(times, n, limit, window)| - i < limit
  {
    PrunedListSeesHistory(times, n, limit, window, times[n]);
    AdmittedAscend(times, n, limit, window);
    RecentHoldsSuffix(AllAdmitted(times, n, limit, window), i, times[n], window);
  }

  /** No interval shorter than the window ever holds more than `limit` admitted requests. */
  lemma {:induction false} NeverMoreThanLimit(times: seq<real>, n: nat, limit: int, window: real, i: nat, j: nat)
    requires Ascending(times) && n <= |times|
    requires i <= j < |AllAdmitted(times, n, limit, window)|
    requires AllAdmitted(times, n, limit, window)[j] - AllAdmitted(times, n, limit, window)[i] < window
    ensures j - i + 1 <= limit
    decreases n
  {
    var before := AllAdmitted(times, n - 1, limit, window);
    if j < |before| {
      NeverMoreThanLimit(times, n - 1, limit, window, i, j);
    } else if i < j {
      RoomForNext(times, n - 1, limit, window, i);
    }
  }

  // ---------- readings out of order ----------

  /** A request is never processed after one whose clock reading is more than `lag` later. The clock is read before the
      lock is taken, so requests on several threads may be processed out of order; on one event loop `lag` is zero. */
  ghost predicate WithinLag(times: seq<real>, lag: real) {
    forall i, j | 0 <= i <= j < |times| :: times[i] <= times[j] + lag
  }

  /** How many of them lie in the interval. */
  ghost function Count(ts: seq<real>, lo: real, hi: real): nat {
    if ts == [] then 0
    else Count(ts[..|ts| - 1], lo, hi) + (if lo <= ts[|ts| - 1] <= hi then 1 else 0)
  }

  lemma {:induction false} CountSnoc(ts: seq<real>, x: real, lo: real, hi: real)
    ensures Count(ts + [x], lo, hi) == Count(ts, lo, hi) + (if lo <= x <= hi then 1 else 0)
  {
    assert (ts + [x])[..|ts|] == ts;
  }

  lemma {:induction false} CountAtMostAll(ts: seq<real>, lo: real, hi: real)
    ensures Count(ts, lo, hi) <= |ts|
  {
    if ts != [] {
      CountAtMostAll(ts[..|ts| - 1], lo, hi);
    }
  }

  /** Pruning at a moment less than a window after its beginning takes nothing from the interval. */
  lemma {:induction false} CountPruned(ts: seq<real>, now: real, window: real, lo: real, hi: real)
    requires now - lo < window
    ensures Count(Recent(ts, now, window), lo, hi) == Count(ts, lo, hi)
  {
    if ts != [] {
      var rest, last := ts[..|ts| - 1], ts[|ts| - 1];
      CountPruned(rest, now, window, lo, hi);
      CountSnoc(Recent(rest, now, window), last, lo, hi);
    }
  }

  lemma {:induction false} KeptHoldsInterval(times: seq<real>, n: nat, limit: int, window: real, lo: real, hi: real)
    requires n <= |times| && forall k | 0 <= k < n :: times[k] - lo < window
    ensures Count(Kept(times, n, limit, window), lo, hi) == Count(AllAdmitted(times, n, limit, window), lo, hi)
  {
    if n > 0 {
      var kept, all := Kept(times, n - 1, limit, window), AllAdmitted(times, n - 1, limit, window);
      KeptHoldsInterval(times, n - 1, limit, window, lo, hi);
      CountPruned(kept, times[n - 1], window, lo, hi);
      CountSnoc(Recent(kept, times[n - 1], window), times[n - 1], lo, hi);
      CountSnoc(all, times[n - 1], lo, hi);
    }
  }

  /** Whatever the order of processing, no interval shorter than the window less the lag holds more than `limit`
      admitted requests. */
  lemma {:induction false} LimitWithinLag(times: seq<real>, n: nat, limit: nat, window: real, lag: real, lo: real,
                                          hi: real)
    requires WithinLag(times, lag) && n <= |times| && hi - lo < window - lag
    ensures Count(AllAdmitted(times, n, limit, window), lo, hi) <= limit
  {
    if n > 0 {
      LimitWithinLag(times, n - 1, limit, window, lag, lo, hi);
      var t := times[n - 1];
      CountSnoc(AllAdmitted(times, n - 1, limit, window), t, lo, hi);
      if Admits(times, n - 1, limit, window) && lo <= t <= hi {
        KeptHoldsInterval(times, n, limit, window, lo, hi);
        CountAtMostAll(Kept(times, n, limit, window), lo, hi);
      }
    }
  }

  lemma {:induction false} RecentOfTwo(x: real, y: real, now: real, window: real)
    ensures Recent([x], now, window) == if now - x < window then [x] else []
    ensures Recent([x, y], now, window) == Recent([x], now, window) + (if now - y < window then [y] else [])
  {
    assert [x] == [] + [x] && [x, y] == [x] + [y];
    RecentSnoc([], x, now, window);
    RecentSnoc([x], y, now, window);
  }

  lemma {:induction false} OneMore(times: seq<real>, n: nat, limit: int, window: real, kept: seq<real>,
                                   all: seq<real>)
    requires n < |times| && Kept(times, n, limit, window) == kept && AllAdmitted(times, n, limit, window) == all
    requires |Recent(kept, times[n], window)| < limit
    ensures Kept(times, n + 1, limit, window) == Recent(kept, times[n], window) + [times[n]]
    ensures AllAdmitted(times, n + 1, limit, window) == all + [times[n]]
  {
  }

  lemma {:induction false} CountOfFour(a: real, b: real, c: real, d: real, lo: real, hi: real)
    ensures Count([a, b, c, d], lo, hi) == (if lo <= a <= hi then 1 else 0) + (if lo <= b <= hi then 1 else 0) +
            (if lo <= c <= hi then 1 else 0) + (if lo <= d <= hi then 1 else 0)
  {
    assert [a] == [] + [a] && [a, b] == [a] + [b] && [a, b, c] == [a, b] + [c] && [a, b, c, d] == [a, b, c] + [d];
    CountSnoc([], a, lo, hi);
    CountSnoc([a], b, lo, hi);
    CountSnoc([a, b], c, lo, hi);
    CountSnoc([a, b, c], d, lo, hi);
  }

  /** The interval cannot be made longer: two requests at 10, one at 20 and then, one second late, one at 19 are all
      admitted at two in ten seconds, three of them nine seconds apart. */
  lemma {:induction false} LateRequestExceedsLimit()
    ensures var times := [10.0, 10.0, 20.0, 19.0];
            && WithinLag(times, 1.0) && AllAdmitted(times, 4, 2, 10.0) == times
            && Count(AllAdmitted(times, 4, 2, 10.0), 10.0, 19.0) == 3
  {
    var times := [10.0, 10.0, 20.0, 19.0];
    OneMore(times, 0, 2, 10.0, [], []);
    RecentOfTwo(10.0, 10.0, 10.0, 10.0);
    OneMore(times, 1, 2, 10.0, [10.0], [10.0]);
    RecentOfTwo(10.0, 10.0, 20.0, 10.0);
    OneMore(times, 2, 2, 10.0, [10.0, 10.0], [10.0, 10.0]);
    RecentOfTwo(20.0, 20.0, 19.0, 10.0);
    OneMore(times, 3, 2, 10.0, [20.0], [10.0, 10.0, 20.0]);
    CountOfFour(10.0, 10.0, 20.0, 19.0, 10.0, 19.0);
  }
}
