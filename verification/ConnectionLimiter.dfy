/** The cap on simultaneous WebSocket connections, and the endpoint that reports opens and closes to it. */
module ConnectionLimiter {
  import Machines
  import RateLimiter

  class Limiter {
    const max: int
    const maxNewPerSecond: int
    var active: int
    var recent: seq<real>

    constructor (max: int, maxNewPerSecond: int)
      ensures this.max == max && this.maxNewPerSecond == maxNewPerSecond && active == 0 && recent == []
    {
      this.max, this.maxNewPerSecond := max, maxNewPerSecond;
      active, recent := 0, [];
    }

    method CanAcceptNew(now: real) returns (ok: bool)
      modifies this`recent
      ensures ok <==> active < max && |RateLimiter.Recent(old(recent), now, 1.0)| < maxNewPerSecond
      ensures recent == if active < max then RateLimiter.Recent(old(recent), now, 1.0) else old(recent)
    {
      if active >= max {
        return false;
      }
      recent := RateLimiter.Recent(recent, now, 1.0);
      ok := |recent| < maxNewPerSecond;
    }

    method Accept(now: real)
      modifies this`active, this`recent
      ensures active == old(active) + 1 && recent == old(recent) + [now]
    {
      active := active + 1;
      recent := recent + [now];
    }

    method Release()
      modifies this`active
      ensures active == AfterRelease(old(active))
      ensures old(active) > 0 ==> active == old(active) - 1
      ensures old(active) <= 0 ==> active == 0
    {
      active := if active - 1 > 0 then active - 1 else 0;
    }
  }

  function AfterRelease(active: int): int {
    if active > 1 then active - 1 else 0
  }

  // ---------- the endpoint ----------

  /** A connection is counted before its handshake. One whose handshake raises is lost without a release; one that has
      joined leaves in the ordinary way, or after failing to authenticate. */
  datatype Action =
    | Open(id: nat, acceptedAt: real)
    | Join(id: nat)
    | FailHandshake(id: nat)
    | Close(id: nat)
    | FailAuth(id: nat)

  datatype Step = Step(at: real, act: Action)

  /** `open`: the connections that exist; `joining`: those among them whose handshake is still going on. */
  datatype Server = Server(active: int, recent: seq<real>, open: set<nat>, joining: set<nat>)

  datatype Caps = Caps(max: int, maxNewPerSecond: int)

  const START := Server(0, [], {}, {})

  predicate CanAccept(caps: Caps, s: Server, now: real) {
    s.active < caps.max && |RateLimiter.Recent(s.recent, now, 1.0)| < caps.maxNewPerSecond
  }

  function Without(s: Server, id: nat, active: int): Server {
    s.(active := active, open := s.open - {id}, joining := s.joining - {id})
  }

  /** A connection that fails to authenticate is released on that branch and once more on the way out. */
  function Next(caps: Caps, s: Server, e: Step): Server {
    match e.act
    case Open(id, acceptedAt) =>
      var recent := if s.active < caps.max then RateLimiter.Recent(s.recent, e.at, 1.0) else s.recent;
      if CanAccept(caps, s, e.at) then Server(s.active + 1, recent + [acceptedAt], s.open + {id}, s.joining + {id})
      else s.(recent := recent)
    case Join(id) => s.(joining := s.joining - {id})
    case FailHandshake(id) => Without(s, id, s.active)
    case Close(id) => Without(s, id, AfterRelease(s.active))
    case FailAuth(id) => Without(s, id, AfterRelease(AfterRelease(s.active)))
  }

  ghost predicate Enabled(s: Server, e: Step) {
    match e.act
    case Open(id, acceptedAt) => id !in s.open && e.at <= acceptedAt
    case Join(id) => id in s.open && id in s.joining
    case FailHandshake(id) => id in s.open && id in s.joining
    case Close(id) => id in s.open && id !in s.joining
    case FailAuth(id) => id in s.open && id !in s.joining
  }

  ghost function MachineOf(caps: Caps): Machines.Machine<Server, Step> {
    Machines.Machine(START, (s: Server, e: Step) => Next(caps, s, e), (s: Server, e: Step) => Enabled(s, e))
  }

  ghost function Run(caps: Caps, run: seq<Step>, n: nat): Server
    requires n <= |run|
  {
    Machines.Run(MachineOf(caps), run, n)
  }

  ghost predicate Legal(caps: Caps, run: seq<Step>) {
    Machines.Legal(MachineOf(caps), run)
  }

  /** The counter says how many connections are open. */
  ghost predicate Counted(s: Server) {
    s.active == |s.open|
  }

  /** A step that leaves a right counter right. */
  ghost predicate Harmless(s: Server, e: Step) {
    !e.act.FailHandshake? && (e.act.FailAuth? ==> |s.open| == 1)
  }

  lemma {:induction false} StepCountedIff(caps: Caps, s: Server, e: Step)
    requires Enabled(s, e) && Counted(s)
    ensures Counted(Next(caps, s, e)) <==> Harmless(s, e)
  {
    if !e.act.Open? {
      assert |s.open - {e.act.id}| == |s.open| - 1;
    }
  }

  /** The counter is right at every moment up to the n-th. */
  ghost predicate CountedThrough(caps: Caps, run: seq<Step>, n: nat)
    requires n <= |run|
  {
    Counted(Run(caps, run, n)) && (n > 0 ==> CountedThrough(caps, run, n - 1))
  }

  /** No handshake is lost, and whenever a connection fails to authenticate, it is the only one open. */
  ghost predicate HarmlessThrough(caps: Caps, run: seq<Step>, n: nat)
    requires n <= |run|
  {
    n > 0 ==> HarmlessThrough(caps, run, n - 1) && Harmless(Run(caps, run, n - 1), run[n - 1])
  }

  lemma {:induction false} CountedStep(caps: Caps, run: seq<Step>, n: nat)
    requires Legal(caps, run) && n < |run| && Counted(Run(caps, run, n))
    ensures Counted(Run(caps, run, n + 1)) <==> Harmless(Run(caps, run, n), run[n])
  {
    StepCountedIff(caps, Run(caps, run, n), run[n]);
  }

  /** The counter is right throughout a run exactly when no handshake is lost and no connection fails to authenticate
      while another is open. */
  lemma {:induction false} AlwaysCountedIff(caps: Caps, run: seq<Step>, n: nat)
    requires Legal(caps, run) && n <= |run|
    ensures CountedThrough(caps, run, n) <==> HarmlessThrough(caps, run, n)
  {
    if n > 0 {
      AlwaysCountedIff(caps, run, n - 1);
      if CountedThrough(caps, run, n - 1) {
        CountedStep(caps, run, n - 1);
      }
    }
  }

  // ---------- who is let in ----------

  lemma {:induction false} RecentCounts(ts: seq<real>, now: real, window: real)
    ensures |RateLimiter.Recent(ts, now, window)| == |(set i | 0 <= i < |ts| && now - ts[i] < window)|
  {
    var all := set i | 0 <= i < |ts| && now - ts[i] < window;
    if ts != [] {
      var front := ts[..|ts| - 1];
      var before := set i | 0 <= i < |front| && now - front[i] < window;
      RecentCounts(front, now, window);
      assert all == before + (if now - ts[|ts| - 1] < window then {|ts| - 1} else {});
    }
  }

  /** A new connection is let in exactly if the counter is below the cap and fewer than the permitted number of those
      still on record are less than a second old; it is then counted, recorded and open. */
  lemma {:induction false} LetInIff(caps: Caps, s: Server, e: Step)
    requires e.act.Open? && Enabled(s, e)
    ensures var s', ts := Next(caps, s, e), s.recent;
            var room := s.active < caps.max && |(set i | 0 <= i < |ts| && e.at - ts[i] < 1.0)| < caps.maxNewPerSecond;
            && (e.act.id in s'.open <==> room) && s'.active == s.active + (if room then 1 else 0)
            && (room ==> s'.joining == s.joining + {e.act.id} && |s'.recent| > 0 &&
                         s'.recent[|s'.recent| - 1] == e.act.acceptedAt)
  {
    RecentCounts(s.recent, e.at, 1.0);
  }

  /** Which connections are open, and which of them are still joining, after a step. */
  lemma {:induction false} StepMoves(caps: Caps, s: Server, e: Step, id: nat)
    requires Enabled(s, e)
    ensures var s', mine := Next(caps, s, e), e.act.id == id;
            var arrives := mine && e.act.Open? && s'.active == s.active + 1;
            var ends := mine && (e.act.FailHandshake? || e.act.Close? || e.act.FailAuth?);
            && (id in s'.open <==> arrives || (id in s.open && !ends))
            && (id in s'.joining <==> arrives || (id in s.joining && !ends && !(mine && e.act.Join?)))
  {
  }

  function LetInBy(caps: Caps, s: Server, e: Step): seq<real> {
    if e.act.Open? && CanAccept(caps, s, e.at) then [e.act.acceptedAt] else []
  }

  /** The moments at which connections were let in. */
  ghost function LetInAt(caps: Caps, run: seq<Step>, n: nat): seq<real>
    requires n <= |run|
  {
    if n == 0 then [] else LetInAt(caps, run, n - 1) + LetInBy(caps, Run(caps, run, n - 1), run[n - 1])
  }

  lemma {:induction false} CountMore(ts: seq<real>, more: seq<real>, lo: real, hi: real)
    requires |more| <= 1
    ensures RateLimiter.Count(ts + more, lo, hi) ==
            RateLimiter.Count(ts, lo, hi) + (if more != [] && lo <= more[0] <= hi then 1 else 0)
  {
    if more == [] {
      assert ts + more == ts;
    } else {
      assert more == [more[0]];
      RateLimiter.CountSnoc(ts, more[0], lo, hi);
    }
  }

  lemma {:induction false} RecordStep(caps: Caps, s: Server, e: Step, lo: real, hi: real)
    requires e.at - lo < 1.0
    ensures var more := LetInBy(caps, s, e);
            RateLimiter.Count(Next(caps, s, e).recent, lo, hi) ==
            RateLimiter.Count(s.recent, lo, hi) + (if more != [] && lo <= more[0] <= hi then 1 else 0)
    ensures LetInBy(caps, s, e) != [] ==> RateLimiter.Count(s.recent, lo, hi) < caps.maxNewPerSecond
  {
    if e.act.Open? && s.active < caps.max {
      var kept := RateLimiter.Recent(s.recent, e.at, 1.0);
      RateLimiter.CountPruned(s.recent, e.at, 1.0, lo, hi);
      RateLimiter.CountAtMostAll(kept, lo, hi);
      CountMore(kept, LetInBy(caps, s, e), lo, hi);
    }
  }

  /** None of the first n readings is a second past lo. */
  ghost predicate WithinASecond(run: seq<Step>, n: nat, lo: real)
    requires n <= |run|
  {
    n > 0 ==> run[n - 1].at - lo < 1.0 && WithinASecond(run, n - 1, lo)
  }

  /** None of the first n readings goes back. */
  ghost predicate Ascending(run: seq<Step>, n: nat)
    requires n <= |run|
  {
    n > 1 ==> run[n - 2].at <= run[n - 1].at && Ascending(run, n - 1)
  }

  lemma {:induction false} EarlierReadings(run: seq<Step>, n: nat, lo: real)
    requires n <= |run| && Ascending(run, n) && (n > 0 ==> run[n - 1].at - lo < 1.0)
    ensures WithinASecond(run, n, lo)
  {
    if n > 1 {
      EarlierReadings(run, n - 1, lo);
    }
  }

  lemma {:induction false} RecordHoldsInterval(caps: Caps, run: seq<Step>, n: nat, lo: real, hi: real)
    requires Legal(caps, run) && n <= |run| && WithinASecond(run, n, lo)
    ensures RateLimiter.Count(Run(caps, run, n).recent, lo, hi) == RateLimiter.Count(LetInAt(caps, run, n), lo, hi)
  {
    if n > 0 {
      var s := Run(caps, run, n - 1);
      RecordHoldsInterval(caps, run, n - 1, lo, hi);
      Machines.StepOfRun(MachineOf(caps), run, n);
      RecordStep(caps, s, run[n - 1], lo, hi);
      CountMore(LetInAt(caps, run, n - 1), LetInBy(caps, s, run[n - 1]), lo, hi);
    }
  }

  lemma {:induction false} StillPermitted(caps: Caps, s: Server, e: Step, before: seq<real>, lo: real, hi: real)
    requires Enabled(s, e) && hi - lo < 1.0 && RateLimiter.Count(before, lo, hi) <= caps.maxNewPerSecond
    requires e.at - lo < 1.0 ==> RateLimiter.Count(s.recent, lo, hi) == RateLimiter.Count(before, lo, hi)
    ensures RateLimiter.Count(before + LetInBy(caps, s, e), lo, hi) <= caps.maxNewPerSecond
  {
    CountMore(before, LetInBy(caps, s, e), lo, hi);
    if e.at - lo < 1.0 {
      RecordStep(caps, s, e, lo, hi);
    }
  }

  /** Over whole runs whose readings do not go back, leaks and all: no interval shorter than a second sees more
      connections let in than are permitted. */
  lemma {:induction false} NeverFasterThan(caps: Caps, run: seq<Step>, n: nat, lo: real, hi: real)
    requires Legal(caps, run) && n <= |run| && caps.maxNewPerSecond >= 0 && hi - lo < 1.0
    requires Ascending(run, n)
    ensures RateLimiter.Count(LetInAt(caps, run, n), lo, hi) <= caps.maxNewPerSecond
  {
    if n > 0 {
      var s, before := Run(caps, run, n - 1), LetInAt(caps, run, n - 1);
      assert LetInAt(caps, run, n) == before + LetInBy(caps, s, run[n - 1]);
      NeverFasterThan(caps, run, n - 1, lo, hi);
      assert Enabled(s, run[n - 1]) by {
        Machines.StepOfRun(MachineOf(caps), run, n);
      }
      if run[n - 1].at - lo < 1.0 {
        EarlierReadings(run, n, lo);
        RecordHoldsInterval(caps, run, n - 1, lo, hi);
      }
      StillPermitted(caps, s, run[n - 1], before, lo, hi);
    }
  }

  // ---------- the balance of leaks and extra releases ----------

  function Leaks(run: seq<Step>, n: nat): nat
    requires n <= |run|
  {
    if n == 0 then 0 else Leaks(run, n - 1) + (if run[n - 1].act.FailHandshake? then 1 else 0)
  }

  function Fails(run: seq<Step>, n: nat): nat
    requires n <= |run|
  {
    if n == 0 then 0 else Fails(run, n - 1) + (if run[n - 1].act.FailAuth? then 1 else 0)
  }

  /** How many releases have found the counter at zero: the furthest that extra releases have ever run ahead of lost
      handshakes and open connections together. */
  ghost function Wasted(caps: Caps, run: seq<Step>, n: nat): nat
    requires n <= |run|
  {
    var ahead := Fails(run, n) - Leaks(run, n) - |Run(caps, run, n).open|;
    var before := if n == 0 then 0 else Wasted(caps, run, n - 1);
    if ahead > before then ahead else before
  }

  lemma {:induction false} StepBalance(caps: Caps, s: Server, e: Step, wasted: nat, owed: int)
    requires Enabled(s, e) && s.active == |s.open| + owed + wasted >= 0
    ensures var s' := Next(caps, s, e);
            var owed' := owed + (if e.act.FailHandshake? then 1 else if e.act.FailAuth? then -1 else 0);
            var ahead := -owed' - |s'.open|;
            s'.active == |s'.open| + owed' + (if ahead > wasted then ahead else wasted) >= 0
  {
    if e.act.Open? {
      assert |s.open + {e.act.id}| == |s.open| + 1;
    } else if !e.act.Join? {
      assert |s.open - {e.act.id}| == |s.open| - 1;
    }
  }

  /** At every moment of every run the counter is the number of open connections, plus one for every lost handshake,
      less one for every failed authentication, plus the releases that found it at zero. */
  lemma {:induction false} BalanceOfCounter(caps: Caps, run: seq<Step>, n: nat)
    requires Legal(caps, run) && n <= |run|
    ensures Run(caps, run, n).active == |Run(caps, run, n).open| + Leaks(run, n) - Fails(run, n) +
            Wasted(caps, run, n) >= 0
  {
    if n > 0 {
      BalanceOfCounter(caps, run, n - 1);
      StepBalance(caps, Run(caps, run, n - 1), run[n - 1], Wasted(caps, run, n - 1),
          Leaks(run, n - 1) - Fails(run, n - 1));
    }
  }

  /** So at any one moment the counter is right exactly when the failed authentications balance the lost handshakes and
      the wasted releases: a leak and an extra release can cancel. */
  lemma {:induction false} CountedIffBalanced(caps: Caps, run: seq<Step>, n: nat)
    requires Legal(caps, run) && n <= |run|
    ensures Counted(Run(caps, run, n)) <==> Leaks(run, n) + Wasted(caps, run, n) == Fails(run, n)
  {
    BalanceOfCounter(caps, run, n);
  }

  /** Without failed authentications every lost handshake takes away one place for good. */
  lemma {:induction false} LeaksShrinkCapacity(caps: Caps, run: seq<Step>, n: nat)
    requires Legal(caps, run) && n <= |run| && caps.max >= 0 && Fails(run, n) == 0
    ensures |Run(caps, run, n).open| <= caps.max - Leaks(run, n)
  {
    BalanceOfCounter(caps, run, n);
    CountedMeansCapped(caps, run, n);
  }

  lemma {:induction false} ActiveStaysWithin(caps: Caps, s: Server, e: Step)
    requires 0 <= s.active <= caps.max
    ensures 0 <= Next(caps, s, e).active <= caps.max
  {
  }

  /** The counter itself never passes the cap; so wherever it is right, the number of open connections does not
      either. */
  lemma {:induction false} CountedMeansCapped(caps: Caps, run: seq<Step>, n: nat)
    requires n <= |run| && caps.max >= 0
    ensures 0 <= Run(caps, run, n).active <= caps.max
    ensures Counted(Run(caps, run, n)) ==> |Run(caps, run, n).open| <= caps.max
  {
    if n > 0 {
      CountedMeansCapped(caps, run, n - 1);
      ActiveStaysWithin(caps, Run(caps, run, n - 1), run[n - 1]);
    }
  }

  /** From any full house of two or more joined connections, one failed authentication lets in one too many. */
  lemma {:induction false} FailedAuthOverfills(caps: Caps, s: Server, id: nat, a: nat, b: nat, at: real)
    requires Counted(s) && s.active == caps.max >= 2 && caps.maxNewPerSecond > 0
    requires id in s.open && id !in s.joining && a !in s.open && b !in s.open && a != b
    requires forall i | 0 <= i < |s.recent| :: s.recent[i] <= at
    ensures var e1, e2, e3 := Step(at, FailAuth(id)), Step(at + 1.0, Open(a, at + 1.0)),
            Step(at + 2.0, Open(b, at + 2.0));
            var s1 := Next(caps, s, e1);
            var s2 := Next(caps, s1, e2);
            Enabled(s, e1) && Enabled(s1, e2) && Enabled(s2, e3) && |Next(caps, s2, e3).open| == caps.max + 1
  {
    var s1 := Next(caps, s, Step(at, FailAuth(id)));
    assert |s1.open| == |s.open| - 1;
    OpenGranted(caps, s1, a, at, at + 1.0);
    var s2 := Next(caps, s1, Step(at + 1.0, Open(a, at + 1.0)));
    OpenGranted(caps, s2, b, at + 1.0, at + 2.0);
  }

  lemma {:induction false} OpenGranted(caps: Caps, s: Server, id: nat, last: real, now: real)
    requires s.active < caps.max && caps.maxNewPerSecond > 0 && id !in s.open
    requires (forall i | 0 <= i < |s.recent| :: s.recent[i] <= last) && now >= last + 1.0
    ensures var s' := Next(caps, s, Step(now, Open(id, now)));
            s'.active == s.active + 1 && s'.recent == [now] && s'.open == s.open + {id} && |s'.open| == |s.open| + 1
  {
    NothingRecent(s.recent, last, now);
    assert |s.open + {id}| == |s.open| + 1;
  }

  lemma {:induction false} NothingRecent(ts: seq<real>, last: real, now: real)
    requires (forall i | 0 <= i < |ts| :: ts[i] <= last) && now >= last + 1.0
    ensures RateLimiter.Recent(ts, now, 1.0) == []
  {
    if ts != [] {
      NothingRecent(ts[..|ts| - 1], last, now);
    }
  }
}
