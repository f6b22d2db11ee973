/** How far apart hand-overs of equal envelopes are: exactly, over all runs of both paths. */
module RelayRuns {
  import opened Common
  import Registry = ReplayRegistry
  import opened RelayPath
  import Machines

  const TTL := Registry.RELAY_TTL as real

  /** Whatever the stalls: with a durable registry and commits within the time to live, each request hands on at most
      once, and of two hand-overs of the same bytes one comes a full time to live after the other's last word to the
      registry, so they are apart by the time to live less the stall between that word and the hand-over. */
  lemma {:induction false} HandOversApart(env: Setting, run: seq<Step>)
    requires env.durable && env.wait < TTL && Legal(env, run)
    ensures var w := Run(env, run, |run|);
            && HandsOnOnce(w)
            && forall a, b | a in w.requests && b in w.requests && a != b && Handed(w.requests[a]) &&
                Handed(w.requests[b]) &&
                 w.requests[a].blob == w.requests[b].blob ::
                 LaterThanAnchor(w.requests[a], w.requests[b]) || LaterThanAnchor(w.requests[b], w.requests[a])
  {
    RunKeepsInv(env, run, |run|);
    var w := Run(env, run, |run|);
    forall id | id in w.requests
      ensures HandOvers(w.requests[id]) <= 1 && (HandOvers(w.requests[id]) == 1 <==> Handed(w.requests[id]))
    {
      assert RequestOk(env, w, w.requests[id]);
    }
    forall a, b | a in w.requests && b in w.requests && a != b && Handed(w.requests[a]) && Handed(w.requests[b]) &&
      w.requests[a].blob == w.requests[b].blob
      ensures LaterThanAnchor(w.requests[a], w.requests[b]) || LaterThanAnchor(w.requests[b], w.requests[a])
    {
      var p, q := w.requests[a], w.requests[b];
      assert RequestOk(env, w, p) && RequestOk(env, w, q) && PairOk(p, q);
    }
  }

  lemma {:induction false} BoundedStallMeansApart(env: Setting, run: seq<Step>, gap: real)
    requires env.durable && env.wait < TTL && gap + env.delay <= TTL && Legal(env, run)
    ensures OncePerGap(Run(env, run, |run|), gap)
  {
    HandOversApart(env, run);
    RunKeepsInv(env, run, |run|);
    var w := Run(env, run, |run|);
    forall a, b | a in w.requests && b in w.requests && a != b && Handed(w.requests[a]) && Handed(w.requests[b]) &&
      w.requests[a].blob == w.requests[b].blob
      ensures Apart(w.requests[a].handedAt.value, w.requests[b].handedAt.value, gap)
    {
      var p, q := w.requests[a], w.requests[b];
      assert RequestOk(env, w, p) && RequestOk(env, w, q);
      assert LaterThanAnchor(p, q) || LaterThanAnchor(q, p);
    }
  }

  // ---------- the runs that show the bound is tight ----------

  ghost predicate Reaches(env: Setting, run: seq<Step>, w: Server) {
    Machines.Reaches(MachineOf(env), run, w)
  }

  lemma {:induction false} Grow(env: Setting, run: seq<Step>, w: Server, s: Step, w': Server)
    requires Reaches(env, run, w) && Enabled(env, w, s) && Next(env, w, s) == w'
    ensures Reaches(env, run + [s], w')
  {
    Machines.ReachesNext(MachineOf(env), run, w, s, w');
  }

  function Arrived(route: Route, blob: Bytes, token: Registry.Token, at: real): Request {
    Admitted(route, blob, token, at, None, None, false, None, true)
  }

  function Live(r: Request, at: real): Request
    requires r.Admitted?
  {
    r.(sent := Some(true), handedAt := Some(at))
  }

  /** One request is admitted where no live registry entry stands in its way. */
  lemma {:induction false} Admission(env: Setting, run: seq<Step>, w: Server, id: nat, route: Route, blob: Bytes,
                                     token: Registry.Token, at: real)
      returns (longer: seq<Step>, w': Server)
    requires Reaches(env, run, w) && at >= w.now && id !in w.requests && token !in w.drawn &&
             Registry.Purge(w.cache, at) == map[]
    ensures Reaches(env, longer, w')
    ensures w'.cache == map[NonceKey(env, blob) := Registry.Entry(Registry.Pending, at + TTL, token)] && w'.now == at
    ensures w'.requests == w.requests[id := Arrived(route, blob, token, at)] && w'.drawn == w.drawn + {token}
  {
    var s := Step(at, Arrive(id, route, blob, token));
    longer, w' := run + [s], Next(env, w, s);
    Grow(env, run, w, s, w');
  }

  lemma {:induction false} LiveSend(env: Setting, run: seq<Step>, w: Server, id: nat, at: real)
      returns (longer: seq<Step>, w': Server)
    requires Reaches(env, run, w) && at >= w.now && InFlight(w, id) && w.requests[id].sent.None?
    requires (w.requests[id].route == Rest ==> w.requests[id].committedAt.Some?) &&
             at <= Since(w.requests[id]) + env.delay
    ensures Reaches(env, longer, w')
    ensures w' == w.(requests := w.requests[id := Live(w.requests[id], at)], now := at)
  {
    var s := Step(at, SendLive(id, true));
    longer, w' := run + [s], Next(env, w, s);
    Grow(env, run, w, s, w');
  }

  lemma {:induction false} RestCommit(env: Setting, run: seq<Step>, w: Server, id: nat, at: real)
      returns (longer: seq<Step>, w': Server)
    requires Reaches(env, run, w) && at >= w.now && InFlight(w, id) && w.requests[id].committedAt.None?
    requires w.requests[id].route == Rest && at <= w.requests[id].claimedAt + env.wait
    ensures Reaches(env, longer, w')
    ensures w'.requests == w.requests[id := w.requests[id].(committedAt := Some(at))] && w'.now == at
  {
    var s := Step(at, CommitNonce(id));
    longer, w' := run + [s], Next(env, w, s);
    Grow(env, run, w, s, w');
  }

  lemma {:induction false} Stop(env: Setting, run: seq<Step>, w: Server) returns (longer: seq<Step>, w': Server)
    requires Reaches(env, run, w) && !env.durable
    ensures Reaches(env, longer, w') && w'.cache == map[] && w'.now == w.now && w'.drawn == w.drawn
    ensures w'.requests.Keys == w.requests.Keys && forall id | id in w.requests ::
            w'.requests[id] == Stopped(w.requests[id])
  {
    var s := Step(w.now, ServerStop);
    longer, w' := run + [s], Next(env, w, s);
    Grow(env, run, w, s, w');
  }

  /** Requests 0 and 1 have handed on the same bytes at these two moments. */
  ghost predicate HandedAt(w: Server, blob: Bytes, s: real, t: real) {
    && 0 in w.requests && 1 in w.requests && Handed(w.requests[0]) && Handed(w.requests[1])
    && w.requests[0].blob == w.requests[1].blob == blob
    && w.requests[0].handedAt == Some(s) && w.requests[1].handedAt == Some(t)
  }

  /** A WebSocket request that sends as late as it may, and another one that arrives when the first claim runs out. */
  lemma {:induction false} SlowSocketRun(env: Setting, blob: Bytes) returns (run: seq<Step>, late: real)
    requires env.delay >= 0.0
    ensures Legal(env, run) && late == (if env.delay < TTL then env.delay else TTL)
    ensures HandedAt(Run(env, run, |run|), blob, late, TTL)
  {
    late := if env.delay < TTL then env.delay else TTL;
    var w;
    run, w := Admission(env, [], START, 0, WebSocket, blob, [0], 0.0);
    run, w := LiveSend(env, run, w, 0, late);
    run, w := Admission(env, run, w, 1, WebSocket, blob, [1], TTL);
    run, w := LiveSend(env, run, w, 1, TTL);
  }

  /** Two REST requests of which the first commits so late that its claim has run out and the second has been let in. */
  lemma {:induction false} LateCommitRun(env: Setting, blob: Bytes) returns (run: seq<Step>)
    requires env.wait >= TTL && env.delay >= 0.0
    ensures Legal(env, run) && HandedAt(Run(env, run, |run|), blob, TTL, TTL)
  {
    var w;
    run, w := Admission(env, [], START, 0, Rest, blob, [0], 0.0);
    run, w := Admission(env, run, w, 1, Rest, blob, [1], TTL);
    run, w := RestCommit(env, run, w, 0, TTL);
    run, w := RestCommit(env, run, w, 1, TTL);
    run, w := LiveSend(env, run, w, 0, TTL);
    run, w := LiveSend(env, run, w, 1, TTL);
  }

  /** With the process-local registry a stop of the server lets the same envelope through again at once. */
  lemma {:induction false} VolatileRun(env: Setting, blob: Bytes) returns (run: seq<Step>)
    requires !env.durable && env.delay >= 0.0
    ensures Legal(env, run) && HandedAt(Run(env, run, |run|), blob, 0.0, 0.0)
  {
    var w;
    run, w := Admission(env, [], START, 0, WebSocket, blob, [0], 0.0);
    run, w := LiveSend(env, run, w, 0, 0.0);
    run, w := Stop(env, run, w);
    run, w := Admission(env, run, w, 1, WebSocket, blob, [1], 0.0);
    run, w := LiveSend(env, run, w, 1, 0.0);
  }

  /** Exactly when every run, across server stops, hands on each request at most once and the same bytes at most once in
      any `gap` seconds: the registry is durable, commits come within the time to live of their claims, and the time to
      live covers the gap and the stall before a hand-over. */
  lemma {:induction false} OncePerGapIff(env: Setting, gap: real)
    requires env.delay >= 0.0 && gap > 0.0
    ensures (forall run: seq<Step> | Legal(env, run) :: OncePerGap(Run(env, run, |run|), gap))
            <==> env.durable && env.wait < 86400.0 && gap + env.delay <= 86400.0
  {
    if !env.durable {
      var run := VolatileRun(env, []);
      assert !OncePerGap(Run(env, run, |run|), gap);
    } else if env.wait >= TTL {
      var run := LateCommitRun(env, []);
      assert !OncePerGap(Run(env, run, |run|), gap);
    } else if gap + env.delay > TTL {
      var run, late := SlowSocketRun(env, []);
      assert !OncePerGap(Run(env, run, |run|), gap);
    } else {
      forall run: seq<Step> | Legal(env, run)
        ensures OncePerGap(Run(env, run, |run|), gap)
      {
        BoundedStallMeansApart(env, run, gap);
      }
    }
  }
}
