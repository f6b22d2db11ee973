/** What a relay request has become is what the steps of the run did to it: where it came from, when it committed, to
    whom it handed on, and what it may still do. */
module RelaySteps {
  import opened Common
  import Registry = ReplayRegistry
  import opened RelayPath
  import Machines

  ghost predicate Did(run: seq<Step>, n: nat, act: Action)
    requires n <= |run|
  {
    exists k :: 0 <= k < n && run[k].act == act
  }

  ghost predicate DidAt(run: seq<Step>, n: nat, act: Action, at: real)
    requires n <= |run|
  {
    exists k :: 0 <= k < n && run[k].act == act && run[k].at == at
  }

  lemma {:induction false} DidNext(run: seq<Step>, n: nat, act: Action, at: real)
    requires n < |run|
    ensures Did(run, n + 1, act) <==> Did(run, n, act) || run[n].act == act
    ensures DidAt(run, n + 1, act, at) <==> DidAt(run, n, act, at) || (run[n].act == act && run[n].at == at)
    ensures DidAt(run, n, act, at) ==> Did(run, n, act)
  {
  }

  // ---------- what the state says of a request, admitted or not ----------

  function Known(w: Server, id: nat): Option<Request> {
    if id in w.requests && w.requests[id].Admitted? then Some(w.requests[id]) else None
  }

  function CommittedAt(w: Server, id: nat): Option<real> {
    if Known(w, id).Some? then w.requests[id].committedAt else None
  }

  function SentAs(w: Server, id: nat): Option<bool> {
    if Known(w, id).Some? then w.requests[id].sent else None
  }

  predicate Queued(w: Server, id: nat) {
    Known(w, id).Some? && w.requests[id].queued
  }

  function HandedAt(w: Server, id: nat): Option<real> {
    if Known(w, id).Some? then w.requests[id].handedAt else None
  }

  ghost predicate ToldPlain(run: seq<Step>, n: nat, w: Server, id: nat)
    requires n <= |run|
  {
    && (CommittedAt(w, id).Some? <==> Did(run, n, CommitNonce(id)))
    && (forall d :: SentAs(w, id) == Some(d) <==> Did(run, n, SendLive(id, d)))
    && (Queued(w, id) <==> Did(run, n, Enqueue(id)))
    && (Queued(w, id) ==> SentAs(w, id) == Some(false))
  }

  ghost predicate ToldTimed(run: seq<Step>, n: nat, w: Server, id: nat, t: real)
    requires n <= |run|
  {
    && (CommittedAt(w, id) == Some(t) <==> DidAt(run, n, CommitNonce(id), t))
    && (HandedAt(w, id) == Some(t) <==> DidAt(run, n, SendLive(id, true), t) || DidAt(run, n, Enqueue(id), t))
  }

  ghost predicate Told(run: seq<Step>, n: nat, w: Server, id: nat)
    requires n <= |run|
  {
    ToldPlain(run, n, w, id) && forall t :: ToldTimed(run, n, w, id, t)
  }

  /** What one step changes of what the state says, and which steps find that it has not been done. */
  ghost predicate Moves(w: Server, w': Server, s: Step, id: nat) {
    var hands := s.act == SendLive(id, true) || s.act == Enqueue(id);
    && CommittedAt(w', id) == (if s.act == CommitNonce(id) then Some(s.at) else CommittedAt(w, id))
    && SentAs(w', id) == (if s.act.SendLive? && s.act.id == id then Some(s.act.delivered) else SentAs(w, id))
    && (Queued(w', id) <==> Queued(w, id) || s.act == Enqueue(id))
    && HandedAt(w', id) == (if hands then Some(s.at) else HandedAt(w, id))
    && (s.act == CommitNonce(id) ==> CommittedAt(w, id) == None)
    && (s.act.SendLive? && s.act.id == id ==> SentAs(w, id) == None)
    && (s.act == Enqueue(id) ==> SentAs(w, id) == Some(false) && !Queued(w, id))
  }

  lemma {:induction false} StepMoves(env: Setting, w: Server, s: Step, id: nat)
    requires Enabled(env, w, s)
    ensures Moves(w, Next(env, w, s), s, id)
  {
    if id !in w.requests && id in Next(env, w, s).requests {
      assert s.act.Arrive? && s.act.id == id;
    }
  }

  lemma {:induction false} PlainKept(run: seq<Step>, n: nat, w: Server, w': Server, id: nat)
    requires n < |run| && ToldPlain(run, n, w, id) && Moves(w, w', run[n], id)
    ensures ToldPlain(run, n + 1, w', id)
  {
    forall d
      ensures SentAs(w', id) == Some(d) <==> Did(run, n + 1, SendLive(id, d))
    {
      DidNext(run, n, SendLive(id, d), 0.0);
      assert SentAs(w, id) == Some(d) <==> Did(run, n, SendLive(id, d));
    }
    DidNext(run, n, Enqueue(id), 0.0);
    DidNext(run, n, CommitNonce(id), 0.0);
  }

  /** A step that hands on finds that nothing has handed on before it. */
  lemma {:induction false} NotHandedYet(run: seq<Step>, n: nat, w: Server, w': Server, id: nat, t: real)
    requires n < |run| && Told(run, n, w, id) && Moves(w, w', run[n], id)
    ensures run[n].act == SendLive(id, true) || run[n].act == Enqueue(id) ==> HandedAt(w, id) != Some(t)
  {
    DidNext(run, n, SendLive(id, true), t);
    DidNext(run, n, Enqueue(id), t);
    assert ToldTimed(run, n, w, id, t);
    assert SentAs(w, id) == Some(true) <==> Did(run, n, SendLive(id, true));
  }

  lemma {:induction false} TimedKept(run: seq<Step>, n: nat, w: Server, w': Server, id: nat, t: real)
    requires n < |run| && Told(run, n, w, id) && Moves(w, w', run[n], id)
    ensures ToldTimed(run, n + 1, w', id, t)
  {
    assert ToldTimed(run, n, w, id, t);
    DidNext(run, n, CommitNonce(id), t);
    DidNext(run, n, SendLive(id, true), t);
    DidNext(run, n, Enqueue(id), t);
    NotHandedYet(run, n, w, w', id, t);
  }

  lemma {:induction false} ToldNext(run: seq<Step>, n: nat, w: Server, w': Server, id: nat)
    requires n < |run| && Told(run, n, w, id) && Moves(w, w', run[n], id)
    ensures Told(run, n + 1, w', id)
  {
    PlainKept(run, n, w, w', id);
    forall t {:trigger ToldTimed(run, n + 1, w', id, t)}
      ensures ToldTimed(run, n + 1, w', id, t)
    {
      TimedKept(run, n, w, w', id, t);
    }
  }

  /** In every run the state of a request records exactly the steps taken for it. */
  lemma {:induction false} RunTells(env: Setting, run: seq<Step>, n: nat, id: nat)
    requires Legal(env, run) && n <= |run|
    ensures Told(run, n, Run(env, run, n), id)
  {
    if n > 0 {
      RunTells(env, run, n - 1, id);
      Machines.StepOfRun(MachineOf(env), run, n);
      StepMoves(env, Run(env, run, n - 1), run[n - 1], id);
      ToldNext(run, n - 1, Run(env, run, n - 1), Run(env, run, n), id);
    }
  }

  // ---------- the theorems ----------

  lemma {:induction false} Arrival(env: Setting, w: Server, s: Step)
    requires s.act.Arrive?
    ensures var r, a := Next(env, w, s).requests[s.act.id], s.act;
            var live := set k | k in w.cache && s.at < w.cache[k].expiresAt;
            && (r.Admitted? <==> Registry.Key(Registry.Relay, env.sha3(a.blob)) !in live && |live| < 100_000)
            && (r.Admitted? ==> r.route == a.route && r.blob == a.blob && r.token == a.token && r.claimedAt == s.at)
  {
    var live := Registry.Purge(w.cache, s.at);
    assert live.Keys == set k | k in w.cache && s.at < w.cache[k].expiresAt;
    assert |live| == |live.Keys|;
  }

  ghost predicate SameArrival(p: Request, q: Request) {
    if p.Admitted? then q.Admitted? && p.route == q.route && p.blob == q.blob && p.token == q.token &&
      p.claimedAt == q.claimedAt
    else q.Refused?
  }

  lemma {:induction false} ArrivalKept(env: Setting, w: Server, s: Step, id: nat)
    requires Enabled(env, w, s) && id in Next(env, w, s).requests && !(s.act.Arrive? && s.act.id == id)
    ensures id in w.requests && SameArrival(w.requests[id], Next(env, w, s).requests[id])
  {
  }

  /** A request in the state arrived with that envelope on that route, and was admitted exactly if the registry had no
      live entry for the digest of its bytes and room for one. */
  lemma {:induction false} RequestOrigin(env: Setting, run: seq<Step>, n: nat, id: nat) returns (i: nat)
    requires Legal(env, run) && n <= |run| && id in Run(env, run, n).requests
    ensures i < n && run[i].act.Arrive? && run[i].act.id == id
    ensures var r, a, c := Run(env, run, n).requests[id], run[i].act, Run(env, run, i).cache;
            var live := set k | k in c && run[i].at < c[k].expiresAt;
            && (r.Admitted? <==> Registry.Key(Registry.Relay, env.sha3(a.blob)) !in live && |live| < 100_000)
            && (r.Admitted? ==> r.route == a.route && r.blob == a.blob && r.token == a.token)
            && (r.Admitted? ==> r.claimedAt == run[i].at)
    decreases n
  {
    Machines.StepOfRun(MachineOf(env), run, n);
    if run[n - 1].act.Arrive? && run[n - 1].act.id == id {
      i := n - 1;
      Arrival(env, Run(env, run, i), run[i]);
    } else {
      ArrivalKept(env, Run(env, run, n - 1), run[n - 1], id);
      i := RequestOrigin(env, run, n - 1, id);
    }
  }

  /** An admitted request passed its envelope on at t exactly if a step of the run did so then: to a live socket that
      took it, or into the queue; and it is queued only after a live socket failed it. */
  lemma {:induction false} HandedIff(env: Setting, run: seq<Step>, n: nat, id: nat, t: real)
    requires Legal(env, run) && n <= |run|
    ensures var w := Run(env, run, n);
            && (id in w.requests && Handed(w.requests[id]) && w.requests[id].handedAt == Some(t) <==>
                DidAt(run, n, SendLive(id, true), t) || DidAt(run, n, Enqueue(id), t))
            && (Did(run, n, Enqueue(id)) ==> Did(run, n, SendLive(id, false)))
  {
    RunTells(env, run, n, id);
    assert ToldTimed(run, n, Run(env, run, n), id, t);
    assert SentAs(Run(env, run, n), id) == Some(false) <==> Did(run, n, SendLive(id, false));
  }

  /** Of a request at most one step ever hands on. */
  lemma {:induction false} HandsOnOnceOnly(env: Setting, run: seq<Step>, i: nat, j: nat, id: nat)
    requires Legal(env, run) && i < j < |run|
    requires run[i].act == SendLive(id, true) || run[i].act == Enqueue(id)
    ensures run[j].act != SendLive(id, true) && run[j].act != Enqueue(id)
  {
    RunTells(env, run, j, id);
    Machines.StepOfRun(MachineOf(env), run, j + 1);
    assert ToldTimed(run, j, Run(env, run, j), id, run[i].at);
    assert DidAt(run, j, run[i].act, run[i].at);
    StepMoves(env, Run(env, run, j), run[j], id);
    NotHandedYet(run, j, Run(env, run, j), Run(env, run, j + 1), id, run[i].at);
  }

  /** Nothing is left to do for a request: it has committed, and it has handed on. */
  ghost predicate Finished(run: seq<Step>, n: nat, id: nat)
    requires n <= |run|
  {
    Did(run, n, CommitNonce(id)) && (Did(run, n, SendLive(id, true)) || Did(run, n, Enqueue(id)))
  }

  /** The step with which a request in flight goes on. A live socket may fail it, so `SendLive` is always one that
      does. */
  ghost function Onward(run: seq<Step>, n: nat, route: Route, id: nat): Action
    requires n <= |run|
  {
    var committed := Did(run, n, CommitNonce(id));
    var tried := Did(run, n, SendLive(id, false)) || Did(run, n, SendLive(id, true));
    if route == Rest then if !committed then CommitNonce(id) else if !tried then SendLive(id, false) else Enqueue(id)
    else if !tried then SendLive(id, false) else if !committed then CommitNonce(id) else Enqueue(id)
  }

  /** No request is stuck: as long as the server is up and the time allowed has not passed, one that is not finished can
      go on, in the order of its route. */
  lemma {:induction false} GoesOn(env: Setting, run: seq<Step>, n: nat, id: nat)
    requires Legal(env, run) && n <= |run| && InFlight(Run(env, run, n), id) && !Finished(run, n, id)
    requires var w := Run(env, run, n);
             w.now <= w.requests[id].claimedAt + env.wait && w.now <= Since(w.requests[id]) + env.delay
    ensures var w := Run(env, run, n);
            Enabled(env, w, Step(w.now, Onward(run, n, w.requests[id].route, id)))
  {
    var w := Run(env, run, n);
    RunTells(env, run, n, id);
    var r := w.requests[id];
    assert SentAs(w, id) == r.sent && CommittedAt(w, id) == r.committedAt && (Queued(w, id) <==> r.queued);
    assert r.sent == Some(false) <==> Did(run, n, SendLive(id, false));
    assert r.sent == Some(true) <==> Did(run, n, SendLive(id, true));
    assert r.sent.Some? ==> r.sent == Some(r.sent.value) && r.sent.value in {false, true};
  }

  /** A request is in flight exactly while it is admitted and the server has not stopped since. */
  lemma {:induction false} InFlightIff(env: Setting, run: seq<Step>, n: nat, id: nat) returns (i: nat)
    requires Legal(env, run) && n <= |run| && id in Run(env, run, n).requests
    ensures i < n && run[i].act.Arrive? && run[i].act.id == id
    ensures InFlight(Run(env, run, n), id) <==>
            Run(env, run, n).requests[id].Admitted? && forall k | i < k < n :: !run[k].act.ServerStop?
    decreases n
  {
    Machines.StepOfRun(MachineOf(env), run, n);
    if run[n - 1].act.Arrive? && run[n - 1].act.id == id {
      i := n - 1;
    } else {
      i := InFlightIff(env, run, n - 1, id);
    }
  }
}
