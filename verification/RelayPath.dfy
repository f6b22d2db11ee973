/** The two ways an envelope travels through the server. REST: claim, commit, live socket, queue. WebSocket: claim,
    live socket, commit, queue. Requests interleave, and the server may stop between any two of their steps. */
module RelayPath {
  import opened Common
  import opened ReplayRegistry
  import Machines

  datatype Route = Rest | WebSocket

  /** A request that was granted its claim, or one that was refused as a replay. `handedAt` is the moment at which it
      passed its envelope on, to a live socket or into the queue. */
  datatype Request =
    | Refused
    | Admitted(route: Route, blob: Bytes, token: Token, claimedAt: real, committedAt: Option<real>,
               sent: Option<bool>, queued: bool, handedAt: Option<real>, alive: bool)

  datatype Action =
    | Arrive(id: nat, route: Route, blob: Bytes, token: Token)
    | CommitNonce(id: nat)
    | SendLive(id: nat, delivered: bool)
    | Enqueue(id: nat)
    | ServerStop
    | Foreign(op: Op)

  datatype Step = Step(at: real, act: Action)

  datatype Server = Server(cache: Cache, requests: map<nat, Request>, now: real, drawn: set<Token>)

  /** `durable`: the registry's entries survive a stop of the server. `wait` bounds the time from a claim to its commit,
      `delay` the time from a request's last word to the registry to its hand-over. */
  datatype Setting = Setting(sha3: Bytes -> string, durable: bool, wait: real, delay: real)

  const START := Server(map[], map[], 0.0, {})

  function NonceKey(env: Setting, blob: Bytes): Key {
    Key(Relay, env.sha3(blob))
  }

  ghost predicate InFlight(w: Server, id: nat) {
    id in w.requests && w.requests[id].Admitted? && w.requests[id].alive
  }

  /** The last time a request has told the registry about its envelope. */
  function Since(r: Request): real
    requires r.Admitted?
  {
    if r.committedAt.Some? then r.committedAt.value else r.claimedAt
  }

  ghost predicate Enabled(env: Setting, w: Server, s: Step) {
    s.at >= w.now &&
    match s.act
    case Arrive(id, _, _, token) => id !in w.requests && token !in w.drawn
    case CommitNonce(id) =>
      && InFlight(w, id) && w.requests[id].committedAt.None?
      && (w.requests[id].route == WebSocket ==> w.requests[id].sent.Some?)
      && s.at <= w.requests[id].claimedAt + env.wait
    case SendLive(id, delivered) =>
      && InFlight(w, id) && w.requests[id].sent.None?
      && (w.requests[id].route == Rest ==> w.requests[id].committedAt.Some?)
      && (delivered ==> s.at <= Since(w.requests[id]) + env.delay)
    case Enqueue(id) =>
      && InFlight(w, id) && w.requests[id].sent == Some(false)
      && w.requests[id].committedAt.Some? && !w.requests[id].queued
      && s.at <= Since(w.requests[id]) + env.delay
    case ServerStop => true
    case Foreign(op) => op.key.domain != Relay && (op.Claim? ==> op.token !in w.drawn)
  }

  function Stopped(r: Request): Request {
    if r.Admitted? then r.(alive := false) else r
  }

  function Next(env: Setting, w: Server, s: Step): Server {
    match s.act
    case Arrive(id, route, blob, token) =>
      var key := NonceKey(env, blob);
      var r := if Grants(w.cache, s.at, key) then Admitted(route, blob, token, s.at, None, None, false, None,
          true) else Refused;
      Server(Apply(w.cache, s.at, Claim(key, token, RELAY_TTL)), w.requests[id := r], s.at, w.drawn + {token})
    case CommitNonce(id) =>
      if id in w.requests && w.requests[id].Admitted? then
        var r := w.requests[id];
        w.(cache := Apply(w.cache, s.at, Commit(NonceKey(env, r.blob), r.token, RELAY_TTL)),
           requests := w.requests[id := r.(committedAt := Some(s.at))], now := s.at)
      else w
    case SendLive(id, delivered) =>
      if id in w.requests && w.requests[id].Admitted? then
        var r := w.requests[id].(sent := Some(delivered));
        w.(requests := w.requests[id := if delivered then r.(handedAt := Some(s.at)) else r], now := s.at)
      else w
    case Enqueue(id) =>
      if id in w.requests && w.requests[id].Admitted? then
        w.(requests := w.requests[id := w.requests[id].(queued := true, handedAt := Some(s.at))], now := s.at)
      else w
    case ServerStop =>
      w.(cache := if env.durable then w.cache else map[],
         requests := map id | id in w.requests :: Stopped(w.requests[id]), now := s.at)
    case Foreign(op) =>
      w.(cache := Apply(w.cache, s.at, op), now := s.at, drawn := if op.Claim? then w.drawn + {op.token} else w.drawn)
  }

  ghost function MachineOf(env: Setting): Machines.Machine<Server, Step> {
    Machines.Machine(START, (w: Server, s: Step) => Next(env, w, s), (w: Server, s: Step) => Enabled(env, w, s))
  }

  ghost function Run(env: Setting, run: seq<Step>, n: nat): Server
    requires n <= |run|
  {
    Machines.Run(MachineOf(env), run, n)
  }

  ghost predicate Legal(env: Setting, run: seq<Step>) {
    Machines.Legal(MachineOf(env), run)
  }

  /** How often a request passed its envelope on: to a live socket, and into the queue. */
  function HandOvers(r: Request): nat {
    if r.Refused? then 0 else (if r.sent == Some(true) then 1 else 0) + (if r.queued then 1 else 0)
  }

  /** The request's last word to the registry before it hands over: the claim for a live hand-over from a WebSocket, the
      commit otherwise. */
  function Anchor(r: Request): real
    requires r.Admitted?
  {
    if r.route == WebSocket && r.sent == Some(true) then r.claimedAt else Since(r)
  }

  /** One hand-over comes a full time to live after the other request's last word to the registry. */
  ghost predicate LaterThanAnchor(first: Request, second: Request)
    requires first.Admitted? && second.Admitted? && second.handedAt.Some?
  {
    second.handedAt.value >= Anchor(first) + RELAY_TTL as real
  }

  ghost predicate Handed(r: Request) {
    r.Admitted? && r.handedAt.Some?
  }

  ghost predicate HandsOnOnce(w: Server) {
    forall id | id in w.requests :: HandOvers(w.requests[id]) <= 1 &&
        (HandOvers(w.requests[id]) == 1 <==> Handed(w.requests[id]))
  }

  predicate Apart(s: real, t: real, gap: real) {
    s - t >= gap || t - s >= gap
  }

  /** Every request hands its envelope on at most once, and hand-overs of the same bytes are `gap` seconds apart. */
  ghost predicate OncePerGap(w: Server, gap: real) {
    && HandsOnOnce(w)
    && forall a, b | a in w.requests && b in w.requests && a != b && Handed(w.requests[a]) && Handed(w.requests[b]) &&
         w.requests[a].blob == w.requests[b].blob :: Apart(w.requests[a].handedAt.value, w.requests[b].handedAt.value,
             gap)
  }

  // ---------- the invariant ----------

  ghost predicate RequestOk(env: Setting, w: Server, r: Request) {
    r.Admitted? ==>
      && r.claimedAt <= Since(r) <= w.now && r.token in w.drawn
      && Barred(w.cache, w.now, NonceKey(env, r.blob), r.token, Since(r), RELAY_TTL)
      && (r.committedAt.None? ==> Unsettled(w.cache, NonceKey(env, r.blob), r.token))
      && (r.queued ==> r.sent == Some(false) && r.committedAt.Some?)
      && (r.handedAt.Some? <==> r.sent == Some(true) || r.queued)
      && (r.handedAt.Some? ==>
            Anchor(r) <= r.handedAt.value <= Anchor(r) + env.delay && r.claimedAt <= r.handedAt.value)
      && (if r.route == Rest then r.sent.Some? ==> r.committedAt.Some? else r.committedAt.Some? ==> r.sent.Some?)
  }

  /** Of two requests with the same bytes, one claimed a full time to live after the other's last word. */
  ghost predicate PairOk(p: Request, q: Request) {
    p.Admitted? && q.Admitted? ==>
      && p.token != q.token
      && (p.blob == q.blob ==>
            q.claimedAt >= Since(p) + RELAY_TTL as real || p.claimedAt >= Since(q) + RELAY_TTL as real)
  }

  ghost predicate Inv(env: Setting, w: Server) {
    && (forall id | id in w.requests :: RequestOk(env, w, w.requests[id]))
    && (forall a, b | a in w.requests && b in w.requests && a != b :: PairOk(w.requests[a], w.requests[b]))
  }

  lemma {:induction false} RequestKept(env: Setting, w: Server, r: Request, at: real, op: Op, w': Server)
    requires RequestOk(env, w, r) && at >= w.now
    requires w'.cache == Apply(w.cache, at, op) && w'.now == at && w.drawn <= w'.drawn
    requires r.Admitted? ==> op.key != NonceKey(env, r.blob) || op.token != r.token
    ensures RequestOk(env, w', r)
  {
    if r.Admitted? {
      BarredKept(w.cache, w.now, at, op, NonceKey(env, r.blob), r.token, Since(r), RELAY_TTL);
      if r.committedAt.None? {
        UnsettledKept(w.cache, at, op, NonceKey(env, r.blob), r.token);
      }
    }
  }

  lemma {:induction false} ArriveKeepsInv(env: Setting, w: Server, s: Step)
    requires Inv(env, w) && Enabled(env, w, s) && s.act.Arrive?
    ensures Inv(env, Next(env, w, s))
  {
    var id, blob, token, w' := s.act.id, s.act.blob, s.act.token, Next(env, w, s);
    var key := NonceKey(env, blob);
    var op := Claim(key, token, RELAY_TTL);
    forall b | b in w.requests
      ensures RequestOk(env, w', w.requests[b]) && PairOk(w'.requests[id], w.requests[b]) &&
              PairOk(w.requests[b], w'.requests[id])
    {
      var q := w.requests[b];
      assert RequestOk(env, w, q);
      RequestKept(env, w, q, s.at, op, w');
      if q.Admitted? && q.blob == blob && Grants(w.cache, s.at, key) {
        GrantMeansBarLifted(w.cache, w.now, s.at, key, q.token, Since(q), RELAY_TTL);
      }
    }
    if Grants(w.cache, s.at, key) {
      BarredAfterGrant(w.cache, s.at, key, token, RELAY_TTL);
    }
    forall a, b | a in w'.requests && b in w'.requests && a != b
      ensures PairOk(w'.requests[a], w'.requests[b])
    {
      if a != id && b != id {
        assert PairOk(w.requests[a], w.requests[b]);
      }
    }
  }

  /** A commit in time renews the bar, and no other request with the same bytes has been admitted meanwhile. */
  lemma {:induction false} CommitKeepsInv(env: Setting, w: Server, s: Step)
    requires env.wait < RELAY_TTL as real && Inv(env, w) && Enabled(env, w, s) && s.act.CommitNonce?
    ensures Inv(env, Next(env, w, s))
  {
    var id, w' := s.act.id, Next(env, w, s);
    var r := w.requests[id];
    var key := NonceKey(env, r.blob);
    var op := Commit(key, r.token, RELAY_TTL);
    assert RequestOk(env, w, r);
    BarredByCommit(w.cache, w.now, s.at, key, r.token, r.claimedAt, RELAY_TTL);
    forall b | b in w.requests && b != id
      ensures RequestOk(env, w', w.requests[b]) && PairOk(w'.requests[id], w.requests[b]) &&
              PairOk(w.requests[b], w'.requests[id])
    {
      var q := w.requests[b];
      assert RequestOk(env, w, q) && PairOk(r, q) && PairOk(q, r);
      RequestKept(env, w, q, s.at, op, w');
    }
    forall a, b | a in w'.requests && b in w'.requests && a != b
      ensures PairOk(w'.requests[a], w'.requests[b])
    {
      if a != id && b != id {
        assert PairOk(w.requests[a], w.requests[b]);
      }
    }
  }

  /** One request changes while the registry does not; its blob, token and words to the registry stay. */
  lemma {:induction false} ChangeKeepsInv(env: Setting, w: Server, id: nat, r: Request, w': Server)
    requires Inv(env, w) && id in w.requests && w.requests[id].Admitted? && r.Admitted?
    requires w' == w.(requests := w.requests[id := r], now := w'.now) && w'.now >= w.now
    requires var p := w.requests[id];
             r.blob == p.blob && r.token == p.token && r.claimedAt == p.claimedAt && r.committedAt == p.committedAt
    requires RequestOk(env, w', r)
    ensures Inv(env, w')
  {
    forall b | b in w.requests && b != id
      ensures RequestOk(env, w', w.requests[b])
    {
      assert RequestOk(env, w, w.requests[b]);
    }
    forall a, b | a in w'.requests && b in w'.requests && a != b
      ensures PairOk(w'.requests[a], w'.requests[b])
    {
      assert PairOk(w.requests[a], w.requests[b]);
    }
  }

  lemma {:induction false} HandOverKeepsInv(env: Setting, w: Server, s: Step)
    requires Inv(env, w) && Enabled(env, w, s) && (s.act.SendLive? || s.act.Enqueue?)
    ensures Inv(env, Next(env, w, s))
  {
    var id, w' := s.act.id, Next(env, w, s);
    assert RequestOk(env, w, w.requests[id]);
    assert RequestOk(env, w', w'.requests[id]);
    ChangeKeepsInv(env, w, id, w'.requests[id], w');
  }

  lemma {:induction false} ForeignKeepsInv(env: Setting, w: Server, s: Step)
    requires Inv(env, w) && Enabled(env, w, s) && s.act.Foreign?
    ensures Inv(env, Next(env, w, s))
  {
    var w' := Next(env, w, s);
    forall b | b in w.requests
      ensures RequestOk(env, w', w.requests[b])
    {
      RequestKept(env, w, w.requests[b], s.at, s.act.op, w');
    }
  }

  lemma {:induction false} StopKeepsInv(env: Setting, w: Server, s: Step)
    requires env.durable && Inv(env, w) && Enabled(env, w, s) && s.act.ServerStop?
    ensures Inv(env, Next(env, w, s))
  {
    var w' := Next(env, w, s);
    forall b | b in w'.requests
      ensures RequestOk(env, w', w'.requests[b])
    {
      assert RequestOk(env, w, w.requests[b]);
    }
    forall a, b | a in w'.requests && b in w'.requests && a != b
      ensures PairOk(w'.requests[a], w'.requests[b])
    {
      assert PairOk(w.requests[a], w.requests[b]);
    }
  }

  lemma {:induction false} StepKeepsInv(env: Setting, w: Server, s: Step)
    requires env.durable && env.wait < RELAY_TTL as real && Inv(env, w) && Enabled(env, w, s)
    ensures Inv(env, Next(env, w, s))
  {
    match s.act
    case Arrive(_, _, _, _) => ArriveKeepsInv(env, w, s);
    case CommitNonce(_) => CommitKeepsInv(env, w, s);
    case Foreign(_) => ForeignKeepsInv(env, w, s);
    case ServerStop => StopKeepsInv(env, w, s);
    case _ => HandOverKeepsInv(env, w, s);
  }

  lemma {:induction false} RunKeepsInv(env: Setting, run: seq<Step>, n: nat)
    requires env.durable && env.wait < RELAY_TTL as real && Legal(env, run) && n <= |run|
    ensures Inv(env, Run(env, run, n))
  {
    if n > 0 {
      RunKeepsInv(env, run, n - 1);
      StepKeepsInv(env, Run(env, run, n - 1), run[n - 1]);
    }
  }
}
