/** Concurrent runs of the receiving path: each attempt passes the freshness window and the signature check,
    later claims the signature, later still settles the claim and, on success, hands out the plaintext. The
    attempts, the clock and the traffic of the other registry domains interleave freely, and the server may stop
    between any two steps. */
module EnvelopeAcceptance {
  import opened Common
  import opened ReplayRegistry
  import Machines

  /** `delay` bounds the time one attempt may spend between its freshness check and its claim; `durable`: the registry's
      entries survive a stop of the server. */
  datatype Config = Config(ttl: int, past: nat, skew: nat, delay: real, domain: Domain, durable: bool)

  datatype Phase =
    | Checked(sig: Bytes, stamp: int, checkedAt: real)
    | Claimed(sig: Bytes, stamp: int, checkedAt: real, claimedAt: real, token: Token)
    | Returned(sig: Bytes, stamp: int, checkedAt: real, claimedAt: real, settledAt: real, token: Token)
    | Failed

  datatype Outcome = Opened | BadCiphertext | BackendDown

  datatype Action =
    | Check(id: nat, sig: Bytes, stamp: int)
    | ClaimSignature(id: nat, token: Token)
    | Settle(id: nat, outcome: Outcome)
    | ServerStop
    | Foreign(op: Op)

  datatype Step = Step(at: real, act: Action)

  datatype World = World(cache: Cache, attempts: map<nat, Phase>, now: real, drawn: set<Token>)

  /** What the deployment fixes: the digest used for cache keys, and for each signature the one timestamp
      inside the message it signs. */
  datatype Setting = Setting(sha3: Bytes -> string, signedStamp: Bytes -> int)

  const START := World(map[], map[], 0.0, {})

  predicate Fresh(cfg: Config, stamp: int, now: real) {
    !(stamp < now.Floor - cfg.past || stamp > now.Floor + cfg.skew)
  }

  function SigKey(cfg: Config, env: Setting, sig: Bytes): Key {
    Key(cfg.domain, env.sha3(sig))
  }

  function SettleOp(cfg: Config, key: Key, token: Token, outcome: Outcome): Op {
    match outcome
    case Opened => Commit(key, token, cfg.ttl)
    case BadCiphertext => Reject(key, token, cfg.ttl)
    case BackendDown => Release(key, token)
  }

  ghost predicate Enabled(cfg: Config, w: World, s: Step) {
    s.at >= w.now &&
    match s.act
    case Check(id, _, _) => id !in w.attempts
    case ClaimSignature(id, token) =>
      id in w.attempts && w.attempts[id].Checked? && token !in w.drawn && s.at <= w.attempts[id].checkedAt + cfg.delay
    case Settle(id, _) => id in w.attempts && w.attempts[id].Claimed?
    case ServerStop => true
    case Foreign(op) => op.key.domain != cfg.domain && (op.Claim? ==> op.token !in w.drawn)
  }

  /** A plaintext that was handed out stays handed out; every other attempt is lost. */
  function Stopped(p: Phase): Phase {
    if p.Returned? then p else Failed
  }

  function Next(cfg: Config, env: Setting, w: World, s: Step): World {
    match s.act
    case Check(id, sig, stamp) =>
      var passes := Fresh(cfg, stamp, s.at) && stamp == env.signedStamp(sig);
      w.(now := s.at, attempts := w.attempts[id := if passes then Checked(sig, stamp, s.at) else Failed])
    case ClaimSignature(id, token) =>
      if id in w.attempts && w.attempts[id].Checked? then
        var p := w.attempts[id];
        var key := SigKey(cfg, env, p.sig);
        var phase := if Grants(w.cache, s.at, key) then Claimed(p.sig, p.stamp, p.checkedAt, s.at, token) else Failed;
        World(Apply(w.cache, s.at, Claim(key, token, cfg.ttl)), w.attempts[id := phase], s.at, w.drawn + {token})
      else w
    case Settle(id, outcome) =>
      if id in w.attempts && w.attempts[id].Claimed? then
        var p := w.attempts[id];
        var op := SettleOp(cfg, SigKey(cfg, env, p.sig), p.token, outcome);
        var phase := if outcome.Opened? then Returned(p.sig, p.stamp, p.checkedAt, p.claimedAt, s.at, p.token)
                     else Failed;
        w.(cache := Apply(w.cache, s.at, op), attempts := w.attempts[id := phase], now := s.at)
      else w
    case ServerStop =>
      w.(cache := if cfg.durable then w.cache else map[],
         attempts := map id | id in w.attempts :: Stopped(w.attempts[id]), now := s.at)
    case Foreign(op) =>
      w.(cache := Apply(w.cache, s.at, op), now := s.at, drawn := if op.Claim? then w.drawn + {op.token} else w.drawn)
  }

  ghost function MachineOf(cfg: Config, env: Setting): Machines.Machine<World, Step> {
    Machines.Machine(START, (w: World, s: Step) => Next(cfg, env, w, s), (w: World, s: Step) => Enabled(cfg, w, s))
  }

  ghost function Run(cfg: Config, env: Setting, run: seq<Step>, n: nat): World
    requires n <= |run|
  {
    Machines.Run(MachineOf(cfg, env), run, n)
  }

  ghost predicate Legal(cfg: Config, env: Setting, run: seq<Step>) {
    Machines.Legal(MachineOf(cfg, env), run)
  }

  ghost predicate Accepted(w: World, id: nat) {
    id in w.attempts && w.attempts[id].Returned?
  }

  /** No two attempts have handed out the plaintext of one signature. */
  ghost predicate AtMostOnce(w: World) {
    forall a, b | Accepted(w, a) && Accepted(w, b) && a != b :: w.attempts[a].sig != w.attempts[b].sig
  }

  /** Any two attempts that handed out the plaintext of one signature claimed it at least one time to live apart. */
  ghost predicate ApartByTtl(cfg: Config, w: World) {
    forall a, b | Accepted(w, a) && Accepted(w, b) && a != b && w.attempts[a].sig == w.attempts[b].sig ::
      Apart(w.attempts[a].claimedAt, w.attempts[b].claimedAt, cfg.ttl)
  }

  predicate Apart(s: real, t: real, ttl: int) {
    s - t >= ttl as real || t - s >= ttl as real
  }

  /** Any two attempts that handed out the plaintext of one signature did so at least one time to live apart. */
  ghost predicate ReturnsApart(cfg: Config, w: World) {
    forall a, b | Accepted(w, a) && Accepted(w, b) && a != b && w.attempts[a].sig == w.attempts[b].sig ::
      Apart(w.attempts[a].settledAt, w.attempts[b].settledAt, cfg.ttl)
  }

  /** No successful attempt took longer than `hold` from its claim to its settlement. */
  ghost predicate SettledWithin(w: World, hold: real) {
    forall id | Accepted(w, id) :: w.attempts[id].settledAt <= w.attempts[id].claimedAt + hold
  }

  // ---------- the invariant ----------

  predicate Holding(p: Phase) { p.Claimed? || p.Returned? }

  /** The attempt's last word to the registry: a settlement counts if it came before the claim ran out. */
  function LastWord(cfg: Config, p: Phase): real
    requires Holding(p)
  {
    if p.Returned? && p.settledAt < p.claimedAt + cfg.ttl as real then p.settledAt else p.claimedAt
  }

  ghost predicate PhaseOk(cfg: Config, env: Setting, w: World, p: Phase) {
    && (!p.Failed? ==>
          p.checkedAt <= w.now && Fresh(cfg, p.stamp, p.checkedAt) && p.stamp == env.signedStamp(p.sig))
    && (Holding(p) ==>
          && p.checkedAt <= p.claimedAt <= LastWord(cfg, p) <= w.now && p.claimedAt <= p.checkedAt + cfg.delay
          && p.token in w.drawn
          && Barred(w.cache, w.now, SigKey(cfg, env, p.sig), p.token, LastWord(cfg, p), cfg.ttl))
    && (p.Claimed? ==> Unsettled(w.cache, SigKey(cfg, env, p.sig), p.token))
    && (p.Returned? ==> p.claimedAt <= p.settledAt <= w.now)
  }

  /** Of two attempts that hold one signature, one claimed it a full time to live after the other's last word. */
  ghost predicate PairOk(cfg: Config, p: Phase, q: Phase) {
    Holding(p) && Holding(q) ==>
      && p.token != q.token
      && (p.sig == q.sig ==>
            q.claimedAt >= LastWord(cfg, p) + cfg.ttl as real || p.claimedAt >= LastWord(cfg, q) + cfg.ttl as real)
  }

  ghost predicate Inv(cfg: Config, env: Setting, w: World) {
    && (forall id | id in w.attempts :: PhaseOk(cfg, env, w, w.attempts[id]))
    && (forall a, b | a in w.attempts && b in w.attempts && a != b :: PairOk(cfg, w.attempts[a], w.attempts[b]))
  }

  /** A registry operation by others keeps what is known of p. */
  lemma {:induction false} PhaseKept(cfg: Config, env: Setting, w: World, p: Phase, at: real, op: Op, w': World)
    requires PhaseOk(cfg, env, w, p) && at >= w.now
    requires w'.cache == Apply(w.cache, at, op) && w'.now == at && w.drawn <= w'.drawn
    requires Holding(p) ==> op.key != SigKey(cfg, env, p.sig) || op.token != p.token
    ensures PhaseOk(cfg, env, w', p)
  {
    if Holding(p) {
      BarredKept(w.cache, w.now, at, op, SigKey(cfg, env, p.sig), p.token, LastWord(cfg, p), cfg.ttl);
    }
    if p.Claimed? {
      UnsettledKept(w.cache, at, op, SigKey(cfg, env, p.sig), p.token);
    }
  }

  lemma {:induction false} ClaimKeepsInv(cfg: Config, env: Setting, w: World, s: Step)
    requires Inv(cfg, env, w) && Enabled(cfg, w, s) && s.act.ClaimSignature?
    ensures Inv(cfg, env, Next(cfg, env, w, s))
  {
    var id, token, w' := s.act.id, s.act.token, Next(cfg, env, w, s);
    var p := w.attempts[id];
    var key := SigKey(cfg, env, p.sig);
    var op := Claim(key, token, cfg.ttl);
    assert PhaseOk(cfg, env, w, p);
    forall b | b in w.attempts && b != id
      ensures PhaseOk(cfg, env, w', w'.attempts[b])
      ensures PairOk(cfg, w'.attempts[id], w'.attempts[b]) && PairOk(cfg, w'.attempts[b], w'.attempts[id])
    {
      var q := w.attempts[b];
      assert PhaseOk(cfg, env, w, q);
      PhaseKept(cfg, env, w, q, s.at, op, w');
      if Holding(q) && q.sig == p.sig && Grants(w.cache, s.at, key) {
        GrantMeansBarLifted(w.cache, w.now, s.at, key, q.token, LastWord(cfg, q), cfg.ttl);
      }
    }
    if Grants(w.cache, s.at, key) {
      BarredAfterGrant(w.cache, s.at, key, token, cfg.ttl);
    }
    forall a, b | a in w'.attempts && b in w'.attempts && a != b
      ensures PairOk(cfg, w'.attempts[a], w'.attempts[b])
    {
      if a != id && b != id {
        assert PairOk(cfg, w.attempts[a], w.attempts[b]);
      }
    }
  }

  /** What the attempt that settles knows afterwards. */
  lemma {:induction false} SettledPhaseOk(cfg: Config, env: Setting, w: World, s: Step)
    requires Inv(cfg, env, w) && Enabled(cfg, w, s) && s.act.Settle?
    ensures var w' := Next(cfg, env, w, s); PhaseOk(cfg, env, w', w'.attempts[s.act.id])
  {
    var p := w.attempts[s.act.id];
    var key := SigKey(cfg, env, p.sig);
    assert PhaseOk(cfg, env, w, p);
    if s.act.outcome.Opened? {
      if s.at < p.claimedAt + cfg.ttl as real {
        BarredByCommit(w.cache, w.now, s.at, key, p.token, p.claimedAt, cfg.ttl);
      } else {
        BarredKept(w.cache, w.now, s.at, Commit(key, p.token, cfg.ttl), key, p.token, p.claimedAt, cfg.ttl);
      }
    }
  }

  /** A settlement in time comes before any other attempt can have claimed the signature. */
  lemma {:induction false} SettledPairOk(cfg: Config, w: World, p: Phase, q: Phase, at: real)
    requires p.Claimed? && PairOk(cfg, p, q) && PairOk(cfg, q, p) && (Holding(q) ==> q.claimedAt <= at) &&
             p.claimedAt <= at
    ensures var p' := Returned(p.sig, p.stamp, p.checkedAt, p.claimedAt, at, p.token);
            PairOk(cfg, p', q) && PairOk(cfg, q, p')
  {
  }

  lemma {:induction false} SettleKeepsInv(cfg: Config, env: Setting, w: World, s: Step)
    requires Inv(cfg, env, w) && Enabled(cfg, w, s) && s.act.Settle?
    ensures Inv(cfg, env, Next(cfg, env, w, s))
  {
    var id, w' := s.act.id, Next(cfg, env, w, s);
    var p := w.attempts[id];
    var op := SettleOp(cfg, SigKey(cfg, env, p.sig), p.token, s.act.outcome);
    SettledPhaseOk(cfg, env, w, s);
    assert PhaseOk(cfg, env, w, p);
    forall b | b in w.attempts && b != id
      ensures PhaseOk(cfg, env, w', w'.attempts[b])
      ensures PairOk(cfg, w'.attempts[id], w'.attempts[b]) && PairOk(cfg, w'.attempts[b], w'.attempts[id])
    {
      var q := w.attempts[b];
      assert PhaseOk(cfg, env, w, q) && PairOk(cfg, p, q) && PairOk(cfg, q, p);
      PhaseKept(cfg, env, w, q, s.at, op, w');
      SettledPairOk(cfg, w, p, q, s.at);
    }
    forall a, b | a in w'.attempts && b in w'.attempts && a != b
      ensures PairOk(cfg, w'.attempts[a], w'.attempts[b])
    {
      if a != id && b != id {
        assert PairOk(cfg, w.attempts[a], w.attempts[b]);
      }
    }
  }

  lemma {:induction false} OtherStepsKeepInv(cfg: Config, env: Setting, w: World, s: Step)
    requires Inv(cfg, env, w) && Enabled(cfg, w, s) && (s.act.Check? || s.act.Foreign?)
    ensures Inv(cfg, env, Next(cfg, env, w, s))
  {
    var w' := Next(cfg, env, w, s);
    forall b | b in w.attempts
      ensures PhaseOk(cfg, env, w', w.attempts[b])
    {
      var q := w.attempts[b];
      assert PhaseOk(cfg, env, w, q);
      if s.act.Foreign? {
        PhaseKept(cfg, env, w, q, s.at, s.act.op, w');
      }
    }
    forall a, b | a in w'.attempts && b in w'.attempts && a != b
      ensures PairOk(cfg, w'.attempts[a], w'.attempts[b])
    {
      if a in w.attempts && b in w.attempts {
        assert PairOk(cfg, w.attempts[a], w.attempts[b]);
      }
    }
  }

  lemma {:induction false} StopKeepsInv(cfg: Config, env: Setting, w: World, s: Step)
    requires cfg.durable && Inv(cfg, env, w) && Enabled(cfg, w, s) && s.act.ServerStop?
    ensures Inv(cfg, env, Next(cfg, env, w, s))
  {
    var w' := Next(cfg, env, w, s);
    forall b | b in w'.attempts
      ensures PhaseOk(cfg, env, w', w'.attempts[b])
    {
      assert PhaseOk(cfg, env, w, w.attempts[b]);
    }
    forall a, b | a in w'.attempts && b in w'.attempts && a != b
      ensures PairOk(cfg, w'.attempts[a], w'.attempts[b])
    {
      assert PairOk(cfg, w.attempts[a], w.attempts[b]);
    }
  }

  lemma {:induction false} StepKeepsInv(cfg: Config, env: Setting, w: World, s: Step)
    requires cfg.durable && Inv(cfg, env, w) && Enabled(cfg, w, s)
    ensures Inv(cfg, env, Next(cfg, env, w, s))
  {
    match s.act
    case ClaimSignature(_, _) => ClaimKeepsInv(cfg, env, w, s);
    case Settle(_, _) => SettleKeepsInv(cfg, env, w, s);
    case ServerStop => StopKeepsInv(cfg, env, w, s);
    case _ => OtherStepsKeepInv(cfg, env, w, s);
  }

  lemma {:induction false} RunKeepsInv(cfg: Config, env: Setting, run: seq<Step>, n: nat)
    requires cfg.durable && Legal(cfg, env, run) && n <= |run|
    ensures Inv(cfg, env, Run(cfg, env, run, n))
  {
    if n > 0 {
      RunKeepsInv(cfg, env, run, n - 1);
      StepKeepsInv(cfg, env, Run(cfg, env, run, n - 1), run[n - 1]);
    }
  }
}
