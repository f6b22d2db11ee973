/** At most one plaintext per signature, and returns apart: exactly when, over all runs of the receiving path. */
module AcceptanceRuns {
  import opened Common
  import Registry = ReplayRegistry
  import opened EnvelopeAcceptance
  import Machines

  /** With no hypothesis on the windows: acceptances of one signature are a full time to live apart, as long as the
      registry is not lost. */
  lemma {:induction false} AcceptancesApart(cfg: Config, env: Setting, run: seq<Step>)
    requires cfg.durable && Legal(cfg, env, run)
    ensures ApartByTtl(cfg, Run(cfg, env, run, |run|))
  {
    var w := Run(cfg, env, run, |run|);
    RunKeepsInv(cfg, env, run, |run|);
    forall a, b | Accepted(w, a) && Accepted(w, b) && a != b && w.attempts[a].sig == w.attempts[b].sig
      ensures Apart(w.attempts[a].claimedAt, w.attempts[b].claimedAt, cfg.ttl)
    {
      assert PairOk(cfg, w.attempts[a], w.attempts[b]);
    }
  }

  /** The time to live outlasts every moment at which a signed timestamp can still be claimed. */
  predicate WindowCovered(cfg: Config) {
    cfg.ttl as real >= (cfg.past + cfg.skew + 1) as real + cfg.delay
  }

  lemma {:induction false} FreshSpread(cfg: Config, stamp: int, s: real, t: real)
    requires Fresh(cfg, stamp, s) && Fresh(cfg, stamp, t)
    ensures t - s < (cfg.past + cfg.skew + 1) as real
  {
    assert t.Floor - s.Floor <= cfg.past + cfg.skew;
  }

  lemma {:induction false} ClaimsClose(cfg: Config, env: Setting, w: World, p: Phase, q: Phase)
    requires WindowCovered(cfg) && Holding(p) && Holding(q) && p.sig == q.sig
    requires PhaseOk(cfg, env, w, p) && PhaseOk(cfg, env, w, q)
    ensures q.claimedAt - p.claimedAt < cfg.ttl as real
  {
    FreshSpread(cfg, p.stamp, p.checkedAt, q.checkedAt);
  }

  lemma {:induction false} CoveredMeansAtMostOnce(cfg: Config, env: Setting, run: seq<Step>)
    requires cfg.durable && Legal(cfg, env, run) && WindowCovered(cfg)
    ensures AtMostOnce(Run(cfg, env, run, |run|))
  {
    var w := Run(cfg, env, run, |run|);
    RunKeepsInv(cfg, env, run, |run|);
    forall a, b | Accepted(w, a) && Accepted(w, b) && a != b
      ensures w.attempts[a].sig != w.attempts[b].sig
    {
      var p, q := w.attempts[a], w.attempts[b];
      assert PairOk(cfg, p, q) && PhaseOk(cfg, env, w, p) && PhaseOk(cfg, env, w, q);
      if p.sig == q.sig {
        ClaimsClose(cfg, env, w, p, q);
        ClaimsClose(cfg, env, w, q, p);
      }
    }
  }

  /** Returns are apart, too, when no settlement comes later than the time to live after its claim. */
  lemma {:induction false} PromptReturnsApart(cfg: Config, env: Setting, run: seq<Step>, hold: real)
    requires cfg.durable && Legal(cfg, env, run)
    requires hold < cfg.ttl as real && SettledWithin(Run(cfg, env, run, |run|), hold)
    ensures ReturnsApart(cfg, Run(cfg, env, run, |run|))
  {
    RunKeepsInv(cfg, env, run, |run|);
    var w := Run(cfg, env, run, |run|);
    forall a, b | Accepted(w, a) && Accepted(w, b) && a != b && w.attempts[a].sig == w.attempts[b].sig
      ensures Apart(w.attempts[a].settledAt, w.attempts[b].settledAt, cfg.ttl)
    {
      var p, q := w.attempts[a], w.attempts[b];
      assert PairOk(cfg, p, q) && PhaseOk(cfg, env, w, p) && PhaseOk(cfg, env, w, q);
    }
  }

  // ---------- the runs that show the bounds are tight ----------

  ghost predicate Reaches(cfg: Config, env: Setting, run: seq<Step>, w: World) {
    Machines.Reaches(MachineOf(cfg, env), run, w)
  }

  lemma {:induction false} Grow(cfg: Config, env: Setting, run: seq<Step>, w: World, s: Step, w': World)
    requires Reaches(cfg, env, run, w) && Enabled(cfg, w, s) && Next(cfg, env, w, s) == w'
    ensures Reaches(cfg, env, run + [s], w')
  {
    Machines.ReachesNext(MachineOf(cfg, env), run, w, s, w');
  }

  lemma {:induction false} PassCheck(cfg: Config, env: Setting, run: seq<Step>, w: World, id: nat, sig: Bytes, at: real)
      returns (longer: seq<Step>, w': World)
    requires Reaches(cfg, env, run, w) && at >= w.now && id !in w.attempts && Fresh(cfg, env.signedStamp(sig), at)
    ensures Reaches(cfg, env, longer, w')
    ensures w' == w.(attempts := w.attempts[id := Checked(sig, env.signedStamp(sig), at)], now := at)
  {
    var s := Step(at, Check(id, sig, env.signedStamp(sig)));
    longer, w' := run + [s], Next(cfg, env, w, s);
    Grow(cfg, env, run, w, s, w');
  }

  lemma {:induction false} WinClaim(cfg: Config, env: Setting, run: seq<Step>, w: World, id: nat, token: Registry.Token,
                                    at: real)
      returns (longer: seq<Step>, w': World)
    requires Reaches(cfg, env, run, w) && at >= w.now && id in w.attempts && w.attempts[id].Checked?
    requires token !in w.drawn && at <= w.attempts[id].checkedAt + cfg.delay && Registry.Purge(w.cache, at) == map[]
    ensures Reaches(cfg, env, longer, w')
    ensures var p := w.attempts[id];
            && w'.attempts == w.attempts[id := Claimed(p.sig, p.stamp, p.checkedAt, at, token)]
            && w'.cache == map[SigKey(cfg, env, p.sig) := Registry.Entry(Registry.Pending, at + cfg.ttl as real, token)]
            && w'.now == at && w'.drawn == w.drawn + {token}
  {
    var s := Step(at, ClaimSignature(id, token));
    longer, w' := run + [s], Next(cfg, env, w, s);
    Grow(cfg, env, run, w, s, w');
  }

  lemma {:induction false} Succeed(cfg: Config, env: Setting, run: seq<Step>, w: World, id: nat, at: real)
      returns (longer: seq<Step>, w': World)
    requires Reaches(cfg, env, run, w) && at >= w.now && id in w.attempts && w.attempts[id].Claimed?
    ensures Reaches(cfg, env, longer, w')
    ensures var p := w.attempts[id];
            && w'.attempts == w.attempts[id := Returned(p.sig, p.stamp, p.checkedAt, p.claimedAt, at, p.token)]
            && w'.cache == Registry.Apply(w.cache, at, Registry.Commit(SigKey(cfg, env, p.sig), p.token, cfg.ttl))
            && w'.now == at && w'.drawn == w.drawn
  {
    var s := Step(at, Settle(id, Opened));
    longer, w' := run + [s], Next(cfg, env, w, s);
    Grow(cfg, env, run, w, s, w');
  }

  /** When a second attempt can be checked and claimed, counted from the moment at which a message with the given stamp
      first counts as fresh and is claimed: as soon as that first claim runs out. */
  lemma {:induction false} SecondChance(cfg: Config, stamp: int) returns (first: real, check: real, claim: real)
    requires !WindowCovered(cfg) && cfg.delay >= 0.0
    ensures first == (stamp - cfg.skew) as real && Fresh(cfg, stamp, first) && Fresh(cfg, stamp, check)
    ensures first <= check <= claim <= check + cfg.delay && claim >= first + cfg.ttl as real
    ensures cfg.ttl > 0 ==> claim == first + cfg.ttl as real
  {
    var window, ttl := (cfg.past + cfg.skew + 1) as real, (if cfg.ttl > 0 then cfg.ttl else 0) as real;
    var wait := if ttl < window then ttl else if ttl > cfg.delay then ttl - cfg.delay else 0.0;
    first := (stamp - cfg.skew) as real;
    check, claim := first + wait, first + ttl;
    assert check.Floor == stamp - cfg.skew + wait.Floor;
    assert wait.Floor <= cfg.past + cfg.skew;
  }

  /** In every deployment, a message that can be received in time at all is accepted twice in some run when the time to
      live is any shorter. */
  lemma {:induction false} UncoveredRun(cfg: Config, env: Setting, sig: Bytes) returns (run: seq<Step>)
    requires !WindowCovered(cfg) && cfg.delay >= 0.0 && env.signedStamp(sig) >= cfg.skew
    ensures Legal(cfg, env, run) && !AtMostOnce(Run(cfg, env, run, |run|))
  {
    var first, check, claim := SecondChance(cfg, env.signedStamp(sig));
    var w;
    run, w := PassCheck(cfg, env, [], START, 0, sig, first);
    run, w := WinClaim(cfg, env, run, w, 0, [0], first);
    run, w := Succeed(cfg, env, run, w, 0, first);
    run, w := PassCheck(cfg, env, run, w, 1, sig, check);
    run, w := WinClaim(cfg, env, run, w, 1, [1], claim);
    run, w := Succeed(cfg, env, run, w, 1, claim);
    assert Accepted(w, 0) && Accepted(w, 1) && w.attempts[0].sig == w.attempts[1].sig;
  }

  /** An attempt that settles only when its claim has run out returns at the same moment as the next one. */
  lemma {:induction false} StalledRun(cfg: Config, env: Setting, sig: Bytes, hold: real) returns (run: seq<Step>)
    requires !WindowCovered(cfg) && cfg.delay >= 0.0 && env.signedStamp(sig) >= cfg.skew &&
             hold >= cfg.ttl as real > 0.0
    ensures Legal(cfg, env, run) && SettledWithin(Run(cfg, env, run, |run|), hold)
    ensures !ReturnsApart(cfg, Run(cfg, env, run, |run|))
  {
    var first, check, claim := SecondChance(cfg, env.signedStamp(sig));
    var w;
    run, w := PassCheck(cfg, env, [], START, 0, sig, first);
    run, w := WinClaim(cfg, env, run, w, 0, [0], first);
    run, w := PassCheck(cfg, env, run, w, 1, sig, check);
    run, w := WinClaim(cfg, env, run, w, 1, [1], claim);
    run, w := Succeed(cfg, env, run, w, 0, claim);
    run, w := Succeed(cfg, env, run, w, 1, claim);
    assert Accepted(w, 0) && Accepted(w, 1) && w.attempts[0].sig == w.attempts[1].sig;
  }

  lemma {:induction false} Stop(cfg: Config, env: Setting, run: seq<Step>, w: World)
      returns (longer: seq<Step>, w': World)
    requires Reaches(cfg, env, run, w) && !cfg.durable
    ensures Reaches(cfg, env, longer, w') && w'.cache == map[] && w'.now == w.now && w'.drawn == w.drawn
    ensures w'.attempts == map id | id in w.attempts :: Stopped(w.attempts[id])
  {
    var s := Step(w.now, ServerStop);
    longer, w' := run + [s], Next(cfg, env, w, s);
    Grow(cfg, env, run, w, s, w');
  }

  /** A registry that is lost with the process lets the same message in again at once, however long entries live. */
  lemma {:induction false} VolatileRun(cfg: Config, env: Setting, sig: Bytes) returns (run: seq<Step>)
    requires !cfg.durable && cfg.delay >= 0.0 && env.signedStamp(sig) >= cfg.skew
    ensures var w := Run(cfg, env, run, |run|);
            && Legal(cfg, env, run) && !AtMostOnce(w) && SettledWithin(w, 0.0)
            && (cfg.ttl > 0 ==> !ReturnsApart(cfg, w))
  {
    var first := (env.signedStamp(sig) - cfg.skew) as real;
    var w;
    run, w := PassCheck(cfg, env, [], START, 0, sig, first);
    run, w := WinClaim(cfg, env, run, w, 0, [0], first);
    run, w := Succeed(cfg, env, run, w, 0, first);
    run, w := Stop(cfg, env, run, w);
    run, w := PassCheck(cfg, env, run, w, 1, sig, first);
    run, w := WinClaim(cfg, env, run, w, 1, [1], first);
    run, w := Succeed(cfg, env, run, w, 1, first);
    assert Accepted(w, 0) && Accepted(w, 1) && w.attempts[0].sig == w.attempts[1].sig;
  }

  /** The exact condition: one plaintext per signature in every run, if and only if the registry outlasts the process
      and the time to live reaches past window + future skew + one second of clock truncation + the longest stall
      between check and claim. It is the same in every single deployment in which some message can be received in
      time. */
  lemma {:induction false} AtMostOnceIffCoveredIn(cfg: Config, env: Setting, sig: Bytes)
    requires cfg.delay >= 0.0 && env.signedStamp(sig) >= cfg.skew
    ensures (forall run: seq<Step> | Legal(cfg, env, run) :: AtMostOnce(Run(cfg, env, run, |run|))) <==>
            cfg.durable && WindowCovered(cfg)
  {
    if !cfg.durable {
      var run := VolatileRun(cfg, env, sig);
    } else if WindowCovered(cfg) {
      forall run: seq<Step> | Legal(cfg, env, run)
        ensures AtMostOnce(Run(cfg, env, run, |run|))
      {
        CoveredMeansAtMostOnce(cfg, env, run);
      }
    } else {
      var run := UncoveredRun(cfg, env, sig);
    }
  }

  /** The same over all deployments at once. */
  lemma {:induction false} AtMostOnceIffCovered(cfg: Config)
    requires cfg.delay >= 0.0
    ensures (forall env: Setting, run: seq<Step> | Legal(cfg, env, run) :: AtMostOnce(Run(cfg, env, run, |run|)))
            <==> cfg.durable && WindowCovered(cfg)
  {
    if cfg.durable && WindowCovered(cfg) {
      forall env: Setting, run: seq<Step> | Legal(cfg, env, run)
        ensures AtMostOnce(Run(cfg, env, run, |run|))
      {
        CoveredMeansAtMostOnce(cfg, env, run);
      }
    } else {
      AtMostOnceIffCoveredIn(cfg, Setting(_ => "", _ => cfg.skew), []);
    }
  }

  /** The exact condition for returns: they are a time to live apart in every run whose settlements come within
      `hold`, if and only if the registry outlasts the process and `hold` is shorter than the time to live, or there
      is at most one return anyway. */
  lemma {:induction false} ReturnsApartIff(cfg: Config, env: Setting, sig: Bytes, hold: real)
    requires cfg.delay >= 0.0 && cfg.ttl > 0 && env.signedStamp(sig) >= cfg.skew && hold >= 0.0
    ensures (forall run: seq<Step> | Legal(cfg, env, run) && SettledWithin(Run(cfg, env, run, |run|), hold) ::
               ReturnsApart(cfg, Run(cfg, env, run, |run|)))
            <==> cfg.durable && (hold < cfg.ttl as real || WindowCovered(cfg))
  {
    if !cfg.durable {
      var run := VolatileRun(cfg, env, sig);
      assert SettledWithin(Run(cfg, env, run, |run|), hold);
    } else if hold < cfg.ttl as real || WindowCovered(cfg) {
      forall run: seq<Step> | Legal(cfg, env, run) && SettledWithin(Run(cfg, env, run, |run|), hold)
        ensures ReturnsApart(cfg, Run(cfg, env, run, |run|))
      {
        if hold < cfg.ttl as real {
          PromptReturnsApart(cfg, env, run, hold);
        } else {
          CoveredMeansAtMostOnce(cfg, env, run);
        }
      }
    } else {
      var run := StalledRun(cfg, env, sig, hold);
    }
  }

  /** The shipped numbers (envelopes: 300, 300, 60; request signatures: 300, 300, 300) do not cover their windows: in
      every deployment every message that can be received in time is accepted twice in some run, even if no entry is
      ever lost. */
  lemma {:induction false} ShippedWindowsNotCovered(env: Setting, sig: Bytes, delay: real, durable: bool)
    requires delay >= 0.0 && env.signedStamp(sig) >= 300
    ensures exists run: seq<Step> ::
              var cfg := Config(300, 300, 60, delay, Registry.Envelope, durable);
              Legal(cfg, env, run) && !AtMostOnce(Run(cfg, env, run, |run|))
    ensures exists run: seq<Step> ::
              var cfg := Config(300, 300, 300, delay, Registry.ApiAuth, durable);
              Legal(cfg, env, run) && !AtMostOnce(Run(cfg, env, run, |run|))
  {
    var r1 := UncoveredRun(Config(300, 300, 60, delay, Registry.Envelope, durable), env, sig);
    var r2 := UncoveredRun(Config(300, 300, 300, delay, Registry.ApiAuth, durable), env, sig);
  }
}
