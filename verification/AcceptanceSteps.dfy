/** What an attempt has become is what the steps of the run did to it, and what each step does to it and to the
    registry. */
module AcceptanceSteps {
  import opened Common
  import Registry = ReplayRegistry
  import opened EnvelopeAcceptance
  import Machines

  /** The digest of the signature has no live entry in its domain, and there is room for one. */
  ghost predicate Free(c: Registry.Cache, at: real, domain: Registry.Domain, digest: string) {
    var live := set k | k in c && at < c[k].expiresAt;
    Registry.Key(domain, digest) !in live && |live| < 100_000
  }

  lemma {:induction false} FreeIff(c: Registry.Cache, at: real, domain: Registry.Domain, digest: string)
    ensures Free(c, at, domain, digest) <==> Registry.Grants(c, at, Registry.Key(domain, digest))
  {
    var live := Registry.Purge(c, at);
    assert live.Keys == set k | k in c && at < c[k].expiresAt;
    assert |live| == |live.Keys|;
  }

  /** The timestamp is the signed one and inside the window around the whole second. */
  ghost predicate Passes(cfg: Config, env: Setting, sig: Bytes, stamp: int, at: real) {
    at.Floor - cfg.past <= stamp <= at.Floor + cfg.skew && stamp == env.signedStamp(sig)
  }

  // ---------- one step ----------

  /** A check lets through exactly what passes; an attempt that claims goes on exactly if the signature is free. */
  lemma {:induction false} CheckOrClaim(cfg: Config, env: Setting, w: World, s: Step)
    requires Enabled(cfg, w, s) && (s.act.Check? || s.act.ClaimSignature?)
    ensures s.act.Check? ==>
              Next(cfg, env, w, s).attempts[s.act.id] ==
              if Passes(cfg, env, s.act.sig, s.act.stamp, s.at) then Checked(s.act.sig, s.act.stamp, s.at) else Failed
    ensures s.act.ClaimSignature? ==>
              var p := w.attempts[s.act.id];
              Next(cfg, env, w, s).attempts[s.act.id] ==
              if Free(w.cache, s.at, cfg.domain, env.sha3(p.sig))
              then Claimed(p.sig, p.stamp, p.checkedAt, s.at, s.act.token) else Failed
  {
    if s.act.ClaimSignature? {
      FreeIff(w.cache, s.at, cfg.domain, env.sha3(w.attempts[s.act.id].sig));
    }
  }

  /** A settlement hands out the plaintext exactly if it opened. While the claim stands, one that opened keeps the
      signature consumed and one that did not keeps it rejected for another time to live; a back end that is down leaves
      no trace of it, so that it is free at once if there is room. */
  lemma {:induction false} SettleEffect(cfg: Config, env: Setting, w: World, s: Step)
    requires Enabled(cfg, w, s) && s.act.Settle?
    ensures var p, w' := w.attempts[s.act.id], Next(cfg, env, w, s);
            var key := Registry.Key(cfg.domain, env.sha3(p.sig));
            var stands := key in w.cache && w.cache[key].status.Pending? && w.cache[key].token == p.token;
            var until := s.at + cfg.ttl as real;
            && (w'.attempts[s.act.id].Returned? <==> s.act.outcome.Opened?)
            && (w'.attempts[s.act.id].Returned? || w'.attempts[s.act.id].Failed?)
            && (w'.attempts[s.act.id].Returned? ==>
                  w'.attempts[s.act.id].sig == p.sig && w'.attempts[s.act.id].settledAt == s.at)
            && (stands && s.act.outcome.Opened? ==>
                  w'.cache == w.cache[key := Registry.Entry(Registry.Consumed, until, p.token)])
            && (stands && s.act.outcome.BadCiphertext? ==>
                  w'.cache == w.cache[key := Registry.Entry(Registry.Rejected, until, p.token)])
            && (stands && s.act.outcome.BackendDown? ==> w'.cache == w.cache - {key})
            && (!stands ==> w'.cache == w.cache)
  {
  }

  /** A stop of the server loses every attempt that has not returned its plaintext, and the registry unless it is
      durable; a step for another attempt, or of other traffic, leaves this one as it is. */
  lemma {:induction false} OtherSteps(cfg: Config, env: Setting, w: World, s: Step, id: nat)
    requires Enabled(cfg, w, s) && id in w.attempts
    requires s.act.ServerStop? || s.act.Foreign? || s.act.id != id
    ensures id in Next(cfg, env, w, s).attempts
    ensures var p, p' := w.attempts[id], Next(cfg, env, w, s).attempts[id];
            p' == if s.act.ServerStop? && !p.Returned? then Failed else p
    ensures s.act.ServerStop? ==> Next(cfg, env, w, s).cache == if cfg.durable then w.cache else map[]
  {
  }

  // ---------- whole runs ----------

  ghost predicate NoStop(run: seq<Step>, i: nat, n: nat)
    requires n <= |run|
  {
    forall k | i < k < n :: !run[k].act.ServerStop?
  }

  ghost predicate CheckedAtStep(cfg: Config, env: Setting, run: seq<Step>, i: nat, id: nat, p: Phase)
    requires i < |run| && !p.Failed?
  {
    && run[i] == Step(p.checkedAt, Check(id, p.sig, p.stamp))
    && Passes(cfg, env, p.sig, p.stamp, p.checkedAt)
  }

  ghost predicate ClaimedAtStep(cfg: Config, env: Setting, run: seq<Step>, j: nat, id: nat, p: Phase)
    requires j < |run| && Holding(p)
  {
    && run[j] == Step(p.claimedAt, ClaimSignature(id, p.token))
    && Free(Run(cfg, env, run, j).cache, p.claimedAt, cfg.domain, env.sha3(p.sig))
  }

  /** How far an attempt has got is how far the run has taken it: steps i, j and k checked, claimed and opened it. */
  ghost predicate TracedTo(cfg: Config, env: Setting, run: seq<Step>, n: nat, id: nat, p: Phase, i: nat, j: nat, k: nat)
    requires n <= |run|
  {
    match p
    case Failed => true
    case Checked(_, _, _) => i < n && CheckedAtStep(cfg, env, run, i, id, p) && NoStop(run, i, n)
    case Claimed(_, _, _, _, _) =>
      i < j < n && CheckedAtStep(cfg, env, run, i, id, p) && ClaimedAtStep(cfg, env, run, j, id, p) && NoStop(run, i, n)
    case Returned(_, _, _, _, _, _) =>
      && i < j < k < n && CheckedAtStep(cfg, env, run, i, id, p) && ClaimedAtStep(cfg, env, run, j, id, p)
      && run[k] == Step(p.settledAt, Settle(id, Opened)) && NoStop(run, i, k)
  }

  /** Every attempt that stands somewhere was taken there by its own steps, in their order, in time, with its signature
      free when it claimed, and with no stop of the server in between. */
  lemma {:induction false} AttemptTraced(cfg: Config, env: Setting, run: seq<Step>, n: nat, id: nat)
      returns (i: nat, j: nat, k: nat)
    requires Legal(cfg, env, run) && n <= |run| && id in Run(cfg, env, run, n).attempts
    ensures TracedTo(cfg, env, run, n, id, Run(cfg, env, run, n).attempts[id], i, j, k)
    decreases n
  {
    i, j, k := 0, 0, 0;
    Machines.StepOfRun(MachineOf(cfg, env), run, n);
    var w, s := Run(cfg, env, run, n - 1), run[n - 1];
    if s.act.ServerStop? || s.act.Foreign? || s.act.id != id {
      assert id in w.attempts;
      i, j, k := AttemptTraced(cfg, env, run, n - 1, id);
      OtherSteps(cfg, env, w, s, id);
    } else if s.act.Check? {
      i := n - 1;
      CheckOrClaim(cfg, env, w, s);
    } else {
      i, j, k := AttemptTraced(cfg, env, run, n - 1, id);
      if s.act.ClaimSignature? {
        j := n - 1;
        CheckOrClaim(cfg, env, w, s);
      } else {
        k := n - 1;
      }
    }
  }

  /** At most one step of a run settles an attempt, and none does before it claimed. */
  lemma {:induction false} SettledOnce(cfg: Config, env: Setting, run: seq<Step>, i: nat, j: nat, id: nat)
    requires Legal(cfg, env, run) && i < j < |run| && run[i].act.Settle? && run[i].act.id == id
    ensures !(run[j].act.Settle? && run[j].act.id == id)
    ensures id in Run(cfg, env, run, j).attempts && !Run(cfg, env, run, j).attempts[id].Claimed? &&
            !Run(cfg, env, run, j).attempts[id].Checked?
    decreases j
  {
    Machines.StepOfRun(MachineOf(cfg, env), run, j);
    Machines.StepOfRun(MachineOf(cfg, env), run, j + 1);
    if i < j - 1 {
      SettledOnce(cfg, env, run, i, j - 1, id);
    }
  }
}
