/** Whose answer a call of unlock gets, in runs of overlapping calls. */
module VaultAnswers {
  import opened Common
  import opened Vault
  import opened VaultFlights
  import Machines

  /** What a password that is given to the bridge comes to: the salt is the asking user's, the marker the current
      user's. */
  ghost function Verdict(cr: Crypto, v: State, user: string, password: string): Outcome
    requires SaltKey(user) in v.ls
  {
    var key, marker := KeyFrom(cr, v, user, password), MarkerKey(UserOf(v));
    if Stored(v.ls, marker) then (if Open(cr, key, v.ls[marker]).Some? then Unlocked else Refused)
    else if key.Some? then Unlocked
    else Threw
  }

  ghost predicate FlightOk(cr: Crypto, f: Flight) {
    && (f.at.Some? ==> f.user != "" && Stored(f.at.value.ls, SaltKey(f.user)))
    && match f.stage
       case Starting => f.at.None? && f.user != ""
       case Checking(_, _, opens) =>
         f.at.Some? && Verdict(cr, f.at.value, f.user, f.password) == if opens then Unlocked else Refused
       case Marking(_, cipher) =>
         f.at.Some? && Verdict(cr, f.at.value, f.user, f.password) == if cipher.Some? then Unlocked else Threw
       case Settled(outcome) =>
         outcome == if f.at.None? then Threw else Verdict(cr, f.at.value, f.user, f.password)
  }

  /** The flight a call waits for, or waited for. */
  ghost predicate AskOk(w: World, ask: Ask) {
    if ask.flight < |w.flown| then ask.joined || w.flown[ask.flight].password == ask.password
    else ask.flight == |w.flown| && w.flight.Some? && (ask.joined || w.flight.value.password == ask.password)
  }

  ghost predicate Answered(cr: Crypto, w: World) {
    && (w.flight.Some? ==> FlightOk(cr, w.flight.value))
    && (forall i | 0 <= i < |w.flown| :: FlightOk(cr, w.flown[i]) && w.flown[i].stage.Settled?)
    && (forall i | 0 <= i < |w.asks| :: AskOk(w, w.asks[i]))
  }

  lemma {:induction false} AskKeepsAnswers(cr: Crypto, w: World, password: string)
    requires Answered(cr, w)
    ensures Answered(cr, AskFor(w, password))
  {
    var w' := AskFor(w, password);
    forall i | 0 <= i < |w'.asks|
      ensures AskOk(w', w'.asks[i])
    {
      assert i < |w.asks| ==> AskOk(w, w.asks[i]);
    }
  }

  /** A flight that lands or is suspended again keeps its number, its user and its password. */
  lemma {:induction false} FlightKeepsAnswers(cr: Crypto, w: World, w': World)
    requires Answered(cr, w) && w.flight.Some? && w'.flight.Some? && w'.asks == w.asks && w'.flown == w.flown
    requires w'.flight.value.password == w.flight.value.password && FlightOk(cr, w'.flight.value)
    ensures Answered(cr, w')
  {
    forall i | 0 <= i < |w'.asks|
      ensures AskOk(w', w'.asks[i])
    {
      assert AskOk(w, w.asks[i]);
    }
  }

  lemma {:induction false} ClearKeepsAnswers(cr: Crypto, w: World)
    requires Answered(cr, w) && Enabled(w, Clear)
    ensures Answered(cr, After(cr, w, Clear))
  {
    var w' := After(cr, w, Clear);
    forall i | 0 <= i < |w'.asks|
      ensures AskOk(w', w'.asks[i])
    {
      assert AskOk(w, w.asks[i]);
    }
  }

  lemma {:induction false} StepKeepsAnswers(cr: Crypto, w: World, t: Step)
    requires Answered(cr, w) && Enabled(w, t)
    ensures Answered(cr, After(cr, w, t))
  {
    match t
    case AskUnlock(p) => AskKeepsAnswers(cr, w, p);
    case AskSave(_, _, _) => AskKeepsAnswers(cr, w, DEFAULT_PASSWORD);
    case AskLoad(_) => AskKeepsAnswers(cr, w, DEFAULT_PASSWORD);
    case BridgeReady(_, _) => FlightKeepsAnswers(cr, w, After(cr, w, t));
    case BridgeFails => FlightKeepsAnswers(cr, w, After(cr, w, t));
    case Land => FlightKeepsAnswers(cr, w, After(cr, w, t));
    case Clear => ClearKeepsAnswers(cr, w);
    case Resume(j, nonce, db) =>
      AskKeepsAnswers(cr, w, DEFAULT_PASSWORD);
      SegmentAsks(cr, w, w.jobs[j].wait, nonce, db);
    case _ =>
  }

  lemma {:induction false} RunAnswers(cr: Crypto, start: World, run: seq<Step>, n: nat)
    requires FitStart(cr, start) && Legal(cr, start, run) && n <= |run|
    ensures Answered(cr, RunTo(cr, start, run, n))
  {
    if n > 0 {
      RunAnswers(cr, start, run, n - 1);
      Machines.StepOfRun(MachineOf(cr, start), run, n);
      StepKeepsAnswers(cr, RunTo(cr, start, run, n - 1), run[n - 1]);
    }
  }

  /** In every run a call is answered by the verdict on the password of its flight, which is its own unless it joined.
      An unlock that found no user, or no bridge, throws for all who joined it. */
  lemma {:induction false} AnswerIsTheFlights(cr: Crypto, start: World, run: seq<Step>, n: nat, i: nat)
    requires FitStart(cr, start) && Legal(cr, start, run) && n <= |run|
    requires AnswerOf(RunTo(cr, start, run, n), i).Some?
    ensures var w := RunTo(cr, start, run, n);
            var f := w.flown[w.asks[i].flight];
            && (!w.asks[i].joined ==> f.password == w.asks[i].password)
            && (f.at.Some? ==> f.user != "" && Stored(f.at.value.ls, SaltKey(f.user)))
            && AnswerOf(w, i) ==
                 Some(if f.at.None? then Threw else Verdict(cr, f.at.value, f.user, f.password))
  {
    RunAnswers(cr, start, run, n);
    var w := RunTo(cr, start, run, n);
    assert AskOk(w, w.asks[i]);
  }

  /** The user is not switched while an unlock waits for the bridge. */
  ghost predicate Steady(w: World, t: Step) {
    t.SetUserId? && w.flight.Some? && w.flight.value.stage.Starting? ==>
      UserOf(SetUserSpec(w.v, t.id)) == UserOf(w.v)
  }

  ghost predicate SteadyThrough(cr: Crypto, start: World, run: seq<Step>, n: nat)
    requires n <= |run|
  {
    n > 0 ==> SteadyThrough(cr, start, run, n - 1) && Steady(RunTo(cr, start, run, n - 1), run[n - 1])
  }

  ghost predicate OneUser(w: World) {
    && (w.flight.Some? && w.flight.value.stage.Starting? ==> w.flight.value.user == UserOf(w.v))
    && (w.flight.Some? && w.flight.value.at.Some? ==> w.flight.value.user == UserOf(w.flight.value.at.value))
    && (forall i | 0 <= i < |w.flown| && w.flown[i].at.Some? :: w.flown[i].user == UserOf(w.flown[i].at.value))
  }

  lemma {:induction false} SteadyStep(cr: Crypto, w: World, t: Step)
    requires OneUser(w) && Enabled(w, t) && Steady(w, t)
    ensures OneUser(After(cr, w, t))
  {
    if t.Resume? {
      SegmentAsks(cr, w, w.jobs[t.j].wait, t.nonce, t.db);
    }
  }

  lemma {:induction false} SteadyMeansOneUser(cr: Crypto, start: World, run: seq<Step>, n: nat)
    requires FitStart(cr, start) && Legal(cr, start, run) && n <= |run| && SteadyThrough(cr, start, run, n)
    ensures OneUser(RunTo(cr, start, run, n))
  {
    if n > 0 {
      SteadyMeansOneUser(cr, start, run, n - 1);
      Machines.StepOfRun(MachineOf(cr, start), run, n);
      SteadyStep(cr, RunTo(cr, start, run, n - 1), run[n - 1]);
    }
  }

  /** What a call of unlock that overlaps no other would answer for its password in that vault. */
  function OwnAnswer(cr: Crypto, v: State, password: string): Outcome {
    UnlockSpec(cr, v, password, "", "").1
  }

  lemma {:induction false} VerdictIsOwn(cr: Crypto, v: State, password: string)
    requires UserOf(v) != "" && Stored(v.ls, SaltKey(UserOf(v)))
    ensures Verdict(cr, v, UserOf(v), password) == OwnAnswer(cr, v, password)
  {
  }

  /** Two passwords get the same answer exactly when they derive the same key, or there is no marker to tell them apart,
      or neither opens it. */
  lemma {:induction false} SameAnswerIff(cr: Crypto, v: State, p: string, q: string, k: Key, l: Key)
    requires Lawful(cr) && UserOf(v) != "" && Stored(v.ls, SaltKey(UserOf(v)))
    requires cr.kdf(p, v.ls[SaltKey(UserOf(v))]) == Some(k) && cr.kdf(q, v.ls[SaltKey(UserOf(v))]) == Some(l)
    ensures OwnAnswer(cr, v, p) == OwnAnswer(cr, v, q) <==>
            var marker := MarkerKey(UserOf(v));
            || k == l || !Stored(v.ls, marker)
            || (cr.dec(k, v.ls[marker]).None? && cr.dec(l, v.ls[marker]).None?)
  {
  }

  /** What the vault held when call i was decided: the state its flight found. */
  function Found(w: World, i: nat): Option<State> {
    if i < |w.asks| && w.asks[i].flight < |w.flown| then w.flown[w.asks[i].flight].at else None
  }

  /** The answer is that of the call's own password whenever it began its flight. If it joined one, it is exactly when
      its key is that of the other password, or no marker is there to decide, or neither key opens it. */
  lemma {:induction false} OwnAnswerIff(cr: Crypto, start: World, run: seq<Step>, n: nat, i: nat, k: Key, l: Key)
    requires Lawful(cr) && FitStart(cr, start) && Legal(cr, start, run) && n <= |run|
    requires SteadyThrough(cr, start, run, n)
    requires var w := RunTo(cr, start, run, n); AnswerOf(w, i).Some? && Found(w, i).Some?
    ensures var w := RunTo(cr, start, run, n);
            var v, f := Found(w, i).value, w.flown[w.asks[i].flight];
            var salt, marker := SaltKey(UserOf(v)), MarkerKey(UserOf(v));
            && salt in v.ls
            && (!w.asks[i].joined ==> AnswerOf(w, i) == Some(OwnAnswer(cr, v, w.asks[i].password)))
            && (cr.kdf(w.asks[i].password, v.ls[salt]) == Some(k) && cr.kdf(f.password, v.ls[salt]) == Some(l) ==>
                 (AnswerOf(w, i) == Some(OwnAnswer(cr, v, w.asks[i].password)) <==>
                  || k == l || !Stored(v.ls, marker)
                  || (cr.dec(k, v.ls[marker]).None? && cr.dec(l, v.ls[marker]).None?)))
  {
    var w := RunTo(cr, start, run, n);
    AnswerIsTheFlights(cr, start, run, n, i);
    SteadyMeansOneUser(cr, start, run, n);
    var v, f := Found(w, i).value, w.flown[w.asks[i].flight];
    VerdictIsOwn(cr, v, f.password);
    var salt := SaltKey(UserOf(v));
    if cr.kdf(w.asks[i].password, v.ls[salt]) == Some(k) && cr.kdf(f.password, v.ls[salt]) == Some(l) {
      SameAnswerIff(cr, v, w.asks[i].password, f.password, k, l);
    }
  }

  // ---------- the bridge ----------

  /** A call that finds the bridge unable to start is answered by the failure, and leaves the vault as it was. */
  lemma {:induction false} BridgeFailsAlone(cr: Crypto, w: World, password: string)
    requires w.flight.None? && !w.ready && UserOf(w.v) != ""
    ensures var w1 := AskFor(w, password);
            var w2 := After(cr, w1, BridgeFails);
            var w3 := After(cr, w2, Clear);
            && Enabled(w1, BridgeFails) && Enabled(w2, Clear)
            && w3.v == w.v && w3.flight.None? && !w3.ready && AnswerOf(w3, |w.asks|) == Some(Threw)
  {
  }

  /** The bridge is ready from the first time on that it has started. */
  lemma {:induction false} ReadyIff(cr: Crypto, start: World, run: seq<Step>, n: nat)
    requires Legal(cr, start, run) && n <= |run|
    ensures RunTo(cr, start, run, n).ready <==> start.ready || exists k :: 0 <= k < n && run[k].BridgeReady?
  {
    if n > 0 {
      ReadyIff(cr, start, run, n - 1);
      var w, w' := RunTo(cr, start, run, n - 1), RunTo(cr, start, run, n);
      assert Enabled(w, run[n - 1]) && w' == After(cr, w, run[n - 1]) by {
        Machines.StepOfRun(MachineOf(cr, start), run, n);
      }
      StepReadies(cr, w, run[n - 1]);
      assert w'.ready <==> w.ready || run[n - 1].BridgeReady?;
    }
  }

  lemma {:induction false} StepReadies(cr: Crypto, w: World, t: Step)
    requires Enabled(w, t)
    ensures After(cr, w, t).ready <==> w.ready || t.BridgeReady?
  {
    if t.Resume? {
      assert Segment(cr, w, w.jobs[t.j].wait, t.nonce, t.db).0.ready == w.ready;
    }
  }
}
