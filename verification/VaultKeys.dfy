/** When the key of an unlocked vault opens its user's marker, in runs of overlapping calls. */
module VaultKeys {
  import opened Common
  import opened Vault
  import opened VaultFlights
  import Machines

  /** The steps that can set the key and the marker at odds: a new key for a vault that counts as unlocked, and an
      unlock that succeeds after the key was dropped, or after a switch to a user whose marker it does not open. */
  ghost predicate Harmless(cr: Crypto, w: World, t: Step) {
    match t
    case BridgeReady(salt, _) =>
      w.flight.Some? && w.v.isUnlocked ==>
        var f := w.flight.value;
        KeyFrom(cr, WithSalt(w.v, f.user, salt), f.user, f.password) == w.v.key
    case Land =>
      w.flight.Some? ==> (
        match w.flight.value.stage
        case Checking(checked, key, true) =>
          && w.v.key == key
          && (UserOf(w.v) == checked ||
              (Stored(w.v.ls, MarkerKey(UserOf(w.v))) && Open(cr, key, w.v.ls[MarkerKey(UserOf(w.v))]).Some?))
        case Marking(key, Some(_)) => w.v.key == key
        case _ => true)
    case _ => true
  }

  lemma {:induction false} ReadyOpensIff(cr: Crypto, w: World, f: Flight, salt: string, nonce: string)
    requires Lawful(cr) && Inv(cr, w) && KeyOpensMarker(cr, w.v) && w.flight == Some(f) && f.stage.Starting?
    ensures KeyOpensMarker(cr, Readied(cr, w, f, salt, nonce).v) <==>
            (w.v.isUnlocked ==> KeyFrom(cr, WithSalt(w.v, f.user, salt), f.user, f.password) == w.v.key)
  {
    MarkerNeverSalt(UserOf(w.v), f.user);
    var v := WithSalt(w.v, f.user, salt);
    assert UserOf(v) == UserOf(w.v) && SameAt(MarkerKey(UserOf(v)), w.v.ls, v.ls);
  }

  lemma {:induction false} LandOpensIff(cr: Crypto, w: World)
    requires Lawful(cr) && Inv(cr, w) && KeyOpensMarker(cr, w.v) && Enabled(w, Land)
    ensures KeyOpensMarker(cr, After(cr, w, Land).v) <==> Harmless(cr, w, Land)
  {
    match w.flight.value.stage
    case Checking(checked, key, opens) =>
    case Marking(key, cipher) =>
  }

  lemma {:induction false} JobStepOpens(cr: Crypto, w: World, t: Step)
    requires Inv(cr, w) && KeyOpensMarker(cr, w.v) && Enabled(w, t) && (t.Resume? || t.AskDelete?)
    ensures KeyOpensMarker(cr, After(cr, w, t).v)
  {
    var v := After(cr, w, t).v;
    if t.AskDelete? {
      if UserOf(w.v) != "" {
        CurrentIsPlain(w);
        OpeningKept(cr, w.v, v, UserOf(w.v), t.k);
      }
    } else {
      match w.jobs[t.j].wait
      case ToPut(owner, k, cipher, _) => OpeningKept(cr, w.v, v, owner, k);
      case ToDrop(k, copy) => OpeningKept(cr, w.v, v, copy.owner, k);
      case _ =>
    }
  }

  lemma {:induction false} StepOpensIff(cr: Crypto, w: World, t: Step)
    requires Lawful(cr) && Inv(cr, w) && KeyOpensMarker(cr, w.v) && Enabled(w, t)
    ensures KeyOpensMarker(cr, After(cr, w, t).v) <==> Harmless(cr, w, t)
  {
    match t
    case BridgeReady(salt, nonce) => ReadyOpensIff(cr, w, w.flight.value, salt, nonce);
    case Land => LandOpensIff(cr, w);
    case AskDelete(_) => JobStepOpens(cr, w, t);
    case Resume(_, _, _) => JobStepOpens(cr, w, t);
    case _ =>
  }

  /** At every moment up to the n-th, an unlocked vault holds the key of its user's marker. */
  ghost predicate OpensThrough(cr: Crypto, start: World, run: seq<Step>, n: nat)
    requires n <= |run|
  {
    KeyOpensMarker(cr, RunTo(cr, start, run, n).v) && (n > 0 ==> OpensThrough(cr, start, run, n - 1))
  }

  ghost predicate HarmlessThrough(cr: Crypto, start: World, run: seq<Step>, n: nat)
    requires n <= |run|
  {
    n > 0 ==> HarmlessThrough(cr, start, run, n - 1) && Harmless(cr, RunTo(cr, start, run, n - 1), run[n - 1])
  }

  /** In every run, whatever overlaps: the key opens the marker throughout exactly when every step was harmless. */
  lemma {:induction false} AlwaysOpensIff(cr: Crypto, start: World, run: seq<Step>, n: nat)
    requires Lawful(cr) && FitStart(cr, start) && FitSteps(run) && Legal(cr, start, run) && n <= |run|
    ensures OpensThrough(cr, start, run, n) <==> HarmlessThrough(cr, start, run, n)
  {
    if n > 0 {
      AlwaysOpensIff(cr, start, run, n - 1);
      RunKeepsInv(cr, start, run, n - 1);
      Machines.StepOfRun(MachineOf(cr, start), run, n);
      if OpensThrough(cr, start, run, n - 1) {
        StepOpensIff(cr, RunTo(cr, start, run, n - 1), run[n - 1]);
      }
    }
  }

  // ---------- which switches and locks are safe ----------

  /** An unlock is begun for a locked vault only; none is begun, and the vault is not locked, nor the user switched,
      in the gaps where that matters: not locked while a good key waits for the marker to be read or written, not
      switched while it waits for the marker to be read. */
  ghost predicate Orderly(w: World, t: Step) {
    match t
    case AskUnlock(_) => w.v.isUnlocked ==> w.flight.Some?
    case LockNow => !(w.flight.Some? && (w.flight.value.stage.Checking? || w.flight.value.stage.Marking?))
    case SetUserId(id) =>
      w.flight.Some? && w.flight.value.stage.Checking? ==> UserOf(SetUserSpec(w.v, id)) == UserOf(w.v)
    case _ => true
  }

  ghost predicate OrderlyThrough(cr: Crypto, start: World, run: seq<Step>, n: nat)
    requires n <= |run|
  {
    n > 0 ==> OrderlyThrough(cr, start, run, n - 1) && Orderly(RunTo(cr, start, run, n - 1), run[n - 1])
  }

  ghost predicate InOrder(w: World) {
    w.flight.Some? ==> (
      match w.flight.value.stage
      case Starting => !w.v.isUnlocked
      case Checking(checked, key, _) => w.v.key == key && UserOf(w.v) == checked
      case Marking(key, _) => w.v.key == key
      case Settled(_) => true)
  }

  lemma {:induction false} OrderlyStep(cr: Crypto, w: World, t: Step)
    requires Inv(cr, w) && InOrder(w) && Enabled(w, t) && Orderly(w, t)
    ensures InOrder(After(cr, w, t)) && Harmless(cr, w, t)
  {
    if t.Resume? {
      var s := Segment(cr, w, w.jobs[t.j].wait, t.nonce, t.db);
      assert InOrder(s.0);
    }
  }

  lemma {:induction false} OrderlyMeansInOrder(cr: Crypto, start: World, run: seq<Step>, n: nat)
    requires Lawful(cr) && FitStart(cr, start) && FitSteps(run) && Legal(cr, start, run) && n <= |run|
    requires OrderlyThrough(cr, start, run, n)
    ensures InOrder(RunTo(cr, start, run, n)) && HarmlessThrough(cr, start, run, n)
  {
    if n > 0 {
      OrderlyMeansInOrder(cr, start, run, n - 1);
      RunKeepsInv(cr, start, run, n - 1);
      Machines.StepOfRun(MachineOf(cr, start), run, n);
      OrderlyStep(cr, RunTo(cr, start, run, n - 1), run[n - 1]);
    }
  }

  /** Calls may overlap in any other way. */
  lemma {:induction false} OrderlyMeansOpens(cr: Crypto, start: World, run: seq<Step>, n: nat)
    requires Lawful(cr) && FitStart(cr, start) && FitSteps(run) && Legal(cr, start, run) && n <= |run|
    requires OrderlyThrough(cr, start, run, n)
    ensures OpensThrough(cr, start, run, n)
  {
    OrderlyMeansInOrder(cr, start, run, n);
    AlwaysOpensIff(cr, start, run, n);
  }
}
