/** Whose stores change when vault calls overlap. */
module VaultStrays {
  import opened Common
  import opened Vault
  import opened VaultFlights
  import Machines

  // ---------- what a step changes for a user ----------

  /** One entry of one user changes: that user notices exactly if it does. */
  lemma {:induction false} EntryTouch(u: string, owner: string, k: string, v: State, w: State)
    requires PlainId(u) && PlainId(owner)
    requires forall x | x != EntryKey(owner, k) :: SameAt(x, v.ls, w.ls) && SameAt(x, v.idb, w.idb)
    ensures SameFor(u, v, w) <==>
            (owner == u ==> SameAt(EntryKey(owner, k), v.ls, w.ls) && SameAt(EntryKey(owner, k), v.idb, w.idb))
  {
    if owner != u {
      OwnEntryOnly(u, owner, k, v, w);
    } else {
      EntryNeverMarkerOrSalt(owner, k, u);
    }
  }

  lemma {:induction false} SaltTouch(u: string, me: string, v: State, w: State)
    requires PlainId(u) && PlainId(me) && v.idb == w.idb
    requires forall x | x != SaltKey(me) :: SameAt(x, v.ls, w.ls)
    ensures SameFor(u, v, w) <==> me != u || SameAt(SaltKey(me), v.ls, w.ls)
  {
    if me != u {
      OwnMarkerAndSaltOnly(u, me, v, w);
    } else {
      forall k
        ensures SameAt(EntryKey(u, k), v.ls, w.ls) && SameAt(EntryKey(u, k), v.idb, w.idb)
      {
        EntryNeverMarkerOrSalt(u, k, me);
      }
      MarkerNeverSalt(u, me);
    }
  }

  lemma {:induction false} MarkerTouch(u: string, me: string, v: State, w: State)
    requires PlainId(u) && PlainId(me) && v.idb == w.idb
    requires forall x | x != MarkerKey(me) :: SameAt(x, v.ls, w.ls)
    ensures SameFor(u, v, w) <==> me != u || SameAt(MarkerKey(me), v.ls, w.ls)
  {
    if me != u {
      OwnMarkerAndSaltOnly(u, me, v, w);
    } else {
      forall k
        ensures SameAt(EntryKey(u, k), v.ls, w.ls) && SameAt(EntryKey(u, k), v.idb, w.idb)
      {
        EntryNeverMarkerOrSalt(u, k, me);
      }
      MarkerNeverSalt(me, u);
    }
  }

  /** Before any user is set, a deletion can hit a marker. */
  ghost predicate NobodyDeletesMarker(w: World, t: Step, u: string) {
    UserOf(w.v) == "" && t == AskDelete("hermes_lock_test_" + u) && Stored(w.v.ls, MarkerKey(u))
  }

  /** The step changes what is stored for u. */
  ghost predicate Touches(w: World, t: Step, u: string) {
    match t
    case BridgeReady(_, _) => w.flight.Some? && w.flight.value.user == u && !Stored(w.v.ls, SaltKey(u))
    case Land =>
      && w.flight.Some? && w.flight.value.stage.Marking? && w.flight.value.stage.cipher.Some? && UserOf(w.v) == u
      && !(MarkerKey(u) in w.v.ls && w.v.ls[MarkerKey(u)] == w.flight.value.stage.cipher.value)
    case AskDelete(k) =>
      (UserOf(w.v) == u && Stored(w.v.ls, EntryKey(u, k))) || NobodyDeletesMarker(w, t, u)
    case Resume(j, _, db) => j < |w.jobs| && (
      match w.jobs[j].wait
      case ToPut(owner, k, cipher, _) =>
        var store, entry := if db.Works? then w.v.idb else w.v.ls, EntryKey(owner, k);
        owner == u && !db.Fails? && !(entry in store && store[entry] == cipher)
      case ToDrop(k, copy) => copy.owner == u && EntryKey(u, k) in w.v.ls
      case ToErase(owner, k) => owner == u && db.Works? && EntryKey(u, k) in w.v.idb
      case _ => false)
    case _ => false
  }

  lemma {:induction false} DeleteTouchIff(w: World, t: Step, u: string)
    requires UserKnown(w) && t.AskDelete? && PlainId(u)
    ensures SameFor(u, w.v, Erased(w.v, UserOf(w.v), t.k)) <==> !Touches(w, t, u)
  {
    if UserOf(w.v) == "" {
      assert DeleteSpec(w.v, t.k, Absent) == Erased(w.v, UserOf(w.v), t.k);
      NobodyDeletes(w.v, t.k, Absent, u);
      SameTail("hermes_lock_test_", t.k, t.k);
    } else {
      CurrentIsPlain(w);
      EntryTouch(u, UserOf(w.v), t.k, w.v, Erased(w.v, UserOf(w.v), t.k));
    }
  }

  lemma {:induction false} EraseTouchIff(w: World, owner: string, k: string, u: string, v: State)
    requires NobodyOrPlain(owner) && PlainId(u) && v == w.v.(idb := w.v.idb - {EntryKey(owner, k)})
    ensures SameFor(u, w.v, v) <==> !(owner == u && EntryKey(u, k) in w.v.idb)
  {
    if owner == "" {
      forall l
        ensures SameAt(EntryKey(u, l), w.v.idb, v.idb)
      {
        NobodysEntry(u, k, l);
      }
    } else {
      EntryTouch(u, owner, k, w.v, v);
    }
  }

  lemma {:induction false} SegmentTouchIff(cr: Crypto, w: World, j: nat, nonce: string, db: Db, u: string)
    requires JobsOk(w) && j < |w.jobs| && PlainId(u)
    ensures SameFor(u, w.v, Segment(cr, w, w.jobs[j].wait, nonce, db).0.v) <==>
            !Touches(w, Resume(j, nonce, db), u)
  {
    var v := Segment(cr, w, w.jobs[j].wait, nonce, db).0.v;
    assert WaitOk(w, w.jobs[j].wait);
    match w.jobs[j].wait
    case ToPut(owner, k, _, _) => EntryTouch(u, owner, k, w.v, v);
    case ToDrop(k, copy) => EntryTouch(u, copy.owner, k, w.v, v);
    case ToErase(owner, k) =>
      if db.Works? {
        EraseTouchIff(w, owner, k, u, v);
      }
    case _ =>
  }

  lemma {:induction false} ReadyTouchIff(cr: Crypto, w: World, t: Step, u: string)
    requires UserKnown(w) && Enabled(w, t) && PlainId(u) && t.BridgeReady?
    ensures SameFor(u, w.v, After(cr, w, t).v) <==> !Touches(w, t, u)
  {
    SaltTouch(u, w.flight.value.user, w.v, After(cr, w, t).v);
  }

  lemma {:induction false} LandTouchIff(cr: Crypto, w: World, t: Step, u: string)
    requires UserKnown(w) && Enabled(w, t) && PlainId(u) && t.Land?
    ensures SameFor(u, w.v, After(cr, w, t).v) <==> !Touches(w, t, u)
  {
    if w.flight.value.stage.Marking? && w.flight.value.stage.cipher.Some? {
      CurrentIsPlain(w);
      MarkerTouch(u, UserOf(w.v), w.v, After(cr, w, t).v);
    }
  }

  /** Exactly which steps change what is stored for u. */
  lemma {:induction false} TouchesIff(cr: Crypto, w: World, t: Step, u: string)
    requires Inv(cr, w) && Enabled(w, t) && PlainId(u)
    ensures SameFor(u, w.v, After(cr, w, t).v) <==> !Touches(w, t, u)
  {
    match t
    case BridgeReady(_, _) => ReadyTouchIff(cr, w, t, u);
    case Land => LandTouchIff(cr, w, t, u);
    case AskDelete(_) => DeleteTouchIff(w, t, u);
    case Resume(j, nonce, db) => SegmentTouchIff(cr, w, j, nonce, db, u);
    case _ =>
  }

  // ---------- a user who is never current ----------

  /** Nothing is under way on behalf of u. */
  ghost predicate WaitNotOf(wait: Wait, u: string) {
    match wait
    case ToSave(_, _, _, moved) => moved.Some? ==> moved.value.owner != u
    case ToPut(owner, _, _, moved) => owner != u && (moved.Some? ==> moved.value.owner != u)
    case ToDrop(_, copy) => copy.owner != u
    case ToRead(owner, _) => owner != u
    case ToMigrate(_, copy) => copy.owner != u
    case ToErase(owner, _) => owner != u
    case _ => true
  }

  ghost predicate NotOf(w: World, u: string) {
    && UserOf(w.v) != u
    && (w.flight.Some? ==> w.flight.value.user != u)
    && (forall j | 0 <= j < |w.jobs| :: WaitNotOf(w.jobs[j].wait, u))
  }

  lemma {:induction false} NotOfSegment(cr: Crypto, w: World, wait: Wait, nonce: string, db: Db, u: string)
    requires UserOf(w.v) != u && WaitNotOf(wait, u)
    ensures WaitNotOf(Segment(cr, w, wait, nonce, db).1, u)
  {
  }

  /** Only a switch changes who the current user is. */
  lemma {:induction false} UserKept(cr: Crypto, w: World, t: Step)
    requires !t.SetUserId?
    ensures UserOf(After(cr, w, t).v) == UserOf(w.v)
  {
    if t.Resume? && t.j < |w.jobs| {
      SegmentAsks(cr, w, w.jobs[t.j].wait, t.nonce, t.db);
    }
  }

  lemma {:induction false} NotOfStep(cr: Crypto, w: World, t: Step, u: string)
    requires NotOf(w, u) && Enabled(w, t) && UserOf(After(cr, w, t).v) != u
    ensures NotOf(After(cr, w, t), u)
  {
    if t.Resume? {
      var wait := w.jobs[t.j].wait;
      assert WaitNotOf(wait, u);
      UserKept(cr, w, t);
      SegmentAsks(cr, w, wait, t.nonce, t.db);
      SegmentJobs(cr, w, wait, t.nonce, t.db);
      NotOfSegment(cr, w, wait, t.nonce, t.db, u);
    }
  }

  lemma {:induction false} NotOfTouches(w: World, t: Step, u: string)
    requires NotOf(w, u)
    ensures Touches(w, t, u) <==> NobodyDeletesMarker(w, t, u)
  {
    if t.Resume? && t.j < |w.jobs| {
      assert WaitNotOf(w.jobs[t.j].wait, u);
    }
  }

  /** Up to the n-th moment user u has not been the current one. */
  ghost predicate AwayThrough(cr: Crypto, start: World, run: seq<Step>, n: nat, u: string)
    requires n <= |run|
  {
    UserOf(RunTo(cr, start, run, n).v) != u && (n > 0 ==> AwayThrough(cr, start, run, n - 1, u))
  }

  ghost predicate MarkerSparedThrough(cr: Crypto, start: World, run: seq<Step>, n: nat, u: string)
    requires n <= |run|
  {
    n > 0 ==>
      && MarkerSparedThrough(cr, start, run, n - 1, u)
      && !NobodyDeletesMarker(RunTo(cr, start, run, n - 1), run[n - 1], u)
  }

  ghost predicate SameThrough(cr: Crypto, start: World, run: seq<Step>, n: nat, u: string)
    requires n <= |run|
  {
    SameFor(u, start.v, RunTo(cr, start, run, n).v) && (n > 0 ==> SameThrough(cr, start, run, n - 1, u))
  }

  lemma {:induction false} AwayMeansNotOf(cr: Crypto, start: World, run: seq<Step>, n: nat, u: string)
    requires FitStart(cr, start) && Legal(cr, start, run) && n <= |run| && AwayThrough(cr, start, run, n, u)
    ensures NotOf(RunTo(cr, start, run, n), u)
  {
    if n > 0 {
      AwayMeansNotOf(cr, start, run, n - 1, u);
      Machines.StepOfRun(MachineOf(cr, start), run, n);
      NotOfStep(cr, RunTo(cr, start, run, n - 1), run[n - 1], u);
    }
  }

  /** However calls overlap and users are switched, nothing stored for a user changes while that user is never the
      current one; the one exception is a deletion before any user is set that names the user's marker. */
  lemma {:induction false} NeverCurrentNeverTouched(cr: Crypto, start: World, run: seq<Step>, n: nat, u: string)
    requires Lawful(cr) && FitStart(cr, start) && FitSteps(run) && Legal(cr, start, run) && n <= |run| && PlainId(u)
    requires AwayThrough(cr, start, run, n, u)
    ensures SameThrough(cr, start, run, n, u) <==> MarkerSparedThrough(cr, start, run, n, u)
  {
    if n > 0 {
      NeverCurrentNeverTouched(cr, start, run, n - 1, u);
      var w, t := RunTo(cr, start, run, n - 1), run[n - 1];
      AwayMeansNotOf(cr, start, run, n - 1, u);
      RunKeepsInv(cr, start, run, n - 1);
      Machines.StepOfRun(MachineOf(cr, start), run, n);
      NotOfTouches(w, t, u);
      TouchesIff(cr, w, t, u);
      if SameThrough(cr, start, run, n - 1, u) {
        SameForSteps(u, start.v, w.v, RunTo(cr, start, run, n).v);
      }
    }
  }

  // ---------- changes made by other users' calls ----------

  /** The user for whom the call was made that this step belongs to. */
  function Author(w: World, t: Step): string {
    match t
    case BridgeReady(_, _) => if w.flight.Some? then w.flight.value.user else ""
    case Land => if w.flight.Some? then w.flight.value.user else ""
    case Resume(j, _, _) => if j < |w.jobs| then w.jobs[j].caller else ""
    case _ => UserOf(w.v)
  }

  /** A call made as one user changes what is stored for another. */
  ghost predicate Stray(w: World, t: Step, u: string) {
    Touches(w, t, u) && Author(w, t) != u
  }

  /** Whatever each of the first n steps changed for u belonged to a call made as u. */
  ghost predicate OwnCallsOnlyThrough(cr: Crypto, start: World, run: seq<Step>, n: nat, u: string)
    requires n <= |run|
  {
    n > 0 ==>
      && OwnCallsOnlyThrough(cr, start, run, n - 1, u)
      && var w, t := RunTo(cr, start, run, n - 1), run[n - 1];
         SameFor(u, w.v, RunTo(cr, start, run, n).v) || Author(w, t) == u
  }

  ghost predicate NoStrayThrough(cr: Crypto, start: World, run: seq<Step>, n: nat, u: string)
    requires n <= |run|
  {
    n > 0 ==> NoStrayThrough(cr, start, run, n - 1, u) && !Stray(RunTo(cr, start, run, n - 1), run[n - 1], u)
  }

  /** In every run, whatever overlaps: only calls made as u change what is stored for u exactly when no step is a stray,
      which its guard tells before it is taken. */
  lemma {:induction false} OwnCallsOnlyIff(cr: Crypto, start: World, run: seq<Step>, n: nat, u: string)
    requires Lawful(cr) && FitStart(cr, start) && FitSteps(run) && Legal(cr, start, run) && n <= |run| && PlainId(u)
    ensures OwnCallsOnlyThrough(cr, start, run, n, u) <==> NoStrayThrough(cr, start, run, n, u)
  {
    if n > 0 {
      OwnCallsOnlyIff(cr, start, run, n - 1, u);
      RunKeepsInv(cr, start, run, n - 1);
      Machines.StepOfRun(MachineOf(cr, start), run, n);
      TouchesIff(cr, RunTo(cr, start, run, n - 1), run[n - 1], u);
    }
  }

  predicate Undecided(wait: Wait) {
    wait.ToSave? || wait.ToLoad? || wait.ToRead? || wait.ToMigrate?
  }

  /** The user is not switched while an unlock waits for the bridge or for its new marker, nor while a save has
      yet to compose the name of its entry, or a load may yet make a save. Switching while a marker is decrypted is
      harmless here. */
  ghost predicate Calm(w: World, t: Step) {
    t.SetUserId? && UserOf(SetUserSpec(w.v, t.id)) != UserOf(w.v) ==>
      && (w.flight.Some? ==> !w.flight.value.stage.Starting? && !w.flight.value.stage.Marking?)
      && (forall j | 0 <= j < |w.jobs| :: !Undecided(w.jobs[j].wait))
  }

  ghost predicate CalmThrough(cr: Crypto, start: World, run: seq<Step>, n: nat)
    requires n <= |run|
  {
    n > 0 ==> CalmThrough(cr, start, run, n - 1) && Calm(RunTo(cr, start, run, n - 1), run[n - 1])
  }

  ghost predicate JobAtHome(v: State, job: Job) {
    && (Undecided(job.wait) ==> job.caller == UserOf(v))
    && match job.wait
       case ToSave(_, _, _, moved) => moved.Some? ==> moved.value.owner == job.caller
       case ToPut(owner, _, _, moved) => owner == job.caller && (moved.Some? ==> moved.value.owner == job.caller)
       case ToDrop(_, copy) => copy.owner == job.caller
       case ToRead(owner, _) => owner == job.caller
       case ToMigrate(_, copy) => copy.owner == job.caller
       case ToErase(owner, _) => owner == job.caller
       case _ => true
  }

  ghost predicate AtHome(w: World) {
    && (w.flight.Some? && (w.flight.value.stage.Starting? || w.flight.value.stage.Marking?) ==>
          w.flight.value.user == UserOf(w.v))
    && (forall j | 0 <= j < |w.jobs| :: JobAtHome(w.v, w.jobs[j]))
  }

  lemma {:induction false} SegmentAtHome(cr: Crypto, w: World, job: Job, nonce: string, db: Db)
    requires JobAtHome(w.v, job)
    ensures JobAtHome(w.v, Job(job.caller, Segment(cr, w, job.wait, nonce, db).1))
  {
  }

  lemma {:induction false} ResumeAtHome(cr: Crypto, w: World, j: nat, nonce: string, db: Db)
    requires AtHome(w) && j < |w.jobs|
    ensures AtHome(After(cr, w, Resume(j, nonce, db)))
  {
    var w' := After(cr, w, Resume(j, nonce, db));
    UserKept(cr, w, Resume(j, nonce, db));
    SegmentAsks(cr, w, w.jobs[j].wait, nonce, db);
    SegmentJobs(cr, w, w.jobs[j].wait, nonce, db);
    SegmentAtHome(cr, w, w.jobs[j], nonce, db);
    forall i | 0 <= i < |w'.jobs|
      ensures JobAtHome(w'.v, w'.jobs[i])
    {
      assert JobAtHome(w.v, w.jobs[i]);
    }
  }

  lemma {:induction false} CalmStep(cr: Crypto, w: World, t: Step)
    requires AtHome(w) && Enabled(w, t) && Calm(w, t)
    ensures AtHome(After(cr, w, t))
  {
    if t.Resume? {
      ResumeAtHome(cr, w, t.j, t.nonce, t.db);
    } else {
      var w' := After(cr, w, t);
      if !t.SetUserId? {
        UserKept(cr, w, t);
      }
      forall j | 0 <= j < |w'.jobs|
        ensures JobAtHome(w'.v, w'.jobs[j])
      {
        assert j < |w.jobs| ==> JobAtHome(w.v, w.jobs[j]);
      }
    }
  }

  lemma {:induction false} CalmMeansAtHome(cr: Crypto, start: World, run: seq<Step>, n: nat)
    requires FitStart(cr, start) && Legal(cr, start, run) && n <= |run| && CalmThrough(cr, start, run, n)
    ensures AtHome(RunTo(cr, start, run, n))
  {
    if n > 0 {
      CalmMeansAtHome(cr, start, run, n - 1);
      Machines.StepOfRun(MachineOf(cr, start), run, n);
      CalmStep(cr, RunTo(cr, start, run, n - 1), run[n - 1]);
    }
  }

  /** In a calm run whatever changes for a user belongs to a call made as that user, with the same exception. */
  lemma {:induction false} CalmMeansNoStray(cr: Crypto, start: World, run: seq<Step>, n: nat, u: string)
    requires FitStart(cr, start) && Legal(cr, start, run) && n <= |run| && CalmThrough(cr, start, run, n) && u != ""
    ensures NoStrayThrough(cr, start, run, n, u) <==> MarkerSparedThrough(cr, start, run, n, u)
  {
    if n > 0 {
      CalmMeansNoStray(cr, start, run, n - 1, u);
      CalmMeansAtHome(cr, start, run, n - 1);
      Machines.StepOfRun(MachineOf(cr, start), run, n);
      StrayIff(RunTo(cr, start, run, n - 1), run[n - 1], u);
    }
  }

  lemma {:induction false} StrayIff(w: World, t: Step, u: string)
    requires AtHome(w) && Enabled(w, t) && u != ""
    ensures Stray(w, t, u) <==> NobodyDeletesMarker(w, t, u)
  {
    if t.Resume? {
      assert JobAtHome(w.v, w.jobs[t.j]);
    }
  }
}
