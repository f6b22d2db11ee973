/** Runs of overlapping vault calls that go wrong, and the one that goes right: calls that wait for each other. */
module VaultRaces {
  import opened Common
  import opened Vault
  import opened VaultFlights
  import opened VaultAnswers
  import Machines

  // ---------- calls that do not overlap ----------

  /** The pending unlock, if there is one, is let run to its end. */
  function Settle(cr: Crypto, w: World, salt: string, nonce: string): World {
    if w.flight.None? then w
    else if w.flight.value.stage.Starting? then
      After(cr, After(cr, After(cr, w, BridgeReady(salt, nonce)), Land), Clear)
    else After(cr, w, Clear)
  }

  /** Job j is let run for n more segments, together with every unlock it asks for. */
  function Drive(cr: Crypto, w: World, j: nat, salt: string, nonce: string, db: Db, n: nat): World
    decreases n
  {
    if n == 0 || j >= |w.jobs| || w.jobs[j].wait.Ended? then w
    else Drive(cr, Settle(cr, After(cr, w, Resume(j, nonce, db)), salt, nonce), j, salt, nonce, db, n - 1)
  }

  lemma {:induction false} LandingAlone(cr: Crypto, w: World, f: Flight, salt: string, nonce: string)
    requires w.flight == Some(f) && f.stage.Starting? && f.user == UserOf(w.v) != ""
    ensures var w' := After(cr, After(cr, w, BridgeReady(salt, nonce)), Land);
            var s := UnlockSpec(cr, w.v, f.password, salt, nonce);
            && w'.v == s.0 && w'.flight.Some? && w'.flight.value.stage == Settled(s.1)
            && w'.jobs == w.jobs && w'.flown == w.flown && w'.asks == w.asks
  {
    UnlockByStages(cr, w.v, f.password, salt, nonce);
  }

  /** What unlocking does, told by where it waits. */
  lemma {:induction false} UnlockByStages(cr: Crypto, v: State, password: string, salt: string, nonce: string)
    requires UserOf(v) != ""
    ensures var v1 := WithSalt(v, UserOf(v), salt);
            var key := KeyFrom(cr, v1, UserOf(v), password);
            var s := UnlockSpec(cr, v, password, salt, nonce);
            match StageFrom(cr, v1, key, nonce)
            case Checking(_, _, opens) =>
              s == (v1.(key := key, isUnlocked := opens), if opens then Unlocked else Refused)
            case Marking(_, Some(cipher)) =>
              s == (v1.(key := key, isUnlocked := true, ls := v1.ls[MarkerKey(UserOf(v)) := cipher]), Unlocked)
            case Marking(_, None) => s == (v1.(key := key), Threw)
            case _ => false
  {
  }

  /** An unlock that nothing comes between does and answers what the call on its own does. */
  lemma {:induction false} UnlockAlone(cr: Crypto, w: World, password: string, salt: string, nonce: string)
    requires w.flight.None?
    ensures var w' := Settle(cr, AskFor(w, password), salt, nonce);
            var s := UnlockSpec(cr, w.v, password, salt, nonce);
            && w'.v == s.0 && AnswerOf(w', |w.asks|) == Some(s.1)
            && w'.flight.None? && w'.jobs == w.jobs
  {
    var w1 := AskFor(w, password);
    if UserOf(w.v) != "" {
      LandingAlone(cr, w1, w1.flight.value, salt, nonce);
      var w2 := After(cr, After(cr, w1, BridgeReady(salt, nonce)), Land);
      assert Settle(cr, w1, salt, nonce) == After(cr, w2, Clear);
    } else {
      assert Settle(cr, w1, salt, nonce) == After(cr, w1, Clear);
    }
  }

  /** The same for a call that found the vault locked and waits for the default password. */
  lemma {:induction false} UnlockForJob(cr: Crypto, w: World, job: Job, salt: string, nonce: string)
    requires w.flight.None?
    ensures var w' := Settle(cr, AskFor(w, DEFAULT_PASSWORD).(jobs := w.jobs + [job]), salt, nonce);
            var s := UnlockSpec(cr, w.v, DEFAULT_PASSWORD, salt, nonce);
            && w'.v == s.0 && AnswerOf(w', |w.asks|) == Some(s.1)
            && w'.flight.None? && w'.jobs == w.jobs + [job]
  {
    var w1 := w.(jobs := w.jobs + [job]);
    assert AskFor(w, DEFAULT_PASSWORD).(jobs := w.jobs + [job]) == AskFor(w1, DEFAULT_PASSWORD);
    UnlockAlone(cr, w1, DEFAULT_PASSWORD, salt, nonce);
  }

  /** A segment that asks for no unlock. */
  lemma {:induction false} DriveOne(cr: Crypto, w: World, j: nat, salt: string, nonce: string, db: Db, n: nat)
    requires w.flight.None? && j < |w.jobs| && !w.jobs[j].wait.Ended? && n > 0
    requires w.jobs[j].wait.ToMigrate? ==> w.v.isUnlocked
    ensures var s := Segment(cr, w, w.jobs[j].wait, nonce, db);
            && s.0.asks == w.asks && s.0.flown == w.flown && s.0.flight.None?
            && Drive(cr, w, j, salt, nonce, db, n) ==
                 Drive(cr, s.0.(jobs := w.jobs[j := Job(w.jobs[j].caller, s.1)]), j, salt, nonce, db, n - 1)
  {
    SegmentJobs(cr, w, w.jobs[j].wait, nonce, db);
  }

  /** From the moment the entry's name is composed. */
  lemma {:induction false} PutAlone(cr: Crypto, w: World, j: nat, k: string, cipher: string, moved: Option<Copy>,
                                    salt: string, nonce: string, db: Db, n: nat)
    requires w.flight.None? && j < |w.jobs| && w.jobs[j].wait == ToPut(UserOf(w.v), k, cipher, moved)
    requires n >= if moved.Some? then 2 else 1
    ensures var entry := EntryKey(UserOf(w.v), k);
            var v, moves := Put(w.v, entry, cipher, db), moved.Some? && !db.Fails?;
            var w' := Drive(cr, w, j, salt, nonce, db, n);
            && w'.v == (if moves then v.(ls := v.ls - {EntryKey(moved.value.owner, k)}) else v)
            && j < |w'.jobs|
            && w'.jobs[j].wait == Ended(if moves then Some(moved.value.value) else None)
  {
    DriveOne(cr, w, j, salt, nonce, db, n);
    if moved.Some? && !db.Fails? {
      var s := Segment(cr, w, w.jobs[j].wait, nonce, db);
      DriveOne(cr, s.0.(jobs := w.jobs[j := Job(w.jobs[j].caller, s.1)]), j, salt, nonce, db, n - 1);
    }
  }

  /** A save, the unlock it may need included, does what the call on its own does. */
  lemma {:induction false} SaveAlone(cr: Crypto, w: World, k: string, data: string, db: Db, salt: string,
                                     nonce: string)
    requires w.flight.None?
    ensures var w1 := Settle(cr, After(cr, w, AskSave(k, data, nonce)), salt, nonce);
            var w' := Drive(cr, w1, |w.jobs|, salt, nonce, db, 2);
            && w'.v == SaveSpec(cr, w.v, k, data, db, salt, nonce).0
            && |w.jobs| < |w'.jobs| && w'.jobs[|w.jobs|].wait == Ended(None)
  {
    var w1 := Settle(cr, After(cr, w, AskSave(k, data, nonce)), salt, nonce);
    var j := |w.jobs|;
    if w.v.isUnlocked {
      if w.v.key.Some? {
        PutAlone(cr, w1, j, k, cr.enc(w.v.key.value, nonce, data), None, salt, nonce, db, 2);
      }
    } else {
      UnlockForJob(cr, w, Job(UserOf(w.v), ToSave(k, data, |w.asks|, None)), salt, nonce);
      DriveOne(cr, w1, j, salt, nonce, db, 2);
      var s := Segment(cr, w1, w1.jobs[j].wait, nonce, db);
      if s.1.ToPut? {
        var w2 := s.0.(jobs := w1.jobs[j := Job(w1.jobs[j].caller, s.1)]);
        PutAlone(cr, w2, j, k, s.1.cipher, None, salt, nonce, db, 1);
      }
    }
  }

  /** What a load of an unlocked vault does, told by what it reads first. */
  lemma {:induction false} LoadByRead(cr: Crypto, v: State, k: string, salt: string, nonce: string, db: Db)
    requires v.isUnlocked
    ensures var r, s := Read(cr, v, UserOf(v), k, db), LoadSpec(cr, v, k, db, salt, nonce);
            match r
            case Ended(value) => s == (v, value)
            case ToMigrate(l, copy) =>
              && l == k && copy.owner == UserOf(v) && v.key.Some?
              && var entry, cipher := EntryKey(UserOf(v), k), cr.enc(v.key.value, nonce, copy.value);
                 var v' := Put(v, entry, cipher, db);
                 s == if db.Fails? then (v', None) else (v'.(ls := v'.ls - {entry}), Some(copy.value))
            case _ => false
  {
  }

  /** From the moment a load has found the vault unlocked. */
  lemma {:induction false} ReadAlone(cr: Crypto, w: World, j: nat, k: string, salt: string, nonce: string, db: Db)
    requires w.flight.None? && w.v.isUnlocked && j < |w.jobs| && w.jobs[j].wait == ToRead(UserOf(w.v), k)
    ensures var w' := Drive(cr, w, j, salt, nonce, db, 4);
            var s := LoadSpec(cr, w.v, k, db, salt, nonce);
            w'.v == s.0 && j < |w'.jobs| && w'.jobs[j].wait == Ended(s.1)
  {
    LoadByRead(cr, w.v, k, salt, nonce, db);
    DriveOne(cr, w, j, salt, nonce, db, 4);
    var r := Read(cr, w.v, UserOf(w.v), k, db);
    if r.ToMigrate? {
      MigrateAlone(cr, w.(jobs := w.jobs[j := Job(w.jobs[j].caller, r)]), j, k, r.copy, salt, nonce, db);
    }
  }

  lemma {:induction false} MigrateAlone(cr: Crypto, w: World, j: nat, k: string, copy: Copy, salt: string,
                                        nonce: string, db: Db)
    requires w.flight.None? && w.v.isUnlocked && w.v.key.Some? && j < |w.jobs| && w.jobs[j].wait == ToMigrate(k, copy)
    requires copy.owner == UserOf(w.v)
    ensures var entry, cipher := EntryKey(UserOf(w.v), k), cr.enc(w.v.key.value, nonce, copy.value);
            var v := Put(w.v, entry, cipher, db);
            var w' := Drive(cr, w, j, salt, nonce, db, 3);
            && w'.v == (if db.Fails? then v else v.(ls := v.ls - {entry}))
            && j < |w'.jobs| && w'.jobs[j].wait == Ended(if db.Fails? then None else Some(copy.value))
  {
    DriveOne(cr, w, j, salt, nonce, db, 3);
    var cipher := cr.enc(w.v.key.value, nonce, copy.value);
    var w1 := w.(jobs := w.jobs[j := Job(w.jobs[j].caller, ToPut(UserOf(w.v), k, cipher, Some(copy)))]);
    PutAlone(cr, w1, j, k, cipher, Some(copy), salt, nonce, db, 2);
  }

  /** A deletion that nothing comes between does what the call on its own does. */
  lemma {:induction false} DeleteAlone(cr: Crypto, w: World, k: string, nonce: string, db: Db)
    ensures var w' := After(cr, After(cr, w, AskDelete(k)), Resume(|w.jobs|, nonce, db));
            w'.v == DeleteSpec(w.v, k, db) && |w.jobs| < |w'.jobs| && w'.jobs[|w.jobs|].wait.Ended?
  {
  }

  /** A load, the unlock it may need included, does and returns what the call on its own does. */
  lemma {:induction false} LoadAlone(cr: Crypto, w: World, k: string, db: Db, salt: string, nonce: string)
    requires w.flight.None?
    ensures var w1 := Settle(cr, After(cr, w, AskLoad(k)), salt, nonce);
            var w' := Drive(cr, w1, |w.jobs|, salt, nonce, db, if w.v.isUnlocked then 4 else 5);
            var s := LoadSpec(cr, w.v, k, db, salt, nonce);
            w'.v == s.0 && |w.jobs| < |w'.jobs| && w'.jobs[|w.jobs|].wait == Ended(s.1)
  {
    var w1 := Settle(cr, After(cr, w, AskLoad(k)), salt, nonce);
    if w.v.isUnlocked {
      ReadAlone(cr, w1, |w.jobs|, k, salt, nonce, db);
    } else {
      UnlockForJob(cr, w, Job(UserOf(w.v), ToLoad(k, |w.asks|)), salt, nonce);
      LoadWhenAnswered(cr, w.v, w1, |w.jobs|, |w.asks|, k, salt, nonce, db);
    }
  }

  /** From the moment the unlock that a load waited for is answered. */
  lemma {:induction false} LoadWhenAnswered(cr: Crypto, v: State, w: World, j: nat, ask: nat, k: string, salt: string,
                                            nonce: string, db: Db)
    requires !v.isUnlocked && w.flight.None? && j < |w.jobs| && w.jobs[j].wait == ToLoad(k, ask)
    requires var s := UnlockSpec(cr, v, DEFAULT_PASSWORD, salt, nonce); w.v == s.0 && AnswerOf(w, ask) == Some(s.1)
    ensures var w' := Drive(cr, w, j, salt, nonce, db, 5);
            var s := LoadSpec(cr, v, k, db, salt, nonce);
            w'.v == s.0 && j < |w'.jobs| && w'.jobs[j].wait == Ended(s.1)
  {
    LoadByUnlock(cr, v, k, db, salt, nonce);
    var unlocked := AnswerOf(w, ask) == Some(Unlocked);
    var w1 := w.(jobs := w.jobs[j := Job(w.jobs[j].caller, if unlocked then ToRead(UserOf(w.v), k) else Ended(None))]);
    LoadSegment(cr, w, j, ask, k, salt, nonce, db);
    if unlocked {
      ReadAlone(cr, w1, j, k, salt, nonce, db);
    }
  }

  lemma {:induction false} LoadSegment(cr: Crypto, w: World, j: nat, ask: nat, k: string, salt: string, nonce: string,
                                       db: Db)
    requires w.flight.None? && j < |w.jobs| && w.jobs[j].wait == ToLoad(k, ask)
    ensures var wait := if AnswerOf(w, ask) == Some(Unlocked) then ToRead(UserOf(w.v), k) else Ended(None);
            Drive(cr, w, j, salt, nonce, db, 5) ==
            Drive(cr, w.(jobs := w.jobs[j := Job(w.jobs[j].caller, wait)]), j, salt, nonce, db, 4)
  {
    DriveOne(cr, w, j, salt, nonce, db, 5);
  }

  /** A load that finds the vault locked is one of the vault its unlock leaves, if that is unlocked. */
  lemma {:induction false} LoadByUnlock(cr: Crypto, v: State, k: string, db: Db, salt: string, nonce: string)
    requires !v.isUnlocked
    ensures var s := UnlockSpec(cr, v, DEFAULT_PASSWORD, salt, nonce);
            if s.1.Unlocked? then
              s.0.isUnlocked && LoadSpec(cr, v, k, db, salt, nonce) == LoadSpec(cr, s.0, k, db, salt, nonce)
            else LoadSpec(cr, v, k, db, salt, nonce) == (s.0, None)
  {
    UnlockedThen(cr, v, salt, nonce);
  }

  lemma {:induction false} UnlockedThen(cr: Crypto, v: State, salt: string, nonce: string)
    ensures var s := UnlockSpec(cr, v, DEFAULT_PASSWORD, salt, nonce); s.1.Unlocked? ==> s.0.isUnlocked
  {
  }

  // ---------- runs that go wrong ----------

  ghost predicate Reaches(cr: Crypto, start: World, run: seq<Step>, w: World) {
    Machines.Reaches(MachineOf(cr, start), run, w)
  }

  /** The bridge is there; job 0 runs its next segment. */
  const READY := BridgeReady("0", "")
  const GO_ON := Resume(0, "", Works)

  /** The key a password gives under a user's stored salt. */
  function Derived(cr: Crypto, v: State, user: string, password: string): Option<Key> {
    if Stored(v.ls, SaltKey(user)) then cr.kdf(password, v.ls[SaltKey(user)]) else None
  }

  predicate Marked(cr: Crypto, v: State, user: string, key: Key) {
    Stored(v.ls, MarkerKey(user)) && cr.dec(key, v.ls[MarkerKey(user)]).Some?
  }

  /** An identifier that setUserId does not ignore. */
  ghost predicate UserId(u: string) {
    PlainId(u) && u != "undefined" && u != "null"
  }

  lemma {:induction false} OwnAnswerByKey(cr: Crypto, v: State, password: string, key: Key)
    requires UserOf(v) != "" && Derived(cr, v, UserOf(v), password) == Some(key)
    ensures OwnAnswer(cr, v, password) ==
            if !Stored(v.ls, MarkerKey(UserOf(v))) || Marked(cr, v, UserOf(v), key) then Unlocked else Refused
  {
  }

  /** Another key's marker in place of b's own, or of none. */
  lemma {:induction false} LockedOut(cr: Crypto, v: State, w: State, b: string, q: string, k: Key, l: Key)
    requires Lawful(cr) && UserId(b) && k != l && Derived(cr, v, b, q) == Some(l)
    requires Stored(v.ls, MarkerKey(b)) ==> Marked(cr, v, b, l)
    requires w.currentUser == b && w.ls == v.ls[MarkerKey(b) := cr.enc(k, "", LOCK_TEXT)]
    ensures OwnAnswer(cr, SetUserSpec(v, b), q) == Unlocked && OwnAnswer(cr, w, q) == Refused
  {
    MarkerNeverSalt(b, b);
    var c := cr.enc(k, "", LOCK_TEXT);
    assert cr.dec(k, c) == Some(LOCK_TEXT) && c != "";
    OwnAnswerByKey(cr, SetUserSpec(v, b), q, l);
    OwnAnswerByKey(cr, w, q, l);
  }

  /** A wrong password that joins the right one's unlock is told that it unlocked. */
  lemma {:induction false} WrongPasswordAccepted(cr: Crypto, v: State, right: string, wrong: string, k: Key, l: Key)
      returns (run: seq<Step>, w: World)
    requires Lawful(cr) && UserOf(v) != "" && FitStart(cr, Quiet(v, true)) && Marked(cr, v, UserOf(v), k) && k != l
    requires Derived(cr, v, UserOf(v), right) == Some(k) && Derived(cr, v, UserOf(v), wrong) == Some(l)
    ensures Reaches(cr, Quiet(v, true), run, w)
    ensures run == [AskUnlock(right), AskUnlock(wrong), READY, Land, Clear]
    ensures AnswerOf(w, 1) == Some(Unlocked) && OwnAnswer(cr, v, wrong) == Refused
  {
    var w0, m := Quiet(v, true), MachineOf(cr, Quiet(v, true));
    var w1 := After(cr, w0, AskUnlock(right));
    var w2 := After(cr, w1, AskUnlock(wrong));
    var w3 := After(cr, w2, READY);
    var w4 := After(cr, w3, Land);
    w := After(cr, w4, Clear);
    Machines.Five(m, AskUnlock(right), w1, AskUnlock(wrong), w2, READY, w3, Land, w4, Clear, w);
    run := [AskUnlock(right), AskUnlock(wrong), READY, Land, Clear];
    OwnAnswerByKey(cr, v, wrong, l);
  }

  /** A page is loaded again: a first load in the background waits for the default password, and the password of the
      session, which is the right one, joins it and is refused. */
  lemma {:induction false} RightPasswordRefused(cr: Crypto, v: State, right: string, name: string, k: Key, l: Key)
      returns (run: seq<Step>, w: World)
    requires Lawful(cr) && UserId(v.sessionUser) && v.currentUser == "" && !v.isUnlocked
    requires Marked(cr, v, v.sessionUser, k) && k != l
    requires Derived(cr, v, v.sessionUser, right) == Some(k)
    requires Derived(cr, v, v.sessionUser, DEFAULT_PASSWORD) == Some(l)
    ensures FitStart(cr, Quiet(v, false)) && Reaches(cr, Quiet(v, false), run, w)
    ensures run == [AskLoad(name), SetUserId(v.sessionUser), AskUnlock(right), READY, Land, Clear]
    ensures AnswerOf(w, 1) == Some(Refused) && OwnAnswer(cr, v, right) == Unlocked
  {
    var w0, m := Quiet(v, false), MachineOf(cr, Quiet(v, false));
    var w1 := After(cr, w0, AskLoad(name));
    var w2 := After(cr, w1, SetUserId(v.sessionUser));
    var w3 := After(cr, w2, AskUnlock(right));
    var w4 := After(cr, w3, READY);
    var w5 := After(cr, w4, Land);
    w := After(cr, w5, Clear);
    Machines.Six(m, AskLoad(name), w1, SetUserId(v.sessionUser), w2, AskUnlock(right), w3, READY, w4, Land, w5, Clear,
        w);
    run := [AskLoad(name), SetUserId(v.sessionUser), AskUnlock(right), READY, Land, Clear];
    OwnAnswerByKey(cr, v, right, k);
  }

  /** The user is switched before the bridge is ready: a's password is tried on b's marker, and refused. */
  lemma {:induction false} SwitchedBeforeChecking(cr: Crypto, v: State, b: string, p: string, k: Key)
      returns (run: seq<Step>, w: World)
    requires Lawful(cr) && UserOf(v) != "" && UserId(b) && FitStart(cr, Quiet(v, true))
    requires Marked(cr, v, UserOf(v), k) && Derived(cr, v, UserOf(v), p) == Some(k)
    requires Stored(v.ls, MarkerKey(b)) && !Marked(cr, v, b, k)
    ensures Reaches(cr, Quiet(v, true), run, w)
    ensures run == [AskUnlock(p), SetUserId(b), READY, Land, Clear]
    ensures AnswerOf(w, 0) == Some(Refused) && OwnAnswer(cr, v, p) == Unlocked
  {
    var w0, m := Quiet(v, true), MachineOf(cr, Quiet(v, true));
    var w1 := After(cr, w0, AskUnlock(p));
    var w2 := After(cr, w1, SetUserId(b));
    var w3 := After(cr, w2, READY);
    var w4 := After(cr, w3, Land);
    w := After(cr, w4, Clear);
    Machines.Five(m, AskUnlock(p), w1, SetUserId(b), w2, READY, w3, Land, w4, Clear, w);
    run := [AskUnlock(p), SetUserId(b), READY, Land, Clear];
    OwnAnswerByKey(cr, v, p, k);
  }

  /** The same for a user b without a marker: one is written that b's own password does not open. */
  lemma {:induction false} SwitchedBeforeMarking(cr: Crypto, v: State, b: string, p: string, q: string, k: Key, l: Key)
      returns (run: seq<Step>, w: World)
    requires Lawful(cr) && UserOf(v) != "" && UserId(b) && FitStart(cr, Quiet(v, true)) && k != l
    requires Derived(cr, v, UserOf(v), p) == Some(k) && Derived(cr, v, b, q) == Some(l)
    requires !Stored(v.ls, MarkerKey(b))
    ensures Reaches(cr, Quiet(v, true), run, w)
    ensures run == [AskUnlock(p), SetUserId(b), READY, Land, Clear]
    ensures OwnAnswer(cr, SetUserSpec(v, b), q) == Unlocked && UserOf(w.v) == b && OwnAnswer(cr, w.v, q) == Refused
  {
    var w0, m := Quiet(v, true), MachineOf(cr, Quiet(v, true));
    var w1 := After(cr, w0, AskUnlock(p));
    var w2 := After(cr, w1, SetUserId(b));
    var w3 := After(cr, w2, READY);
    var w4 := After(cr, w3, Land);
    w := After(cr, w4, Clear);
    Machines.Five(m, AskUnlock(p), w1, SetUserId(b), w2, READY, w3, Land, w4, Clear, w);
    run := [AskUnlock(p), SetUserId(b), READY, Land, Clear];
    LockedOut(cr, v, w.v, b, q, k, l);
  }

  /** The user is switched while a marker is decrypted: the vault counts as unlocked for b under a's key. */
  lemma {:induction false} SwitchedWhileChecking(cr: Crypto, v: State, b: string, p: string, k: Key)
      returns (run: seq<Step>, w: World)
    requires Lawful(cr) && UserOf(v) != "" && UserId(b) && FitStart(cr, Quiet(v, true))
    requires Marked(cr, v, UserOf(v), k) && Derived(cr, v, UserOf(v), p) == Some(k) && !Marked(cr, v, b, k)
    ensures Reaches(cr, Quiet(v, true), run, w)
    ensures run == [AskUnlock(p), READY, SetUserId(b), Land, Clear]
    ensures w.v.isUnlocked && UserOf(w.v) == b && !KeyOpensMarker(cr, w.v)
  {
    var w0, m := Quiet(v, true), MachineOf(cr, Quiet(v, true));
    var w1 := After(cr, w0, AskUnlock(p));
    var w2 := After(cr, w1, READY);
    var w3 := After(cr, w2, SetUserId(b));
    var w4 := After(cr, w3, Land);
    w := After(cr, w4, Clear);
    Machines.Five(m, AskUnlock(p), w1, READY, w2, SetUserId(b), w3, Land, w4, Clear, w);
    run := [AskUnlock(p), READY, SetUserId(b), Land, Clear];
  }

  /** The user is switched while a first marker is encrypted: it replaces b's own, and b's password, which was right, is
      refused from then on. */
  lemma {:induction false} SwitchedWhileMarking(cr: Crypto, v: State, b: string, p: string, q: string, k: Key, l: Key)
      returns (run: seq<Step>, w: World)
    requires Lawful(cr) && UserOf(v) != "" && UserId(b) && FitStart(cr, Quiet(v, true)) && k != l
    requires !Stored(v.ls, MarkerKey(UserOf(v))) && Derived(cr, v, UserOf(v), p) == Some(k)
    requires Marked(cr, v, b, l) && Derived(cr, v, b, q) == Some(l)
    ensures Reaches(cr, Quiet(v, true), run, w)
    ensures run == [AskUnlock(p), READY, SetUserId(b), Land, Clear]
    ensures OwnAnswer(cr, SetUserSpec(v, b), q) == Unlocked && UserOf(w.v) == b && OwnAnswer(cr, w.v, q) == Refused
  {
    var w0, m := Quiet(v, true), MachineOf(cr, Quiet(v, true));
    var w1 := After(cr, w0, AskUnlock(p));
    var w2 := After(cr, w1, READY);
    var w3 := After(cr, w2, SetUserId(b));
    var w4 := After(cr, w3, Land);
    w := After(cr, w4, Clear);
    Machines.Five(m, AskUnlock(p), w1, READY, w2, SetUserId(b), w3, Land, w4, Clear, w);
    run := [AskUnlock(p), READY, SetUserId(b), Land, Clear];
    LockedOut(cr, v, w.v, b, q, k, l);
  }

  /** The vault is locked while a marker is decrypted: it counts as unlocked afterwards, without a key. */
  lemma {:induction false} LockedWhileChecking(cr: Crypto, v: State, p: string, k: Key)
      returns (run: seq<Step>, w: World)
    requires Lawful(cr) && UserOf(v) != "" && FitStart(cr, Quiet(v, true))
    requires Marked(cr, v, UserOf(v), k) && Derived(cr, v, UserOf(v), p) == Some(k)
    ensures Reaches(cr, Quiet(v, true), run, w)
    ensures run == [AskUnlock(p), READY, LockNow, Land, Clear]
    ensures w.v.isUnlocked && w.v.key.None? && !KeyOpensMarker(cr, w.v)
  {
    var w0, m := Quiet(v, true), MachineOf(cr, Quiet(v, true));
    var w1 := After(cr, w0, AskUnlock(p));
    var w2 := After(cr, w1, READY);
    var w3 := After(cr, w2, LockNow);
    var w4 := After(cr, w3, Land);
    w := After(cr, w4, Clear);
    Machines.Five(m, AskUnlock(p), w1, READY, w2, LockNow, w3, Land, w4, Clear, w);
    run := [AskUnlock(p), READY, LockNow, Land, Clear];
  }

  /** A wrong password is tried on a vault that counts as unlocked, and a save comes before the refusal: what it stores
      can be read with the wrong password's key only. */
  lemma {:induction false} SavedUnderWrongKey(cr: Crypto, v: State, wrong: string, x: string, data: string, k: Key,
                                              l: Key)
      returns (run: seq<Step>, w: World)
    requires Lawful(cr) && Fit(v) && UserOf(v) != "" && v.isUnlocked && v.key == Some(k) && k != l
    requires Marked(cr, v, UserOf(v), k) && Derived(cr, v, UserOf(v), wrong) == Some(l)
    ensures FitStart(cr, Quiet(v, true)) && Reaches(cr, Quiet(v, true), run, w)
    ensures run == [AskUnlock(wrong), READY, AskSave(x, data, ""), Land, Clear, GO_ON]
    ensures AnswerOf(w, 0) == Some(Refused)
    ensures Stored(w.v.idb, EntryKey(UserOf(v), x)) && Open(cr, Some(k), w.v.idb[EntryKey(UserOf(v), x)]).None?
  {
    var w0, m := Quiet(v, true), MachineOf(cr, Quiet(v, true));
    var w1 := After(cr, w0, AskUnlock(wrong));
    var w2 := After(cr, w1, READY);
    var w3 := After(cr, w2, AskSave(x, data, ""));
    var w4 := After(cr, w3, Land);
    var w5 := After(cr, w4, Clear);
    w := After(cr, w5, GO_ON);
    Machines.Six(m, AskUnlock(wrong), w1, READY, w2, AskSave(x, data, ""), w3, Land, w4, Clear, w5, GO_ON, w);
    run := [AskUnlock(wrong), READY, AskSave(x, data, ""), Land, Clear, GO_ON];
    assert cr.dec(l, cr.enc(l, "", data)) == Some(data);
  }

  /** The user is switched while a save waits for its unlock: a's value is stored as b's, under a's key. */
  lemma {:induction false} SavedForAnother(cr: Crypto, v: State, b: string, x: string, data: string, k: Key)
      returns (run: seq<Step>, w: World)
    requires Lawful(cr) && UserOf(v) != "" && UserOf(v) != b && UserId(b) && FitStart(cr, Quiet(v, true))
    requires !v.isUnlocked
    requires Marked(cr, v, UserOf(v), k) && Derived(cr, v, UserOf(v), DEFAULT_PASSWORD) == Some(k)
    ensures Reaches(cr, Quiet(v, true), run, w)
    ensures run == [AskSave(x, data, ""), READY, Land, Clear, SetUserId(b), GO_ON,
                    GO_ON]
    ensures |w.jobs| == 1 && w.jobs[0].caller == UserOf(v) &&
            w.v.idb == v.idb[EntryKey(b, x) := cr.enc(k, "", data)]
  {
    var w0, m := Quiet(v, true), MachineOf(cr, Quiet(v, true));
    var w1 := After(cr, w0, AskSave(x, data, ""));
    var w2 := After(cr, w1, READY);
    var w3 := After(cr, w2, Land);
    var w4 := After(cr, w3, Clear);
    var w5 := After(cr, w4, SetUserId(b));
    var w6 := After(cr, w5, GO_ON);
    w := After(cr, w6, GO_ON);
    Machines.Five(m, AskSave(x, data, ""), w1, READY, w2, Land, w3, Clear, w4, SetUserId(b), w5);
    run := [AskSave(x, data, ""), READY, Land, Clear, SetUserId(b)];
    Machines.ReachesNext(m, run, w5, GO_ON, w6);
    run := run + [GO_ON];
    Machines.ReachesNext(m, run, w6, GO_ON, w);
    run := run + [GO_ON];
  }

  /** The vault is locked while a load moves a value from local storage to IndexedDB. The save it makes is refused, and
      the load removes the only copy all the same. */
  lemma {:induction false} LockedWhileMoving(cr: Crypto, v: State, x: string, data: string, k: Key, l: Key)
      returns (run: seq<Step>, w: World)
    requires Lawful(cr) && Fit(v) && UserOf(v) != "" && v.isUnlocked && v.key == Some(k) && k != l
    requires Marked(cr, v, UserOf(v), k) && Derived(cr, v, UserOf(v), DEFAULT_PASSWORD) == Some(l)
    requires var entry := EntryKey(UserOf(v), x);
             !Stored(v.idb, entry) && Stored(v.ls, entry) && cr.dec(k, v.ls[entry]) == Some(data)
    ensures FitStart(cr, Quiet(v, true)) && Reaches(cr, Quiet(v, true), run, w)
    ensures run == [AskLoad(x), GO_ON, LockNow, GO_ON, READY, Land, Clear,
                    GO_ON, GO_ON]
    ensures |w.jobs| == 1 && w.jobs[0].wait == Ended(Some(data))
    ensures var entry := EntryKey(UserOf(v), x); !Stored(w.v.idb, entry) && !Stored(w.v.ls, entry)
  {
    var w3;
    run, w3 := MoveStopped(cr, v, x, data, k);
    run, w := MoveAsked(cr, Quiet(v, true), run, w3, x, Copy(UserOf(v), data), l);
    run, w := MoveRefused(cr, Quiet(v, true), run, w, x, Copy(UserOf(v), data));
  }

  lemma {:induction false} MoveStopped(cr: Crypto, v: State, x: string, data: string, k: Key)
      returns (run: seq<Step>, w: World)
    requires UserOf(v) != "" && v.isUnlocked && v.key == Some(k)
    requires var entry := EntryKey(UserOf(v), x);
             !Stored(v.idb, entry) && Stored(v.ls, entry) && cr.dec(k, v.ls[entry]) == Some(data)
    ensures run == [AskLoad(x), GO_ON, LockNow] && Reaches(cr, Quiet(v, true), run, w)
    ensures w == Quiet(v, true).(v := v.(isUnlocked := false, key := None),
                                 jobs := [Job(UserOf(v), ToMigrate(x, Copy(UserOf(v), data)))])
  {
    var w0, m := Quiet(v, true), MachineOf(cr, Quiet(v, true));
    var w1 := After(cr, w0, AskLoad(x));
    var w2 := After(cr, w1, GO_ON);
    w := After(cr, w2, LockNow);
    Machines.Three(m, AskLoad(x), w1, GO_ON, w2, LockNow, w);
    run := [AskLoad(x), GO_ON, LockNow];
  }

  /** The save inside the load asks for an unlock with the default password. */
  lemma {:induction false} MoveAsked(cr: Crypto, start: World, run: seq<Step>, w: World, x: string, copy: Copy, l: Key)
      returns (longer: seq<Step>, w2: World)
    requires Reaches(cr, start, run, w) && w.flight.None? && w.asks == [] && w.flown == [] && !w.v.isUnlocked
    requires UserOf(w.v) != "" && |w.jobs| == 1 && w.jobs[0].wait == ToMigrate(x, copy)
    requires Stored(w.v.ls, MarkerKey(UserOf(w.v))) && !Marked(cr, w.v, UserOf(w.v), l)
    requires Derived(cr, w.v, UserOf(w.v), DEFAULT_PASSWORD) == Some(l)
    ensures longer == run + [GO_ON, READY] && Reaches(cr, start, longer, w2)
    ensures w2.flight.Some? && w2.flight.value.stage == Checking(UserOf(w.v), Some(l), false)
    ensures w2.asks == [Ask(DEFAULT_PASSWORD, 0, false)] && w2.flown == [] && w2.v == w.v.(key := Some(l))
    ensures w2.jobs == [Job(w.jobs[0].caller, ToSave(x, copy.value, 0, Some(copy)))]
  {
    var w1 := After(cr, w, GO_ON);
    w2 := After(cr, w1, READY);
    Machines.ReachesNext(MachineOf(cr, start), run, w, GO_ON, w1);
    longer := run + [GO_ON];
    Machines.ReachesNext(MachineOf(cr, start), longer, w1, READY, w2);
    longer := longer + [READY];
  }

  /** It is refused, and the copy is removed. */
  lemma {:induction false} MoveRefused(cr: Crypto, start: World, run: seq<Step>, w: World, x: string, copy: Copy)
      returns (longer: seq<Step>, w4: World)
    requires Reaches(cr, start, run, w) && |w.asks| == 1 && w.asks[0].flight == 0 && w.flown == []
    requires w.flight.Some? && w.flight.value.stage.Checking? && !w.flight.value.stage.opens
    requires |w.jobs| == 1 && w.jobs[0].wait == ToSave(x, copy.value, 0, Some(copy))
    ensures longer == run + [Land, Clear, GO_ON, GO_ON]
    ensures Reaches(cr, start, longer, w4) && |w4.jobs| == 1 && w4.jobs[0].wait == Ended(Some(copy.value))
    ensures w4.v == w.v.(isUnlocked := false, ls := w.v.ls - {EntryKey(copy.owner, x)})
  {
    var m := MachineOf(cr, start);
    var w1 := After(cr, w, Land);
    var w2 := After(cr, w1, Clear);
    var w3 := After(cr, w2, GO_ON);
    w4 := After(cr, w3, GO_ON);
    Machines.ReachesNext(m, run, w, Land, w1);
    longer := run + [Land];
    Machines.ReachesNext(m, longer, w1, Clear, w2);
    longer := longer + [Clear];
    Machines.ReachesNext(m, longer, w2, GO_ON, w3);
    longer := longer + [GO_ON];
    Machines.ReachesNext(m, longer, w3, GO_ON, w4);
    longer := longer + [GO_ON];
  }
}
