/** The vault when calls overlap. An unlock is suspended three times: while the bridge starts, and while the marker is
    decrypted or encrypted. Calls made meanwhile join the pending unlock; the user may be switched, the vault locked,
    and saves, loads and deletions go on, each of them suspended in turn. A step is what runs between two awaits. */
module VaultFlights {
  import opened Common
  import opened Vault
  import Machines

  /** Where a pending unlock waits. Encryption and decryption have been carried out when it begins to wait for them:
      `key` is the key they used, `checked` the user whose marker was read. */
  datatype Stage =
    | Starting
    | Checking(checked: string, key: Option<Key>, opens: bool)
    | Marking(key: Option<Key>, cipher: Option<string>)
    | Settled(outcome: Outcome)

  /** One run of the unlocking itself, for the user and with the password of the call that began it. `at` is the vault
      it found when the bridge was ready, the user's salt included. */
  datatype Flight = Flight(user: string, password: string, at: Option<State>, stage: Stage)

  /** A call of unlock: its password, the number of the flight that answers it, and whether that was under way. */
  datatype Ask = Ask(password: string, flight: nat, joined: bool)

  /** A value that a load found in local storage and moves to IndexedDB. */
  datatype Copy = Copy(owner: string, value: string)

  /** Where a save, a load or a deletion waits; `owner` is the user it read when it composed the entry's name. */
  datatype Wait =
    | ToSave(k: string, data: string, ask: nat, moved: Option<Copy>)
    | ToPut(owner: string, k: string, cipher: string, moved: Option<Copy>)
    | ToDrop(k: string, copy: Copy)
    | ToLoad(k: string, ask: nat)
    | ToRead(owner: string, k: string)
    | ToMigrate(k: string, copy: Copy)
    | ToErase(owner: string, k: string)
    | Ended(result: Option<string>)

  /** `caller` was the user when the call was made. */
  datatype Job = Job(caller: string, wait: Wait)

  datatype World = World(v: State, ready: bool, flight: Option<Flight>, asks: seq<Ask>, flown: seq<Flight>,
                         jobs: seq<Job>)

  datatype Step =
    | SetUserId(id: string)
    | LockNow
    | AskUnlock(password: string)
    | AskSave(k: string, data: string, nonce: string)
    | AskLoad(k: string)
    | AskDelete(k: string)
    | BridgeReady(salt: string, nonce: string)
    | BridgeFails
    | Land
    | Clear
    | Resume(j: nat, nonce: string, db: Db)

  function Quiet(v: State, ready: bool): World {
    World(v, ready, None, [], [], [])
  }

  function AnswerOf(w: World, ask: nat): Option<Outcome> {
    if ask < |w.asks| && w.asks[ask].flight < |w.flown| && w.flown[w.asks[ask].flight].stage.Settled?
      then Some(w.flown[w.asks[ask].flight].stage.outcome) else None
  }

  ghost predicate Enabled(w: World, t: Step) {
    match t
    case BridgeReady(salt, _) => w.flight.Some? && w.flight.value.stage.Starting? && salt != ""
    case BridgeFails => w.flight.Some? && w.flight.value.stage.Starting? && !w.ready
    case Land => w.flight.Some? && (w.flight.value.stage.Checking? || w.flight.value.stage.Marking?)
    case Clear => w.flight.Some? && w.flight.value.stage.Settled?
    case Resume(j, _, _) => j < |w.jobs| && (
      match w.jobs[j].wait
      case ToSave(_, _, ask, _) => AnswerOf(w, ask).Some?
      case ToLoad(_, ask) => AnswerOf(w, ask).Some?
      case Ended(_) => false
      case _ => true)
    case _ => true
  }

  // ---------- the unlock ----------

  /** A call made while an unlock is pending waits for that one; its own password is not used. */
  function AskFor(w: World, password: string): World {
    var user := UserOf(w.v);
    w.(asks := w.asks + [Ask(password, |w.flown|, w.flight.Some?)],
       flight := if w.flight.Some? then w.flight
                 else Some(Flight(user, password, None, if user == "" then Settled(Threw) else Starting)))
  }

  function WithSalt(v: State, user: string, salt: string): State {
    if Stored(v.ls, SaltKey(user)) then v else v.(ls := v.ls[SaltKey(user) := salt])
  }

  /** The key the bridge holds after it was given the password; a derivation that fails leaves the old one. */
  function KeyFrom(cr: Crypto, v: State, user: string, password: string): Option<Key>
    requires SaltKey(user) in v.ls
  {
    var derived := cr.kdf(password, v.ls[SaltKey(user)]);
    if derived.Some? then derived else v.key
  }

  /** The salt is that of the user who asked, the marker that of the user there is now. */
  function StageFrom(cr: Crypto, v: State, key: Option<Key>, nonce: string): Stage {
    var now := UserOf(v);
    if Stored(v.ls, MarkerKey(now)) then Checking(now, key, Open(cr, key, v.ls[MarkerKey(now)]).Some?)
    else Marking(key, if key.Some? then Some(cr.enc(key.value, nonce, LOCK_TEXT)) else None)
  }

  function Readied(cr: Crypto, w: World, f: Flight, salt: string, nonce: string): World {
    var v := WithSalt(w.v, f.user, salt);
    var key := KeyFrom(cr, v, f.user, f.password);
    w.(v := v.(key := key), ready := true, flight := Some(f.(at := Some(v), stage := StageFrom(cr, v, key, nonce))))
  }

  function Landed(w: World, f: Flight): World {
    match f.stage
    case Checking(_, _, opens) =>
      w.(v := w.v.(isUnlocked := opens),
         flight := Some(f.(stage := Settled(if opens then Unlocked else Refused))))
    case Marking(_, Some(cipher)) =>
      w.(v := w.v.(isUnlocked := true, ls := w.v.ls[MarkerKey(UserOf(w.v)) := cipher]),
         flight := Some(f.(stage := Settled(Unlocked))))
    case _ => w.(flight := Some(f.(stage := Settled(Threw))))
  }

  // ---------- saves, loads and deletions ----------

  /** The entry's name, the key and the ciphertext are fixed together; without a key the save fails. */
  function Encrypted(cr: Crypto, v: State, k: string, data: string, moved: Option<Copy>, nonce: string): Wait {
    if v.key.None? then Ended(None)
    else ToPut(UserOf(v), k, cr.enc(v.key.value, nonce, data), moved)
  }

  /** What follows a save: nothing, or the removal of the copy that was moved. */
  function AfterSave(k: string, moved: Option<Copy>): Wait {
    if moved.Some? then ToDrop(k, moved.value) else Ended(None)
  }

  function BeginSave(cr: Crypto, w: World, k: string, data: string, moved: Option<Copy>, nonce: string): (World, Wait) {
    if w.v.isUnlocked then (w, Encrypted(cr, w.v, k, data, moved, nonce))
    else (AskFor(w, DEFAULT_PASSWORD), ToSave(k, data, |w.asks|, moved))
  }

  function BeginLoad(w: World, k: string): (World, Wait) {
    if w.v.isUnlocked then (w, ToRead(UserOf(w.v), k)) else (AskFor(w, DEFAULT_PASSWORD), ToLoad(k, |w.asks|))
  }

  function Erased(v: State, owner: string, k: string): State {
    if Stored(v.ls, EntryKey(owner, k)) then v.(ls := v.ls - {EntryKey(owner, k)}) else v
  }

  function Read(cr: Crypto, v: State, owner: string, k: string, db: Db): Wait {
    var entry := EntryKey(owner, k);
    if db.Works? && Stored(v.idb, entry) then Ended(Open(cr, v.key, v.idb[entry]))
    else if !Stored(v.ls, entry) then Ended(None)
    else
      var parsed := Open(cr, v.key, v.ls[entry]);
      if parsed.Some? then ToMigrate(k, Copy(owner, parsed.value)) else Ended(None)
  }

  /** One segment of a job: what it does to the vault, and what it waits for next. */
  function Segment(cr: Crypto, w: World, wait: Wait, nonce: string, db: Db): (World, Wait) {
    match wait
    case ToSave(k, data, ask, moved) =>
      (match AnswerOf(w, ask)
       case Some(Unlocked) => (w, Encrypted(cr, w.v, k, data, moved, nonce))
       case Some(Refused) => (w, AfterSave(k, moved))
       case _ => (w, Ended(None)))
    case ToPut(owner, k, cipher, moved) =>
      (w.(v := Put(w.v, EntryKey(owner, k), cipher, db)), if db.Fails? then Ended(None) else AfterSave(k, moved))
    case ToDrop(k, copy) =>
      (w.(v := w.v.(ls := w.v.ls - {EntryKey(copy.owner, k)})), Ended(Some(copy.value)))
    case ToLoad(k, ask) =>
      (w, if AnswerOf(w, ask) == Some(Unlocked) then ToRead(UserOf(w.v), k) else Ended(None))
    case ToRead(owner, k) => (w, Read(cr, w.v, owner, k, db))
    case ToMigrate(k, copy) => BeginSave(cr, w, k, copy.value, Some(copy), nonce)
    case ToErase(owner, k) =>
      (if db.Works? then w.(v := w.v.(idb := w.v.idb - {EntryKey(owner, k)})) else w, Ended(None))
    case Ended(_) => (w, wait)
  }

  function Begun(caller: string, s: (World, Wait)): World {
    s.0.(jobs := s.0.jobs + [Job(caller, s.1)])
  }

  function After(cr: Crypto, w: World, t: Step): World {
    match t
    case SetUserId(id) => w.(v := SetUserSpec(w.v, id))
    case LockNow => w.(v := LockSpec(w.v, w.ready))
    case AskUnlock(password) => AskFor(w, password)
    case AskSave(k, data, nonce) => Begun(UserOf(w.v), BeginSave(cr, w, k, data, None, nonce))
    case AskLoad(k) => Begun(UserOf(w.v), BeginLoad(w, k))
    case AskDelete(k) =>
      Begun(UserOf(w.v), (w.(v := Erased(w.v, UserOf(w.v), k)), ToErase(UserOf(w.v), k)))
    case BridgeReady(salt, nonce) => if w.flight.Some? then Readied(cr, w, w.flight.value, salt, nonce) else w
    case BridgeFails =>
      if w.flight.Some? then w.(flight := Some(w.flight.value.(stage := Settled(Threw)))) else w
    case Land => if w.flight.Some? then Landed(w, w.flight.value) else w
    case Clear => if w.flight.Some? then w.(flown := w.flown + [w.flight.value], flight := None) else w
    case Resume(j, nonce, db) =>
      if j >= |w.jobs| then w else
        var s := Segment(cr, w, w.jobs[j].wait, nonce, db);
        s.0.(jobs := s.0.jobs[j := Job(w.jobs[j].caller, s.1)])
  }

  ghost function MachineOf(cr: Crypto, start: World): Machines.Machine<World, Step> {
    Machines.Machine(start, (w: World, t: Step) => After(cr, w, t), (w: World, t: Step) => Enabled(w, t))
  }

  ghost function RunTo(cr: Crypto, start: World, run: seq<Step>, n: nat): World
    requires n <= |run|
  {
    Machines.Run(MachineOf(cr, start), run, n)
  }

  ghost predicate Legal(cr: Crypto, start: World, run: seq<Step>) {
    Machines.Legal(MachineOf(cr, start), run)
  }

  /** Only a job that finds the vault locked asks for anything. */
  lemma {:induction false} SegmentAsks(cr: Crypto, w: World, wait: Wait, nonce: string, db: Db)
    ensures var s := Segment(cr, w, wait, nonce, db).0;
            || s == AskFor(w, DEFAULT_PASSWORD)
            || (s.flight == w.flight && s.asks == w.asks && s.flown == w.flown && UserOf(s.v) == UserOf(w.v))
  {
  }

  /** A segment changes no other job. */
  lemma {:induction false} SegmentJobs(cr: Crypto, w: World, wait: Wait, nonce: string, db: Db)
    ensures Segment(cr, w, wait, nonce, db).0.jobs == w.jobs
  {
  }

  // ---------- the invariant ----------

  ghost predicate NobodyOrPlain(user: string) {
    user == "" || PlainId(user)
  }

  /** The user in a job's entry name, once there is one. */
  ghost predicate WaitOk(w: World, wait: Wait) {
    match wait
    case ToSave(_, _, ask, moved) => ask < |w.asks| && (moved.Some? ==> PlainId(moved.value.owner))
    case ToPut(owner, _, _, moved) => PlainId(owner) && (moved.Some? ==> PlainId(moved.value.owner))
    case ToDrop(_, copy) => PlainId(copy.owner)
    case ToLoad(_, ask) => ask < |w.asks|
    case ToRead(owner, _) => PlainId(owner)
    case ToMigrate(_, copy) => PlainId(copy.owner)
    case ToErase(owner, _) => NobodyOrPlain(owner)
    case Ended(_) => true
  }

  ghost predicate JobsOk(w: World) {
    forall j | 0 <= j < |w.jobs| :: WaitOk(w, w.jobs[j].wait)
  }

  /** What the flight decrypted or encrypted is still so, save that the key may have been dropped. */
  ghost predicate StageOk(cr: Crypto, v: State, stage: Stage) {
    match stage
    case Checking(checked, key, opens) =>
      && PlainId(checked) && (v.key == key || v.key.None?)
      && Stored(v.ls, MarkerKey(checked)) && (opens <==> Open(cr, key, v.ls[MarkerKey(checked)]).Some?)
    case Marking(key, cipher) =>
      && (v.key == key || v.key.None?) && key.Some? == cipher.Some?
      && (cipher.Some? ==> cipher.value != "" && Open(cr, key, cipher.value).Some?)
    case _ => true
  }

  /** There is a user wherever an unlock has begun in earnest. */
  ghost predicate UserKnown(w: World) {
    && Fit(w.v)
    && (w.v.isUnlocked ==> UserOf(w.v) != "")
    && (w.flight.Some? && w.flight.value.stage != Settled(Threw) ==> PlainId(w.flight.value.user) && UserOf(w.v) != "")
    && (forall i | 0 <= i < |w.flown| :: w.flown[i].stage == Settled(Unlocked) ==> UserOf(w.v) != "")
  }

  ghost predicate Inv(cr: Crypto, w: World) {
    && UserKnown(w)
    && (w.flight.Some? ==> StageOk(cr, w.v, w.flight.value.stage))
    && JobsOk(w)
  }

  ghost predicate FitStep(t: Step) {
    t.SetUserId? && t.id != "" ==> PlainId(t.id)
  }

  /** Nothing but one local storage entry of a user changes, and the key at most goes away. */
  ghost predicate EntryChange(v: State, w: State, owner: string, k: string) {
    && w.currentUser == v.currentUser && w.sessionUser == v.sessionUser && w.isUnlocked == v.isUnlocked
    && w.key == v.key
    && (forall x | x != EntryKey(owner, k) :: SameAt(x, v.ls, w.ls))
  }

  lemma {:induction false} MarkersKept(v: State, w: State, owner: string, k: string, u: string)
    requires EntryChange(v, w, owner, k) && PlainId(owner)
    ensures SameAt(MarkerKey(u), v.ls, w.ls) && SameAt(SaltKey(u), v.ls, w.ls)
  {
    EntryNeverMarkerOrSalt(owner, k, u);
  }

  lemma {:induction false} StageKept(cr: Crypto, v: State, w: State, owner: string, k: string, stage: Stage)
    requires EntryChange(v, w, owner, k) && PlainId(owner) && StageOk(cr, v, stage)
    ensures StageOk(cr, w, stage)
  {
    if stage.Checking? {
      MarkersKept(v, w, owner, k, stage.checked);
    }
  }

  lemma {:induction false} OpeningKept(cr: Crypto, v: State, w: State, owner: string, k: string)
    requires EntryChange(v, w, owner, k) && PlainId(owner)
    ensures KeyOpensMarker(cr, v) <==> KeyOpensMarker(cr, w)
  {
    MarkersKept(v, w, owner, k, UserOf(v));
  }

  /** A call of unlock changes no vault; what it begins is in order. */
  lemma {:induction false} AskKeepsInv(cr: Crypto, w: World, password: string)
    requires Inv(cr, w)
    ensures Inv(cr, AskFor(w, password))
  {
  }

  lemma {:induction false} JobAdded(cr: Crypto, w: World, job: Job)
    requires Inv(cr, w) && WaitOk(w, job.wait)
    ensures Inv(cr, w.(jobs := w.jobs + [job]))
  {
  }

  lemma {:induction false} JobChanged(cr: Crypto, w: World, j: nat, job: Job)
    requires Inv(cr, w) && j < |w.jobs| && WaitOk(w, job.wait)
    ensures Inv(cr, w.(jobs := w.jobs[j := job]))
  {
  }

  lemma {:induction false} EntryChangeKeepsInv(cr: Crypto, w: World, v: State, owner: string, k: string)
    requires Inv(cr, w) && PlainId(owner) && EntryChange(w.v, v, owner, k)
    ensures Inv(cr, w.(v := v))
  {
    if w.flight.Some? {
      StageKept(cr, w.v, v, owner, k, w.flight.value.stage);
    }
  }

  /** The current user, if there is one, has an identifier that can be told apart. */
  lemma {:induction false} CurrentIsPlain(w: World)
    requires UserKnown(w) && UserOf(w.v) != ""
    ensures PlainId(UserOf(w.v))
  {
  }

  lemma {:induction false} EraseKeepsInv(cr: Crypto, w: World, k: string)
    requires Inv(cr, w)
    ensures Inv(cr, w.(v := Erased(w.v, UserOf(w.v), k)))
  {
    if UserOf(w.v) != "" {
      CurrentIsPlain(w);
      EntryChangeKeepsInv(cr, w, Erased(w.v, UserOf(w.v), k), UserOf(w.v), k);
    } else {
      assert w.flight.Some? ==> w.flight.value.stage == Settled(Threw);
    }
  }

  lemma {:induction false} SegmentWaitOk(cr: Crypto, w: World, wait: Wait, nonce: string, db: Db)
    requires UserKnown(w) && WaitOk(w, wait)
    ensures var s := Segment(cr, w, wait, nonce, db); WaitOk(s.0, s.1)
  {
  }

  lemma {:induction false} SegmentKeepsInv(cr: Crypto, w: World, wait: Wait, nonce: string, db: Db)
    requires Inv(cr, w) && WaitOk(w, wait)
    ensures var s := Segment(cr, w, wait, nonce, db); Inv(cr, s.0) && WaitOk(s.0, s.1) && s.0.jobs == w.jobs
  {
    SegmentJobs(cr, w, wait, nonce, db);
    SegmentWaitOk(cr, w, wait, nonce, db);
    var v := Segment(cr, w, wait, nonce, db).0.v;
    match wait
    case ToPut(owner, k, _, _) => EntryChangeKeepsInv(cr, w, v, owner, k);
    case ToDrop(k, copy) => EntryChangeKeepsInv(cr, w, v, copy.owner, k);
    case ToMigrate(_, _) => AskKeepsInv(cr, w, DEFAULT_PASSWORD);
    case _ =>
  }

  lemma {:induction false} BridgeReadyKeepsInv(cr: Crypto, w: World, f: Flight, salt: string, nonce: string)
    requires Lawful(cr) && Inv(cr, w) && w.flight == Some(f) && f.stage.Starting?
    ensures Inv(cr, Readied(cr, w, f, salt, nonce))
  {
    var v := WithSalt(w.v, f.user, salt);
    var key := KeyFrom(cr, v, f.user, f.password);
    CurrentIsPlain(w);
    if key.Some? {
      assert cr.dec(key.value, cr.enc(key.value, nonce, LOCK_TEXT)) == Some(LOCK_TEXT);
    }
  }

  lemma {:induction false} StepKeepsInv(cr: Crypto, w: World, t: Step)
    requires Lawful(cr) && Inv(cr, w) && Enabled(w, t) && FitStep(t)
    ensures Inv(cr, After(cr, w, t))
  {
    match t
    case SetUserId(_) =>
    case LockNow =>
    case AskUnlock(p) => AskKeepsInv(cr, w, p);
    case AskSave(k, data, nonce) =>
      AskKeepsInv(cr, w, DEFAULT_PASSWORD);
      var s := BeginSave(cr, w, k, data, None, nonce);
      JobAdded(cr, s.0, Job(UserOf(w.v), s.1));
    case AskLoad(k) =>
      AskKeepsInv(cr, w, DEFAULT_PASSWORD);
      var s := BeginLoad(w, k);
      JobAdded(cr, s.0, Job(UserOf(w.v), s.1));
    case AskDelete(k) =>
      EraseKeepsInv(cr, w, k);
      JobAdded(cr, w.(v := Erased(w.v, UserOf(w.v), k)), Job(UserOf(w.v), ToErase(UserOf(w.v), k)));
    case BridgeReady(salt, nonce) => BridgeReadyKeepsInv(cr, w, w.flight.value, salt, nonce);
    case BridgeFails =>
    case Land =>
    case Clear =>
    case Resume(j, nonce, db) =>
      SegmentKeepsInv(cr, w, w.jobs[j].wait, nonce, db);
      var s := Segment(cr, w, w.jobs[j].wait, nonce, db);
      JobChanged(cr, s.0, j, Job(w.jobs[j].caller, s.1));
  }

  ghost predicate FitSteps(run: seq<Step>) {
    forall i | 0 <= i < |run| :: FitStep(run[i])
  }

  /** Nothing is under way at the start, and the vault is locked or holds its key. */
  ghost predicate FitStart(cr: Crypto, w: World) {
    w == Quiet(w.v, w.ready) && Fit(w.v) && KeyOpensMarker(cr, w.v)
  }

  lemma {:induction false} RunKeepsInv(cr: Crypto, start: World, run: seq<Step>, n: nat)
    requires Lawful(cr) && FitStart(cr, start) && FitSteps(run) && Legal(cr, start, run) && n <= |run|
    ensures Inv(cr, RunTo(cr, start, run, n))
  {
    if n > 0 {
      RunKeepsInv(cr, start, run, n - 1);
      Machines.StepOfRun(MachineOf(cr, start), run, n);
      StepKeepsInv(cr, RunTo(cr, start, run, n - 1), run[n - 1]);
    }
  }
}
