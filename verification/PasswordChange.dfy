/** The settings dialog's password change: unlock with the old password, read seven values, lock, unlock with the new
    password without looking at the answer, write the seven values back, and replace the marker. */
module PasswordChange {
  import opened Common
  import opened Vault

  const NAMES := ["hermes_contacts", "hermes_contact_data", "hermes_shared_keys", "hermes_groups", "hermes_messages",
                  "hermes_settings", "hermes_keys"]

  /** What is written for a value that was not there. */
  const DEFAULTS := ["[]", "[]", "{}", "[]", "{}", "{}", "null"]

  /** Which values the flow carries over, and what it writes for those that were not there. */
  datatype Plan = Plan(names: seq<string>, defaults: seq<string>)

  const SHIPPED := Plan(NAMES, DEFAULTS)

  ghost predicate Sound(plan: Plan) {
    |plan.names| == |plan.defaults| > 0 && NoRepeats(plan.names)
  }

  datatype Report = WrongOldPassword | Changed | Failed

  function LoadAll(cr: Crypto, v: State, names: seq<string>, salt: string, nonce: string): (State, seq<Option<string>>)
    decreases |names|
  {
    if names == [] then (v, []) else
      var (v1, x) := LoadSpec(cr, v, names[0], Works, salt, nonce);
      var (v2, xs) := LoadAll(cr, v1, names[1..], salt, nonce);
      (v2, [x] + xs)
  }

  /** A refused save returns quietly; one that throws ends the sequence. */
  function SaveAll(cr: Crypto, v: State, names: seq<string>, values: seq<string>, salt: string, nonce: string)
      : (State, bool)
    requires |names| == |values|
    decreases |names|
  {
    if names == [] then (v, true) else
      var (v1, o) := SaveSpec(cr, v, names[0], values[0], Works, salt, nonce);
      if o.Threw? then (v1, false) else SaveAll(cr, v1, names[1..], values[1..], salt, nonce)
  }

  function OrDefaults(xs: seq<Option<string>>, defaults: seq<string>): seq<string>
    requires |xs| == |defaults|
  {
    seq(|xs|, i requires 0 <= i < |xs| => if xs[i].Some? then xs[i].value else defaults[i])
  }

  lemma {:induction false} LoadAllLength(cr: Crypto, v: State, names: seq<string>, salt: string, nonce: string)
    ensures |LoadAll(cr, v, names, salt, nonce).1| == |names|
    decreases |names|
  {
    if names != [] {
      LoadAllLength(cr, LoadSpec(cr, v, names[0], Works, salt, nonce).0, names[1..], salt, nonce);
    }
  }

  /** The flow with IndexedDB available and the bridge ready. */
  ghost function ChangeSpec(cr: Crypto, plan: Plan, v: State, oldPass: string, newPass: string, salt: string,
                            nonce: string): (State, Report)
    requires Sound(plan)
  {
    var (v1, o) := UnlockSpec(cr, v, oldPass, salt, nonce);
    if o.Threw? then (v1, Failed) else if o.Refused? then (v1, WrongOldPassword) else
      var (v2, xs) := LoadAll(cr, v1, plan.names, salt, nonce);
      LoadAllLength(cr, v1, plan.names, salt, nonce);
      var v3 := LockSpec(v2, true);
      var (v4, o4) := UnlockSpec(cr, v3, newPass, salt, nonce);
      if o4.Threw? then (v4, Failed) else
        var (v5, done) := SaveAll(cr, v4, plan.names, OrDefaults(xs, plan.defaults), salt, nonce);
        if !done || v5.key.None? then (v5, Failed)
        else (v5.(ls := v5.ls[MarkerKey(UserOf(v5)) := cr.enc(v5.key.value, nonce, LOCK_TEXT)]), Changed)
  }

  // ---------- what the stores say under a key ----------

  /** The value a load with this key would find. */
  function Peek(cr: Crypto, key: Key, v: State, name: string): Option<string> {
    var entry := EntryKey(UserOf(v), name);
    if Stored(v.idb, entry) then cr.dec(key, v.idb[entry])
    else if Stored(v.ls, entry) then cr.dec(key, v.ls[entry])
    else None
  }

  ghost predicate SamePeeks(cr: Crypto, key: Key, v: State, w: State) {
    forall name :: Peek(cr, key, v, name) == Peek(cr, key, w, name)
  }

  ghost predicate SameGuards(v: State, w: State) {
    && w.currentUser == v.currentUser && w.sessionUser == v.sessionUser
    && SameAt(MarkerKey(UserOf(v)), v.ls, w.ls) && SameAt(SaltKey(UserOf(v)), v.ls, w.ls)
  }

  /** A vault with a salt and a marker, whose passwords derive the given keys. */
  ghost predicate SetUp(cr: Crypto, v: State) {
    && Lawful(cr) && PlainId(UserOf(v))
    && Stored(v.ls, SaltKey(UserOf(v))) && Stored(v.ls, MarkerKey(UserOf(v)))
    && forall p :: cr.kdf(p, v.ls[SaltKey(UserOf(v))]).Some?
  }

  ghost function KeyOf(cr: Crypto, v: State, password: string): Key
    requires SetUp(cr, v)
  {
    cr.kdf(password, v.ls[SaltKey(UserOf(v))]).value
  }

  ghost function MarkerOf(v: State): string
    requires Stored(v.ls, MarkerKey(UserOf(v)))
  {
    v.ls[MarkerKey(UserOf(v))]
  }

  lemma {:induction false} SetUpKept(cr: Crypto, v: State, w: State)
    requires SetUp(cr, v) && SameGuards(v, w)
    ensures SetUp(cr, w) && MarkerOf(w) == MarkerOf(v) && forall p :: KeyOf(cr, w, p) == KeyOf(cr, v, p)
  {
  }

  lemma {:induction false} UnlockOnSetUp(cr: Crypto, v: State, password: string, salt: string, nonce: string)
    requires SetUp(cr, v)
    ensures var key := KeyOf(cr, v, password); var opens := cr.dec(key, MarkerOf(v)).Some?;
            UnlockSpec(cr, v, password, salt, nonce) == (v.(key := Some(key), isUnlocked := opens),
                if opens then Unlocked else Refused)
  {
  }

  // ---------- the seven reads ----------

  lemma {:induction false} LoadOnUnlocked(cr: Crypto, v: State, name: string, salt: string, nonce: string)
    requires SetUp(cr, v) && v.isUnlocked && v.key.Some?
    ensures var (w, x) := LoadSpec(cr, v, name, Works, salt, nonce);
            && x == Peek(cr, v.key.value, v, name) && w.isUnlocked && w.key == v.key
            && SameGuards(v, w) && SamePeeks(cr, v.key.value, v, w)
  {
    var w := LoadSpec(cr, v, name, Works, salt, nonce).0;
    EntryNeverMarkerOrSalt(UserOf(v), name, UserOf(v));
    forall other
      ensures Peek(cr, v.key.value, v, other) == Peek(cr, v.key.value, w, other)
    {
      EntryKeysApart(UserOf(v), name, UserOf(v), other);
    }
  }

  lemma {:induction false} LoadAllOnUnlocked(cr: Crypto, v: State, names: seq<string>, salt: string, nonce: string)
    requires SetUp(cr, v) && v.isUnlocked && v.key.Some?
    ensures var (w, xs) := LoadAll(cr, v, names, salt, nonce);
            && |xs| == |names| && (forall i | 0 <= i < |names| :: xs[i] == Peek(cr, v.key.value, v, names[i]))
            && w.isUnlocked && w.key == v.key && SameGuards(v, w) && SamePeeks(cr, v.key.value, v, w)
    decreases |names|
  {
    if names != [] {
      LoadOnUnlocked(cr, v, names[0], salt, nonce);
      var v1 := LoadSpec(cr, v, names[0], Works, salt, nonce).0;
      SetUpKept(cr, v, v1);
      LoadAllOnUnlocked(cr, v1, names[1..], salt, nonce);
    }
  }

  // ---------- the seven writes ----------

  lemma {:induction false} SaveOnUnlocked(cr: Crypto, v: State, name: string, data: string, salt: string, nonce: string)
    requires SetUp(cr, v) && v.isUnlocked && v.key.Some?
    ensures var (w, o) := SaveSpec(cr, v, name, data, Works, salt, nonce);
            && o.Unlocked? && w.isUnlocked && w.key == v.key && SameGuards(v, w)
            && Peek(cr, v.key.value, w, name) == Some(data)
            && forall other | other != name :: Peek(cr, v.key.value, w, other) == Peek(cr, v.key.value, v, other)
  {
    forall other | other != name
      ensures EntryKey(UserOf(v), other) != EntryKey(UserOf(v), name)
    {
      EntryKeysApart(UserOf(v), name, UserOf(v), other);
    }
  }

  lemma {:induction false} SaveAllOnUnlocked(cr: Crypto, v: State, names: seq<string>, values: seq<string>,
                                             salt: string, nonce: string)
    requires |names| == |values| && NoRepeats(names)
    requires SetUp(cr, v) && v.isUnlocked && v.key.Some?
    ensures var (w, done) := SaveAll(cr, v, names, values, salt, nonce);
            && done && w.key == v.key && SameGuards(v, w)
            && (forall i | 0 <= i < |names| :: Peek(cr, v.key.value, w, names[i]) == Some(values[i]))
            && (forall other | other !in names :: Peek(cr, v.key.value, w, other) == Peek(cr, v.key.value, v, other))
    decreases |names|
  {
    if names != [] {
      SaveOnUnlocked(cr, v, names[0], values[0], salt, nonce);
      var v1 := SaveSpec(cr, v, names[0], values[0], Works, salt, nonce).0;
      SetUpKept(cr, v, v1);
      SaveAllOnUnlocked(cr, v1, names[1..], values[1..], salt, nonce);
      assert names[0] !in names[1..];
    }
  }

  /** While the vault is locked and the default password does not open it, saving changes only the bridge key. */
  lemma {:induction false} SaveAllOnLocked(cr: Crypto, v: State, names: seq<string>, values: seq<string>, salt: string,
                                           nonce: string)
    requires |names| == |values| && names != []
    requires SetUp(cr, v) && !v.isUnlocked && cr.dec(KeyOf(cr, v, DEFAULT_PASSWORD), MarkerOf(v)).None?
    ensures SaveAll(cr, v, names, values, salt, nonce) == (v.(key := Some(KeyOf(cr, v, DEFAULT_PASSWORD))), true)
    decreases |names|
  {
    UnlockOnSetUp(cr, v, DEFAULT_PASSWORD, salt, nonce);
    var v1 := v.(key := Some(KeyOf(cr, v, DEFAULT_PASSWORD)));
    assert SaveSpec(cr, v, names[0], values[0], Works, salt, nonce) == (v1, Refused);
    if |names| > 1 {
      SaveAllOnLocked(cr, v1, names[1..], values[1..], salt, nonce);
    }
  }

  /** Locked, but opened by the default password: the first save unlocks and all of them go through. */
  lemma {:induction false} SaveAllThroughDefault(cr: Crypto, v: State, names: seq<string>, values: seq<string>,
                                                 salt: string, nonce: string)
    requires |names| == |values| && names != []
    requires SetUp(cr, v) && !v.isUnlocked && cr.dec(KeyOf(cr, v, DEFAULT_PASSWORD), MarkerOf(v)).Some?
    ensures SaveAll(cr, v, names, values, salt, nonce) ==
            SaveAll(cr, v.(key := Some(KeyOf(cr, v, DEFAULT_PASSWORD)), isUnlocked := true), names, values, salt, nonce)
  {
    UnlockOnSetUp(cr, v, DEFAULT_PASSWORD, salt, nonce);
  }

  // ---------- the theorem ----------

  /** After the change the new password unlocks, and each of the seven values that was there is still there. */
  ghost predicate Preserved(cr: Crypto, plan: Plan, v: State, w: State, oldKey: Key, newPass: string, salt: string,
                            nonce: string) {
    var (u, o) := UnlockSpec(cr, w, newPass, salt, nonce);
    && o.Unlocked?
    && forall i | 0 <= i < |plan.names| && Peek(cr, oldKey, v, plan.names[i]).Some? ::
         LoadSpec(cr, u, plan.names[i], Works, salt, nonce).1 == Peek(cr, oldKey, v, plan.names[i])
  }

  ghost predicate NothingStored(cr: Crypto, plan: Plan, v: State, key: Key) {
    forall i | 0 <= i < |plan.names| :: Peek(cr, key, v, plan.names[i]).None?
  }

  lemma {:induction false} ShippedPlanSound()
    ensures Sound(SHIPPED)
    ensures |SHIPPED.names| == 7 && SHIPPED.names[0] == "hermes_contacts" && SHIPPED.names[1] == "hermes_contact_data"
    ensures SHIPPED.names[2] == "hermes_shared_keys" && SHIPPED.names[3] == "hermes_groups"
    ensures SHIPPED.names[4] == "hermes_messages" && SHIPPED.names[5] == "hermes_settings"
    ensures SHIPPED.names[6] == "hermes_keys" && SHIPPED.defaults == ["[]", "[]", "{}", "[]", "{}", "{}", "null"]
  {
    assert |NAMES[0]| == 15 && |NAMES[1]| == 19 && |NAMES[2]| == 18 && |NAMES[3]| == 13;
    assert |NAMES[4]| == 15 && |NAMES[5]| == 15 && |NAMES[6]| == 11;
    assert NAMES[0][7] == 'c' && NAMES[4][7] == 'm' && NAMES[5][7] == 's';
  }

  /** The state in which the new password is tried: the old key has read everything, nothing is lost yet. */
  lemma {:induction false} BeforeNewPassword(cr: Crypto, plan: Plan, v: State, oldPass: string, salt: string,
                                             nonce: string) returns (v3: State, xs: seq<Option<string>>)
    requires Sound(plan)
    requires SetUp(cr, v) && cr.dec(KeyOf(cr, v, oldPass), MarkerOf(v)).Some?
    ensures var v1 := UnlockSpec(cr, v, oldPass, salt, nonce).0;
            (LockSpec(LoadAll(cr, v1, plan.names, salt, nonce).0, true), LoadAll(cr, v1, plan.names, salt, nonce).1) ==
                (v3, xs)
    ensures |xs| == |plan.names| && forall i | 0 <= i < |plan.names| ::
            xs[i] == Peek(cr, KeyOf(cr, v, oldPass), v, plan.names[i])
    ensures SetUp(cr, v3) && MarkerOf(v3) == MarkerOf(v) && (forall p :: KeyOf(cr, v3, p) == KeyOf(cr, v, p))
    ensures !v3.isUnlocked && SamePeeks(cr, KeyOf(cr, v, oldPass), v, v3) && SameGuards(v, v3)
  {
    UnlockOnSetUp(cr, v, oldPass, salt, nonce);
    var v1 := UnlockSpec(cr, v, oldPass, salt, nonce).0;
    SetUpKept(cr, v, v1);
    LoadAllOnUnlocked(cr, v1, plan.names, salt, nonce);
    var v2 := LoadAll(cr, v1, plan.names, salt, nonce).0;
    v3 := LockSpec(v2, true);
    var key := KeyOf(cr, v, oldPass);
    forall name
      ensures Peek(cr, key, v, name) == Peek(cr, key, v3, name)
    {
      assert Peek(cr, key, v, name) == Peek(cr, key, v1, name) == Peek(cr, key, v2, name);
    }
    xs := LoadAll(cr, v1, plan.names, salt, nonce).1;
    SetUpKept(cr, v1, v3);
  }

  /** Replacing the marker touches no value, and afterwards exactly the passwords of the bridge key unlock. */
  lemma {:induction false} AfterNewMarker(cr: Crypto, v: State, nonce: string)
    requires SetUp(cr, v) && v.key.Some?
    ensures var w := v.(ls := v.ls[MarkerKey(UserOf(v)) := cr.enc(v.key.value, nonce, LOCK_TEXT)]);
            && SetUp(cr, w) && (forall p :: KeyOf(cr, w, p) == KeyOf(cr, v, p))
            && (forall k :: cr.dec(k, MarkerOf(w)).Some? <==> k == v.key.value)
            && (forall k, name :: Peek(cr, k, w, name) == Peek(cr, k, v, name))
  {
    MarkerNeverSalt(UserOf(v), UserOf(v));
    var w := v.(ls := v.ls[MarkerKey(UserOf(v)) := cr.enc(v.key.value, nonce, LOCK_TEXT)]);
    forall k, name
      ensures Peek(cr, k, w, name) == Peek(cr, k, v, name)
    {
      EntryNeverMarkerOrSalt(UserOf(v), name, UserOf(v));
    }
    assert cr.dec(v.key.value, cr.enc(v.key.value, nonce, LOCK_TEXT)).Some?;
  }

  function Guard(oldKey: Key, newKey: Key, spare: Key): Key {
    if newKey == oldKey then oldKey else spare
  }

  /** No key but the old one reads anything that the old one reads in v. */
  ghost predicate SealedFromOthers(cr: Crypto, oldKey: Key, v: State, w: State) {
    forall k, name :: k != oldKey && Peek(cr, oldKey, v, name).Some? ==> Peek(cr, k, w, name).None?
  }

  ghost predicate ValuesKept(cr: Crypto, plan: Plan, oldKey: Key, v: State, w: State) {
    forall i | 0 <= i < |plan.names| && Peek(cr, oldKey, v, plan.names[i]).Some? ::
      Peek(cr, oldKey, w, plan.names[i]) == Peek(cr, oldKey, v, plan.names[i])
  }

  /** Every name reads as before, or as its default where nothing was read before. */
  ghost predicate FilledIn(cr: Crypto, plan: Plan, oldKey: Key, v: State, w: State)
    requires Sound(plan)
  {
    forall i | 0 <= i < |plan.names| ::
      var before := Peek(cr, oldKey, v, plan.names[i]);
      Peek(cr, oldKey, w, plan.names[i]) == if before.Some? then before else Some(plan.defaults[i])
  }

  lemma {:induction false} PeekUnderOneKey(cr: Crypto, key: Key, v: State)
    requires Lawful(cr)
    ensures SealedFromOthers(cr, key, v, v)
  {
  }

  /** The seven writes after the unlock with the new password, whose answer is ignored. v is the state right after
      that unlock attempt; the old key's values xs have been read before. */
  lemma {:induction false} WritesOutcome(cr: Crypto, plan: Plan, v: State, oldKey: Key, newKey: Key,
                                         xs: seq<Option<string>>, salt: string, nonce: string)
      returns (w: State)
    requires Sound(plan)
    requires SetUp(cr, v) && cr.dec(oldKey, MarkerOf(v)).Some?
    requires v.key == Some(newKey) && v.isUnlocked == (newKey == oldKey)
    requires |xs| == |plan.names| && forall i | 0 <= i < |plan.names| :: xs[i] == Peek(cr, oldKey, v, plan.names[i])
    ensures SaveAll(cr, v, plan.names, OrDefaults(xs, plan.defaults), salt, nonce) == (w, true)
    ensures w.key == Some(Guard(oldKey, newKey, KeyOf(cr, v, DEFAULT_PASSWORD))) && SameGuards(v, w)
    ensures ValuesKept(cr, plan, oldKey, v, w)
    ensures w.key == Some(oldKey) ==> FilledIn(cr, plan, oldKey, v, w)
    ensures w.key != Some(oldKey) ==> SealedFromOthers(cr, oldKey, v, w)
  {
    var spare, values := KeyOf(cr, v, DEFAULT_PASSWORD), OrDefaults(xs, plan.defaults);
    w := SaveAll(cr, v, plan.names, values, salt, nonce).0;
    if newKey == oldKey {
      SaveAllOnUnlocked(cr, v, plan.names, values, salt, nonce);
    } else if spare == oldKey {
      var v' := v.(key := Some(spare), isUnlocked := true);
      SetUpKept(cr, v, v');
      SaveAllThroughDefault(cr, v, plan.names, values, salt, nonce);
      SaveAllOnUnlocked(cr, v', plan.names, values, salt, nonce);
    } else {
      SaveAllOnLocked(cr, v, plan.names, values, salt, nonce);
      PeekUnderOneKey(cr, oldKey, v);
    }
  }

  /** What the whole flow leaves behind: one key guards the vault, and the values are either all rewritten under the
      old key or all as they were. */
  lemma {:induction false} FlowOutcome(cr: Crypto, plan: Plan, v: State, oldPass: string, newPass: string,
                                       salt: string, nonce: string) returns (w: State)
    requires Sound(plan)
    requires SetUp(cr, v) && cr.dec(KeyOf(cr, v, oldPass), MarkerOf(v)).Some?
    ensures ChangeSpec(cr, plan, v, oldPass, newPass, salt, nonce) == (w, Changed)
    ensures SetUp(cr, w) && (forall p :: KeyOf(cr, w, p) == KeyOf(cr, v, p))
    ensures var oldKey := KeyOf(cr, v, oldPass);
            var guard := Guard(oldKey, KeyOf(cr, v, newPass), KeyOf(cr, v, DEFAULT_PASSWORD));
            && (forall k :: cr.dec(k, MarkerOf(w)).Some? <==> k == guard)
            && ValuesKept(cr, plan, oldKey, v, w)
            && (guard == oldKey ==> FilledIn(cr, plan, oldKey, v, w))
            && (guard != oldKey ==> SealedFromOthers(cr, oldKey, v, w))
  {
    var oldKey, newKey := KeyOf(cr, v, oldPass), KeyOf(cr, v, newPass);
    UnlockOnSetUp(cr, v, oldPass, salt, nonce);
    var v3, xs := BeforeNewPassword(cr, plan, v, oldPass, salt, nonce);
    UnlockOnSetUp(cr, v3, newPass, salt, nonce);
    var v4 := UnlockSpec(cr, v3, newPass, salt, nonce).0;
    SetUpKept(cr, v3, v4);
    forall name
      ensures Peek(cr, oldKey, v4, name) == Peek(cr, oldKey, v, name)
    {
      assert Peek(cr, oldKey, v3, name) == Peek(cr, oldKey, v, name);
    }
    var v5 := WritesOutcome(cr, plan, v4, oldKey, newKey, xs, salt, nonce);
    SetUpKept(cr, v4, v5);
    AfterNewMarker(cr, v5, nonce);
    w := v5.(ls := v5.ls[MarkerKey(UserOf(v5)) := cr.enc(v5.key.value, nonce, LOCK_TEXT)]);
    forall k, name
      ensures Peek(cr, k, w, name) == Peek(cr, k, v5, name)
    {
    }
  }

  /** The flow reports success; it really leaves the new password opening the vault with every value intact exactly when
      the new password derives the old key, or derives the default password's key while there is nothing to lose. */
  lemma {:induction false} ChangePreservesIff(cr: Crypto, plan: Plan, v: State, oldPass: string, newPass: string,
                                              salt: string, nonce: string)
    requires Sound(plan)
    requires SetUp(cr, v) && cr.dec(KeyOf(cr, v, oldPass), MarkerOf(v)).Some?
    ensures var (w, report) := ChangeSpec(cr, plan, v, oldPass, newPass, salt, nonce);
            var oldKey, newKey := KeyOf(cr, v, oldPass), KeyOf(cr, v, newPass);
            && report == Changed
            && (Preserved(cr, plan, v, w, oldKey, newPass, salt, nonce) <==>
                newKey == oldKey || (newKey == KeyOf(cr, v, DEFAULT_PASSWORD) && NothingStored(cr, plan, v, oldKey)))
  {
    var oldKey, newKey, spare := KeyOf(cr, v, oldPass), KeyOf(cr, v, newPass), KeyOf(cr, v, DEFAULT_PASSWORD);
    var w := FlowOutcome(cr, plan, v, oldPass, newPass, salt, nonce);
    UnlockOnSetUp(cr, w, newPass, salt, nonce);
    var u := UnlockSpec(cr, w, newPass, salt, nonce).0;
    SetUpKept(cr, w, u);
    if u.isUnlocked {
      forall i | 0 <= i < |plan.names|
        ensures LoadSpec(cr, u, plan.names[i], Works, salt, nonce).1 == Peek(cr, newKey, w, plan.names[i])
      {
        LoadOnUnlocked(cr, u, plan.names[i], salt, nonce);
      }
    }
  }

  /** In the ordinary case of three different passwords the user is left outside: neither the old nor the new password
      unlocks the vault any more, only the built-in default does. */
  lemma {:induction false} OrdinaryChangeLocksOut(cr: Crypto, plan: Plan, v: State, oldPass: string, newPass: string,
                                                  salt: string, nonce: string)
    requires Sound(plan)
    requires SetUp(cr, v) && cr.dec(KeyOf(cr, v, oldPass), MarkerOf(v)).Some?
    requires KeyOf(cr, v, newPass) != KeyOf(cr, v, oldPass)
    requires KeyOf(cr, v, DEFAULT_PASSWORD) != KeyOf(cr, v, oldPass) &&
             KeyOf(cr, v, DEFAULT_PASSWORD) != KeyOf(cr, v, newPass)
    ensures var w := ChangeSpec(cr, plan, v, oldPass, newPass, salt, nonce).0;
            && UnlockSpec(cr, w, oldPass, salt, nonce).1 == Refused
            && UnlockSpec(cr, w, newPass, salt, nonce).1 == Refused
            && UnlockSpec(cr, w, DEFAULT_PASSWORD, salt, nonce).1 == Unlocked
  {
    var w := FlowOutcome(cr, plan, v, oldPass, newPass, salt, nonce);
    UnlockOnSetUp(cr, w, oldPass, salt, nonce);
    UnlockOnSetUp(cr, w, newPass, salt, nonce);
    UnlockOnSetUp(cr, w, DEFAULT_PASSWORD, salt, nonce);
  }
}
