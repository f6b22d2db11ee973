/** What the vault keeps over any sequence of calls that do not overlap, made by any users. */
module VaultHistory {
  import opened Common
  import opened Vault

  /** What a load of entry k as user u reads from the two stores with this key, IndexedDB being available. */
  function Readable(cr: Crypto, v: State, u: string, k: string, key: Key): Option<string> {
    var entry := EntryKey(u, k);
    if Stored(v.idb, entry) then cr.dec(key, v.idb[entry])
    else if Stored(v.ls, entry) then cr.dec(key, v.ls[entry])
    else None
  }

  /** The call takes the value away from its owner: a deletion or another save of that entry that reaches the copy in
      use, or a load that finds the only copy in local storage and has no IndexedDB to move it to. */
  ghost predicate Loses(cr: Crypto, v: State, c: Call, u: string, k: string, key: Key, data: string) {
    var reaches := c.db.Works? || !Stored(v.idb, EntryKey(u, k));
    var (v1, o) := EnsureUnlocked(cr, v, c.salt, c.nonce);
    UserOf(v) == u &&
    match c.act
    case Delete(x) => x == k && reaches
    case Save(x, d) =>
      x == k && reaches && !c.db.Fails? && o.Unlocked? && v1.key.Some? && !(v1.key == Some(key) && d == data)
    case Load(x) => x == k && c.db.Absent? && reaches && o.Unlocked? && v1.key == Some(key)
    case _ => false
  }

  ghost predicate EntriesSame(u: string, k: string, v: State, w: State) {
    SameAt(EntryKey(u, k), v.ls, w.ls) && SameAt(EntryKey(u, k), v.idb, w.idb)
  }

  /** Where there is no user, the vault is locked. */
  ghost predicate UserIfUnlocked(v: State) {
    Fit(v) && (v.isUnlocked ==> UserOf(v) != "")
  }

  lemma {:induction false} OthersEntriesSame(cr: Crypto, v: State, c: Call, u: string, k: string)
    requires UserIfUnlocked(v) && PlainId(u) && UserOf(v) != u
    ensures EntriesSame(u, k, v, Next(cr, v, c))
  {
    if UserOf(v) != "" {
      OtherUsersUntouched(cr, v, c, u);
    } else if c.act.Delete? {
      NobodysEntry(u, c.act.k, k);
    } else {
      NobodyWrites(cr, v, c);
    }
  }

  /** Unlocking changes no entry. */
  lemma {:induction false} UnlockKeepsEntries(cr: Crypto, v: State, password: string, salt: string, nonce: string,
                                              k: string)
    requires PlainId(UserOf(v))
    ensures EntriesSame(UserOf(v), k, v, UnlockSpec(cr, v, password, salt, nonce).0)
  {
    var u := UserOf(v);
    EntryNeverMarkerOrSalt(u, k, u);
    UnlockKeepsRest(cr, v, password, salt, nonce);
    UnlockTouchesAt(cr, v, password, salt, nonce, EntryKey(u, k));
  }

  lemma {:induction false} EnsureKeepsEntries(cr: Crypto, v: State, salt: string, nonce: string, k: string)
    requires PlainId(UserOf(v))
    ensures var w := EnsureUnlocked(cr, v, salt, nonce).0;
            EntriesSame(UserOf(v), k, v, w) && UserOf(w) == UserOf(v) && w.idb == v.idb
  {
    UnlockKeepsRest(cr, v, DEFAULT_PASSWORD, salt, nonce);
    UnlockKeepsEntries(cr, v, DEFAULT_PASSWORD, salt, nonce, k);
  }

  /** A save of another entry leaves this one alone. */
  lemma {:induction false} OtherSaveKeeps(cr: Crypto, v: State, x: string, data: string, db: Db, salt: string,
                                          nonce: string, k: string)
    requires PlainId(UserOf(v)) && x != k
    ensures EntriesSame(UserOf(v), k, v, SaveSpec(cr, v, x, data, db, salt, nonce).0)
  {
    EnsureKeepsEntries(cr, v, salt, nonce, k);
    EntryKeysApart(UserOf(v), k, UserOf(v), x);
  }

  lemma {:induction false} SaveLosesIff(cr: Crypto, v: State, c: Call, u: string, k: string, key: Key, data: string)
    requires Lawful(cr) && PlainId(u) && UserOf(v) == u && c.act.Save? && c.act.k == k
    requires Readable(cr, v, u, k, key) == Some(data)
    ensures Readable(cr, Next(cr, v, c), u, k, key) == Some(data) <==> !Loses(cr, v, c, u, k, key, data)
  {
    var d, v1 := c.act.data, EnsureUnlocked(cr, v, c.salt, c.nonce).0;
    EnsureKeepsEntries(cr, v, c.salt, c.nonce, k);
    if v1.key.Some? {
      var cipher := cr.enc(v1.key.value, c.nonce, d);
      assert cr.dec(v1.key.value, cipher) == Some(d) && cipher != "";
    }
  }

  /** A load of another entry leaves this one alone. */
  lemma {:induction false} OtherLoadKeeps(cr: Crypto, v: State, x: string, db: Db, salt: string, nonce: string,
                                          k: string)
    requires PlainId(UserOf(v)) && x != k
    ensures EntriesSame(UserOf(v), k, v, LoadSpec(cr, v, x, db, salt, nonce).0)
  {
    EnsureKeepsEntries(cr, v, salt, nonce, k);
    EntryKeysApart(UserOf(v), k, UserOf(v), x);
  }

  lemma {:induction false} LoadLosesIff(cr: Crypto, v: State, c: Call, u: string, k: string, key: Key, data: string)
    requires Lawful(cr) && PlainId(u) && UserOf(v) == u && c.act == Action.Load(k)
    requires Readable(cr, v, u, k, key) == Some(data)
    ensures Readable(cr, Next(cr, v, c), u, k, key) == Some(data) <==> !Loses(cr, v, c, u, k, key, data)
  {
    var entry := EntryKey(u, k);
    var (v1, o) := EnsureUnlocked(cr, v, c.salt, c.nonce);
    EnsureKeepsEntries(cr, v, c.salt, c.nonce, k);
    if o.Unlocked? && Stored(v1.ls, entry) && Open(cr, v1.key, v1.ls[entry]).Some? {
      var value := Open(cr, v1.key, v1.ls[entry]).value;
      var cipher := cr.enc(v1.key.value, c.nonce, value);
      assert cr.dec(v1.key.value, cipher) == Some(value) && cipher != "";
    }
  }

  lemma {:induction false} StepLosesIff(cr: Crypto, v: State, c: Call, u: string, k: string, key: Key, data: string)
    requires Lawful(cr) && UserIfUnlocked(v) && PlainId(u) && Readable(cr, v, u, k, key) == Some(data)
    ensures Readable(cr, Next(cr, v, c), u, k, key) == Some(data) <==> !Loses(cr, v, c, u, k, key, data)
  {
    if UserOf(v) != u {
      OthersEntriesSame(cr, v, c, u, k);
    } else {
      match c.act
      case Save(x, d) =>
        if x == k {
          SaveLosesIff(cr, v, c, u, k, key, data);
        } else {
          OtherSaveKeeps(cr, v, x, d, c.db, c.salt, c.nonce, k);
        }
      case Load(x) =>
        if x == k {
          LoadLosesIff(cr, v, c, u, k, key, data);
        } else {
          OtherLoadKeeps(cr, v, x, c.db, c.salt, c.nonce, k);
        }
      case TryUnlock(p) => UnlockKeepsEntries(cr, v, p, c.salt, c.nonce, k);
      case Delete(x) => EntryKeysApart(u, k, u, x);
      case _ =>
    }
  }

  // ---------- a user's salt and marker stay ----------

  /** The password's key still opens the user's marker under the user's salt. */
  ghost predicate PasswordHolds(cr: Crypto, v: State, u: string, password: string, key: Key) {
    && Stored(v.ls, SaltKey(u)) && cr.kdf(password, v.ls[SaltKey(u)]) == Some(key)
    && Stored(v.ls, MarkerKey(u)) && cr.dec(key, v.ls[MarkerKey(u)]).Some?
  }

  ghost predicate MarkerAndSaltSame(u: string, v: State, w: State) {
    SameAt(MarkerKey(u), v.ls, w.ls) && SameAt(SaltKey(u), v.ls, w.ls)
  }

  lemma {:induction false} UnlockKeepsStored(cr: Crypto, v: State, password: string, salt: string, nonce: string)
    requires Stored(v.ls, SaltKey(UserOf(v))) && Stored(v.ls, MarkerKey(UserOf(v)))
    ensures UnlockSpec(cr, v, password, salt, nonce).0.ls == v.ls
    ensures UserOf(UnlockSpec(cr, v, password, salt, nonce).0) == UserOf(v)
  {
  }

  lemma {:induction false} EnsureKeepsStored(cr: Crypto, v: State, salt: string, nonce: string)
    requires Stored(v.ls, SaltKey(UserOf(v))) && Stored(v.ls, MarkerKey(UserOf(v)))
    ensures var w := EnsureUnlocked(cr, v, salt, nonce).0; w.ls == v.ls && UserOf(w) == UserOf(v)
  {
    UnlockKeepsStored(cr, v, DEFAULT_PASSWORD, salt, nonce);
  }

  lemma {:induction false} SaveKeepsStored(cr: Crypto, v: State, k: string, data: string, db: Db, salt: string,
                                           nonce: string)
    requires PlainId(UserOf(v)) && Stored(v.ls, SaltKey(UserOf(v))) && Stored(v.ls, MarkerKey(UserOf(v)))
    ensures MarkerAndSaltSame(UserOf(v), v, SaveSpec(cr, v, k, data, db, salt, nonce).0)
  {
    EnsureKeepsStored(cr, v, salt, nonce);
    EntryNeverMarkerOrSalt(UserOf(v), k, UserOf(v));
  }

  lemma {:induction false} LoadKeepsStored(cr: Crypto, v: State, k: string, db: Db, salt: string, nonce: string)
    requires PlainId(UserOf(v)) && Stored(v.ls, SaltKey(UserOf(v))) && Stored(v.ls, MarkerKey(UserOf(v)))
    ensures MarkerAndSaltSame(UserOf(v), v, LoadSpec(cr, v, k, db, salt, nonce).0)
  {
    EnsureKeepsStored(cr, v, salt, nonce);
    EntryNeverMarkerOrSalt(UserOf(v), k, UserOf(v));
  }

  lemma {:induction false} OwnCallKeepsStored(cr: Crypto, v: State, c: Call)
    requires PlainId(UserOf(v)) && Stored(v.ls, SaltKey(UserOf(v))) && Stored(v.ls, MarkerKey(UserOf(v)))
    ensures MarkerAndSaltSame(UserOf(v), v, Next(cr, v, c))
  {
    match c.act
    case TryUnlock(p) => UnlockKeepsStored(cr, v, p, c.salt, c.nonce);
    case Save(k, data) => SaveKeepsStored(cr, v, k, data, c.db, c.salt, c.nonce);
    case Load(k) => LoadKeepsStored(cr, v, k, c.db, c.salt, c.nonce);
    case Delete(k) => EntryNeverMarkerOrSalt(UserOf(v), k, UserOf(v));
    case _ =>
  }

  lemma {:induction false} PasswordStillHolds(cr: Crypto, v: State, c: Call, u: string, password: string, key: Key)
    requires UserIfUnlocked(v) && UserOf(v) != "" && PlainId(u) && PasswordHolds(cr, v, u, password, key)
    ensures PasswordHolds(cr, Next(cr, v, c), u, password, key)
  {
    if UserOf(v) == u {
      OwnCallKeepsStored(cr, v, c);
    } else {
      OtherUsersUntouched(cr, v, c, u);
    }
  }

  lemma {:induction false} UserStays(cr: Crypto, v: State, c: Call)
    requires UserOf(v) != ""
    ensures UserOf(Next(cr, v, c)) != ""
  {
    match c.act
    case TryUnlock(p) => UnlockKeepsRest(cr, v, p, c.salt, c.nonce);
    case Save(_, _) => UnlockKeepsRest(cr, v, DEFAULT_PASSWORD, c.salt, c.nonce);
    case Load(_) => UnlockKeepsRest(cr, v, DEFAULT_PASSWORD, c.salt, c.nonce);
    case _ =>
  }

  // ---------- durability ----------

  /** The user comes back, unlocks with the password and loads the entry, IndexedDB being available. */
  function ReturnFor(cr: Crypto, v: State, u: string, password: string, k: string): Option<string> {
    var after := UnlockSpec(cr, SetUserSpec(v, u), password, "", "");
    if after.1.Unlocked? then LoadSpec(cr, after.0, k, Works, "", "").1 else None
  }

  lemma {:induction false} ReturnReads(cr: Crypto, v: State, u: string, password: string, k: string, key: Key)
    requires Lawful(cr) && PlainId(u) && u != "undefined" && u != "null" && PasswordHolds(cr, v, u, password, key)
    ensures ReturnFor(cr, v, u, password, k) == Readable(cr, v, u, k, key)
  {
    var v1 := SetUserSpec(v, u);
    assert UserOf(v1) == u && v1.ls == v.ls && v1.idb == v.idb;
    var after := UnlockSpec(cr, v1, password, "", "");
    assert after == (v1.(key := Some(key), isUnlocked := true), Unlocked);
  }

  ghost predicate ReturnsThrough(cr: Crypto, start: State, calls: seq<Call>, n: nat, u: string, password: string,
                                 k: string, data: string)
    requires n <= |calls|
  {
    && ReturnFor(cr, Run(cr, start, calls, n), u, password, k) == Some(data)
    && (n > 0 ==> ReturnsThrough(cr, start, calls, n - 1, u, password, k, data))
  }

  ghost predicate NeverLost(cr: Crypto, start: State, calls: seq<Call>, n: nat, u: string, k: string, key: Key,
                            data: string)
    requires n <= |calls|
  {
    n > 0 ==> NeverLost(cr, start, calls, n - 1, u, k, key, data) &&
              !Loses(cr, Run(cr, start, calls, n - 1), calls[n - 1], u, k, key, data)
  }

  lemma {:induction false} PasswordHoldsThrough(cr: Crypto, start: State, calls: seq<Call>, n: nat, u: string,
                                                password: string, key: Key)
    requires Lawful(cr) && Fit(start) && KeyOpensMarker(cr, start) && FitCalls(calls) && n <= |calls|
    requires PlainId(u) && UserOf(start) != "" && PasswordHolds(cr, start, u, password, key)
    ensures var v := Run(cr, start, calls, n);
            UserIfUnlocked(v) && UserOf(v) != "" && PasswordHolds(cr, v, u, password, key)
  {
    UnlockedMeansKeyOpensMarker(cr, start, calls, n);
    if n > 0 {
      PasswordHoldsThrough(cr, start, calls, n - 1, u, password, key);
      UserStays(cr, Run(cr, start, calls, n - 1), calls[n - 1]);
      PasswordStillHolds(cr, Run(cr, start, calls, n - 1), calls[n - 1], u, password, key);
    }
  }

  /** Through any calls of any users, the owner who comes back with the password is given the saved value, at every
      moment, exactly as long as none of them was a call of the owner that loses it. */
  lemma {:induction false} DurableIff(cr: Crypto, start: State, calls: seq<Call>, n: nat, u: string, password: string,
                                      k: string, key: Key, data: string)
    requires Lawful(cr) && Fit(start) && KeyOpensMarker(cr, start) && FitCalls(calls) && n <= |calls|
    requires PlainId(u) && u != "undefined" && u != "null" && UserOf(start) != ""
    requires PasswordHolds(cr, start, u, password, key) && Readable(cr, start, u, k, key) == Some(data)
    ensures ReturnsThrough(cr, start, calls, n, u, password, k, data) <==>
            NeverLost(cr, start, calls, n, u, k, key, data)
  {
    PasswordHoldsThrough(cr, start, calls, n, u, password, key);
    ReturnReads(cr, Run(cr, start, calls, n), u, password, k, key);
    if n > 0 {
      DurableIff(cr, start, calls, n - 1, u, password, k, key, data);
      var v := Run(cr, start, calls, n - 1);
      PasswordHoldsThrough(cr, start, calls, n - 1, u, password, key);
      ReturnReads(cr, v, u, password, k, key);
      if ReturnFor(cr, v, u, password, k) == Some(data) {
        StepLosesIff(cr, v, calls[n - 1], u, k, key, data);
      }
    }
  }

  /** A save is where such a history begins: the value is readable right after it, unless it went to local storage while
      IndexedDB holds an older copy. */
  lemma {:induction false} SavedIsReadable(cr: Crypto, v: State, k: string, data: string, db: Db, salt: string,
                                           nonce: string, key: Key)
    requires Lawful(cr) && PlainId(UserOf(v)) && v.isUnlocked && v.key == Some(key)
    ensures Readable(cr, SaveSpec(cr, v, k, data, db, salt, nonce).0, UserOf(v), k, key) == Some(data) <==>
            || db.Works? || (db.Absent? && !Stored(v.idb, EntryKey(UserOf(v), k)))
            || Readable(cr, v, UserOf(v), k, key) == Some(data)
  {
    var cipher := cr.enc(key, nonce, data);
    assert cr.dec(key, cipher) == Some(data) && cipher != "";
  }

  // ---------- the other users' stores ----------

  ghost predicate AwayThrough(cr: Crypto, start: State, calls: seq<Call>, n: nat, u: string)
    requires n <= |calls|
  {
    n > 0 ==> AwayThrough(cr, start, calls, n - 1, u) && UserOf(Run(cr, start, calls, n - 1)) != u
  }

  ghost predicate SameThrough(cr: Crypto, start: State, calls: seq<Call>, n: nat, u: string)
    requires n <= |calls|
  {
    SameFor(u, start, Run(cr, start, calls, n)) && (n > 0 ==> SameThrough(cr, start, calls, n - 1, u))
  }

  ghost predicate MarkerSparedThrough(cr: Crypto, start: State, calls: seq<Call>, n: nat, u: string)
    requires n <= |calls|
  {
    n > 0 ==>
      && MarkerSparedThrough(cr, start, calls, n - 1, u)
      && var v := Run(cr, start, calls, n - 1);
         !(UserOf(v) == "" && calls[n - 1].act == Delete("hermes_lock_test_" + u) && Stored(v.ls, MarkerKey(u)))
  }

  /** Through any calls made while u is not the current user, what is stored for u stays, save for that one deletion. */
  lemma {:induction false} OtherUsersUntouchedThrough(cr: Crypto, start: State, calls: seq<Call>, n: nat, u: string)
    requires Lawful(cr) && Fit(start) && KeyOpensMarker(cr, start) && FitCalls(calls) && n <= |calls|
    requires PlainId(u) && AwayThrough(cr, start, calls, n, u)
    ensures SameThrough(cr, start, calls, n, u) <==> MarkerSparedThrough(cr, start, calls, n, u)
  {
    if n > 0 {
      OtherUsersUntouchedThrough(cr, start, calls, n - 1, u);
      UnlockedMeansKeyOpensMarker(cr, start, calls, n - 1);
      var v, c := Run(cr, start, calls, n - 1), calls[n - 1];
      OtherUsersUntouchedIff(cr, v, c, u);
      if SameThrough(cr, start, calls, n - 1, u) {
        SameForSteps(u, start, v, Next(cr, v, c));
      }
    }
  }
}
