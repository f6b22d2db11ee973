/** The encrypted local vault: one manager, one key held by the crypto bridge, and two stores. Text that JSON turned
    values into stands for the values, and base64 text for ciphertexts. */
module Vault {
  import opened Common

  type Key = string

  /** The bridge's primitives. A key derivation fails on a malformed salt. */
  datatype Crypto = Crypto(
    kdf: (string, string) -> Option<Key>,
    enc: (Key, string, string) -> string,
    dec: (Key, string) -> Option<string>)

  /** Decryption inverts encryption under the same key, a ciphertext opens under one key only, and none is empty. */
  ghost predicate Lawful(cr: Crypto) {
    && (forall k, n, m :: cr.dec(k, cr.enc(k, n, m)) == Some(m) && cr.enc(k, n, m) != "")
    && (forall k, k', c | cr.dec(k, c).Some? && cr.dec(k', c).Some? :: k == k')
  }

  const LOCK_TEXT := "\"HERMES_LOCK_OK\""
  const DEFAULT_PASSWORD := "hermes_default_session_key"

  datatype State = State(isUnlocked: bool, currentUser: string, sessionUser: string, key: Option<Key>,
                         ls: map<string, string>, idb: map<string, string>)

  datatype Outcome = Unlocked | Refused | Threw

  /** What a call finds of IndexedDB: it works, it cannot be opened, or it opens and its transactions fail. */
  datatype Db = Works | Absent | Fails

  // ---------- names in the stores ----------

  function EntryKey(user: string, key: string): string { user + "_" + key }

  function MarkerKey(user: string): string { "_hermes_lock_test_" + user }

  function SaltKey(user: string): string { "vault_salt_" + user }

  /** User identifiers are hexadecimal digests; all that matters here is that they are non-empty, contain no
      underscore and are not the word "vault". */
  predicate PlainId(user: string) {
    user != "" && user != "vault" && '_' !in user
  }

  lemma {:induction false} EntryKeysApart(u: string, k: string, v: string, l: string)
    requires PlainId(u) && PlainId(v)
    ensures EntryKey(u, k) == EntryKey(v, l) ==> u == v && k == l
  {
    if EntryKey(u, k) == EntryKey(v, l) {
      FirstFieldUnique('_', u, k, v, l);
    }
  }

  lemma {:induction false} EntryNeverMarkerOrSalt(u: string, k: string, v: string)
    requires PlainId(u)
    ensures EntryKey(u, k) != MarkerKey(v) && EntryKey(u, k) != SaltKey(v)
  {
    var m, s := "hermes_lock_test_" + v, "salt_" + v;
    assert MarkerKey(v) == "" + "_" + m && SaltKey(v) == "vault" + "_" + s;
    if EntryKey(u, k) == MarkerKey(v) {
      FirstFieldUnique('_', u, k, "", m);
    }
    if EntryKey(u, k) == SaltKey(v) {
      FirstFieldUnique('_', u, k, "vault", s);
    }
  }

  lemma {:induction false} MarkerNeverSalt(u: string, v: string)
    ensures MarkerKey(u) != SaltKey(v)
  {
    assert MarkerKey(u)[0] == '_' && SaltKey(v)[0] == 'v';
  }

  lemma {:induction false} MarkersAndSaltsApart(u: string, v: string)
    requires u != v
    ensures MarkerKey(u) != MarkerKey(v) && SaltKey(u) != SaltKey(v)
  {
    assert MarkerKey(u)[18..] == u && MarkerKey(v)[18..] == v;
    assert SaltKey(u)[11..] == u && SaltKey(v)[11..] == v;
  }

  // ---------- the operations on values ----------

  predicate Stored(store: map<string, string>, k: string) {
    k in store && store[k] != ""
  }

  function UserOf(v: State): string {
    if v.currentUser != "" then v.currentUser else v.sessionUser
  }

  function Open(cr: Crypto, key: Option<Key>, cipher: string): Option<string> {
    if key.Some? then cr.dec(key.value, cipher) else None
  }

  function SetUserSpec(v: State, id: string): State {
    if id == "" || id == "undefined" || id == "null" then v
    else v.(isUnlocked := v.isUnlocked && v.currentUser == id, currentUser := id, sessionUser := id)
  }

  /** `salt` and `nonce` are the random values drawn if needed. */
  function UnlockSpec(cr: Crypto, v: State, password: string, salt: string, nonce: string): (State, Outcome) {
    var u := UserOf(v);
    if u == "" then (v, Threw) else
      var v1 := if Stored(v.ls, SaltKey(u)) then v else v.(ls := v.ls[SaltKey(u) := salt]);
      var derived := cr.kdf(password, v1.ls[SaltKey(u)]);
      var v2 := if derived.Some? then v1.(key := derived) else v1;
      if Stored(v2.ls, MarkerKey(u)) then
        if Open(cr, v2.key, v2.ls[MarkerKey(u)]).Some? then (v2.(isUnlocked := true), Unlocked)
        else (v2.(isUnlocked := false), Refused)
      else if v2.key.None? then (v2, Threw)
      else (v2.(ls := v2.ls[MarkerKey(u) := cr.enc(v2.key.value, nonce, LOCK_TEXT)], isUnlocked := true), Unlocked)
  }

  /** Saving and loading unlock with the default password first when the vault is locked. */
  function EnsureUnlocked(cr: Crypto, v: State, salt: string, nonce: string): (State, Outcome) {
    if v.isUnlocked then (v, Unlocked) else UnlockSpec(cr, v, DEFAULT_PASSWORD, salt, nonce)
  }

  /** Without IndexedDB local storage takes the entry; a transaction that fails takes nothing. */
  function Put(v: State, entry: string, cipher: string, db: Db): State {
    match db
    case Works => v.(idb := v.idb[entry := cipher])
    case Absent => v.(ls := v.ls[entry := cipher])
    case Fails => v
  }

  function SaveSpec(cr: Crypto, v: State, k: string, data: string, db: Db, salt: string, nonce: string): (State,
                    Outcome) {
    var (v1, o) := EnsureUnlocked(cr, v, salt, nonce);
    if !o.Unlocked? then (v1, o)
    else if v1.key.None? then (v1, Threw)
    else
      var entry := EntryKey(UserOf(v1), k);
      var cipher := cr.enc(v1.key.value, nonce, data);
      (Put(v1, entry, cipher, db), if db.Fails? then Threw else Unlocked)
  }

  function LoadSpec(cr: Crypto, v: State, k: string, db: Db, salt: string, nonce: string): (State, Option<string>) {
    var (v1, o) := EnsureUnlocked(cr, v, salt, nonce);
    var entry := EntryKey(UserOf(v1), k);
    if !o.Unlocked? then (v1, None)
    else if db.Works? && Stored(v1.idb, entry) then (v1, Open(cr, v1.key, v1.idb[entry]))
    else if !Stored(v1.ls, entry) then (v1, None)
    else
      var parsed := Open(cr, v1.key, v1.ls[entry]);
      if parsed.None? then (v1, None)
      else
        var (v2, saved) := SaveSpec(cr, v1, k, parsed.value, db, salt, nonce);
        if saved.Threw? then (v2, None) else (v2.(ls := v2.ls - {entry}), parsed)
  }

  /** A load fails as its unlock does; a refused unlock, or a value that cannot be moved, only means that nothing is
      found. */
  predicate LoadThrows(cr: Crypto, v: State, salt: string, nonce: string) {
    EnsureUnlocked(cr, v, salt, nonce).1.Threw?
  }

  function DeleteSpec(v: State, k: string, db: Db): State {
    var entry := EntryKey(UserOf(v), k);
    var v1 := if Stored(v.ls, entry) then v.(ls := v.ls - {entry}) else v;
    if db.Works? then v1.(idb := v1.idb - {entry}) else v1
  }

  function LockSpec(v: State, bridgeReady: bool): State {
    v.(isUnlocked := false, key := if bridgeReady then None else v.key)
  }

  // ---------- the manager object ----------

  class StorageManager {
    var isUnlocked: bool
    var currentUser: string
    var sessionUser: string
    var vaultKey: Option<Key>
    var localStorage: map<string, string>
    var indexedDb: map<string, string>
    const cr: Crypto

    function View(): State
      reads this
    {
      State(isUnlocked, currentUser, sessionUser, vaultKey, localStorage, indexedDb)
    }

    constructor (cr: Crypto, sessionUser: string, localStorage: map<string, string>, indexedDb: map<string, string>)
      ensures this.cr == cr && View() == State(false, "", sessionUser, None, localStorage, indexedDb)
    {
      this.cr := cr;
      isUnlocked, currentUser, this.sessionUser, vaultKey := false, "", sessionUser, None;
      this.localStorage, this.indexedDb := localStorage, indexedDb;
    }

    method SetUserId(id: string)
      modifies this
      ensures View() == SetUserSpec(old(View()), id)
      ensures vaultKey == old(vaultKey) && localStorage == old(localStorage) && indexedDb == old(indexedDb)
      ensures var ignored := id in {"", "undefined", "null"};
              && currentUser == (if ignored then old(currentUser) else id)
              && sessionUser == (if ignored then old(sessionUser) else id)
              && isUnlocked == (old(isUnlocked) && (ignored || id == old(currentUser)))
    {
      if id == "" || id == "undefined" || id == "null" {
        return;
      }
      if currentUser != id {
        isUnlocked := false;
      }
      currentUser := id;
      sessionUser := id;
    }

    method Unlock(password: string, drawnSalt: string, nonce: string) returns (outcome: Outcome)
      modifies this
      ensures (View(), outcome) == UnlockSpec(cr, old(View()), password, drawnSalt, nonce)
    {
      var user := if currentUser != "" then currentUser else sessionUser;
      if user == "" {
        return Threw;
      }
      if SaltKey(user) !in localStorage || localStorage[SaltKey(user)] == "" {
        localStorage := localStorage[SaltKey(user) := drawnSalt];
      }
      var derived := cr.kdf(password, localStorage[SaltKey(user)]);
      if derived.Some? {
        vaultKey := derived;
      }
      if Stored(localStorage, MarkerKey(user)) {
        if vaultKey.Some? && cr.dec(vaultKey.value, localStorage[MarkerKey(user)]).Some? {
          isUnlocked := true;
          return Unlocked;
        }
        isUnlocked := false;
        return Refused;
      }
      if vaultKey.None? {
        return Threw;
      }
      localStorage := localStorage[MarkerKey(user) := cr.enc(vaultKey.value, nonce, LOCK_TEXT)];
      isUnlocked := true;
      outcome := Unlocked;
    }

    method Save(k: string, data: string, db: Db, drawnSalt: string, nonce: string) returns (outcome: Outcome)
      modifies this
      ensures (View(), outcome) == SaveSpec(cr, old(View()), k, data, db, drawnSalt, nonce)
      ensures !old(isUnlocked) ==>
                var asked := UnlockSpec(cr, old(View()), "hermes_default_session_key", drawnSalt, nonce);
                asked.1 != Unlocked ==> (View(), outcome) == asked
      ensures old(isUnlocked) ==>
                var user := if currentUser != "" then currentUser else sessionUser;
                && (outcome == Unlocked <==> vaultKey.Some? && db != Fails) && outcome != Refused
                && View() == old(View()).(ls := localStorage, idb := indexedDb)
                && indexedDb == (if outcome == Unlocked && db == Works
                                 then old(indexedDb)[user + "_" + k := cr.enc(vaultKey.value, nonce, data)]
                                 else old(indexedDb))
                && localStorage == (if outcome == Unlocked && db == Absent
                                    then old(localStorage)[user + "_" + k := cr.enc(vaultKey.value, nonce, data)]
                                    else old(localStorage))
    {
      if !isUnlocked {
        outcome := Unlock(DEFAULT_PASSWORD, drawnSalt, nonce);
        if outcome != Unlocked {
          return;
        }
      }
      if vaultKey.None? {
        return Threw;
      }
      var entry := EntryKey(UserOf(View()), k);
      var encrypted := cr.enc(vaultKey.value, nonce, data);
      outcome := Unlocked;
      match db {
        case Works => indexedDb := indexedDb[entry := encrypted];
        case Absent => localStorage := localStorage[entry := encrypted];
        case Fails => outcome := Threw;
      }
    }

    method Load(k: string, db: Db, drawnSalt: string, nonce: string) returns (value: Option<string>, threw: bool)
      modifies this
      ensures (View(), value) == LoadSpec(cr, old(View()), k, db, drawnSalt, nonce)
      ensures threw == LoadThrows(cr, old(View()), drawnSalt, nonce)
      ensures !old(isUnlocked) ==>
                var asked := UnlockSpec(cr, old(View()), "hermes_default_session_key", drawnSalt, nonce);
                && threw == (asked.1 == Threw) && (asked.1 != Unlocked ==> View() == asked.0 && value == None)
      ensures old(isUnlocked) ==>
                var entry := (if currentUser != "" then currentUser else sessionUser) + "_" + k;
                var inDb := db == Works && entry in old(indexedDb) && old(indexedDb)[entry] != "";
                var inLocal := entry in old(localStorage) && old(localStorage)[entry] != "";
                var text := if inDb then old(indexedDb)[entry] else if inLocal then old(localStorage)[entry] else "";
                var found := if vaultKey.None? || text == "" then None else cr.dec(vaultKey.value, text);
                var moves := !inDb && found.Some? && db != Fails;
                && !threw && value == (if inDb || moves then found else None)
                && View() == old(View()).(ls := localStorage, idb := indexedDb)
                && localStorage == (if moves then old(localStorage) - {entry} else old(localStorage))
                && indexedDb == (if moves && db == Works
                                 then old(indexedDb)[entry := cr.enc(vaultKey.value, nonce, found.value)]
                                 else old(indexedDb))
    {
      threw := false;
      if !isUnlocked {
        var outcome := Unlock(DEFAULT_PASSWORD, drawnSalt, nonce);
        if outcome != Unlocked {
          return None, outcome == Threw;
        }
      }
      var entry := EntryKey(UserOf(View()), k);
      if db.Works? && Stored(indexedDb, entry) {
        return Open(cr, vaultKey, indexedDb[entry]), false;
      }
      if !Stored(localStorage, entry) {
        return None, false;
      }
      value := Open(cr, vaultKey, localStorage[entry]);
      if value.Some? {
        var saved := Save(k, value.value, db, drawnSalt, nonce);
        if saved == Threw {
          return None, false;
        }
        localStorage := localStorage - {entry};
      }
    }

    method Delete(k: string, db: Db)
      modifies this
      ensures View() == DeleteSpec(old(View()), k, db)
      ensures var entry := (if currentUser != "" then currentUser else sessionUser) + "_" + k;
              && View() == old(View()).(ls := localStorage, idb := indexedDb)
              && indexedDb == (if db == Works then old(indexedDb) - {entry} else old(indexedDb))
              && localStorage == (if entry in old(localStorage) && old(localStorage)[entry] != ""
                                  then old(localStorage) - {entry} else old(localStorage))
    {
      var entry := EntryKey(UserOf(View()), k);
      if Stored(localStorage, entry) {
        localStorage := localStorage - {entry};
      }
      if db.Works? {
        indexedDb := indexedDb - {entry};
      }
    }

    method Lock(bridgeReady: bool)
      modifies this
      ensures View() == LockSpec(old(View()), bridgeReady)
      ensures !isUnlocked && vaultKey == (if bridgeReady then None else old(vaultKey))
      ensures currentUser == old(currentUser) && sessionUser == old(sessionUser)
      ensures localStorage == old(localStorage) && indexedDb == old(indexedDb)
    {
      if bridgeReady {
        vaultKey := None;
      }
      isUnlocked := false;
    }
  }

  // ---------- runs ----------

  datatype Action =
    | SetUser(id: string)
    | TryUnlock(password: string)
    | Save(k: string, data: string)
    | Load(k: string)
    | Delete(k: string)
    | Lock

  /** One call on the manager, with the random values it may draw and what it finds of IndexedDB and the bridge. */
  datatype Call = Call(act: Action, salt: string, nonce: string, db: Db, bridgeReady: bool)

  function Next(cr: Crypto, v: State, c: Call): State {
    match c.act
    case SetUser(id) => SetUserSpec(v, id)
    case TryUnlock(p) => UnlockSpec(cr, v, p, c.salt, c.nonce).0
    case Save(k, data) => SaveSpec(cr, v, k, data, c.db, c.salt, c.nonce).0
    case Load(k) => LoadSpec(cr, v, k, c.db, c.salt, c.nonce).0
    case Delete(k) => DeleteSpec(v, k, c.db)
    case Lock => LockSpec(v, c.bridgeReady)
  }

  ghost function Run(cr: Crypto, start: State, calls: seq<Call>, n: nat): State
    requires n <= |calls|
  {
    if n == 0 then start else Next(cr, Run(cr, start, calls, n - 1), calls[n - 1])
  }

  ghost predicate Fit(v: State) {
    (v.currentUser == "" || PlainId(v.currentUser)) && (v.sessionUser == "" || PlainId(v.sessionUser))
  }

  ghost predicate FitCalls(calls: seq<Call>) {
    forall i | 0 <= i < |calls| :: calls[i].act.SetUser? && calls[i].act.id != "" ==> PlainId(calls[i].act.id)
  }

  /** While the vault counts as unlocked, the key in the bridge opens the current user's marker. */
  ghost predicate KeyOpensMarker(cr: Crypto, v: State) {
    v.isUnlocked ==>
      && UserOf(v) != ""
      && Stored(v.ls, MarkerKey(UserOf(v)))
      && Open(cr, v.key, v.ls[MarkerKey(UserOf(v))]).Some?
  }

  lemma {:induction false} UnlockKeepsInvariant(cr: Crypto, v: State, password: string, salt: string, nonce: string)
    requires Lawful(cr) && KeyOpensMarker(cr, v)
    ensures var (w, o) := UnlockSpec(cr, v, password, salt, nonce);
            && w.currentUser == v.currentUser && w.sessionUser == v.sessionUser && w.idb == v.idb
            && KeyOpensMarker(cr, w) && (o.Unlocked? ==> w.isUnlocked)
  {
    var u := UserOf(v);
    if u != "" {
      MarkerNeverSalt(u, u);
      var v1 := if Stored(v.ls, SaltKey(u)) then v else v.(ls := v.ls[SaltKey(u) := salt]);
      assert Stored(v1.ls, MarkerKey(u)) == Stored(v.ls, MarkerKey(u));
      var derived := cr.kdf(password, v1.ls[SaltKey(u)]);
      var key := if derived.Some? then derived else v.key;
      if key.Some? {
        assert cr.dec(key.value, cr.enc(key.value, nonce, LOCK_TEXT)) == Some(LOCK_TEXT);
      }
    }
  }

  lemma {:induction false} SaveKeepsInvariant(cr: Crypto, v: State, k: string, data: string, db: Db, salt: string,
                                              nonce: string)
    requires Lawful(cr) && Fit(v) && KeyOpensMarker(cr, v)
    ensures var w := SaveSpec(cr, v, k, data, db, salt, nonce).0; Fit(w) && KeyOpensMarker(cr, w)
  {
    UnlockKeepsInvariant(cr, v, DEFAULT_PASSWORD, salt, nonce);
    if UserOf(v) != "" {
      EntryNeverMarkerOrSalt(UserOf(v), k, UserOf(v));
    }
  }

  lemma {:induction false} LoadKeepsInvariant(cr: Crypto, v: State, k: string, db: Db, salt: string, nonce: string)
    requires Lawful(cr) && Fit(v) && KeyOpensMarker(cr, v)
    ensures var w := LoadSpec(cr, v, k, db, salt, nonce).0; Fit(w) && KeyOpensMarker(cr, w)
  {
    var (v1, o) := EnsureUnlocked(cr, v, salt, nonce);
    UnlockKeepsInvariant(cr, v, DEFAULT_PASSWORD, salt, nonce);
    var entry := EntryKey(UserOf(v1), k);
    if o.Unlocked? && Stored(v1.ls, entry) {
      var parsed := Open(cr, v1.key, v1.ls[entry]);
      if parsed.Some? {
        SaveKeepsInvariant(cr, v1, k, parsed.value, db, salt, nonce);
        EntryNeverMarkerOrSalt(UserOf(v1), k, UserOf(v1));
      }
    }
  }

  lemma {:induction false} CallKeepsInvariant(cr: Crypto, v: State, c: Call)
    requires Lawful(cr) && Fit(v) && KeyOpensMarker(cr, v)
    requires c.act.SetUser? && c.act.id != "" ==> PlainId(c.act.id)
    ensures Fit(Next(cr, v, c)) && KeyOpensMarker(cr, Next(cr, v, c))
  {
    match c.act
    case SetUser(_) =>
    case TryUnlock(p) => UnlockKeepsInvariant(cr, v, p, c.salt, c.nonce);
    case Save(k, data) => SaveKeepsInvariant(cr, v, k, data, c.db, c.salt, c.nonce);
    case Load(k) => LoadKeepsInvariant(cr, v, k, c.db, c.salt, c.nonce);
    case Delete(k) =>
      if UserOf(v) != "" {
        EntryNeverMarkerOrSalt(UserOf(v), k, UserOf(v));
      }
    case Lock =>
  }

  lemma {:induction false} UnlockedMeansKeyOpensMarker(cr: Crypto, start: State, calls: seq<Call>, n: nat)
    requires Lawful(cr) && Fit(start) && KeyOpensMarker(cr, start) && FitCalls(calls) && n <= |calls|
    ensures Fit(Run(cr, start, calls, n)) && KeyOpensMarker(cr, Run(cr, start, calls, n))
  {
    if n > 0 {
      UnlockedMeansKeyOpensMarker(cr, start, calls, n - 1);
      CallKeepsInvariant(cr, Run(cr, start, calls, n - 1), calls[n - 1]);
    }
  }

  /** What an unlock answers, in full: the key is the one derived with the user's salt, drawn if there is none, or the
      old one where none can be derived; the vault opens if the key opens the marker, or if there is a key and no
      marker. */
  lemma {:induction false} UnlockSays(cr: Crypto, v: State, password: string, salt: string, nonce: string)
    ensures var (w, o) := UnlockSpec(cr, v, password, salt, nonce);
            var user := if v.currentUser != "" then v.currentUser else v.sessionUser;
            var saltAt, markerAt := "vault_salt_" + user, "_hermes_lock_test_" + user;
            var derived := cr.kdf(password, if saltAt in v.ls && v.ls[saltAt] != "" then v.ls[saltAt] else salt);
            var key := if derived.Some? then derived else v.key;
            var marked := markerAt in v.ls && v.ls[markerAt] != "";
            var opens := marked && key.Some? && cr.dec(key.value, v.ls[markerAt]).Some?;
            && (user == "" ==> o == Threw && w == v)
            && (user != "" ==> w.key == key && (o == Unlocked <==> opens || (!marked && key.Some?)))
            && (user != "" ==> (o == Refused <==> marked && !opens))
            && (user != "" ==> w.isUnlocked == (o == Unlocked || (o == Threw && v.isUnlocked)))
  {
    MarkerNeverSalt(UserOf(v), UserOf(v));
  }

  /** What it leaves in the stores: the user's salt, drawn if there was none, the marker if there was none and the vault
      is now open, and everything else as it was. */
  lemma {:induction false} UnlockWrites(cr: Crypto, v: State, password: string, salt: string, nonce: string, x: string)
    requires UserOf(v) != ""
    ensures var (w, o) := UnlockSpec(cr, v, password, salt, nonce);
            var user := if v.currentUser != "" then v.currentUser else v.sessionUser;
            var saltAt, markerAt := "vault_salt_" + user, "_hermes_lock_test_" + user;
            var marked := markerAt in v.ls && v.ls[markerAt] != "";
            && w == v.(key := w.key, isUnlocked := w.isUnlocked, ls := w.ls)
            && saltAt in w.ls
            && w.ls[saltAt] == (if saltAt in v.ls && v.ls[saltAt] != "" then v.ls[saltAt] else salt)
            && (o == Unlocked && !marked ==>
                  && w.key.Some? && markerAt in w.ls
                  && w.ls[markerAt] == cr.enc(w.key.value, nonce, "\"HERMES_LOCK_OK\""))
            && (x != saltAt && (x != markerAt || marked) ==> SameAt(x, v.ls, w.ls))
  {
    MarkerNeverSalt(UserOf(v), UserOf(v));
  }

  /** A password whose key does not open an existing marker is refused, leaves the vault locked and stores nothing. */
  lemma {:induction false} WrongPasswordRefused(cr: Crypto, v: State, password: string, salt: string, nonce: string,
                                                key: Key)
    requires UserOf(v) != "" && Stored(v.ls, SaltKey(UserOf(v))) && Stored(v.ls, MarkerKey(UserOf(v)))
    requires cr.kdf(password, v.ls[SaltKey(UserOf(v))]) == Some(key)
    ensures var (w, o) := UnlockSpec(cr, v, password, salt, nonce);
            && (o == Unlocked <==> cr.dec(key, v.ls[MarkerKey(UserOf(v))]).Some?)
            && w.isUnlocked == (o == Unlocked) && w.ls == v.ls && w.idb == v.idb
  {
  }

  /** Everything either store keeps for user u. */
  ghost predicate SameFor(u: string, v: State, w: State) {
    && SameAt(MarkerKey(u), v.ls, w.ls) && SameAt(SaltKey(u), v.ls, w.ls)
    && (forall k :: SameAt(EntryKey(u, k), v.ls, w.ls) && SameAt(EntryKey(u, k), v.idb, w.idb))
  }

  ghost predicate SameAt(k: string, a: map<string, string>, b: map<string, string>) {
    (k in a <==> k in b) && (k in a ==> a[k] == b[k])
  }

  /** Changing one's own salt and marker leaves the other user's stores alone. */
  lemma {:induction false} OwnMarkerAndSaltOnly(u: string, me: string, v: State, w: State)
    requires PlainId(u) && PlainId(me) && me != u
    requires forall x | x != MarkerKey(me) && x != SaltKey(me) :: SameAt(x, v.ls, w.ls)
    requires v.idb == w.idb
    ensures SameFor(u, v, w)
  {
    MarkersAndSaltsApart(u, me);
    MarkerNeverSalt(u, me);
    MarkerNeverSalt(me, u);
    forall k
      ensures SameAt(EntryKey(u, k), v.ls, w.ls) && SameAt(EntryKey(u, k), v.idb, w.idb)
    {
      EntryNeverMarkerOrSalt(u, k, me);
    }
  }

  lemma {:induction false} UnlockTouchesAt(cr: Crypto, v: State, password: string, salt: string, nonce: string,
                                           x: string)
    requires x != MarkerKey(UserOf(v)) && x != SaltKey(UserOf(v))
    ensures SameAt(x, v.ls, UnlockSpec(cr, v, password, salt, nonce).0.ls)
  {
  }

  lemma {:induction false} UnlockKeepsRest(cr: Crypto, v: State, password: string, salt: string, nonce: string)
    ensures var w := UnlockSpec(cr, v, password, salt, nonce).0; w.idb == v.idb && UserOf(w) == UserOf(v)
  {
  }

  lemma {:induction false} UnlockTouchesOwnKeys(cr: Crypto, v: State, password: string, salt: string, nonce: string,
                                                u: string)
    requires PlainId(u) && PlainId(UserOf(v)) && UserOf(v) != u
    ensures SameFor(u, v, UnlockSpec(cr, v, password, salt, nonce).0)
    ensures UserOf(UnlockSpec(cr, v, password, salt, nonce).0) == UserOf(v)
  {
    UnlockKeepsRest(cr, v, password, salt, nonce);
    var me, w := UserOf(v), UnlockSpec(cr, v, password, salt, nonce).0;
    forall x | x != MarkerKey(me) && x != SaltKey(me)
      ensures SameAt(x, v.ls, w.ls)
    {
      UnlockTouchesAt(cr, v, password, salt, nonce, x);
    }
    OwnMarkerAndSaltOnly(u, me, v, w);
  }

  /** Writing or removing one of one's own entries leaves the other user's alone. */
  lemma {:induction false} OwnEntryOnly(u: string, me: string, k: string, v: State, w: State)
    requires PlainId(u) && PlainId(me) && me != u
    requires forall x | x != EntryKey(me, k) :: SameAt(x, v.ls, w.ls) && SameAt(x, v.idb, w.idb)
    ensures SameFor(u, v, w)
  {
    EntryNeverMarkerOrSalt(me, k, u);
    forall l
      ensures SameAt(EntryKey(u, l), v.ls, w.ls) && SameAt(EntryKey(u, l), v.idb, w.idb)
    {
      EntryKeysApart(u, l, me, k);
    }
  }

  lemma {:induction false} SameForComposes(u: string, v: State, w: State, x: State)
    requires SameFor(u, v, w) && SameFor(u, w, x)
    ensures SameFor(u, v, x)
  {
    forall k
      ensures SameAt(EntryKey(u, k), v.ls, x.ls) && SameAt(EntryKey(u, k), v.idb, x.idb)
    {
      assert SameAt(EntryKey(u, k), v.ls, w.ls) && SameAt(EntryKey(u, k), w.ls, x.ls);
      assert SameAt(EntryKey(u, k), v.idb, w.idb) && SameAt(EntryKey(u, k), w.idb, x.idb);
    }
  }

  lemma {:induction false} SameForSteps(u: string, v: State, w: State, x: State)
    requires SameFor(u, v, w)
    ensures SameFor(u, v, x) <==> SameFor(u, w, x)
  {
    assert SameFor(u, w, v);
    if SameFor(u, v, x) {
      SameForComposes(u, w, v, x);
    }
    if SameFor(u, w, x) {
      SameForComposes(u, v, w, x);
    }
  }

  lemma {:induction false} SaveTouchesOwnKeys(cr: Crypto, v: State, k: string, data: string, db: Db, salt: string,
                                              nonce: string, u: string)
    requires PlainId(u) && PlainId(UserOf(v)) && UserOf(v) != u
    ensures SameFor(u, v, SaveSpec(cr, v, k, data, db, salt, nonce).0)
  {
    var v1 := EnsureUnlocked(cr, v, salt, nonce).0;
    UnlockTouchesOwnKeys(cr, v, DEFAULT_PASSWORD, salt, nonce, u);
    var w := SaveSpec(cr, v, k, data, db, salt, nonce).0;
    OwnEntryOnly(u, UserOf(v), k, v1, w);
    SameForComposes(u, v, v1, w);
  }

  lemma {:induction false} LoadTouchesOwnKeys(cr: Crypto, v: State, k: string, db: Db, salt: string, nonce: string,
                                              u: string)
    requires PlainId(u) && PlainId(UserOf(v)) && UserOf(v) != u
    ensures SameFor(u, v, LoadSpec(cr, v, k, db, salt, nonce).0)
  {
    var (v1, o) := EnsureUnlocked(cr, v, salt, nonce);
    UnlockTouchesOwnKeys(cr, v, DEFAULT_PASSWORD, salt, nonce, u);
    var w := LoadSpec(cr, v, k, db, salt, nonce).0;
    if w != v1 {
      var parsed := Open(cr, v1.key, v1.ls[EntryKey(UserOf(v1), k)]);
      var v2 := SaveSpec(cr, v1, k, parsed.value, db, salt, nonce).0;
      SaveTouchesOwnKeys(cr, v1, k, parsed.value, db, salt, nonce, u);
      OwnEntryOnly(u, UserOf(v), k, v2, w);
      SameForComposes(u, v1, v2, w);
      SameForComposes(u, v, v1, w);
    }
  }

  /** No call made as one user changes anything stored for another. */
  lemma {:induction false} OtherUsersUntouched(cr: Crypto, v: State, c: Call, u: string)
    requires PlainId(u) && PlainId(UserOf(v)) && UserOf(v) != u
    ensures SameFor(u, v, Next(cr, v, c))
  {
    match c.act
    case SetUser(_) =>
    case TryUnlock(p) => UnlockTouchesOwnKeys(cr, v, p, c.salt, c.nonce, u);
    case Save(k, data) => SaveTouchesOwnKeys(cr, v, k, data, c.db, c.salt, c.nonce, u);
    case Load(k) => LoadTouchesOwnKeys(cr, v, k, c.db, c.salt, c.nonce, u);
    case Delete(k) => OwnEntryOnly(u, UserOf(v), k, v, Next(cr, v, c));
    case Lock =>
  }

  lemma {:induction false} SameTail(head: string, k: string, l: string)
    ensures head + k == head + l <==> k == l
  {
    assert (head + k)[|head|..] == k && (head + l)[|head|..] == l;
  }

  lemma {:induction false} NobodysMarker(u: string, k: string)
    ensures EntryKey("", k) == MarkerKey(u) <==> k == "hermes_lock_test_" + u
  {
    var name := "hermes_lock_test_" + u;
    SameTail("_", k, name);
    assert EntryKey("", k) == "_" + k;
    assert MarkerKey(u) == "_" + name;
  }

  lemma {:induction false} NobodysEntry(u: string, k: string, l: string)
    requires PlainId(u)
    ensures EntryKey("", k) != SaltKey(u) && EntryKey("", k) != EntryKey(u, l)
  {
    assert EntryKey("", k)[0] == '_' && SaltKey(u)[0] == 'v';
    assert EntryKey(u, l)[0] == u[0] && u[0] in u;
  }

  /** Before any user is set, a deletion removes whatever carries its name behind an underscore. That is another user's
      marker for one name, and nothing else of theirs for any. */
  lemma {:induction false} NobodyDeletes(v: State, k: string, db: Db, u: string)
    requires PlainId(u) && UserOf(v) == ""
    ensures SameFor(u, v, DeleteSpec(v, k, db)) <==> !(k == "hermes_lock_test_" + u && Stored(v.ls, MarkerKey(u)))
  {
    NobodysMarker(u, k);
    forall l
      ensures EntryKey("", k) != SaltKey(u) && EntryKey("", k) != EntryKey(u, l)
    {
      NobodysEntry(u, k, l);
    }
    NobodysEntry(u, k, "");
    var w := DeleteSpec(v, k, db);
    assert SameAt(MarkerKey(u), v.ls, w.ls) <==> !(k == "hermes_lock_test_" + u && Stored(v.ls, MarkerKey(u)));
  }

  /** Every other call then changes no store at all. */
  lemma {:induction false} NobodyWrites(cr: Crypto, v: State, c: Call)
    requires UserOf(v) == "" && !v.isUnlocked && !c.act.Delete?
    ensures Next(cr, v, c).ls == v.ls && Next(cr, v, c).idb == v.idb
  {
  }

  /** No call changes anything stored for another user, with that one exception. */
  lemma {:induction false} OtherUsersUntouchedIff(cr: Crypto, v: State, c: Call, u: string)
    requires PlainId(u) && UserOf(v) != u && (PlainId(UserOf(v)) || (UserOf(v) == "" && !v.isUnlocked))
    ensures SameFor(u, v, Next(cr, v, c)) <==>
            !(UserOf(v) == "" && c.act == Delete("hermes_lock_test_" + u) && Stored(v.ls, MarkerKey(u)))
  {
    if UserOf(v) == "" {
      if c.act.Delete? {
        NobodyDeletes(v, c.act.k, c.db, u);
      } else {
        NobodyWrites(cr, v, c);
      }
    } else {
      OtherUsersUntouched(cr, v, c, u);
    }
  }

  // ---------- the laws have a model ----------

  function Ones(n: nat): string { seq(n, _ => '1') }

  /** A key written in front of its message, behind its own length in unary. */
  function Tagged(k: Key): string { Ones(|k|) + "_" + k }

  function Untag(k: Key, c: string): Option<string> {
    if Tagged(k) <= c then Some(c[|Tagged(k)|..]) else None
  }

  lemma {:induction false} OneKeyOnly(k: Key, l: Key, c: string)
    requires Untag(k, c).Some? && Untag(l, c).Some?
    ensures k == l
  {
    var m, n := Untag(k, c).value, Untag(l, c).value;
    assert c == Ones(|k|) + "_" + (k + m) == Ones(|l|) + "_" + (l + n);
    FirstFieldUnique('_', Ones(|k|), k + m, Ones(|l|), l + n);
    assert |Ones(|k|)| == |Ones(|l|)|;
    assert k == (k + m)[..|k|] && l == (l + n)[..|l|];
  }

  /** What is asked of the cryptography can be had: the theorems are not about nothing. */
  lemma {:induction false} LawsHaveAModel()
    ensures exists cr: Crypto :: Lawful(cr) && forall p, salt :: cr.kdf(p, salt) == Some(p)
  {
    var cr := Crypto((p, salt) => Some(p), (k, n, m) => Tagged(k) + m, (k, c) => Untag(k, c));
    forall k, n, m
      ensures cr.dec(k, cr.enc(k, n, m)) == Some(m) && cr.enc(k, n, m) != ""
    {
      assert (Tagged(k) + m)[..|Tagged(k)|] == Tagged(k);
      assert (Tagged(k) + m)[|Tagged(k)|..] == m;
    }
    forall k, l, c | cr.dec(k, c).Some? && cr.dec(l, c).Some?
      ensures k == l
    {
      OneKeyOnly(k, l, c);
    }
    assert Lawful(cr);
  }

  // ---------- saving and loading ----------

  function CopyIn(cr: Crypto, v: State, store: map<string, string>, k: string): Option<string> {
    var entry := EntryKey(UserOf(v), k);
    if Stored(store, entry) then Open(cr, v.key, store[entry]) else None
  }

  /** What a load finds of an earlier value when the save between did not reach the store it reads first. A load whose
      transactions fail finds nothing: it cannot move what it read. */
  function OlderCopy(cr: Crypto, v: State, k: string, loadDb: Db): Option<string> {
    if loadDb.Fails? then None
    else if loadDb.Works? && Stored(v.idb, EntryKey(UserOf(v), k)) then CopyIn(cr, v, v.idb, k)
    else CopyIn(cr, v, v.ls, k)
  }

  /** A load right after a save returns the saved value when both find IndexedDB working, or both absent, or when the
      save fell back to local storage and a working IndexedDB holds no older copy; otherwise only if the older copy says
      the same. */
  lemma {:induction false} LoadAfterSaveIff(cr: Crypto, v: State, k: string, data: string, saveDb: Db, loadDb: Db,
                                            salt: string, n1: string, n2: string)
    requires Lawful(cr) && v.isUnlocked && v.key.Some?
    ensures var w := SaveSpec(cr, v, k, data, saveDb, salt, n1).0;
            LoadSpec(cr, w, k, loadDb, salt, n2).1 == Some(data) <==>
            || (saveDb == loadDb && !loadDb.Fails?)
            || (saveDb.Absent? && loadDb.Works? && !Stored(v.idb, EntryKey(UserOf(v), k)))
            || OlderCopy(cr, v, k, loadDb) == Some(data)
  {
    var cipher := cr.enc(v.key.value, n1, data);
    assert cr.dec(v.key.value, cipher) == Some(data) && cipher != "";
  }

  /** A value that a load returned is there for the next load exactly when IndexedDB is available: without it the value
      found in local storage is written back there and then removed. */
  lemma {:induction false} LoadTwiceIff(cr: Crypto, v: State, k: string, db: Db, salt: string, n1: string,
                                        n2: string, value: string)
    requires Lawful(cr) && v.isUnlocked && v.key.Some? && LoadSpec(cr, v, k, db, salt, n1).1 == Some(value)
    ensures LoadSpec(cr, LoadSpec(cr, v, k, db, salt, n1).0, k, db, salt, n2).1 == Some(value) <==> db.Works?
  {
  }
}
