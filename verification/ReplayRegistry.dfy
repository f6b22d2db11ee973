/** The in-memory replay registry: keys are claimed under a fresh token, then committed, rejected or
    released by whoever holds that token. Time is read inside the lock, so events are atomic. */
module ReplayRegistry {
  import opened Common

  const CAPACITY := 100_000
  const ENVELOPE_TTL := 300
  const API_TTL := 300
  const RELAY_TTL := 86400

  datatype Domain = Envelope | ApiAuth | Relay | Jwt

  /** A cache key: the domain and the SHA3-256 hex digest of the caller's bytes. */
  datatype Key = Key(domain: Domain, digest: string)

  type Token = Bytes

  datatype Status = Pending | Consumed | Rejected

  datatype Entry = Entry(status: Status, expiresAt: real, token: Token)

  type Cache = map<Key, Entry>

  datatype Op =
    | Claim(key: Key, token: Token, ttl: int)
    | Commit(key: Key, token: Token, ttl: int)
    | Reject(key: Key, token: Token, ttl: int)
    | Release(key: Key, token: Token)

  datatype Event = Event(at: real, op: Op)

  // ---------- one event ----------

  function Purge(c: Cache, now: real): Cache {
    map k | k in c && now < c[k].expiresAt :: c[k]
  }

  predicate HoldsPending(c: Cache, k: Key, token: Token) {
    k in c && c[k].status == Pending && c[k].token == token
  }

  predicate Grants(c: Cache, now: real, k: Key) {
    var live := Purge(c, now);
    k !in live && |live| < CAPACITY
  }

  function Apply(c: Cache, now: real, op: Op): Cache {
    match op
    case Claim(k, token, ttl) =>
      if Grants(c, now, k) then Purge(c, now)[k := Entry(Pending, now + ttl as real, token)]
      else Purge(c, now)
    case Commit(k, token, ttl) =>
      if HoldsPending(c, k, token) then c[k := Entry(Consumed, now + ttl as real, token)] else c
    case Reject(k, token, ttl) =>
      if HoldsPending(c, k, token) then c[k := Entry(Rejected, now + ttl as real, token)] else c
    case Release(k, token) =>
      if HoldsPending(c, k, token) then c - {k} else c
  }

  // ---------- the registry object ----------

  class Registry {
    var memoryCache: Cache
    var revokedJtis: map<string, real>
    const sha3: Bytes -> string

    constructor (sha3: Bytes -> string)
      ensures memoryCache == map[] && revokedJtis == map[] && this.sha3 == sha3
    {
      memoryCache, revokedJtis := map[], map[];
      this.sha3 := sha3;
    }

    method PurgeExpired(now: real)
      modifies this`memoryCache
      ensures memoryCache == Purge(old(memoryCache), now)
    {
      var expired := set k | k in memoryCache && now >= memoryCache[k].expiresAt;
      ghost var before := memoryCache;
      while expired != {}
        invariant expired <= memoryCache.Keys
        invariant forall k :: k in memoryCache <==> k in before && (now < before[k].expiresAt || k in expired)
        invariant forall k | k in memoryCache :: memoryCache[k] == before[k]
        invariant forall k | k in expired :: now >= before[k].expiresAt
        decreases expired
      {
        var k :| k in expired;
        memoryCache := memoryCache - {k};
        expired := expired - {k};
      }
    }

    /** `drawn` is the uuid4 drawn when the claim is granted. */
    method TryClaim(domain: Domain, key: Bytes, ttl: int, now: real, drawn: Token) returns (token: Option<Token>)
      modifies this`memoryCache
      ensures memoryCache == Apply(old(memoryCache), now, Claim(Key(domain, sha3(key)), drawn, ttl))
      ensures token == if Grants(old(memoryCache), now, Key(domain, sha3(key))) then Some(drawn) else None
      ensures var c, k := old(memoryCache), Key(domain, sha3(key));
              var live := set x | x in c && now < c[x].expiresAt;
              && (token.Some? <==> k !in live && |live| < 100_000)
              && (token.Some? ==> token.value == drawn && memoryCache.Keys == live + {k}
                                  && memoryCache[k] == Entry(Pending, now + ttl as real, drawn))
              && (token.None? ==> memoryCache.Keys == live)
              && forall x | x in live :: memoryCache[x] == c[x]
    {
      var cacheKey := Key(domain, sha3(key));
      PurgeExpired(now);
      assert memoryCache.Keys == set x | x in old(memoryCache) && now < old(memoryCache)[x].expiresAt;
      assert |memoryCache| == |memoryCache.Keys|;
      if cacheKey in memoryCache || |memoryCache| >= CAPACITY {
        return None;
      }
      memoryCache := memoryCache[cacheKey := Entry(Pending, now + ttl as real, drawn)];
      token := Some(drawn);
    }

    method DoCommit(domain: Domain, key: Bytes, token: Token, ttl: int, now: real)
      modifies this`memoryCache
      ensures memoryCache == Apply(old(memoryCache), now, Commit(Key(domain, sha3(key)), token, ttl))
      ensures var c, k := old(memoryCache), Key(domain, sha3(key));
              memoryCache == if k in c && c[k].status == Pending && c[k].token == token
                             then c[k := Entry(Consumed, now + ttl as real, token)] else c
    {
      var cacheKey := Key(domain, sha3(key));
      if cacheKey in memoryCache {
        var entry := memoryCache[cacheKey];
        if entry.status == Pending && entry.token == token {
          memoryCache := memoryCache[cacheKey := entry.(status := Consumed, expiresAt := now + ttl as real)];
        }
      }
    }

    method DoReject(domain: Domain, key: Bytes, token: Token, ttl: int, now: real)
      modifies this`memoryCache
      ensures memoryCache == Apply(old(memoryCache), now, Reject(Key(domain, sha3(key)), token, ttl))
      ensures var c, k := old(memoryCache), Key(domain, sha3(key));
              memoryCache == if k in c && c[k].status == Pending && c[k].token == token
                             then c[k := Entry(Rejected, now + ttl as real, token)] else c
    {
      var cacheKey := Key(domain, sha3(key));
      if cacheKey in memoryCache {
        var entry := memoryCache[cacheKey];
        if entry.status == Pending && entry.token == token {
          memoryCache := memoryCache[cacheKey := entry.(status := Rejected, expiresAt := now + ttl as real)];
        }
      }
    }

    method DoRelease(domain: Domain, key: Bytes, token: Token)
      modifies this`memoryCache
      ensures memoryCache == Apply(old(memoryCache), 0.0, Release(Key(domain, sha3(key)), token))
      ensures var c, k := old(memoryCache), Key(domain, sha3(key));
              memoryCache == if k in c && c[k].status == Pending && c[k].token == token then c - {k} else c
    {
      var cacheKey := Key(domain, sha3(key));
      if cacheKey in memoryCache {
        var entry := memoryCache[cacheKey];
        if entry.status == Pending && entry.token == token {
          memoryCache := memoryCache - {cacheKey};
        }
      }
    }

    /** Remembers a logged-out session identifier for the given number of seconds. */
    method RevokeJti(jti: string, ttl: int, now: real)
      modifies this`revokedJtis
      ensures revokedJtis == Revoke(old(revokedJtis), jti, ttl, now)
      ensures jti in revokedJtis && revokedJtis == old(revokedJtis)[jti := revokedJtis[jti]]
      ensures ttl >= 0 ==> revokedJtis[jti] == now + ttl as real
      ensures ttl < 0 ==> revokedJtis[jti] == now
    {
      revokedJtis := revokedJtis[jti := now + (if ttl > 0 then ttl else 0) as real];
    }

    method IsJtiRevoked(jti: string, now: real) returns (revoked: bool)
      modifies this`revokedJtis
      ensures revoked == IsRevoked(old(revokedJtis), jti, now)
      ensures revoked <==> jti in old(revokedJtis) && now <= old(revokedJtis)[jti]
      ensures revokedJtis == if jti in old(revokedJtis) && !revoked then old(revokedJtis) - {jti} else old(revokedJtis)
    {
      if jti !in revokedJtis {
        return false;
      }
      if now > revokedJtis[jti] {
        revokedJtis := revokedJtis - {jti};
        return false;
      }
      return true;
    }
  }

  function Revoke(r: map<string, real>, jti: string, ttl: int, now: real): map<string, real> {
    r[jti := now + (if ttl < 0 then 0 else ttl) as real]
  }

  predicate IsRevoked(r: map<string, real>, jti: string, now: real) {
    jti in r && now <= r[jti]
  }

  // ---------- histories ----------

  /** The cache after the first n events of a history. */
  ghost function Run(es: seq<Event>, n: nat): Cache
    requires n <= |es|
  {
    if n == 0 then map[] else Apply(Run(es, n - 1), es[n - 1].at, es[n - 1].op)
  }

  /** The clock never goes back and uuid4 never repeats a token. */
  ghost predicate Legal(es: seq<Event>) {
    && (forall i, j | 0 <= i < j < |es| :: es[i].at <= es[j].at)
    && (forall i, j | 0 <= i < j < |es| && es[i].op.Claim? && es[j].op.Claim? :: es[i].op.token != es[j].op.token)
  }

  ghost predicate GrantedAt(es: seq<Event>, i: nat) {
    i < |es| && es[i].op.Claim? && Grants(Run(es, i), es[i].at, es[i].op.key)
  }

  /** Event n gives `token`'s entry under `key` a new deadline: the claim itself, or a commit or reject that finds it
      pending. */
  ghost predicate Extends(es: seq<Event>, n: nat, key: Key, token: Token) {
    && n < |es|
    && es[n].op.key == key
    && es[n].op.token == token
    && !es[n].op.Release?
    && if es[n].op.Claim? then GrantedAt(es, n) else HoldsPending(Run(es, n), key, token)
  }

  ghost predicate LastExtension(es: seq<Event>, i: nat, n: nat, k: nat, key: Key, token: Token) {
    i <= k < n && Extends(es, k, key, token) && forall m | k < m < n :: !Extends(es, m, key, token)
  }

  /** Event n releases the entry that `token` holds pending under `key`. */
  ghost predicate Releases(es: seq<Event>, n: nat, key: Key, token: Token) {
    n < |es| && es[n].op == Release(key, token) && HoldsPending(Run(es, n), key, token)
  }

  ghost predicate ReleasedBetween(es: seq<Event>, i: nat, n: nat, key: Key, token: Token)
    requires n <= |es|
  {
    exists m :: i < m < n && Releases(es, m, key, token)
  }

  function Deadline(e: Event): real
    requires !e.op.Release?
  {
    e.at + e.op.ttl as real
  }

  /** Where `token` stands in cache c at time now, when its latest deadline for `key` is `deadline`. */
  ghost predicate Tracks(c: Cache, now: real, deadline: real, key: Key, token: Token) {
    || (key in c && c[key].token == token && c[key].expiresAt == deadline)
    || (now >= deadline && (key in c ==> c[key].token != token))
  }

  lemma {:induction false} TracksKept(c: Cache, now: real, at: real, op: Op, deadline: real, key: Key, token: Token)
    requires Tracks(c, now, deadline, key, token) && now <= at
    requires op.Claim? ==> op.token != token
    requires !op.Claim? && op.key == key && op.token == token ==> !HoldsPending(c, key, token)
    ensures Tracks(Apply(c, at, op), at, deadline, key, token)
  {
  }

  lemma {:induction false} TracksRenewed(c: Cache, at: real, op: Op)
    requires op.Claim? ==> Grants(c, at, op.key)
    requires !op.Claim? ==> HoldsPending(c, op.key, op.token)
    requires !op.Release?
    ensures Tracks(Apply(c, at, op), at, at + op.ttl as real, op.key, op.token)
  {
  }

  ghost predicate Tracked(es: seq<Event>, i: nat, n: nat, k: nat, key: Key, token: Token)
    requires i < n <= |es|
  {
    LastExtension(es, i, n, k, key, token) && Tracks(Run(es, n), es[n - 1].at, Deadline(es[k]), key, token)
  }

  lemma {:induction false} TrackedAtExtension(es: seq<Event>, i: nat, n: nat, key: Key, token: Token)
    requires i <= n < |es| && Extends(es, n, key, token)
    ensures Tracked(es, i, n + 1, n, key, token)
  {
    TracksRenewed(Run(es, n), es[n].at, es[n].op);
  }

  lemma {:induction false} TrackedOtherwise(es: seq<Event>, i: nat, n: nat, k: nat, key: Key, token: Token)
    requires Legal(es) && i < n < |es| && Tracked(es, i, n, k, key, token)
    requires es[n].op.Claim? ==> es[n].op.token != token
    requires !Extends(es, n, key, token) && !Releases(es, n, key, token)
    ensures Tracked(es, i, n + 1, k, key, token)
  {
    TracksKept(Run(es, n), es[n - 1].at, es[n].at, es[n].op, Deadline(es[k]), key, token);
    assert Run(es, n + 1) == Apply(Run(es, n), es[n].at, es[n].op);
  }

  lemma {:induction false} HoldStep(es: seq<Event>, i: nat, n: nat, k: nat, key: Key, token: Token) returns (l: nat)
    requires Legal(es) && i + 1 < n <= |es| && Tracked(es, i, n - 1, k, key, token)
    requires es[i].op.Claim? && es[i].op.token == token && !Releases(es, n - 1, key, token)
    ensures Tracked(es, i, n, l, key, token)
  {
    l := k;
    if Extends(es, n - 1, key, token) {
      l := n - 1;
      TrackedAtExtension(es, i, n - 1, key, token);
    } else {
      TrackedOtherwise(es, i, n - 1, k, key, token);
    }
  }

  lemma {:induction false} ReleasedLater(es: seq<Event>, i: nat, n: nat, key: Key, token: Token)
    requires i + 1 < n <= |es| && (ReleasedBetween(es, i, n - 1, key, token) || Releases(es, n - 1, key, token))
    ensures ReleasedBetween(es, i, n, key, token)
  {
  }

  lemma {:induction false} HoldTracked(es: seq<Event>, i: nat, n: nat, key: Key, token: Token)
      returns (released: bool, k: nat)
    requires Legal(es) && GrantedAt(es, i) && i < n <= |es| && es[i].op.key == key && es[i].op.token == token
    ensures if released then ReleasedBetween(es, i, n, key, token) else Tracked(es, i, n, k, key, token)
    decreases n
  {
    if n == i + 1 {
      released, k := false, i;
      TrackedAtExtension(es, i, i, key, token);
    } else {
      released, k := HoldTracked(es, i, n - 1, key, token);
      if released || Releases(es, n - 1, key, token) {
        released := true;
        ReleasedLater(es, i, n, key, token);
      } else {
        k := HoldStep(es, i, n, k, key, token);
      }
    }
  }

  /** Two granted claims of one key are separated by a release that removes the first claim's pending entry, or by
      the full time to live counted from the first claim's last claim, commit or reject. */
  lemma {:induction false} ClaimsSeparated(es: seq<Event>, i: nat, j: nat) returns (k: nat)
    requires Legal(es) && i < j && GrantedAt(es, i) && GrantedAt(es, j) && es[i].op.key == es[j].op.key
    ensures ReleasedBetween(es, i, j, es[i].op.key, es[i].op.token) ||
            (LastExtension(es, i, j, k, es[i].op.key, es[i].op.token) && es[j].at >= Deadline(es[k]))
  {
    var released;
    released, k := HoldTracked(es, i, j, es[i].op.key, es[i].op.token);
  }

  ghost predicate Lacks(c: Cache, key: Key, token: Token) {
    key in c ==> c[key].token != token
  }

  lemma {:induction false} AbsenceKept(c: Cache, at: real, op: Op, key: Key, token: Token)
    requires Lacks(c, key, token) && (op.Claim? ==> op.token != token)
    ensures Lacks(Apply(c, at, op), key, token)
  {
  }

  /** A token that no later claim draws never comes back. */
  lemma {:induction false} StaysGone(es: seq<Event>, m: nat, n: nat, key: Key, token: Token)
    requires m <= n <= |es| && Lacks(Run(es, m), key, token)
    requires forall k | m <= k < n && es[k].op.Claim? :: es[k].op.token != token
    ensures Lacks(Run(es, n), key, token)
    decreases n
  {
    if m < n {
      StaysGone(es, m, n - 1, key, token);
      AbsenceKept(Run(es, n - 1), es[n - 1].at, es[n - 1].op, key, token);
    }
  }

  lemma {:induction false} TokenReplaced(es: seq<Event>, i: nat, j: nat)
    requires Legal(es) && i < j < |es| && GrantedAt(es, i) && GrantedAt(es, j) && es[i].op.key == es[j].op.key
    ensures Lacks(Run(es, j + 1), es[i].op.key, es[i].op.token)
  {
  }

  /** After a second granted claim of a key the first token never holds the entry again. */
  lemma {:induction false} TokenGoneAfterReclaim(es: seq<Event>, i: nat, j: nat, n: nat)
    requires Legal(es) && i < j < n <= |es| && GrantedAt(es, i) && GrantedAt(es, j) && es[i].op.key == es[j].op.key
    ensures Lacks(Run(es, n), es[i].op.key, es[i].op.token)
  {
    TokenReplaced(es, i, j);
    assert forall k | j + 1 <= k < n && es[k].op.Claim? :: es[k].op.token != es[i].op.token;
    StaysGone(es, j + 1, n, es[i].op.key, es[i].op.token);
  }

  /** Once a key has been claimed again, no operation carrying the earlier token changes anything. */
  lemma {:induction false} StaleTokenInert(es: seq<Event>, i: nat, j: nat, n: nat)
    requires Legal(es) && i < j < n < |es| && GrantedAt(es, i) && GrantedAt(es, j)
    requires es[i].op.key == es[j].op.key == es[n].op.key && es[n].op.token == es[i].op.token
    ensures Run(es, n + 1) == Run(es, n)
  {
    TokenGoneAfterReclaim(es, i, j, n);
  }

  ghost function StatusAfter(op: Op): Status
    requires !op.Release?
  {
    match op
    case Claim(_, _, _) => Pending
    case Commit(_, _, _) => Consumed
    case Reject(_, _, _) => Rejected
  }

  /** Every entry owes its token, deadline and status to one event: a granted claim leaves it pending, a commit
      carrying its token consumed, a reject carrying its token rejected. */
  lemma {:induction false} EntryProvenance(es: seq<Event>, n: nat, key: Key) returns (k: nat)
    requires n <= |es| && key in Run(es, n)
    ensures k < n && Extends(es, k, key, Run(es, n)[key].token)
    ensures Run(es, n)[key].expiresAt == Deadline(es[k]) && Run(es, n)[key].status == StatusAfter(es[k].op)
    decreases n
  {
    if Extends(es, n - 1, key, Run(es, n)[key].token) {
      k := n - 1;
    } else {
      k := EntryProvenance(es, n - 1, key);
    }
  }

  /** A claim is refused only because the cache is full or because some earlier claim, commit or reject of that key has
      not run out. */
  lemma {:induction false} RefusedMeansHeld(es: seq<Event>, j: nat) returns (k: nat)
    requires j < |es| && es[j].op.Claim? && !GrantedAt(es, j)
    ensures var c, key := Run(es, j), es[j].op.key;
            || |(set x | x in c && es[j].at < c[x].expiresAt)| >= 100_000
            || (key in c && k < j && Extends(es, k, key, c[key].token) && es[j].at < Deadline(es[k]))
  {
    var c, key := Run(es, j), es[j].op.key;
    k := 0;
    var live := Purge(c, es[j].at);
    if key in live {
      k := EntryProvenance(es, j, key);
    } else {
      assert live.Keys == set x | x in c && es[j].at < c[x].expiresAt;
      assert |live| == |live.Keys|;
    }
  }

  /** A release by the holder frees the key at once: a claim that comes next is granted if there is room. */
  lemma {:induction false} ReleaseFrees(es: seq<Event>, n: nat, key: Key, token: Token)
    requires n < |es| && Releases(es, n, key, token)
    ensures Run(es, n + 1) == Run(es, n) - {key}
    ensures var c := Run(es, n + 1);
            n + 1 < |es| && es[n + 1].op.Claim? && es[n + 1].op.key == key ==>
              (GrantedAt(es, n + 1) <==> |(set x | x in c && es[n + 1].at < c[x].expiresAt)| < 100_000)
  {
    if n + 1 < |es| && es[n + 1].op.Claim? && es[n + 1].op.key == key {
      var c, at := Run(es, n + 1), es[n + 1].at;
      var live := Purge(c, at);
      assert live.Keys == set x | x in c && at < c[x].expiresAt;
      assert |live| == |live.Keys|;
    }
  }

  lemma {:induction false} SettledKept(c: Cache, at: real, op: Op, key: Key)
    requires key in c && c[key].status != Pending
    requires op.Claim? ==> at < c[key].expiresAt
    ensures key in Apply(c, at, op) && Apply(c, at, op)[key] == c[key]
  {
  }

  /** A consumed or rejected entry stays exactly as it is until a claim purges it after its deadline. */
  lemma {:induction false} SettledStays(es: seq<Event>, m: nat, n: nat, key: Key)
    requires m <= n <= |es|
    requires key in Run(es, m) && Run(es, m)[key].status != Pending
    requires forall k | m <= k < n && es[k].op.Claim? :: es[k].at < Run(es, m)[key].expiresAt
    ensures key in Run(es, n) && Run(es, n)[key] == Run(es, m)[key]
    decreases n
  {
    if m < n {
      SettledStays(es, m, n - 1, key);
      SettledKept(Run(es, n - 1), es[n - 1].at, es[n - 1].op, key);
    }
  }

  /** An operation on one key leaves every other key alone, in its own domain or any other, except that a
      claim drops entries whose deadline has passed. */
  lemma {:induction false} OtherKeysUntouched(es: seq<Event>, n: nat, key: Key)
    requires n < |es| && es[n].op.key != key
    ensures var before, after := Run(es, n), Run(es, n + 1);
            && (key in after <==> key in before && !(es[n].op.Claim? && es[n].at >= before[key].expiresAt))
            && (key in after ==> after[key] == before[key])
  {
  }

  lemma {:induction false} SizeBounded(es: seq<Event>, n: nat)
    requires n <= |es|
    ensures |Run(es, n)| <= 100_000
  {
    if n > 0 {
      SizeBounded(es, n - 1);
      ApplyKeepsSize(Run(es, n - 1), es[n - 1].at, es[n - 1].op);
    }
  }

  lemma {:induction false} ApplyKeepsSize(c: Cache, at: real, op: Op)
    requires |c| <= CAPACITY
    ensures |Apply(c, at, op)| <= CAPACITY
  {
    var p := Purge(c, at);
    SubsetSize(p.Keys, c.Keys);
    assert |p| == |p.Keys| && |c| == |c.Keys|;
    if op.Release? {
      SubsetSize((c - {op.key}).Keys, c.Keys);
      assert |c - {op.key}| == |(c - {op.key}).Keys|;
    } else if !op.Claim? && HoldsPending(c, op.key, op.token) {
      assert Apply(c, at, op).Keys == c.Keys;
    }
  }

  // ---------- holds, for the protocols built on the registry ----------

  /** The key is barred for `ttl` seconds from `since` on, the moment of the token's last claim or commit. */
  ghost predicate Barred(c: Cache, now: real, key: Key, token: Token, since: real, ttl: int) {
    || (key in c && c[key].token == token && c[key].expiresAt >= since + ttl as real)
    || now >= since + ttl as real
  }

  /** Whatever entry the token holds is still waiting for its settlement. */
  ghost predicate Unsettled(c: Cache, key: Key, token: Token) {
    key in c && c[key].token == token ==> c[key].status == Pending
  }

  lemma {:induction false} BarredAfterGrant(c: Cache, now: real, key: Key, token: Token, ttl: int)
    requires Grants(c, now, key)
    ensures Barred(Apply(c, now, Claim(key, token, ttl)), now, key, token, now, ttl)
    ensures Unsettled(Apply(c, now, Claim(key, token, ttl)), key, token)
  {
  }

  lemma {:induction false} BarredKept(c: Cache, now: real, at: real, op: Op, key: Key, token: Token, since: real,
                                      ttl: int)
    requires Barred(c, now, key, token, since, ttl) && since <= now <= at
    requires op != Release(key, token)
    requires (op.Commit? || op.Reject?) && op.key == key && op.token == token ==> op.ttl >= ttl
    ensures Barred(Apply(c, at, op), at, key, token, since, ttl)
  {
  }

  lemma {:induction false} UnsettledKept(c: Cache, at: real, op: Op, key: Key, token: Token)
    requires Unsettled(c, key, token) && (op.key != key || op.token != token)
    ensures Unsettled(Apply(c, at, op), key, token)
  {
  }

  /** A commit that comes before the claim has run out starts the time to live afresh. */
  lemma {:induction false} BarredByCommit(c: Cache, now: real, at: real, key: Key, token: Token, since: real, ttl: int)
    requires Barred(c, now, key, token, since, ttl) && Unsettled(c, key, token) && now <= at < since + ttl as real
    ensures Barred(Apply(c, at, Commit(key, token, ttl)), at, key, token, at, ttl)
  {
  }

  lemma {:induction false} GrantMeansBarLifted(c: Cache, now: real, at: real, key: Key, token: Token, since: real,
                                               ttl: int)
    requires Barred(c, now, key, token, since, ttl) && now <= at && Grants(c, at, key)
    ensures at >= since + ttl as real
  {
  }
}
