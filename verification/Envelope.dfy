/** The whole path of one envelope: encrypt, sign, whiten, embed; then extract, dewhiten, verify, claim, decrypt,
    settle. */
module Envelope {
  import opened Common
  import opened ByteCodec
  import opened EnvelopeCodec
  import opened ReplayRegistry
  import Disperser
  import Window = EnvelopeAcceptance

  /** The cryptographic library. Key encapsulation, signing and decapsulation refuse keys of the wrong size;
      `coins` and nonces are the random values drawn by encryption. */
  datatype Suite = Suite(
    encap: (Bytes, Bytes) -> Option<(Bytes, Bytes)>,
    decap: (Bytes, Bytes) -> Option<Bytes>,
    kdf: Bytes -> Bytes,
    aeadEnc: (Bytes, Bytes, Bytes, Bytes) -> Bytes,
    aeadDec: (Bytes, Bytes, Bytes, Bytes) -> Option<Bytes>,
    sign: (Bytes, Bytes) -> Option<Bytes>,
    verify: (Bytes, Bytes, Bytes) -> bool,
    utf8: string -> Bytes,
    cipher: Disperser.Cipher)

  /** Authenticated decryption inverts encryption, and a ciphertext carries a tag of sixteen bytes. */
  ghost predicate Lawful(s: Suite) {
    && (forall m, k, n, a ::
          s.aeadDec(s.aeadEnc(m, k, n, a), k, n, a) == Some(m) && |s.aeadEnc(m, k, n, a)| == |m| + 16)
    && Disperser.Lawful(s.cipher)
  }

  /** The secret key undoes what the public key encapsulates. */
  ghost predicate KemPair(s: Suite, pk: Bytes, sk: Bytes) {
    forall coins | s.encap(pk, coins).Some? ::
      var (ct, ss) := s.encap(pk, coins).value; |ct| == KEM_CIPHERTEXT_BYTES && s.decap(ct, sk) == Some(ss)
  }

  /** The public key verifies what the secret key signs. */
  ghost predicate SignaturePair(s: Suite, sk: Bytes, pk: Bytes) {
    forall m | s.sign(m, sk).Some? :: s.verify(m, s.sign(m, sk).value, pk)
  }

  function Untagged(c: Bytes): Option<Bytes> {
    if |c| < 16 then None else Some(c[..|c| - 16])
  }

  /** A library that meets every law without keeping any secret. */
  ghost function OpenSuite(): Suite {
    Suite((pk, coins) => Some((Zeros(KEM_CIPHERTEXT_BYTES), coins[..0])), (ct, sk) => Some([]), secret => secret,
          (m, k, n, a) => m + Zeros(16), (c, k, n, a) => Untagged(c), (m, sk) => Some([]), (m, sig, pk) => true,
          text => [], Disperser.Cipher(key => Zeros(48), (key, nonce, length) => Zeros(length)))
  }

  /** What is asked of the library can be had, with every pair of keys belonging together. */
  lemma {:induction false} LawsHaveAModel()
    ensures var s := OpenSuite();
            Lawful(s) && (forall pk, sk :: KemPair(s, pk, sk)) && (forall sk, pk :: SignaturePair(s, sk, pk))
  {
    var s := OpenSuite();
    forall m, k, n, a
      ensures s.aeadDec(s.aeadEnc(m, k, n, a), k, n, a) == Some(m) && |s.aeadEnc(m, k, n, a)| == |m| + 16
    {
      assert (m + Zeros(16))[..|m|] == m;
    }
    forall pk, sk
      ensures KemPair(s, pk, sk)
    {
    }
  }

  const KEM_NAME := "ML-KEM-1024"
  const AEAD_NAME := "AES-256-GCM"
  const SIGNATURE_NAME := "SLH-DSA-SHA2-128f"

  /** Past window 300 s, future skew 60 s. */
  const WINDOW := Window.Config(ENVELOPE_TTL, 300, 60, 0.0, Domain.Envelope, false)

  // ---------- the carrier ----------

  /** The SVG carrier is represented by its payload attribute. */
  function Embed(payload: Bytes): string {
    ToHex(payload)
  }

  /** An absent or empty attribute is an error, and so is one that is not hexadecimal. */
  function Extract(carrier: Option<string>): Option<Bytes> {
    if carrier.None? || carrier.value == "" then None else FromHex(carrier.value)
  }

  lemma {:induction false} CarrierRoundTripIff(payload: Bytes)
    ensures Extract(Some(Embed(payload))) == Some(payload) <==> payload != []
  {
    HexReadsBack(payload);
  }

  // ---------- encryption ----------

  datatype Package = Package(
    ciphertextKem: string, carrier: Option<string>, signature: Option<string>, timestamp: int, aesNonce: string,
    senderId: string, receiverId: string, kemAlg: Option<string>, aeadAlg: Option<string>, sigAlg: Option<string>)

  /** What the sender puts in: hexadecimal inputs, names, and the random values drawn. */
  datatype Letter = Letter(plaintextHex: string, receiverPkHex: string, senderSkHex: string, sessionKeyHex: string,
                           sender: string, receiver: string, coins: Bytes, nonce: Bytes)

  datatype EncryptError = BadInput | BadPayload(error: Error)

  function SignedFields(s: Suite, kem: string, sender: string, receiver: string, ts: int, kemCt: Bytes, nonce: Bytes,
                        message: Bytes): Fields {
    Fields(s.utf8(kem), s.utf8(AEAD_NAME), s.utf8(SIGNATURE_NAME), s.utf8(sender), s.utf8(receiver), ts, kemCt, nonce,
        message)
  }

  function WhitenOnce(s: Suite, key: Bytes, data: Bytes): Bytes
    requires Lawful(s)
  {
    Disperser.Whiten(s.cipher, Disperser.Start(s.cipher, key), data).value.1
  }

  function Encrypt(s: Suite, l: Letter, now: real): Result<Package, EncryptError>
    requires Lawful(s)
  {
    var plaintext, senderSk, sessionKey := FromHex(l.plaintextHex), FromHex(l.senderSkHex), FromHex(l.sessionKeyHex);
    if plaintext.None? || senderSk.None? || sessionKey.None? then Err(BadInput) else
      var aad := BuildAad(s.utf8(l.sender), s.utf8(l.receiver), now.Floor);
      if aad.None? || l.receiverPkHex == "" || l.receiverPkHex == "none" then Err(BadInput) else
        var receiverPk := FromHex(l.receiverPkHex);
        if receiverPk.None? then Err(BadInput) else
          var sealed := s.encap(receiverPk.value, l.coins);
          if sealed.None? then Err(BadInput) else
            var (kemCt, secret) := sealed.value;
            var message := s.aeadEnc(plaintext.value, s.kdf(secret), l.nonce, aad.value);
            var payload := Serialise(SignedFields(s, KEM_NAME, l.sender, l.receiver, now.Floor, kemCt, l.nonce,
                message));
            if payload.Err? then Err(BadPayload(payload.error)) else
              var signature := s.sign(payload.value, senderSk.value);
              if signature.None? then Err(BadInput)
              else Ok(Wrap(s, l, now.Floor, kemCt, message, sessionKey.value, signature.value))
  }

  function Wrap(s: Suite, l: Letter, ts: int, kemCt: Bytes, message: Bytes, sessionKey: Bytes,
                signature: Bytes): Package
    requires Lawful(s)
  {
    Package(ToHex(kemCt), Some(Embed(WhitenOnce(s, sessionKey, message))), Some(ToHex(signature)), ts, ToHex(l.nonce),
            l.sender, l.receiver, Some(KEM_NAME), Some(AEAD_NAME), Some(SIGNATURE_NAME))
  }

  /** The inputs are well-formed and the library accepts the keys. */
  ghost predicate WellFormed(s: Suite, l: Letter) {
    && FromHex(l.plaintextHex).Some? && FromHex(l.senderSkHex).Some? && FromHex(l.sessionKeyHex).Some?
    && l.receiverPkHex != "" && l.receiverPkHex != "none" && FromHex(l.receiverPkHex).Some?
    && |l.nonce| == NONCE_BYTES
    && s.encap(FromHex(l.receiverPkHex).value, l.coins).Some?
    && |s.encap(FromHex(l.receiverPkHex).value, l.coins).value.0| == KEM_CIPHERTEXT_BYTES
    && (forall m :: s.sign(m, FromHex(l.senderSkHex).value).Some?)
    && |s.utf8(KEM_NAME)| + |s.utf8(AEAD_NAME)| + |s.utf8(SIGNATURE_NAME)| <= 1_000_000
  }

  /** Well-formed input is encrypted exactly when both names take at most 256 bytes, the clock fits in 64 bits, and the
      plaintext leaves room for its tag in ten mebibytes. */
  lemma {:induction false} EncryptSucceedsIff(s: Suite, l: Letter, now: real)
    requires Lawful(s) && WellFormed(s, l)
    ensures Encrypt(s, l, now).Ok? <==>
            && |s.utf8(l.sender)| <= 256 && |s.utf8(l.receiver)| <= 256 && 0 <= now.Floor < 0x1_0000_0000_0000_0000
            && |FromHex(l.plaintextHex).value| + 16 <= 10 * 1024 * 1024
  {
    var aad := BuildAad(s.utf8(l.sender), s.utf8(l.receiver), now.Floor);
    if aad.Some? {
      var (kemCt, secret) := s.encap(FromHex(l.receiverPkHex).value, l.coins).value;
      var message := s.aeadEnc(FromHex(l.plaintextHex).value, s.kdf(secret), l.nonce, aad.value);
      TotalLimitNeverFires(SignedFields(s, KEM_NAME, l.sender, l.receiver, now.Floor, kemCt, l.nonce, message));
    }
  }

  // ---------- decryption ----------

  datatype DecryptError = Malformed | Unsupported | Security | BadEnvelope | InvalidCiphertext

  /** What an envelope yields once its signature has been verified. */
  datatype Admitted = Admitted(signature: Bytes, message: Bytes, kemCt: Bytes, nonce: Bytes, aad: Bytes)

  function OrElse(o: Option<string>, default: string): string {
    if o.Some? then o.value else default
  }

  /** Everything before the claim: policy, identity, freshness, extraction, sizes, signature, in this order. */
  function Admit(s: Suite, pkg: Package, senderPkHex: string, sessionKeyHex: string, expectedSender: string, now: real)
      : Result<Admitted, DecryptError>
    requires Lawful(s)
  {
    var senderPk, sessionKey := FromHex(senderPkHex), FromHex(sessionKeyHex);
    var expectedKem := if pkg.ciphertextKem != "" then KEM_NAME else "None";
    var kem := OrElse(pkg.kemAlg, expectedKem);
    if senderPk.None? || sessionKey.None? then Err(Malformed)
    else if kem != expectedKem || OrElse(pkg.aeadAlg, AEAD_NAME) != AEAD_NAME ||
        OrElse(pkg.sigAlg, SIGNATURE_NAME) != SIGNATURE_NAME then
      Err(Unsupported)
    else if expectedSender == "" then Err(Security)
    else if !IsAscii(pkg.senderId) || !IsAscii(expectedSender) then Err(Malformed)
    else if pkg.senderId != expectedSender then Err(Security)
    else if !Window.Fresh(WINDOW, pkg.timestamp, now) then Err(Security)
    else
      var aad := BuildAad(s.utf8(pkg.senderId), s.utf8(pkg.receiverId), pkg.timestamp);
      var whitened := Extract(pkg.carrier);
      if aad.None? then Err(Security)
      else if whitened.None? then Err(Malformed)
      else if pkg.aesNonce == "" then Err(Security)
      else
        var message := WhitenOnce(s, sessionKey.value, whitened.value);
        AdmitMessage(s, pkg, kem, senderPk.value, message, aad.value)
  }

  function AdmitMessage(s: Suite, pkg: Package, kem: string, senderPk: Bytes, message: Bytes,
                        aad: Bytes): Result<Admitted, DecryptError> {
    var nonce, signature := FromHex(pkg.aesNonce), if pkg.signature.Some? then FromHex(pkg.signature.value) else None;
    if nonce.None? || signature.None? then Err(Malformed)
    else if |nonce.value| != NONCE_BYTES then Err(Security)
    else
      var kemCt := FromHex(pkg.ciphertextKem);
      if kemCt.None? then Err(Malformed)
      else if kem != KEM_NAME then Err(Unsupported)
      else if |kemCt.value| != KEM_CIPHERTEXT_BYTES then Err(Security)
      else
        var payload := Serialise(SignedFields(s, kem, pkg.senderId, pkg.receiverId, pkg.timestamp, kemCt.value,
            nonce.value, message));
        if payload.Err? then Err(if payload.error == Overflow then Security else BadEnvelope)
        else if !s.verify(payload.value, signature.value, senderPk) then Err(BadEnvelope)
        else Ok(Admitted(signature.value, message, kemCt.value, nonce.value, aad))
  }

  /** Everything between claim and settlement. */
  function OpenMessage(s: Suite, a: Admitted, receiverSkHex: string): Result<Bytes, DecryptError> {
    var receiverSk := FromHex(receiverSkHex);
    if receiverSk.None? then Err(Security) else
      var secret := s.decap(a.kemCt, receiverSk.value);
      if secret.None? then Err(InvalidCiphertext) else
        var plaintext := s.aeadDec(a.message, s.kdf(secret.value), a.nonce, a.aad);
        if plaintext.None? then Err(InvalidCiphertext) else Ok(plaintext.value)
  }

  /** One receiving attempt: the moments of its freshness check, its claim and its settlement, and the token it
      draws. */
  datatype Attempt = Attempt(pkg: Package, receiverSkHex: string, senderPkHex: string, sessionKeyHex: string,
                             expectedSender: string,
                             checkedAt: real, claimedAt: real, settledAt: real, token: Token)

  function AdmitAttempt(s: Suite, t: Attempt): Result<Admitted, DecryptError>
    requires Lawful(s)
  {
    Admit(s, t.pkg, t.senderPkHex, t.sessionKeyHex, t.expectedSender, t.checkedAt)
  }

  /** From the claim on: the signature's key is claimed, the message opened and the claim settled. */
  function ClaimAndOpen(c: Cache, key: Key, t: Attempt, outcome: Result<Bytes, DecryptError>)
      : (Result<Bytes, DecryptError>, Cache) {
    var claimed := Apply(c, t.claimedAt, Claim(key, t.token, ENVELOPE_TTL));
    if !Grants(c, t.claimedAt, key) then (Err(Security), claimed) else
      var op := if outcome.Ok? then Commit(key, t.token, ENVELOPE_TTL) else Reject(key, t.token, ENVELOPE_TTL);
      (outcome, Apply(claimed, t.settledAt, op))
  }

  function DecryptSpec(s: Suite, sha3: Bytes -> string, c: Cache, t: Attempt): (Result<Bytes, DecryptError>, Cache)
    requires Lawful(s)
  {
    var admitted := AdmitAttempt(s, t);
    if admitted.Err? then (Err(admitted.error), c)
    else ClaimAndOpen(c, Key(Domain.Envelope, sha3(admitted.value.signature)), t,
        OpenMessage(s, admitted.value, t.receiverSkHex))
  }

  method DecryptEnvelope(s: Suite, registry: Registry, t: Attempt) returns (r: Result<Bytes, DecryptError>)
    requires Lawful(s)
    modifies registry`memoryCache
    ensures (r, registry.memoryCache) == DecryptSpec(s, registry.sha3, old(registry.memoryCache), t)
  {
    var admitted := AdmitAttempt(s, t);
    if admitted.Err? {
      return Err(admitted.error);
    }
    var signature := admitted.value.signature;
    var claim := registry.TryClaim(Domain.Envelope, signature, ENVELOPE_TTL, t.claimedAt, t.token);
    if claim.None? {
      return Err(Security);
    }
    r := OpenMessage(s, admitted.value, t.receiverSkHex);
    if r.Err? {
      registry.DoReject(Domain.Envelope, signature, claim.value, ENVELOPE_TTL, t.settledAt);
    } else {
      registry.DoCommit(Domain.Envelope, signature, claim.value, ENVELOPE_TTL, t.settledAt);
    }
  }

  // ---------- the theorems ----------

  lemma {:induction false} SettledClaim(c: Cache, key: Key, t: Attempt, outcome: Result<Bytes, DecryptError>)
    requires forall k | k in c :: c[k].token != t.token
    ensures var (r, c') := ClaimAndOpen(c, key, t, outcome);
            && (forall k | k in c' && c'[k].token == t.token ::
                c'[k] == Entry(if r.Ok? then Consumed else Rejected, t.settledAt + 300.0, t.token))
            && (Grants(c, t.claimedAt, key) <==> key in c' && c'[key].token == t.token)
            && (r.Ok? ==> Grants(c, t.claimedAt, key))
  {
  }

  /** No attempt leaves its claim pending: a granted one stays, consumed after a success and rejected after a failure,
      and a refusal leaves no trace of it. */
  lemma {:induction false} ClaimAlwaysSettled(s: Suite, sha3: Bytes -> string, c: Cache, t: Attempt)
    requires Lawful(s) && forall k | k in c :: c[k].token != t.token
    ensures var (r, c') := DecryptSpec(s, sha3, c, t);
            && (forall k | k in c' && c'[k].token == t.token ::
                c'[k] == Entry(if r.Ok? then Consumed else Rejected, t.settledAt + 300.0, t.token))
            && (r.Ok? ==> exists k :: k in c' && c'[k].token == t.token)
            && (AdmitAttempt(s, t).Ok? ==>
                  var key := Key(Domain.Envelope, sha3(AdmitAttempt(s, t).value.signature));
                  key in c' && c'[key].token == t.token <==> Grants(c, t.claimedAt, key))
  {
    var admitted := AdmitAttempt(s, t);
    if admitted.Ok? {
      SettledClaim(c, Key(Domain.Envelope, sha3(admitted.value.signature)), t,
          OpenMessage(s, admitted.value, t.receiverSkHex));
    }
  }

  lemma {:induction false} SecondClaimRefused(c: Cache, key: Key, t: Attempt, plaintext: Result<Bytes, DecryptError>,
                                              u: Attempt, outcome: Result<Bytes, DecryptError>)
    requires ClaimAndOpen(c, key, t, plaintext).0.Ok? && u.claimedAt < t.settledAt + 300.0
    ensures ClaimAndOpen(ClaimAndOpen(c, key, t, plaintext).1, key, u, outcome).0 == Err(Security)
  {
  }

  /** After a success, every attempt whose signature has the same digest is refused while the entry lasts. */
  lemma {:induction false} ReplayRefused(s: Suite, sha3: Bytes -> string, c: Cache, t: Attempt, u: Attempt)
    requires Lawful(s) && DecryptSpec(s, sha3, c, t).0.Ok? && AdmitAttempt(s, u).Ok?
    requires sha3(AdmitAttempt(s, u).value.signature) == sha3(AdmitAttempt(s, t).value.signature)
    requires u.claimedAt < t.settledAt + 300.0
    ensures DecryptSpec(s, sha3, DecryptSpec(s, sha3, c, t).1, u).0 == Err(Security)
  {
    var a, b := AdmitAttempt(s, t).value, AdmitAttempt(s, u).value;
    SecondClaimRefused(c, Key(Domain.Envelope, sha3(a.signature)), t, OpenMessage(s, a, t.receiverSkHex), u,
        OpenMessage(s, b, u.receiverSkHex));
  }

  /** Whatever is admitted was signed: its timestamp is fresh, its sender is the expected one, and the verified
      payload is that of exactly these fields. */
  lemma {:induction false} AdmittedWasSigned(s: Suite, t: Attempt) returns (f: Fields, senderPk: Bytes)
    requires Lawful(s) && AdmitAttempt(s, t).Ok?
    ensures var a := AdmitAttempt(s, t).value;
            && f == Fields(s.utf8("ML-KEM-1024"), s.utf8("AES-256-GCM"), s.utf8("SLH-DSA-SHA2-128f"),
                    s.utf8(t.expectedSender), s.utf8(t.pkg.receiverId), t.pkg.timestamp, a.kemCt, a.nonce, a.message)
            && FromHex(t.senderPkHex) == Some(senderPk)
            && Serialise(f).Ok? && s.verify(Serialise(f).value, a.signature, senderPk)
            && t.checkedAt.Floor - 300 <= f.timestamp <= t.checkedAt.Floor + 60
            && Parse(Serialise(f).value) == Some(f)
  {
    var a := AdmitAttempt(s, t).value;
    f := SignedFields(s, KEM_NAME, t.expectedSender, t.pkg.receiverId, t.pkg.timestamp, a.kemCt, a.nonce, a.message);
    senderPk := FromHex(t.senderPkHex).value;
    SignedPayloadInjective(f, f);
  }

  /** An envelope without a key-encapsulation ciphertext never gets as far as a claim. */
  lemma {:induction false} NoKemNeverClaims(s: Suite, sha3: Bytes -> string, c: Cache, t: Attempt)
    requires Lawful(s) && t.pkg.ciphertextKem == ""
    ensures DecryptSpec(s, sha3, c, t).0.Err? && DecryptSpec(s, sha3, c, t).1 == c
  {
  }

  /** The keys on the two sides belong together. */
  ghost predicate MatchingKeys(s: Suite, l: Letter, t: Attempt) {
    && FromHex(l.receiverPkHex).Some? && FromHex(t.receiverSkHex).Some?
    && KemPair(s, FromHex(l.receiverPkHex).value, FromHex(t.receiverSkHex).value)
    && FromHex(l.senderSkHex).Some? && FromHex(t.senderPkHex).Some?
    && SignaturePair(s, FromHex(l.senderSkHex).value, FromHex(t.senderPkHex).value)
    && t.sessionKeyHex == l.sessionKeyHex
  }

  lemma {:induction false} WhitenedBack(s: Suite, key: Bytes, data: Bytes)
    requires Lawful(s)
    ensures |WhitenOnce(s, key, data)| == |data| && WhitenOnce(s, key, WhitenOnce(s, key, data)) == data
  {
    Disperser.WhitenTwice(s.cipher, Disperser.Start(s.cipher, key), data);
  }

  /** How a package that encryption produced is made up. */
  ghost predicate Sealed(s: Suite, l: Letter, ts: int, a: Admitted, secret: Bytes, pkg: Package)
    requires Lawful(s)
  {
    && FromHex(l.plaintextHex).Some? && FromHex(l.receiverPkHex).Some? && FromHex(l.senderSkHex).Some? &&
        FromHex(l.sessionKeyHex).Some?
    && s.encap(FromHex(l.receiverPkHex).value, l.coins) == Some((a.kemCt, secret))
    && BuildAad(s.utf8(l.sender), s.utf8(l.receiver), ts) == Some(a.aad)
    && a.nonce == l.nonce
    && a.message == s.aeadEnc(FromHex(l.plaintextHex).value, s.kdf(secret), l.nonce, a.aad)
    && pkg == Wrap(s, l, ts, a.kemCt, a.message, FromHex(l.sessionKeyHex).value, a.signature)
    && var payload := Serialise(SignedFields(s, KEM_NAME, l.sender, l.receiver, ts, a.kemCt, l.nonce, a.message));
       payload.Ok? && s.sign(payload.value, FromHex(l.senderSkHex).value) == Some(a.signature)
  }

  lemma {:induction false} EncryptSeals(s: Suite, l: Letter, now: real) returns (a: Admitted, secret: Bytes)
    requires Lawful(s) && Encrypt(s, l, now).Ok?
    ensures Sealed(s, l, now.Floor, a, secret, Encrypt(s, l, now).value)
  {
    var (kemCt, ss) := s.encap(FromHex(l.receiverPkHex).value, l.coins).value;
    var aad := BuildAad(s.utf8(l.sender), s.utf8(l.receiver), now.Floor).value;
    var message := s.aeadEnc(FromHex(l.plaintextHex).value, s.kdf(ss), l.nonce, aad);
    var payload := Serialise(SignedFields(s, KEM_NAME, l.sender, l.receiver, now.Floor, kemCt, l.nonce, message)).value;
    a := Admitted(s.sign(payload, FromHex(l.senderSkHex).value).value, message, kemCt, l.nonce, aad);
    secret := ss;
  }

  /** What the receiver needs besides matching keys to let an envelope in. */
  ghost predicate Welcome(t: Attempt) {
    t.expectedSender != "" && IsAscii(t.expectedSender) && Window.Fresh(WINDOW, t.pkg.timestamp, t.checkedAt)
  }

  lemma {:induction false} SealedMessageAdmitted(s: Suite, pkg: Package, a: Admitted, senderPk: Bytes)
    requires pkg.ciphertextKem == ToHex(a.kemCt) && pkg.aesNonce == ToHex(a.nonce) &&
             pkg.signature == Some(ToHex(a.signature))
    requires |a.nonce| == NONCE_BYTES && |a.kemCt| == KEM_CIPHERTEXT_BYTES
    requires var payload := Serialise(SignedFields(s, KEM_NAME, pkg.senderId, pkg.receiverId, pkg.timestamp, a.kemCt,
             a.nonce, a.message));
             payload.Ok? && s.verify(payload.value, a.signature, senderPk)
    ensures AdmitMessage(s, pkg, KEM_NAME, senderPk, a.message, a.aad) == Ok(a)
  {
    HexReadsBack(a.kemCt);
    HexReadsBack(a.nonce);
    HexReadsBack(a.signature);
  }

  lemma {:induction false} SealedIsAdmitted(s: Suite, l: Letter, ts: int, a: Admitted, secret: Bytes, t: Attempt)
    requires Lawful(s) && Sealed(s, l, ts, a, secret, t.pkg) && MatchingKeys(s, l, t) && Welcome(t) &&
             t.expectedSender == l.sender
    ensures AdmitAttempt(s, t) == Ok(a)
  {
    var sessionKey := FromHex(l.sessionKeyHex).value;
    SealedMessageAdmitted(s, t.pkg, a, FromHex(t.senderPkHex).value);
    WhitenedBack(s, sessionKey, a.message);
    CarrierRoundTripIff(WhitenOnce(s, sessionKey, a.message));
    HexReadsBack(WhitenOnce(s, sessionKey, a.message));
    HexReadsBack(a.kemCt);
    HexReadsBack(a.nonce);
    OuterAdmission(s, t, WhitenOnce(s, sessionKey, a.message), a.aad);
  }

  /** When the policy, the identity, the clock and the carrier are in order, the rest decides. */
  lemma {:induction false} OuterAdmission(s: Suite, t: Attempt, whitened: Bytes, aad: Bytes)
    requires Lawful(s) && Welcome(t) && t.pkg.senderId == t.expectedSender
    requires FromHex(t.senderPkHex).Some? && FromHex(t.sessionKeyHex).Some?
    requires t.pkg.ciphertextKem != "" && t.pkg.aesNonce != "" && Extract(t.pkg.carrier) == Some(whitened)
    requires t.pkg.kemAlg == Some(KEM_NAME) && t.pkg.aeadAlg == Some(AEAD_NAME) && t.pkg.sigAlg == Some(SIGNATURE_NAME)
    requires BuildAad(s.utf8(t.pkg.senderId), s.utf8(t.pkg.receiverId), t.pkg.timestamp) == Some(aad)
    ensures AdmitAttempt(s, t) ==
            AdmitMessage(s, t.pkg, KEM_NAME, FromHex(t.senderPkHex).value,
                WhitenOnce(s, FromHex(t.sessionKeyHex).value, whitened), aad)
  {
  }

  lemma {:induction false} SealedOpens(s: Suite, l: Letter, ts: int, a: Admitted, secret: Bytes, t: Attempt)
    requires Lawful(s) && Sealed(s, l, ts, a, secret, t.pkg) && MatchingKeys(s, l, t)
    ensures OpenMessage(s, a, t.receiverSkHex) == Ok(FromHex(l.plaintextHex).value)
  {
  }

  lemma {:induction false} AdmissionNeeds(s: Suite, t: Attempt)
    requires Lawful(s) && AdmitAttempt(s, t).Ok?
    ensures Welcome(t)
  {
  }

  lemma {:induction false} DecryptNeedsAdmission(s: Suite, sha3: Bytes -> string, c: Cache, t: Attempt, a: Admitted,
                                                 plaintext: Bytes)
    requires Lawful(s) && OpenMessage(s, a, t.receiverSkHex) == Ok(plaintext)
    requires Welcome(t) ==> AdmitAttempt(s, t) == Ok(a)
    requires AdmitAttempt(s, t).Ok? ==> Welcome(t)
    ensures DecryptSpec(s, sha3, c, t).0 == Ok(plaintext) <==>
            Welcome(t) && Grants(c, t.claimedAt, Key(Domain.Envelope, sha3(a.signature)))
  {
  }

  /** Under which key the registry knows a package. */
  function SignatureKey(sha3: Bytes -> string, pkg: Package): Key {
    var signature := FromHex(OrElse(pkg.signature, ""));
    Key(Domain.Envelope, sha3(if signature.Some? then signature.value else []))
  }

  lemma {:induction false} SealedRoundTrip(s: Suite, sha3: Bytes -> string, c: Cache, t: Attempt, l: Letter, ts: int,
                                           a: Admitted, secret: Bytes)
    requires Lawful(s) && MatchingKeys(s, l, t) && t.expectedSender == l.sender && Sealed(s, l, ts, a, secret, t.pkg)
    ensures DecryptSpec(s, sha3, c, t).0 == Ok(FromHex(l.plaintextHex).value) <==>
            Welcome(t) && Grants(c, t.claimedAt, Key(Domain.Envelope, sha3(a.signature)))
  {
    SealedOpens(s, l, ts, a, secret, t);
    if Welcome(t) {
      SealedIsAdmitted(s, l, ts, a, secret, t);
    }
    if AdmitAttempt(s, t).Ok? {
      AdmissionNeeds(s, t);
    }
    DecryptNeedsAdmission(s, sha3, c, t, a, FromHex(l.plaintextHex).value);
  }

  /** An envelope that was encrypted for the receiver decrypts to the original plaintext exactly when the sender's name
      is non-empty ASCII, the clock is inside the window, and the registry grants the claim of its signature. */
  lemma {:induction false} RoundTripIff(s: Suite, sha3: Bytes -> string, c: Cache, t: Attempt, l: Letter, now: real)
    requires Lawful(s) && MatchingKeys(s, l, t) && t.expectedSender == l.sender
    requires Encrypt(s, l, now) == Ok(t.pkg)
    ensures DecryptSpec(s, sha3, c, t).0 == Ok(FromHex(l.plaintextHex).value) <==>
            && l.sender != "" && IsAscii(l.sender) && t.checkedAt.Floor - 300 <= now.Floor <= t.checkedAt.Floor + 60
            && Grants(c, t.claimedAt, SignatureKey(sha3, t.pkg))
  {
    var a, secret := EncryptSeals(s, l, now);
    SealedRoundTrip(s, sha3, c, t, l, now.Floor, a, secret);
    HexReadsBack(a.signature);
  }

  /** A letter of one byte, and a suite and keys that belong to it. */
  lemma {:induction false} SomeLetter() returns (s: Suite, l: Letter)
    ensures Lawful(s) && WellFormed(s, l) && FromHex(l.plaintextHex) == Some([7])
    ensures (forall pk, sk :: KemPair(s, pk, sk)) && (forall sk, pk :: SignaturePair(s, sk, pk))
    ensures |l.sender| == 5 && IsAscii(l.sender) && s.utf8(l.sender) == s.utf8(l.receiver) == []
    ensures l.receiverPkHex == l.senderSkHex == l.sessionKeyHex
  {
    LawsHaveAModel();
    s := OpenSuite();
    l := Letter(ToHex([7]), ToHex([1]), ToHex([1]), ToHex([1]), "alice", "bob", [], Zeros(NONCE_BYTES));
    HexReadsBack([7]);
    HexReadsBack([1]);
    assert |l.receiverPkHex| == 2;
  }

  /** The round trip does happen: that letter, encrypted at time zero, is opened at once. */
  lemma {:induction false} RoundTripOccurs() returns (s: Suite, l: Letter, t: Attempt)
    ensures Lawful(s) && MatchingKeys(s, l, t) && t.expectedSender == l.sender
    ensures Encrypt(s, l, 0.0) == Ok(t.pkg) && FromHex(l.plaintextHex) == Some([7])
    ensures DecryptSpec(s, _ => "", map[], t).0 == Ok([7])
  {
    s, l := SomeLetter();
    EncryptSucceedsIff(s, l, 0.0);
    var keyHex := l.sessionKeyHex;
    t := Attempt(Encrypt(s, l, 0.0).value, keyHex, keyHex, keyHex, l.sender, 0.0, 0.0, 0.0, []);
    RoundTripIff(s, _ => "", map[], t, l, 0.0);
    assert Purge(map[], 0.0) == map[];
  }

  // ---------- one decryption as an attempt of the acceptance machine ----------

  /** The machine that EnvelopeAcceptance runs for envelopes, when no attempt stalls for longer than `delay`; `durable`
      tells whether the registry outlasts the process. */
  function Machine(delay: real, durable: bool): Window.Config {
    WINDOW.(delay := delay, durable := durable)
  }

  function CheckStep(id: nat, signature: Bytes, t: Attempt): Window.Step {
    Window.Step(t.checkedAt, Window.Check(id, signature, t.pkg.timestamp))
  }

  function ClaimStep(id: nat, t: Attempt): Window.Step {
    Window.Step(t.claimedAt, Window.ClaimSignature(id, t.token))
  }

  function SettleStep(id: nat, t: Attempt, outcome: Result<Bytes, DecryptError>): Window.Step {
    Window.Step(t.settledAt, Window.Settle(id, if outcome.Ok? then Window.Opened else Window.BadCiphertext))
  }

  /** The attempt can be made from world w: the clock runs on, and identifier and token are new. */
  ghost predicate Startable(cfg: Window.Config, w: Window.World, id: nat, t: Attempt) {
    && id !in w.attempts && t.token !in w.drawn
    && w.now <= t.checkedAt <= t.claimedAt <= t.settledAt && t.claimedAt <= t.checkedAt + cfg.delay
  }

  lemma {:induction false} ClaimAndOpenIsMachine(cfg: Window.Config, env: Window.Setting, w: Window.World, id: nat,
                                                 signature: Bytes, t: Attempt,
                                                 outcome: Result<Bytes, DecryptError>)
    requires cfg.ttl == ENVELOPE_TTL && Startable(cfg, w, id, t)
    requires Window.Fresh(cfg, t.pkg.timestamp, t.checkedAt) && env.signedStamp(signature) == t.pkg.timestamp
    ensures var w1 := Window.Next(cfg, env, w, CheckStep(id, signature, t));
            var w2 := Window.Next(cfg, env, w1, ClaimStep(id, t));
            var w3 := Window.Next(cfg, env, w2, SettleStep(id, t, outcome));
            var (r, c) := ClaimAndOpen(w.cache, Window.SigKey(cfg, env, signature), t, outcome);
            && Window.Enabled(cfg, w, CheckStep(id, signature, t)) && Window.Enabled(cfg, w1, ClaimStep(id, t))
            && (Window.Enabled(cfg, w2, SettleStep(id, t, outcome)) <==>
                Grants(w.cache, t.claimedAt, Window.SigKey(cfg, env, signature)))
            && w3.cache == c && (Window.Accepted(w3, id) <==> r.Ok?)
  {
  }

  /** Every decryption that gets as far as the claim is one attempt of the acceptance machine: check, claim and, if
      granted, settlement. It leaves the same registry behind and hands out plaintext exactly when the machine accepts,
      so what holds of the machine's runs holds of interleaved decryptions. */
  lemma {:induction false} DecryptIsAnAttempt(s: Suite, env: Window.Setting, delay: real, durable: bool,
                                              w: Window.World, id: nat, t: Attempt)
    requires Lawful(s) && AdmitAttempt(s, t).Ok? && Startable(Machine(delay, durable), w, id, t)
    requires env.signedStamp(AdmitAttempt(s, t).value.signature) == t.pkg.timestamp
    ensures var cfg, signature := Machine(delay, durable), AdmitAttempt(s, t).value.signature;
            var outcome := OpenMessage(s, AdmitAttempt(s, t).value, t.receiverSkHex);
            var w1 := Window.Next(cfg, env, w, CheckStep(id, signature, t));
            var w2 := Window.Next(cfg, env, w1, ClaimStep(id, t));
            var w3 := Window.Next(cfg, env, w2, SettleStep(id, t, outcome));
            && Window.Enabled(cfg, w, CheckStep(id, signature, t)) && Window.Enabled(cfg, w1, ClaimStep(id, t))
            && w3.cache == DecryptSpec(s, env.sha3, w.cache, t).1
            && (Window.Accepted(w3, id) <==> DecryptSpec(s, env.sha3, w.cache, t).0.Ok?)
  {
    var a := AdmitAttempt(s, t).value;
    AdmissionNeeds(s, t);
    ClaimAndOpenIsMachine(Machine(delay, durable), env, w, id, a.signature, t, OpenMessage(s, a, t.receiverSkHex));
  }
}
