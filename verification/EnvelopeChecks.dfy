/** What a receiver lets through and what a sender sends, condition by condition and byte by byte. */
module EnvelopeChecks {
  import opened Common
  import opened ByteCodec
  import opened EnvelopeCodec
  import opened Envelope
  import Disperser

  // ---------- the whitened carrier ----------

  /** The keystream for the first message under a session key: from the first 32 derived bytes as the key and the nonce
      that counter zero gives on the other sixteen. */
  ghost function Keystream(s: Suite, key: Bytes, length: nat): Bytes
    requires Lawful(s)
  {
    var derived := s.cipher.hkdf(key);
    s.cipher.ctr(derived[..32], Disperser.Nonce(Disperser.State(derived[..32], derived[32..48], 0)), length)
  }

  /** b is a with every bit flipped where the session key's keystream has a one. */
  ghost predicate Masked(s: Suite, key: Bytes, a: Bytes, b: Bytes)
    requires Lawful(s)
  {
    && |b| == |a| == |Keystream(s, key, |a|)|
    && forall k | 0 <= k < |a| :: Disperser.IsXor(b[k], a[k], Keystream(s, key, |a|)[k], 8)
  }

  lemma {:induction false} WhitenMasks(s: Suite, key: Bytes, data: Bytes)
    requires Lawful(s)
    ensures Masked(s, key, data, WhitenOnce(s, key, data))
  {
    Disperser.FirstMask(s.cipher, Disperser.Start(s.cipher, key), data);
  }

  // ---------- what is let through ----------

  /** Absent, or the given name. */
  predicate MayBe(algorithm: Option<string>, name: string) {
    algorithm.None? || algorithm.value == name
  }

  /** The policy, the identity and the clock are in order. */
  ghost predicate Identified(t: Attempt) {
    && MayBe(t.pkg.kemAlg, "ML-KEM-1024") && MayBe(t.pkg.aeadAlg, "AES-256-GCM")
    && MayBe(t.pkg.sigAlg, "SLH-DSA-SHA2-128f") && t.pkg.ciphertextKem != ""
    && t.expectedSender != "" && t.pkg.senderId == t.expectedSender
    && (forall i | 0 <= i < |t.expectedSender| :: t.expectedSender[i] as int < 128)
    && t.checkedAt.Floor - 300 <= t.pkg.timestamp <= t.checkedAt.Floor + 60
  }

  /** The package is well-formed hexadecimal text of a nonce of 12 bytes and a KEM ciphertext of 1568. */
  ghost predicate Readable(t: Attempt) {
    && FromHex(t.senderPkHex).Some? && FromHex(t.sessionKeyHex).Some?
    && t.pkg.carrier.Some? && t.pkg.carrier.value != "" && FromHex(t.pkg.carrier.value).Some?
    && t.pkg.aesNonce != "" && FromHex(t.pkg.aesNonce).Some? && |FromHex(t.pkg.aesNonce).value| == 12
    && FromHex(t.pkg.ciphertextKem).Some? && |FromHex(t.pkg.ciphertextKem).value| == 1568
    && t.pkg.signature.Some? && FromHex(t.pkg.signature.value).Some?
  }

  /** These are the fields the package shows, with its unmasked message, and their payload verifies. */
  ghost predicate Verified(s: Suite, t: Attempt, f: Fields)
    requires Lawful(s) && Readable(t)
  {
    && f == Fields(s.utf8("ML-KEM-1024"), s.utf8("AES-256-GCM"), s.utf8("SLH-DSA-SHA2-128f"), s.utf8(t.expectedSender),
            s.utf8(t.pkg.receiverId), t.pkg.timestamp, FromHex(t.pkg.ciphertextKem).value,
            FromHex(t.pkg.aesNonce).value, f.message)
    && Masked(s, FromHex(t.sessionKeyHex).value, FromHex(t.pkg.carrier.value).value, f.message)
    && Serialise(f).Ok?
    && s.verify(Serialise(f).value, FromHex(t.pkg.signature.value).value, FromHex(t.senderPkHex).value)
  }

  lemma {:induction false} MaskedOnce(s: Suite, key: Bytes, a: Bytes, b: Bytes, c: Bytes)
    requires Lawful(s) && Masked(s, key, a, b) && Masked(s, key, a, c)
    ensures b == c
  {
    forall k | 0 <= k < |a|
      ensures b[k] == c[k]
    {
      Disperser.XorIff(b[k], a[k], Keystream(s, key, |a|)[k]);
      Disperser.XorIff(c[k], a[k], Keystream(s, key, |a|)[k]);
    }
  }

  lemma {:induction false} AdmittedIsVerified(s: Suite, t: Attempt)
    requires Lawful(s) && AdmitAttempt(s, t).Ok?
    ensures Identified(t) && Readable(t)
    ensures Verified(s, t, Fields(s.utf8("ML-KEM-1024"), s.utf8("AES-256-GCM"), s.utf8("SLH-DSA-SHA2-128f"),
                s.utf8(t.expectedSender), s.utf8(t.pkg.receiverId), t.pkg.timestamp,
                FromHex(t.pkg.ciphertextKem).value, FromHex(t.pkg.aesNonce).value, AdmitAttempt(s, t).value.message))
  {
    WhitenMasks(s, FromHex(t.sessionKeyHex).value, FromHex(t.pkg.carrier.value).value);
  }

  lemma {:induction false} VerifiedIsAdmitted(s: Suite, t: Attempt, f: Fields)
    requires Lawful(s) && Identified(t) && Readable(t) && Verified(s, t, f)
    ensures AdmitAttempt(s, t).Ok? && AdmitAttempt(s, t).value.message == f.message
  {
    var key, whitened := FromHex(t.sessionKeyHex).value, FromHex(t.pkg.carrier.value).value;
    WhitenMasks(s, key, whitened);
    MaskedOnce(s, key, whitened, f.message, WhitenOnce(s, key, whitened));
  }

  /** An envelope gets as far as the claim exactly if its policy, identity and clock are in order, it can be read, and
      the payload of the fields it shows verifies under the expected sender's key. */
  lemma {:induction false} AdmittedIff(s: Suite, t: Attempt)
    requires Lawful(s)
    ensures AdmitAttempt(s, t).Ok? <==> Identified(t) && Readable(t) && exists f :: Verified(s, t, f)
    ensures AdmitAttempt(s, t).Ok? ==>
              var a := AdmitAttempt(s, t).value;
              && a.signature == FromHex(t.pkg.signature.value).value && a.nonce == FromHex(t.pkg.aesNonce).value
              && a.kemCt == FromHex(t.pkg.ciphertextKem).value
              && Masked(s, FromHex(t.sessionKeyHex).value, FromHex(t.pkg.carrier.value).value, a.message)
              && BuildAad(s.utf8(t.expectedSender), s.utf8(t.pkg.receiverId), t.pkg.timestamp) == Some(a.aad)
  {
    if AdmitAttempt(s, t).Ok? {
      AdmittedIsVerified(s, t);
    } else if Identified(t) && Readable(t) {
      forall f | Verified(s, t, f)
        ensures false
      {
        VerifiedIsAdmitted(s, t, f);
      }
    }
  }

  /** How an envelope is refused before its signature is looked at: for its algorithms as unsupported, for identity and
      clock as a breach, for what cannot be read as malformed. */
  lemma {:induction false} RefusalKinds(s: Suite, t: Attempt)
    requires Lawful(s)
    ensures FromHex(t.senderPkHex).None? || FromHex(t.sessionKeyHex).None? ==> AdmitAttempt(s, t) == Err(Malformed)
    ensures var r := AdmitAttempt(s, t);
            var kem := if t.pkg.ciphertextKem != "" then "ML-KEM-1024" else "None";
            var known := MayBe(t.pkg.kemAlg, kem) && MayBe(t.pkg.aeadAlg, "AES-256-GCM") &&
                MayBe(t.pkg.sigAlg, "SLH-DSA-SHA2-128f");
            var plain := t.expectedSender != "" && IsAscii(t.expectedSender) && IsAscii(t.pkg.senderId);
            var timely := t.checkedAt.Floor - 300 <= t.pkg.timestamp <= t.checkedAt.Floor + 60;
            FromHex(t.senderPkHex).Some? && FromHex(t.sessionKeyHex).Some? ==>
            && (!known ==> r == Err(Unsupported))
            && (known && t.expectedSender == "" ==> r == Err(Security))
            && (known && t.expectedSender != "" && !plain ==> r == Err(Malformed))
            && (known && plain && (t.pkg.senderId != t.expectedSender || !timely) ==> r == Err(Security))
  {
  }

  /** With all that in order: for a name too long for its length field or a missing nonce as a breach, for a carrier
      without readable payload as malformed. */
  lemma {:induction false} CarrierRefusalKinds(s: Suite, t: Attempt)
    requires Lawful(s) && Identified(t) && FromHex(t.senderPkHex).Some? && FromHex(t.sessionKeyHex).Some?
    ensures var r, aad := AdmitAttempt(s, t), BuildAad(s.utf8(t.expectedSender), s.utf8(t.pkg.receiverId),
                t.pkg.timestamp);
            var carried := t.pkg.carrier.Some? && t.pkg.carrier.value != "" && FromHex(t.pkg.carrier.value).Some?;
            && (aad.None? ==> r == Err(Security)) && (aad.Some? && !carried ==> r == Err(Malformed))
            && (aad.Some? && carried && t.pkg.aesNonce == "" ==> r == Err(Security))
  {
  }

  /** How it is refused after that: unreadable parts as malformed, parts of the wrong size as a breach, a missing KEM
      ciphertext as unsupported, and a payload that is over a limit or does not verify as a bad envelope. */
  lemma {:induction false} LaterRefusalKinds(s: Suite, pkg: Package, kem: string, senderPk: Bytes, message: Bytes,
                                             aad: Bytes)
    ensures var r, nonce, kemCt := AdmitMessage(s, pkg, kem, senderPk, message, aad), FromHex(pkg.aesNonce),
                FromHex(pkg.ciphertextKem);
            var signed := pkg.signature.Some? && FromHex(pkg.signature.value).Some? && nonce.Some?;
            && (!signed ==> r == Err(Malformed))
            && (signed && |nonce.value| != 12 ==> r == Err(Security))
            && (signed && |nonce.value| == 12 && kemCt.None? ==> r == Err(Malformed))
            && (signed && |nonce.value| == 12 && kemCt.Some? && kem != "ML-KEM-1024" ==> r == Err(Unsupported))
            && (signed && |nonce.value| == 12 && kemCt.Some? && kem == "ML-KEM-1024" && |kemCt.value| != 1568 ==>
                  r == Err(Security))
            && (signed && |nonce.value| == 12 && kemCt.Some? && kem == "ML-KEM-1024" && |kemCt.value| == 1568 &&
                r.Err? ==>
                  r == Err(if 0 <= pkg.timestamp < 0x1_0000_0000_0000_0000 then BadEnvelope else Security))
  {
  }

  /** A message opens exactly if the receiver's key is hexadecimal, undoes the encapsulation, and the cipher accepts the
      message with that nonce and associated data. */
  lemma {:induction false} OpensIff(s: Suite, a: Admitted, receiverSkHex: string, plaintext: Bytes)
    ensures var r, sk := OpenMessage(s, a, receiverSkHex), FromHex(receiverSkHex);
            && (r == Ok(plaintext) <==> && sk.Some? && s.decap(a.kemCt, sk.value).Some?
                                        && var key := s.kdf(s.decap(a.kemCt, sk.value).value);
                                           s.aeadDec(a.message, key, a.nonce, a.aad) == Some(plaintext))
            && (r == Err(Security) <==> sk.None?) && (r.Err? && sk.Some? ==> r == Err(InvalidCiphertext))
  {
  }

  // ---------- what is sent ----------

  /** A package carries the encapsulation, the nonce and the signature as hexadecimal text, the encrypted message masked
      with the session key's keystream, the names as given, the whole second and the three algorithms; the signature is
      over the payload of exactly these. */
  lemma {:induction false} PackageContents(s: Suite, l: Letter, now: real) returns (a: Admitted, secret: Bytes,
                                                                                    whitened: Bytes)
    requires Lawful(s) && Encrypt(s, l, now).Ok?
    ensures var pkg := Encrypt(s, l, now).value;
            && pkg.ciphertextKem == ToHex(a.kemCt) && pkg.aesNonce == ToHex(l.nonce)
            && pkg.signature == Some(ToHex(a.signature)) && pkg.carrier == Some(ToHex(whitened))
            && pkg.timestamp == now.Floor && pkg.senderId == l.sender && pkg.receiverId == l.receiver
            && pkg.kemAlg == Some("ML-KEM-1024") && pkg.aeadAlg == Some("AES-256-GCM")
            && pkg.sigAlg == Some("SLH-DSA-SHA2-128f")
    ensures FromHex(l.receiverPkHex).Some? && FromHex(l.plaintextHex).Some? && FromHex(l.sessionKeyHex).Some?
    ensures s.encap(FromHex(l.receiverPkHex).value, l.coins) == Some((a.kemCt, secret))
    ensures BuildAad(s.utf8(l.sender), s.utf8(l.receiver), now.Floor) == Some(a.aad)
    ensures a.message == s.aeadEnc(FromHex(l.plaintextHex).value, s.kdf(secret), l.nonce, a.aad)
    ensures Masked(s, FromHex(l.sessionKeyHex).value, a.message, whitened)
    ensures var payload := Serialise(Fields(s.utf8("ML-KEM-1024"), s.utf8("AES-256-GCM"), s.utf8("SLH-DSA-SHA2-128f"),
                s.utf8(l.sender), s.utf8(l.receiver), now.Floor, a.kemCt, l.nonce, a.message));
            payload.Ok? && FromHex(l.senderSkHex).Some? &&
            s.sign(payload.value, FromHex(l.senderSkHex).value) == Some(a.signature)
  {
    a, secret := EncryptSeals(s, l, now);
    whitened := WhitenOnce(s, FromHex(l.sessionKeyHex).value, a.message);
    WhitenMasks(s, FromHex(l.sessionKeyHex).value, a.message);
  }

  /** A letter is refused as bad input unless its texts are hexadecimal and the library accepts the keys; after that
      only the payload's limits refuse it, as what they are. */
  lemma {:induction false} EncryptFailsAs(s: Suite, l: Letter, now: real)
    requires Lawful(s) && Encrypt(s, l, now).Err?
    ensures var e := Encrypt(s, l, now).error;
            && (WellFormed(s, l) && |s.utf8(l.sender)| < 0x1_0000_0000 && |s.utf8(l.receiver)| < 0x1_0000_0000 ==>
                  e == BadPayload(if 0 <= now.Floor < 0x1_0000_0000_0000_0000 then InvalidEnvelope else Overflow))
            && (FromHex(l.plaintextHex).None? || FromHex(l.senderSkHex).None? || FromHex(l.sessionKeyHex).None? ==>
                  e == BadInput)
            && (l.receiverPkHex in {"", "none"} || FromHex(l.receiverPkHex).None? ==> e == BadInput)
  {
  }
}
