/** The byte string that an envelope's signature covers, and the associated data of its cipher. */
module EnvelopeCodec {
  import opened Common
  import opened ByteCodec

  const MAX_SENDER_ID := 256
  const MAX_RECEIVER_ID := 256
  const NONCE_BYTES := 12
  const KEM_CIPHERTEXT_BYTES := 1568
  const MAX_MESSAGE := 10 * 1024 * 1024
  const MAX_PAYLOAD := 11 * 1024 * 1024

  datatype Error = Overflow | InvalidEnvelope | InvalidKemCiphertext | InvalidNonce

  /** The nine fields, with text already in UTF-8. */
  datatype Fields = Fields(kemAlg: Bytes, aeadAlg: Bytes, sigAlg: Bytes, sender: Bytes, receiver: Bytes,
                           timestamp: int, kemCiphertext: Bytes, nonce: Bytes, message: Bytes)

  predicate IsAscii(s: string) {
    forall i | 0 <= i < |s| :: s[i] as int < 128
  }

  function Ascii(s: string): (b: Bytes)
    requires IsAscii(s)
    ensures |b| == |s|
  {
    seq(|s|, i requires 0 <= i < |s| => s[i] as int)
  }

  const PREFIX: Bytes := Ascii("HERMES-ENVELOPE-SIGNATURE") + [0]

  const NAMES: seq<Bytes> := [
    Ascii("version"), Ascii("kem_algorithm"), Ascii("aead_algorithm"), Ascii("signature_algorithm"), Ascii("sender_id"),
    Ascii("receiver_id"), Ascii("timestamp"), Ascii("kem_ciphertext"), Ascii("aes_nonce"), Ascii("ciphertext")]

  // ---------- tag-length-value lists ----------

  function EncodeField(name: Bytes, value: Bytes): Bytes {
    BigEndian(|name|, 2) + name + BigEndian(|value|, 8) + value
  }

  function EncodeFields(names: seq<Bytes>, values: seq<Bytes>): Bytes
    requires |names| == |values|
  {
    if names == [] then [] else EncodeField(names[0], values[0]) + EncodeFields(names[1..], values[1..])
  }

  /** Reads one field of the given name; the rest of the input comes back with its value. */
  function ParseField(name: Bytes, b: Bytes): Option<(Bytes, Bytes)> {
    var n := |name|;
    if |b| < n + 10 || FromBigEndian(b[..2]) != n || b[2..n + 2] != name then None
    else
      var len := FromBigEndian(b[n + 2..n + 10]);
      if |b| - (n + 10) < len then None else Some((b[n + 10..n + 10 + len], b[n + 10 + len..]))
  }

  function ParseFields(names: seq<Bytes>, b: Bytes): Option<seq<Bytes>> {
    if names == [] then (if b == [] then Some([]) else None)
    else
      var first := ParseField(names[0], b);
      if first.None? then None else
        var rest := ParseFields(names[1..], first.value.1);
        if rest.None? then None else Some([first.value.0] + rest.value)
  }

  ghost predicate Fits(names: seq<Bytes>, values: seq<Bytes>) {
    && |names| == |values|
    && (forall i | 0 <= i < |names| :: |names[i]| < Pow256(2))
    && (forall i | 0 <= i < |values| :: |values[i]| < Pow256(8))
  }

  lemma {:induction false} FieldSlices(h: Bytes, name: Bytes, l: Bytes, value: Bytes, rest: Bytes)
    requires |h| == 2 && |l| == 8
    ensures var n, b := |name|, h + name + l + value + rest;
            && |b| >= n + 10 + |value| && b[..2] == h && b[2..n + 2] == name && b[n + 2..n + 10] == l
            && b[n + 10..n + 10 + |value|] == value && b[n + 10 + |value|..] == rest
  {
  }

  lemma {:induction false} FieldReadsBack(name: Bytes, value: Bytes, rest: Bytes)
    requires |name| < Pow256(2) && |value| < Pow256(8)
    ensures ParseField(name, EncodeField(name, value) + rest) == Some((value, rest))
  {
    var n, b := |name|, EncodeField(name, value) + rest;
    BigEndianReadsBack(n, 2);
    BigEndianReadsBack(|value|, 8);
    FieldSlices(BigEndian(n, 2), name, BigEndian(|value|, 8), value, rest);
  }

  lemma {:induction false} FieldCanonical(name: Bytes, b: Bytes)
    requires ParseField(name, b).Some?
    ensures var (value, rest) := ParseField(name, b).value; b == EncodeField(name, value) + rest && |value| < Pow256(8)
  {
    var n := |name|;
    var len := FromBigEndian(b[n + 2..n + 10]);
    BigEndianCanonical(b[..2]);
    BigEndianCanonical(b[n + 2..n + 10]);
    assert b == b[..2] + b[2..n + 2] + b[n + 2..n + 10] + b[n + 10..n + 10 + len] + b[n + 10 + len..];
  }

  /** The parser accepts exactly the encodings, and returns what was encoded. */
  lemma {:induction false} FieldsReadBack(names: seq<Bytes>, values: seq<Bytes>)
    requires Fits(names, values)
    ensures ParseFields(names, EncodeFields(names, values)) == Some(values)
  {
    if names != [] {
      FieldReadsBack(names[0], values[0], EncodeFields(names[1..], values[1..]));
      FieldsReadBack(names[1..], values[1..]);
      assert values == [values[0]] + values[1..];
    }
  }

  lemma {:induction false} FieldsCanonical(names: seq<Bytes>, b: Bytes)
    requires ParseFields(names, b).Some?
    ensures var values := ParseFields(names, b).value;
            |values| == |names| && b == EncodeFields(names, values) && forall i | 0 <= i < |values| ::
                |values[i]| < Pow256(8)
  {
    if names != [] {
      FieldCanonical(names[0], b);
      FieldsCanonical(names[1..], ParseField(names[0], b).value.1);
    }
  }

  function SizeOf(names: seq<Bytes>, values: seq<Bytes>): nat
    requires |names| == |values|
  {
    if names == [] then 0 else 2 + |names[0]| + 8 + |values[0]| + SizeOf(names[1..], values[1..])
  }

  lemma {:induction false} EncodedSize(names: seq<Bytes>, values: seq<Bytes>)
    requires |names| == |values|
    ensures |EncodeFields(names, values)| == SizeOf(names, values)
  {
    if names != [] {
      EncodedSize(names[1..], values[1..]);
    }
  }

  // ---------- the canonical payload ----------

  function Values(f: Fields): seq<Bytes>
    requires f.timestamp >= 0
  {
    [[1], f.kemAlg, f.aeadAlg, f.sigAlg, f.sender, f.receiver, BigEndian(f.timestamp, 8), f.kemCiphertext, f.nonce,
        f.message]
  }

  /** The layout itself, before any limit is checked. */
  function Layout(f: Fields): Bytes
    requires f.timestamp >= 0
  {
    PREFIX + EncodeFields(NAMES, Values(f))
  }

  predicate TimestampFits(ts: int) {
    0 <= ts < 0x1_0000_0000_0000_0000
  }

  /** The per-field checks, in the order in which they are made. */
  function FieldProblem(f: Fields): Option<Error> {
    if !TimestampFits(f.timestamp) then Some(Overflow)
    else if |f.sender| > MAX_SENDER_ID || |f.receiver| > MAX_RECEIVER_ID then Some(InvalidEnvelope)
    else if f.kemCiphertext != [] && |f.kemCiphertext| != KEM_CIPHERTEXT_BYTES then Some(InvalidKemCiphertext)
    else if |f.nonce| != NONCE_BYTES then Some(InvalidNonce)
    else if |f.message| > MAX_MESSAGE then Some(InvalidEnvelope)
    else None
  }

  /** Refuses before anything is built, on the size computed ahead; otherwise the layout. */
  method CanonicalSignedPayload(f: Fields) returns (r: Result<Bytes, Error>)
    ensures r == Serialise(f) && (r.Ok? ==> r == Ok(Layout(f)))
    ensures var timed := 0 <= f.timestamp < 0x1_0000_0000_0000_0000;
            var named := |f.sender| <= 256 && |f.receiver| <= 256;
            var sealed := f.kemCiphertext == [] || |f.kemCiphertext| == 1568;
            var total := 250 + |f.kemAlg| + |f.aeadAlg| + |f.sigAlg| + |f.sender| + |f.receiver|
                         + |f.kemCiphertext| + |f.nonce| + |f.message|;
            var small := |f.message| <= 10_485_760 && total <= 11_534_336;
            && (r == Err(Overflow) <==> !timed)
            && (r == Err(InvalidKemCiphertext) <==> timed && named && !sealed)
            && (r == Err(InvalidNonce) <==> timed && named && sealed && |f.nonce| != 12)
            && (r == Err(InvalidEnvelope) <==> timed && (!named || (sealed && |f.nonce| == 12 && !small)))
            && (r.Ok? <==> timed && named && sealed && |f.nonce| == 12 && small)
  {
    if f.timestamp < 0 || f.timestamp >= 0x1_0000_0000_0000_0000 {
      return Err(Overflow);
    }
    var timestamp := BigEndian(f.timestamp, 8);
    if |f.sender| > MAX_SENDER_ID {
      return Err(InvalidEnvelope);
    }
    if |f.receiver| > MAX_RECEIVER_ID {
      return Err(InvalidEnvelope);
    }
    if f.kemCiphertext != [] && |f.kemCiphertext| != KEM_CIPHERTEXT_BYTES {
      return Err(InvalidKemCiphertext);
    }
    if |f.nonce| != NONCE_BYTES {
      return Err(InvalidNonce);
    }
    if |f.message| > MAX_MESSAGE {
      return Err(InvalidEnvelope);
    }
    var values := [[1], f.kemAlg, f.aeadAlg, f.sigAlg, f.sender, f.receiver, timestamp, f.kemCiphertext, f.nonce,
        f.message];
    var totalSize := |PREFIX|;
    for i := 0 to 10
      invariant totalSize == |PREFIX| + SizeOf(NAMES[..i], values[..i])
    {
      SizeGrows(NAMES, values, i);
      totalSize := totalSize + 2 + |NAMES[i]| + 8 + |values[i]|;
    }
    assert NAMES[..10] == NAMES && values[..10] == values;
    EncodedSize(NAMES, values);
    LayoutSize(f);
    if totalSize > MAX_PAYLOAD {
      return Err(InvalidEnvelope);
    }
    r := Ok(PREFIX + EncodeFields(NAMES, values));
  }

  lemma {:induction false} SizeGrows(names: seq<Bytes>, values: seq<Bytes>, i: nat)
    requires |names| == |values| && i < |names|
    ensures SizeOf(names[..i + 1], values[..i + 1]) == SizeOf(names[..i], values[..i]) + 2 + |names[i]| + 8 +
            |values[i]|
    decreases i
  {
    if i > 0 {
      SizeGrows(names[1..], values[1..], i - 1);
      assert names[..i + 1][1..] == names[1..][..i] && values[..i + 1][1..] == values[1..][..i];
      assert names[..i][1..] == names[1..][..i - 1] && values[..i][1..] == values[1..][..i - 1];
    }
  }

  function Serialise(f: Fields): Result<Bytes, Error> {
    if FieldProblem(f).Some? then Err(FieldProblem(f).value)
    else if |Layout(f)| > MAX_PAYLOAD then Err(InvalidEnvelope)
    else Ok(Layout(f))
  }

  /** Reads a payload back into its fields. */
  function Parse(b: Bytes): Option<Fields> {
    if |b| < |PREFIX| || b[..|PREFIX|] != PREFIX then None else
      var parsed := ParseFields(NAMES, b[|PREFIX|..]);
      if parsed.None? || |parsed.value| != 10 then None else
        var v := parsed.value;
        if v[0] != [1] || |v[6]| != 8 then None
        else Some(Fields(v[1], v[2], v[3], v[4], v[5], FromBigEndian(v[6]), v[7], v[8], v[9]))
  }

  ghost predicate Representable(f: Fields) {
    && TimestampFits(f.timestamp)
    && forall i | 0 <= i < 10 :: |Values(f)[i]| < Pow256(8)
  }

  lemma {:induction false} NamesFit()
    ensures forall i | 0 <= i < 10 :: |NAMES[i]| < Pow256(2)
  {
    Pow256Values();
  }

  /** Parsing undoes the layout. */
  lemma {:induction false} LayoutReadsBack(f: Fields)
    requires Representable(f)
    ensures Parse(Layout(f)) == Some(f)
  {
    NamesFit();
    Pow256Values();
    FieldsReadBack(NAMES, Values(f));
    BigEndianReadsBack(f.timestamp, 8);
    assert Layout(f)[..|PREFIX|] == PREFIX && Layout(f)[|PREFIX|..] == EncodeFields(NAMES, Values(f));
  }

  /** A list of ten values whose first is the version and whose seventh has eight bytes is that of some fields. */
  lemma {:induction false} ValuesOfParsed(v: seq<Bytes>, f: Fields)
    requires |v| == 10 && v[0] == [1] && |v[6]| == 8
    requires f == Fields(v[1], v[2], v[3], v[4], v[5], FromBigEndian(v[6]), v[7], v[8], v[9])
    ensures TimestampFits(f.timestamp) && Values(f) == v
  {
    BigEndianCanonical(v[6]);
    Pow256Values();
  }

  /** Nothing but a layout parses, so no two byte strings mean the same fields. */
  lemma {:induction false} ParseCanonical(b: Bytes)
    requires Parse(b).Some?
    ensures Representable(Parse(b).value) && Layout(Parse(b).value) == b
  {
    var tail := b[|PREFIX|..];
    FieldsCanonical(NAMES, tail);
    var v := ParseFields(NAMES, tail).value;
    ValuesOfParsed(v, Parse(b).value);
    assert b == b[..|PREFIX|] + tail;
  }

  lemma {:induction false} SizeOfMember(names: seq<Bytes>, values: seq<Bytes>, i: nat)
    requires |names| == |values| && i < |names|
    ensures |values[i]| <= SizeOf(names, values)
    decreases i
  {
    if i > 0 {
      SizeOfMember(names[1..], values[1..], i - 1);
    }
  }

  lemma {:induction false} AcceptedIsRepresentable(f: Fields)
    requires Serialise(f).Ok?
    ensures Representable(f)
  {
    Pow256Values();
    EncodedSize(NAMES, Values(f));
    forall i | 0 <= i < 10
      ensures |Values(f)[i]| < Pow256(8)
    {
      SizeOfMember(NAMES, Values(f), i);
    }
  }

  /** The signed bytes determine all nine fields. */
  lemma {:induction false} SignedPayloadInjective(f: Fields, g: Fields)
    requires Serialise(f).Ok? && Serialise(f) == Serialise(g)
    ensures f == g && Parse(Serialise(f).value) == Some(f)
  {
    AcceptedIsRepresentable(f);
    AcceptedIsRepresentable(g);
    LayoutReadsBack(f);
    LayoutReadsBack(g);
  }

  /** The size computed ahead is the size of the bytes produced. */
  lemma {:induction false} LayoutSize(f: Fields)
    requires f.timestamp >= 0
    ensures |Layout(f)| == 250 + |f.kemAlg| + |f.aeadAlg| + |f.sigAlg| + |f.sender| + |f.receiver|
                           + |f.kemCiphertext| + |f.nonce| + |f.message|
  {
    EncodedSize(NAMES, Values(f));
    SizeOfTen(NAMES, Values(f));
  }

  lemma {:induction false} SizeOfTen(n: seq<Bytes>, v: seq<Bytes>)
    requires |n| == |v| == 10
    ensures SizeOf(n, v) == 100 + (|n[0]| + |n[1]| + |n[2]| + |n[3]| + |n[4]|)
                            + (|n[5]| + |n[6]| + |n[7]| + |n[8]| + |n[9]|)
                            + (|v[0]| + |v[1]| + |v[2]| + |v[3]| + |v[4]| + |v[5]| + |v[6]| + |v[7]| + |v[8]| + |v[9]|)
  {
    SizeOfFive(n[5..], v[5..]);
    assert SizeOf(n, v) == 10 + |n[0]| + |v[0]| + SizeOf(n[1..], v[1..]);
    assert n[1..][1..] == n[2..] && v[1..][1..] == v[2..];
    assert n[2..][1..] == n[3..] && v[2..][1..] == v[3..];
    assert n[3..][1..] == n[4..] && v[3..][1..] == v[4..];
    assert n[4..][1..] == n[5..] && v[4..][1..] == v[5..];
    assert SizeOf(n[1..], v[1..]) == 10 + |n[1]| + |v[1]| + SizeOf(n[2..], v[2..]);
    assert SizeOf(n[2..], v[2..]) == 10 + |n[2]| + |v[2]| + SizeOf(n[3..], v[3..]);
    assert SizeOf(n[3..], v[3..]) == 10 + |n[3]| + |v[3]| + SizeOf(n[4..], v[4..]);
    assert SizeOf(n[4..], v[4..]) == 10 + |n[4]| + |v[4]| + SizeOf(n[5..], v[5..]);
  }

  lemma {:induction false} SizeOfFive(n: seq<Bytes>, v: seq<Bytes>)
    requires |n| == |v| == 5
    ensures SizeOf(n, v) == 50 + (|n[0]| + |n[1]| + |n[2]| + |n[3]| + |n[4]|) +
            (|v[0]| + |v[1]| + |v[2]| + |v[3]| + |v[4]|)
  {
    assert n[1..][1..] == n[2..] && v[1..][1..] == v[2..];
    assert n[2..][1..] == n[3..] && v[2..][1..] == v[3..];
    assert n[3..][1..] == n[4..] && v[3..][1..] == v[4..];
    assert n[4..][1..] == [] && v[4..][1..] == [];
    assert SizeOf(n[4..], v[4..]) == 10 + |n[4]| + |v[4]|;
    assert SizeOf(n[3..], v[3..]) == 10 + |n[3]| + |v[3]| + SizeOf(n[4..], v[4..]);
    assert SizeOf(n[2..], v[2..]) == 10 + |n[2]| + |v[2]| + SizeOf(n[3..], v[3..]);
    assert SizeOf(n[1..], v[1..]) == 10 + |n[1]| + |v[1]| + SizeOf(n[2..], v[2..]);
  }

  lemma {:induction false} FirstField(names: seq<Bytes>, values: seq<Bytes>, i: nat)
    requires |names| == |values| && i < |names|
    ensures EncodeFields(names[i..], values[i..]) ==
            EncodeField(names[i], values[i]) + EncodeFields(names[i + 1..], values[i + 1..])
  {
    assert names[i..][1..] == names[i + 1..] && values[i..][1..] == values[i + 1..];
  }

  function Field(name: string, value: Bytes): Bytes
    requires IsAscii(name)
  {
    EncodeField(Ascii(name), value)
  }

  /** The last five fields of the payload. */
  lemma {:induction false} TailSpelled(f: Fields) returns (tail: Bytes)
    requires f.timestamp >= 0
    ensures tail == EncodeFields(NAMES[5..], Values(f)[5..])
    ensures tail == Field("receiver_id", f.receiver) + (Field("timestamp", BigEndian(f.timestamp, 8))
                    + (Field("kem_ciphertext", f.kemCiphertext) + (Field("aes_nonce", f.nonce)
                    + Field("ciphertext", f.message))))
  {
    var n, v := NAMES, Values(f);
    FirstField(n, v, 5);
    FirstField(n, v, 6);
    FirstField(n, v, 7);
    FirstField(n, v, 8);
    FirstField(n, v, 9);
    tail := EncodeFields(n[5..], v[5..]);
    assert EncodeFields(n[10..], v[10..]) == [];
    assert EncodeField(n[9], v[9]) + [] == EncodeField(n[9], v[9]);
  }

  /** The payload, field by field. */
  lemma {:induction false} LayoutSpelled(f: Fields) returns (tail: Bytes)
    requires f.timestamp >= 0
    ensures Layout(f) == Ascii("HERMES-ENVELOPE-SIGNATURE") + [0]
                         + (Field("version", [1]) + (Field("kem_algorithm", f.kemAlg)
                         + (Field("aead_algorithm", f.aeadAlg) + (Field("signature_algorithm", f.sigAlg)
                         + (Field("sender_id", f.sender) + tail)))))
    ensures tail == Field("receiver_id", f.receiver) + (Field("timestamp", BigEndian(f.timestamp, 8))
                    + (Field("kem_ciphertext", f.kemCiphertext) + (Field("aes_nonce", f.nonce)
                    + Field("ciphertext", f.message))))
  {
    tail := TailSpelled(f);
    var n, v := NAMES, Values(f);
    assert n[0..] == n && v[0..] == v;
    FirstField(n, v, 0);
    FirstField(n, v, 1);
    FirstField(n, v, 2);
    FirstField(n, v, 3);
    FirstField(n, v, 4);
  }

  lemma {:induction false} AsciiAt(s: string, i: nat)
    requires IsAscii(s) && i < |s|
    ensures Ascii(s)[i] == s[i] as int
  {
  }

  /** A field's bytes: the name's length in two bytes, the name, the value's length in eight, the value; lengths with
      the highest byte first. */
  lemma {:induction false} FieldBytes(name: Bytes, value: Bytes, k: nat)
    requires k < 8
    ensures var e, n := EncodeField(name, value), |name|;
            && |e| == n + 10 + |value| && e[2..n + 2] == name && e[n + 10..] == value
            && e[0] == n / 256 % 256 && e[1] == n % 256
            && e[n + 9 - k] == |value| / Pow256(k) % 256
  {
    var n := |name|;
    BigEndianAt(n, 2, 0);
    BigEndianAt(n, 2, 1);
    BigEndianAt(|value|, 8, k);
    assert Pow256(0) == 1 && Pow256(1) == 256;
  }

  /** The whole-payload limit is the binding one only for oversized algorithm names: with names of at most a million
      bytes together, the per-field limits decide alone. */
  lemma {:induction false} TotalLimitNeverFires(f: Fields)
    requires |f.kemAlg| + |f.aeadAlg| + |f.sigAlg| <= 1_000_000
    ensures Serialise(f).Ok? <==> FieldProblem(f).None?
  {
    if FieldProblem(f).None? {
      LayoutSize(f);
    }
  }

  // ---------- associated data ----------

  /** Packs the low 64 bits of the timestamp and the two names, each behind its 32-bit length; a name that does not fit
      its length field cannot be packed. */
  function BuildAad(sender: Bytes, receiver: Bytes, timestamp: int): Option<Bytes> {
    if |sender| >= 0x1_0000_0000 || |receiver| >= 0x1_0000_0000 then None else
      Some(LittleEndian(timestamp % 0x1_0000_0000_0000_0000, 8)
           + LittleEndian(|sender|, 4) + sender + LittleEndian(|receiver|, 4) + receiver)
  }

  lemma {:induction false} AadSlices(s: Bytes, r: Bytes, t: int)
    requires BuildAad(s, r, t).Some?
    ensures var b := BuildAad(s, r, t).value;
            && |b| == 16 + |s| + |r|
            && b[..8] == LittleEndian(t % 0x1_0000_0000_0000_0000, 8)
            && b[8..12] == LittleEndian(|s|, 4) && b[12..12 + |s|] == s
            && b[12 + |s|..16 + |s|] == LittleEndian(|r|, 4) && b[16 + |s|..] == r
  {
  }

  /** The associated data binds sender, receiver and timestamp (the last up to 64 bits). */
  lemma {:induction false} AadInjective(s1: Bytes, r1: Bytes, t1: int, s2: Bytes, r2: Bytes, t2: int)
    requires BuildAad(s1, r1, t1).Some? && BuildAad(s1, r1, t1) == BuildAad(s2, r2, t2)
    ensures s1 == s2 && r1 == r2 && (t1 - t2) % 0x1_0000_0000_0000_0000 == 0
  {
    var m := 0x1_0000_0000_0000_0000;
    Pow256Values();
    AadSlices(s1, r1, t1);
    AadSlices(s2, r2, t2);
    LittleEndianInjective(t1 % m, t2 % m, 8);
    LittleEndianInjective(|s1|, |s2|, 4);
  }

  /** The associated data byte by byte: the timestamp's low 64 bits, then each name behind the 32 bits of its length,
      with the lowest byte first; it fails exactly if a length takes more. */
  lemma {:induction false} AadBytes(s: Bytes, r: Bytes, t: int, k: nat)
    requires k < 8
    ensures BuildAad(s, r, t).None? <==> |s| >= 0x1_0000_0000 || |r| >= 0x1_0000_0000
    ensures BuildAad(s, r, t).Some? ==>
              var b := BuildAad(s, r, t).value;
              && |b| == 16 + |s| + |r| && b[12..12 + |s|] == s && b[16 + |s|..] == r
              && b[k] == t % 0x1_0000_0000_0000_0000 / Pow256(k) % 256
              && (k < 4 ==> b[8 + k] == |s| / Pow256(k) % 256 && b[12 + |s| + k] == |r| / Pow256(k) % 256)
  {
    LittleEndianAt(t % 0x1_0000_0000_0000_0000, 8, k);
    if k < 4 {
      LittleEndianAt(|s|, 4, k);
      LittleEndianAt(|r|, 4, k);
    }
    if BuildAad(s, r, t).Some? {
      AadSlices(s, r, t);
      var b := BuildAad(s, r, t).value;
      assert b[k] == b[..8][k];
      assert k < 4 ==> b[8 + k] == b[8..12][k] && b[12 + |s| + k] == b[12 + |s|..16 + |s|][k];
    }
  }
}
