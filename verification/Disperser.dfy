/** Whitening: data is XORed with a keystream whose start moves on with a block counter. */
module Disperser {
  import opened Common
  import opened ByteCodec

  /** HKDF-SHA512 to 48 bytes, and the AES-256-CTR keystream of a given length. */
  datatype Cipher = Cipher(hkdf: Bytes -> Bytes, ctr: (Bytes, Bytes, nat) -> Bytes)

  ghost predicate Lawful(c: Cipher) {
    && (forall k :: |c.hkdf(k)| == 48)
    && (forall k, n, len :: |c.ctr(k, n, len)| == len)
  }

  const COUNTER_LIMIT := 0x1_0000_0000

  // ---------- exclusive or ----------

  function XorBits(a: nat, b: nat, n: nat): (r: nat)
    ensures r < Pow2(n)
  {
    if n == 0 then 0 else 2 * XorBits(a / 2, b / 2, n - 1) + (if a % 2 == b % 2 then 0 else 1)
  }

  function Xor(a: byte, b: byte): byte {
    assert Pow2(8) == 256 by { assert Pow2(4) == 16; }
    XorBits(a, b, 8)
  }

  lemma {:induction false} BitApart(h: nat, bit: nat)
    requires bit < 2
    ensures (2 * h + bit) / 2 == h && (2 * h + bit) % 2 == bit
  {
  }

  lemma {:induction false} XorBitsTwice(a: nat, b: nat, n: nat)
    requires a < Pow2(n)
    ensures XorBits(XorBits(a, b, n), b, n) == a
  {
    if n > 0 {
      var h, k := a / 2, b / 2;
      XorBitsTwice(h, k, n - 1);
      BitApart(XorBits(h, k, n - 1), if a % 2 == b % 2 then 0 else 1);
    }
  }

  lemma {:induction false} XorTwice(a: byte, b: byte)
    ensures Xor(Xor(a, b), b) == a
  {
    assert Pow2(8) == 256 by { assert Pow2(4) == 16; }
    XorBitsTwice(a, b, 8);
  }

  lemma {:induction false} HalfFirst(x: nat, i: nat)
    requires i > 0
    ensures x / Pow2(i) == x / 2 / Pow2(i - 1)
  {
    DivideTwice(x, 2, Pow2(i - 1));
  }

  /** Bit by bit: r has a one exactly where a and b differ. */
  ghost predicate IsXor(r: nat, a: nat, b: nat, bits: nat) {
    forall i | 0 <= i < bits :: r / Pow2(i) % 2 == 1 <==> a / Pow2(i) % 2 != b / Pow2(i) % 2
  }

  lemma {:induction false} BitAbove(a: nat, b: nat, n: nat, i: nat)
    requires 0 < i < n
    ensures XorBits(a, b, n) / Pow2(i) % 2 == XorBits(a / 2, b / 2, n - 1) / Pow2(i - 1) % 2
  {
    BitApart(XorBits(a / 2, b / 2, n - 1), if a % 2 == b % 2 then 0 else 1);
    HalfFirst(XorBits(a, b, n), i);
  }

  lemma {:induction false} LowestBit(a: nat, b: nat, n: nat)
    requires n > 0
    ensures XorBits(a, b, n) / Pow2(0) % 2 == 1 <==> a / Pow2(0) % 2 != b / Pow2(0) % 2
  {
    BitApart(XorBits(a / 2, b / 2, n - 1), if a % 2 == b % 2 then 0 else 1);
    assert Pow2(0) == 1;
  }

  lemma {:induction false} XorBitsIsXor(a: nat, b: nat, n: nat)
    ensures IsXor(XorBits(a, b, n), a, b, n)
  {
    if n > 0 {
      XorBitsIsXor(a / 2, b / 2, n - 1);
      forall i | 0 <= i < n
        ensures XorBits(a, b, n) / Pow2(i) % 2 == 1 <==> a / Pow2(i) % 2 != b / Pow2(i) % 2
      {
        if i == 0 {
          LowestBit(a, b, n);
        } else {
          BitAbove(a, b, n, i);
          HalfFirst(a, i);
          HalfFirst(b, i);
        }
      }
    }
  }

  lemma {:induction false} BitsOfHalf(x: nat, y: nat, n: nat)
    requires n > 0 && forall i | 0 <= i < n :: x / Pow2(i) % 2 == y / Pow2(i) % 2
    ensures x % 2 == y % 2 && forall i | 0 <= i < n - 1 :: x / 2 / Pow2(i) % 2 == y / 2 / Pow2(i) % 2
  {
    assert Pow2(0) == 1;
    forall i | 0 <= i < n - 1
      ensures x / 2 / Pow2(i) % 2 == y / 2 / Pow2(i) % 2
    {
      HalfFirst(x, i + 1);
      HalfFirst(y, i + 1);
    }
  }

  /** Numbers below 2^n are told apart by their first n bits. */
  lemma {:induction false} SameBits(x: nat, y: nat, n: nat)
    requires x < Pow2(n) && y < Pow2(n) && forall i | 0 <= i < n :: x / Pow2(i) % 2 == y / Pow2(i) % 2
    ensures x == y
  {
    if n > 0 {
      BitsOfHalf(x, y, n);
      SameBits(x / 2, y / 2, n - 1);
    }
  }

  /** The byte whose bits are those in which a and b differ, and no other byte, is Xor(a, b). */
  lemma {:induction false} XorIff(r: byte, a: byte, b: byte)
    ensures r == Xor(a, b) <==> IsXor(r, a, b, 8)
  {
    assert Pow2(8) == 256 by { assert Pow2(4) == 16; }
    XorBitsIsXor(a, b, 8);
    if IsXor(r, a, b, 8) {
      SameBits(r, Xor(a, b), 8);
    }
  }

  lemma {:induction false} XorCancels(a: byte, b: byte, c: byte)
    requires Xor(a, b) == Xor(a, c)
    ensures b == c
  {
    XorIff(Xor(a, b), a, b);
    XorIff(Xor(a, c), a, c);
    XorIff(Xor(a, b), b, a);
    XorIff(Xor(a, c), c, a);
    XorTwice(b, a);
    XorTwice(c, a);
  }

  function XorAll(a: Bytes, b: Bytes): Bytes
    requires |a| == |b|
  {
    seq(|a|, i requires 0 <= i < |a| => Xor(a[i], b[i]))
  }

  lemma {:induction false} XorAllTwice(a: Bytes, b: Bytes)
    requires |a| == |b|
    ensures XorAll(XorAll(a, b), b) == a
  {
    forall i | 0 <= i < |a|
      ensures Xor(Xor(a[i], b[i]), b[i]) == a[i]
    {
      XorTwice(a[i], b[i]);
    }
  }

  // ---------- the disperser as a value ----------

  datatype State = State(aesKey: Bytes, nonceBase: Bytes, counter: nat)

  function Start(c: Cipher, key: Bytes): State
    requires |c.hkdf(key)| == 48
  {
    State(c.hkdf(key)[..32], c.hkdf(key)[32..48], 0)
  }

  function Nonce(s: State): Bytes
    requires |s.nonceBase| == 16
  {
    s.nonceBase[..12] + XorAll(s.nonceBase[12..], BigEndian(s.counter, 4))
  }

  /** The first twelve bytes are the base's; the last four differ from it in the bits of the counter, highest byte
      first. */
  lemma {:induction false} NonceBytes(s: State)
    requires |s.nonceBase| == 16
    ensures var n, base := Nonce(s), s.nonceBase;
            && |n| == 16 && (forall i | 0 <= i < 12 :: n[i] == base[i])
            && IsXor(n[12], base[12], s.counter / 0x100_0000 % 256, 8)
            && IsXor(n[13], base[13], s.counter / 0x1_0000 % 256, 8)
            && IsXor(n[14], base[14], s.counter / 0x100 % 256, 8) && IsXor(n[15], base[15], s.counter % 256, 8)
  {
    var c := s.counter;
    FourBytes(c);
    XorIff(Nonce(s)[12], s.nonceBase[12], c / 0x100_0000 % 256);
    XorIff(Nonce(s)[13], s.nonceBase[13], c / 0x1_0000 % 256);
    XorIff(Nonce(s)[14], s.nonceBase[14], c / 0x100 % 256);
    XorIff(Nonce(s)[15], s.nonceBase[15], c % 256);
  }

  lemma {:induction false} FourBytes(n: nat)
    ensures BigEndian(n, 4) == [n / 0x100_0000 % 256, n / 0x1_0000 % 256, n / 0x100 % 256, n % 256]
  {
    assert BigEndian(n / 0x100_0000, 1) == [n / 0x100_0000 % 256];
    assert n / 0x100_0000 == n / 0x1_0000 / 256;
    assert BigEndian(n / 0x1_0000, 2) == [n / 0x100_0000 % 256, n / 0x1_0000 % 256];
    assert n / 0x1_0000 == n / 0x100 / 256;
    assert BigEndian(n / 0x100, 3) == [n / 0x100_0000 % 256, n / 0x1_0000 % 256, n / 0x100 % 256];
  }

  /** On one base, counters that fit in four bytes give different nonces. */
  lemma {:induction false} NoncesDiffer(s: State, t: State)
    requires |s.nonceBase| == 16 && s.nonceBase == t.nonceBase
    requires s.counter < 0x1_0000_0000 && t.counter < 0x1_0000_0000 && s.counter != t.counter
    ensures Nonce(s) != Nonce(t)
  {
    var x, y, base := BigEndian(s.counter, 4), BigEndian(t.counter, 4), s.nonceBase[12..];
    if Nonce(s) == Nonce(t) {
      forall i | 0 <= i < 4
        ensures x[i] == y[i]
      {
        assert Nonce(s)[12 + i] == Xor(base[i], x[i]) && Nonce(t)[12 + i] == Xor(base[i], y[i]);
        XorCancels(base[i], x[i], y[i]);
      }
      assert x == y;
      Pow256Values();
      BigEndianReadsBack(s.counter, 4);
      BigEndianReadsBack(t.counter, 4);
    }
  }

  function Advance(s: State, length: nat): State {
    s.(counter := s.counter + length / 16 + 1)
  }

  /** One message; none once the counter no longer fits in four bytes. */
  function Whiten(c: Cipher, s: State, data: Bytes): Option<(State, Bytes)>
    requires |s.nonceBase| == 16 && |c.ctr(s.aesKey, Nonce(s), |data|)| == |data|
  {
    if s.counter >= COUNTER_LIMIT then None
    else Some((Advance(s, |data|), XorAll(data, c.ctr(s.aesKey, Nonce(s), |data|))))
  }

  // ---------- the disperser object ----------

  class CsprngDisperser {
    const cipher: Cipher
    var aesKey: Bytes
    var nonceBase: Bytes
    var blockCounter: nat

    function View(): State
      reads this
    {
      State(aesKey, nonceBase, blockCounter)
    }

    constructor (cipher: Cipher, key: Bytes)
      requires Lawful(cipher)
      ensures this.cipher == cipher && View() == Start(cipher, key)
      ensures aesKey == cipher.hkdf(key)[..32] && nonceBase == cipher.hkdf(key)[32..48] && blockCounter == 0
    {
      this.cipher := cipher;
      var derived := cipher.hkdf(key);
      var material := CopyOf(derived);
      aesKey, nonceBase, blockCounter := material[..32], material[32..48], 0;
      new;
      Zeroize(material);
    }

    method GenerateMask(length: nat) returns (mask: Option<array<byte>>)
      requires Lawful(cipher) && |nonceBase| == 16
      modifies this`blockCounter
      ensures mask.None? <==> old(blockCounter) >= 0x1_0000_0000
      ensures mask.None? ==> View() == old(View())
      ensures mask.Some? ==> View() == Advance(old(View()), length)
      ensures mask.Some? ==> blockCounter == old(blockCounter) + length / 16 + 1
      ensures mask.Some? ==> fresh(mask.value) && mask.value[..] == cipher.ctr(aesKey, Nonce(old(View())), length)
    {
      if blockCounter >= COUNTER_LIMIT {
        return None;
      }
      var nonce := new byte[16](i requires 0 <= i < 16 reads this => if i < |nonceBase| then nonceBase[i] else 0);
      var counterBytes := BigEndian(blockCounter, 4);
      for i := 0 to 4
        modifies nonce
        invariant forall k | 0 <= k < 12 :: nonce[k] == nonceBase[k]
        invariant forall k | 12 <= k < 12 + i :: nonce[k] == Xor(nonceBase[k], counterBytes[k - 12])
        invariant forall k | 12 + i <= k < 16 :: nonce[k] == nonceBase[k]
      {
        nonce[12 + i] := Xor(nonce[12 + i], counterBytes[i]);
      }
      assert nonce[..] == Nonce(View());
      var keystream := cipher.ctr(aesKey, nonce[..], length);
      blockCounter := blockCounter + length / 16 + 1;
      var buffer := CopyOf(keystream);
      mask := Some(buffer);
    }

    /** Whitening; dewhitening is the same operation. The mask is zeroed before it is dropped. */
    method WhitenData(data: array<byte>) returns (result: Option<array<byte>>)
      requires Lawful(cipher) && |nonceBase| == 16
      modifies this`blockCounter
      ensures result.None? ==> Whiten(cipher, old(View()), data[..]).None? && View() == old(View())
      ensures result.Some? ==>
                fresh(result.value) && Whiten(cipher, old(View()), data[..]) == Some((View(), result.value[..]))
      ensures result.None? <==> old(blockCounter) >= 0x1_0000_0000
      ensures result.Some? ==> result.value.Length == data.Length
      ensures result.Some? ==> forall k | 0 <= k < data.Length ::
                IsXor(result.value[k], data[k], cipher.ctr(aesKey, Nonce(old(View())), data.Length)[k], 8)
    {
      var mask := GenerateMask(data.Length);
      if mask.None? {
        return None;
      }
      ghost var keystream := mask.value[..];
      var buffer := new byte[data.Length];
      for i := 0 to data.Length
        modifies buffer
        invariant forall k | 0 <= k < i :: buffer[k] == Xor(data[k], keystream[k])
      {
        buffer[i] := Xor(data[i], mask.value[i]);
      }
      assert buffer[..] == XorAll(data[..], keystream);
      forall k | 0 <= k < data.Length
        ensures IsXor(buffer[k], data[k], keystream[k], 8)
      {
        XorIff(buffer[k], data[k], keystream[k]);
      }
      Zeroize(mask.value);
      result := Some(buffer);
    }
  }

  // ---------- sequences of messages ----------

  function WhitenAll(c: Cipher, s: State, msgs: seq<Bytes>): Option<(State, seq<Bytes>)>
    requires |s.nonceBase| == 16
    requires forall k, n, len :: |c.ctr(k, n, len)| == len
    decreases |msgs|
  {
    if msgs == [] then Some((s, [])) else
      var first := Whiten(c, s, msgs[0]);
      if first.None? then None else
        var rest := WhitenAll(c, first.value.0, msgs[1..]);
        if rest.None? then None else Some((rest.value.0, [first.value.1] + rest.value.1))
  }

  function CounterAfter(counter: nat, msgs: seq<Bytes>): nat
    decreases |msgs|
  {
    if msgs == [] then counter else CounterAfter(counter + |msgs[0]| / 16 + 1, msgs[1..])
  }

  lemma {:induction false} WhitenTwice(c: Cipher, s: State, data: Bytes)
    requires Lawful(c) && |s.nonceBase| == 16 && Whiten(c, s, data).Some?
    ensures var (s', out) := Whiten(c, s, data).value; |out| == |data| && Whiten(c, s, out) == Some((s', data))
  {
    XorAllTwice(data, c.ctr(s.aesKey, Nonce(s), |data|));
  }

  /** Two dispersers in the same state: what one whitens in order the other restores in order, and both end in the same
      state, whatever the messages. */
  lemma {:induction false} SequenceRestored(c: Cipher, s: State, msgs: seq<Bytes>)
    requires Lawful(c) && |s.nonceBase| == 16 && WhitenAll(c, s, msgs).Some?
    ensures var (s', outs) := WhitenAll(c, s, msgs).value;
            |outs| == |msgs| && WhitenAll(c, s, outs) == Some((s', msgs)) &&
                s' == s.(counter := CounterAfter(s.counter, msgs))
    decreases |msgs|
  {
    if msgs != [] {
      WhitenTwice(c, s, msgs[0]);
      var (s1, _) := Whiten(c, s, msgs[0]).value;
      SequenceRestored(c, s1, msgs[1..]);
      var outs := WhitenAll(c, s, msgs).value.1;
      assert outs[1..] == WhitenAll(c, s1, msgs[1..]).value.1;
      assert msgs == [msgs[0]] + msgs[1..];
    }
  }

  lemma {:induction false} CounterGrows(counter: nat, msgs: seq<Bytes>)
    ensures CounterAfter(counter, msgs) >= counter
    decreases |msgs|
  {
    if msgs != [] {
      CounterGrows(counter + |msgs[0]| / 16 + 1, msgs[1..]);
    }
  }

  /** The sequence goes through exactly when the counter still fits in four bytes where the last message starts. */
  lemma {:induction false} SequenceFitsIff(c: Cipher, s: State, msgs: seq<Bytes>)
    requires Lawful(c) && |s.nonceBase| == 16
    ensures WhitenAll(c, s, msgs).Some? <==>
            (msgs != [] ==> CounterAfter(s.counter, msgs[..|msgs| - 1]) < COUNTER_LIMIT)
    decreases |msgs|
  {
    if msgs != [] {
      var s1 := Advance(s, |msgs[0]|);
      SequenceFitsIff(c, s1, msgs[1..]);
      if |msgs| > 1 {
        assert msgs[..|msgs| - 1][1..] == msgs[1..][..|msgs| - 2];
        CounterGrows(s1.counter, msgs[1..][..|msgs| - 2]);
      }
    }
  }

  lemma {:induction false} FirstMask(c: Cipher, s: State, data: Bytes)
    requires Lawful(c) && |s.nonceBase| == 16 && Whiten(c, s, data).Some?
    ensures var out := Whiten(c, s, data).value.1;
            |out| == |data| &&
            forall k | 0 <= k < |data| :: IsXor(out[k], data[k], c.ctr(s.aesKey, Nonce(s), |data|)[k], 8)
  {
    var out := Whiten(c, s, data).value.1;
    forall k | 0 <= k < |data|
      ensures IsXor(out[k], data[k], c.ctr(s.aesKey, Nonce(s), |data|)[k], 8)
    {
      XorIff(out[k], data[k], c.ctr(s.aesKey, Nonce(s), |data|)[k]);
    }
  }

  /** The i-th message of a sequence is XORed with the keystream of a nonce of its own: its counter is past those of all
      messages before it by one more than their full blocks. */
  lemma {:induction false} MessageMask(c: Cipher, s: State, msgs: seq<Bytes>, i: nat)
    requires Lawful(c) && |s.nonceBase| == 16 && WhitenAll(c, s, msgs).Some? && i < |msgs|
    ensures var (_, outs) := WhitenAll(c, s, msgs).value;
            var at := s.(counter := CounterAfter(s.counter, msgs[..i]));
            var keystream := c.ctr(s.aesKey, Nonce(at), |msgs[i]|);
            && |outs| == |msgs| && |outs[i]| == |msgs[i]| && at.counter < 0x1_0000_0000
            && (forall k | 0 <= k < |msgs[i]| :: IsXor(outs[i][k], msgs[i][k], keystream[k], 8))
            && CounterAfter(s.counter, msgs[..i + 1]) == at.counter + |msgs[i]| / 16 + 1
    decreases |msgs|
  {
    SequenceRestored(c, s, msgs);
    var (_, outs) := WhitenAll(c, s, msgs).value;
    var (s1, first) := Whiten(c, s, msgs[0]).value;
    assert msgs[..i + 1][0] == msgs[0] && msgs[..i + 1][1..] == msgs[1..][..i];
    if i == 0 {
      FirstMask(c, s, msgs[0]);
      assert s.(counter := CounterAfter(s.counter, msgs[..0])) == s;
    } else {
      MessageMask(c, s1, msgs[1..], i - 1);
      assert msgs[..i][1..] == msgs[1..][..i - 1];
      assert s1.(counter := CounterAfter(s1.counter, msgs[1..][..i - 1])) ==
             s.(counter := CounterAfter(s.counter, msgs[..i]));
    }
  }

  /** No two messages of a sequence share a nonce. */
  lemma {:induction false} MessageNoncesDiffer(c: Cipher, s: State, msgs: seq<Bytes>, i: nat, j: nat)
    requires Lawful(c) && |s.nonceBase| == 16 && WhitenAll(c, s, msgs).Some? && i < j < |msgs|
    ensures Nonce(s.(counter := CounterAfter(s.counter, msgs[..i]))) !=
            Nonce(s.(counter := CounterAfter(s.counter, msgs[..j])))
  {
    MessageMask(c, s, msgs, i);
    MessageMask(c, s, msgs, j);
    CounterJoins(s.counter, msgs[..i + 1], msgs[i + 1..j]);
    assert msgs[..i + 1] + msgs[i + 1..j] == msgs[..j];
    CounterGrows(CounterAfter(s.counter, msgs[..i + 1]), msgs[i + 1..j]);
    NoncesDiffer(s.(counter := CounterAfter(s.counter, msgs[..i])), s.(counter := CounterAfter(s.counter, msgs[..j])));
  }

  lemma {:induction false} CounterJoins(counter: nat, a: seq<Bytes>, b: seq<Bytes>)
    ensures CounterAfter(counter, a + b) == CounterAfter(CounterAfter(counter, a), b)
    decreases |a|
  {
    if a == [] {
      assert a + b == b;
    } else {
      CounterJoins(counter + |a[0]| / 16 + 1, a[1..], b);
      assert (a + b)[1..] == a[1..] + b;
    }
  }
}
