/** The packing of 128 random bits and 4 checksum bits into twelve 11-bit word indices. */
module Mnemonic {
  import opened Common
  import opened ByteCodec

  type bit = x: int | 0 <= x < 2

  type Index = x: int | 0 <= x < 2048

  function ShiftRight(n: nat, k: nat): nat {
    if k == 0 then n else ShiftRight(n, k - 1) / 2
  }

  /** The number whose binary digits, most significant first, are the given bits. */
  function FromBits(bits: seq<bit>): nat {
    if bits == [] then 0 else 2 * FromBits(bits[..|bits| - 1]) + bits[|bits| - 1]
  }

  lemma {:induction false} FromBitsPush(bits: seq<bit>, b: bit)
    ensures FromBits(bits + [b]) == 2 * FromBits(bits) + b
  {
    assert (bits + [b])[..|bits|] == bits;
  }

  lemma {:induction false} FromBitsJoin(a: seq<bit>, b: seq<bit>)
    ensures FromBits(a + b) == FromBits(a) * Pow2(|b|) + FromBits(b)
  {
    if b == [] {
      assert a + b == a;
    } else {
      var n := |b| - 1;
      FromBitsJoin(a, b[..n]);
      assert a + b == a + b[..n] + [b[n]];
      FromBitsPush(a + b[..n], b[n]);
      Doubled(FromBits(a), n);
    }
  }

  lemma {:induction false} Doubled(x: nat, k: nat)
    ensures x * Pow2(k + 1) == 2 * (x * Pow2(k))
  {
  }

  lemma {:induction false} ShiftStep(n: nat, k: nat)
    ensures ShiftRight(n, k + 1) == ShiftRight(n, k) / 2
  {
  }

  lemma {:induction false} Shifts(octet: byte)
    ensures ShiftRight(octet, 0) == octet && ShiftRight(octet, 4) == octet / 16 && ShiftRight(octet, 8) == 0
    ensures Pow2(4) == 16 && Pow2(8) == 256 && Pow2(11) == 2048
  {
    ShiftStep(octet, 0);
    ShiftStep(octet, 1);
    ShiftStep(octet, 2);
    ShiftStep(octet, 3);
    ShiftStep(octet, 4);
    ShiftStep(octet, 5);
    ShiftStep(octet, 6);
    ShiftStep(octet, 7);
  }

  // ---------- word indices ----------

  /** Word indices as the digits, most significant first, of a number in base 2048. */
  function FromIndices(ws: seq<Index>): nat {
    if ws == [] then 0 else 2048 * FromIndices(ws[..|ws| - 1]) + ws[|ws| - 1]
  }

  function ToIndices(n: nat, count: nat): (ws: seq<Index>)
    ensures |ws| == count
  {
    if count == 0 then [] else ToIndices(n / 2048, count - 1) + [n % 2048]
  }

  function Pow2048(k: nat): nat {
    if k == 0 then 1 else 2048 * Pow2048(k - 1)
  }

  lemma {:induction false} IndicesReadBack(n: nat, count: nat)
    requires n < Pow2048(count)
    ensures FromIndices(ToIndices(n, count)) == n
  {
    if count > 0 {
      IndicesReadBack(n / 2048, count - 1);
      assert ToIndices(n, count)[..count - 1] == ToIndices(n / 2048, count - 1);
    }
  }

  lemma {:induction false} IndicesCanonical(ws: seq<Index>)
    ensures FromIndices(ws) < Pow2048(|ws|) && ToIndices(FromIndices(ws), |ws|) == ws
  {
    if ws != [] {
      IndicesCanonical(ws[..|ws| - 1]);
      assert ws == ws[..|ws| - 1] + [ws[|ws| - 1]];
    }
  }

  /** The index before the last k holds the k-th digit of the number in base 2048. */
  lemma {:induction false} IndexAt(n: nat, count: nat, k: nat)
    requires k < count
    ensures Pow2048(k) > 0 && ToIndices(n, count)[count - 1 - k] == n / Pow2048(k) % 2048
  {
    if k > 0 {
      IndexAt(n / 2048, count - 1, k - 1);
      DivideTwice(n, 2048, Pow2048(k - 1));
    }
  }

  // ---------- packing ----------

  /** The bytes followed by four more bits, as one number. */
  function Whole(entropy: Bytes, nibble: nat): nat {
    16 * FromBigEndian(entropy) + nibble
  }

  function Halves(n: nat, bytes: nat): (Bytes, nat) {
    (BigEndian(n / 16, bytes), n % 16)
  }

  /** Entropy and the checksum's top four bits form one number; the indices are its base-2048 digits, one for every
      eleven bits, twelve for 16 bytes. */
  function Packed(entropy: Bytes, checksum: byte): (ws: seq<Index>)
    ensures |ws| == (8 * |entropy| + 4) / 11
  {
    ToIndices(Whole(entropy, checksum / 16), (8 * |entropy| + 4) / 11)
  }

  /** The whole bytes in front of the last four bits, and those four bits. */
  function Unpacked(ws: seq<Index>): (Bytes, nat) {
    Halves(FromIndices(ws), 11 * |ws| / 8)
  }

  lemma {:induction false} NibbleApart(high: nat, nibble: nat, bound: nat)
    requires nibble < 16 && high < bound
    ensures 16 * high + nibble < 16 * bound
    ensures (16 * high + nibble) / 16 == high && (16 * high + nibble) % 16 == nibble && 16 * nibble / 16 == nibble
  {
  }

  lemma {:induction false} HalvesAt(n: nat, high: nat, nibble: nat, bytes: nat)
    requires n / 16 == high && n % 16 == nibble
    ensures Halves(n, bytes).0 == BigEndian(high, bytes) && Halves(n, bytes).1 == nibble
  {
  }

  lemma {:induction false} HalvesOfWhole(entropy: Bytes, nibble: nat, n: nat)
    requires nibble < 16 && n == Whole(entropy, nibble)
    ensures n < 16 * Pow256(|entropy|)
    ensures Halves(n, |entropy|) == (entropy, nibble)
  {
    var high, bytes := FromBigEndian(entropy), |entropy|;
    BigEndianCanonical(entropy);
    NibbleApart(high, nibble, Pow256(bytes));
    HalvesAt(n, high, nibble, bytes);
  }

  lemma {:induction false} WholeOfHalves(n: nat, bytes: nat)
    requires n < 16 * Pow256(bytes)
    ensures var (entropy, nibble) := Halves(n, bytes); |entropy| == bytes && nibble < 16 && Whole(entropy, nibble) == n
  {
    var high := n / 16;
    BigEndianReadsBack(high, bytes);
  }

  /** The sizes match: nothing is cut off and no index is left over. */
  ghost predicate Fits(bytes: nat, words: nat) {
    16 * Pow256(bytes) == Pow2048(words) && (8 * bytes + 4) / 11 == words && 11 * words / 8 == bytes
  }

  lemma {:induction false} SixteenBytesFitTwelveWords(bytes: nat, words: nat)
    requires bytes == 16 && words == 12
    ensures Fits(bytes, words)
  {
    assert Pow256(4) == 0x1_0000_0000 && Pow2048(4) == 0x1000_0000_0000;
    assert Pow256(8) == 0x1_0000_0000_0000_0000;
    assert Pow2048(8) == 0x100_0000_0000_0000_0000_0000;
  }

  lemma {:induction false} UnpackedIfFits(entropy: Bytes, checksum: byte, words: nat)
    requires Fits(|entropy|, words)
    ensures Unpacked(Packed(entropy, checksum)) == (entropy, checksum / 16)
  {
    var n := Whole(entropy, checksum / 16);
    HalvesOfWhole(entropy, checksum / 16, n);
    IndicesReadBack(n, words);
  }

  lemma {:induction false} UnpackedAfterPacked(entropy: Bytes, checksum: byte)
    requires |entropy| == 16
    ensures Unpacked(Packed(entropy, checksum)) == (entropy, checksum / 16)
  {
    var words := (8 * |entropy| + 4) / 11;
    SixteenBytesFitTwelveWords(|entropy|, words);
    UnpackedIfFits(entropy, checksum, words);
  }

  lemma {:induction false} PackedIfFits(ws: seq<Index>, n: nat, bytes: nat)
    requires Fits(bytes, |ws|) && n == FromIndices(ws)
    ensures var (entropy, nibble) := Unpacked(ws);
            |entropy| == bytes && nibble < 16 && Packed(entropy, 16 * nibble) == ws
  {
    IndicesCanonical(ws);
    WholeOfHalves(n, bytes);
    var (entropy, nibble) := Halves(n, bytes);
    NibbleApart(0, nibble, 1);
  }

  lemma {:induction false} PackedAfterUnpacked(ws: seq<Index>)
    requires |ws| == 12
    ensures var (entropy, nibble) := Unpacked(ws); |entropy| == 16 && nibble < 16 && Packed(entropy, 16 * nibble) == ws
  {
    var bytes := 11 * |ws| / 8;
    SixteenBytesFitTwelveWords(bytes, |ws|);
    PackedIfFits(ws, FromIndices(ws), bytes);
  }

  // ---------- the generator ----------

  function Spoken(wordlist: seq<string>, ws: seq<Index>): (words: seq<string>)
    requires |wordlist| == 2048
    ensures |words| == |ws|
  {
    seq(|ws|, i requires 0 <= i < |ws| => wordlist[ws[i]])
  }

  method PushBits(bits: seq<bit>, octet: byte, low: nat) returns (longer: seq<bit>)
    requires low <= 8
    ensures |longer| == |bits| + 8 - low
    ensures FromBits(longer) == FromBits(bits) * Pow2(8 - low) + ShiftRight(octet, low)
  {
    Shifts(octet);
    longer := bits;
    var i := 8;
    while i > low
      invariant low <= i <= 8 && |longer| == |bits| + 8 - i
      invariant FromBits(longer) == FromBits(bits) * Pow2(8 - i) + ShiftRight(octet, i)
    {
      i := i - 1;
      FromBitsPush(longer, ShiftRight(octet, i) % 2);
      Doubled(FromBits(bits), 7 - i);
      longer := longer + [ShiftRight(octet, i) % 2];
    }
  }

  method Fold(chunk: seq<bit>) returns (index: nat)
    ensures index == FromBits(chunk) < Pow2(|chunk|)
  {
    index := 0;
    for i := 0 to |chunk|
      invariant index == FromBits(chunk[..i]) < Pow2(i)
    {
      assert chunk[..i + 1] == chunk[..i] + [chunk[i]];
      FromBitsPush(chunk[..i], chunk[i]);
      index := 2 * index + chunk[i];
    }
    assert chunk[..|chunk|] == chunk;
  }

  method CollectBits(entropy: array<byte>, checksum: byte) returns (bits: seq<bit>)
    ensures |bits| == 8 * entropy.Length + 4 && FromBits(bits) == Whole(entropy[..], checksum / 16)
  {
    ghost var secret := entropy[..];
    bits := [];
    for k := 0 to entropy.Length
      invariant |bits| == 8 * k && FromBits(bits) == FromBigEndian(secret[..k])
    {
      Shifts(entropy[k]);
      assert secret[..k + 1][..k] == secret[..k];
      bits := PushBits(bits, entropy[k], 0);
    }
    assert secret[..entropy.Length] == secret;
    Shifts(checksum);
    bits := PushBits(bits, checksum, 4);
  }

  lemma {:induction false} IndexPushed(indices: seq<Index>, index: Index, before: seq<bit>, chunk: seq<bit>)
    requires |chunk| == 11 && FromIndices(indices) == FromBits(before) && index == FromBits(chunk)
    ensures FromIndices(indices + [index]) == FromBits(before + chunk)
  {
    Shifts(0);
    FromBitsJoin(before, chunk);
    assert (indices + [index])[..|indices|] == indices;
  }

  method ChooseWords(bits: seq<bit>, wordlist: seq<string>) returns (words: seq<string>)
    requires |bits| % 11 == 0 && |wordlist| == 2048
    ensures words == Spoken(wordlist, ToIndices(FromBits(bits), |bits| / 11))
  {
    ghost var indices: seq<Index> := [];
    words := [];
    var at := 0;
    while at < |bits|
      invariant at == 11 * |indices| <= |bits|
      invariant FromIndices(indices) == FromBits(bits[..at])
      invariant words == Spoken(wordlist, indices)
    {
      var end := if at + 11 <= |bits| then at + 11 else |bits|;
      var index := Fold(bits[at..end]);
      Shifts(0);
      IndexPushed(indices, index, bits[..at], bits[at..end]);
      assert bits[..at] + bits[at..end] == bits[..end];
      indices := indices + [index];
      words := words + [wordlist[index]];
      at := end;
    }
    assert bits[..at] == bits;
    IndicesCanonical(indices);
  }

  function Join(words: seq<string>): string {
    if words == [] then "" else if |words| == 1 then words[0] else words[0] + " " + Join(words[1..])
  }

  /** digestHead is the first byte of the SHA-256 digest. */
  method Generate(entropy: array<byte>, digestHead: Bytes -> byte, wordlist: seq<string>) returns (phrase: string)
    requires entropy.Length == 16 && |wordlist| == 2048
    modifies entropy
    ensures phrase == Join(Spoken(wordlist, Packed(old(entropy[..]), digestHead(old(entropy[..])))))
    ensures AllZero(entropy[..])
  {
    var checksum := digestHead(entropy[..]);
    var bits := CollectBits(entropy, checksum);
    var words := ChooseWords(bits, wordlist);
    Zeroize(entropy);
    phrase := Join(words);
  }

  /** The i-th word is the one at the i-th group of eleven bits, from the left, of entropy and checksum bits read as one
      number of 132 bits. */
  lemma {:induction false} WordAt(wordlist: seq<string>, entropy: Bytes, checksum: byte, i: nat)
    requires |wordlist| == 2048 && |entropy| == 16 && i < 12
    ensures var words, n := Spoken(wordlist, Packed(entropy, checksum)), 16 * FromBigEndian(entropy) + checksum / 16;
            Pow2048(11 - i) > 0 && |words| == 12 && words[i] == wordlist[n / Pow2048(11 - i) % 2048]
  {
    IndexAt(Whole(entropy, checksum / 16), 12, 11 - i);
  }

  /** Words stay in order with one space between any two neighbours; a single word stands alone. */
  lemma {:induction false} JoinSplits(words: seq<string>, i: nat)
    requires 0 < i < |words|
    ensures Join(words) == Join(words[..i]) + " " + Join(words[i..])
    ensures Join(words[..1]) == words[0]
  {
    if i > 1 {
      JoinSplits(words[1..], i - 1);
      assert words[..i][1..] == words[1..][..i - 1];
      assert words[1..][i - 1..] == words[i..];
      var w, a, b := words[0], Join(words[1..][..i - 1]), Join(words[i..]);
      assert Join(words) == w + " " + (a + " " + b);
      assert w + " " + (a + " " + b) == (w + " " + a) + " " + b;
    }
  }

  ghost predicate FreeOfSpaces(words: seq<string>) {
    forall i | 0 <= i < |words| :: ' ' !in words[i]
  }

  lemma {:induction false} JoinInjective(a: seq<string>, b: seq<string>)
    requires FreeOfSpaces(a) && FreeOfSpaces(b) && |a| == |b| && Join(a) == Join(b)
    ensures a == b
  {
    if |a| > 1 {
      FirstFieldUnique(' ', a[0], Join(a[1..]), b[0], Join(b[1..]));
      JoinInjective(a[1..], b[1..]);
      assert a == [a[0]] + a[1..] && b == [b[0]] + b[1..];
    }
  }

  lemma {:induction false} SpokenInjective(wordlist: seq<string>, v: seq<Index>, w: seq<Index>)
    requires |wordlist| == 2048 && NoRepeats(wordlist) && Spoken(wordlist, v) == Spoken(wordlist, w)
    ensures v == w
  {
    assert |v| == |Spoken(wordlist, v)| == |w|;
    forall i | 0 <= i < |v|
      ensures v[i] == w[i]
    {
      assert Spoken(wordlist, v)[i] == Spoken(wordlist, w)[i];
    }
  }

  /** With a list of distinct words free of spaces, a phrase determines the entropy and the checksum bits it was made
      from. */
  lemma {:induction false} PhraseDeterminesEntropy(wordlist: seq<string>, e: Bytes, c: byte, f: Bytes, d: byte)
    requires |wordlist| == 2048 && NoRepeats(wordlist) && FreeOfSpaces(wordlist) && |e| == |f| == 16
    ensures Join(Spoken(wordlist, Packed(e, c))) == Join(Spoken(wordlist, Packed(f, d))) <==> e == f && c / 16 == d / 16
  {
    var v, w := Packed(e, c), Packed(f, d);
    UnpackedAfterPacked(e, c);
    UnpackedAfterPacked(f, d);
    if Join(Spoken(wordlist, v)) == Join(Spoken(wordlist, w)) {
      JoinInjective(Spoken(wordlist, v), Spoken(wordlist, w));
      SpokenInjective(wordlist, v, w);
    }
  }
}
