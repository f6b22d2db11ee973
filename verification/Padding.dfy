/** Zero padding of message plaintexts to fixed blocks, and its removal by the receiver. */
module Padding {
  import opened Common

  function BlockSize(length: nat): nat {
    if length <= 200 then 256 else 512
  }

  function Padded(plaintext: Bytes): Bytes {
    var block := BlockSize(|plaintext|);
    if |plaintext| < block then plaintext + Zeros(block - |plaintext|) else plaintext
  }

  method PadToFixedBlock(plaintext: Bytes) returns (padded: Bytes)
    ensures padded == Padded(plaintext)
    ensures plaintext <= padded && AllZero(padded[|plaintext|..])
    ensures |padded| == if |plaintext| <= 200 then 256 else if |plaintext| <= 512 then 512 else |plaintext|
  {
    var blockSize := if |plaintext| <= 200 then 256 else 512;
    padded := plaintext;
    while |padded| < blockSize
      invariant |padded| >= |plaintext| && padded == plaintext + Zeros(|padded| - |plaintext|)
      invariant |padded| <= blockSize || padded == plaintext
    {
      padded := padded + [0];
    }
  }

  /** What is left once every trailing zero byte is gone. */
  function Stripped(b: Bytes): Bytes {
    if b != [] && b[|b| - 1] == 0 then Stripped(b[..|b| - 1]) else b
  }

  method Unpad(padded: Bytes) returns (unpadded: Bytes)
    ensures unpadded == Stripped(padded)
  {
    unpadded := padded;
    while unpadded != [] && unpadded[|unpadded| - 1] == 0
      invariant Stripped(unpadded) == Stripped(padded)
      decreases |unpadded|
    {
      unpadded := unpadded[..|unpadded| - 1];
    }
  }

  predicate EndsInZero(b: Bytes) {
    b != [] && b[|b| - 1] == 0
  }

  /** Stripping is the one way to split off a run of zeros that leaves no zero at the end. */
  lemma {:induction false} StrippedIff(b: Bytes, kept: Bytes)
    ensures kept == Stripped(b) <==> kept <= b && !EndsInZero(kept) && AllZero(b[|kept|..])
  {
    if EndsInZero(b) {
      var shorter := b[..|b| - 1];
      StrippedIff(shorter, kept);
      if kept <= b && !EndsInZero(kept) {
        assert kept != b;
        assert kept == b[..|kept|] == shorter[..|kept|];
        assert b[|kept|..] == shorter[|kept|..] + [0];
        if AllZero(b[|kept|..]) {
          forall i | 0 <= i < |shorter[|kept|..]|
            ensures shorter[|kept|..][i] == 0
          {
            assert shorter[|kept|..][i] == b[|kept|..][i];
          }
        }
      }
    }
  }

  lemma {:induction false} StrippedSkipsZeros(b: Bytes, n: nat)
    ensures Stripped(b + Zeros(n)) == Stripped(b)
  {
    if n == 0 {
      assert b + Zeros(0) == b;
    } else {
      StrippedSkipsZeros(b, n - 1);
      assert (b + Zeros(n))[..|b| + n - 1] == b + Zeros(n - 1);
    }
  }

  /** The receiver gets the plaintext without its trailing zeros: the plaintext itself exactly when it has none. */
  lemma {:induction false} UnpaddedAfterPadded(plaintext: Bytes)
    ensures Stripped(Padded(plaintext)) == Stripped(plaintext)
    ensures Stripped(Padded(plaintext)) == plaintext <==> !EndsInZero(plaintext)
  {
    var block := BlockSize(|plaintext|);
    if |plaintext| < block {
      StrippedSkipsZeros(plaintext, block - |plaintext|);
    }
    StrippedIff(plaintext, Stripped(plaintext));
  }

  /** The length on the wire is 256 up to 200 bytes, 512 up to 512, and above that the plaintext's own length shows. */
  lemma {:induction false} PaddedLength(p: Bytes, q: Bytes)
    ensures |Padded(p)| == if |p| <= 200 then 256 else if |p| <= 512 then 512 else |p|
    ensures |Padded(p)| == |Padded(q)| <==>
            |p| == |q| || (|p| <= 200 && |q| <= 200) || (200 < |p| <= 512 && 200 < |q| <= 512)
  {
  }
}
