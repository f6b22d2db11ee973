/** Fixed-width integers and hexadecimal text. */
module ByteCodec {
  import opened Common

  function Pow256(w: nat): (p: nat)
    ensures p > 0
  {
    if w == 0 then 1 else 256 * Pow256(w - 1)
  }

  lemma {:induction false} Pow256Values()
    ensures Pow256(2) == 0x1_0000 && Pow256(4) == 0x1_0000_0000 && Pow256(8) == 0x1_0000_0000_0000_0000
  {
    assert Pow256(1) == 256 && Pow256(3) == 0x100_0000;
    assert Pow256(5) == 0x100_0000_0000 && Pow256(6) == 0x1_0000_0000_0000 && Pow256(7) == 0x100_0000_0000_0000;
  }

  function BigEndian(n: nat, width: nat): (b: Bytes)
    ensures |b| == width
  {
    if width == 0 then [] else BigEndian(n / 256, width - 1) + [n % 256]
  }

  function FromBigEndian(b: Bytes): nat {
    if b == [] then 0 else 256 * FromBigEndian(b[..|b| - 1]) + b[|b| - 1]
  }

  lemma {:induction false} BigEndianReadsBack(n: nat, width: nat)
    requires n < Pow256(width)
    ensures FromBigEndian(BigEndian(n, width)) == n
  {
    if width > 0 {
      BigEndianReadsBack(n / 256, width - 1);
      assert BigEndian(n, width)[..width - 1] == BigEndian(n / 256, width - 1);
    }
  }

  lemma {:induction false} BigEndianCanonical(b: Bytes)
    ensures FromBigEndian(b) < Pow256(|b|) && BigEndian(FromBigEndian(b), |b|) == b
  {
    if b != [] {
      BigEndianCanonical(b[..|b| - 1]);
      assert b == b[..|b| - 1] + [b[|b| - 1]];
    }
  }

  function LittleEndian(n: nat, width: nat): (b: Bytes)
    ensures |b| == width
  {
    if width == 0 then [] else [n % 256] + LittleEndian(n / 256, width - 1)
  }

  lemma {:induction false} LittleEndianInjective(m: nat, n: nat, width: nat)
    requires m < Pow256(width) && n < Pow256(width) && LittleEndian(m, width) == LittleEndian(n, width)
    ensures m == n
  {
    if width > 0 {
      var a, b := LittleEndian(m, width), LittleEndian(n, width);
      assert a[0] == b[0] && a[1..] == b[1..];
      LittleEndianInjective(m / 256, n / 256, width - 1);
    }
  }

  /** Byte k from the low end holds the k-th digit of the number in base 256. */
  lemma {:induction false} LittleEndianAt(n: nat, width: nat, k: nat)
    requires k < width
    ensures LittleEndian(n, width)[k] == n / Pow256(k) % 256
  {
    if k > 0 {
      LittleEndianAt(n / 256, width - 1, k - 1);
      DivideTwice(n, 256, Pow256(k - 1));
    }
  }

  lemma {:induction false} BigEndianAt(n: nat, width: nat, k: nat)
    requires k < width
    ensures BigEndian(n, width)[width - 1 - k] == n / Pow256(k) % 256
  {
    if k > 0 {
      BigEndianAt(n / 256, width - 1, k - 1);
      DivideTwice(n, 256, Pow256(k - 1));
    }
  }

  // ---------- hexadecimal ----------

  function HexValue(c: char): (v: Option<nat>)
    ensures v.Some? ==> v.value < 16
  {
    if '0' <= c <= '9' then Some(c as int - '0' as int)
    else if 'a' <= c <= 'f' then Some(c as int - 'a' as int + 10)
    else if 'A' <= c <= 'F' then Some(c as int - 'A' as int + 10)
    else None
  }

  predicate IsSpace(c: char) {
    c == ' ' || 9 <= c as int <= 13
  }

  /** Every digit's value reads back, and no digit is white space. */
  function HexDigit(d: nat): (c: char)
    requires d < 16
    ensures HexValue(c) == Some(d) && !IsSpace(c)
  {
    if d < 10 then ('0' as int + d) as char else ('a' as int + (d - 10)) as char
  }

  function ToHex(b: Bytes): string {
    if b == [] then "" else [HexDigit(b[0] / 16), HexDigit(b[0] % 16)] + ToHex(b[1..])
  }

  /** White space is allowed between bytes, and either letter case. */
  function FromHex(s: string): Option<Bytes> {
    if s == "" then Some([])
    else if IsSpace(s[0]) then FromHex(s[1..])
    else if |s| < 2 then None
    else
      var hi, lo, rest := HexValue(s[0]), HexValue(s[1]), FromHex(s[2..]);
      if hi.None? || lo.None? || rest.None? then None
      else Some([16 * hi.value + lo.value] + rest.value)
  }

  lemma {:induction false} HexPair(hi: char, lo: char, h: nat, l: nat, rest: string)
    requires HexValue(hi) == Some(h) && HexValue(lo) == Some(l) && !IsSpace(hi)
    ensures FromHex([hi, lo] + rest) ==
            if FromHex(rest).None? then None else Some([16 * h + l] + FromHex(rest).value)
  {
    var s := [hi, lo] + rest;
    assert s[0] == hi && s[1] == lo && s[2..] == rest;
  }

  lemma {:induction false} HexReadsBack(b: Bytes)
    ensures FromHex(ToHex(b)) == Some(b) && |ToHex(b)| == 2 * |b|
  {
    if b != [] {
      var x, rest := b[0], b[1..];
      HexReadsBack(rest);
      var hi, lo := HexDigit(x / 16), HexDigit(x % 16);
      HexPair(hi, lo, x / 16, x % 16, ToHex(rest));
      assert 16 * (x / 16) + x % 16 == x && b == [x] + rest;
      assert ToHex(b) == [hi, lo] + ToHex(rest);
    }
  }

  /** Digits are lower-case letters when written and of either case when read. */
  lemma {:induction false} HexDigitIff(c: char, d: nat)
    requires d < 16
    ensures c == HexDigit(d) <==> c == "0123456789abcdef"[d]
    ensures HexValue(c) == Some(d) <==> c == "0123456789abcdef"[d] || c == "0123456789ABCDEF"[d]
  {
  }

  /** Byte k is written as two digits, the high one first. */
  lemma {:induction false} ToHexAt(b: Bytes, k: nat)
    requires k < |b|
    ensures |ToHex(b)| == 2 * |b|
    ensures ToHex(b)[2 * k] == "0123456789abcdef"[b[k] / 16]
    ensures ToHex(b)[2 * k + 1] == "0123456789abcdef"[b[k] % 16]
  {
    HexReadsBack(b);
    if k == 0 {
      HexDigitIff(ToHex(b)[0], b[0] / 16);
      HexDigitIff(ToHex(b)[1], b[0] % 16);
    } else {
      ToHexAt(b[1..], k - 1);
      assert ToHex(b)[2..] == ToHex(b[1..]);
    }
  }

  function Dense(s: string): string {
    if s == "" then "" else (if IsSpace(s[0]) then "" else [s[0]]) + Dense(s[1..])
  }

  lemma {:induction false} SpaceIff(c: char)
    ensures IsSpace(c) <==> c in " \t\n\r\U{0B}\U{0C}"
  {
  }

  lemma {:induction false} FirstPair(s: string)
    requires s != "" && !IsSpace(s[0]) && FromHex(s).Some?
    ensures |s| >= 2 && FromHex(s[2..]).Some? && FromHex(s).value != []
    ensures FromHex(s).value[1..] == FromHex(s[2..]).value
    ensures HexValue(s[0]) == Some(FromHex(s).value[0] / 16) && HexValue(s[1]) == Some(FromHex(s).value[0] % 16)
  {
    var hi, lo := HexValue(s[0]).value, HexValue(s[1]).value;
    assert FromHex(s).value[0] == 16 * hi + lo;
  }

  lemma {:induction false} NoSpace(c: char)
    requires HexValue(c).Some?
    ensures !IsSpace(c)
  {
  }

  lemma {:induction false} DenseFirst(c: char, rest: string)
    requires !IsSpace(c)
    ensures Dense([c] + rest) == [c] + Dense(rest)
  {
    assert ([c] + rest)[1..] == rest;
  }

  lemma {:induction false} DensePair(s: string)
    requires s != "" && !IsSpace(s[0]) && FromHex(s).Some?
    ensures |s| >= 2 && Dense(s) == [s[0], s[1]] + Dense(s[2..])
  {
    NoSpace(s[1]);
    DenseFirst(s[1], s[2..]);
    DenseFirst(s[0], [s[1]] + s[2..]);
    assert s == [s[0]] + ([s[1]] + s[2..]);
  }

  lemma {:induction false} DenseLength(s: string)
    requires FromHex(s).Some?
    ensures |Dense(s)| == 2 * |FromHex(s).value|
  {
    if s != "" && IsSpace(s[0]) {
      DenseLength(s[1..]);
    } else if s != "" {
      DensePair(s);
      DenseLength(s[2..]);
    }
  }

  /** Digits 2k and 2k + 1 are those of the number v. */
  ghost predicate PairAt(digits: string, k: nat, v: nat) {
    |digits| > 2 * k + 1 && HexValue(digits[2 * k]) == Some(v / 16) && HexValue(digits[2 * k + 1]) == Some(v % 16)
  }

  lemma {:induction false} PairFurtherOn(two: string, rest: string, k: nat, v: nat)
    requires |two| == 2 && PairAt(rest, k, v)
    ensures PairAt(two + rest, k + 1, v)
  {
    var digits := two + rest;
    assert digits[2 * (k + 1)] == rest[2 * k] && digits[2 * (k + 1) + 1] == rest[2 * k + 1];
  }

  /** Whatever is read without its white space is two digits for each byte, the high one first. */
  lemma {:induction false} FromHexAt(s: string, k: nat)
    requires FromHex(s).Some? && k < |FromHex(s).value|
    ensures |Dense(s)| == 2 * |FromHex(s).value| && PairAt(Dense(s), k, FromHex(s).value[k])
  {
    DenseLength(s);
    if IsSpace(s[0]) {
      FromHexAt(s[1..], k);
    } else {
      FirstPair(s);
      DensePair(s);
      if k > 0 {
        FromHexAt(s[2..], k - 1);
        PairFurtherOn([s[0], s[1]], Dense(s[2..]), k - 1, FromHex(s).value[1..][k - 1]);
      }
    }
  }
}
