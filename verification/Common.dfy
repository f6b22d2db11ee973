/** Types shared by every component model. */
module Common {

  datatype Option<+T> = None | Some(value: T)

  datatype Result<+T, +E> = Ok(value: T) | Err(error: E)

  /** One octet. Octets are numbers here because every codec does arithmetic on them. */
  type byte = x: int | 0 <= x < 256

  type Bytes = seq<byte>

  function Zeros(n: nat): Bytes {
    seq(n, _ => 0)
  }

  function Pow2(n: nat): (p: nat)
    ensures p > 0
  {
    if n == 0 then 1 else 2 * Pow2(n - 1)
  }

  lemma {:induction false} Multiples(m: nat, a: nat, b: nat)
    ensures a <= b || m * a >= m * b + m
  {
    if a > b {
      Multiples(m, a - 1, b);
      assert m * a == m * (a - 1) + m;
    }
  }

  lemma {:induction false} Quotient(x: nat, m: nat, d: nat, r: nat)
    requires r < m && x == m * d + r
    ensures x / m == d
  {
    var q := x / m;
    assert x == m * q + x % m;
    Multiples(m, q, d);
    Multiples(m, d, q);
  }

  lemma {:induction false} RestFits(a: nat, b: nat, r: nat, e: nat)
    requires r < b && e < a
    ensures a * r + e < a * b
  {
    Multiples(a, b, r);
  }

  lemma {:induction false} Regroup(a: nat, b: nat, d: nat)
    ensures a * (b * d) == (a * b) * d
  {
  }

  lemma {:induction false} Spread(a: nat, x: nat, y: nat)
    ensures a * (x + y) == a * x + a * y
  {
  }

  lemma {:induction false} QuotientOfParts(x: nat, a: nat, b: nat, h: nat, e: nat, d: nat, r: nat)
    requires x == a * h + e && e < a && h == b * d + r && r < b
    ensures a * b > 0 && x / (a * b) == d
  {
    RestFits(a, b, r, e);
    Spread(a, b * d, r);
    Regroup(a, b, d);
    Quotient(x, a * b, d, a * r + e);
  }

  lemma {:induction false} DivideTwice(x: nat, a: nat, b: nat)
    requires a > 0 && b > 0
    ensures a * b > 0 && x / (a * b) == x / a / b
  {
    QuotientOfParts(x, a, b, x / a, x % a, x / a / b, x / a % b);
  }

  ghost predicate AllZero(b: Bytes) {
    forall i | 0 <= i < |b| :: b[i] == 0
  }

  method CopyOf(bytes: Bytes) returns (buffer: array<byte>)
    ensures fresh(buffer) && buffer[..] == bytes
  {
    buffer := new byte[|bytes|](i requires 0 <= i < |bytes| => bytes[i]);
  }

  /** Overwrites the buffer itself, not a copy. */
  method Zeroize(buffer: array<byte>)
    modifies buffer
    ensures AllZero(buffer[..])
  {
    for i := 0 to buffer.Length
      invariant forall k | 0 <= k < i :: buffer[k] == 0
    {
      buffer[i] := 0;
    }
  }

  ghost predicate NoRepeats<T>(s: seq<T>) {
    forall i, j | 0 <= i < j < |s| :: s[i] != s[j]
  }

  lemma {:induction false} SubsetSize<T>(a: set<T>, b: set<T>)
    requires a <= b
    ensures |a| <= |b|
  {
    if a != {} {
      var x :| x in a;
      SubsetSize(a - {x}, b - {x});
    }
  }

  /** What stands in front of the first separator, and what stands behind it, can be told apart. */
  lemma {:induction false} FirstFieldUnique(sep: char, u: string, k: string, v: string, l: string)
    requires sep !in u && sep !in v && u + [sep] + k == v + [sep] + l
    ensures u == v && k == l
  {
    var e := u + [sep] + k;
    assert e[|u|] == sep && e[|v|] == sep;
    assert forall i | 0 <= i < |u| :: e[i] == u[i];
    assert forall i | 0 <= i < |v| :: e[i] == v[i];
    assert |u| == |v|;
    assert u == e[..|u|] && v == e[..|v|];
    assert k == e[|u| + 1..] && l == e[|v| + 1..];
  }
}
