/** Vector clocks: one counter per device, a missing device counts as zero. */
module VectorClock {
  import opened Common

  type Clock = map<string, nat>

  datatype Order = Before | After | Equal | Concurrent

  function Max(x: int, y: int): int {
    if x >= y then x else y
  }

  function At(c: Clock, k: string): nat {
    if k in c then c[k] else 0
  }

  function OrEmpty<T>(c: Option<map<string, T>>): map<string, T> {
    if c.Some? then c.value else map[]
  }

  /** a has seen no more than b. */
  ghost predicate Leq(a: Clock, b: Clock) {
    forall k :: At(a, k) <= At(b, k)
  }

  /** The four-way classification by the pointwise order. */
  ghost function OrderOf(a: Clock, b: Clock): Order {
    if Leq(a, b) && Leq(b, a) then Equal
    else if Leq(b, a) then After
    else if Leq(a, b) then Before
    else Concurrent
  }

  function Join(a: Clock, b: Clock): Clock {
    map k | k in a.Keys + b.Keys :: Max(At(a, k), At(b, k))
  }

  function Bump(c: Clock, device: string): Clock {
    c[device := At(c, device) + 1]
  }

  lemma {:induction false} JoinIsLeastUpperBound(a: Clock, b: Clock, c: Clock)
    ensures Leq(a, Join(a, b)) && Leq(b, Join(a, b))
    ensures Leq(a, c) && Leq(b, c) ==> Leq(Join(a, b), c)
  {
    assert forall k :: At(Join(a, b), k) == Max(At(a, k), At(b, k));
  }

  /** A device that counts on is strictly ahead of where it was, and two devices that count on from a common
      clock without meeting are concurrent. */
  lemma {:induction false} BumpAdvances(c: Clock, d: string, e: string)
    ensures OrderOf(Bump(c, d), c) == After && OrderOf(c, Bump(c, d)) == Before
    ensures d != e ==> OrderOf(Bump(c, d), Bump(c, e)) == Concurrent
  {
    assert At(Bump(c, d), d) > At(c, d);
    assert forall k | k != d :: At(Bump(c, d), k) == At(c, k);
    assert forall k | k != e :: At(Bump(c, e), k) == At(c, k);
    assert At(Bump(c, e), e) > At(c, e);
  }

  lemma {:induction false} OrderReversed(a: Clock, b: Clock)
    ensures OrderOf(b, a) ==
            match OrderOf(a,
                b) case Before => After case After => Before case Equal => Equal case Concurrent => Concurrent
  {
  }
}
