/** State machines given by a step function and by which steps are possible where. */
module Machines {

  datatype Machine<!S, !T> = Machine(start: S, next: (S, T) -> S, enabled: (S, T) -> bool)

  /** The state after the first n steps of a run. */
  ghost function Run<S, T>(m: Machine<S, T>, run: seq<T>, n: nat): S
    requires n <= |run|
  {
    if n == 0 then m.start else m.next(Run(m, run, n - 1), run[n - 1])
  }

  ghost predicate Legal<S, T>(m: Machine<S, T>, run: seq<T>) {
    forall n {:trigger Run(m, run, n)} | 0 <= n < |run| :: m.enabled(Run(m, run, n), run[n])
  }

  ghost predicate Reaches<S, T>(m: Machine<S, T>, run: seq<T>, s: S) {
    Legal(m, run) && Run(m, run, |run|) == s
  }

  lemma {:induction false} RunOfPrefix<S, T>(m: Machine<S, T>, run: seq<T>, t: T, n: nat)
    requires n <= |run|
    ensures Run(m, run + [t], n) == Run(m, run, n)
  {
    if n > 0 {
      RunOfPrefix(m, run, t, n - 1);
    }
  }

  /** A run grows by any step that is possible where it has got to. */
  lemma {:induction false} ReachesNext<S, T>(m: Machine<S, T>, run: seq<T>, s: S, t: T, s': S)
    requires Reaches(m, run, s) && m.enabled(s, t) && m.next(s, t) == s'
    ensures Reaches(m, run + [t], s')
  {
    forall n | 0 <= n <= |run|
      ensures Run(m, run + [t], n) == Run(m, run, n)
    {
      RunOfPrefix(m, run, t, n);
    }
    forall n | 0 <= n < |run + [t]|
      ensures m.enabled(Run(m, run + [t], n), (run + [t])[n])
    {
      assert n < |run| ==> m.enabled(Run(m, run, n), run[n]);
    }
  }

  lemma {:induction false} StepOfRun<S, T>(m: Machine<S, T>, run: seq<T>, n: nat)
    requires Legal(m, run) && 0 < n <= |run|
    ensures m.enabled(Run(m, run, n - 1), run[n - 1])
    ensures Run(m, run, n) == m.next(Run(m, run, n - 1), run[n - 1])
  {
    assert m.enabled(Run(m, run, n - 1), run[n - 1]);
  }

  ghost predicate Goes<S, T>(m: Machine<S, T>, s: S, t: T, s': S) {
    m.enabled(s, t) && m.next(s, t) == s'
  }

  /** Runs told by the states they go through. */
  lemma {:induction false} Two<S, T>(m: Machine<S, T>, t1: T, s1: S, t2: T, s2: S)
    requires Goes(m, m.start, t1, s1) && Goes(m, s1, t2, s2)
    ensures Reaches(m, [t1, t2], s2)
  {
    var run := [t1, t2];
    assert Run(m, run, 1) == m.next(Run(m, run, 0), t1);
    assert Run(m, run, 2) == m.next(Run(m, run, 1), t2);
  }

  lemma {:induction false} Three<S, T>(m: Machine<S, T>, t1: T, s1: S, t2: T, s2: S, t3: T, s3: S)
    requires Goes(m, m.start, t1, s1) && Goes(m, s1, t2, s2) && Goes(m, s2, t3, s3)
    ensures Reaches(m, [t1, t2, t3], s3)
  {
    var run := [t1, t2, t3];
    assert Run(m, run, 1) == m.next(Run(m, run, 0), t1);
    assert Run(m, run, 2) == m.next(Run(m, run, 1), t2);
    assert Run(m, run, 3) == m.next(Run(m, run, 2), t3);
  }

  lemma {:induction false} Four<S, T>(m: Machine<S, T>, t1: T, s1: S, t2: T, s2: S, t3: T, s3: S, t4: T, s4: S)
    requires Goes(m, m.start, t1, s1) && Goes(m, s1, t2, s2) && Goes(m, s2, t3, s3) && Goes(m, s3, t4, s4)
    ensures Reaches(m, [t1, t2, t3, t4], s4)
  {
    Three(m, t1, s1, t2, s2, t3, s3);
    ReachesNext(m, [t1, t2, t3], s3, t4, s4);
    assert [t1, t2, t3] + [t4] == [t1, t2, t3, t4];
  }

  lemma {:induction false} Five<S, T>(m: Machine<S, T>, t1: T, s1: S, t2: T, s2: S, t3: T, s3: S, t4: T, s4: S, t5: T,
                                      s5: S)
    requires Goes(m, m.start, t1, s1) && Goes(m, s1, t2, s2) && Goes(m, s2, t3, s3)
    requires Goes(m, s3, t4, s4) && Goes(m, s4, t5, s5)
    ensures Reaches(m, [t1, t2, t3, t4, t5], s5)
  {
    Four(m, t1, s1, t2, s2, t3, s3, t4, s4);
    ReachesNext(m, [t1, t2, t3, t4], s4, t5, s5);
    assert [t1, t2, t3, t4] + [t5] == [t1, t2, t3, t4, t5];
  }

  lemma {:induction false} Six<S, T>(m: Machine<S, T>, t1: T, s1: S, t2: T, s2: S, t3: T, s3: S, t4: T, s4: S, t5: T,
                                     s5: S, t6: T, s6: S)
    requires Goes(m, m.start, t1, s1) && Goes(m, s1, t2, s2) && Goes(m, s2, t3, s3)
    requires Goes(m, s3, t4, s4) && Goes(m, s4, t5, s5) && Goes(m, s5, t6, s6)
    ensures Reaches(m, [t1, t2, t3, t4, t5, t6], s6)
  {
    Five(m, t1, s1, t2, s2, t3, s3, t4, s4, t5, s5);
    ReachesNext(m, [t1, t2, t3, t4, t5], s5, t6, s6);
    assert [t1, t2, t3, t4, t5] + [t6] == [t1, t2, t3, t4, t5, t6];
  }
}
