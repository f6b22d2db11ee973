/** Verifications and logouts of any tokens, in the order in which they take the revocation list's lock. */
module LogoutRuns {
  import opened Common
  import opened ReplayRegistry
  import opened SessionToken
  import Machines

  /** `stall` is the longest a verification takes between its two clock readings; no two issued tokens share a jti. */
  datatype Setting = Setting(mac: string -> string, stall: real, issued: set<Session>)

  datatype Step =
    | Verify(header: Option<string>, expiryRead: real, listRead: real)
    | LogOut(session: Session, readAt: real, revokedAt: real)

  /** `accepted` holds the sessions that some verification has let in, `ended` those that were logged out. */
  datatype Server = Server(revoked: map<string, real>, now: real, accepted: set<Session>, ended: set<Session>)

  const START := Server(map[], 0.0, {}, {})

  ghost predicate Sound(env: Setting) {
    && env.stall >= 0.0
    && (forall s, t | s in env.issued && t in env.issued && s.jti == t.jti :: s == t)
    && (forall s | s in env.issued :: Issued(env.mac, s.jti))
  }

  /** The header presents no MAC of fields that were never issued together, which takes the server's secret. */
  ghost predicate Unforged(env: Setting, header: Option<string>) {
    forall id, text, jti, m | Presents(header, id, text, jti, m) && ParseInt(text).Some? &&
      m == env.mac(Payload(id, ParseInt(text).value, jti)) ::
      Session(id, jti, ParseInt(text).value) in env.issued
  }

  /** Either step reads the clock for the list under the list's lock. A logout follows a verification of its token;
      several may have been verified before the first of them revokes. */
  ghost predicate Enabled(env: Setting, w: Server, t: Step) {
    match t
    case Verify(header, expiryRead, listRead) =>
      expiryRead <= listRead <= expiryRead + env.stall && w.now <= listRead && Unforged(env, header)
    case LogOut(session, readAt, revokedAt) =>
      readAt <= revokedAt && w.now <= revokedAt && session in w.accepted
  }

  /** Consulting the list drops an entry whose deadline has passed. */
  function Consulted(revoked: map<string, real>, r: Result<Session, Rejection>, listRead: real): map<string, real> {
    if r.Ok? && r.value.jti in revoked && !IsRevoked(revoked, r.value.jti, listRead) then revoked - {r.value.jti}
    else revoked
  }

  function Next(env: Setting, w: Server, t: Step): Server {
    match t
    case Verify(header, expiryRead, listRead) =>
      var r := ParseAndVerify(env.mac, w.revoked, header, expiryRead, listRead);
      w.(revoked := Consulted(w.revoked, Authenticate(env.mac, header, expiryRead), listRead), now := listRead,
         accepted := if r.Ok? then w.accepted + {r.value} else w.accepted)
    case LogOut(s, readAt, revokedAt) =>
      w.(revoked := AfterLogout(w.revoked, s.jti, s.expiresAt, readAt, revokedAt), now := revokedAt,
         ended := w.ended + {s})
  }

  ghost function MachineOf(env: Setting): Machines.Machine<Server, Step> {
    Machines.Machine(START, (w: Server, t: Step) => Next(env, w, t), (w: Server, t: Step) => Enabled(env, w, t))
  }

  ghost function Run(env: Setting, run: seq<Step>, n: nat): Server
    requires n <= |run|
  {
    Machines.Run(MachineOf(env), run, n)
  }

  ghost predicate Legal(env: Setting, run: seq<Step>) {
    Machines.Legal(MachineOf(env), run)
  }

  /** The header that carries a session's token, whenever it was issued. */
  function HeaderOf(mac: string -> string, s: Session): Option<string> {
    Header(mac, s.id, s.expiresAt as real, 0, s.jti)
  }

  /** No verification of the token that is possible from here on, before anything else happens, accepts it. */
  ghost predicate Shut(env: Setting, w: Server, s: Session) {
    RefusedFrom(env.mac, HeaderOf(env.mac, s), w.revoked, w.now, env.stall)
  }

  /** At every moment up to the n-th at which the token has been logged out, it is refused. */
  ghost predicate ShutThrough(env: Setting, run: seq<Step>, n: nat, s: Session)
    requires n <= |run|
  {
    && (s in Run(env, run, n).ended ==> Shut(env, Run(env, run, n), s))
    && (n > 0 ==> ShutThrough(env, run, n - 1, s))
  }

  predicate CoveredStep(env: Setting, t: Step, s: Session) {
    t.LogOut? && t.session == s ==> Covered(s.expiresAt, t.readAt, t.revokedAt, env.stall)
  }

  /** Every logout of the token among the first n steps is covered. */
  predicate CoveredThrough(env: Setting, run: seq<Step>, n: nat, s: Session)
    requires n <= |run|
  {
    n > 0 ==> CoveredThrough(env, run, n - 1, s) && CoveredStep(env, run[n - 1], s)
  }

  /** The deadline outlasts every verification the expiry lets pass, or was dropped when none is left. */
  ghost predicate Guarded(env: Setting, w: Server, s: Session) {
    var last := s.expiresAt as real + env.stall;
    s in w.ended ==> if s.jti in w.revoked then w.revoked[s.jti] >= last else w.now > last
  }

  /** Only issued sessions are ever let in, and only those are logged out. */
  ghost predicate Known(env: Setting, w: Server) {
    w.accepted <= env.issued && w.ended <= w.accepted
  }

  /** What verifies was issued: the MAC is the reason. */
  lemma {:induction false} VerifiedWasIssued(env: Setting, header: Option<string>, expiryRead: real)
    requires Unforged(env, header)
    ensures var r := Authenticate(env.mac, header, expiryRead);
            r.Ok? ==> r.value in env.issued
  {
    var r := ParseAndVerify(env.mac, map[], header, expiryRead, expiryRead);
    if r.Ok? {
      VerifiesIff(env.mac, map[], header, r.value.id, r.value.jti, r.value.expiresAt, expiryRead, expiryRead);
    }
  }

  /** A header that carries an issued token presents no other fields. */
  lemma {:induction false} IssuedIsUnforged(env: Setting, s: Session)
    requires Sound(env) && s in env.issued
    ensures Unforged(env, HeaderOf(env.mac, s))
  {
    var header, m := HeaderOf(env.mac, s), env.mac(Payload(s.id, s.expiresAt, s.jti));
    DecimalReadsBack(s.expiresAt);
    FourFields(s.id, Decimal(s.expiresAt), s.jti, m);
    forall id, text, jti, m' | Presents(header, id, text, jti, m')
      ensures id == s.id && text == Decimal(s.expiresAt) && jti == s.jti
    {
      FourFields(id, text, jti, m');
      var token := Generate(env.mac, s.id, s.expiresAt as real, 0, s.jti);
      var token' := id + ":" + text + ":" + jti + ":" + m';
      assert (BEARER + token)[|BEARER|..] == token && ("Bearer " + token')[|BEARER|..] == token';
    }
  }

  /** A verification forgets the entry it consults once its deadline has passed, and no other; one that is refused
      before it gets there forgets nothing. */
  lemma {:induction false} VerifyForgetsIff(env: Setting, w: Server, t: Step, jti: string)
    requires t.Verify? && jti in w.revoked
    ensures var r, w' := Authenticate(env.mac, t.header, t.expiryRead), Next(env, w, t);
            && (jti !in w'.revoked <==> r.Ok? && r.value.jti == jti && t.listRead > w.revoked[jti])
            && (jti in w'.revoked ==> w'.revoked[jti] == w.revoked[jti])
  {
  }

  lemma {:induction false} AuthenticOrRefused(mac: string -> string, revoked: map<string, real>, header: Option<string>,
                                              expiryRead: real, listRead: real)
    ensures var r := ParseAndVerify(mac, revoked, header, expiryRead, listRead);
            r.Ok? ==> r == Authenticate(mac, header, expiryRead)
  {
  }

  lemma {:induction false} StepKeepsGuard(env: Setting, w: Server, t: Step, s: Session)
    requires Sound(env) && s in env.issued && Known(env, w) && Guarded(env, w, s)
    requires Enabled(env, w, t) && CoveredStep(env, t, s)
    ensures Guarded(env, Next(env, w, t), s)
  {
    if t.Verify? {
      VerifiedWasIssued(env, t.header, t.expiryRead);
    } else if t.session.jti == s.jti {
      assert t.session in env.issued;
      RevocationReachesIff(w.revoked, s.jti, s.expiresAt, t.readAt, t.revokedAt, env.stall);
    }
  }

  lemma {:induction false} StepKeepsKnown(env: Setting, w: Server, t: Step)
    requires Known(env, w) && Enabled(env, w, t)
    ensures Known(env, Next(env, w, t))
  {
    if t.Verify? {
      VerifiedWasIssued(env, t.header, t.expiryRead);
      AuthenticOrRefused(env.mac, w.revoked, t.header, t.expiryRead, t.listRead);
    }
  }

  lemma {:induction false} RunKnown(env: Setting, run: seq<Step>, n: nat)
    requires Legal(env, run) && n <= |run|
    ensures Known(env, Run(env, run, n))
  {
    if n > 0 {
      RunKnown(env, run, n - 1);
      Machines.StepOfRun(MachineOf(env), run, n);
      StepKeepsKnown(env, Run(env, run, n - 1), run[n - 1]);
    }
  }

  lemma {:induction false} RunGuarded(env: Setting, run: seq<Step>, n: nat, s: Session)
    requires Sound(env) && s in env.issued && Legal(env, run) && n <= |run| && CoveredThrough(env, run, n, s)
    ensures Guarded(env, Run(env, run, n), s)
  {
    if n > 0 {
      RunGuarded(env, run, n - 1, s);
      RunKnown(env, run, n - 1);
      Machines.StepOfRun(MachineOf(env), run, n);
      StepKeepsGuard(env, Run(env, run, n - 1), run[n - 1], s);
    }
  }

  lemma {:induction false} GuardedMeansShut(env: Setting, w: Server, s: Session)
    requires Sound(env) && s in env.issued && ':' !in s.id && s in w.ended && Guarded(env, w, s)
    ensures Shut(env, w, s)
  {
    forall expiryRead: real, listRead: real |
      expiryRead <= listRead <= expiryRead + env.stall && w.now <= listRead
      ensures ParseAndVerify(env.mac, w.revoked, HeaderOf(env.mac, s), expiryRead, listRead).Err?
    {
      AcceptedIff(env.mac, s.id, s.expiresAt as real, 0, s.jti, w.revoked, expiryRead, listRead);
    }
  }

  /** An uncovered logout leaves the token open to a verification, whatever was logged out before. */
  lemma {:induction false} UncoveredLeavesOpen(env: Setting, w: Server, t: Step, s: Session)
    requires Sound(env) && s in env.issued && ':' !in s.id && Enabled(env, w, t) && !CoveredStep(env, t, s)
    ensures s in Next(env, w, t).ended && !Shut(env, Next(env, w, t), s)
  {
    LogoutFinalIff(env.mac, s.id, s.expiresAt as real, 0, s.jti, w.revoked, t.readAt, t.revokedAt, env.stall);
  }

  /** Once logged out a token stays refused, through any verifications and logouts of any tokens, exactly when every
      logout of it is covered: the second of two shortens the deadline that the first one set. */
  lemma {:induction false} LogoutsFinalIff(env: Setting, run: seq<Step>, n: nat, s: Session)
    requires Sound(env) && s in env.issued && ':' !in s.id && Legal(env, run) && n <= |run|
    ensures ShutThrough(env, run, n, s) <==> CoveredThrough(env, run, n, s)
  {
    if n > 0 {
      LogoutsFinalIff(env, run, n - 1, s);
      Machines.StepOfRun(MachineOf(env), run, n);
      if !CoveredStep(env, run[n - 1], s) {
        UncoveredLeavesOpen(env, Run(env, run, n - 1), run[n - 1], s);
      }
    }
    if CoveredThrough(env, run, n, s) && s in Run(env, run, n).ended {
      RunGuarded(env, run, n, s);
      GuardedMeansShut(env, Run(env, run, n), s);
    }
  }

  /** In particular the run itself never accepts the token again. */
  lemma {:induction false} NeverAcceptedAgain(env: Setting, run: seq<Step>, n: nat, s: Session)
    requires Sound(env) && s in env.issued && ':' !in s.id && Legal(env, run) && n < |run|
    requires CoveredThrough(env, run, n, s) && s in Run(env, run, n).ended
    requires run[n].Verify? && run[n].header == HeaderOf(env.mac, s)
    ensures ParseAndVerify(env.mac, Run(env, run, n).revoked, run[n].header, run[n].expiryRead, run[n].listRead).Err?
  {
    LogoutsFinalIff(env, run, n, s);
    Machines.StepOfRun(MachineOf(env), run, n + 1);
  }

  ghost predicate Reaches(env: Setting, run: seq<Step>, w: Server) {
    Machines.Reaches(MachineOf(env), run, w)
  }

  lemma {:induction false} Grow(env: Setting, run: seq<Step>, w: Server, t: Step)
      returns (longer: seq<Step>, w': Server)
    requires Reaches(env, run, w) && Enabled(env, w, t)
    ensures longer == run + [t] && w' == Next(env, w, t) && Reaches(env, longer, w')
  {
    longer, w' := run + [t], Next(env, w, t);
    Machines.ReachesNext(MachineOf(env), run, w, t, w');
  }

  lemma {:induction false} LetIn(env: Setting, run: seq<Step>, w: Server, s: Session, at: real)
      returns (longer: seq<Step>, w': Server)
    requires Sound(env) && env.stall == 0.0 && s in env.issued && ':' !in s.id && Reaches(env, run, w)
    requires w.now <= at <= s.expiresAt as real && s.jti !in w.revoked
    ensures longer == run + [Verify(HeaderOf(env.mac, s), at, at)] && Reaches(env, longer, w')
    ensures w' == w.(now := at, accepted := w.accepted + {s})
  {
    AcceptedIff(env.mac, s.id, s.expiresAt as real, 0, s.jti, w.revoked, at, at);
    IssuedIsUnforged(env, s);
    longer, w' := Grow(env, run, w, Verify(HeaderOf(env.mac, s), at, at));
  }

  lemma {:induction false} LetOut(env: Setting, run: seq<Step>, w: Server, s: Session, at: real)
      returns (longer: seq<Step>, w': Server)
    requires Reaches(env, run, w) && w.now <= at && s in w.accepted
    ensures longer == run + [LogOut(s, at, at)] && w' == Next(env, w, LogOut(s, at, at))
    ensures Reaches(env, longer, w') && w'.now == at && w'.accepted == w.accepted && s in w'.ended
  {
    longer, w' := Grow(env, run, w, LogOut(s, at, at));
  }

  /** Two logouts of one token, both verified before the first revokes: that one is covered and final on its own, the
      second opens the token again. */
  lemma {:induction false} SecondLogoutReopens(env: Setting, s: Session) returns (run: seq<Step>, w: Server)
    requires Sound(env) && env.stall == 0.0 && s in env.issued && ':' !in s.id && s.expiresAt >= 2
    ensures var e := s.expiresAt as real;
            run == [Verify(HeaderOf(env.mac, s), e - 2.0, e - 2.0), Verify(HeaderOf(env.mac, s), e - 2.0, e - 2.0),
                    LogOut(s, e - 2.0, e - 2.0), LogOut(s, e - 1.5, e - 1.5)]
    ensures Reaches(env, run, w) && CoveredStep(env, run[2], s) && !CoveredStep(env, run[3], s)
    ensures s in w.ended && !Shut(env, w, s)
  {
    var e := s.expiresAt as real;
    assert Reaches(env, [], START);
    run, w := LetIn(env, [], START, s, e - 2.0);
    run, w := LetIn(env, run, w, s, e - 2.0);
    run, w := LetOut(env, run, w, s, e - 2.0);
    UncoveredLeavesOpen(env, w, LogOut(s, e - 1.5, e - 1.5), s);
    run, w := LetOut(env, run, w, s, e - 1.5);
  }
}
