/** Whole runs of the relay queue: where every accepted blob ends up, and in which order receivers see theirs. */
module RelayHistory {
  import opened BlindRelay
  import Machines

  /** `Destroyed`: through the debugging endpoint, which asks neither who calls nor when. `Overwritten`: by a blob
      that was given the same identifier; the bytes are dropped, not zeroed. */
  datatype Way = Delivered | Expired | Cleared | Destroyed | Overwritten

  /** One blob leaving the queue: how, on whose call, and when. */
  datatype Exit = Exit(blob: Blob, way: Way, who: string, at: real)

  datatype Action =
    | Submit(blob: Blob)
    | Fetch(receiver: string)
    | DestroyScheduled(id: string)
    | Clear(user: string)
    | DebugRead(id: string, caller: string, delete: bool)

  datatype Step = Step(at: real, act: Action)

  /** What one fetch handed to its caller. */
  datatype Handed = Handed(receiver: string, what: Delivery)

  datatype History = History(queue: seq<Blob>, accepted: seq<Blob>, exits: seq<Exit>, handed: seq<Handed>, now: real)

  const START := History([], [], [], [], 0.0)

  function Only(q: seq<Blob>, ids: set<string>): seq<Blob> {
    if q == [] then [] else
      var rest, last := Only(q[..|q| - 1], ids), q[|q| - 1];
      if last.id in ids then rest + [last] else rest
  }

  function LateFor(q: seq<Blob>, receiver: string, now: real): seq<Blob> {
    if q == [] then [] else
      var rest, last := LateFor(q[..|q| - 1], receiver, now), q[|q| - 1];
      if last.receiver == receiver && now > last.expiresAt then rest + [last] else rest
  }

  function Leave(q: seq<Blob>, way: Way, who: string, at: real): seq<Exit> {
    seq(|q|, i requires 0 <= i < |q| => Exit(q[i], way, who, at))
  }

  function HandOut(given: seq<Delivery>, receiver: string): seq<Handed> {
    seq(|given|, i requires 0 <= i < |given| => Handed(receiver, given[i]))
  }

  function Blobs(exits: seq<Exit>): seq<Blob> {
    seq(|exits|, i requires 0 <= i < |exits| => exits[i].blob)
  }

  /** Some accepted blob with this identifier has reached its deadline: its destruction was scheduled for then. */
  ghost predicate Overdue(accepted: seq<Blob>, id: string, at: real) {
    exists i :: 0 <= i < |accepted| && accepted[i].id == id && at >= accepted[i].expiresAt
  }

  /** Identifiers may collide; a scheduled destruction comes no earlier than the deadline it was scheduled for. */
  ghost predicate Enabled(h: History, s: Step) {
    s.at >= h.now &&
    match s.act
    case Submit(b) => b.createdAt == s.at
    case DestroyScheduled(id) => Overdue(h.accepted, id, s.at)
    case _ => true
  }

  function Next(h: History, s: Step): History {
    match s.act
    case Submit(b) =>
      h.(queue := Put(h.queue, b), accepted := h.accepted + [b],
         exits := h.exits + Leave(Only(h.queue, {b.id}), Overwritten, "", s.at), now := s.at)
    case Fetch(r) =>
      h.(queue := Without(h.queue, IdsFor(h.queue, r)),
         exits := h.exits + Leave(DueFor(h.queue, r, s.at), Delivered, r, s.at) +
             Leave(LateFor(h.queue, r, s.at), Expired, r, s.at),
         handed := h.handed + HandOut(AsDeliveries(DueFor(h.queue, r, s.at)), r),
         now := s.at)
    case DestroyScheduled(id) =>
      h.(queue := Without(h.queue, {id}), exits := h.exits + Leave(Only(h.queue, {id}), Expired, "", s.at), now := s.at)
    case Clear(user) =>
      var ids := IdsFor(h.queue, user);
      h.(queue := Without(h.queue, ids), exits := h.exits + Leave(Only(h.queue, ids), Cleared, user, s.at), now := s.at)
    case DebugRead(id, caller, delete) =>
      if !delete then h.(now := s.at) else
        h.(queue := Without(h.queue, {id}), exits := h.exits + Leave(Only(h.queue, {id}), Destroyed, caller, s.at),
            now := s.at)
  }

  ghost function TheMachine(): Machines.Machine<History, Step> {
    Machines.Machine(START, (h: History, s: Step) => Next(h, s), (h: History, s: Step) => Enabled(h, s))
  }

  ghost function Run(run: seq<Step>, n: nat): History
    requires n <= |run|
  {
    Machines.Run(TheMachine(), run, n)
  }

  ghost predicate Legal(run: seq<Step>) {
    Machines.Legal(TheMachine(), run)
  }

  // ---------- conservation ----------

  /** Every accepted blob is pending or has left, once; nothing else is pending or has left. */
  ghost predicate Conserved(h: History) {
    multiset(h.accepted) == multiset(h.queue) + multiset(Blobs(h.exits))
  }

  ghost predicate Shared(accepted: seq<Blob>, b: Blob) {
    exists i, j :: 0 <= i < j < |accepted| && accepted[i].id == accepted[j].id == b.id
  }

  /** A blob counts as expired when its own deadline has passed, or that of another with the same identifier; it is
      overwritten only by such another. */
  ghost predicate ExitOk(accepted: seq<Blob>, e: Exit) {
    match e.way
    case Delivered => e.who == e.blob.receiver && e.blob.createdAt <= e.at <= e.blob.expiresAt
    case Expired => e.at >= e.blob.expiresAt || (Shared(accepted, e.blob) && Overdue(accepted, e.blob.id, e.at))
    case Cleared => e.who == e.blob.receiver
    case Destroyed => true
    case Overwritten => Shared(accepted, e.blob)
  }

  ghost predicate ExitsOk(h: History) {
    forall e | e in h.exits :: ExitOk(h.accepted, e)
  }

  lemma {:induction false} SharedGrows(accepted: seq<Blob>, more: Blob, b: Blob)
    ensures Shared(accepted, b) ==> Shared(accepted + [more], b)
    ensures b in accepted && more.id == b.id ==> Shared(accepted + [more], b)
  {
    var longer := accepted + [more];
    if Shared(accepted, b) {
      var i, j :| 0 <= i < j < |accepted| && accepted[i].id == accepted[j].id == b.id;
      assert longer[i].id == longer[j].id == b.id;
    }
    if b in accepted && more.id == b.id {
      var i :| 0 <= i < |accepted| && accepted[i] == b;
      assert longer[i].id == longer[|accepted|].id == b.id;
    }
  }

  lemma {:induction false} ExitStaysOk(accepted: seq<Blob>, more: Blob, e: Exit)
    requires ExitOk(accepted, e)
    ensures ExitOk(accepted + [more], e)
  {
    SharedGrows(accepted, more, e.blob);
    if Overdue(accepted, e.blob.id, e.at) {
      var i :| 0 <= i < |accepted| && accepted[i].id == e.blob.id && e.at >= accepted[i].expiresAt;
      assert (accepted + [more])[i].id == e.blob.id && e.at >= (accepted + [more])[i].expiresAt;
    }
  }

  /** The deadline that was reached is the blob's own unless the identifier is shared. */
  lemma {:induction false} OverdueOrShared(accepted: seq<Blob>, b: Blob, at: real)
    requires b in accepted && Overdue(accepted, b.id, at)
    ensures at >= b.expiresAt || Shared(accepted, b)
  {
    var i :| 0 <= i < |accepted| && accepted[i].id == b.id && at >= accepted[i].expiresAt;
    var j :| 0 <= j < |accepted| && accepted[j] == b;
    if i < j {
      assert accepted[i].id == accepted[j].id == b.id;
    } else if j < i {
      assert accepted[j].id == accepted[i].id == b.id;
    }
  }

  lemma {:induction false} WithoutOnly(q: seq<Blob>, ids: set<string>)
    ensures multiset(q) == multiset(Without(q, ids)) + multiset(Only(q, ids))
    ensures forall b | b in Only(q, ids) :: b in q && b.id in ids
  {
    if q != [] {
      WithoutOnly(q[..|q| - 1], ids);
      assert q == q[..|q| - 1] + [q[|q| - 1]];
    }
  }

  lemma {:induction false} DueAndLate(q: seq<Blob>, all: set<string>, r: string, now: real)
    requires forall b | b in q :: b.id in all <==> b.receiver == r
    ensures multiset(Only(q, all)) == multiset(DueFor(q, r, now)) + multiset(LateFor(q, r, now))
    ensures forall b | b in LateFor(q, r, now) :: b in q && b.receiver == r && now > b.expiresAt
  {
    if q != [] {
      assert q == q[..|q| - 1] + [q[|q| - 1]];
      DueAndLate(q[..|q| - 1], all, r, now);
    }
  }

  lemma {:induction false} BlobsOfLeave(exits: seq<Exit>, q: seq<Blob>, way: Way, who: string, at: real)
    ensures Blobs(exits + Leave(q, way, who, at)) == Blobs(exits) + q
  {
  }

  lemma {:induction false} IdsForExact(q: seq<Blob>, r: string)
    requires DistinctIds(q)
    ensures forall b | b in q :: b.id in IdsFor(q, r) <==> b.receiver == r
  {
    forall b | b in q && b.id in IdsFor(q, r)
      ensures b.receiver == r
    {
      var x :| x in q && x.receiver == r && x.id == b.id;
      var i :| 0 <= i < |q| && q[i] == b;
      var j :| 0 <= j < |q| && q[j] == x;
    }
  }

  lemma {:induction false} WithoutDistinct(q: seq<Blob>, ids: set<string>)
    requires DistinctIds(q)
    ensures DistinctIds(Without(q, ids))
  {
    if q != [] {
      WithoutDistinct(q[..|q| - 1], ids);
      WithoutMembers(q[..|q| - 1], ids);
    }
  }

  // ---------- arrival order ----------

  ghost predicate Before(accepted: seq<Blob>, x: Blob, y: Blob) {
    exists i, j :: 0 <= i < j < |accepted| && accepted[i] == x && accepted[j] == y
  }

  ghost predicate Ordered(accepted: seq<Blob>, q: seq<Blob>) {
    forall i, j | 0 <= i < j < |q| :: Before(accepted, q[i], q[j])
  }

  /** Of two blobs handed to the same receiver, the one accepted first was handed over first. */
  ghost predicate InArrivalOrder(h: History) {
    forall i, j | 0 <= i < j < |h.exits| && h.exits[i].way.Delivered? && h.exits[j].way.Delivered? &&
        h.exits[i].who == h.exits[j].who ::
      Before(h.accepted, h.exits[i].blob, h.exits[j].blob)
  }

  lemma {:induction false} BeforeGrows(accepted: seq<Blob>, b: Blob, x: Blob, y: Blob)
    requires Before(accepted, x, y)
    ensures Before(accepted + [b], x, y)
  {
    var i, j :| 0 <= i < j < |accepted| && accepted[i] == x && accepted[j] == y;
    assert (accepted + [b])[i] == x && (accepted + [b])[j] == y;
  }

  lemma {:induction false} BeforeNew(accepted: seq<Blob>, b: Blob, x: Blob)
    requires x in accepted
    ensures Before(accepted + [b], x, b)
  {
    var i :| 0 <= i < |accepted| && accepted[i] == x;
    assert (accepted + [b])[i] == x && (accepted + [b])[|accepted|] == b;
  }

  lemma {:induction false} WithoutOrdered(accepted: seq<Blob>, q: seq<Blob>, ids: set<string>)
    requires Ordered(accepted, q)
    ensures Ordered(accepted, Without(q, ids))
  {
    if q != [] {
      WithoutOrdered(accepted, q[..|q| - 1], ids);
      WithoutMembers(q[..|q| - 1], ids);
    }
  }

  lemma {:induction false} DueForOrdered(accepted: seq<Blob>, q: seq<Blob>, r: string, now: real)
    requires Ordered(accepted, q)
    ensures Ordered(accepted, DueFor(q, r, now))
  {
    if q != [] {
      var rest, last := DueFor(q[..|q| - 1], r, now), q[|q| - 1];
      DueForOrdered(accepted, q[..|q| - 1], r, now);
      DueForMembers(q[..|q| - 1], r, now);
      forall i | 0 <= i < |rest|
        ensures Before(accepted, rest[i], last)
      {
        assert rest[i] in rest;
        var k :| 0 <= k < |q| - 1 && q[k] == rest[i];
        assert Before(accepted, q[k], q[|q| - 1]);
      }
    }
  }

  // ---------- the invariant ----------

  ghost predicate DeliveredAhead(h: History) {
    forall e, b | e in h.exits && e.way.Delivered? && b in h.queue && e.who == b.receiver ::
        Before(h.accepted, e.blob, b)
  }

  ghost predicate Inv(h: History) {
    && Conserved(h)
    && DistinctIds(h.queue)
    && (forall b | b in h.queue :: b.createdAt <= h.now)
    && ExitsOk(h)
  }

  ghost predicate InOrder(h: History) {
    Ordered(h.accepted, h.queue) && InArrivalOrder(h) && DeliveredAhead(h)
  }

  ghost predicate NoneOverwritten(h: History) {
    forall e | e in h.exits :: !e.way.Overwritten?
  }

  lemma {:induction false} InAccepted(h: History)
    requires Conserved(h)
    ensures forall b | b in h.queue :: b in h.accepted
    ensures forall e | e in h.exits :: e.blob in h.accepted
  {
    forall b | b in h.queue
      ensures b in h.accepted
    {
      assert b in multiset(h.queue);
      assert b in multiset(h.accepted);
    }
    forall e | e in h.exits
      ensures e.blob in h.accepted
    {
      var i :| 0 <= i < |h.exits| && h.exits[i] == e;
      assert Blobs(h.exits)[i] == e.blob;
      assert e.blob in multiset(Blobs(h.exits));
      assert e.blob in multiset(h.accepted);
    }
  }

  lemma {:induction false} SubmitKeepsOrder(h: History, h': History, b: Blob)
    requires Conserved(h) && InOrder(h)
    requires h'.exits == h.exits && h'.queue == h.queue + [b] && h'.accepted == h.accepted + [b]
    ensures InOrder(h')
  {
    InAccepted(h);
    forall i, j | 0 <= i < j < |h'.queue|
      ensures Before(h'.accepted, h'.queue[i], h'.queue[j])
    {
      if j < |h.queue| {
        BeforeGrows(h.accepted, b, h.queue[i], h.queue[j]);
      } else {
        BeforeNew(h.accepted, b, h.queue[i]);
      }
    }
    forall i, j | 0 <= i < j < |h.exits| && h.exits[i].way.Delivered? && h.exits[j].way.Delivered? &&
        h.exits[i].who == h.exits[j].who
      ensures Before(h'.accepted, h.exits[i].blob, h.exits[j].blob)
    {
      BeforeGrows(h.accepted, b, h.exits[i].blob, h.exits[j].blob);
    }
    forall e, x | e in h.exits && e.way.Delivered? && x in h'.queue && e.who == x.receiver
      ensures Before(h'.accepted, e.blob, x)
    {
      if x in h.queue {
        BeforeGrows(h.accepted, b, e.blob, x);
      } else {
        BeforeNew(h.accepted, b, e.blob);
      }
    }
  }

  lemma {:induction false} PutNew(q: seq<Blob>, b: Blob)
    requires DistinctIds(q) && forall i | 0 <= i < |q| :: q[i].id != b.id
    ensures Put(q, b) == q + [b] && DistinctIds(Put(q, b)) && Only(q, {b.id}) == []
  {
    PutFresh(q, b);
    OnlyNone(q, b.id);
  }

  lemma {:induction false} PutOver(q: seq<Blob>, b: Blob, i: nat)
    requires DistinctIds(q) && i < |q| && q[i].id == b.id
    ensures DistinctIds(Put(q, b)) && Only(q, {b.id}) == [q[i]]
    ensures multiset(Put(q, b)) + multiset{q[i]} == multiset(q) + multiset{b}
  {
    PutKnown(q, b, i);
    OnlyAt(q, i);
    assert q == q[..i] + [q[i]] + q[i + 1..];
    assert q[i := b] == q[..i] + [b] + q[i + 1..];
  }

  /** One blob takes its place in the queue, and what it overwrites leaves. */
  lemma {:induction false} PutConserves(q: seq<Blob>, b: Blob)
    requires DistinctIds(q)
    ensures DistinctIds(Put(q, b)) && multiset(Put(q, b)) + multiset(Only(q, {b.id})) == multiset(q) + multiset{b}
  {
    if i :| 0 <= i < |q| && q[i].id == b.id {
      PutOver(q, b, i);
    } else {
      PutNew(q, b);
    }
  }

  lemma {:induction false} OnlyAt(q: seq<Blob>, i: nat)
    requires DistinctIds(q) && i < |q|
    ensures Only(q, {q[i].id}) == [q[i]]
  {
    var rest, last := q[..|q| - 1], q[|q| - 1];
    if i < |q| - 1 {
      OnlyAt(rest, i);
    } else {
      OnlyNone(rest, last.id);
    }
  }

  lemma {:induction false} OnlyNone(q: seq<Blob>, id: string)
    requires forall i | 0 <= i < |q| :: q[i].id != id
    ensures Only(q, {id}) == []
  {
    if q != [] {
      OnlyNone(q[..|q| - 1], id);
    }
  }

  lemma {:induction false} PutMembers(q: seq<Blob>, b: Blob)
    ensures forall x | x in Put(q, b) :: x == b || x in q
  {
    if q != [] && q[0].id != b.id {
      PutMembers(q[1..], b);
    }
  }

  lemma {:induction false} SubmitConserves(h: History, s: Step)
    requires Conserved(h) && DistinctIds(h.queue) && s.act.Submit?
    ensures Conserved(Next(h, s)) && DistinctIds(Next(h, s).queue)
  {
    var b, h' := s.act.blob, Next(h, s);
    var gone := Only(h.queue, {b.id});
    PutConserves(h.queue, b);
    BlobsOfLeave(h.exits, gone, Overwritten, "", s.at);
    assert multiset(Blobs(h'.exits)) == multiset(Blobs(h.exits)) + multiset(gone);
    calc {
      multiset(h'.accepted);
      multiset(h.queue) + multiset{b} + multiset(Blobs(h.exits));
      multiset(Put(h.queue, b)) + multiset(gone) + multiset(Blobs(h.exits));
    }
  }

  lemma {:induction false} SubmitExits(h: History, s: Step)
    requires Inv(h) && Enabled(h, s) && s.act.Submit?
    ensures ExitsOk(Next(h, s))
  {
    var b, h' := s.act.blob, Next(h, s);
    var gone := Only(h.queue, {b.id});
    InAccepted(h);
    WithoutOnly(h.queue, {b.id});
    forall e | e in h'.exits
      ensures ExitOk(h'.accepted, e)
    {
      if e in h.exits {
        ExitStaysOk(h.accepted, b, e);
      } else {
        assert e in Leave(gone, Overwritten, "", s.at);
        assert e.blob in gone && e == Exit(e.blob, Overwritten, "", s.at);
        SharedGrows(h.accepted, b, e.blob);
      }
    }
  }

  lemma {:induction false} SubmitKeepsInv(h: History, s: Step)
    requires Inv(h) && Enabled(h, s) && s.act.Submit?
    ensures Inv(Next(h, s))
  {
    PutMembers(h.queue, s.act.blob);
    SubmitConserves(h, s);
    SubmitExits(h, s);
  }

  /** What a removal without any delivery keeps. */
  lemma {:induction false} RemovalKeepsInv(h: History, h': History, ids: set<string>, way: Way, who: string, at: real)
    requires Inv(h) && !way.Delivered? && at >= h.now
    requires h' == h.(queue := Without(h.queue, ids), exits := h.exits + Leave(Only(h.queue, ids), way, who, at),
             now := at)
    requires forall b | b in h.queue && b.id in ids :: ExitOk(h.accepted, Exit(b, way, who, at))
    ensures Inv(h')
  {
    var gone := Only(h.queue, ids);
    WithoutOnly(h.queue, ids);
    WithoutMembers(h.queue, ids);
    WithoutDistinct(h.queue, ids);
    BlobsOfLeave(h.exits, gone, way, who, at);
    assert forall e | e in Leave(gone, way, who, at) :: e.blob in gone && e == Exit(e.blob, way, who, at);
    assert multiset(Blobs(h'.exits)) == multiset(Blobs(h.exits)) + multiset(gone);
  }

  lemma {:induction false} FetchConserves(h: History, s: Step)
    requires Inv(h) && Enabled(h, s) && s.act.Fetch?
    ensures Conserved(Next(h, s)) && ExitsOk(Next(h, s))
  {
    var r, h' := s.act.receiver, Next(h, s);
    var due, late := DueFor(h.queue, r, s.at), LateFor(h.queue, r, s.at);
    var ids := IdsFor(h.queue, r);
    WithoutOnly(h.queue, ids);
    IdsForExact(h.queue, r);
    DueAndLate(h.queue, ids, r, s.at);
    DueForMembers(h.queue, r, s.at);
    var mid := h.exits + Leave(due, Delivered, r, s.at);
    BlobsOfLeave(h.exits, due, Delivered, r, s.at);
    BlobsOfLeave(mid, late, Expired, r, s.at);
    assert multiset(Blobs(h'.exits)) == multiset(Blobs(h.exits)) + multiset(due) + multiset(late);
    forall e | e in h'.exits
      ensures ExitOk(h.accepted, e)
    {
      if e in Leave(due, Delivered, r, s.at) {
        assert e.blob in due && e == Exit(e.blob, Delivered, r, s.at);
      } else if e in Leave(late, Expired, r, s.at) {
        assert e.blob in late && e == Exit(e.blob, Expired, r, s.at);
      }
    }
  }

  /** Handing `due` to r next keeps the arrival order, because everything r got before was accepted before. */
  lemma {:induction false} BatchInOrder(h: History, exits: seq<Exit>, due: seq<Blob>, late: seq<Blob>, r: string,
                                        at: real)
    requires InArrivalOrder(h) && DeliveredAhead(h) && Ordered(h.accepted, due)
    requires forall b | b in due :: b in h.queue && b.receiver == r
    requires exits == h.exits + Leave(due, Delivered, r, at) + Leave(late, Expired, r, at)
    ensures InArrivalOrder(h.(exits := exits))
  {
    var n := |h.exits|;
    forall i, j | 0 <= i < j < |exits| && exits[i].way.Delivered? && exits[j].way.Delivered? &&
        exits[i].who == exits[j].who
      ensures Before(h.accepted, exits[i].blob, exits[j].blob)
    {
      assert j < n + |due|;
      if j < n {
        assert exits[i] == h.exits[i] && exits[j] == h.exits[j];
      } else if i < n {
        assert exits[i] == h.exits[i] && exits[j].blob == due[j - n] && due[j - n] in due;
        assert h.exits[i] in h.exits;
      } else {
        assert exits[i].blob == due[i - n] && exits[j].blob == due[j - n];
      }
    }
  }

  lemma {:induction false} FetchKeepsOrder(h: History, s: Step)
    requires InOrder(h) && s.act.Fetch?
    ensures InOrder(Next(h, s))
  {
    var r, h' := s.act.receiver, Next(h, s);
    var due := DueFor(h.queue, r, s.at);
    DueForMembers(h.queue, r, s.at);
    DueForOrdered(h.accepted, h.queue, r, s.at);
    BatchInOrder(h, h'.exits, due, LateFor(h.queue, r, s.at), r, s.at);
    WithoutMembers(h.queue, IdsFor(h.queue, r));
    WithoutOrdered(h.accepted, h.queue, IdsFor(h.queue, r));
    forall e, b | e in h'.exits && e.way.Delivered? && b in h'.queue && e.who == b.receiver
      ensures Before(h.accepted, e.blob, b)
    {
      assert b in h.queue && b.receiver != r;
      assert e in h.exits;
    }
  }

  /** A removal without any delivery. */
  lemma {:induction false} RemovalKeepsOrder(h: History, h': History, ids: set<string>, way: Way, who: string, at: real)
    requires InOrder(h) && !way.Delivered?
    requires h' == h.(queue := Without(h.queue, ids), exits := h.exits + Leave(Only(h.queue, ids), way, who, at),
             now := at)
    ensures InOrder(h')
  {
    WithoutMembers(h.queue, ids);
    WithoutOrdered(h.accepted, h.queue, ids);
  }

  lemma {:induction false} ScheduledKeepsInv(h: History, s: Step)
    requires Inv(h) && Enabled(h, s) && s.act.DestroyScheduled?
    ensures Inv(Next(h, s))
  {
    var id := s.act.id;
    InAccepted(h);
    forall b | b in h.queue && b.id in {id}
      ensures ExitOk(h.accepted, Exit(b, Expired, "", s.at))
    {
      OverdueOrShared(h.accepted, b, s.at);
    }
    RemovalKeepsInv(h, Next(h, s), {id}, Expired, "", s.at);
  }

  lemma {:induction false} StepKeepsInv(h: History, s: Step)
    requires Inv(h) && Enabled(h, s)
    ensures Inv(Next(h, s))
  {
    var h' := Next(h, s);
    match s.act
    case Submit(_) => SubmitKeepsInv(h, s);
    case Fetch(r) =>
      FetchConserves(h, s);
      WithoutDistinct(h.queue, IdsFor(h.queue, r));
      WithoutMembers(h.queue, IdsFor(h.queue, r));
    case DestroyScheduled(_) => ScheduledKeepsInv(h, s);
    case Clear(user) =>
      IdsForExact(h.queue, user);
      RemovalKeepsInv(h, h', IdsFor(h.queue, user), Cleared, user, s.at);
    case DebugRead(id, caller, delete) =>
      if delete {
        RemovalKeepsInv(h, h', {id}, Destroyed, caller, s.at);
      }
  }

  lemma {:induction false} SubmitOverwrites(h: History, s: Step, i: nat)
    requires DistinctIds(h.queue) && s.act.Submit? && i < |h.queue| && h.queue[i].id == s.act.blob.id
    ensures !NoneOverwritten(Next(h, s))
  {
    OnlyAt(h.queue, i);
    var last := Exit(h.queue[i], Overwritten, "", s.at);
    assert Leave([h.queue[i]], Overwritten, "", s.at) == [last];
    assert last in Next(h, s).exits;
  }

  lemma {:induction false} SubmitFresh(h: History, s: Step)
    requires DistinctIds(h.queue) && s.act.Submit? && NoneOverwritten(Next(h, s))
    ensures Next(h, s).queue == h.queue + [s.act.blob] && Next(h, s).exits == h.exits
  {
    forall i | 0 <= i < |h.queue|
      ensures h.queue[i].id != s.act.blob.id
    {
      if h.queue[i].id == s.act.blob.id {
        SubmitOverwrites(h, s, i);
      }
    }
    PutNew(h.queue, s.act.blob);
  }

  lemma {:induction false} StepKeepsOrder(h: History, s: Step)
    requires Inv(h) && InOrder(h) && NoneOverwritten(Next(h, s))
    ensures InOrder(Next(h, s))
  {
    var h' := Next(h, s);
    match s.act
    case Submit(b) =>
      SubmitFresh(h, s);
      SubmitKeepsOrder(h, h', b);
    case Fetch(_) => FetchKeepsOrder(h, s);
    case DestroyScheduled(id) => RemovalKeepsOrder(h, h', {id}, Expired, "", s.at);
    case Clear(user) => RemovalKeepsOrder(h, h', IdsFor(h.queue, user), Cleared, user, s.at);
    case DebugRead(id, caller, delete) =>
      if delete {
        RemovalKeepsOrder(h, h', {id}, Destroyed, caller, s.at);
      }
  }

  lemma {:induction false} NoneOverwrittenBefore(h: History, s: Step)
    requires NoneOverwritten(Next(h, s))
    ensures NoneOverwritten(h)
  {
    assert h.exits <= Next(h, s).exits;
    forall e | e in h.exits
      ensures e in Next(h, s).exits
    {
    }
  }

  lemma {:induction false} StepKeepsBoth(h: History, s: Step)
    requires Inv(h) && Enabled(h, s) && (NoneOverwritten(h) ==> InOrder(h))
    ensures Inv(Next(h, s)) && (NoneOverwritten(Next(h, s)) ==> InOrder(Next(h, s)))
  {
    StepKeepsInv(h, s);
    if NoneOverwritten(Next(h, s)) {
      NoneOverwrittenBefore(h, s);
      StepKeepsOrder(h, s);
    }
  }

  lemma {:induction false} RunKeepsInv(run: seq<Step>, n: nat)
    requires Legal(run) && n <= |run|
    ensures Inv(Run(run, n)) && (NoneOverwritten(Run(run, n)) ==> InOrder(Run(run, n)))
  {
    if n > 0 {
      RunKeepsInv(run, n - 1);
      StepKeepsBoth(Run(run, n - 1), run[n - 1]);
    }
  }

  // ---------- the theorems ----------

  /** In every run each accepted blob is, as often as it was accepted, either still pending or gone in one way:
      delivered to its receiver in time, expired, cleared by its receiver, destroyed through the debugging endpoint,
      or overwritten by another with its identifier. Nothing that was not submitted is ever pending or gone. */
  lemma {:induction false} EveryBlobAccountedFor(run: seq<Step>, b: Blob)
    requires Legal(run)
    ensures var h := Run(run, |run|);
            multiset(h.queue)[b] + multiset(Blobs(h.exits))[b] == multiset(h.accepted)[b] && ExitsOk(h)
  {
    RunKeepsInv(run, |run|);
  }

  lemma {:induction false} OnceEach(q: seq<Blob>, b: Blob)
    requires DistinctIds(q)
    ensures multiset(q)[b] == if b in q then 1 else 0
  {
    if q != [] {
      var rest := q[..|q| - 1];
      OnceEach(rest, b);
      assert q == rest + [q[|q| - 1]];
    }
  }

  /** Where no two identifiers collide each blob is accounted for exactly once, none is overwritten, and none expires
      before its own deadline. */
  lemma {:induction false} DistinctAccountedFor(run: seq<Step>, b: Blob)
    requires Legal(run) && DistinctIds(Run(run, |run|).accepted)
    ensures var h := Run(run, |run|);
            && multiset(h.queue)[b] + multiset(Blobs(h.exits))[b] == (if b in h.accepted then 1 else 0)
            && NoneOverwritten(h)
            && forall e | e in h.exits && e.way.Expired? :: e.at >= e.blob.expiresAt
  {
    var h := Run(run, |run|);
    EveryBlobAccountedFor(run, b);
    OnceEach(h.accepted, b);
    forall e | e in h.exits
      ensures !Shared(h.accepted, e.blob) && ExitOk(h.accepted, e)
    {
    }
  }

  /** In a run in which no blob is overwritten, blobs for the same receiver are handed over in the order in which they
      were accepted. */
  lemma {:induction false} DeliveredInArrivalOrder(run: seq<Step>)
    requires Legal(run) && NoneOverwritten(Run(run, |run|))
    ensures InArrivalOrder(Run(run, |run|))
  {
    RunKeepsInv(run, |run|);
  }

  /** A fetch leaves nothing of its receiver behind and delivers everything of theirs that is still in time. */
  lemma {:induction false} FetchTakesAll(run: seq<Step>, n: nat, b: Blob)
    requires Legal(run) && n < |run| && run[n].act.Fetch? && b in Run(run, n).queue && b.receiver == run[n].act.receiver
    ensures b !in Run(run, n + 1).queue
    ensures run[n].at <= b.expiresAt ==> Exit(b, Delivered, b.receiver, run[n].at) in Run(run, n + 1).exits
  {
    var h, r := Run(run, n), run[n].act.receiver;
    WithoutMembers(h.queue, IdsFor(h.queue, r));
    DueForMembers(h.queue, r, run[n].at);
    var due := DueFor(h.queue, r, run[n].at);
    if run[n].at <= b.expiresAt {
      var i :| 0 <= i < |due| && due[i] == b;
      assert Leave(due, Delivered, r, run[n].at)[i] == Exit(b, Delivered, r, run[n].at);
    }
  }
}
