/** Over whole runs of the relay queue: what receivers actually get, and what each step moves. */
module RelayReceipts {
  import opened Common
  import opened BlindRelay
  import opened RelayHistory
  import Machines

  /** Everything that fetches have handed to r, in the order in which they did. */
  function ReceivedBy(handed: seq<Handed>, r: string): seq<Delivery> {
    if handed == [] then [] else
      var rest, last := ReceivedBy(handed[..|handed| - 1], r), handed[|handed| - 1];
      if last.receiver == r then rest + [last.what] else rest
  }

  /** The blobs that have left the queue for r. */
  function LeftFor(exits: seq<Exit>, r: string): seq<Blob> {
    if exits == [] then [] else
      var rest, last := LeftFor(exits[..|exits| - 1], r), exits[|exits| - 1];
      if last.way.Delivered? && last.who == r then rest + [last.blob] else rest
  }

  lemma {:induction false} ReceivedOfHandOut(handed: seq<Handed>, given: seq<Delivery>, to: string, r: string)
    ensures ReceivedBy(handed + HandOut(given, to), r) == ReceivedBy(handed, r) + if to == r then given else []
  {
    if given == [] {
      assert handed + HandOut(given, to) == handed;
    } else {
      var n := |given| - 1;
      var longer := handed + HandOut(given, to);
      ReceivedOfHandOut(handed, given[..n], to, r);
      assert longer[..|longer| - 1] == handed + HandOut(given[..n], to);
      assert longer[|longer| - 1] == Handed(to, given[n]) && given == given[..n] + [given[n]];
    }
  }

  lemma {:induction false} LeftOfLeave(exits: seq<Exit>, q: seq<Blob>, way: Way, who: string, at: real, r: string)
    ensures LeftFor(exits + Leave(q, way, who, at), r) ==
            LeftFor(exits, r) + if way.Delivered? && who == r then q else []
  {
    if q == [] {
      assert exits + Leave(q, way, who, at) == exits;
    } else {
      var n := |q| - 1;
      var longer := exits + Leave(q, way, who, at);
      LeftOfLeave(exits, q[..n], way, who, at, r);
      assert longer[..|longer| - 1] == exits + Leave(q[..n], way, who, at);
      assert longer[|longer| - 1] == Exit(q[n], way, who, at) && q == q[..n] + [q[n]];
    }
  }

  lemma {:induction false} StepKeepsContent(h: History, s: Step, r: string)
    requires Carry(ReceivedBy(h.handed, r), LeftFor(h.exits, r))
    ensures Carry(ReceivedBy(Next(h, s).handed, r), LeftFor(Next(h, s).exits, r))
  {
    match s.act
    case Submit(b) => LeftOfLeave(h.exits, Only(h.queue, {b.id}), Overwritten, "", s.at, r);
    case Fetch(to) =>
      var due, late := DueFor(h.queue, to, s.at), LateFor(h.queue, to, s.at);
      LeftOfLeave(h.exits, due, Delivered, to, s.at, r);
      LeftOfLeave(h.exits + Leave(due, Delivered, to, s.at), late, Expired, to, s.at, r);
      ReceivedOfHandOut(h.handed, AsDeliveries(due), to, r);
      DeliveriesCarry(due);
    case DestroyScheduled(id) => LeftOfLeave(h.exits, Only(h.queue, {id}), Expired, "", s.at, r);
    case Clear(user) => LeftOfLeave(h.exits, Only(h.queue, IdsFor(h.queue, user)), Cleared, user, s.at, r);
    case DebugRead(id, caller, delete) => LeftOfLeave(h.exits, Only(h.queue, {id}), Destroyed, caller, s.at, r);
  }

  lemma {:induction false} RunKeepsContent(run: seq<Step>, n: nat, r: string)
    requires n <= |run|
    ensures Carry(ReceivedBy(Run(run, n).handed, r), LeftFor(Run(run, n).exits, r))
  {
    if n > 0 {
      RunKeepsContent(run, n - 1, r);
      StepKeepsContent(Run(run, n - 1), run[n - 1], r);
    }
  }

  lemma {:induction false} LeftForFrom(exits: seq<Exit>, r: string, k: nat) returns (e: Exit)
    requires k < |LeftFor(exits, r)|
    ensures e in exits && e.way.Delivered? && e.who == r && e.blob == LeftFor(exits, r)[k]
  {
    var rest := LeftFor(exits[..|exits| - 1], r);
    if k < |rest| {
      e := LeftForFrom(exits[..|exits| - 1], r, k);
    } else {
      e := exits[|exits| - 1];
    }
  }

  lemma {:induction false} SubmittedIn(run: seq<Step>, n: nat, b: Blob) returns (i: nat)
    requires Legal(run) && n <= |run| && b in Run(run, n).accepted
    ensures i < n && run[i].act == Submit(b) && b.createdAt == run[i].at
  {
    Machines.StepOfRun(TheMachine(), run, n);
    if run[n - 1].act == Submit(b) {
      i := n - 1;
    } else {
      i := SubmittedIn(run, n - 1, b);
    }
  }

  /** The k-th thing a receiver is handed is a blob that some step submitted for that receiver: the same identifier,
      sender, bytes and time. It is the k-th blob to leave the queue for that receiver, and leaves it in time. */
  lemma {:induction false} ReceivedWasSubmitted(run: seq<Step>, r: string, k: nat) returns (e: Exit, i: nat)
    requires Legal(run) && k < |ReceivedBy(Run(run, |run|).handed, r)|
    ensures var h := Run(run, |run|);
            var got, b := ReceivedBy(h.handed, r)[k], e.blob;
            && k < |LeftFor(h.exits, r)| && b == LeftFor(h.exits, r)[k]
            && i < |run| && run[i].act == Submit(b) && b.createdAt == run[i].at
            && got.id == b.id && got.sender == b.sender && got.data == b.data && got.createdAt == b.createdAt
            && b.receiver == r && e in h.exits && e.way.Delivered? && e.at <= b.expiresAt
  {
    RunKeepsInv(run, |run|);
    RunKeepsContent(run, |run|, r);
    InAccepted(Run(run, |run|));
    e := LeftForFrom(Run(run, |run|).exits, r, k);
    i := SubmittedIn(run, |run|, e.blob);
  }

  /** A blob that a fetch finds in the queue in time is among what its receiver has been handed after it. */
  lemma {:induction false} FetchedIsReceived(run: seq<Step>, n: nat, b: Blob) returns (k: nat)
    requires Legal(run) && n < |run| && run[n].act.Fetch? && b in Run(run, n).queue
    requires b.receiver == run[n].act.receiver && run[n].at <= b.expiresAt
    ensures var got := ReceivedBy(Run(run, n + 1).handed, b.receiver);
            && k < |got| && k >= |ReceivedBy(Run(run, n).handed, b.receiver)|
            && got[k].id == b.id && got[k].sender == b.sender && got[k].data == b.data
            && got[k].createdAt == b.createdAt
  {
    var h, r := Run(run, n), b.receiver;
    var due := DueFor(h.queue, r, run[n].at);
    DueForMembers(h.queue, r, run[n].at);
    var i :| 0 <= i < |due| && due[i] == b;
    ReceivedOfHandOut(h.handed, AsDeliveries(due), r, r);
    DeliveriesCarry(due);
    k := |ReceivedBy(h.handed, r)| + i;
  }

  // ---------- what each step moves ----------

  /** How a step makes a waiting blob leave, if it does. */
  function LeavesBy(s: Step, b: Blob): Option<Way> {
    match s.act
    case Submit(x) => if x.id == b.id then Some(Overwritten) else None
    case Fetch(r) => if r != b.receiver then None else if s.at <= b.expiresAt then Some(Delivered) else Some(Expired)
    case DestroyScheduled(id) => if id == b.id then Some(Expired) else None
    case Clear(user) => if user == b.receiver then Some(Cleared) else None
    case DebugRead(id, caller, delete) => if delete && id == b.id then Some(Destroyed) else None
  }

  lemma {:induction false} InLeave(q: seq<Blob>, way: Way, who: string, at: real, b: Blob)
    requires b in q
    ensures Exit(b, way, who, at) in Leave(q, way, who, at)
  {
    var i :| 0 <= i < |q| && q[i] == b;
    assert Leave(q, way, who, at)[i] == Exit(b, way, who, at);
  }

  lemma {:induction false} OnlyMembers(q: seq<Blob>, ids: set<string>)
    ensures forall b :: b in Only(q, ids) <==> b in q && b.id in ids
  {
    if q != [] {
      OnlyMembers(q[..|q| - 1], ids);
      assert q == q[..|q| - 1] + [q[|q| - 1]];
    }
  }

  lemma {:induction false} LateForMembers(q: seq<Blob>, r: string, now: real)
    ensures forall b :: b in LateFor(q, r, now) <==> b in q && b.receiver == r && now > b.expiresAt
  {
    if q != [] {
      LateForMembers(q[..|q| - 1], r, now);
      assert q == q[..|q| - 1] + [q[|q| - 1]];
    }
  }

  lemma {:induction false} PutHolds(q: seq<Blob>, b: Blob)
    requires DistinctIds(q)
    ensures forall x :: x in Put(q, b) <==> x == b || (x in q && x.id != b.id)
  {
    if i :| 0 <= i < |q| && q[i].id == b.id {
      PutKnown(q, b, i);
      assert forall k | 0 <= k < |q| && k != i :: Put(q, b)[k] == q[k] && q[k].id != b.id;
      assert Put(q, b)[i] == b;
    } else {
      PutFresh(q, b);
    }
  }

  /** A waiting blob leaves at a step exactly when the step is one that concerns it, and then in the way that step has:
      fetched or cleared by its receiver, destroyed or overwritten by its identifier. A submission waits in the queue
      and counts as accepted. */
  lemma {:induction false} StepMoves(run: seq<Step>, n: nat, b: Blob)
    requires Legal(run) && n < |run|
    ensures var h, h', s := Run(run, n), Run(run, n + 1), run[n];
            && (b in h'.queue <==> s.act == Submit(b) || (b in h.queue && LeavesBy(s, b).None?))
            && (b in h.queue && LeavesBy(s, b).Some? ==>
                  exists e :: e in h'.exits && e.blob == b && e.way == LeavesBy(s, b).value && e.at == s.at)
            && (s.act == Submit(b) ==> h'.accepted == h.accepted + [b])
            && (!s.act.Submit? ==> h'.accepted == h.accepted)
  {
    var h, s := Run(run, n), run[n];
    RunKeepsInv(run, n);
    Machines.StepOfRun(TheMachine(), run, n + 1);
    MembersAfter(h, s, b);
    if b in h.queue && LeavesBy(s, b).Some? {
      var e := ExitOf(h, s, b);
    }
  }

  lemma {:induction false} MembersAfter(h: History, s: Step, b: Blob)
    requires DistinctIds(h.queue)
    ensures b in Next(h, s).queue <==> s.act == Submit(b) || (b in h.queue && LeavesBy(s, b).None?)
  {
    match s.act
    case Submit(x) => PutHolds(h.queue, x);
    case Fetch(r) =>
      WithoutMembers(h.queue, IdsFor(h.queue, r));
      IdsForExact(h.queue, r);
    case DestroyScheduled(id) => WithoutMembers(h.queue, {id});
    case Clear(user) =>
      WithoutMembers(h.queue, IdsFor(h.queue, user));
      IdsForExact(h.queue, user);
    case DebugRead(id, caller, delete) => WithoutMembers(h.queue, {id});
  }

  lemma {:induction false} ExitOf(h: History, s: Step, b: Blob) returns (e: Exit)
    requires DistinctIds(h.queue) && b in h.queue && LeavesBy(s, b).Some?
    ensures e in Next(h, s).exits && e.blob == b && e.way == LeavesBy(s, b).value && e.at == s.at
  {
    match s.act
    case Submit(x) =>
      OnlyMembers(h.queue, {x.id});
      InLeave(Only(h.queue, {x.id}), Overwritten, "", s.at, b);
      e := Exit(b, Overwritten, "", s.at);
    case Fetch(r) =>
      var due, late := DueFor(h.queue, r, s.at), LateFor(h.queue, r, s.at);
      DueForMembers(h.queue, r, s.at);
      LateForMembers(h.queue, r, s.at);
      e := Exit(b, LeavesBy(s, b).value, r, s.at);
      InLeave(if b in due then due else late, e.way, r, s.at, b);
    case DestroyScheduled(id) =>
      OnlyMembers(h.queue, {id});
      InLeave(Only(h.queue, {id}), Expired, "", s.at, b);
      e := Exit(b, Expired, "", s.at);
    case Clear(user) =>
      var ids := IdsFor(h.queue, user);
      IdsForExact(h.queue, user);
      OnlyMembers(h.queue, ids);
      InLeave(Only(h.queue, ids), Cleared, user, s.at, b);
      e := Exit(b, Cleared, user, s.at);
    case DebugRead(id, caller, delete) =>
      OnlyMembers(h.queue, {id});
      InLeave(Only(h.queue, {id}), Destroyed, caller, s.at, b);
      e := Exit(b, Destroyed, caller, s.at);
  }

  // ---------- every way out is taken ----------

  function Leaving(b: Blob, way: Way): Action {
    match way
    case Delivered => Fetch(b.receiver)
    case Expired => DestroyScheduled(b.id)
    case Cleared => Clear(b.receiver)
    case Destroyed => DebugRead(b.id, "", true)
    case Overwritten => Submit(b)
  }

  lemma {:induction false} FirstSubmission(b: Blob)
    requires b.createdAt >= 0.0
    ensures var s := Step(b.createdAt, Submit(b));
            Enabled(START, s) && Next(START, s) == History([b], [b], [], [], b.createdAt)
  {
  }

  lemma {:induction false} LeavingPossible(h: History, b: Blob, way: Way)
    requires h.queue == [b] && h.accepted == [b] && h.now == b.createdAt <= b.expiresAt
    ensures Enabled(h, Step(if way == Expired then b.expiresAt else b.createdAt, Leaving(b, way)))
    ensures LeavesBy(Step(if way == Expired then b.expiresAt else b.createdAt, Leaving(b, way)), b) == Some(way)
  {
    assert h.accepted[0].id == b.id;
  }

  lemma {:induction false} TwoSteps(first: Step, h: History, last: Step)
    requires Enabled(START, first) && Next(START, first) == h && Enabled(h, last)
    ensures Legal([first, last]) && Run([first, last], 2) == Next(h, last)
  {
    Machines.Two(TheMachine(), first, h, last, Next(h, last));
  }

  /** Any blob may leave in any of the five ways: expired at its deadline, in every other way at the very moment of its
      submission. */
  lemma {:induction false} EveryWayOccurs(b: Blob, way: Way) returns (run: seq<Step>, e: Exit)
    requires 0.0 <= b.createdAt <= b.expiresAt
    ensures var at := if way == Expired then b.expiresAt else b.createdAt;
            && run == [Step(b.createdAt, Submit(b)), Step(at, Leaving(b, way))] && Legal(run)
            && e in Run(run, 2).exits && e.blob == b && e.way == way && e.at == at
  {
    var first := Step(b.createdAt, Submit(b));
    var last := Step(if way == Expired then b.expiresAt else b.createdAt, Leaving(b, way));
    var h := History([b], [b], [], [], b.createdAt);
    FirstSubmission(b);
    LeavingPossible(h, b, way);
    TwoSteps(first, h, last);
    e := ExitOf(h, last, b);
    run := [first, last];
  }
}
