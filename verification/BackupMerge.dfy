/** The backup manager's side of multi-device state: comparing clocks, merging maps by last write, and resolving a
    local state against a downloaded one. */
module BackupMerge {
  import opened Common
  import opened VectorClock

  /** A stored item; an entry may also hold no item at all. */
  datatype Slot = Null | Item(timestamp: Option<nat>, body: string)

  type Collection = map<string, Slot>

  datatype State = State(
    contacts: Option<Collection>, groups: Option<Collection>, sharedKeys: Option<Collection>,
    images: Option<Collection>, audio: Option<Collection>,
    vectorClock: Option<Clock>, timestamp: nat, version: string, other: map<string, string>)

  datatype Part = Contacts | Groups | SharedKeys | Images | Audio

  datatype Action = KeepLocal | UploadLocal | UseRemote | Merged

  datatype Resolution = Resolution(action: Action, state: Option<State>)

  // ---------- clocks ----------

  method CompareClocks(a: Option<Clock>, b: Option<Clock>) returns (order: Order)
    ensures order == OrderOf(OrEmpty(a), OrEmpty(b))
    ensures var ca, cb := if a.Some? then a.value else map[], if b.Some? then b.value else map[];
            var aLeads := exists k :: k in ca && ca[k] > (if k in cb then cb[k] else 0);
            var bLeads := exists k :: k in cb && cb[k] > (if k in ca then ca[k] else 0);
            && (order == Equal <==> !aLeads && !bLeads) && (order == After <==> aLeads && !bLeads)
            && (order == Before <==> !aLeads && bLeads) && (order == Concurrent <==> aLeads && bLeads)
  {
    var ca, cb := OrEmpty(a), OrEmpty(b);
    var allKeys := ca.Keys + cb.Keys;
    var aLeads, bLeads := false, false;
    while allKeys != {}
      invariant allKeys <= ca.Keys + cb.Keys
      invariant aLeads <==> exists k :: k !in allKeys && At(ca, k) > At(cb, k)
      invariant bLeads <==> exists k :: k !in allKeys && At(cb, k) > At(ca, k)
      decreases allKeys
    {
      var k :| k in allKeys;
      var va, vb := At(ca, k), At(cb, k);
      if va > vb {
        aLeads := true;
      }
      if vb > va {
        bLeads := true;
      }
      allKeys := allKeys - {k};
    }
    assert aLeads <==> exists k :: k in ca && At(ca, k) > At(cb, k);
    assert bLeads <==> exists k :: k in cb && At(cb, k) > At(ca, k);
    order := if !aLeads && !bLeads then Equal else if aLeads && !bLeads then After
             else if !aLeads && bLeads then Before else Concurrent;
  }

  method MergeClocks(a: Option<Clock>, b: Option<Clock>) returns (merged: Clock)
    ensures merged == Join(OrEmpty(a), OrEmpty(b))
    ensures var ca, cb := if a.Some? then a.value else map[], if b.Some? then b.value else map[];
            && merged.Keys == ca.Keys + cb.Keys
            && (forall k | k in ca :: merged[k] == if k in cb && cb[k] > ca[k] then cb[k] else ca[k])
            && (forall k | k in cb && k !in ca :: merged[k] == cb[k])
  {
    var ca, cb := OrEmpty(a), OrEmpty(b);
    var allKeys := ca.Keys + cb.Keys;
    merged := map[];
    while allKeys != {}
      invariant allKeys <= ca.Keys + cb.Keys
      invariant merged.Keys == ca.Keys + cb.Keys - allKeys
      invariant forall k | k in merged :: merged[k] == Max(At(ca, k), At(cb, k))
      decreases allKeys
    {
      var k :| k in allKeys;
      merged := merged[k := Max(At(ca, k), At(cb, k))];
      allKeys := allKeys - {k};
    }
  }

  /** The stored clock of this device. */
  class ClockStore {
    var stored: Option<Clock>
    const deviceId: string

    constructor (deviceId: string)
      ensures stored == None && this.deviceId == deviceId
    {
      stored := None;
      this.deviceId := deviceId;
    }

    method IncrementClock() returns (clock: Clock)
      modifies this`stored
      ensures clock == Bump(OrEmpty(old(stored)), deviceId) && stored == Some(clock)
      ensures var before := if old(stored).Some? then old(stored).value else map[];
              && clock.Keys == before.Keys + {deviceId}
              && clock[deviceId] == (if deviceId in before then before[deviceId] else 0) + 1
              && forall k | k in before && k != deviceId :: clock[k] == before[k]
    {
      clock := OrEmpty(stored);
      clock := clock[deviceId := At(clock, deviceId) + 1];
      stored := Some(clock);
    }
  }

  // ---------- last write wins ----------

  function Stamp(s: Slot): nat {
    if s.Item? && s.timestamp.Some? then s.timestamp.value else 0
  }

  predicate Replaces(local: Slot, remote: Slot) {
    local.Null? || Stamp(remote) > Stamp(local)
  }

  function Lww(local: Collection, remote: Collection): Collection {
    map id | id in local.Keys + remote.Keys ::
      if id !in local then remote[id]
      else if id in remote && Replaces(local[id], remote[id]) then remote[id]
      else local[id]
  }

  method MergeMapsLww(localMap: Option<Collection>, remoteMap: Option<Collection>) returns (merged: Collection)
    ensures merged == Lww(OrEmpty(localMap), OrEmpty(remoteMap))
    ensures var l, r := if localMap.Some? then localMap.value else map[],
                if remoteMap.Some? then remoteMap.value else map[];
            && merged.Keys == l.Keys + r.Keys
            && (forall id | id in l && id !in r :: merged[id] == l[id])
            && (forall id | id in r && id !in l :: merged[id] == r[id])
            && (forall id | id in l && id in r && l[id].Null? :: merged[id] == r[id])
            && (forall id | id in l && id in r && l[id].Item? ::
                  var localAt := if l[id].timestamp.Some? then l[id].timestamp.value else 0;
                  var newer := r[id].Item? && r[id].timestamp.Some? && r[id].timestamp.value > localAt;
                  merged[id] == if newer then r[id] else l[id])
  {
    if localMap.None? && remoteMap.None? {
      return map[];
    }
    if localMap.None? {
      return remoteMap.value;
    }
    if remoteMap.None? {
      return localMap.value;
    }
    merged := localMap.value;
    var entries := remoteMap.value.Keys;
    while entries != {}
      invariant entries <= remoteMap.value.Keys
      invariant merged.Keys == localMap.value.Keys + (remoteMap.value.Keys - entries)
      invariant forall id | id in merged ::
                  merged[id] == if id in entries then localMap.value[id] else Lww(localMap.value, remoteMap.value)[id]
      decreases entries
    {
      var id :| id in entries;
      var remoteItem := remoteMap.value[id];
      if id !in merged || merged[id].Null? || Stamp(remoteItem) > Stamp(merged[id]) {
        merged := merged[id := remoteItem];
      }
      entries := entries - {id};
    }
  }

  function PartOf(s: State, p: Part): Option<Collection> {
    match p
    case Contacts => s.contacts
    case Groups => s.groups
    case SharedKeys => s.sharedKeys
    case Images => s.images
    case Audio => s.audio
  }

  function Content(s: State, p: Part): Collection {
    OrEmpty(PartOf(s, p))
  }

  function ClockOf(s: State): Clock {
    OrEmpty(s.vectorClock)
  }

  function MergeStates(local: State, remote: State): State {
    State(Some(Lww(OrEmpty(local.contacts), OrEmpty(remote.contacts))),
          Some(Lww(OrEmpty(local.groups), OrEmpty(remote.groups))),
          Some(Lww(OrEmpty(local.sharedKeys), OrEmpty(remote.sharedKeys))),
          Some(Lww(OrEmpty(local.images), OrEmpty(remote.images))),
          Some(Lww(OrEmpty(local.audio), OrEmpty(remote.audio))),
          Some(Join(ClockOf(local), ClockOf(remote))),
          Max(local.timestamp, remote.timestamp), "7.2", local.other)
  }

  // ---------- resolving ----------

  function ClockOfOpt(s: Option<State>): Clock {
    if s.Some? then ClockOf(s.value) else map[]
  }

  /** Either state may be missing altogether; a merge never meets a missing one. */
  method ResolveConflict(localState: Option<State>, remoteState: Option<State>) returns (r: Resolution)
    ensures OrderOf(ClockOfOpt(localState), ClockOfOpt(remoteState)) == Equal ==> r == Resolution(KeepLocal, localState)
    ensures OrderOf(ClockOfOpt(localState), ClockOfOpt(remoteState)) == After ==>
            r == Resolution(UploadLocal, localState)
    ensures OrderOf(ClockOfOpt(localState), ClockOfOpt(remoteState)) == Before ==>
            r == Resolution(UseRemote, remoteState)
    ensures OrderOf(ClockOfOpt(localState), ClockOfOpt(remoteState)) == Concurrent ==>
              localState.Some? && remoteState.Some? &&
              r == Resolution(Merged, Some(MergeStates(localState.value, remoteState.value)))
    ensures forall k :: At(ClockOfOpt(r.state), k) == At(Join(ClockOfOpt(localState), ClockOfOpt(remoteState)), k)
  {
    var comparison := CompareClocks(Some(ClockOfOpt(localState)), Some(ClockOfOpt(remoteState)));
    match comparison {
      case Equal => r := Resolution(KeepLocal, localState);
      case After => r := Resolution(UploadLocal, localState);
      case Before => r := Resolution(UseRemote, remoteState);
      case Concurrent => r := Resolution(Merged, Some(MergeStates(localState.value, remoteState.value)));
    }
  }

  // ---------- families of states, merged in any grouping ----------

  datatype Tree = Leaf(state: State) | Node(left: Tree, right: Tree)

  function Eval(t: Tree): State {
    match t
    case Leaf(s) => s
    case Node(l, r) => MergeStates(Eval(l), Eval(r))
  }

  function Leaves(t: Tree): (s: seq<State>)
    ensures |s| > 0
  {
    match t
    case Leaf(s) => [s]
    case Node(l, r) => Leaves(l) + Leaves(r)
  }

  /** How strongly a slot holds its place: an empty one yields to anything. */
  function Weight(s: Slot): int {
    if s.Null? then -1 else Stamp(s)
  }

  function Lookup(c: Collection, id: string): Option<Slot> {
    if id in c then Some(c[id]) else None
  }

  /** The meeting of two optional slots: the later one takes over only when it is strictly newer. */
  function Beat(x: Option<Slot>, y: Option<Slot>): Option<Slot> {
    if x.None? then y else if y.None? then x else if Weight(y.value) > Weight(x.value) then y else x
  }

  ghost function Newest(ss: seq<State>, p: Part, id: string): Option<Slot> {
    if ss == [] then None else Beat(Newest(ss[..|ss| - 1], p, id), Lookup(Content(ss[|ss| - 1], p), id))
  }

  lemma {:induction false} LwwAt(a: Collection, b: Collection, id: string)
    ensures Lookup(Lww(a, b), id) == Beat(Lookup(a, id), Lookup(b, id))
  {
  }

  lemma {:induction false} MergedAt(local: State, remote: State, p: Part, id: string)
    ensures Lookup(Content(MergeStates(local, remote), p), id) ==
            Beat(Lookup(Content(local, p), id), Lookup(Content(remote, p), id))
  {
    LwwAt(Content(local, p), Content(remote, p), id);
  }

  lemma {:induction false} NewestOfConcat(l: seq<State>, r: seq<State>, p: Part, id: string)
    ensures Newest(l + r, p, id) == Beat(Newest(l, p, id), Newest(r, p, id))
  {
    if r == [] {
      assert l + r == l;
    } else {
      NewestOfConcat(l, r[..|r| - 1], p, id);
      assert (l + r)[..|l + r| - 1] == l + r[..|r| - 1];
    }
  }

  lemma {:induction false} EvalHoldsNewest(t: Tree, p: Part, id: string)
    ensures Lookup(Content(Eval(t), p), id) == Newest(Leaves(t), p, id)
  {
    match t
    case Leaf(s) =>
      assert Newest([], p, id) == None && [s][..0] == [];
    case Node(l, r) =>
      EvalHoldsNewest(l, p, id);
      EvalHoldsNewest(r, p, id);
      NewestOfConcat(Leaves(l), Leaves(r), p, id);
      MergedAt(Eval(l), Eval(r), p, id);
  }

  /** State i holds the newest item for id, and no state to its left holds one as new. */
  ghost predicate Wins(ss: seq<State>, p: Part, id: string, i: nat) {
    && i < |ss|
    && Lookup(Content(ss[i], p), id).Some?
    && forall j | 0 <= j < |ss| && Lookup(Content(ss[j], p), id).Some? ::
         && Weight(Content(ss[j], p)[id]) <= Weight(Content(ss[i], p)[id])
         && (j < i ==> Weight(Content(ss[j], p)[id]) < Weight(Content(ss[i], p)[id]))
  }

  lemma {:induction false} NewestWins(ss: seq<State>, p: Part, id: string) returns (i: nat)
    ensures Newest(ss, p, id).None? ==> forall j | 0 <= j < |ss| :: id !in Content(ss[j], p)
    ensures Newest(ss, p, id).Some? ==> Wins(ss, p, id, i) && Newest(ss, p, id).value == Content(ss[i], p)[id]
  {
    i := 0;
    if ss != [] {
      var n := |ss| - 1;
      var rest := ss[..n];
      i := NewestWins(rest, p, id);
      assert forall j | 0 <= j < n :: ss[j] == rest[j];
      if Newest(ss, p, id) != Newest(rest, p, id) {
        i := n;
      }
    }
  }

  /** However a family is grouped, each part of the merged state holds exactly the ids any member holds, and for each
      id the newest item, the leftmost one among equals. */
  lemma {:induction false} LeftmostNewestWins(t: Tree, p: Part, id: string) returns (i: nat)
    ensures id !in Content(Eval(t), p) ==> forall j | 0 <= j < |Leaves(t)| :: id !in Content(Leaves(t)[j], p)
    ensures id in Content(Eval(t), p) ==>
              Wins(Leaves(t), p, id, i) && Content(Eval(t), p)[id] == Content(Leaves(t)[i], p)[id]
  {
    EvalHoldsNewest(t, p, id);
    i := NewestWins(Leaves(t), p, id);
  }

  /** The same by timestamps alone: what is kept comes from the i-th state, no other state's item is newer, those
      further left are strictly older, and a missing timestamp is as old as can be. */
  lemma {:induction false} LatestByTimestamp(t: Tree, p: Part, id: string) returns (i: nat)
    requires id in Content(Eval(t), p)
    ensures var ss, kept := Leaves(t), Content(Eval(t), p)[id];
            && i < |ss| && id in Content(ss[i], p) && kept == Content(ss[i], p)[id]
            && forall j | 0 <= j < |ss| && id in Content(ss[j], p) ::
                 var mine := Content(ss[j], p)[id];
                 var keptAt := if kept.Item? && kept.timestamp.Some? then kept.timestamp.value else 0;
                 && (mine.Item? ==> kept.Item? && keptAt >= (if mine.timestamp.Some? then mine.timestamp.value else 0))
                 && (j < i ==> kept.Item?)
                 && (j < i && mine.Item? ==> keptAt > (if mine.timestamp.Some? then mine.timestamp.value else 0))
  {
    i := LeftmostNewestWins(t, p, id);
  }

  /** The merged clock counts, for each device, as far as any member has counted, and mentions no other device. */
  lemma {:induction false} ClockIsMaximum(t: Tree, k: string)
    ensures forall s | s in Leaves(t) :: At(ClockOf(s), k) <= At(ClockOf(Eval(t)), k)
    ensures exists s :: s in Leaves(t) && At(ClockOf(s), k) == At(ClockOf(Eval(t)), k)
    ensures k in ClockOf(Eval(t)) <==> exists s :: s in Leaves(t) && k in ClockOf(s)
  {
    match t
    case Leaf(s) =>
      assert s in Leaves(t);
    case Node(l, r) =>
      ClockIsMaximum(l, k);
      ClockIsMaximum(r, k);
      var a :| a in Leaves(l) && At(ClockOf(a), k) == At(ClockOf(Eval(l)), k);
      var b :| b in Leaves(r) && At(ClockOf(b), k) == At(ClockOf(Eval(r)), k);
      assert a in Leaves(t) && b in Leaves(t);
      if k in ClockOf(Eval(l)) {
        var c :| c in Leaves(l) && k in ClockOf(c);
        assert c in Leaves(t);
      }
      if k in ClockOf(Eval(r)) {
        var c :| c in Leaves(r) && k in ClockOf(c);
        assert c in Leaves(t);
      }
  }

  lemma {:induction false} LargestTimestamp(t: Tree)
    ensures forall s | s in Leaves(t) :: s.timestamp <= Eval(t).timestamp
    ensures exists s :: s in Leaves(t) && s.timestamp == Eval(t).timestamp
  {
    match t
    case Leaf(s) =>
      assert s in Leaves(t);
    case Node(l, r) =>
      LargestTimestamp(l);
      LargestTimestamp(r);
      var a :| a in Leaves(l) && a.timestamp == Eval(l).timestamp;
      var b :| b in Leaves(r) && b.timestamp == Eval(r).timestamp;
      assert a in Leaves(t) && b in Leaves(t);
  }

  ghost predicate SameMembers(t: Tree, u: Tree) {
    forall s :: s in Leaves(t) <==> s in Leaves(u)
  }

  /** Two different items that compete for one id never carry the same weight. */
  ghost predicate NoTies(t: Tree) {
    forall s1, s2, p, id | s1 in Leaves(t) && s2 in Leaves(t) && id in Content(s1, p) && id in Content(s2, p) &&
      Weight(Content(s1, p)[id]) == Weight(Content(s2, p)[id]) :: Content(s1, p)[id] == Content(s2, p)[id]
  }

  /** Regrouping alone never matters, ties or not: the same states in the same order give the same result. */
  lemma {:induction false} RegroupingIrrelevant(t: Tree, u: Tree, p: Part)
    requires Leaves(t) == Leaves(u)
    ensures Content(Eval(t), p) == Content(Eval(u), p) && ClockOf(Eval(t)) == ClockOf(Eval(u))
  {
    var a, b := Content(Eval(t), p), Content(Eval(u), p);
    forall id
      ensures Lookup(a, id) == Lookup(b, id)
    {
      EvalHoldsNewest(t, p, id);
      EvalHoldsNewest(u, p, id);
    }
    SameByLookup(a, b);
    ClocksConverge(t, u);
  }

  lemma {:induction false} SameByLookup(a: Collection, b: Collection)
    requires forall id :: Lookup(a, id) == Lookup(b, id)
    ensures a == b
  {
    forall id
      ensures (id in a <==> id in b) && (id in a ==> a[id] == b[id])
    {
      assert Lookup(a, id) == Lookup(b, id);
    }
  }

  lemma {:induction false} ClocksConverge(t: Tree, u: Tree)
    requires SameMembers(t, u)
    ensures ClockOf(Eval(t)) == ClockOf(Eval(u))
  {
    var a, b := ClockOf(Eval(t)), ClockOf(Eval(u));
    forall k
      ensures (k in a <==> k in b) && At(a, k) == At(b, k)
    {
      ClockIsMaximum(t, k);
      ClockIsMaximum(u, k);
    }
    assert forall k | k in a :: a[k] == At(a, k) && b[k] == At(b, k);
  }

  /** Without ties, devices that have the same states converge: any order, any grouping, any repetition. */
  lemma {:induction false} DevicesConverge(t: Tree, u: Tree, p: Part)
    requires SameMembers(t, u) && NoTies(t)
    ensures Content(Eval(t), p) == Content(Eval(u), p)
    ensures ClockOf(Eval(t)) == ClockOf(Eval(u)) && Eval(t).timestamp == Eval(u).timestamp
  {
    forall id
      ensures Lookup(Content(Eval(t), p), id) == Lookup(Content(Eval(u), p), id)
    {
      SameWinner(t, u, p, id);
    }
    SameByLookup(Content(Eval(t), p), Content(Eval(u), p));
    ClocksConverge(t, u);
    LargestTimestamp(t);
    LargestTimestamp(u);
  }

  lemma {:induction false} HeldByMember(t: Tree, p: Part, id: string)
    ensures id in Content(Eval(t), p) <==> exists s :: s in Leaves(t) && id in Content(s, p)
  {
    var i := LeftmostNewestWins(t, p, id);
    if id in Content(Eval(t), p) {
      assert Leaves(t)[i] in Leaves(t);
    }
  }

  lemma {:induction false} NoneNewer(ss: seq<State>, p: Part, id: string, i: nat, s: State)
    requires Wins(ss, p, id, i) && s in ss && id in Content(s, p)
    ensures Weight(Content(s, p)[id]) <= Weight(Content(ss[i], p)[id])
  {
    var j :| 0 <= j < |ss| && ss[j] == s;
    assert Lookup(Content(ss[j], p), id).Some?;
  }

  lemma {:induction false} SameWinner(t: Tree, u: Tree, p: Part, id: string)
    requires SameMembers(t, u) && NoTies(t)
    ensures Lookup(Content(Eval(t), p), id) == Lookup(Content(Eval(u), p), id)
  {
    HeldByMember(t, p, id);
    HeldByMember(u, p, id);
    if id in Content(Eval(t), p) {
      var i := LeftmostNewestWins(t, p, id);
      var j := LeftmostNewestWins(u, p, id);
      var x, y := Leaves(t)[i], Leaves(u)[j];
      assert x in Leaves(t) && x in Leaves(u) && y in Leaves(t) && y in Leaves(u);
      NoneNewer(Leaves(t), p, id, i, y);
      NoneNewer(Leaves(u), p, id, j, x);
    }
  }

  /** No member's entry is forgotten, field by field. */
  lemma {:induction false} NothingForgotten(t: Tree, s: State)
    requires s in Leaves(t)
    ensures OrEmpty(s.contacts).Keys <= OrEmpty(Eval(t).contacts).Keys
    ensures OrEmpty(s.groups).Keys <= OrEmpty(Eval(t).groups).Keys
    ensures OrEmpty(s.sharedKeys).Keys <= OrEmpty(Eval(t).sharedKeys).Keys
    ensures OrEmpty(s.images).Keys <= OrEmpty(Eval(t).images).Keys
    ensures OrEmpty(s.audio).Keys <= OrEmpty(Eval(t).audio).Keys
  {
    forall p, id | id in Content(s, p)
      ensures id in Content(Eval(t), p)
    {
      HeldByMember(t, p, id);
    }
    assert Content(s, Contacts) == OrEmpty(s.contacts) && Content(s, Groups) == OrEmpty(s.groups);
    assert Content(s, SharedKeys) == OrEmpty(s.sharedKeys) && Content(s, Images) == OrEmpty(s.images);
    assert Content(s, Audio) == OrEmpty(s.audio);
  }

  /** What does not converge: the remaining fields are those of the leftmost state; a merge writes its own version. */
  lemma {:induction false} OtherFieldsFromLeftmost(t: Tree)
    ensures Eval(t).other == Leaves(t)[0].other
    ensures t.Leaf? ==> Eval(t) == Leaves(t)[0]
    ensures t.Node? ==> Eval(t).version == "7.2"
  {
    if t.Node? {
      OtherFieldsFromLeftmost(t.left);
    }
  }

  /** With a tie the order does matter: swapping two states that hold different equally new items changes the merge. */
  lemma {:induction false} TieDependsOnOrder(id: string, x: Slot, y: Slot)
    requires x.Item? && y.Item? && x != y
    requires (if x.timestamp.Some? then x.timestamp.value else 0) ==
             (if y.timestamp.Some? then y.timestamp.value else 0)
    ensures Lww(map[id := x], map[id := y]) != Lww(map[id := y], map[id := x])
  {
    LwwAt(map[id := x], map[id := y], id);
    LwwAt(map[id := y], map[id := x], id);
  }

  /** Merging a state into itself changes no item. */
  lemma {:induction false} MergeIdempotent(s: State, p: Part)
    ensures Content(MergeStates(s, s), p) == Content(s, p) && ClockOf(MergeStates(s, s)) == ClockOf(s)
  {
    var a := Content(s, p);
    forall id
      ensures Lookup(Lww(a, a), id) == Lookup(a, id)
    {
      LwwAt(a, a, id);
    }
    SameByLookup(Lww(a, a), a);
  }
}
