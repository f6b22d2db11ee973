/** The recovery side of multi-device state: its own clock comparison, its own merge, and the resolver that trusts
    them. Its comparison reads the two clocks the other way round. */
module RecoveryMerge {
  import opened Common
  import opened VectorClock

  datatype Item = Item(timestamp: Option<nat>, body: string)

  type Collection = map<string, Item>

  datatype State = State(contacts: Option<Collection>, groups: Option<Collection>, groupKeys: Option<Collection>,
                         vectorClock: Option<Clock>)

  datatype Action = KeepLocal | UploadLocal | UseRemote | Merged

  datatype Resolution = Resolution(action: Action, state: State)

  class StateVersionControl {
    var vectorClock: Clock
    const deviceId: string

    constructor (deviceId: string)
      ensures vectorClock == map[] && this.deviceId == deviceId
    {
      vectorClock := map[];
      this.deviceId := deviceId;
    }

    method IncrementClock() returns (clock: Clock)
      modifies this`vectorClock
      ensures vectorClock == Bump(old(vectorClock), deviceId) && clock == vectorClock
      ensures clock.Keys == old(vectorClock).Keys + {deviceId}
      ensures clock[deviceId] == (if deviceId in old(vectorClock) then old(vectorClock)[deviceId] else 0) + 1
      ensures forall k | k in old(vectorClock) && k != deviceId :: clock[k] == old(vectorClock)[k]
    {
      if deviceId !in vectorClock || vectorClock[deviceId] == 0 {
        vectorClock := vectorClock[deviceId := 0];
      }
      vectorClock := vectorClock[deviceId := vectorClock[deviceId] + 1];
      clock := vectorClock;
    }
  }

  /** Clears `aBefore` where a is behind, so it reports 'before' for the clock that is ahead. */
  method Compare(a: Clock, b: Clock) returns (order: Order)
    ensures order == OrderOf(b, a)
    ensures var aAhead := exists k :: k in a && a[k] > (if k in b then b[k] else 0);
            var bAhead := exists k :: k in b && b[k] > (if k in a then a[k] else 0);
            && (order == Equal <==> !aAhead && !bAhead) && (order == Before <==> aAhead && !bAhead)
            && (order == After <==> !aAhead && bAhead) && (order == Concurrent <==> aAhead && bAhead)
  {
    var aBefore, bBefore := true, true;
    var allKeys := a.Keys + b.Keys;
    while allKeys != {}
      invariant allKeys <= a.Keys + b.Keys
      invariant aBefore <==> forall k :: k !in allKeys ==> At(b, k) <= At(a, k)
      invariant bBefore <==> forall k :: k !in allKeys ==> At(a, k) <= At(b, k)
      decreases allKeys
    {
      var k :| k in allKeys;
      var va, vb := At(a, k), At(b, k);
      if va < vb {
        aBefore := false;
      }
      if vb < va {
        bBefore := false;
      }
      allKeys := allKeys - {k};
    }
    assert !bBefore <==> exists k :: k in a && At(a, k) > At(b, k);
    assert !aBefore <==> exists k :: k in b && At(b, k) > At(a, k);
    order := if aBefore && bBefore then Equal else if aBefore then Before else if bBefore then After else Concurrent;
  }

  /** A missing timestamp loses every comparison, and wins none. */
  predicate Newer(remote: Item, local: Item) {
    remote.timestamp.Some? && local.timestamp.Some? && remote.timestamp.value > local.timestamp.value
  }

  function Merge(local: Collection, remote: Collection): Collection {
    map id | id in local.Keys + remote.Keys ::
      if id !in local || (id in remote && Newer(remote[id], local[id])) then remote[id] else local[id]
  }

  /** Contacts, groups and keys are all merged this way. */
  method MergeItems(local: Option<Collection>, remote: Option<Collection>) returns (merged: Collection)
    ensures merged == Merge(OrEmpty(local), OrEmpty(remote))
    ensures var l, r := if local.Some? then local.value else map[], if remote.Some? then remote.value else map[];
            && merged.Keys == l.Keys + r.Keys
            && (forall id | id in l && id !in r :: merged[id] == l[id])
            && (forall id | id in r && id !in l :: merged[id] == r[id])
            && (forall id | id in l && id in r ::
                  merged[id] == if && r[id].timestamp.Some? && l[id].timestamp.Some?
                                   && r[id].timestamp.value > l[id].timestamp.value then r[id] else l[id])
  {
    merged := OrEmpty(local);
    var theirs := OrEmpty(remote);
    var entries := theirs.Keys;
    while entries != {}
      invariant entries <= theirs.Keys
      invariant merged.Keys == OrEmpty(local).Keys + (theirs.Keys - entries)
      invariant forall id | id in merged ::
                  merged[id] == if id in entries then OrEmpty(local)[id] else Merge(OrEmpty(local), theirs)[id]
      decreases entries
    {
      var id :| id in entries;
      if id !in merged || Newer(theirs[id], merged[id]) {
        merged := merged[id := theirs[id]];
      }
      entries := entries - {id};
    }
  }

  method MergeClocks(a: Clock, b: Clock) returns (merged: Clock)
    ensures merged == Join(a, b)
    ensures merged.Keys == a.Keys + b.Keys
    ensures forall k | k in a :: merged[k] == if k in b && b[k] > a[k] then b[k] else a[k]
    ensures forall k | k in b && k !in a :: merged[k] == b[k]
  {
    var allKeys := a.Keys + b.Keys;
    merged := map[];
    while allKeys != {}
      invariant allKeys <= a.Keys + b.Keys
      invariant merged.Keys == a.Keys + b.Keys - allKeys
      invariant forall k | k in merged :: merged[k] == Max(At(a, k), At(b, k))
      decreases allKeys
    {
      var k :| k in allKeys;
      merged := merged[k := Max(At(a, k), At(b, k))];
      allKeys := allKeys - {k};
    }
  }

  function ClockOf(s: State): Clock {
    OrEmpty(s.vectorClock)
  }

  function MergeStates(local: State, remote: State): State {
    State(Some(Merge(OrEmpty(local.contacts), OrEmpty(remote.contacts))),
          Some(Merge(OrEmpty(local.groups), OrEmpty(remote.groups))),
          Some(Merge(OrEmpty(local.groupKeys), OrEmpty(remote.groupKeys))),
          Some(Join(ClockOf(local), ClockOf(remote))))
  }

  ghost function Resolved(local: State, remote: State): Resolution {
    match OrderOf(ClockOf(remote), ClockOf(local))
    case Equal => Resolution(KeepLocal, local)
    case Before => Resolution(UseRemote, remote)
    case After => Resolution(UploadLocal, local)
    case Concurrent => Resolution(Merged, MergeStates(local, remote))
  }

  method Resolve(local: State, remote: State) returns (r: Resolution)
    ensures r == Resolved(local, remote)
    ensures r.action == KeepLocal || r.action == UploadLocal ==> r.state == local
    ensures r.action == UseRemote ==> r.state == remote
    ensures r.action == Merged ==>
              && r.state.contacts == Some(Merge(OrEmpty(local.contacts), OrEmpty(remote.contacts)))
              && r.state.groups == Some(Merge(OrEmpty(local.groups), OrEmpty(remote.groups)))
              && r.state.groupKeys == Some(Merge(OrEmpty(local.groupKeys), OrEmpty(remote.groupKeys)))
              && r.state.vectorClock == Some(Join(ClockOf(local), ClockOf(remote)))
  {
    var comparison := Compare(ClockOf(local), ClockOf(remote));
    match comparison {
      case Equal => r := Resolution(KeepLocal, local);
      case Before => r := Resolution(UseRemote, remote);
      case After => r := Resolution(UploadLocal, local);
      case Concurrent =>
        var contacts := MergeItems(local.contacts, remote.contacts);
        var groups := MergeItems(local.groups, remote.groups);
        var groupKeys := MergeItems(local.groupKeys, remote.groupKeys);
        var clock := MergeClocks(ClockOf(local), ClockOf(remote));
        r := Resolution(Merged, State(Some(contacts), Some(groups), Some(groupKeys), Some(clock)));
    }
  }

  /** Neither side has strictly seen everything the other has and more. */
  ghost predicate NeitherAhead(local: State, remote: State) {
    OrderOf(ClockOf(local), ClockOf(remote)) == Equal || OrderOf(ClockOf(local), ClockOf(remote)) == Concurrent
  }

  /** The intended law, that resolving loses no update either side has seen, holds exactly when neither clock is
      strictly ahead. */
  lemma {:induction false} ResolveKeepsAllUpdatesIff(local: State, remote: State)
    ensures (forall k :: At(ClockOf(Resolved(local, remote).state), k) == At(Join(ClockOf(local), ClockOf(remote)), k))
            <==> NeitherAhead(local, remote)
  {
    var a, b := ClockOf(local), ClockOf(remote);
    OrderReversed(a, b);
    assert forall k :: At(Join(a, b), k) == Max(At(a, k), At(b, k));
    match OrderOf(a, b) {
      case After =>
        var k :| At(a, k) > At(b, k);
        assert At(Join(a, b), k) != At(b, k);
      case Before =>
        var k :| At(b, k) > At(a, k);
        assert At(Join(a, b), k) != At(a, k);
      case _ =>
    }
  }

  /** When one side is strictly ahead, the resolver always keeps the other. */
  lemma {:induction false} ResolvePicksTheStaleSide(local: State, remote: State)
    ensures OrderOf(ClockOf(local), ClockOf(remote)) == After ==>
            Resolved(local, remote) == Resolution(UseRemote, remote)
    ensures OrderOf(ClockOf(local), ClockOf(remote)) == Before ==>
            Resolved(local, remote) == Resolution(UploadLocal, local)
    ensures OrderOf(ClockOf(local), ClockOf(remote)) == Equal <==>
            Resolved(local, remote) == Resolution(KeepLocal, local)
    ensures OrderOf(ClockOf(local), ClockOf(remote)) == Concurrent <==> Resolved(local, remote).action == Merged
  {
    OrderReversed(ClockOf(local), ClockOf(remote));
  }

  /** A device that has counted on since its last upload is handed back its own older state. */
  lemma {:induction false} NewerLocalStateReplaced(uploaded: State, d: string, contacts: Collection)
    ensures var local := uploaded.(contacts := Some(contacts), vectorClock := Some(Bump(ClockOf(uploaded), d)));
            Resolved(local, uploaded) == Resolution(UseRemote, uploaded)
  {
    BumpAdvances(ClockOf(uploaded), d, d);
  }

  /** Three-way merges agree on an id exactly when the middle device's item has a timestamp, or the third device's item
      would not beat the first's; ids held by fewer than three devices always agree. */
  lemma {:induction false} MergeAssociatesIff(a: Collection, b: Collection, c: Collection, id: string)
    requires id in a && id in b && id in c
    ensures Merge(Merge(a, b), c)[id] == Merge(a, Merge(b, c))[id] <==>
            || b[id].timestamp.Some? || a[id].timestamp.None? || c[id].timestamp.None?
            || c[id].timestamp.value <= a[id].timestamp.value
  {
    assert Merge(a, b)[id] == if Newer(b[id], a[id]) then b[id] else a[id];
    assert Merge(b, c)[id] == if Newer(c[id], b[id]) then c[id] else b[id];
  }

  lemma {:induction false} MergeAssociatesElsewhere(a: Collection, b: Collection, c: Collection, id: string)
    requires !(id in a && id in b && id in c)
    ensures id in Merge(Merge(a, b), c) <==> id in Merge(a, Merge(b, c))
    ensures id in Merge(Merge(a, b), c) ==> Merge(Merge(a, b), c)[id] == Merge(a, Merge(b, c))[id]
  {
    assert id in a && id in b ==> Merge(a, b)[id] == if Newer(b[id], a[id]) then b[id] else a[id];
    assert id in b && id in c ==> Merge(b, c)[id] == if Newer(c[id], b[id]) then c[id] else b[id];
  }
}
