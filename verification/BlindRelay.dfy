/** The relay queue: encrypted blobs wait in memory for their receiver, leave once, and are zeroed as they leave. */
module BlindRelay {
  import opened Common

  datatype Blob = Blob(id: string, sender: string, receiver: string, data: Bytes, createdAt: real, expiresAt: real)

  /** What a receiver gets: everything but the receiver's own name and the deadline. */
  datatype Delivery = Delivery(id: string, sender: string, data: Bytes, createdAt: real)

  // ---------- the queue as a value: the pending dictionary in insertion order ----------

  ghost predicate DistinctIds(q: seq<Blob>) {
    forall i, j | 0 <= i < j < |q| :: q[i].id != q[j].id
  }

  function IdsFor(q: seq<Blob>, receiver: string): set<string> {
    set b | b in q && b.receiver == receiver :: b.id
  }

  function Without(q: seq<Blob>, ids: set<string>): seq<Blob> {
    if q == [] then [] else
      var rest, last := Without(q[..|q| - 1], ids), q[|q| - 1];
      if last.id in ids then rest else rest + [last]
  }

  function Set(ids: seq<string>): set<string> {
    set id | id in ids
  }

  lemma {:induction false} SetGrows(ids: seq<string>, n: nat)
    requires n < |ids|
    ensures Set(ids[..n + 1]) == Set(ids[..n]) + {ids[n]}
  {
    assert ids[..n + 1] == ids[..n] + [ids[n]];
  }

  predicate Due(b: Blob, receiver: string, now: real) {
    b.receiver == receiver && now <= b.expiresAt
  }

  /** The blobs a fetch hands out, in queue order. */
  function DueFor(q: seq<Blob>, receiver: string, now: real): seq<Blob> {
    if q == [] then [] else
      var rest, last := DueFor(q[..|q| - 1], receiver, now), q[|q| - 1];
      if Due(last, receiver, now) then rest + [last] else rest
  }

  function AsDelivery(b: Blob): Delivery {
    Delivery(b.id, b.sender, b.data, b.createdAt)
  }

  function AsDeliveries(q: seq<Blob>): seq<Delivery> {
    seq(|q|, i requires 0 <= i < |q| => AsDelivery(q[i]))
  }

  /** The same identifiers, senders, bytes and times, in the same order. */
  ghost predicate Carry(got: seq<Delivery>, sent: seq<Blob>) {
    && |got| == |sent|
    && forall k | 0 <= k < |got| :: && got[k].id == sent[k].id && got[k].sender == sent[k].sender
         && got[k].data == sent[k].data && got[k].createdAt == sent[k].createdAt
  }

  lemma {:induction false} DeliveriesCarry(q: seq<Blob>)
    ensures Carry(AsDeliveries(q), q)
  {
  }

  /** Dictionary assignment: an unknown identifier goes to the end, a known one is replaced where it stands. */
  function Put(q: seq<Blob>, b: Blob): seq<Blob> {
    if q == [] then [b] else if q[0].id == b.id then [b] + q[1..] else [q[0]] + Put(q[1..], b)
  }

  lemma {:induction false} PutFresh(q: seq<Blob>, b: Blob)
    requires forall i | 0 <= i < |q| :: q[i].id != b.id
    ensures Put(q, b) == q + [b]
  {
    if q != [] {
      PutFresh(q[1..], b);
    }
  }

  lemma {:induction false} PutKnown(q: seq<Blob>, b: Blob, i: nat)
    requires DistinctIds(q) && i < |q| && q[i].id == b.id
    ensures Put(q, b) == q[i := b]
  {
    if i > 0 {
      assert q[1..][i - 1] == q[i];
      PutKnown(q[1..], b, i - 1);
      assert q[i := b] == [q[0]] + q[1..][i - 1 := b];
    }
  }

  lemma {:induction false} WithoutMembers(q: seq<Blob>, ids: set<string>)
    ensures forall b :: b in Without(q, ids) <==> b in q && b.id !in ids
  {
    if q != [] {
      WithoutMembers(q[..|q| - 1], ids);
      assert q == q[..|q| - 1] + [q[|q| - 1]];
    }
  }

  lemma {:induction false} DueForMembers(q: seq<Blob>, receiver: string, now: real)
    ensures forall b :: b in DueFor(q, receiver, now) <==> b in q && b.receiver == receiver && now <= b.expiresAt
  {
    if q != [] {
      DueForMembers(q[..|q| - 1], receiver, now);
      assert q == q[..|q| - 1] + [q[|q| - 1]];
    }
  }

  lemma {:induction false} WithoutNone(q: seq<Blob>, ids: set<string>)
    requires forall i | 0 <= i < |q| :: q[i].id !in ids
    ensures Without(q, ids) == q
  {
    if q != [] {
      WithoutNone(q[..|q| - 1], ids);
    }
  }

  lemma {:induction false} WithoutOne(q: seq<Blob>, i: nat)
    requires DistinctIds(q) && i < |q|
    ensures Without(q, {q[i].id}) == q[..i] + q[i + 1..]
  {
    var n := |q| - 1;
    if i == n {
      WithoutNone(q[..n], {q[i].id});
      assert q[..i] + q[i + 1..] == q[..n];
    } else {
      WithoutOne(q[..n], i);
      assert q[..i] + q[i + 1..] == q[..n][..i] + q[..n][i + 1..] + [q[n]];
    }
  }

  lemma {:induction false} WithoutTwice(q: seq<Blob>, a: set<string>, b: set<string>)
    ensures Without(Without(q, a), b) == Without(q, a + b)
  {
    if q != [] {
      var rest, last := q[..|q| - 1], q[|q| - 1];
      WithoutTwice(rest, a, b);
      if last.id !in a {
        assert (Without(rest, a) + [last])[..|Without(rest, a)|] == Without(rest, a);
      }
    }
  }

  // ---------- the relay object ----------

  /** A queued blob with the mutable buffer that is overwritten when the blob is destroyed. */
  class StoredBlob {
    const id: string
    const sender: string
    const receiver: string
    const data: array<byte>
    const createdAt: real
    const expiresAt: real

    constructor (id: string, sender: string, receiver: string, bytes: Bytes, createdAt: real, expiresAt: real)
      ensures fresh(data) && data[..] == bytes
      ensures this.id == id && this.sender == sender && this.receiver == receiver
      ensures this.createdAt == createdAt && this.expiresAt == expiresAt
    {
      this.id, this.sender, this.receiver := id, sender, receiver;
      this.createdAt, this.expiresAt := createdAt, expiresAt;
      this.data := new byte[|bytes|](i requires 0 <= i < |bytes| => bytes[i]);
    }

    function View(): Blob
      reads data
    {
      Blob(id, sender, receiver, data[..], createdAt, expiresAt)
    }
  }

  class Relay {
    var pending: seq<StoredBlob>
    var blindCounter: nat
    const ttl: int
    const blindId: (string, string, real, nat) -> string

    ghost predicate Valid()
      reads this
    {
      forall i, j | 0 <= i < j < |pending| :: pending[i].id != pending[j].id && pending[i].data != pending[j].data
    }

    function Buffers(): set<array<byte>>
      reads this
    {
      set b | b in pending :: b.data
    }

    function Contents(): (q: seq<Blob>)
      reads this, Buffers()
      ensures |q| == |pending|
    {
      seq(|pending|, i requires 0 <= i < |pending| reads this, Buffers() => pending[i].View())
    }

    constructor (ttl: int, blindId: (string, string, real, nat) -> string)
      ensures Valid() && Contents() == [] && blindCounter == 0 && this.ttl == ttl && this.blindId == blindId
    {
      pending, blindCounter := [], 0;
      this.ttl, this.blindId := ttl, blindId;
    }

    method RelayBlob(sender: string, receiver: string, blob: Bytes, ttlSeconds: Option<int>, now: real)
        returns (blobId: string)
      requires Valid()
      modifies this`pending, this`blindCounter
      ensures Valid() && blindCounter == old(blindCounter) + 1
      ensures blobId == blindId(sender, receiver, now, old(blindCounter))
      ensures var expiresAt := now + (if ttlSeconds.Some? then ttlSeconds.value else ttl) as real;
              Contents() == Put(old(Contents()), Blob(blobId, sender, receiver, blob, now, expiresAt))
      ensures fresh(Buffers() - old(Buffers()))
    {
      ghost var before := Contents();
      var actualTtl := if ttlSeconds.Some? then ttlSeconds.value else ttl;
      blobId := blindId(sender, receiver, now, blindCounter);
      blindCounter := blindCounter + 1;
      var stored := new StoredBlob(blobId, sender, receiver, blob, now, now + actualTtl as real);
      assert Contents() == before;
      assert stored.View() == Blob(blobId, sender, receiver, blob, now, now + actualTtl as real);
      StorePending(stored);
    }

    method StorePending(stored: StoredBlob)
      requires Valid() && stored.data !in Buffers()
      modifies this`pending
      ensures Valid() && Contents() == Put(old(Contents()), stored.View())
      ensures Buffers() <= old(Buffers()) + {stored.data}
    {
      ghost var before, view := Contents(), stored.View();
      var i := IndexOf(stored.id);
      if i < |pending| {
        PutKnown(before, view, i);
        Replace(i, stored);
      } else {
        PutFresh(before, view);
        Append(stored);
      }
    }

    method Replace(i: nat, stored: StoredBlob)
      requires Valid() && i < |pending| && pending[i].id == stored.id && stored.data !in Buffers()
      modifies this`pending
      ensures Valid() && Contents() == old(Contents())[i := stored.View()]
      ensures Buffers() <= old(Buffers()) + {stored.data}
    {
      ghost var before := Contents();
      pending := pending[i := stored];
      assert Contents() == before[i := stored.View()];
    }

    method Append(stored: StoredBlob)
      requires Valid() && stored.data !in Buffers() && forall b | b in pending :: b.id != stored.id
      modifies this`pending
      ensures Valid() && Contents() == old(Contents()) + [stored.View()] && Buffers() <= old(Buffers()) + {stored.data}
    {
      ghost var before := Contents();
      pending := pending + [stored];
      assert Contents() == before + [stored.View()];
    }

    method IndexOf(blobId: string) returns (i: nat)
      ensures i <= |pending|
      ensures i < |pending| ==> pending[i].id == blobId
      ensures i == |pending| ==> forall b | b in pending :: b.id != blobId
    {
      i := 0;
      while i < |pending|
        invariant i <= |pending|
        invariant forall k | 0 <= k < i :: pending[k].id != blobId
      {
        if pending[i].id == blobId {
          return;
        }
        i := i + 1;
      }
    }

    /** Zeroes the stored buffer itself and drops the blob; an unknown identifier is ignored. */
    method DestroyBlob(blobId: string)
      requires Valid()
      modifies this`pending, Buffers()
      ensures Valid() && Contents() == Without(old(Contents()), {blobId})
      ensures forall b | b in old(pending) && b.id == blobId :: AllZero(b.data[..]) && b.data !in Buffers()
      ensures forall b | b in old(pending) && b.id != blobId :: b in pending && b.data[..] == old(b.data[..])
      ensures (forall b | b in pending :: b in old(pending) && b.id != blobId) && Buffers() <= old(Buffers())
    {
      ghost var before := Contents();
      var at := IndexOf(blobId);
      if at == |pending| {
        WithoutNone(before, {blobId});
        return;
      }
      var blob := pending[at];
      WithoutOne(before, at);
      Forget(at);
      ghost var left := Contents();
      Zeroize(blob.data);
      assert Contents() == left;
    }

    /** Drops one entry; its buffer is none of those that remain. */
    method Forget(at: nat)
      requires Valid() && at < |pending|
      modifies this`pending
      ensures Valid() && pending == old(pending)[..at] + old(pending)[at + 1..]
      ensures Contents() == old(Contents())[..at] + old(Contents())[at + 1..]
      ensures old(pending)[at].data !in Buffers() && Buffers() <= old(Buffers())
    {
      ghost var before, first := Contents(), pending;
      pending := pending[..at] + pending[at + 1..];
      forall k | 0 <= k < |pending|
        ensures Contents()[k] == (before[..at] + before[at + 1..])[k]
      {
        assert pending[k] == first[if k < at then k else k + 1];
      }
      assert Contents() == before[..at] + before[at + 1..];
    }

    /** Hands out every pending blob of the receiver that is still in time, and destroys all of them. */
    method FetchBlobsForReceiver(receiver: string, now: real) returns (retrieved: seq<Delivery>)
      requires Valid()
      modifies this`pending, Buffers()
      ensures Valid() && Contents() == Without(old(Contents()), IdsFor(old(Contents()), receiver))
      ensures retrieved == AsDeliveries(DueFor(old(Contents()), receiver, now))
      ensures Carry(retrieved, DueFor(old(Contents()), receiver, now))
      ensures forall b | b in old(pending) && b.receiver == receiver :: AllZero(b.data[..])
      ensures forall b | b in old(pending) && b.receiver != receiver :: b in pending && b.data[..] == old(b.data[..])
    {
      ghost var before := Contents();
      retrieved := [];
      var toDelete := [];
      for i := 0 to |pending|
        invariant pending == old(pending) && Contents() == before
        invariant retrieved == AsDeliveries(DueFor(before[..i], receiver, now))
        invariant forall id :: id in toDelete <==> id in IdsFor(before[..i], receiver)
      {
        var blob := pending[i];
        ghost var v := before[i];
        assert before[..i + 1] == before[..i] + [v] && before[..i + 1][..i] == before[..i];
        if blob.receiver == receiver {
          if now <= blob.expiresAt {
            retrieved := retrieved + [Delivery(blob.id, blob.sender, blob.data[..], blob.createdAt)];
          }
          toDelete := toDelete + [blob.id];
        }
      }
      assert before[..|pending|] == before;
      DeliveriesCarry(DueFor(before, receiver, now));
      DestroyAllFor(receiver, toDelete);
    }

    /** The debugging endpoint: shows any pending blob to anyone and, if asked to, destroys it. */
    method DebugRead(blobId: string, delete: bool) returns (data: Option<Bytes>)
      requires Valid()
      modifies this`pending, Buffers()
      ensures Valid() && Contents() == if delete then Without(old(Contents()), {blobId}) else old(Contents())
      ensures data.None? ==> forall b | b in old(Contents()) :: b.id != blobId
      ensures data.Some? ==> exists b :: b in old(Contents()) && b.id == blobId && b.data == data.value
      ensures delete ==> forall b | b in old(pending) && b.id == blobId :: AllZero(b.data[..])
    {
      ghost var before := Contents();
      var at := IndexOf(blobId);
      if at == |pending| {
        assert forall k | 0 <= k < |pending| :: before[k].id == pending[k].id && pending[k] in pending;
        WithoutNone(before, {blobId});
        return None;
      }
      assert before[at] in before && before[at].id == blobId && before[at].data == pending[at].data[..];
      data := Some(pending[at].data[..]);
      if delete {
        DestroyBlob(blobId);
      }
    }

    method ClearUserQueue(user: string)
      requires Valid()
      modifies this`pending, Buffers()
      ensures Valid() && Contents() == Without(old(Contents()), IdsFor(old(Contents()), user))
      ensures forall b | b in old(pending) && b.receiver == user :: AllZero(b.data[..])
      ensures forall b | b in old(pending) && b.receiver != user :: b in pending && b.data[..] == old(b.data[..])
    {
      ghost var before := Contents();
      var toDelete := [];
      for i := 0 to |pending|
        invariant pending == old(pending) && Contents() == before
        invariant forall id :: id in toDelete <==> id in IdsFor(before[..i], user)
      {
        assert before[..i + 1] == before[..i] + [before[i]];
        if pending[i].receiver == user {
          toDelete := toDelete + [pending[i].id];
        }
      }
      assert before[..|pending|] == before;
      DestroyAllFor(user, toDelete);
    }

    lemma {:induction false} IdsIdentify(receiver: string)
      requires Valid()
      ensures forall b | b in pending :: b.id in IdsFor(Contents(), receiver) <==> b.receiver == receiver
    {
      var q := Contents();
      forall b | b in pending
        ensures b.id in IdsFor(q, receiver) <==> b.receiver == receiver
      {
        var k :| 0 <= k < |pending| && pending[k] == b;
        assert q[k].id == b.id && q[k].receiver == b.receiver && q[k] in q;
        assert forall j | 0 <= j < |q| && q[j].id == b.id :: j == k;
      }
    }

    method DestroyAllFor(ghost receiver: string, ids: seq<string>)
      requires Valid() && forall id :: id in ids <==> id in IdsFor(Contents(), receiver)
      modifies this`pending, Buffers()
      ensures Valid() && Contents() == Without(old(Contents()), IdsFor(old(Contents()), receiver))
      ensures forall b | b in old(pending) && b.receiver == receiver :: AllZero(b.data[..])
      ensures forall b | b in old(pending) && b.receiver != receiver :: b in pending && b.data[..] == old(b.data[..])
    {
      IdsIdentify(receiver);
      assert Set(ids) == IdsFor(Contents(), receiver);
      DestroyAll(ids);
    }

    /** A destruction leaves blobs zeroed that were so before and are no longer pending. */
    method DestroyBeside(blobId: string, ghost gone: set<StoredBlob>)
      requires Valid() && forall b | b in gone :: AllZero(b.data[..]) && b.data !in Buffers()
      modifies this`pending, Buffers()
      ensures Valid() && Contents() == Without(old(Contents()), {blobId}) && Buffers() <= old(Buffers())
      ensures forall b | b in old(pending) && b.id == blobId :: AllZero(b.data[..]) && b.data !in Buffers()
      ensures forall b | b in old(pending) && b.id != blobId :: b in pending && b.data[..] == old(b.data[..])
      ensures forall b | b in pending :: b in old(pending)
      ensures forall b | b in gone :: AllZero(b.data[..]) && b.data !in Buffers()
    {
      DestroyBlob(blobId);
    }

    method DestroyAll(ids: seq<string>)
      requires Valid()
      modifies this`pending, Buffers()
      ensures Valid() && Contents() == Without(old(Contents()), Set(ids))
      ensures forall b | b in old(pending) && b.id in ids :: AllZero(b.data[..])
      ensures forall b | b in old(pending) && b.id !in ids :: b in pending && b.data[..] == old(b.data[..])
    {
      ghost var before := Contents();
      WithoutNone(before, {});
      assert Set(ids[..0]) == {};
      for n := 0 to |ids|
        invariant Valid() && Buffers() <= old(Buffers())
        invariant Contents() == Without(before, Set(ids[..n]))
        invariant forall b | b in pending :: b in old(pending)
        invariant forall b | b in old(pending) && b.id in ids[..n] :: AllZero(b.data[..]) && b.data !in Buffers()
        invariant forall b | b in old(pending) && b.id !in ids[..n] :: b in pending && b.data[..] == old(b.data[..])
      {
        WithoutTwice(before, Set(ids[..n]), {ids[n]});
        SetGrows(ids, n);
        DestroyBeside(ids[n], set b | b in old(pending) && b.id in ids[..n]);
      }
      assert ids[..|ids|] == ids;
    }
  }
}
