/** The in-memory store of ephemeral group images: an image stays until everyone who must see it has, or until its time
    is up, and its buffers are zeroed as it goes. */
module ImageStore {
  import opened Common

  datatype Image = Image(data: Bytes, nonce: Bytes, aesKey: Bytes, sender: string, group: Option<string>,
                         needed: set<string>, viewed: set<string>, expiresAt: real)

  type Images = map<string, Image>

  /** What a permitted viewer gets. */
  datatype Copy = Copy(data: Bytes, nonce: Bytes, aesKey: Bytes, sender: string, group: Option<string>)

  // ---------- the operations on values ----------

  function NewImage(data: Bytes, nonce: Bytes, aesKey: Bytes, sender: string, members: seq<string>,
                    group: Option<string>, expiresAt: real): Image {
    Image(data, nonce, aesKey, sender, group, (set m | m in members) - {sender}, {}, expiresAt)
  }

  function AfterGet(s: Images, id: string, now: real): Images {
    if id in s && now > s[id].expiresAt then s - {id} else s
  }

  function Fetched(s: Images, id: string, requester: string, now: real): Option<Copy> {
    if id !in s || now > s[id].expiresAt || (requester != s[id].sender && requester !in s[id].needed) then None
    else Some(Copy(s[id].data, s[id].nonce, s[id].aesKey, s[id].sender, s[id].group))
  }

  predicate Completes(s: Images, id: string, user: string) {
    id in s && user != s[id].sender && s[id].needed <= s[id].viewed + {user}
  }

  function AfterMark(s: Images, id: string, user: string): Images {
    if id !in s || user == s[id].sender then s
    else if Completes(s, id, user) then s - {id}
    else s[id := s[id].(viewed := s[id].viewed + {user})]
  }

  function AfterSweep(s: Images, now: real): Images {
    map id | id in s && now <= s[id].expiresAt :: s[id]
  }

  /** What is left when exactly the expired entries are gone. */
  lemma {:induction false} Swept(left: Images, before: Images, gone: set<string>, now: real)
    requires left.Keys == before.Keys - gone && forall x | x in left :: left[x] == before[x]
    requires forall x | x in before :: x in gone <==> now > before[x].expiresAt
    ensures left == AfterSweep(before, now)
  {
  }

  lemma {:induction false} MinusMinus<K, V>(m: map<K, V>, a: set<K>, x: K)
    ensures (m - a) - {x} == m - (a + {x})
  {
  }

  lemma {:induction false} OneFewer<K>(all: set<K>, left: set<K>, x: K)
    requires x in left && left <= all
    ensures (all - left) + {x} == all - (left - {x})
  {
  }

  lemma {:induction false} UpdateThenMinus<K, V>(m: map<K, V>, x: K, v: V)
    ensures m[x := v] - {x} == m - {x}
  {
  }

  lemma {:induction false} UpdatedMap<K, V>(m: map<K, V>, m': map<K, V>, x: K, v: V)
    requires x in m && m'.Keys == m.Keys && m'[x] == v
    requires forall y | y in m && y != x :: m'[y] == m[y]
    ensures m' == m[x := v]
  {
  }

  // ---------- the store object ----------

  /** The three mutable buffers of an entry. */
  datatype Buffers = Buffers(data: array<byte>, nonce: array<byte>, aesKey: array<byte>)
  {
    predicate Separate() {
      data != nonce && nonce != aesKey && data != aesKey
    }

    /** The two share no buffer. */
    predicate Apart(other: Buffers) {
      && data != other.data && data != other.nonce && data != other.aesKey
      && nonce != other.data && nonce != other.nonce && nonce != other.aesKey
      && aesKey != other.data && aesKey != other.nonce && aesKey != other.aesKey
    }

    ghost predicate Zeroed()
      reads data, nonce, aesKey
    {
      AllZero(data[..]) && AllZero(nonce[..]) && AllZero(aesKey[..])
    }
  }

  datatype Entry = Entry(buf: Buffers, sender: string, group: Option<string>, needed: set<string>, viewed: set<string>,
                         expiresAt: real)
  {
    function View(): Image
      reads buf.data, buf.nonce, buf.aesKey
    {
      Image(buf.data[..], buf.nonce[..], buf.aesKey[..], sender, group, needed, viewed, expiresAt)
    }
  }

  class EphemeralImageStore {
    var images: map<string, Entry>
    const maxTtl: int

    constructor (maxTtl: int)
      ensures Valid() && images == map[] && this.maxTtl == maxTtl
    {
      images := map[];
      this.maxTtl := maxTtl;
    }

    /** No two buffers of a dictionary of entries are the same. */
    static ghost predicate AllApart(m: map<string, Entry>) {
      && (forall id | id in m :: m[id].buf.Separate())
      && (forall a, b | a in m && b in m && a != b :: m[a].buf.Apart(m[b].buf))
    }

    ghost predicate Valid()
      reads this
    {
      AllApart(images)
    }

    static ghost function FootprintOf(m: map<string, Entry>): set<array<byte>> {
      (set id | id in m :: m[id].buf.data) + (set id | id in m :: m[id].buf.nonce) +
          (set id | id in m :: m[id].buf.aesKey)
    }

    ghost function Footprint(): set<array<byte>>
      reads this
    {
      FootprintOf(images)
    }

    static lemma {:induction false} BuffersInFootprint(m: map<string, Entry>, id: string)
      requires id in m
      ensures {m[id].buf.data, m[id].buf.nonce, m[id].buf.aesKey} <= FootprintOf(m)
    {
    }

    ghost function View(): Images
      reads this, Footprint()
    {
      map id | id in images :: images[id].View()
    }

    method Store(id: string, data: Bytes, nonce: Bytes, aesKey: Bytes, sender: string, members: seq<string>,
                 group: Option<string>, now: real)
      requires Valid()
      modifies this`images
      ensures Valid()
      ensures View() == old(View())[id := NewImage(data, nonce, aesKey, sender, members, group, now + maxTtl as real)]
      ensures id in images && images == old(images)[id := images[id]]
      ensures var e := images[id];
              && fresh(e.buf.data) && fresh(e.buf.nonce) && fresh(e.buf.aesKey)
              && e.buf.data[..] == data && e.buf.nonce[..] == nonce && e.buf.aesKey[..] == aesKey
              && e.sender == sender && e.group == group && e.viewed == {} && e.expiresAt == now + maxTtl as real
              && forall m :: m in e.needed <==> m in members && m != sender
    {
      ghost var before := View();
      var d := CopyOf(data);
      var n := CopyOf(nonce);
      var k := CopyOf(aesKey);
      var needed := (set m | m in members) - {sender};
      var entry := Entry(Buffers(d, n, k), sender, group, needed, {}, now + maxTtl as real);
      assert entry.View() == NewImage(data, nonce, aesKey, sender, members, group, now + maxTtl as real);
      assert View() == before;
      Insert(id, entry);
    }

    /** Dictionary assignment of an entry whose buffers are not in the store yet. */
    method Insert(id: string, entry: Entry)
      requires Valid() && entry.buf.Separate()
      requires entry.buf.data !in Footprint() && entry.buf.nonce !in Footprint() && entry.buf.aesKey !in Footprint()
      modifies this`images
      ensures Valid() && images == old(images)[id := entry] && View() == old(View())[id := entry.View()]
    {
      ghost var before := View();
      forall x | x in images
        ensures images[x].buf.Apart(entry.buf) && entry.buf.Apart(images[x].buf)
      {
        assert images[x].buf.data in Footprint() && images[x].buf.nonce in Footprint() &&
               images[x].buf.aesKey in Footprint();
      }
      images := images[id := entry];
      assert View() == before[id := entry.View()];
    }

    /** Zeroes the stored buffers themselves and forgets the entry; an unknown identifier is ignored. */
    method Delete(id: string)
      requires Valid()
      modifies this`images,
               if id in images then {images[id].buf.data, images[id].buf.nonce, images[id].buf.aesKey} else {}
      ensures Valid() && images == old(images) - {id} && View() == old(View()) - {id}
      ensures forall x | x in images :: images[x].View() == old(images[x].View())
      ensures id in old(images) ==> old(images)[id].buf.Zeroed()
    {
      if id !in images {
        assert images == images - {id};
        return;
      }
      ghost var before := View();
      var entry := images[id];
      images := images - {id};
      Zeroize(entry.buf.data);
      Zeroize(entry.buf.nonce);
      Zeroize(entry.buf.aesKey);
      forall x | x in images
        ensures images[x].View() == before[x]
      {
        assert images[x].buf.Apart(entry.buf);
      }
      assert View() == before - {id};
    }

    method Get(id: string, requester: string, now: real) returns (copy: Option<Copy>)
      requires Valid()
      modifies this`images, Footprint()
      ensures Valid() && View() == AfterGet(old(View()), id, now) && copy == Fetched(old(View()), id, requester, now)
      ensures id in old(images) && id !in images ==> old(images)[id].buf.Zeroed()
      ensures images == if id in old(images) && now > old(images)[id].expiresAt then old(images) - {id} else old(images)
      ensures copy.Some? <==> && id in old(images) && now <= old(images)[id].expiresAt
                              && (requester == old(images)[id].sender || requester in old(images)[id].needed)
      ensures copy.Some? ==>
                && copy.value.data == old(images[id].buf.data[..]) && copy.value.nonce == old(images[id].buf.nonce[..])
                && copy.value.aesKey == old(images[id].buf.aesKey[..])
                && copy.value.sender == old(images)[id].sender && copy.value.group == old(images)[id].group
    {
      if id !in images {
        return None;
      }
      var entry := images[id];
      if now > entry.expiresAt {
        Delete(id);
        return None;
      }
      if requester != entry.sender && requester !in entry.needed {
        return None;
      }
      copy := Some(Copy(entry.buf.data[..], entry.buf.nonce[..], entry.buf.aesKey[..], entry.sender, entry.group));
    }

    method MarkViewed(id: string, user: string) returns (deleted: bool)
      requires Valid()
      modifies this`images, Footprint()
      ensures Valid() && View() == AfterMark(old(View()), id, user) && deleted == Completes(old(View()), id, user)
      ensures deleted ==> id in old(images) && old(images)[id].buf.Zeroed()
      ensures deleted <==> && id in old(images) && user != old(images)[id].sender
                           && forall m | m in old(images)[id].needed :: m == user || m in old(images)[id].viewed
      ensures images == if deleted then old(images) - {id}
              else if id !in old(images) || user == old(images)[id].sender then old(images)
              else old(images)[id := old(images)[id].(viewed := old(images)[id].viewed + {user})]
    {
      if id !in images || user == images[id].sender {
        return false;
      }
      var entry := images[id];
      ghost var before, first := View(), images;
      assert before[id] == entry.View();
      Note(id, user);
      assert images[id].buf == entry.buf;
      UpdateThenMinus(before, id, before[id].(viewed := before[id].viewed + {user}));
      UpdateThenMinus(first, id, images[id]);
      if entry.needed <= entry.viewed + {user} {
        Delete(id);
        return true;
      }
      deleted := false;
    }

    /** Adds a viewer to an entry. */
    method Note(id: string, user: string)
      requires Valid() && id in images
      modifies this`images
      ensures Valid() && images == old(images)[id := old(images)[id].(viewed := old(images)[id].viewed + {user})]
      ensures View() == old(View())[id := old(View())[id].(viewed := old(View())[id].viewed + {user})]
    {
      ghost var before := View();
      var noted := images[id].(viewed := images[id].viewed + {user});
      assert noted.View() == before[id].(viewed := before[id].viewed + {user});
      images := images[id := noted];
      assert forall x | x in images :: images[x].buf == old(images)[x].buf;
      UpdatedMap(before, View(), id, noted.View());
    }

    /** A deletion leaves buffers zeroed that were so before and are none of its own. */
    method DeleteBeside(id: string, ghost gone: set<Buffers>)
      requires Valid() && id in images && forall b | b in gone :: b.Apart(images[id].buf) && b.Zeroed()
      modifies this`images, {images[id].buf.data, images[id].buf.nonce, images[id].buf.aesKey}
      ensures Valid() && images == old(images) - {id}
      ensures forall x | x in images :: images[x].View() == old(images[x].View())
      ensures forall b | b in gone + {old(images)[id].buf} :: b.Zeroed()
    {
      Delete(id);
    }

    /** One deletion among several: of the entries of `first`, those in `all` but not in `left` are gone and zeroed. */
    method DeleteNext(id: string, ghost first: map<string, Entry>, ghost all: set<string>, ghost left: set<string>)
      requires Valid() && AllApart(first) && id in left && left <= all <= first.Keys && images == first - (all - left)
      requires forall x | x in all - left :: first[x].buf.Zeroed()
      modifies this`images, FootprintOf(first)
      ensures Valid() && images == first - (all - (left - {id}))
      ensures forall x | x in images :: images[x].View() == old(images[x].View())
      ensures forall x | x in all - (left - {id}) :: first[x].buf.Zeroed()
    {
      OneFewer(all, left, id);
      MinusMinus(first, all - left, id);
      BuffersInFootprint(first, id);
      assert images[id] == first[id];
      ghost var gone := set x | x in all - left :: first[x].buf;
      DeleteBeside(id, gone);
      assert forall x | x in all - left :: first[x].buf in gone;
    }

    /** One round of the background cleaner. */
    method Sweep(now: real)
      requires Valid()
      modifies this`images, Footprint()
      ensures Valid() && View() == AfterSweep(old(View()), now)
      ensures forall x | x in old(images) && x !in images :: old(images)[x].buf.Zeroed()
      ensures forall x :: x in images <==> x in old(images) && now <= old(images)[x].expiresAt
      ensures forall x | x in images :: images[x] == old(images)[x]
    {
      ghost var before, first := View(), images;
      var expired := set id | id in images && now > images[id].expiresAt;
      ghost var all := expired;
      while expired != {}
        invariant Valid() && expired <= all && images == first - (all - expired)
        invariant forall x | x in images :: images[x].View() == before[x]
        invariant forall x | x in all - expired :: first[x].buf.Zeroed()
        decreases expired
      {
        var id :| id in expired;
        DeleteNext(id, first, all, expired);
        expired := expired - {id};
      }
      Swept(View(), before, all, now);
    }
  }
}
