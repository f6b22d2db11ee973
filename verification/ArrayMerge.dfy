/** The branch of the backup merge that unites lists instead of maps: the first item of every key stays. */
module ArrayMerge {
  import opened Common

  /** text stands for the item's whole JSON form. */
  datatype Item = Item(id: Option<string>, alias: Option<string>, pk: Option<string>, timestamp: nat, text: string)

  predicate Given(s: Option<string>) {
    s.Some? && s.value != ""
  }

  function KeyOf(item: Item): string {
    if Given(item.id) then item.id.value
    else if Given(item.alias) then item.alias.value
    else if Given(item.pk) then item.pk.value
    else item.text
  }

  /** The key is the first of id, alias and pk that is present and not empty, or else the whole text. */
  lemma {:induction false} KeyIsFirstGiven(item: Item, i: nat)
    requires i <= 3 && forall j | 0 <= j < i :: [item.id, item.alias, item.pk][j] in {None, Some("")}
    ensures i < 3 && [item.id, item.alias, item.pk][i] !in {None, Some("")} ==>
              Some(KeyOf(item)) == [item.id, item.alias, item.pk][i]
    ensures i == 3 ==> KeyOf(item) == item.text
  {
    var fields := [item.id, item.alias, item.pk];
    if i > 0 {
      assert fields[0] == item.id;
    }
    if i > 1 {
      assert fields[1] == item.alias;
    }
    if i > 2 {
      assert fields[2] == item.pk;
    }
  }

  /** The first item that has the key. */
  function Find(s: seq<Item>, key: string): Option<Item> {
    if s == [] then None else if KeyOf(s[0]) == key then Some(s[0]) else Find(s[1..], key)
  }

  function Add(merged: seq<Item>, item: Item): seq<Item> {
    if Find(merged, KeyOf(item)).Some? then merged else merged + [item]
  }

  function Extend(merged: seq<Item>, items: seq<Item>): seq<Item>
    decreases items
  {
    if items == [] then merged else Extend(Add(merged, items[0]), items[1..])
  }

  function Union(local: seq<Item>, remote: seq<Item>): seq<Item> {
    Extend(Extend([], local), remote)
  }

  lemma {:induction false} FindInConcat(a: seq<Item>, b: seq<Item>, key: string)
    ensures Find(a + b, key) == if Find(a, key).Some? then Find(a, key) else Find(b, key)
  {
    if a == [] {
      assert a + b == b;
    } else {
      FindInConcat(a[1..], b, key);
      assert (a + b)[1..] == a[1..] + b;
    }
  }

  lemma {:induction false} ExtendHead(merged: seq<Item>, x: Item, rest: seq<Item>)
    ensures Extend(merged, [x] + rest) == Extend(Add(merged, x), rest)
  {
    assert ([x] + rest)[1..] == rest;
  }

  lemma {:induction false} FirstApart(x: Item, rest: seq<Item>, b: seq<Item>)
    ensures [x] + rest + b == [x] + (rest + b)
  {
  }

  lemma {:induction false} ExtendConcat(merged: seq<Item>, a: seq<Item>, b: seq<Item>)
    ensures Extend(merged, a + b) == Extend(Extend(merged, a), b)
    decreases a
  {
    if a == [] {
      assert a + b == b;
    } else {
      var x, rest := a[0], a[1..];
      ExtendConcat(Add(merged, x), rest, b);
      ExtendHead(merged, x, rest + b);
      FirstApart(x, rest, b);
      assert a == [x] + rest;
    }
  }

  /** The set holds exactly the keys that have been merged. */
  ghost predicate Seen(seen: set<string>, merged: seq<Item>) {
    forall k :: k in seen <==> Find(merged, k).Some?
  }

  lemma {:induction false} SeenGrows(seen: set<string>, merged: seq<Item>, item: Item)
    requires Seen(seen, merged)
    ensures Seen(seen + {KeyOf(item)}, merged + [item])
  {
    forall k
      ensures k in seen + {KeyOf(item)} <==> Find(merged + [item], k).Some?
    {
      FindInConcat(merged, [item], k);
    }
  }

  lemma {:induction false} ExtendStep(merged: seq<Item>, items: seq<Item>, i: nat)
    requires i < |items|
    ensures Extend(merged, items[i..]) == Extend(Add(merged, items[i]), items[i + 1..])
  {
    assert items[i..][1..] == items[i + 1..];
  }

  method MergeArrays(local: seq<Item>, remote: seq<Item>) returns (merged: seq<Item>)
    ensures merged == Union(local, remote)
  {
    var all := local + remote;
    var seen := {};
    merged := [];
    assert all[0..] == all;
    for i := 0 to |all|
      invariant Seen(seen, merged)
      invariant Extend(merged, all[i..]) == Extend([], all)
    {
      var key := KeyOf(all[i]);
      ExtendStep(merged, all, i);
      if key !in seen {
        SeenGrows(seen, merged, all[i]);
        seen := seen + {key};
        merged := merged + [all[i]];
      }
    }
    assert all[|all|..] == [];
    ExtendConcat([], local, remote);
  }

  lemma {:induction false} FindInExtend(merged: seq<Item>, items: seq<Item>, key: string)
    ensures Find(Extend(merged, items), key) == if Find(merged, key).Some? then Find(merged, key) else Find(items, key)
    decreases items
  {
    if items != [] {
      FindInConcat(merged, [items[0]], key);
      FindInExtend(Add(merged, items[0]), items[1..], key);
    }
  }

  /** Every key of either list keeps the item that comes first, the local one before the remote one however new the
      remote one is: unlike the map branch, this branch is not last write wins. */
  lemma {:induction false} FirstItemStays(local: seq<Item>, remote: seq<Item>, key: string)
    ensures Find(Union(local, remote), key) == if Find(local, key).Some? then Find(local, key) else Find(remote, key)
  {
    FindInExtend([], local, key);
    FindInExtend(Extend([], local), remote, key);
  }

  lemma {:induction false} FindIff(s: seq<Item>, key: string)
    ensures Find(s, key).Some? <==> exists j :: 0 <= j < |s| && KeyOf(s[j]) == key
  {
    if s != [] {
      FindIff(s[1..], key);
      assert forall j | 0 <= j < |s| - 1 :: s[1..][j] == s[j + 1];
      if j :| 0 <= j < |s| && KeyOf(s[j]) == key && j > 0 {
        assert KeyOf(s[1..][j - 1]) == key;
      }
    }
  }

  /** `merged` holds the items of `all` at the positions `at`, which rise and are those whose key no earlier item
      has. */
  ghost predicate FirstOnes(all: seq<Item>, merged: seq<Item>, at: seq<nat>) {
    && |at| == |merged| && (forall i, j | 0 <= i < j < |at| :: at[i] < at[j])
    && (forall i | 0 <= i < |at| :: at[i] < |all| && merged[i] == all[at[i]])
    && forall n: nat | n < |all| :: n in at <==> NoneBefore(all[..n], KeyOf(all[n]))
  }

  ghost predicate NoneBefore(s: seq<Item>, key: string) {
    forall j | 0 <= j < |s| :: KeyOf(s[j]) != key
  }

  /** What stays, and where: the items whose key no earlier item has, in the order of the two lists. */
  lemma {:induction false} UnionKeepsFirst(local: seq<Item>, remote: seq<Item>) returns (at: seq<nat>)
    ensures FirstOnes(local + remote, Union(local, remote), at)
  {
    ExtendConcat([], local, remote);
    at := KeptAt(local + remote);
  }

  lemma {:induction false} KeptAt(all: seq<Item>) returns (at: seq<nat>)
    ensures FirstOnes(all, Extend([], all), at)
  {
    at := [];
    if all != [] {
      var front, last := all[..|all| - 1], all[|all| - 1];
      at := KeptAt(front);
      assert all == front + [last];
      ExtendConcat([], front, [last]);
      assert Extend([], all) == Add(Extend([], front), last);
      FindInExtend([], front, KeyOf(last));
      FindIff(front, KeyOf(last));
      if NoneBefore(front, KeyOf(last)) {
        OneMore(front, Extend([], front), at, last);
        at := at + [|front|];
      } else {
        NoMore(front, Extend([], front), at, last);
      }
    }
  }

  lemma {:induction false} SameFronts(front: seq<Item>, last: Item)
    ensures forall n: nat | n < |front| :: (front + [last])[..n] == front[..n]
    ensures (front + [last])[..|front|] == front
  {
  }

  lemma {:induction false} OneMore(front: seq<Item>, merged: seq<Item>, at: seq<nat>, last: Item)
    requires FirstOnes(front, merged, at) && NoneBefore(front, KeyOf(last))
    ensures FirstOnes(front + [last], merged + [last], at + [|front|])
  {
    SameFronts(front, last);
    var n, all, longer := |front|, front + [last], at + [|front|];
    assert longer[|at|] == n && n in longer;
    forall m: nat | m < |all|
      ensures m in longer <==> NoneBefore(all[..m], KeyOf(all[m]))
    {
      assert m < n ==> all[m] == front[m] && (m in longer <==> m in at);
    }
  }

  lemma {:induction false} NoMore(front: seq<Item>, merged: seq<Item>, at: seq<nat>, last: Item)
    requires FirstOnes(front, merged, at) && !NoneBefore(front, KeyOf(last))
    ensures FirstOnes(front + [last], merged, at)
  {
    SameFronts(front, last);
    var n, all := |front|, front + [last];
    forall m: nat | m < |all|
      ensures m in at <==> NoneBefore(all[..m], KeyOf(all[m]))
    {
      assert m < n ==> all[m] == front[m];
    }
  }

  ghost predicate KeysDiffer(s: seq<Item>) {
    forall i, j | 0 <= i < j < |s| :: KeyOf(s[i]) != KeyOf(s[j])
  }

  lemma {:induction false} Found(s: seq<Item>, i: nat)
    requires i < |s|
    ensures Find(s, KeyOf(s[i])).Some?
  {
    if i > 0 {
      Found(s[1..], i - 1);
    }
  }

  lemma {:induction false} ExtendKeepsKeysApart(merged: seq<Item>, items: seq<Item>)
    requires KeysDiffer(merged)
    ensures KeysDiffer(Extend(merged, items)) && merged <= Extend(merged, items)
    decreases items
  {
    if items != [] {
      forall i | 0 <= i < |merged|
        ensures Find(merged, KeyOf(merged[i])).Some?
      {
        Found(merged, i);
      }
      ExtendKeepsKeysApart(Add(merged, items[0]), items[1..]);
    }
  }

  /** No key occurs twice, and what the local list contributes comes first, in its own order. */
  lemma {:induction false} UnionHasNoDuplicates(local: seq<Item>, remote: seq<Item>)
    ensures KeysDiffer(Union(local, remote)) && Union(local, []) <= Union(local, remote)
  {
    ExtendKeepsKeysApart([], local);
    ExtendKeepsKeysApart(Extend([], local), remote);
  }

  lemma {:induction false} AddAfterExtend(merged: seq<Item>, items: seq<Item>, x: Item)
    ensures Extend(merged, Add(items, x)) == Add(Extend(merged, items), x)
  {
    FindInExtend(merged, items, KeyOf(x));
    ExtendConcat(merged, items, [x]);
    var e := Extend(merged, items);
    assert Extend(e, [x]) == Add(e, x);
  }

  lemma {:induction false} ExtendByExtended(merged: seq<Item>, a: seq<Item>, b: seq<Item>)
    ensures Extend(merged, Extend(a, b)) == Extend(Extend(merged, a), b)
    decreases b
  {
    if b != [] {
      ExtendByExtended(merged, Add(a, b[0]), b[1..]);
      AddAfterExtend(merged, a, b[0]);
    }
  }

  /** Grouping never matters. */
  lemma {:induction false} UnionAssociates(a: seq<Item>, b: seq<Item>, c: seq<Item>)
    ensures Union(Union(a, b), c) == Union(a, Union(b, c))
  {
    var base := Extend([], a);
    ExtendByExtended([], base, b);
    ExtendByExtended([], [], a);
    ExtendByExtended(base, Extend([], b), c);
    ExtendByExtended(base, [], b);
  }

  /** Merging a list that is already merged in changes nothing. */
  lemma {:induction false} UnionIdempotent(a: seq<Item>)
    requires KeysDiffer(a)
    ensures Union(a, a) == a
  {
    ExtendByItself([], a);
    assert [] + a == a;
    forall i | 0 <= i < |a|
      ensures Find(a, KeyOf(a[i])).Some?
    {
      Found(a, i);
    }
    ExtendByKnown(a, a);
  }

  lemma {:induction false} ExtendByItself(merged: seq<Item>, a: seq<Item>)
    requires KeysDiffer(merged + a)
    ensures Extend(merged, a) == merged + a
    decreases a
  {
    if a == [] {
      assert merged + a == merged;
    } else {
      NotFound(merged, a);
      assert merged + [a[0]] + a[1..] == merged + a;
      ExtendByItself(merged + [a[0]], a[1..]);
    }
  }

  lemma {:induction false} NotFound(merged: seq<Item>, a: seq<Item>)
    requires a != [] && KeysDiffer(merged + a)
    ensures Find(merged, KeyOf(a[0])).None?
  {
    if merged != [] {
      assert (merged + a)[0] == merged[0] && (merged + a)[|merged|] == a[0];
      assert (merged + a)[1..] == merged[1..] + a;
      NotFound(merged[1..], a);
    }
  }

  lemma {:induction false} ExtendByKnown(merged: seq<Item>, a: seq<Item>)
    requires forall i | 0 <= i < |a| :: Find(merged, KeyOf(a[i])).Some?
    ensures Extend(merged, a) == merged
  {
    if a != [] {
      ExtendByKnown(merged, a[1..]);
    }
  }
}
