/** The registry invariant of `EventModule` and what the subscription operations
    guarantee about the handler lists and the owner index. */
module BusRegistry {
  import opened Wrappers
  import opened EventBus

  // ---------------------------------------------------------------------------
  // The invariant
  // ---------------------------------------------------------------------------

  /** No delegate appears twice in one id's list (the duplicate check of `Subscribe`). */
  predicate DistinctHandlers(s: seq<Wrapper>) {
    forall i, j :: 0 <= i < j < |s| ==> s[i].handler != s[j].handler
  }

  /** Every registered id is positive and has a non-empty list without duplicates. */
  ghost predicate PoolOk(pool: Pool) {
    forall id :: id in pool ==> id > 0 && pool[id] != [] && DistinctHandlers(pool[id])
  }

  /** The owner index holds exactly the pairs whose wrapper names that owner, and
      no owner maps to an empty list. */
  ghost predicate OwnersOk(pool: Pool, owners: OwnerIndex) {
    && (forall o :: o in owners ==> owners[o] != [])
    && (forall o, p :: o in owners && p in owners[o] ==> OwnedBy(pool, p.0, p.1, o))
    && (forall id, w :: id in pool && w in pool[id] && w.owner.Some? ==>
          w.owner.value in owners && (id, w.handler) in owners[w.owner.value])
  }

  /** The invariant every operation of the bus keeps: valid lists, an exact owner
      index and `TotalHandlerCount` equal to the number of subscriptions. */
  ghost predicate Inv(b: Bus) {
    PoolOk(b.pool) && OwnersOk(b.pool, b.owners) && b.total == SumLens(b.pool)
  }

  // ---------------------------------------------------------------------------
  // Filters used to describe removals
  // ---------------------------------------------------------------------------

  /** The wrappers of id `id` whose pair `(id, handler)` is not in `gone`, in order. */
  function Keep(s: seq<Wrapper>, id: int, gone: set<(int, Handler)>): (r: seq<Wrapper>)
    ensures |r| <= |s|
  {
    if s == [] then []
    else (if (id, s[0].handler) in gone then [] else [s[0]]) + Keep(s[1..], id, gone)
  }

  lemma {:induction false} KeepMembers(s: seq<Wrapper>, id: int, gone: set<(int, Handler)>)
    ensures forall w :: w in Keep(s, id, gone) <==> w in s && (id, w.handler) !in gone
  {
    if s != [] {
      KeepMembers(s[1..], id, gone);
      assert s == [s[0]] + s[1..];
    }
  }

  /** The registry with the subscriptions `gone` removed and emptied ids dropped. */
  function Without(pool: Pool, gone: set<(int, Handler)>): (r: Pool)
    ensures forall id :: id in r <==> id in pool && Keep(pool[id], id, gone) != []
    ensures forall id :: id in r ==> r[id] == Keep(pool[id], id, gone)
  {
    map id | id in pool && Keep(pool[id], id, gone) != [] :: Keep(pool[id], id, gone)
  }

  /** The owner index with the pairs `gone` removed and emptied owners dropped. */
  function OwnersWithout(owners: OwnerIndex, gone: set<(int, Handler)>): (r: OwnerIndex)
    ensures forall o :: o in r <==> o in owners && RemoveSet(owners[o], gone) != []
    ensures forall o :: o in r ==> r[o] == RemoveSet(owners[o], gone)
  {
    map o | o in owners && RemoveSet(owners[o], gone) != [] :: RemoveSet(owners[o], gone)
  }

  /** The wrappers not registered by owner `o`, in order. */
  function NotOwnedBy(s: seq<Wrapper>, o: Owner): (r: seq<Wrapper>)
    ensures forall w :: w in r <==> w in s && w.owner != Some(o)
  {
    if s == [] then []
    else (if s[0].owner == Some(o) then [] else [s[0]]) + NotOwnedBy(s[1..], o)
  }

  /** The registry with every subscription of owner `o` removed and emptied ids dropped. */
  function DropOwner(pool: Pool, o: Owner): (r: Pool)
    ensures forall id :: id in r <==> id in pool && NotOwnedBy(pool[id], o) != []
    ensures forall id :: id in r ==> r[id] == NotOwnedBy(pool[id], o)
  {
    map id | id in pool && NotOwnedBy(pool[id], o) != [] :: NotOwnedBy(pool[id], o)
  }

  function Elems(ps: seq<(int, Handler)>): set<(int, Handler)> {
    set p | p in ps
  }

  // ---------------------------------------------------------------------------
  // Sequence facts
  // ---------------------------------------------------------------------------

  lemma {:induction false} KeepConcat(a: seq<Wrapper>, b: seq<Wrapper>, id: int, gone: set<(int, Handler)>)
    ensures Keep(a + b, id, gone) == Keep(a, id, gone) + Keep(b, id, gone)
  {
    if a != [] {
      assert (a + b)[0] == a[0];
      assert (a + b)[1..] == a[1..] + b;
      KeepConcat(a[1..], b, id, gone);
    } else {
      assert a + b == b;
    }
  }

  lemma {:induction false} KeepNothing(s: seq<Wrapper>, id: int, gone: set<(int, Handler)>)
    requires forall w :: w in s ==> (id, w.handler) !in gone
    ensures Keep(s, id, gone) == s
  {
    if s != [] {
      KeepNothing(s[1..], id, gone);
    }
  }

  lemma {:induction false} KeepKeep(s: seq<Wrapper>, id: int, a: set<(int, Handler)>, b: set<(int, Handler)>)
    ensures Keep(Keep(s, id, a), id, b) == Keep(s, id, a + b)
  {
    if s != [] {
      KeepKeep(s[1..], id, a, b);
      var head := if (id, s[0].handler) in a then [] else [s[0]];
      KeepConcat(head, Keep(s[1..], id, a), id, b);
    }
  }

  lemma {:induction false} RemoveSetTwice(s: seq<(int, Handler)>, a: set<(int, Handler)>, b: set<(int, Handler)>)
    ensures RemoveSet(RemoveSet(s, a), b) == RemoveSet(s, a + b)
  {
    if s != [] {
      RemoveSetTwice(s[1..], a, b);
      var head := if s[0] in a then [] else [s[0]];
      RemoveSetConcat(head, RemoveSet(s[1..], a), b);
    }
  }

  lemma {:induction false} RemoveSetConcat(x: seq<(int, Handler)>, y: seq<(int, Handler)>, gone: set<(int, Handler)>)
    ensures RemoveSet(x + y, gone) == RemoveSet(x, gone) + RemoveSet(y, gone)
  {
    if x != [] {
      assert (x + y)[0] == x[0];
      assert (x + y)[1..] == x[1..] + y;
      RemoveSetConcat(x[1..], y, gone);
    } else {
      assert x + y == y;
    }
  }

  lemma {:induction false} RemoveSetNothing(s: seq<(int, Handler)>, gone: set<(int, Handler)>)
    requires forall p :: p in s ==> p !in gone
    ensures RemoveSet(s, gone) == s
  {
    if s != [] {
      RemoveSetNothing(s[1..], gone);
    }
  }

  lemma {:induction false} KeepDistinct(s: seq<Wrapper>, id: int, gone: set<(int, Handler)>)
    requires DistinctHandlers(s)
    ensures DistinctHandlers(Keep(s, id, gone))
  {
    if s != [] {
      assert DistinctHandlers(s[1..]) by {
        forall i, j | 0 <= i < j < |s[1..]| ensures s[1..][i].handler != s[1..][j].handler {
          assert s[1..][i] == s[i + 1] && s[1..][j] == s[j + 1];
        }
      }
      KeepDistinct(s[1..], id, gone);
      KeepMembers(s[1..], id, gone);
      var t := Keep(s[1..], id, gone);
      forall w | w in t ensures w.handler != s[0].handler {
        var j :| 1 <= j < |s| && s[j] == w;
      }
    }
  }

  /** In a list without duplicate delegates, a delegate determines its wrapper. */
  lemma SameHandlerSameWrapper(s: seq<Wrapper>, x: Wrapper, y: Wrapper)
    requires DistinctHandlers(s) && x in s && y in s && x.handler == y.handler
    ensures x == y
  {
    var i :| 0 <= i < |s| && s[i] == x;
    var j :| 0 <= j < |s| && s[j] == y;
    if i < j { assert false; } else if j < i { assert false; }
  }

  lemma KeepRemoveAt(s: seq<Wrapper>, id: int, i: int)
    requires DistinctHandlers(s) && 0 <= i < |s|
    ensures Keep(s, id, {(id, s[i].handler)}) == s[..i] + s[i + 1..]
  {
    var pre, x, post := s[..i], s[i], s[i + 1..];
    KeepOthers(s, id, i, 0, i);
    KeepOthers(s, id, i, i + 1, |s|);
    assert s[0..i] == pre;
    assert s[i + 1..|s|] == post;
    assert s == pre + [x] + post;
    KeepSplice(pre, x, post, id);
  }

  lemma KeepSplice(pre: seq<Wrapper>, x: Wrapper, post: seq<Wrapper>, id: int)
    requires Keep(pre, id, {(id, x.handler)}) == pre
    requires Keep(post, id, {(id, x.handler)}) == post
    ensures Keep(pre + [x] + post, id, {(id, x.handler)}) == pre + post
  {
    var g := {(id, x.handler)};
    assert pre + [x] + post == pre + ([x] + post);
    KeepConcat(pre, [x] + post, id, g);
    assert Keep([x] + post, id, g) == post by {
      assert ([x] + post)[0] == x;
      assert ([x] + post)[1..] == post;
    }
  }

  /** A slice that avoids index `i` loses nothing when `s[i]`'s subscription is removed. */
  lemma KeepOthers(s: seq<Wrapper>, id: int, i: int, lo: int, hi: int)
    requires DistinctHandlers(s) && 0 <= i < |s| && 0 <= lo <= hi <= |s| && (hi <= i || i < lo)
    ensures Keep(s[lo..hi], id, {(id, s[i].handler)}) == s[lo..hi]
  {
    forall w | w in s[lo..hi] ensures (id, w.handler) !in {(id, s[i].handler)} {
      var j :| lo <= j < hi && s[j] == w;
    }
    KeepNothing(s[lo..hi], id, {(id, s[i].handler)});
  }

  lemma {:induction false} DistinctAppend(s: seq<Wrapper>, w: Wrapper)
    requires DistinctHandlers(s) && !Contains(s, w.handler)
    ensures DistinctHandlers(s + [w])
  {
  }

  // ---------------------------------------------------------------------------
  // Counting
  // ---------------------------------------------------------------------------

  lemma {:induction false} SumLensRemove(pool: Pool, k: int)
    requires k in pool
    ensures SumLens(pool) == |pool[k]| + SumLens(pool - {k})
    decreases |pool.Keys|
  {
    NonEmptyPoolHasKey(pool);
    var id :| id in pool && SumLens(pool) == |pool[id]| + SumLens(pool - {id});
    if id != k {
      assert (pool - {id}).Keys == pool.Keys - {id};
      assert (pool - {k}).Keys == pool.Keys - {k};
      SumLensRemove(pool - {id}, k);
      SumLensRemove(pool - {k}, id);
      assert pool - {id} - {k} == pool - {k} - {id};
    }
  }

  /** Replacing one list changes the total by the difference in length. */
  lemma SumLensUpdate(pool: Pool, k: int, s: seq<Wrapper>)
    ensures SumLens(pool[k := s]) == SumLens(pool) - |Handlers(pool, k)| + |s|
  {
    SumLensRemove(pool[k := s], k);
    assert pool[k := s] - {k} == pool - {k};
    if k in pool {
      SumLensRemove(pool, k);
    } else {
      assert pool - {k} == pool;
    }
  }

  lemma SumLensDrop(pool: Pool, k: int)
    ensures SumLens(pool - {k}) == SumLens(pool) - |Handlers(pool, k)|
  {
    if k in pool {
      SumLensRemove(pool, k);
    } else {
      assert pool - {k} == pool;
    }
  }

  // ---------------------------------------------------------------------------
  // The invariant after each operation
  // ---------------------------------------------------------------------------

  lemma EmptyBusInv()
    ensures Inv(EmptyBus)
  {
    assert SumLens(map[]) == 0;
  }

  lemma ShutdownInv(b: Bus)
    ensures Inv(Shutdown(b))
  {
    EmptyBusInv();
  }

  /** The invariant does not mention the queue, the cache or the default slot. */
  lemma InvIgnoresRest(b: Bus, c: Bus)
    requires Inv(b) && c.pool == b.pool && c.owners == b.owners && c.total == b.total
    ensures Inv(c)
  {
  }

  /** A subscription that is added keeps the invariant; `TotalHandlerCount` rises by one. */
  lemma SubscribeInv(b: Bus, id: int, h: Option<Handler>, once: bool, owner: Option<Owner>)
    requires Inv(b)
    requires Subscribe(b, id, h, once, owner).Success?
    ensures Inv(Subscribe(b, id, h, once, owner).value)
  {
    var r := Subscribe(b, id, h, once, owner).value;
    if !Subscribed(b.pool, id, h.value) {
      var w := Wrapper(h.value, once, owner);
      var list := Handlers(b.pool, id) + [w];
      assert r.pool == b.pool[id := list];
      if id in b.pool {
        DistinctAppend(b.pool[id], w);
      }
      SumLensUpdate(b.pool, id, list);
      AddIndexed(b, id, w, r.pool, r.owners);
      AddWrapped(b, id, w, r.pool, r.owners);
    }
  }

  /** After an append, every indexed pair still names a wrapper with that owner. */
  lemma AddIndexed(b: Bus, id: int, w: Wrapper, pool: Pool, owners: OwnerIndex)
    requires OwnersOk(b.pool, b.owners)
    requires pool == b.pool[id := Handlers(b.pool, id) + [w]]
    requires owners == if w.owner.Some? then
      b.owners[w.owner.value := (if w.owner.value in b.owners then b.owners[w.owner.value] else []) + [(id, w.handler)]]
      else b.owners
    ensures forall o, p :: o in owners && p in owners[o] ==> OwnedBy(pool, p.0, p.1, o)
  {
    forall o, p | o in owners && p in owners[o] ensures OwnedBy(pool, p.0, p.1, o) {
      if w.owner == Some(o) && p == (id, w.handler) {
        assert w in pool[id];
      } else {
        assert o in b.owners && p in b.owners[o];
        var x := OwnedWrapper(b.pool, p.0, p.1, o);
        assert x in pool[p.0];
      }
    }
  }

  /** After an append, every wrapper with an owner is indexed under it. */
  lemma AddWrapped(b: Bus, id: int, w: Wrapper, pool: Pool, owners: OwnerIndex)
    requires OwnersOk(b.pool, b.owners)
    requires pool == b.pool[id := Handlers(b.pool, id) + [w]]
    requires owners == if w.owner.Some? then
      b.owners[w.owner.value := (if w.owner.value in b.owners then b.owners[w.owner.value] else []) + [(id, w.handler)]]
      else b.owners
    ensures OwnersOk(pool, owners)
  {
    AddIndexed(b, id, w, pool, owners);
    forall id', x | id' in pool && x in pool[id'] && x.owner.Some?
      ensures x.owner.value in owners && (id', x.handler) in owners[x.owner.value]
    {
      if !(id' == id && x == w) {
        assert id' in b.pool && x in b.pool[id'];
      }
    }
  }

  // ---------------------------------------------------------------------------
  // Removal
  // ---------------------------------------------------------------------------

  lemma InContains(s: seq<Wrapper>, x: Wrapper)
    requires x in s
    ensures Contains(s, x.handler)
  {
    var k :| 0 <= k < |s| && s[k] == x;
    assert s[k].handler == x.handler;
  }

  /** The wrapper that makes `OwnedBy` true. */
  lemma OwnedWrapper(pool: Pool, id: int, h: Handler, o: Owner) returns (x: Wrapper)
    requires OwnedBy(pool, id, h, o)
    ensures id in pool && x in pool[id] && x.handler == h && x.owner == Some(o)
  {
    if Wrapper(h, false, Some(o)) in pool[id] {
      x := Wrapper(h, false, Some(o));
    } else {
      x := Wrapper(h, true, Some(o));
    }
  }

  /** A pair in the owner index names a subscription that exists. */
  lemma IndexedIsSubscribed(b: Bus, o: Owner, p: (int, Handler))
    requires Inv(b) && o in b.owners && p in b.owners[o]
    ensures Subscribed(b.pool, p.0, p.1)
  {
    var x := OwnedWrapper(b.pool, p.0, p.1, o);
    InContains(b.pool[p.0], x);
  }

  /** A pair is indexed under at most one owner: the one its wrapper records. */
  lemma IndexedUnderItsOwner(b: Bus, o: Owner, p: (int, Handler), w: Wrapper)
    requires Inv(b) && o in b.owners && p in b.owners[o]
    requires p.0 in b.pool && w in b.pool[p.0] && w.handler == p.1
    ensures w.owner == Some(o)
  {
    var x := OwnedWrapper(b.pool, p.0, p.1, o);
    SameHandlerSameWrapper(b.pool[p.0], x, w);
  }

  /** Removing any set of subscriptions keeps the lists and the owner index valid. */
  lemma WithoutOk(pool: Pool, owners: OwnerIndex, gone: set<(int, Handler)>)
    requires PoolOk(pool) && OwnersOk(pool, owners)
    ensures PoolOk(Without(pool, gone))
    ensures OwnersOk(Without(pool, gone), OwnersWithout(owners, gone))
  {
    WithoutPoolOk(pool, gone);
    WithoutOwnersSound(pool, owners, gone);
    WithoutOwnersComplete(pool, owners, gone);
  }

  lemma WithoutPoolOk(pool: Pool, gone: set<(int, Handler)>)
    requires PoolOk(pool)
    ensures PoolOk(Without(pool, gone))
  {
    var p2 := Without(pool, gone);
    forall id | id in p2 ensures id > 0 && p2[id] != [] && DistinctHandlers(p2[id]) {
      KeepDistinct(pool[id], id, gone);
    }
  }

  /** Every pair left in the index still names a subscription of its owner. */
  lemma WithoutOwnersSound(pool: Pool, owners: OwnerIndex, gone: set<(int, Handler)>)
    requires OwnersOk(pool, owners)
    ensures forall o, p :: o in OwnersWithout(owners, gone) && p in OwnersWithout(owners, gone)[o] ==>
      OwnedBy(Without(pool, gone), p.0, p.1, o)
  {
    var p2, o2 := Without(pool, gone), OwnersWithout(owners, gone);
    forall o: Owner, p: (int, Handler) | o in o2 && p in o2[o] ensures OwnedBy(p2, p.0, p.1, o) {
      assert OwnedBy(pool, p.0, p.1, o);
      var x := OwnedWrapper(pool, p.0, p.1, o);
      KeepMembers(pool[p.0], p.0, gone);
      assert x in Keep(pool[p.0], p.0, gone);
    }
  }

  /** Every owned subscription left is still in the index. */
  lemma WithoutOwnersComplete(pool: Pool, owners: OwnerIndex, gone: set<(int, Handler)>)
    requires OwnersOk(pool, owners)
    ensures forall id, w :: id in Without(pool, gone) && w in Without(pool, gone)[id] && w.owner.Some? ==>
      w.owner.value in OwnersWithout(owners, gone) && (id, w.handler) in OwnersWithout(owners, gone)[w.owner.value]
  {
    var p2, o2 := Without(pool, gone), OwnersWithout(owners, gone);
    forall id: int, w: Wrapper | id in p2 && w in p2[id] && w.owner.Some?
      ensures w.owner.value in o2 && (id, w.handler) in o2[w.owner.value]
    {
      KeepMembers(pool[id], id, gone);
      assert (id, w.handler) in RemoveSet(owners[w.owner.value], gone);
    }
  }

  lemma WithoutTwice(pool: Pool, a: set<(int, Handler)>, b: set<(int, Handler)>)
    ensures Without(Without(pool, a), b) == Without(pool, a + b)
  {
    forall id | id in pool ensures Keep(Keep(pool[id], id, a), id, b) == Keep(pool[id], id, a + b) {
      KeepKeep(pool[id], id, a, b);
    }
  }

  lemma OwnersWithoutTwice(owners: OwnerIndex, a: set<(int, Handler)>, b: set<(int, Handler)>)
    ensures OwnersWithout(OwnersWithout(owners, a), b) == OwnersWithout(owners, a + b)
  {
    forall o | o in owners ensures RemoveSet(RemoveSet(owners[o], a), b) == RemoveSet(owners[o], a + b) {
      RemoveSetTwice(owners[o], a, b);
    }
  }

  lemma WithoutNone(pool: Pool)
    requires PoolOk(pool)
    ensures Without(pool, {}) == pool
  {
    forall id | id in pool ensures Keep(pool[id], id, {}) == pool[id] {
      KeepNothing(pool[id], id, {});
    }
  }

  lemma OwnersWithoutNone(pool: Pool, owners: OwnerIndex)
    requires OwnersOk(pool, owners)
    ensures OwnersWithout(owners, {}) == owners
  {
    forall o | o in owners ensures RemoveSet(owners[o], {}) == owners[o] {
      RemoveSetNothing(owners[o], {});
    }
  }

  /** `UnsubscribeInternal(id, h)` removes exactly the subscription `(id, h)`: the
      other wrappers keep their order, and `TotalHandlerCount` drops by one exactly
      when something was removed. */
  lemma UnsubscribeInternalShape(b: Bus, id: int, h: Handler)
    requires Inv(b)
    ensures UnsubscribeInternal(b, id, h).pool == Without(b.pool, {(id, h)})
    ensures UnsubscribeInternal(b, id, h).owners == OwnersWithout(b.owners, {(id, h)})
    ensures UnsubscribeInternal(b, id, h).total == b.total - (if Subscribed(b.pool, id, h) then 1 else 0)
  {
    if Subscribed(b.pool, id, h) {
      RemovePoolShape(b, id, h);
      RemoveOwnersShape(b, id, h);
    } else {
      AbsentShape(b, id, h);
    }
  }

  /** Other ids are untouched by removing a subscription of `id`. */
  lemma OtherIdsKept(pool: Pool, id: int, h: Handler)
    ensures forall id' :: id' in pool && id' != id ==> Keep(pool[id'], id', {(id, h)}) == pool[id']
  {
    forall id' | id' in pool && id' != id ensures Keep(pool[id'], id', {(id, h)}) == pool[id'] {
      KeepNothing(pool[id'], id', {(id, h)});
    }
  }

  lemma AbsentShape(b: Bus, id: int, h: Handler)
    requires Inv(b) && !Subscribed(b.pool, id, h)
    ensures Without(b.pool, {(id, h)}) == b.pool
    ensures OwnersWithout(b.owners, {(id, h)}) == b.owners
  {
    AbsentPool(b, id, h);
    forall o | o in b.owners ensures RemoveSet(b.owners[o], {(id, h)}) == b.owners[o] && b.owners[o] != [] {
      forall p | p in b.owners[o] ensures p !in {(id, h)} {
        IndexedIsSubscribed(b, o, p);
      }
      RemoveSetNothing(b.owners[o], {(id, h)});
    }
    OwnersWithoutOne(b.owners, {(id, h)}, None);
  }

  lemma AbsentPool(b: Bus, id: int, h: Handler)
    requires PoolOk(b.pool) && !Subscribed(b.pool, id, h)
    ensures Without(b.pool, {(id, h)}) == b.pool
  {
    OtherIdsKept(b.pool, id, h);
    if id in b.pool {
      forall w | w in b.pool[id] ensures (id, w.handler) !in {(id, h)} {
        InContains(b.pool[id], w);
      }
      KeepNothing(b.pool[id], id, {(id, h)});
    }
  }

  /** Removing pairs that at most one owner's list holds. */
  lemma OwnersWithoutOne(owners: OwnerIndex, gone: set<(int, Handler)>, o: Option<Owner>)
    requires forall o' :: o' in owners && Some(o') != o ==> RemoveSet(owners[o'], gone) == owners[o'] && owners[o'] != []
    ensures OwnersWithout(owners, gone) ==
      if o.Some? && o.value in owners then
        var left := RemoveSet(owners[o.value], gone);
        if |left| == 0 then owners - {o.value} else owners[o.value := left]
      else owners
  {
    if o.Some? && o.value in owners {
      OwnersWithoutAt(owners, gone, o.value);
    } else {
      OwnersUntouched(owners, gone);
    }
  }

  lemma OwnersUntouched(owners: OwnerIndex, gone: set<(int, Handler)>)
    requires forall o :: o in owners ==> RemoveSet(owners[o], gone) == owners[o] && owners[o] != []
    ensures OwnersWithout(owners, gone) == owners
  {
    var r := OwnersWithout(owners, gone);
    assert r.Keys == owners.Keys;
  }

  lemma OwnersWithoutAt(owners: OwnerIndex, gone: set<(int, Handler)>, o: Owner)
    requires o in owners
    requires forall o' :: o' in owners && o' != o ==> RemoveSet(owners[o'], gone) == owners[o'] && owners[o'] != []
    ensures OwnersWithout(owners, gone) ==
      var left := RemoveSet(owners[o], gone);
      if |left| == 0 then owners - {o} else owners[o := left]
  {
    var r := OwnersWithout(owners, gone);
    var left := RemoveSet(owners[o], gone);
    var e := if |left| == 0 then owners - {o} else owners[o := left];
    assert r.Keys == e.Keys;
  }

  lemma RemovePoolShape(b: Bus, id: int, h: Handler)
    requires Inv(b) && Subscribed(b.pool, id, h)
    ensures UnsubscribeInternal(b, id, h).pool == Without(b.pool, {(id, h)})
  {
    OtherIdsKept(b.pool, id, h);
    var list := b.pool[id];
    var i := LastIndexOf(list, h);
    KeepRemoveAt(list, id, i);
  }

  lemma RemoveOwnersShape(b: Bus, id: int, h: Handler)
    requires Inv(b) && Subscribed(b.pool, id, h)
    ensures UnsubscribeInternal(b, id, h).owners == OwnersWithout(b.owners, {(id, h)})
  {
    var g := {(id, h)};
    var list := b.pool[id];
    var w := list[LastIndexOf(list, h)];
    forall o | o in b.owners && Some(o) != w.owner ensures RemoveSet(b.owners[o], g) == b.owners[o] && b.owners[o] != [] {
      forall p | p in b.owners[o] ensures p !in g {
        if p == (id, h) {
          IndexedUnderItsOwner(b, o, p, w);
        }
      }
      RemoveSetNothing(b.owners[o], g);
    }
    OwnersWithoutOne(b.owners, g, w.owner);
  }

  lemma UnsubscribeInternalInv(b: Bus, id: int, h: Handler)
    requires Inv(b)
    ensures Inv(UnsubscribeInternal(b, id, h))
  {
    var r := UnsubscribeInternal(b, id, h);
    UnsubscribeInternalShape(b, id, h);
    WithoutOk(b.pool, b.owners, {(id, h)});
    if Subscribed(b.pool, id, h) {
      var list := b.pool[id];
      var i := LastIndexOf(list, h);
      var rest := list[..i] + list[i + 1..];
      if |rest| == 0 {
        SumLensDrop(b.pool, id);
      } else {
        SumLensUpdate(b.pool, id, rest);
      }
    }
  }

  /** Removing the pairs of a snapshot one by one removes all of them at once. */
  lemma {:induction false} UnsubscribeEachShape(b: Bus, ps: seq<(int, Handler)>)
    requires Inv(b)
    ensures Inv(UnsubscribeEach(b, ps))
    ensures UnsubscribeEach(b, ps).pool == Without(b.pool, Elems(ps))
    ensures UnsubscribeEach(b, ps).owners == OwnersWithout(b.owners, Elems(ps))
    decreases |ps|
  {
    if ps == [] {
      assert Elems(ps) == {};
      WithoutNone(b.pool);
      OwnersWithoutNone(b.pool, b.owners);
    } else {
      var b1 := UnsubscribeInternal(b, ps[0].0, ps[0].1);
      UnsubscribeInternalShape(b, ps[0].0, ps[0].1);
      UnsubscribeInternalInv(b, ps[0].0, ps[0].1);
      UnsubscribeEachShape(b1, ps[1..]);
      assert {(ps[0].0, ps[0].1)} == {ps[0]};
      WithoutTwice(b.pool, {ps[0]}, Elems(ps[1..]));
      OwnersWithoutTwice(b.owners, {ps[0]}, Elems(ps[1..]));
      assert Elems(ps) == {ps[0]} + Elems(ps[1..]);
    }
  }

  // ---------------------------------------------------------------------------
  // The public removal operations
  // ---------------------------------------------------------------------------

  /** `Unsubscribe(id, h)` leaves `h` unsubscribed from `id`, keeps every other
      subscription in its order, and keeps the invariant. */
  lemma UnsubscribeResult(b: Bus, id: int, h: Handler)
    requires Inv(b) && id > 0
    ensures Unsubscribe(b, id, Some(h)).Success?
    ensures Inv(Unsubscribe(b, id, Some(h)).value)
    ensures Unsubscribe(b, id, Some(h)).value.pool == Without(b.pool, {(id, h)})
    ensures !Subscribed(Unsubscribe(b, id, Some(h)).value.pool, id, h)
  {
    if id in b.pool {
      UnsubscribeInternalShape(b, id, h);
      UnsubscribeInternalInv(b, id, h);
      NotSubscribedAfterWithout(b.pool, id, h, {(id, h)});
    } else {
      AbsentShape(b, id, h);
    }
  }

  lemma NotSubscribedAfterWithout(pool: Pool, id: int, h: Handler, gone: set<(int, Handler)>)
    requires (id, h) in gone
    ensures !Subscribed(Without(pool, gone), id, h)
  {
    var p2: Pool := Without(pool, gone);
    if id in p2 {
      KeepMembers(pool[id], id, gone);
      forall k: int | 0 <= k < |p2[id]| ensures p2[id][k].handler != h {
        assert p2[id][k] in Keep(pool[id], id, gone);
      }
    }
  }

  /** A subscription outside `gone` survives the removal. */
  lemma SubscribedAfterWithout(pool: Pool, id: int, h: Handler, gone: set<(int, Handler)>)
    requires Subscribed(pool, id, h) && (id, h) !in gone
    ensures Subscribed(Without(pool, gone), id, h)
  {
    var i :| 0 <= i < |pool[id]| && pool[id][i].handler == h;
    KeepMembers(pool[id], id, gone);
    var kept := Keep(pool[id], id, gone);
    assert pool[id][i] in kept;
    var j :| 0 <= j < |kept| && kept[j] == pool[id][i];
  }

  lemma {:induction false} KeepAsNotOwned(s: seq<Wrapper>, id: int, gone: set<(int, Handler)>, o: Owner)
    requires forall w :: w in s ==> ((id, w.handler) in gone <==> w.owner == Some(o))
    ensures Keep(s, id, gone) == NotOwnedBy(s, o)
  {
    if s != [] {
      assert s[0] in s;
      KeepAsNotOwned(s[1..], id, gone, o);
    }
  }

  lemma {:induction false} RemoveSetEverything(s: seq<(int, Handler)>, gone: set<(int, Handler)>)
    requires forall p :: p in s ==> p in gone
    ensures RemoveSet(s, gone) == []
  {
    if s != [] {
      RemoveSetEverything(s[1..], gone);
    }
  }

  lemma {:induction false} NotOwnedNothing(s: seq<Wrapper>, o: Owner)
    requires forall w :: w in s ==> w.owner != Some(o)
    ensures NotOwnedBy(s, o) == s
  {
    if s != [] {
      assert s[0] in s;
      NotOwnedNothing(s[1..], o);
    }
  }

  /** `UnsubscribeByOwner(o)` removes exactly the subscriptions registered with
      owner `o`, keeps the others in order, forgets `o`, and keeps the invariant. */
  lemma UnsubscribeByOwnerResult(b: Bus, o: Owner)
    requires Inv(b)
    ensures Inv(UnsubscribeByOwner(b, Some(o)))
    ensures UnsubscribeByOwner(b, Some(o)).pool == DropOwner(b.pool, o)
    ensures UnsubscribeByOwner(b, Some(o)).owners == b.owners - {o}
  {
    if o !in b.owners {
      UnknownOwnerOwnsNothing(b, o);
      assert b.owners - {o} == b.owners;
    } else {
      UnsubscribeEachShape(b, b.owners[o]);
      OwnerPairsArePool(b, o);
      OwnerPairsAreIndex(b, o);
    }
  }

  lemma UnknownOwnerOwnsNothing(b: Bus, o: Owner)
    requires Inv(b) && o !in b.owners
    ensures DropOwner(b.pool, o) == b.pool
  {
    var d := DropOwner(b.pool, o);
    forall id | id in b.pool ensures id in d && d[id] == b.pool[id] {
      forall w | w in b.pool[id] && w.owner.Some? ensures w.owner.value != o {
        assert w.owner.value in b.owners;
      }
      NotOwnedNothing(b.pool[id], o);
      assert b.pool[id] != [];
    }
  }

  /** Removing the pairs indexed under `o` is removing the wrappers that name `o`. */
  lemma OwnerPairsArePool(b: Bus, o: Owner)
    requires Inv(b) && o in b.owners
    ensures Without(b.pool, Elems(b.owners[o])) == DropOwner(b.pool, o)
  {
    var g := Elems(b.owners[o]);
    forall id | id in b.pool ensures Keep(b.pool[id], id, g) == NotOwnedBy(b.pool[id], o) {
      forall w | w in b.pool[id] ensures (id, w.handler) in g <==> w.owner == Some(o) {
        if (id, w.handler) in g {
          IndexedUnderItsOwner(b, o, (id, w.handler), w);
        }
      }
      KeepAsNotOwned(b.pool[id], id, g, o);
    }
  }

  /** Removing the pairs indexed under `o` empties `o`'s list and no other. */
  lemma OwnerPairsAreIndex(b: Bus, o: Owner)
    requires Inv(b) && o in b.owners
    ensures OwnersWithout(b.owners, Elems(b.owners[o])) == b.owners - {o}
  {
    var g := Elems(b.owners[o]);
    RemoveSetEverything(b.owners[o], g);
    forall o' | o' in b.owners && o' != o ensures RemoveSet(b.owners[o'], g) == b.owners[o'] {
      forall p | p in b.owners[o'] ensures p !in g {
        if p in g {
          var x := OwnedWrapper(b.pool, p.0, p.1, o');
          IndexedUnderItsOwner(b, o, p, x);
        }
      }
      RemoveSetNothing(b.owners[o'], g);
    }
  }

  lemma {:induction false} KeepEverything(s: seq<Wrapper>, id: int, gone: set<(int, Handler)>)
    requires forall w :: w in s ==> (id, w.handler) in gone
    ensures Keep(s, id, gone) == []
  {
    if s != [] {
      assert s[0] in s;
      KeepEverything(s[1..], id, gone);
    }
  }

  /** `UnsubscribeAll(id)` drops the whole list of `id`, keeps every other id's
      list, and keeps the invariant: no owner still indexes a pair of `id`. */
  lemma UnsubscribeAllResult(b: Bus, id: int)
    requires Inv(b) && id > 0
    ensures UnsubscribeAll(b, id).Success?
    ensures Inv(UnsubscribeAll(b, id).value)
    ensures UnsubscribeAll(b, id).value.pool == b.pool - {id}
    ensures forall o, p :: o in UnsubscribeAll(b, id).value.owners && p in UnsubscribeAll(b, id).value.owners[o] ==> p.0 != id
  {
    if id !in b.pool {
      assert b.pool - {id} == b.pool;
    } else {
      UnsubscribeEachShape(b, PairsOf(id, b.pool[id]));
      WithoutWholeId(b.pool, id);
    }
  }

  lemma WithoutWholeId(pool: Pool, id: int)
    requires PoolOk(pool) && id in pool
    ensures Without(pool, Elems(PairsOf(id, pool[id]))) == pool - {id}
  {
    var ps := PairsOf(id, pool[id]);
    var g := Elems(ps);
    forall id' | id' in pool && id' != id ensures Keep(pool[id'], id', g) == pool[id'] {
      KeepNothing(pool[id'], id', g);
    }
    forall w | w in pool[id] ensures (id, w.handler) in g {
      var k :| 0 <= k < |pool[id]| && pool[id][k] == w;
      assert ps[k] == (id, w.handler);
    }
    KeepEverything(pool[id], id, g);
  }

  /** Subscribing a delegate and unsubscribing it again restores the bus exactly. */
  lemma SubscribeUnsubscribeRoundTrip(b: Bus, id: int, h: Handler, once: bool, owner: Option<Owner>)
    requires Inv(b) && id > 0 && !Subscribed(b.pool, id, h)
    ensures Unsubscribe(Subscribe(b, id, Some(h), once, owner).value, id, Some(h)) == Success(b)
  {
    var b1 := Subscribe(b, id, Some(h), once, owner).value;
    RoundTripPool(b, id, h, once, owner);
    RoundTripOwners(b, id, h, once, owner);
  }

  lemma RoundTripPool(b: Bus, id: int, h: Handler, once: bool, owner: Option<Owner>)
    requires Inv(b) && id > 0 && !Subscribed(b.pool, id, h)
    ensures UnsubscribeInternal(Subscribe(b, id, Some(h), once, owner).value, id, h).pool == b.pool
    ensures UnsubscribeInternal(Subscribe(b, id, Some(h), once, owner).value, id, h).total == b.total
  {
    var b1 := Subscribe(b, id, Some(h), once, owner).value;
    var old_ := Handlers(b.pool, id);
    var list := old_ + [Wrapper(h, once, owner)];
    assert b1.pool[id] == list;
    assert LastIndexOf(list, h) == |old_|;
    assert list[..|old_|] + list[|old_| + 1..] == old_;
    if old_ == [] {
      assert b1.pool - {id} == b.pool;
    } else {
      assert b1.pool[id := old_] == b.pool;
    }
  }

  lemma RoundTripOwners(b: Bus, id: int, h: Handler, once: bool, owner: Option<Owner>)
    requires Inv(b) && id > 0 && !Subscribed(b.pool, id, h)
    ensures UnsubscribeInternal(Subscribe(b, id, Some(h), once, owner).value, id, h).owners == b.owners
  {
    var b1 := Subscribe(b, id, Some(h), once, owner).value;
    var old_ := Handlers(b.pool, id);
    var list := old_ + [Wrapper(h, once, owner)];
    assert b1.pool[id] == list;
    assert LastIndexOf(list, h) == |old_|;
    assert list[|old_|] == Wrapper(h, once, owner);
    if owner.Some? {
      var o := owner.value;
      var m := if o in b.owners then b.owners[o] else [];
      assert b1.owners[o] == m + [(id, h)];
      assert (id, h) !in m by {
        if (id, h) in m {
          IndexedIsSubscribed(b, o, (id, h));
        }
      }
      AppendThenRemove(m, (id, h));
      if m == [] {
        assert b1.owners - {o} == b.owners;
      } else {
        assert b1.owners[o := m] == b.owners;
      }
    }
  }

  /** Appending a pair the list lacks and removing it again gives the list back. */
  lemma AppendThenRemove(m: seq<(int, Handler)>, p: (int, Handler))
    requires p !in m
    ensures RemoveSet(m + [p], {p}) == m
  {
    RemoveSetNothing(m, {p});
    RemoveSetConcat(m, [p], {p});
    assert RemoveSet([p], {p}) == [] by {
      assert [p][1..] == [];
    }
  }

  /** Subscribing an already subscribed delegate again changes nothing. */
  lemma SubscribeIdempotent(b: Bus, id: int, h: Handler, once: bool, owner: Option<Owner>, once': bool, owner': Option<Owner>)
    requires id > 0
    ensures Subscribe(Subscribe(b, id, Some(h), once, owner).value, id, Some(h), once', owner') ==
            Subscribe(b, id, Some(h), once, owner)
  {
  }
}
