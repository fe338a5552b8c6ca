/**
 * The state of `search`'s ancestor walk for one hit `m` while it is under way,
 * split into parts that each step keeps separately: where the walk stands
 * (`Position`), which ids it has fetched (`Progress`), which keys the two memo
 * maps have gained (`KeysSoFar`), and which entry may still lack a named
 * parent (`Pending`). The walk starts with P0 and N0.
 */
module AncestorWalk {
  import opened Wrappers
  import opened Seqs
  import opened Store
  import opened SearchPaths

  /** `itemId` has been fetched; the path built so far is what lies below it. */
  ghost predicate Position(d: Drive, m: Id, itemId: Id, name: string, parentId: Id, itemPath: string)
    requires Valid(d) && m in d.objects && m != Root
  {
    && itemId in d.objects && name == Name(d, itemId) && parentId == ParentOrEmpty(d, itemId)
    && d.depth[itemId] < d.depth[m]
    && ContainerPath(d, m) == Above(d, itemId) + itemPath
  }

  /** The fetches so far are the chain up to `itemId`; the ids entered on the way were not cached. */
  ghost predicate Progress(d: Drive, P0: map<Id, Id>, m: Id, itemId: Id, fetched: seq<Id>, walked: seq<Id>)
    requires Valid(d) && m in d.objects && m != Root && itemId in d.objects
  {
    && fetched == walked + [itemId]
    && fetched + Chain(d, P0.Keys, itemId)[1..] == Chain(d, P0.Keys, ParentOrEmpty(d, m))
    && (forall x :: x in walked ==> x in d.objects && x !in P0 && d.depth[itemId] < d.depth[x] < d.depth[m])
  }

  /** P gained the hit and the entered ids; N gained the entered ids. */
  ghost predicate KeysSoFar(P0: map<Id, Id>, N0: map<Id, string>, P: map<Id, Id>, N: map<Id, string>,
                            m: Id, walked: seq<Id>)
  {
    P.Keys == P0.Keys + {m} + Elems(walked) && N.Keys == N0.Keys + Elems(walked)
  }

  /** Every entry but `prev` is closed, and `prev`'s parent is the id being walked. */
  ghost predicate Pending(P: map<Id, Id>, N: map<Id, string>, prev: Id, itemId: Id) {
    && prev in P && P[prev] == itemId
    && (forall x :: x in P && x != prev ==> Closed(P, N, x))
  }

  ghost predicate WalkInv(d: Drive, m: Id, P0: map<Id, Id>, N0: map<Id, string>, P: map<Id, Id>,
                          N: map<Id, string>, itemId: Id, name: string, parentId: Id, itemPath: string,
                          fetched: seq<Id>, walked: seq<Id>, prev: Id)
  {
    && CacheOK(d, P0, N0) && m in d.objects && m != Root && m !in P0
    && Position(d, m, itemId, name, parentId, itemPath)
    && Progress(d, P0, m, itemId, fetched, walked)
    && KeysSoFar(P0, N0, P, N, m, walked)
    && Entries(d, P, N)
    && Pending(P, N, prev, itemId)
  }

  /** Adding the first parent of a fetched id keeps P and N faithful to the store. */
  lemma EntriesParent(d: Drive, P: map<Id, Id>, N: map<Id, string>, x: Id)
    requires Valid(d) && Entries(d, P, N) && x in d.objects
    ensures Entries(d, P[x := ParentOrEmpty(d, x)], N)
  {
    var P' := P[x := ParentOrEmpty(d, x)];
    forall y | y in P' ensures y in d.objects && P'[y] == ParentOrEmpty(d, y) {
      if y != x {
        assert y in P;
      }
    }
    forall y | y in N ensures y in P' && N[y] == Name(d, y) {
      assert y in P;
    }
  }

  /** Adding the first parent and the name of a fetched id keeps P and N faithful to the store. */
  lemma EntriesStep(d: Drive, P: map<Id, Id>, N: map<Id, string>, x: Id)
    requires Valid(d) && Entries(d, P, N) && x in d.objects
    ensures Entries(d, P[x := ParentOrEmpty(d, x)], N[x := Name(d, x)])
  {
    EntriesParent(d, P, N, x);
    var P', N' := P[x := ParentOrEmpty(d, x)], N[x := Name(d, x)];
    forall y | y in N' ensures y in P' && N'[y] == Name(d, y) {
      if y != x {
        assert y in N;
      }
    }
  }

  lemma PendingStep(P: map<Id, Id>, N: map<Id, string>, prev: Id, itemId: Id, parentId: Id, name: string)
    requires Pending(P, N, prev, itemId) && itemId !in P
    ensures Pending(P[itemId := parentId], N[itemId := name], itemId, parentId)
  {
    var P', N' := P[itemId := parentId], N[itemId := name];
    forall x | x in P' && x != itemId ensures Closed(P', N', x) {
      if x != prev {
        assert Closed(P, N, x);
      }
    }
  }

  lemma KeysStep(P0: map<Id, Id>, N0: map<Id, string>, P: map<Id, Id>, N: map<Id, string>,
                 m: Id, walked: seq<Id>, x: Id, v: Id, name: string)
    requires KeysSoFar(P0, N0, P, N, m, walked)
    ensures KeysSoFar(P0, N0, P[x := v], N[x := name], m, walked + [x])
  {
    ElemsSnoc(walked, x);
  }

  lemma PositionStep(d: Drive, m: Id, itemId: Id, name: string, parentId: Id, itemPath: string)
    requires Valid(d) && m in d.objects && m != Root
    requires Position(d, m, itemId, name, parentId, itemPath) && name != RootName
    ensures parentId in d.objects
    ensures Position(d, m, parentId, Name(d, parentId), ParentOrEmpty(d, parentId), "/" + name + itemPath)
  {
    Regroup(Above(d, parentId), "/", name, itemPath);
  }

  lemma ProgressStep(d: Drive, P0: map<Id, Id>, m: Id, itemId: Id, fetched: seq<Id>, walked: seq<Id>)
    requires Valid(d) && m in d.objects && m != Root && itemId in d.objects
    requires Progress(d, P0, m, itemId, fetched, walked)
    requires itemId !in P0 && Name(d, itemId) != RootName && d.depth[itemId] < d.depth[m]
    ensures itemId != Root && ParentOrEmpty(d, itemId) in d.objects
    ensures Progress(d, P0, m, ParentOrEmpty(d, itemId), fetched + [ParentOrEmpty(d, itemId)], walked + [itemId])
  {
    ChainAdvance(d, P0.Keys, itemId, fetched);
  }

  /** The walk of an uncached hit enters the hit and fetches its parent. */
  lemma WalkBegins(d: Drive, m: Id, P0: map<Id, Id>, N0: map<Id, string>)
    requires CacheOK(d, P0, N0) && m in d.objects && m != Root && m !in P0
    ensures var p0 := ParentOrEmpty(d, m);
            WalkInv(d, m, P0, N0, P0[m := p0], N0, p0, Name(d, p0), ParentOrEmpty(d, p0), "", [p0], [], m)
  {
    var p0 := ParentOrEmpty(d, m);
    PositionBegins(d, m);
    ProgressBegins(d, P0, m);
    KeysBegins(P0, N0, m, p0);
    EntriesParent(d, P0, N0, m);
    PendingBegins(P0, N0, m, p0);
  }

  lemma PositionBegins(d: Drive, m: Id)
    requires Valid(d) && m in d.objects && m != Root
    ensures var p0 := ParentOrEmpty(d, m);
            Position(d, m, p0, Name(d, p0), ParentOrEmpty(d, p0), "")
  {
    assert ContainerPath(d, m) == Above(d, ParentOrEmpty(d, m)) + "";
  }

  lemma ProgressBegins(d: Drive, P0: map<Id, Id>, m: Id)
    requires Valid(d) && m in d.objects && m != Root
    ensures var p0 := ParentOrEmpty(d, m);
            Progress(d, P0, m, p0, [p0], [])
  {
    var p0 := ParentOrEmpty(d, m);
    HeadTail(Chain(d, P0.Keys, p0));
  }

  lemma KeysBegins(P0: map<Id, Id>, N0: map<Id, string>, m: Id, p0: Id)
    ensures KeysSoFar(P0, N0, P0[m := p0], N0, m, [])
  {
    assert Elems<Id>([]) == {};
  }

  lemma PendingBegins(P0: map<Id, Id>, N0: map<Id, string>, m: Id, p0: Id)
    requires forall x :: x in P0 ==> Closed(P0, N0, x)
    requires m !in P0
    ensures Pending(P0[m := p0], N0, m, p0)
  {
    var P := P0[m := p0];
    forall x | x in P && x != m ensures Closed(P, N0, x) {
      assert Closed(P0, N0, x);
    }
  }

  /** Entering a fetched id not named "My Drive" and fetching its parent keeps the walk's state. */
  lemma WalkEnters(d: Drive, m: Id, P0: map<Id, Id>, N0: map<Id, string>, P: map<Id, Id>,
                   N: map<Id, string>, itemId: Id, name: string, parentId: Id, itemPath: string,
                   fetched: seq<Id>, walked: seq<Id>, prev: Id)
    requires WalkInv(d, m, P0, N0, P, N, itemId, name, parentId, itemPath, fetched, walked, prev)
    requires itemId !in P && name != RootName
    ensures parentId in d.objects
    ensures WalkInv(d, m, P0, N0, P[itemId := parentId], N[itemId := name], parentId, Name(d, parentId),
                    ParentOrEmpty(d, parentId), "/" + name + itemPath, fetched + [parentId],
                    walked + [itemId], itemId)
  {
    PositionStep(d, m, itemId, name, parentId, itemPath);
    ProgressStep(d, P0, m, itemId, fetched, walked);
    KeysStep(P0, N0, P, N, m, walked, itemId, parentId, name);
    EntriesStep(d, P, N, itemId);
    PendingStep(P, N, prev, itemId, parentId, name);
  }

  /** The chain of a walk that is over: what was fetched, all of it new but the last id. */
  lemma ChainDone(d: Drive, P0: map<Id, Id>, m: Id, itemId: Id, fetched: seq<Id>, walked: seq<Id>)
    requires Valid(d) && m in d.objects && m != Root && itemId in d.objects
    requires Progress(d, P0, m, itemId, fetched, walked)
    requires itemId in P0 || Name(d, itemId) == RootName
    ensures fetched == Chain(d, P0.Keys, ParentOrEmpty(d, m))
    ensures Elems(fetched) == Elems(walked) + {itemId}
    ensures Elems(walked) !! P0.Keys
  {
    assert Chain(d, P0.Keys, itemId) == [itemId];
    assert fetched + [] == fetched;
    ElemsSnoc(walked, itemId);
  }

  /** The effect of an uncached hit's walk, by the last id its chain reaches. */
  lemma VisitFresh(d: Drive, cached: set<Id>, named: set<Id>, m: Id)
    requires Valid(d) && m in d.objects && m != Root && m !in cached
    ensures var c := Chain(d, cached, ParentOrEmpty(d, m));
            Visit(d, cached, named, m) ==
              if c[|c| - 1] in cached && c[|c| - 1] !in named then None
              else Some((cached + {m} + Elems(c), named + (Elems(c) - cached)))
  {
  }

  /** What a walk adds to the key sets: everything it fetched, minus what was there. */
  lemma AddedKeys<T>(K0: set<T>, NK0: set<T>, m: T, walked: set<T>, z: T, fetched: set<T>)
    requires fetched == walked + {z} && walked !! K0
    ensures z !in K0 ==> K0 + {m} + fetched == K0 + {m} + walked + {z}
    ensures z !in K0 ==> NK0 + (fetched - K0) == NK0 + walked + {z}
    ensures z in K0 ==> K0 + {m} + fetched == K0 + {m} + walked && NK0 + (fetched - K0) == NK0 + walked
  {
  }

  lemma UpdateKeys<K, V>(M: map<K, V>, k: K, v: V)
    ensures M[k := v].Keys == M.Keys + {k}
  {
  }

  /** Naming the walked id "My Drive" closes the last pending entry. */
  lemma CloseAtRoot(P: map<Id, Id>, N: map<Id, string>, prev: Id, itemId: Id, parentId: Id,
                    P': map<Id, Id>, N': map<Id, string>)
    requires Pending(P, N, prev, itemId) && itemId !in P
    requires P' == P[itemId := parentId] && N' == N[itemId := RootName]
    ensures forall x :: x in P' ==> Closed(P', N', x)
  {
    PendingStep(P, N, prev, itemId, parentId, RootName);
  }

  /** Reaching a cached, named id closes the last pending entry. */
  lemma CloseAtCached(P: map<Id, Id>, N: map<Id, string>, prev: Id, itemId: Id)
    requires Pending(P, N, prev, itemId) && itemId in N
    ensures forall x :: x in P ==> Closed(P, N, x)
  {
    forall x | x in P ensures Closed(P, N, x) {
      if x != prev {
        assert Closed(P, N, x);
      }
    }
  }

  /** Entering a fetched id named "My Drive" ends the walk with the container path and a sound cache. */
  lemma WalkEndsAtRoot(d: Drive, m: Id, P0: map<Id, Id>, N0: map<Id, string>, P: map<Id, Id>,
                       N: map<Id, string>, itemId: Id, name: string, parentId: Id, itemPath: string,
                       fetched: seq<Id>, walked: seq<Id>, prev: Id)
    requires WalkInv(d, m, P0, N0, P, N, itemId, name, parentId, itemPath, fetched, walked, prev)
    requires itemId !in P && name == RootName
    ensures var P', N' := P[itemId := parentId], N[itemId := name];
            && CacheOK(d, P', N') && itemPath == ContainerPath(d, m)
            && fetched == Chain(d, P0.Keys, ParentOrEmpty(d, m))
            && Visit(d, P0.Keys, N0.Keys, m) == Some((P'.Keys, N'.Keys))
  {
    assert itemId !in P0.Keys;
    ChainDone(d, P0, m, itemId, fetched, walked);
    VisitFresh(d, P0.Keys, N0.Keys, m);
    AddedKeys(P0.Keys, N0.Keys, m, Elems(walked), itemId, Elems(fetched));
    UpdateKeys(P, itemId, parentId);
    UpdateKeys(N, itemId, name);
    EntriesStep(d, P, N, itemId);
    CloseAtRoot(P, N, prev, itemId, parentId, P[itemId := parentId], N[itemId := name]);
    assert ContainerPath(d, m) == "" + itemPath;
  }

  /** Reaching an id already cached ends the walk: it raises exactly when that id has no name. */
  lemma WalkEndsAtCached(d: Drive, m: Id, P0: map<Id, Id>, N0: map<Id, string>, P: map<Id, Id>,
                         N: map<Id, string>, itemId: Id, name: string, parentId: Id, itemPath: string,
                         fetched: seq<Id>, walked: seq<Id>, prev: Id)
    requires WalkInv(d, m, P0, N0, P, N, itemId, name, parentId, itemPath, fetched, walked, prev)
    requires itemId in P
    ensures itemId in P0 && fetched == Chain(d, P0.Keys, ParentOrEmpty(d, m))
    ensures itemId in N <==> Visit(d, P0.Keys, N0.Keys, m).Some?
    ensures itemId in N ==>
              CacheOK(d, P, N) && parentId == P[itemId] && Visit(d, P0.Keys, N0.Keys, m) == Some((P.Keys, N.Keys))
  {
    assert itemId !in Elems(walked);
    assert itemId in P0;
    ChainDone(d, P0, m, itemId, fetched, walked);
    VisitFresh(d, P0.Keys, N0.Keys, m);
    AddedKeys(P0.Keys, N0.Keys, m, Elems(walked), itemId, Elems(fetched));
    if itemId in N {
      CloseAtCached(P, N, prev, itemId);
    }
  }
}
