/**
 * The specification side of `search`: choosing the match operator, the hits a
 * name query returns, the containing-folder path reconstructed for each hit,
 * the invariant of the two memo maps, the ids a walk fetches, and the scope
 * filter.
 */
module SearchPaths {
  import opened Wrappers
  import opened Seqs
  import opened Strings
  import opened Store
  import opened Resolution

  datatype Operator = Equals | ContainsText

  /** A leading "*" asks for a partial match of the rest; anything else is an exact match. */
  function ChooseOperator(arg: string): (r: (Operator, string))
    ensures r.0 == ContainsText <==> StartsWith(arg, "*")
    ensures r.0 == ContainsText ==> arg == "*" + r.1
    ensures r.0 == Equals ==> r.1 == arg
  {
    if StartsWith(arg, "*") then (ContainsText, arg[1..]) else (Equals, arg)
  }

  predicate NameMatches(op: Operator, needle: string, name: string) {
    match op
    case Equals => name == needle
    case ContainsText => Contains(name, needle)
  }

  /** The hits of `name <op> '<needle>'`, in the server's order. */
  function Hits(d: Drive, op: Operator, needle: string): (r: seq<Id>)
    requires Valid(d)
    ensures forall x :: x in r ==> x in d.listing && x in d.objects && x != Root
    ensures forall x :: x in r ==> NameMatches(op, needle, Name(d, x))
  {
    Filter(d, d.listing, op, needle)
  }

  function Filter(d: Drive, xs: seq<Id>, op: Operator, needle: string): (r: seq<Id>)
    requires forall x :: x in xs ==> x in d.objects
    ensures forall x :: x in r ==> x in xs && NameMatches(op, needle, Name(d, x))
    ensures forall x :: x in xs && NameMatches(op, needle, Name(d, x)) ==> x in r
    decreases |xs|
  {
    if |xs| == 0 then []
    else if NameMatches(op, needle, Name(d, xs[0])) then [xs[0]] + Filter(d, xs[1..], op, needle)
    else Filter(d, xs[1..], op, needle)
  }

  /**
   * The path contributed by `x` and its first-parent ancestors: the "/"-joined
   * names strictly below the first ancestor named "My Drive" (that ancestor and
   * everything above it contribute nothing).
   */
  ghost function Above(d: Drive, x: Id): string
    requires Valid(d) && x in d.objects
    decreases d.depth[x]
  {
    if Name(d, x) == RootName then "" else Above(d, ParentOrEmpty(d, x)) + "/" + Name(d, x)
  }

  /** The path `search` shows for a hit: that of the folder holding it, without its own name. */
  ghost function ContainerPath(d: Drive, m: Id): string
    requires Valid(d) && m in d.objects && m != Root
  {
    Above(d, ParentOrEmpty(d, m))
  }

  /** Every reconstructed path is empty or starts with "/". */
  lemma {:induction false} AboveShape(d: Drive, x: Id)
    requires Valid(d) && x in d.objects
    ensures Above(d, x) == "" || IsAbsolute(Above(d, x))
    decreases d.depth[x]
  {
    if Name(d, x) != RootName {
      var p := ParentOrEmpty(d, x);
      AboveShape(d, p);
      var a := Above(d, p);
      assert Above(d, x) == a + "/" + Name(d, x);
      if a == "" {
        assert Above(d, x)[0] == '/';
      } else {
        assert Above(d, x)[0] == a[0];
      }
    }
  }

  /** A walk stops at an id that says nothing more about the path above it. */
  ghost predicate Closed(P: map<Id, Id>, N: map<Id, string>, x: Id)
    requires x in P
  {
    (x in N && N[x] == RootName) || P[x] in N
  }

  /**
   * The invariant of `id_parentid_map` (P) and `id_pathname_map` (N) between
   * two hits: P holds first parents, N names, every named id also has a parent
   * entry, and every entry either carries a "My Drive" name or has its parent
   * named.
   */
  ghost predicate CacheOK(d: Drive, P: map<Id, Id>, N: map<Id, string>) {
    && Valid(d)
    && Entries(d, P, N)
    && (forall x :: x in P ==> Closed(P, N, x))
  }

  /** P maps ids to their first parents and N to their names, as `files().get` reports them. */
  ghost predicate Entries(d: Drive, P: map<Id, Id>, N: map<Id, string>)
    requires Valid(d)
  {
    && (forall x :: x in P ==> x in d.objects && P[x] == ParentOrEmpty(d, x))
    && (forall x :: x in N ==> x in P && N[x] == Name(d, x))
  }

  /**
   * The ids one walk fetches with `files().get`, starting from the hit's
   * parent: upward until the first id already cached in P, or the first one
   * named "My Drive", both included.
   */
  ghost function Chain(d: Drive, cached: set<Id>, x: Id): (c: seq<Id>)
    requires Valid(d) && x in d.objects
    ensures |c| >= 1 && c[0] == x
    ensures forall y :: y in c ==> y in d.objects && d.depth[y] <= d.depth[x]
    decreases d.depth[x]
  {
    if x in cached || Name(d, x) == RootName then [x] else [x] + Chain(d, cached, ParentOrEmpty(d, x))
  }

  /**
   * Only the last id a walk fetches can already be cached: the cache saves the
   * fetches above the first cached ancestor, not that ancestor's own fetch.
   */
  lemma {:induction false} ChainCachedOnlyAtEnd(d: Drive, cached: set<Id>, x: Id)
    requires Valid(d) && x in d.objects
    ensures forall i :: 0 <= i < |Chain(d, cached, x)| - 1 ==> Chain(d, cached, x)[i] !in cached
    ensures var c := Chain(d, cached, x);
            c[|c| - 1] in cached || Name(d, c[|c| - 1]) == RootName
    decreases d.depth[x]
  {
    if !(x in cached || Name(d, x) == RootName) {
      var p := ParentOrEmpty(d, x);
      ChainCachedOnlyAtEnd(d, cached, p);
      var t := Chain(d, cached, p);
      assert Chain(d, cached, x) == [x] + t;
      ConsAvoids(x, t, cached);
    }
  }

  /** Fetching the parent of an uncached id not named "My Drive" moves one step along the chain. */
  lemma ChainAdvance(d: Drive, cached: set<Id>, x: Id, fetched: seq<Id>)
    requires Valid(d) && x in d.objects && x !in cached && Name(d, x) != RootName
    ensures x != Root
    ensures (fetched + [ParentOrEmpty(d, x)]) + Chain(d, cached, ParentOrEmpty(d, x))[1..]
            == fetched + Chain(d, cached, x)[1..]
  {
    var p := ParentOrEmpty(d, x);
    var t := Chain(d, cached, p);
    assert Chain(d, cached, x) == [x] + t;
    ConsTail(x, t);
    HeadTail(t);
    Assoc(fetched, [p], t[1..]);
  }

  /**
   * One hit's walk on the key sets of P (`cached`) and N (`named`); None where
   * it raises KeyError. A hit already in P reads its parent's name from N.
   * Otherwise the hit and every fetched id enter P, the fetched ids not cached
   * before enter N, and the walk raises when the cached ancestor it stops at
   * has no name.
   */
  ghost function Visit(d: Drive, cached: set<Id>, named: set<Id>, m: Id): Option<(set<Id>, set<Id>)>
    requires Valid(d) && m in d.objects && m != Root
  {
    var p := ParentOrEmpty(d, m);
    if m in cached then
      if p in named then Some((cached, named)) else None
    else
      var c := Chain(d, cached, p);
      var z := c[|c| - 1];
      if z in cached && z !in named then None
      else Some((cached + {m} + Elems(c), named + (Elems(c) - cached)))
  }

  /**
   * A walk only adds to the memo maps: the hit gains a parent entry, and a
   * name is cached for ancestors only, never for the hit itself.
   */
  lemma VisitGrows(d: Drive, cached: set<Id>, named: set<Id>, m: Id)
    requires Valid(d) && m in d.objects && m != Root
    ensures var v := Visit(d, cached, named, m);
            v.Some? ==> cached + {m} <= v.value.0 && named <= v.value.1 && (m in v.value.1 <==> m in named)
  {
    if m !in cached {
      var c := Chain(d, cached, ParentOrEmpty(d, m));
      assert m !in Elems(c);
    }
  }

  /**
   * The walks of the hits `ms` in turn: the final key sets and whether any walk
   * fetched (a hit not yet in P always does); None once a walk raises.
   */
  ghost function VisitAll(d: Drive, cached: set<Id>, named: set<Id>, ms: seq<Id>): Option<(set<Id>, set<Id>, bool)>
    requires Valid(d) && forall m :: m in ms ==> m in d.objects && m != Root
    decreases |ms|
  {
    if |ms| == 0 then Some((cached, named, false))
    else
      match VisitAll(d, cached, named, ms[..|ms| - 1])
      case None => None
      case Some((c1, n1, f)) =>
        var m := ms[|ms| - 1];
        match Visit(d, c1, n1, m)
        case None => None
        case Some((c2, n2)) => Some((c2, n2, f || m !in c1))
  }

  /** The walks of the first i + 1 hits: those of the first i, then the walk of hit i. */
  lemma VisitAllStep(d: Drive, cached: set<Id>, named: set<Id>, ms: seq<Id>, i: nat)
    requires Valid(d) && forall m :: m in ms ==> m in d.objects && m != Root
    requires i < |ms|
    ensures VisitAll(d, cached, named, ms[..i + 1]) ==
              match VisitAll(d, cached, named, ms[..i])
              case None => None
              case Some((c1, n1, f)) =>
                match Visit(d, c1, n1, ms[i])
                case None => None
                case Some((c2, n2)) => Some((c2, n2, f || ms[i] !in c1))
  {
    TakeStep(ms, i);
  }

  /** Once a walk raises, so do the walks of every longer prefix. */
  lemma {:induction false} VisitAllNone(d: Drive, cached: set<Id>, named: set<Id>, ms: seq<Id>, i: nat)
    requires Valid(d) && forall m :: m in ms ==> m in d.objects && m != Root
    requires 0 < i <= |ms| && VisitAll(d, cached, named, ms[..i]).None?
    ensures VisitAll(d, cached, named, ms).None?
    decreases |ms| - i
  {
    if i < |ms| {
      VisitAllStep(d, cached, named, ms, i);
      VisitAllNone(d, cached, named, ms, i + 1);
    } else {
      TakeAll(ms);
    }
  }

  /** A walk that completes extends the walks of the first i hits by hit i. */
  lemma PageAdvances(d: Drive, c0: set<Id>, n0: set<Id>, ms: seq<Id>, i: nat,
                     c: set<Id>, n: set<Id>, f: bool, c2: set<Id>, n2: set<Id>)
    requires Valid(d) && forall m :: m in ms ==> m in d.objects && m != Root
    requires i < |ms| && VisitAll(d, c0, n0, ms[..i]) == Some((c, n, f))
    requires Visit(d, c, n, ms[i]) == Some((c2, n2))
    ensures VisitAll(d, c0, n0, ms[..i + 1]) == Some((c2, n2, f || ms[i] !in c))
  {
    VisitAllStep(d, c0, n0, ms, i);
  }

  /** A walk that raises makes the walks of the whole page raise. */
  lemma PageRaises(d: Drive, c0: set<Id>, n0: set<Id>, ms: seq<Id>, i: nat, c: set<Id>, n: set<Id>, f: bool)
    requires Valid(d) && forall m :: m in ms ==> m in d.objects && m != Root
    requires i < |ms| && VisitAll(d, c0, n0, ms[..i]) == Some((c, n, f))
    requires Visit(d, c, n, ms[i]).None?
    ensures VisitAll(d, c0, n0, ms).None?
  {
    VisitAllStep(d, c0, n0, ms, i);
    VisitAllNone(d, c0, n0, ms, i + 1);
  }

  /** `files().list(pageSize=100, ...)`. */
  const PageSize: nat := 100

  /**
   * How many hits `search` reads from `start` on: pages of `PageSize` hits, and
   * a next page only when the page walked no ancestor (a fetch replaces the
   * listing response whose `nextPageToken` is read) and hits remain; None
   * where a walk raises.
   */
  ghost function PagesRead(d: Drive, hits: seq<Id>, start: nat, cached: set<Id>, named: set<Id>): (r: Option<nat>)
    requires Valid(d) && start <= |hits| && forall m :: m in hits ==> m in d.objects && m != Root
    ensures r.Some? ==> start <= r.value <= |hits|
    decreases |hits| - start
  {
    var end := if start + PageSize < |hits| then start + PageSize else |hits|;
    match VisitAll(d, cached, named, hits[start..end])
    case None => None
    case Some((c, n, fetched)) =>
      if fetched || end == |hits| then Some(end) else PagesRead(d, hits, end, c, n)
  }

  /** What `search` prints: the kept hits with their paths, or None where it raises. */
  ghost function SearchOutcome(d: Drive, argument: string, scope: string): Option<seq<(Id, string)>>
    requires Valid(d)
  {
    var (op, needle) := ChooseOperator(argument);
    var hits := Hits(d, op, needle);
    match PagesRead(d, hits, 0, {}, {})
    case None => None
    case Some(n) => Some(Kept(d, hits[..n], scope))
  }

  /** The hits kept by the scope filter, each with its reconstructed path. */
  ghost function Kept(d: Drive, ms: seq<Id>, scope: string): (r: seq<(Id, string)>)
    requires Valid(d) && forall m :: m in ms ==> m in d.objects && m != Root
    decreases |ms|
  {
    if |ms| == 0 then []
    else
      var init, m := ms[..|ms| - 1], ms[|ms| - 1];
      Kept(d, init, scope) + (if StartsWith(ContainerPath(d, m), scope) then [(m, ContainerPath(d, m))] else [])
  }

  /** The kept rows of the first i + 1 hits: those of the first i, then hit i's row if its path is in scope. */
  lemma KeptStep(d: Drive, ms: seq<Id>, scope: string, i: nat)
    requires Valid(d) && forall m :: m in ms ==> m in d.objects && m != Root
    requires i < |ms|
    ensures Kept(d, ms[..i + 1], scope) ==
              Kept(d, ms[..i], scope)
              + (if StartsWith(ContainerPath(d, ms[i]), scope) then [(ms[i], ContainerPath(d, ms[i]))] else [])
  {
    TakeStep(ms, i);
  }

  /** A table holding the rows of the first i hits, extended by hit i's row, holds those of the first i + 1. */
  lemma KeptAdvances(d: Drive, ms: seq<Id>, scope: string, i: nat, table0: seq<(Id, string)>,
                     table: seq<(Id, string)>, path: string)
    requires Valid(d) && forall m :: m in ms ==> m in d.objects && m != Root
    requires i < |ms| && table == table0 + Kept(d, ms[..i], scope) && path == ContainerPath(d, ms[i])
    ensures table + (if StartsWith(path, scope) then [(ms[i], path)] else []) == table0 + Kept(d, ms[..i + 1], scope)
  {
    KeptStep(d, ms, scope, i);
    Assoc(table0, Kept(d, ms[..i], scope), if StartsWith(path, scope) then [(ms[i], path)] else []);
  }

  /** The rows of the hits before `start`, then those of the page, are the rows of the hits before `end`. */
  lemma KeptPages(d: Drive, hits: seq<Id>, scope: string, start: nat, end: nat, table: seq<(Id, string)>)
    requires Valid(d) && forall m :: m in hits ==> m in d.objects && m != Root
    requires start <= end <= |hits| && table == Kept(d, hits[..start], scope)
    ensures table + Kept(d, hits[start..end], scope) == Kept(d, hits[..end], scope)
  {
    SliceJoin(hits, start, end);
    KeptAppend(d, hits[..start], hits[start..end], scope);
  }

  /** A hit is kept iff its reconstructed path has the scope as a plain string prefix. */
  lemma {:induction false} KeptMembers(d: Drive, ms: seq<Id>, scope: string, m: Id, p: string)
    requires Valid(d) && forall m :: m in ms ==> m in d.objects && m != Root
    ensures (m, p) in Kept(d, ms, scope) <==>
              m in ms && p == ContainerPath(d, m) && StartsWith(p, scope)
    decreases |ms|
  {
    if |ms| > 0 {
      var init := ms[..|ms| - 1];
      KeptMembers(d, init, scope, m, p);
      assert forall y :: y in ms <==> y in init || y == ms[|ms| - 1] by {
        assert ms == init + [ms[|ms| - 1]];
      }
    }
  }

  lemma {:induction false} KeptAppend(d: Drive, a: seq<Id>, b: seq<Id>, scope: string)
    requires Valid(d) && forall m :: m in a + b ==> m in d.objects && m != Root
    ensures Kept(d, a + b, scope) == Kept(d, a, scope) + Kept(d, b, scope)
    decreases |b|
  {
    if |b| == 0 {
      assert a + b == a;
    } else {
      var init := b[..|b| - 1];
      assert (a + b)[..|a + b| - 1] == a + init;
      assert (a + b)[|a + b| - 1] == b[|b| - 1];
      KeptAppend(d, a, init, scope);
      Assoc(Kept(d, a, scope), Kept(d, init, scope),
            if StartsWith(ContainerPath(d, b[|b| - 1]), scope) then [(b[|b| - 1], ContainerPath(d, b[|b| - 1]))] else []);
    }
  }

  /** At the top scope "/", every hit sitting directly in "My Drive" (path "") is dropped. */
  lemma TopScopeDropsRootLevelHits(d: Drive, ms: seq<Id>, m: Id)
    requires Valid(d) && forall m :: m in ms ==> m in d.objects && m != Root
    requires m in ms && m in d.objects && m != Root && ParentOrEmpty(d, m) == Root
    ensures forall p :: (m, p) !in Kept(d, ms, "/")
  {
    assert ContainerPath(d, m) == "";
    forall p ensures (m, p) !in Kept(d, ms, "/") {
      KeptMembers(d, ms, "/", m, p);
    }
  }

  /**
   * The scope test is on strings, not on path segments: a hit whose path is
   * the scope followed by any text is kept, so at scope "/A" a hit inside
   * the sibling folder "/AB" (rest "B") is listed too.
   */
  lemma ScopeIsStringPrefix(d: Drive, ms: seq<Id>, scope: string, rest: string, m: Id)
    requires Valid(d) && forall m :: m in ms ==> m in d.objects && m != Root
    requires m in ms && ContainerPath(d, m) == scope + rest
    ensures (m, scope + rest) in Kept(d, ms, scope)
  {
    KeptMembers(d, ms, scope, m, scope + rest);
    assert (scope + rest)[..|scope|] == scope;
  }

  /**
   * The refetch on a small tree: "My Drive" holds folder `a`, `a` holds
   * folder `b`, and `b` holds the hits `f1` and `f2`. The walk for `f1`
   * fetches `b`, `a` and the root and caches all three; the walk for `f2`
   * then finds `b` in P and still fetches it, once, before stopping there.
   */
  lemma CachedParentFetchedAgain(d: Drive, a: Id, b: Id, f1: Id, f2: Id)
    requires Valid(d) && a in d.objects && b in d.objects && f1 in d.objects && f2 in d.objects
    requires a != Root && b != Root && f1 != Root && f2 != Root && f1 != f2
    requires ParentOrEmpty(d, a) == Root && ParentOrEmpty(d, b) == a
    requires ParentOrEmpty(d, f1) == b && ParentOrEmpty(d, f2) == b
    requires Name(d, a) != RootName && Name(d, b) != RootName
    ensures Chain(d, {}, b) == [b, a, Root]
    ensures Visit(d, {}, {}, f1) == Some(({f1, b, a, Root}, {b, a, Root}))
    ensures f2 !in {f1, b, a, Root} && Chain(d, {f1, b, a, Root}, b) == [b]
    ensures Visit(d, {f1, b, a, Root}, {b, a, Root}, f2) == Some(({f2, f1, b, a, Root}, {b, a, Root}))
  {
    FirstWalkFetchesToRoot(d, a, b, f1);
    SecondWalkFetchesCachedParent(d, a, b, f1, f2);
  }

  lemma FirstWalkFetchesToRoot(d: Drive, a: Id, b: Id, f1: Id)
    requires Valid(d) && a in d.objects && b in d.objects && f1 in d.objects
    requires a != Root && b != Root && f1 != Root
    requires ParentOrEmpty(d, a) == Root && ParentOrEmpty(d, b) == a && ParentOrEmpty(d, f1) == b
    requires Name(d, a) != RootName && Name(d, b) != RootName
    ensures Chain(d, {}, b) == [b, a, Root]
    ensures Visit(d, {}, {}, f1) == Some(({f1, b, a, Root}, {b, a, Root}))
  {
    assert Chain(d, {}, Root) == [Root];
    assert Chain(d, {}, a) == [a, Root];
    var e: set<Id> := {};
    var c := Chain(d, e, ParentOrEmpty(d, f1));
    assert Elems(c) == {b, a, Root} by { assert c == [b, a, Root]; }
    assert Visit(d, e, e, f1) == Some((e + {f1} + Elems(c), e + (Elems(c) - e)));
    assert e + {f1} + Elems(c) == {f1, b, a, Root} && e + (Elems(c) - e) == {b, a, Root};
  }

  lemma SecondWalkFetchesCachedParent(d: Drive, a: Id, b: Id, f1: Id, f2: Id)
    requires Valid(d) && a in d.objects && b in d.objects && f2 in d.objects
    requires a != Root && b != Root && f2 != Root && f1 != f2
    requires ParentOrEmpty(d, b) == a && ParentOrEmpty(d, f2) == b
    ensures f2 !in {f1, b, a, Root} && Chain(d, {f1, b, a, Root}, b) == [b]
    ensures Visit(d, {f1, b, a, Root}, {b, a, Root}, f2) == Some(({f2, f1, b, a, Root}, {b, a, Root}))
  {
    var cached, named := {f1, b, a, Root}, {b, a, Root};
    assert d.depth[a] < d.depth[b] < d.depth[f2];
    var c := Chain(d, cached, ParentOrEmpty(d, f2));
    assert Elems(c) == {b} by { assert c == [b]; }
    assert Visit(d, cached, named, f2) == Some((cached + {f2} + Elems(c), named + (Elems(c) - cached)));
    assert cached + {f2} + Elems(c) == {f2, f1, b, a, Root} && named + (Elems(c) - cached) == named;
  }

  /** The display path a resolution reaches, in the form search shows paths ("" for the root). */
  function SearchForm(path: string): string {
    if path == "/" then "" else path
  }

  /** Every listed child has the listing folder as its only parent. */
  ghost predicate SingleParent(d: Drive)
    requires Valid(d)
  {
    forall x, c :: x in d.children && c in d.children[x] ==> d.objects[c].parents == [x]
  }

  lemma ListedChildParent(d: Drive, x: Id, c: Id)
    requires Valid(d) && SingleParent(d) && x in d.objects && c in Children(d, x)
    ensures c in d.objects && c != Root && ParentOrEmpty(d, c) == x
  {
    assert x in d.children;
    assert d.objects[c].parents == [x];
  }

  /** A segment that names a child: not empty, not "." or "..", and not the root's name. */
  predicate PlainName(seg: string) {
    seg != "" && seg != "." && seg != ".." && seg != RootName
  }

  /**
   * Resolution and search agree: walking named segments (none "My Drive")
   * from a place whose display path equals its reconstructed path reaches a
   * folder whose display path is again its reconstructed path.
   */
  lemma {:induction false} WalkAgreesWithAbove(d: Drive, loc: Location, segs: seq<string>)
    requires IsAt(d, loc) && SingleParent(d)
    requires SearchForm(loc.path) == Above(d, loc.id)
    requires forall i :: 0 <= i < |segs| ==> PlainName(segs[i])
    requires Walk(d, loc, segs).Some?
    ensures SearchForm(Walk(d, loc, segs).value.path) == Above(d, Walk(d, loc, segs).value.id)
    decreases |segs|
  {
    if |segs| > 0 {
      var seg := segs[0];
      var c := FirstNamed(d, Children(d, loc.id), seg).value;
      var next := Location(c, Extend(loc.path, seg));
      assert Step(d, loc, seg) == Some(next);
      ListedChildParent(d, loc.id, c);
      assert Above(d, c) == Above(d, loc.id) + "/" + seg;
      SearchFormExtend(loc.path, seg);
      assert IsAt(d, next);
      assert SearchForm(next.path) == Above(d, next.id);
      assert Walk(d, loc, segs) == Walk(d, next, segs[1..]);
      assert forall i :: 0 <= i < |segs[1..]| ==> PlainName(segs[1..][i]) by {
        forall i | 0 <= i < |segs[1..]| ensures PlainName(segs[1..][i]) {
          assert segs[1..][i] == segs[i + 1];
        }
      }
      WalkAgreesWithAbove(d, next, segs[1..]);
    }
  }

  lemma SearchFormExtend(path: string, name: string)
    requires IsAbsolute(path) && name != ""
    ensures SearchForm(Extend(path, name)) == SearchForm(path) + "/" + name
  {
    if path == "/" {
      assert Extend(path, name) != "/" by { assert |Extend(path, name)| > 1; }
    } else {
      assert Extend(path, name) != "/" by { assert |Extend(path, name)| > 1; }
    }
  }

  /**
   * For an absolute path of plain names, a hit inside the folder it resolves
   * to is shown by search with that folder's display path ("" for "/").
   */
  lemma ResolvedFolderIsSearchPath(d: Drive, currentId: Id, currentPath: string, arg: string, m: Id)
    requires Valid(d) && SingleParent(d) && currentId in d.objects && IsAbsolute(currentPath)
    requires StartsWith(arg, "/")
    requires forall s :: s in Segments(arg) ==> s != "." && s != ".." && s != RootName
    requires Resolve(d, currentId, currentPath, arg) != Failed
    requires m in d.objects && m != Root && ParentOrEmpty(d, m) == Resolve(d, currentId, currentPath, arg).id
    ensures ContainerPath(d, m) == SearchForm(Resolve(d, currentId, currentPath, arg).path)
  {
    var segs := Segments(arg);
    assert forall i :: 0 <= i < |segs| ==> PlainName(segs[i]) by {
      forall i | 0 <= i < |segs| ensures PlainName(segs[i]) {
        assert segs[i] in segs;
      }
    }
    WalkAgreesWithAbove(d, Location(Root, "/"), segs);
  }

  /** A hit not yet in P makes its walk fetch, so a page starting with one has fetched. */
  lemma {:induction false} VisitAllFlagsFirst(d: Drive, cached: set<Id>, named: set<Id>, ms: seq<Id>)
    requires Valid(d) && forall m :: m in ms ==> m in d.objects && m != Root
    requires |ms| > 0 && ms[0] !in cached
    ensures VisitAll(d, cached, named, ms).Some? ==> VisitAll(d, cached, named, ms).value.2
    decreases |ms|
  {
    var init := ms[..|ms| - 1];
    if |ms| > 1 {
      assert init[0] == ms[0];
      VisitAllFlagsFirst(d, cached, named, init);
    } else {
      assert init == [];
    }
  }

  /**
   * `search` never reads past its first page: the first hit is not yet in the
   * empty P, so its walk fetches, and the `nextPageToken` is then read from a
   * `files().get` response, which has none.
   */
  lemma SearchReadsOnlyFirstPage(d: Drive, hits: seq<Id>)
    requires Valid(d) && forall m :: m in hits ==> m in d.objects && m != Root
    ensures PagesRead(d, hits, 0, {}, {}) == None
            || PagesRead(d, hits, 0, {}, {}) == Some(if |hits| < PageSize then |hits| else PageSize)
  {
    var end := if PageSize < |hits| then PageSize else |hits|;
    if |hits| > 0 {
      VisitAllFlagsFirst(d, {}, {}, hits[0..end]);
    }
  }

  /**
   * A hit whose first parent is an earlier hit makes `search` raise KeyError:
   * the earlier hit entered P without a name, and the later walk stops there
   * and looks its name up in N.
   */
  lemma HitInsideEarlierHitRaises(d: Drive, cached: set<Id>, named: set<Id>, m1: Id, m2: Id)
    requires Valid(d) && m1 in d.objects && m2 in d.objects && m1 != Root && m2 != Root
    requires named <= cached && m1 !in cached && m2 !in cached && ParentOrEmpty(d, m2) == m1
    ensures VisitAll(d, cached, named, [m1, m2]) == None
  {
    var ms := [m1, m2];
    assert ms[..|ms| - 1] == [m1] && ms[|ms| - 1] == m2;
    assert [m1][..0] == [];
    var v := Visit(d, cached, named, m1);
    if v.Some? {
      var c := Chain(d, cached, ParentOrEmpty(d, m1));
      assert m1 !in Elems(c) && m2 !in Elems(c);
      var c1, n1 := v.value.0, v.value.1;
      assert m1 in c1 && m1 !in n1 && m2 !in c1;
      assert Chain(d, c1, m1) == [m1];
      assert VisitAll(d, cached, named, [m1]) == Some((c1, n1, true));
      assert Visit(d, c1, n1, m2) == None;
    } else {
      assert VisitAll(d, cached, named, [m1]) == None;
    }
  }

  /** Every row `search` prints is a hit of the query, with its container path, inside the scope. */
  lemma SearchRowsAreScopedHits(d: Drive, argument: string, scope: string, m: Id, p: string)
    requires Valid(d) && SearchOutcome(d, argument, scope).Some?
    requires (m, p) in SearchOutcome(d, argument, scope).value
    ensures var (op, needle) := ChooseOperator(argument);
            m in d.objects && m != Root && NameMatches(op, needle, Name(d, m))
            && p == ContainerPath(d, m) && StartsWith(p, scope)
  {
    var (op, needle) := ChooseOperator(argument);
    var hits := Hits(d, op, needle);
    var n := PagesRead(d, hits, 0, {}, {}).value;
    KeptMembers(d, hits[..n], scope, m, p);
    assert m in hits;
  }
}
