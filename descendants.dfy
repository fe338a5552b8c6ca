/**
 * Descendant enumeration (`__get_folder_children_ids`): the specification of
 * the breadth-first walk. The walk's result is characterised as the fixed point
 * "the children of the start folder, followed by the children of every folder
 * in the result, in result order", which is also shown to be exactly the set of
 * descendants. `Size` bounds the work left and so proves the walk terminates.
 */
module Descendants {
  import opened Store
  import opened Seqs

  /** The children of each id of `xs` in turn, concatenated (duplicates kept). */
  function ChildrenOf(d: Drive, xs: seq<Id>): (r: seq<Id>)
    ensures Valid(d) ==> forall x :: x in r ==> x in d.objects
    decreases |xs|
  {
    if |xs| == 0 then [] else ChildrenOf(d, xs[..|xs| - 1]) + Children(d, xs[|xs| - 1])
  }

  /** The folder-typed ids of `xs`, in order: what the walk enqueues. */
  function Folders(d: Drive, xs: seq<Id>): (r: seq<Id>)
    requires forall x :: x in xs ==> x in d.objects
    ensures forall x :: x in r ==> x in xs && IsFolder(d, x)
    decreases |xs|
  {
    if |xs| == 0 then []
    else Folders(d, xs[..|xs| - 1]) + (if IsFolder(d, xs[|xs| - 1]) then [xs[|xs| - 1]] else [])
  }

  lemma {:induction false} FoldersAppend(d: Drive, a: seq<Id>, b: seq<Id>)
    requires forall x :: x in a + b ==> x in d.objects
    ensures Folders(d, a + b) == Folders(d, a) + Folders(d, b)
    decreases |b|
  {
    if |b| == 0 {
      assert a + b == a;
    } else {
      assert (a + b)[..|a + b| - 1] == a + b[..|b| - 1];
      FoldersAppend(d, a, b[..|b| - 1]);
    }
  }

  lemma {:induction false} FolderInFolders(d: Drive, xs: seq<Id>, x: Id)
    requires forall y :: y in xs ==> y in d.objects
    requires x in xs && IsFolder(d, x)
    ensures x in Folders(d, xs)
    decreases |xs|
  {
    if xs[|xs| - 1] != x {
      assert x in xs[..|xs| - 1] by {
        var i :| 0 <= i < |xs| && xs[i] == x;
        assert xs[..|xs| - 1][i] == x;
      }
      FolderInFolders(d, xs[..|xs| - 1], x);
    }
  }

  /** Every child of a listed id is in the concatenation, and only those. */
  lemma {:induction false} ChildrenOfMembers(d: Drive, xs: seq<Id>, c: Id)
    ensures c in ChildrenOf(d, xs) <==> exists a :: a in xs && c in Children(d, a)
    decreases |xs|
  {
    if |xs| > 0 {
      var init, last := xs[..|xs| - 1], xs[|xs| - 1];
      ChildrenOfMembers(d, init, c);
      assert ChildrenOf(d, xs) == ChildrenOf(d, init) + Children(d, last);
      assert forall a :: a in xs <==> a in init || a == last by {
        assert xs == init + [last];
      }
    }
  }

  /**
   * The walk's order: the result is the children of the start folder followed
   * by the children of each folder of the result, in the order the folders
   * appear in it (a first-in, first-out queue).
   */
  ghost predicate IsBreadthFirst(d: Drive, start: Id, found: seq<Id>)
    requires Valid(d)
  {
    && (forall x :: x in found ==> x in d.objects)
    && found == ChildrenOf(d, [start] + Folders(d, found))
  }

  /** `x` is reached from folder `a` by child links through folders only. */
  ghost predicate IsDescendant(d: Drive, x: Id, a: Id)
    requires Valid(d) && a in d.objects
    decreases d.height[a]
  {
    exists c :: c in Children(d, a) && (c == x || (IsFolder(d, c) && IsDescendant(d, x, c)))
  }

  lemma {:induction false} DescendantThroughFolder(d: Drive, x: Id, a: Id, s: Id)
    requires Valid(d) && s in d.objects && a in d.objects
    requires IsDescendant(d, a, s) && IsFolder(d, a) && x in Children(d, a)
    ensures IsDescendant(d, x, s)
    decreases d.height[s]
  {
    var c :| c in Children(d, s) && (c == a || (IsFolder(d, c) && IsDescendant(d, a, c)));
    if c == a {
      assert IsDescendant(d, x, c);
    } else {
      DescendantThroughFolder(d, x, a, c);
    }
  }

  lemma {:induction false} ListerChildrenFound(d: Drive, start: Id, found: seq<Id>, a: Id, x: Id)
    requires Valid(d) && start in d.objects && IsBreadthFirst(d, start, found)
    requires a in [start] + Folders(d, found)
    requires IsDescendant(d, x, a)
    ensures x in found
    decreases d.height[a]
  {
    var lister := [start] + Folders(d, found);
    var c :| c in Children(d, a) && (c == x || (IsFolder(d, c) && IsDescendant(d, x, c)));
    ChildrenOfMembers(d, lister, c);
    if c != x {
      FolderInFolders(d, found, c);
      ListerChildrenFound(d, start, found, c, x);
    }
  }

  lemma {:induction false} FoundIsDescendant(d: Drive, start: Id, found: seq<Id>, x: Id)
    requires Valid(d) && start in d.objects && IsBreadthFirst(d, start, found)
    requires forall y :: y in found ==> d.height[y] < d.height[start]
    requires x in found
    ensures IsDescendant(d, x, start)
    decreases d.height[start] - d.height[x]
  {
    var lister := [start] + Folders(d, found);
    ChildrenOfMembers(d, lister, x);
    var a :| a in lister && x in Children(d, a);
    if a == start {
      assert IsDescendant(d, x, start);
    } else {
      assert a in found && IsFolder(d, a);
      FoundIsDescendant(d, start, found, a);
      DescendantThroughFolder(d, x, a, start);
    }
  }

  /**
   * A breadth-first result holds every descendant of the start folder and
   * nothing else: every child of the start folder and, recursively, every child
   * of each folder-typed child.
   */
  lemma BreadthFirstIsDescendants(d: Drive, start: Id, found: seq<Id>)
    requires Valid(d) && start in d.objects && IsBreadthFirst(d, start, found)
    requires forall y :: y in found ==> d.height[y] < d.height[start]
    ensures forall x :: x in found <==> IsDescendant(d, x, start)
  {
    forall x ensures x in found <==> IsDescendant(d, x, start) {
      if x in found {
        FoundIsDescendant(d, start, found, x);
      }
      if IsDescendant(d, x, start) {
        ListerChildrenFound(d, start, found, start, x);
      }
    }
  }

  /** The result begins with the start folder's own children, in listing order. */
  lemma BreadthFirstStartsWithChildren(d: Drive, start: Id, found: seq<Id>)
    requires Valid(d) && IsBreadthFirst(d, start, found)
    ensures |Children(d, start)| <= |found|
    ensures found[..|Children(d, start)|] == Children(d, start)
  {
    var tail := Folders(d, found);
    ChildrenOfFront(d, start, tail);
  }

  lemma {:induction false} ChildrenOfFront(d: Drive, x: Id, xs: seq<Id>)
    ensures ChildrenOf(d, [x] + xs) == Children(d, x) + ChildrenOf(d, xs)
    decreases |xs|
  {
    var ys := [x] + xs;
    if |xs| == 0 {
      assert ys[..0] == [];
      assert ChildrenOf(d, ys) == ChildrenOf(d, []) + Children(d, x);
    } else {
      var init, last := xs[..|xs| - 1], xs[|xs| - 1];
      assert ys[..|ys| - 1] == [x] + init;
      assert ys[|ys| - 1] == last;
      ChildrenOfFront(d, x, init);
    }
  }

  lemma {:induction false} ChildrenOfAppend(d: Drive, a: seq<Id>, b: seq<Id>)
    ensures ChildrenOf(d, a + b) == ChildrenOf(d, a) + ChildrenOf(d, b)
    decreases |b|
  {
    if |b| == 0 {
      assert a + b == a;
    } else {
      var init, last := b[..|b| - 1], b[|b| - 1];
      assert a + b == (a + init) + [last] && b == init + [last];
      ChildrenOfAppend(d, a, init);
      ChildrenOfSnoc(d, a + init, last);
      ChildrenOfSnoc(d, init, last);
    }
  }

  /** An id of `xs` of greatest height. */
  lemma {:induction false} Highest(d: Drive, xs: seq<Id>) returns (top: Id)
    requires |xs| > 0 && forall x :: x in xs ==> x in d.height
    ensures top in xs && forall x :: x in xs ==> d.height[x] <= d.height[top]
    decreases |xs|
  {
    if |xs| == 1 {
      top := xs[0];
    } else {
      var t := Highest(d, xs[1..]);
      top := if d.height[xs[0]] >= d.height[t] then xs[0] else t;
      forall x | x in xs ensures d.height[x] <= d.height[top] {
        if x != xs[0] {
          var i :| 0 <= i < |xs| && xs[i] == x;
          assert xs[1..][i - 1] == x;
        }
      }
    }
  }

  /**
   * The walk's queue over its whole run, `[start] + Folders(found)`, read as a
   * fixed point: after its first entry come exactly the folders its entries list.
   */
  ghost predicate QueueClosed(d: Drive, lister: seq<Id>)
    requires Valid(d)
  {
    |lister| > 0 && lister[1..] == Folders(d, ChildrenOf(d, lister))
  }

  lemma BreadthFirstQueueClosed(d: Drive, start: Id, found: seq<Id>)
    requires Valid(d) && IsBreadthFirst(d, start, found)
    ensures QueueClosed(d, [start] + Folders(d, found))
  {
    assert ([start] + Folders(d, found))[1..] == Folders(d, found);
  }

  /** The queue after its first entry: the folders listed by its first `k` entries, then the rest. */
  lemma QueueSplit(d: Drive, lister: seq<Id>, k: nat)
    requires Valid(d) && QueueClosed(d, lister) && k <= |lister|
    ensures lister[1..] == Folders(d, ChildrenOf(d, lister[..k])) + Folders(d, ChildrenOf(d, lister[k..]))
  {
    assert lister[..k] + lister[k..] == lister;
    ChildrenOfAppend(d, lister[..k], lister[k..]);
    FoldersAppend(d, ChildrenOf(d, lister[..k]), ChildrenOf(d, lister[k..]));
  }

  /**
   * The queue never runs dry early: once the first `k` entries have been
   * dequeued (k >= 1), their listings already hold the next folder to dequeue.
   * Otherwise the highest folder still to come would be a child of a folder
   * still to come, which heights rule out.
   */
  lemma QueueAhead(d: Drive, lister: seq<Id>, k: nat)
    requires Valid(d) && QueueClosed(d, lister) && 1 <= k < |lister|
    ensures k <= |Folders(d, ChildrenOf(d, lister[..k]))|
  {
    var rest := ChildrenOf(d, lister[k..]);
    var early, later := Folders(d, ChildrenOf(d, lister[..k])), Folders(d, rest);
    if |early| < k {
      QueueSplit(d, lister, k);
      DropWithin(lister, early, later, k);
      var top := Highest(d, later);
      HighestHasNoParentAmong(d, lister[k..], top);
      assert false;
    }
  }

  /** No id of `xs` is a parent of an id at least as high as all of them. */
  lemma HighestHasNoParentAmong(d: Drive, xs: seq<Id>, top: Id)
    requires Valid(d) && top in d.objects
    requires forall x :: x in xs ==> x in d.objects && d.height[x] <= d.height[top]
    ensures top !in ChildrenOf(d, xs)
  {
    ChildrenOfMembers(d, xs, top);
  }

  /** Entry `k` of a closed queue is the next folder listed by the entries before it. */
  lemma NextEntry(d: Drive, lister: seq<Id>, k: nat)
    requires Valid(d) && QueueClosed(d, lister) && 1 <= k < |lister|
    ensures k <= |Folders(d, ChildrenOf(d, lister[..k]))|
    ensures lister[k] == Folders(d, ChildrenOf(d, lister[..k]))[k - 1]
  {
    QueueAhead(d, lister, k);
    QueueSplit(d, lister, k);
    TailIndex(lister, Folders(d, ChildrenOf(d, lister[..k])), Folders(d, ChildrenOf(d, lister[k..])), k);
  }

  /** Two closed queues with the same first entry agree on every common prefix. */
  lemma {:induction false} QueuesAgree(d: Drive, l1: seq<Id>, l2: seq<Id>, j: nat)
    requires Valid(d) && QueueClosed(d, l1) && QueueClosed(d, l2) && l1[0] == l2[0]
    requires 1 <= j <= |l1| && j <= |l2|
    ensures l1[..j] == l2[..j]
    decreases j
  {
    if j > 1 {
      var k := j - 1;
      QueuesAgree(d, l1, l2, k);
      NextEntry(d, l1, k);
      NextEntry(d, l2, k);
      TakeSnoc(l1, k);
      TakeSnoc(l2, k);
    }
  }

  /** A closed queue is never shorter than another with the same first entry. */
  lemma NotShorter(d: Drive, l1: seq<Id>, l2: seq<Id>)
    requires Valid(d) && QueueClosed(d, l1) && QueueClosed(d, l2) && l1[0] == l2[0]
    ensures |l2| <= |l1|
  {
    var n := |l1|;
    if n < |l2| {
      QueuesAgree(d, l1, l2, n);
      assert l2[..n] == l1;
      assert |Folders(d, ChildrenOf(d, l1))| == n - 1;
      QueueAhead(d, l2, n);
      assert false;
    }
  }

  /**
   * The breadth-first order pins the result down: two results that both meet
   * it are the same sequence, so the walk's output is fully specified.
   */
  lemma BreadthFirstUnique(d: Drive, start: Id, f1: seq<Id>, f2: seq<Id>)
    requires Valid(d) && IsBreadthFirst(d, start, f1) && IsBreadthFirst(d, start, f2)
    ensures f1 == f2
  {
    var l1, l2 := [start] + Folders(d, f1), [start] + Folders(d, f2);
    BreadthFirstQueueClosed(d, start, f1);
    BreadthFirstQueueClosed(d, start, f2);
    NotShorter(d, l1, l2);
    NotShorter(d, l2, l1);
    QueuesAgree(d, l1, l2, |l1|);
    assert l1 == l1[..|l1|] && l2 == l2[..|l2|];
  }

  /**
   * Work left below a folder: one for the folder itself plus the work of its
   * folder children (counted once per listing, as the walk does).
   */
  ghost function Size(d: Drive, x: Id): (n: nat)
    requires Valid(d) && x in d.objects
    ensures n >= 1
    decreases d.height[x], 1, 0
  {
    1 + FolderChildrenSize(d, x, 0)
  }

  ghost function FolderChildrenSize(d: Drive, x: Id, i: nat): nat
    requires Valid(d) && x in d.objects
    decreases d.height[x], 0, |Children(d, x)| - i
  {
    if i >= |Children(d, x)| then 0
    else
      var c := Children(d, x)[i];
      (if IsFolder(d, c) then Size(d, c) else 0) + FolderChildrenSize(d, x, i + 1)
  }

  ghost function QueueSize(d: Drive, q: seq<Id>): nat
    requires Valid(d) && forall x :: x in q ==> x in d.objects
    decreases |q|
  {
    if |q| == 0 then 0 else Size(d, q[0]) + QueueSize(d, q[1..])
  }

  lemma {:induction false} QueueSizeAppend(d: Drive, a: seq<Id>, b: seq<Id>)
    requires Valid(d) && forall x :: x in a + b ==> x in d.objects
    ensures QueueSize(d, a + b) == QueueSize(d, a) + QueueSize(d, b)
    decreases |a|
  {
    if |a| == 0 {
      assert a + b == b;
    } else {
      assert (a + b)[1..] == a[1..] + b;
      QueueSizeAppend(d, a[1..], b);
    }
  }

  lemma {:induction false} FolderChildrenSizeIsQueueSize(d: Drive, x: Id, i: nat)
    requires Valid(d) && x in d.objects && i <= |Children(d, x)|
    ensures FolderChildrenSize(d, x, i) == QueueSize(d, Folders(d, Children(d, x)[i..]))
    decreases |Children(d, x)| - i
  {
    var cs := Children(d, x);
    if i == |cs| {
      assert cs[i..] == [];
    } else {
      var c := cs[i];
      FolderChildrenSizeIsQueueSize(d, x, i + 1);
      var f := if IsFolder(d, c) then [c] else [];
      assert Folders(d, cs[i..]) == f + Folders(d, cs[i + 1..]) by {
        DropCons(cs, i);
        FoldersAppend(d, [c], cs[i + 1..]);
        assert Folders(d, [c]) == f by { assert [c][..0] == []; }
      }
      QueueSizeAppend(d, f, Folders(d, cs[i + 1..]));
      assert QueueSize(d, f) == (if IsFolder(d, c) then Size(d, c) else 0) by {
        if IsFolder(d, c) {
          assert f[1..] == [];
        }
      }
    }
  }

  /** Dequeuing a folder and enqueuing its folder children leaves one unit less of work. */
  lemma DequeueDecreasesWork(d: Drive, queued: seq<Id>, after: seq<Id>)
    requires Valid(d) && |queued| > 0 && forall x :: x in queued ==> x in d.objects
    requires after == queued[1..] + Folders(d, Children(d, queued[0]))
    ensures forall x :: x in after ==> x in d.objects
    ensures QueueSize(d, after) < QueueSize(d, queued)
  {
    var head := queued[0];
    FolderChildrenSizeIsQueueSize(d, head, 0);
    assert Children(d, head)[0..] == Children(d, head);
    QueueSizeAppend(d, queued[1..], Folders(d, Children(d, head)));
  }

  /** Every id of `xs` is in the store with height below `bound`. */
  ghost predicate Lower(d: Drive, xs: seq<Id>, bound: nat)
  {
    forall x :: x in xs ==> x in d.objects && x in d.height && d.height[x] < bound
  }

  lemma LowerAppend(d: Drive, a: seq<Id>, b: seq<Id>, bound: nat)
    requires Lower(d, a, bound) && Lower(d, b, bound)
    ensures Lower(d, a + b, bound)
  {
  }

  lemma LowerFolders(d: Drive, xs: seq<Id>, bound: nat)
    requires Lower(d, xs, bound)
    ensures Lower(d, Folders(d, xs), bound + 1)
  {
  }

  lemma FoldersSnoc(d: Drive, xs: seq<Id>, x: Id)
    requires forall y :: y in xs + [x] ==> y in d.objects
    ensures Folders(d, xs + [x]) == Folders(d, xs) + (if IsFolder(d, x) then [x] else [])
  {
    assert (xs + [x])[..|xs|] == xs;
  }

  lemma ChildrenOfSnoc(d: Drive, xs: seq<Id>, x: Id)
    ensures ChildrenOf(d, xs + [x]) == ChildrenOf(d, xs) + Children(d, x)
  {
    assert (xs + [x])[..|xs|] == xs;
  }

  /** Appending the next listed child to the result, and to the queue when it is a folder. */
  lemma EnqueueStep(d: Drive, before: seq<Id>, queued: seq<Id>, results: seq<Id>, j: nat)
    requires j < |results| && forall x :: x in results ==> x in d.objects
    ensures before + results[..j] + [results[j]] == before + results[..j + 1]
    ensures queued + Folders(d, results[..j]) + (if IsFolder(d, results[j]) then [results[j]] else [])
            == queued + Folders(d, results[..j + 1])
  {
    TakeSnoc(results, j);
    FoldersSnoc(d, results[..j], results[j]);
    Assoc(before, results[..j], [results[j]]);
    Assoc(queued, Folders(d, results[..j]), (if IsFolder(d, results[j]) then [results[j]] else []));
  }

  /**
   * The state of the walk from `start` between two turns: `done` has been
   * dequeued, `queue` is waiting, and `found` is the listing of every dequeued
   * folder; together they are the start folder and the folders found so far.
   */
  ghost predicate WalkState(d: Drive, start: Id, done: seq<Id>, queue: seq<Id>, found: seq<Id>)
    requires Valid(d) && start in d.objects
  {
    && Lower(d, queue, d.height[start] + 1)
    && Lower(d, found, d.height[start])
    && done + queue == [start] + Folders(d, found)
    && found == ChildrenOf(d, done)
  }

  /**
   * One turn of the walk: the head folder's listing is appended to the result
   * and its folder children to the queue, then the head is dequeued. The walk's
   * invariant is kept and the work left shrinks.
   */
  lemma DequeueStep(d: Drive, start: Id, done: seq<Id>, queue: seq<Id>, found: seq<Id>)
    requires Valid(d) && start in d.objects && |queue| > 0
    requires WalkState(d, start, done, queue, found)
    ensures var results := Children(d, queue[0]);
            var after := queue[1..] + Folders(d, results);
            && WalkState(d, start, done + [queue[0]], after, found + results)
            && QueueSize(d, after) < QueueSize(d, queue)
  {
    var head, results := queue[0], Children(d, queue[0]);
    var bound := d.height[start];
    assert Lower(d, results, bound);
    var after := queue[1..] + Folders(d, results);
    LowerAppend(d, found, results, bound);
    LowerFolders(d, results, bound);
    LowerAppend(d, queue[1..], Folders(d, results), bound + 1);
    FoldersAppend(d, found, results);
    ChildrenOfSnoc(d, done, head);
    DequeueDecreasesWork(d, queue, after);
    HeadTail(queue);
    Assoc(done, [head], after);
    Assoc([head], queue[1..], Folders(d, results));
    Assoc(done, queue, Folders(d, results));
    Assoc([start], Folders(d, found), Folders(d, results));
  }
}
