/** Generic facts about sequence concatenation, proved once for any element type. */
module Seqs {
  lemma Assoc<T>(a: seq<T>, b: seq<T>, c: seq<T>)
    ensures (a + b) + c == a + (b + c)
  {
  }

  lemma HeadTail<T>(s: seq<T>)
    requires |s| > 0
    ensures [s[0]] + s[1..] == s
  {
  }

  lemma InitLast<T>(s: seq<T>)
    requires |s| > 0
    ensures s[..|s| - 1] + [s[|s| - 1]] == s
  {
  }

  lemma SnocPrefix<T>(s: seq<T>, x: T)
    ensures (s + [x])[..|s|] == s && (s + [x])[|s|] == x
  {
  }

  lemma TailOfAppend<T>(a: seq<T>, b: seq<T>)
    requires |a| > 0
    ensures (a + b)[1..] == a[1..] + b && (a + b)[0] == a[0]
  {
  }

  lemma TakeSnoc<T>(s: seq<T>, j: nat)
    requires j < |s|
    ensures s[..j + 1] == s[..j] + [s[j]]
  {
  }

  lemma TakeStep<T>(s: seq<T>, i: nat)
    requires i < |s|
    ensures |s[..i + 1]| == i + 1 && s[..i + 1][..i] == s[..i] && s[..i + 1][i] == s[i]
  {
  }

  lemma SliceJoin<T>(s: seq<T>, i: nat, j: nat)
    requires i <= j <= |s|
    ensures s[..j] == s[..i] + s[i..j]
  {
  }

  /** When `s` after its head is `a + b` with `a` short of `k`, everything from `k` on lies in `b`. */
  lemma DropWithin<T>(s: seq<T>, a: seq<T>, b: seq<T>, k: nat)
    requires |s| > 0 && s[1..] == a + b && |a| < k <= |s|
    ensures s[k..] == b[k - 1 - |a|..]
  {
    assert s[k..] == s[1..][k - 1..];
  }

  /** When `s` after its head is `a + b`, entry `k` of `s` is entry `k - 1` of `a` while that exists. */
  lemma TailIndex<T>(s: seq<T>, a: seq<T>, b: seq<T>, k: nat)
    requires |s| > 0 && s[1..] == a + b && 1 <= k <= |a|
    ensures s[k] == a[k - 1]
  {
    assert s[k] == s[1..][k - 1];
  }

  lemma TakeAll<T>(s: seq<T>)
    ensures s[..|s|] == s
  {
  }

  lemma ConsTail<T>(x: T, s: seq<T>)
    ensures ([x] + s)[0] == x && ([x] + s)[1..] == s
  {
  }

  lemma TakeDrop<T>(s: seq<T>, k: nat)
    requires k <= |s|
    ensures s[..k] + s[k..] == s
  {
  }

  lemma DropCons<T>(s: seq<T>, i: nat)
    requires i < |s|
    ensures s[i..] == [s[i]] + s[i + 1..]
  {
  }

  lemma Regroup<T>(a: seq<T>, b: seq<T>, c: seq<T>, r: seq<T>)
    ensures ((a + b) + c) + r == a + ((b + c) + r)
  {
  }

  lemma ConsAvoids<T>(x: T, t: seq<T>, m: set<T>)
    requires x !in m && |t| >= 1
    requires forall i :: 0 <= i < |t| - 1 ==> t[i] !in m
    ensures forall i :: 0 <= i < |[x] + t| - 1 ==> ([x] + t)[i] !in m
    ensures ([x] + t)[|[x] + t| - 1] == t[|t| - 1]
  {
  }

  /** The elements of a sequence, as a set. */
  ghost function Elems<T>(s: seq<T>): set<T> {
    set x | x in s
  }

  lemma ElemsSnoc<T>(s: seq<T>, x: T)
    ensures Elems(s + [x]) == Elems(s) + {x}
  {
  }
}
