/**
 * The few Python string operations the shell relies on, stated on `seq<char>`:
 * `startswith`, `split` with a non-empty separator, its inverse `join`,
 * `rindex` of a character, and the substring test `in`.
 */
module Strings {
  import opened Wrappers
  import opened Seqs

  /** Python's `s.startswith(prefix)`. */
  predicate StartsWith(s: string, prefix: string) {
    |prefix| <= |s| && s[..|prefix|] == prefix
  }

  /** Python's `t in s` for strings: `t` occurs somewhere in `s`. */
  predicate Contains(s: string, t: string)
    decreases |s|
  {
    StartsWith(s, t) || (|s| > 0 && Contains(s[1..], t))
  }

  /**
   * Python's `s.split(sep)`: the pieces between the leftmost non-overlapping
   * occurrences of `sep`; always at least one piece ("".split(sep) == [""]).
   */
  function SplitOn(s: string, sep: string): (parts: seq<string>)
    requires |sep| > 0
    ensures |parts| >= 1
    decreases |s|
  {
    if |s| == 0 then [""]
    else if StartsWith(s, sep) then [""] + SplitOn(s[|sep|..], sep)
    else
      var rest := SplitOn(s[1..], sep);
      [[s[0]] + rest[0]] + rest[1..]
  }

  /** Python's `sep.join(parts)`. */
  function Join(parts: seq<string>, sep: string): string
    requires |parts| >= 1
    decreases |parts|
  {
    if |parts| == 1 then parts[0] else parts[0] + sep + Join(parts[1..], sep)
  }

  /** Splitting loses nothing: joining the pieces with the separator gives the string back. */
  lemma {:induction false} JoinSplit(s: string, sep: string)
    requires |sep| > 0
    ensures Join(SplitOn(s, sep), sep) == s
    decreases |s|
  {
    if |s| == 0 {
    } else if StartsWith(s, sep) {
      var tail := s[|sep|..];
      JoinSplit(tail, sep);
      ConsTail("", SplitOn(tail, sep));
      assert Join(SplitOn(s, sep), sep) == "" + sep + tail;
      assert "" + sep == s[..|sep|];
      TakeDrop(s, |sep|);
    } else {
      var rest := SplitOn(s[1..], sep);
      var parts := SplitOn(s, sep);
      JoinSplit(s[1..], sep);
      HeadTail(s);
      ConsTail([s[0]] + rest[0], rest[1..]);
      if |rest| == 1 {
        assert Join(parts, sep) == [s[0]] + rest[0];
      } else {
        var j := Join(rest[1..], sep);
        assert Join(parts, sep) == ([s[0]] + rest[0]) + sep + j;
        Assoc([s[0]], rest[0], sep);
        Assoc([s[0]], rest[0] + sep, j);
      }
    }
  }

  /** With a one-character separator, no piece contains that character. */
  lemma {:induction false} SplitPiecesAvoidSeparator(s: string, sep: string)
    requires |sep| == 1
    ensures forall i, k :: 0 <= i < |SplitOn(s, sep)| && 0 <= k < |SplitOn(s, sep)[i]| ==>
              SplitOn(s, sep)[i][k] != sep[0]
    decreases |s|
  {
    if |s| == 0 {
    } else if StartsWith(s, sep) {
      SplitPiecesAvoidSeparator(s[1..], sep);
    } else {
      SplitPiecesAvoidSeparator(s[1..], sep);
      assert s[0] != sep[0] by { assert s[..1] == [s[0]]; }
    }
  }

  /** For a one-character string, `in` is membership of that character. */
  lemma {:induction false} ContainsChar(s: string, c: char)
    ensures Contains(s, [c]) <==> c in s
    decreases |s|
  {
    if |s| > 0 {
      ContainsChar(s[1..], c);
      assert StartsWith(s, [c]) <==> s[0] == c by { assert s[..1] == [s[0]]; }
      assert s == [s[0]] + s[1..];
    }
  }

  /** A string in which the separator does not occur splits into itself alone. */
  lemma {:induction false} SplitWithoutSeparator(s: string, sep: string)
    requires |sep| > 0 && !Contains(s, sep)
    ensures SplitOn(s, sep) == [s]
    decreases |s|
  {
    if |s| > 0 {
      SplitWithoutSeparator(s[1..], sep);
      assert [s[0]] + s[1..] == s;
    }
  }

  /**
   * With a one-character separator, splitting around one occurrence of it is
   * splitting each side: `(a + sep + b).split(sep) == a.split(sep) + b.split(sep)`.
   */
  lemma {:induction false} SplitAround(a: string, sep: string, b: string)
    requires |sep| == 1
    ensures SplitOn(a + sep + b, sep) == SplitOn(a, sep) + SplitOn(b, sep)
    decreases |a|
  {
    var s := a + sep + b;
    if |a| == 0 {
      assert s == sep + b;
      assert StartsWith(s, sep);
      assert s[1..] == b;
    } else {
      assert s[1..] == a[1..] + sep + b;
      SplitAround(a[1..], sep, b);
      if a[0] == sep[0] {
        assert StartsWith(s, sep) && StartsWith(a, sep);
      } else {
        assert !StartsWith(s, sep) && !StartsWith(a, sep);
      }
    }
  }

  /**
   * Python's `s.rindex(c)`: the index of the last occurrence of `c`; None where
   * Python raises ValueError because `c` does not occur.
   */
  function LastIndexOf(s: string, c: char): (r: Option<nat>)
    ensures r.Some? ==> r.value < |s| && s[r.value] == c
    ensures r.Some? ==> forall j :: r.value < j < |s| ==> s[j] != c
    ensures r.None? <==> forall j :: 0 <= j < |s| ==> s[j] != c
    decreases |s|
  {
    if |s| == 0 then None
    else if s[|s| - 1] == c then Some(|s| - 1)
    else LastIndexOf(s[..|s| - 1], c)
  }
}
