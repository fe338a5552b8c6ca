/**
 * Path resolution (`__traverse_path`): a slash-separated path, absolute or
 * relative, with `.` and `..`, is walked segment by segment over the store and
 * yields the object id and its display path, or the sentinel ("", "").
 */
module Resolution {
  import opened Wrappers
  import opened Strings
  import opened Store

  /** A resolved position: an object id and the display path shown in the prompt. */
  datatype Location = Location(id: Id, path: string)

  /** The sentinel `("", "")` returned when a path cannot be resolved. */
  const Failed: Location := Location("", "")

  /** Every display path the shell builds starts with "/". */
  predicate IsAbsolute(p: string) {
    |p| > 0 && p[0] == '/'
  }

  ghost predicate IsAt(d: Drive, loc: Location) {
    Valid(d) && loc.id in d.objects && IsAbsolute(loc.path)
  }

  /** `[part for part in parts if part]` */
  function NonEmpty(parts: seq<string>): (r: seq<string>)
    ensures forall i :: 0 <= i < |r| ==> r[i] != "" && r[i] in parts
    decreases |parts|
  {
    if |parts| == 0 then []
    else if parts[0] == "" then NonEmpty(parts[1..])
    else [parts[0]] + NonEmpty(parts[1..])
  }

  lemma {:induction false} NonEmptyAppend(a: seq<string>, b: seq<string>)
    ensures NonEmpty(a + b) == NonEmpty(a) + NonEmpty(b)
    decreases |a|
  {
    if |a| > 0 {
      assert (a + b)[1..] == a[1..] + b;
      NonEmptyAppend(a[1..], b);
    } else {
      assert a + b == b;
    }
  }

  /** The segments a path argument is walked through: its non-empty "/"-pieces. */
  function Segments(arg: string): (segs: seq<string>)
    ensures forall i :: 0 <= i < |segs| ==> segs[i] != "" && '/' !in segs[i]
  {
    SplitPiecesAvoidSeparator(arg, "/");
    NonEmpty(SplitOn(arg, "/"))
  }

  /**
   * Repeated and trailing slashes do not matter: the segments of `a/b` are
   * those of `a` followed by those of `b`, whatever `a` and `b` end or start with.
   */
  lemma SegmentsAround(a: string, b: string)
    ensures Segments(a + "/" + b) == Segments(a) + Segments(b)
  {
    SplitAround(a, "/", b);
    NonEmptyAppend(SplitOn(a, "/"), SplitOn(b, "/"));
  }

  /** The display path after `..`: cut at the last "/", or "/" when that is the leading one. */
  function Truncate(path: string): (r: string)
    requires IsAbsolute(path)
    ensures IsAbsolute(r) && |r| <= |path|
  {
    var k := LastIndexOf(path, '/').value;
    if k == 0 then "/" else path[..k]
  }

  /** The display path after entering a child named `name`, without doubling the root "/". */
  function Extend(path: string, name: string): (r: string)
    requires IsAbsolute(path)
    ensures IsAbsolute(r)
  {
    if path == "/" then path + name else path + "/" + name
  }

  /** `..` undoes entering a child whose name has no "/". */
  lemma TruncateExtend(path: string, name: string)
    requires IsAbsolute(path) && name != "" && '/' !in name
    ensures Truncate(Extend(path, name)) == path
  {
    var e := Extend(path, name);
    var k := if path == "/" then 0 else |path|;
    assert e[k] == '/';
    forall j | k < j < |e| ensures e[j] != '/' {
      assert e[j] == name[j - k - 1];
    }
    var r := LastIndexOf(e, '/');
    assert r.Some?;
    assert r.value == k;
    if path != "/" {
      assert e[..k] == path;
    }
  }

  /** One segment: `.` stays, `..` goes to the first parent, a name goes to the first child so named. */
  function Step(d: Drive, loc: Location, seg: string): (r: Option<Location>)
    requires IsAt(d, loc)
    ensures r.Some? ==> IsAt(d, r.value)
  {
    if seg == "." then Some(loc)
    else if seg == ".." then
      var ps := d.objects[loc.id].parents;
      if |ps| == 0 then None else Some(Location(ps[0], Truncate(loc.path)))
    else
      match FirstNamed(d, Children(d, loc.id), seg)
      case None => None
      case Some(c) => Some(Location(c, Extend(loc.path, Name(d, c))))
  }

  function Walk(d: Drive, loc: Location, segs: seq<string>): (r: Option<Location>)
    requires IsAt(d, loc)
    ensures r.Some? ==> IsAt(d, r.value)
    decreases |segs|
  {
    if |segs| == 0 then Some(loc)
    else
      match Step(d, loc, segs[0])
      case None => None
      case Some(next) => Walk(d, next, segs[1..])
  }

  /** Where a walk starts: the root and "/" for an absolute argument, else the current folder and path. */
  function Start(currentId: Id, currentPath: string, arg: string): Location {
    if StartsWith(arg, "/") then Location(Root, "/") else Location(currentId, currentPath)
  }

  /** `__traverse_path(current_path, argument)` with `current_folder_id == currentId`. */
  function Resolve(d: Drive, currentId: Id, currentPath: string, arg: string): (r: Location)
    requires Valid(d) && currentId in d.objects && IsAbsolute(currentPath)
    ensures r == Failed || (r.id != "" && IsAt(d, r))
  {
    match Walk(d, Start(currentId, currentPath, arg), Segments(arg))
    case None => Failed
    case Some(loc) => loc
  }

  /** An empty argument and "." both stay at the current folder, so `ls` and `ls .` agree. */
  lemma ResolveEmptyOrDot(d: Drive, currentId: Id, currentPath: string)
    requires Valid(d) && currentId in d.objects && IsAbsolute(currentPath)
    ensures Resolve(d, currentId, currentPath, "") == Location(currentId, currentPath)
    ensures Resolve(d, currentId, currentPath, ".") == Location(currentId, currentPath)
  {
    ContainsChar(".", '/');
    SplitWithoutSeparator(".", "/");
    assert Segments(".") == ["."];
    assert Walk(d, Location(currentId, currentPath), ["."]) == Walk(d, Location(currentId, currentPath), ["."][1..]);
  }

  /** Walking `s1 + s2` is walking `s1`, then `s2` from where that ended; a failure stops the walk. */
  lemma {:induction false} WalkAppend(d: Drive, loc: Location, s1: seq<string>, s2: seq<string>)
    requires IsAt(d, loc)
    ensures Walk(d, loc, s1 + s2) ==
              match Walk(d, loc, s1)
              case None => None
              case Some(mid) => Walk(d, mid, s2)
    decreases |s1|
  {
    if |s1| == 0 {
      assert s1 + s2 == s2;
    } else {
      assert (s1 + s2)[0] == s1[0];
      assert (s1 + s2)[1..] == s1[1..] + s2;
      match Step(d, loc, s1[0])
      case None =>
      case Some(next) => WalkAppend(d, next, s1[1..], s2);
    }
  }

  /** The segments with every "." taken out. */
  function WithoutDots(segs: seq<string>): (r: seq<string>)
    ensures forall i :: 0 <= i < |r| ==> r[i] != "."
    decreases |segs|
  {
    if |segs| == 0 then []
    else if segs[0] == "." then WithoutDots(segs[1..])
    else [segs[0]] + WithoutDots(segs[1..])
  }

  /** "." segments change neither the id nor the display path. */
  lemma {:induction false} WalkIgnoresDots(d: Drive, loc: Location, segs: seq<string>)
    requires IsAt(d, loc)
    ensures Walk(d, loc, segs) == Walk(d, loc, WithoutDots(segs))
    decreases |segs|
  {
    if |segs| > 0 {
      match Step(d, loc, segs[0])
      case None =>
      case Some(next) => WalkIgnoresDots(d, next, segs[1..]);
    }
  }

  /**
   * Resolving `a/b` relative to the current folder is resolving `a`, then `b`
   * relative to where `a` led (so `cd a` then `cd b` lands where `cd a/b` does),
   * and a failure of `a` fails the whole path.
   */
  lemma ResolveSequence(d: Drive, currentId: Id, currentPath: string, a: string, b: string)
    requires Valid(d) && currentId in d.objects && IsAbsolute(currentPath)
    requires a != "" && !StartsWith(a, "/") && !StartsWith(b, "/")
    ensures var mid := Resolve(d, currentId, currentPath, a);
            Resolve(d, currentId, currentPath, a + "/" + b) ==
              if mid == Failed then Failed else Resolve(d, mid.id, mid.path, b)
  {
    var ab := a + "/" + b;
    assert ab[..|a|] == a;
    assert !StartsWith(ab, "/") by {
      assert ab[0] == a[0];
    }
    SegmentsAround(a, b);
    var start := Location(currentId, currentPath);
    WalkAppend(d, start, Segments(a), Segments(b));
  }

  /** `..` from an object without parents (the root) fails, whatever follows. */
  lemma {:induction false} ParentOfRootFails(d: Drive, path: string, rest: seq<string>)
    requires Valid(d) && IsAbsolute(path)
    ensures Walk(d, Location(Root, path), [".."] + rest) == None
    ensures Resolve(d, Root, path, "..") == Failed
  {
    assert Segments("..") == [".."] by {
      ContainsChar("..", '/');
      SplitWithoutSeparator("..", "/");
    }
  }

  /**
   * With single parents, entering a child and then `..` comes back to the same
   * id and display path.
   */
  lemma ChildThenParent(d: Drive, loc: Location, name: string)
    requires IsAt(d, loc) && name != "" && name != "." && name != ".." && '/' !in name
    requires FirstNamed(d, Children(d, loc.id), name).Some?
    requires d.objects[FirstNamed(d, Children(d, loc.id), name).value].parents == [loc.id]
    ensures Walk(d, loc, [name, ".."]) == Some(loc)
  {
    var c := FirstNamed(d, Children(d, loc.id), name).value;
    TruncateExtend(loc.path, name);
    var next := Location(c, Extend(loc.path, name));
    assert Step(d, loc, name) == Some(next);
    assert [name, ".."][1..] == [".."];
    assert Walk(d, next, [".."]) == Some(Location(loc.id, Truncate(Extend(loc.path, name))));
  }

  /** A named segment moves to the first child, in listing order, with exactly that name. */
  lemma NamedStep(d: Drive, loc: Location, seg: string, i: nat)
    requires IsAt(d, loc) && seg != "." && seg != ".."
    requires i < |Children(d, loc.id)|
    requires Name(d, Children(d, loc.id)[i]) == seg
    requires forall j :: 0 <= j < i ==> Name(d, Children(d, loc.id)[j]) != seg
    ensures Step(d, loc, seg) == Some(Location(Children(d, loc.id)[i], Extend(loc.path, seg)))
  {
    var cs := Children(d, loc.id);
    var r := FirstNamed(d, cs, seg);
    var k :| 0 <= k < |cs| && cs[k] == r.value && forall j :: 0 <= j < k ==> Name(d, cs[j]) != seg;
    assert k == i;
  }
}
