/**
 * The interactive shell of `main.py`: each input line is classified by its
 * prefix, the text after the keyword is handed to the client, and the prompt
 * path changes only through `cd`. Input is a finite sequence of lines here.
 */
module Shell {
  import opened Strings
  import opened Store
  import opened Resolution
  import opened GDriveClient
  import SearchPaths

  /** What an input line asks for, with the argument handed to the client. */
  datatype Command =
    | Help
    | List(arg: string)
    | ChangeDir(arg: string)
    | TransferTo(arg: string)
    | Upload(arg: string)
    | Find(arg: string)
    | Exit
    | Unknown

  /** Python's `s[k:]`: empty once `k` passes the end. */
  function DropPrefix(s: string, k: nat): (r: string)
    ensures k <= |s| ==> s == s[..k] + r
    ensures |s| <= k ==> r == ""
  {
    if k <= |s| then s[k..] else ""
  }

  /** The dispatch of main.py, tried in the order help, ls, "cd ", "transfer ", "upload ", "find ", exit. */
  function Classify(command: string): Command {
    if command == "help" then Help
    else if StartsWith(command, "ls") then List(if command == "ls" then "" else DropPrefix(command, 3))
    else if StartsWith(command, "cd ") then ChangeDir(DropPrefix(command, 3))
    else if StartsWith(command, "transfer ") then TransferTo(DropPrefix(command, 9))
    else if StartsWith(command, "upload ") then Upload(DropPrefix(command, 7))
    else if StartsWith(command, "find ") then Find(DropPrefix(command, 5))
    else if command == "exit" then Exit
    else Unknown
  }

  /** The usual spelling of a command: the keyword, a space and the argument. */
  function Render(c: Command): string {
    match c
    case Help => "help"
    case List(a) => if a == "" then "ls" else "ls " + a
    case ChangeDir(a) => "cd " + a
    case TransferTo(a) => "transfer " + a
    case Upload(a) => "upload " + a
    case Find(a) => "find " + a
    case Exit => "exit"
    case Unknown => ""
  }

  lemma PrefixOf(keyword: string, a: string)
    ensures StartsWith(keyword + a, keyword) && (keyword + a)[|keyword|..] == a
  {
    assert (keyword + a)[..|keyword|] == keyword;
  }

  lemma NotPrefix(keyword: string, a: string, other: string)
    requires 0 < |other| && 0 < |keyword| && keyword[0] != other[0]
    ensures !StartsWith(keyword + a, other)
  {
    if |other| <= |keyword + a| {
      assert (keyword + a)[..|other|][0] == keyword[0];
    }
  }

  /** Every command reads back from its usual spelling. */
  lemma ClassifyRender(c: Command)
    requires c != Unknown
    ensures Classify(Render(c)) == c
  {
    match c
    case Help =>
    case Exit =>
    case List(a) =>
      if a != "" {
        PrefixOf("ls ", a);
        assert ("ls " + a)[0] == 'l' && |"ls " + a| > 2;
        assert StartsWith("ls " + a, "ls") by { assert ("ls " + a)[..2] == "ls"; }
      }
    case ChangeDir(a) =>
      PrefixOf("cd ", a);
      NotPrefix("cd ", a, "ls");
    case TransferTo(a) =>
      PrefixOf("transfer ", a);
      NotPrefix("transfer ", a, "ls");
      NotPrefix("transfer ", a, "cd ");
    case Upload(a) =>
      PrefixOf("upload ", a);
      NotPrefix("upload ", a, "ls");
      NotPrefix("upload ", a, "cd ");
      NotPrefix("upload ", a, "transfer ");
    case Find(a) =>
      PrefixOf("find ", a);
      NotPrefix("find ", a, "ls");
      NotPrefix("find ", a, "cd ");
      NotPrefix("find ", a, "transfer ");
      NotPrefix("find ", a, "upload ");
  }

  /**
   * A line classified as anything but `ls` or unknown is exactly the keyword
   * followed by the argument, so classification loses nothing there.
   */
  lemma RenderClassify(command: string)
    requires Classify(command) != Unknown && !Classify(command).List?
    ensures Render(Classify(command)) == command
  {
  }

  /**
   * Any line starting with "ls" lists: the bare "ls" and any line of three
   * characters or fewer list the current folder, any longer one lists what
   * follows its third character, whatever that character is.
   */
  lemma ListArgument(command: string)
    requires Classify(command).List?
    ensures StartsWith(command, "ls")
    ensures |command| <= 3 ==> Classify(command).arg == ""
    ensures |command| > 3 ==> command == command[..3] + Classify(command).arg
  {
  }

  /** The third character is skipped whether or not it is a space. */
  lemma ListSkipsThirdCharacter()
    ensures Classify("lsx") == List("") && Classify("lsx/a") == List("/a") && Classify("ls") == List("")
  {
    assert StartsWith("lsx", "ls") && StartsWith("lsx/a", "ls");
    assert "lsx/a"[3..] == "/a";
  }

  /** Only the exact line "exit" ends the session. */
  lemma ExitExactly(command: string)
    ensures Classify(command) == Exit <==> command == "exit"
  {
    if command == "exit" {
      assert command == "exit" + "";
      NotPrefix("exit", "", "ls");
      NotPrefix("exit", "", "cd ");
      NotPrefix("exit", "", "transfer ");
      NotPrefix("exit", "", "upload ");
      NotPrefix("exit", "", "find ");
    }
  }

  /** The shell's state between lines: the client's current folder and the prompt's path. */
  datatype Place = Place(folder: Id, path: string)

  /** The effect of one line on the state: `cd` moves on success, every other line leaves it. */
  function Step(d: Drive, p: Place, command: string): (q: Place)
    requires Valid(d) && p.folder in d.objects && IsAbsolute(p.path)
    ensures q.folder in d.objects && IsAbsolute(q.path)
    ensures !Classify(command).ChangeDir? ==> q == p
  {
    match Classify(command)
    case ChangeDir(a) =>
      var r := Resolve(d, p.folder, p.path, a);
      if r != Failed then Place(r.id, r.path) else p
    case _ => p
  }

  /**
   * Whether handling a line raises out of `main`'s loop, which catches only
   * KeyboardInterrupt: `transfer` with a ">" but no " > " (indexing the split)
   * or with a target that does not resolve (fetching id ""), `upload` with a
   * ">" but no " > ", and `find` whose walk up the parents hits a KeyError.
   */
  ghost predicate Raises(d: Drive, p: Place, command: string)
    requires Valid(d) && p.folder in d.objects && IsAbsolute(p.path)
  {
    match Classify(command)
    case TransferTo(a) =>
      var parts := SplitOn(a, " > ");
      '>' in a && (|parts| < 2 || Resolve(d, p.folder, p.path, parts[0]) == Failed)
    case Upload(a) => '>' in a && |SplitOn(a, " > ")| < 2
    case Find(a) => SearchPaths.SearchOutcome(d, a, p.path).None?
    case _ => false
  }

  /** A line that raises is never a `cd`, so it leaves the state as it was. */
  lemma RaisesStays(d: Drive, p: Place, command: string)
    requires Valid(d) && p.folder in d.objects && IsAbsolute(p.path)
    requires Raises(d, p, command)
    ensures Step(d, p, command) == p && Classify(command) != Exit
  {
  }

  /** The state after stepping through the first `n` lines in turn. */
  function Replay(d: Drive, p: Place, commands: seq<string>, n: nat): (q: Place)
    requires Valid(d) && p.folder in d.objects && IsAbsolute(p.path) && n <= |commands|
    ensures q.folder in d.objects && IsAbsolute(q.path)
    ensures (forall i :: 0 <= i < n ==> !Classify(commands[i]).ChangeDir?) ==> q == p
    decreases n
  {
    if n == 0 then p else Replay(d, Step(d, p, commands[0]), commands[1..], n - 1)
  }

  /** How a session ends: the state, the number of lines read, and whether the last one raised. */
  datatype Outcome = Outcome(place: Place, read: nat, raised: bool)

  /**
   * `main`'s loop over the input lines for a given test of which lines raise:
   * it ends after the first "exit", after the first line that raises, or
   * when input runs out.
   */
  ghost function Loop(d: Drive, p: Place, commands: seq<string>, raises: (Place, string) -> bool): (r: Outcome)
    requires Valid(d) && p.folder in d.objects && IsAbsolute(p.path)
    ensures r.read <= |commands|
    ensures r.raised ==> 0 < r.read
    decreases |commands|
  {
    if |commands| == 0 then Outcome(p, 0, false)
    else if Classify(commands[0]) == Exit then Outcome(p, 1, false)
    else if raises(p, commands[0]) then Outcome(p, 1, true)
    else
      var r := Loop(d, Step(d, p, commands[0]), commands[1..], raises);
      Outcome(r.place, r.read + 1, r.raised)
  }

  /** `Raises` as a test on any state, false where the state is not one the shell can be in. */
  ghost function RaisesIn(d: Drive): (Place, string) -> bool
  {
    (q: Place, c: string) => Valid(d) && q.folder in d.objects && IsAbsolute(q.path) && Raises(d, q, c)
  }

  /** A test of which lines raise that, like `Raises`, never picks a `cd` or an "exit". */
  ghost predicate OnlyCalls(raises: (Place, string) -> bool)
  {
    forall q: Place, c: string :: raises(q, c) ==> !Classify(c).ChangeDir? && Classify(c) != Exit
  }

  /** The lines that raise are client calls, never a `cd` or an "exit". */
  lemma RaisesOnlyCalls(d: Drive)
    ensures OnlyCalls(RaisesIn(d))
  {
    forall q: Place, c: string | RaisesIn(d)(q, c)
      ensures !Classify(c).ChangeDir? && Classify(c) != Exit
    {
      RaisesStays(d, q, c);
    }
  }

  /** A session over the input lines, with the lines that raise as `Raises` says. */
  ghost function Session(d: Drive, p: Place, commands: seq<string>): (r: Outcome)
    requires Valid(d) && p.folder in d.objects && IsAbsolute(p.path)
    ensures r.read <= |commands|
    ensures r.raised ==> 0 < r.read
  {
    Loop(d, p, commands, RaisesIn(d))
  }

  /**
   * The lines read are those up to and including the first that is "exit" or
   * raises (in the state the lines before it left), or all of them; the
   * session raised exactly when that last line raised, and its final state
   * is the one the lines read step to.
   */
  lemma SessionStopsAtExit(d: Drive, p: Place, commands: seq<string>)
    requires Valid(d) && p.folder in d.objects && IsAbsolute(p.path)
    ensures var r := Session(d, p, commands);
            r.place == Replay(d, p, commands, r.read)
    ensures var r := Session(d, p, commands);
            forall i :: 0 <= i < r.read - 1 ==>
              commands[i] != "exit" && !Raises(d, Replay(d, p, commands, i), commands[i])
    ensures var r := Session(d, p, commands);
            r.read < |commands| ==> 0 < r.read && (commands[r.read - 1] == "exit" || r.raised)
    ensures var r := Session(d, p, commands);
            r.raised <==> 0 < r.read && Raises(d, Replay(d, p, commands, r.read - 1), commands[r.read - 1])
  {
    var raises := RaisesIn(d);
    RaisesOnlyCalls(d);
    LoopReplays(d, p, commands, raises);
    LoopReadsPastNothing(d, p, commands, raises);
    LoopEndsOnLastRead(d, p, commands, raises);
    LoopRaisesOnLastRead(d, p, commands, raises);
  }

  /** One more line read: the state after `n + 1` lines is the state after `n` lines of the rest. */
  lemma ReplayStep(d: Drive, p: Place, commands: seq<string>, n: nat)
    requires Valid(d) && p.folder in d.objects && IsAbsolute(p.path) && n < |commands|
    ensures Replay(d, p, commands, n + 1) == Replay(d, Step(d, p, commands[0]), commands[1..], n)
    ensures 0 < n ==> commands[n] == commands[1..][n - 1]
  {
  }

  lemma {:induction false} LoopReplays(d: Drive, p: Place, commands: seq<string>, raises: (Place, string) -> bool)
    requires Valid(d) && p.folder in d.objects && IsAbsolute(p.path)
    requires OnlyCalls(raises)
    ensures var r := Loop(d, p, commands, raises);
            r.place == Replay(d, p, commands, r.read)
    decreases |commands|
  {
    if |commands| > 0 {
      var c := commands[0];
      if Classify(c) == Exit || raises(p, c) {
        ReplayStep(d, p, commands, 0);
      } else {
        var q := Step(d, p, c);
        LoopReplays(d, q, commands[1..], raises);
        ReplayStep(d, p, commands, Loop(d, q, commands[1..], raises).read);
      }
    }
  }

  lemma {:induction false} LoopReadsPastNothing(d: Drive, p: Place, commands: seq<string>, raises: (Place, string) -> bool)
    requires Valid(d) && p.folder in d.objects && IsAbsolute(p.path)
    requires OnlyCalls(raises)
    ensures var r := Loop(d, p, commands, raises);
            forall i :: 0 <= i < r.read - 1 ==>
              commands[i] != "exit" && !raises(Replay(d, p, commands, i), commands[i])
    decreases |commands|
  {
    if |commands| > 0 {
      var c := commands[0];
      ExitExactly(c);
      if Classify(c) != Exit && !raises(p, c) {
        var q, tail := Step(d, p, c), commands[1..];
        LoopReadsPastNothing(d, q, tail, raises);
        var r := Loop(d, p, commands, raises);
        forall i | 0 < i < r.read - 1
          ensures commands[i] != "exit" && !raises(Replay(d, p, commands, i), commands[i])
        {
          ReplayStep(d, p, commands, i - 1);
        }
      }
    }
  }

  lemma {:induction false} LoopEndsOnLastRead(d: Drive, p: Place, commands: seq<string>, raises: (Place, string) -> bool)
    requires Valid(d) && p.folder in d.objects && IsAbsolute(p.path)
    requires OnlyCalls(raises)
    ensures var r := Loop(d, p, commands, raises);
            r.read < |commands| ==> 0 < r.read && (commands[r.read - 1] == "exit" || r.raised)
    decreases |commands|
  {
    if |commands| > 0 {
      var c := commands[0];
      ExitExactly(c);
      if Classify(c) != Exit && !raises(p, c) {
        var q, tail := Step(d, p, c), commands[1..];
        LoopEndsOnLastRead(d, q, tail, raises);
        var k := Loop(d, q, tail, raises).read;
        if 0 < k < |tail| {
          ReplayStep(d, p, commands, k);
        }
      }
    }
  }

  lemma {:induction false} LoopRaisesOnLastRead(d: Drive, p: Place, commands: seq<string>, raises: (Place, string) -> bool)
    requires Valid(d) && p.folder in d.objects && IsAbsolute(p.path)
    requires OnlyCalls(raises)
    ensures var r := Loop(d, p, commands, raises);
            r.raised <==> 0 < r.read && raises(Replay(d, p, commands, r.read - 1), commands[r.read - 1])
    decreases |commands|
  {
    if |commands| > 0 {
      var c := commands[0];
      if Classify(c) == Exit || raises(p, c) {
        assert Replay(d, p, commands, 0) == p;
      } else {
        var q := Step(d, p, c);
        LoopRaisesOnLastRead(d, q, commands[1..], raises);
        var k := Loop(d, q, commands[1..], raises).read;
        if k > 0 {
          ReplayStep(d, p, commands, k - 1);
        }
      }
    }
  }

  /** Lines after the first "exit" are never read. */
  lemma SessionIgnoresAfterExit(d: Drive, p: Place, before: seq<string>, after: seq<string>)
    requires Valid(d) && p.folder in d.objects && IsAbsolute(p.path)
    requires "exit" !in before
    ensures Session(d, p, before + ["exit"] + after) == Session(d, p, before + ["exit"])
  {
    RaisesOnlyCalls(d);
    LoopIgnoresAfterExit(d, p, before, after, RaisesIn(d));
  }

  lemma {:induction false} LoopIgnoresAfterExit(d: Drive, p: Place, before: seq<string>, after: seq<string>, raises: (Place, string) -> bool)
    requires Valid(d) && p.folder in d.objects && IsAbsolute(p.path)
    requires OnlyCalls(raises)
    requires "exit" !in before
    ensures Loop(d, p, before + ["exit"] + after, raises) == Loop(d, p, before + ["exit"], raises)
    decreases |before|
  {
    if |before| == 0 {
      ExitExactly("exit");
      assert (before + ["exit"] + after)[0] == "exit";
      assert (before + ["exit"])[0] == "exit";
    } else {
      ExitExactly(before[0]);
      assert (before + ["exit"] + after)[0] == before[0] && (before + ["exit"])[0] == before[0];
      assert (before + ["exit"] + after)[1..] == before[1..] + ["exit"] + after;
      assert (before + ["exit"])[1..] == before[1..] + ["exit"];
      LoopIgnoresAfterExit(d, Step(d, p, before[0]), before[1..], after, raises);
    }
  }

  /** Without a `cd` line the state at the end is the state at the start. */
  lemma SessionWithoutCd(d: Drive, p: Place, commands: seq<string>)
    requires Valid(d) && p.folder in d.objects && IsAbsolute(p.path)
    requires forall i :: 0 <= i < |commands| ==> !Classify(commands[i]).ChangeDir?
    ensures Session(d, p, commands).place == p
  {
    RaisesOnlyCalls(d);
    LoopReplays(d, p, commands, RaisesIn(d));
  }

  /** The prompt path stays absolute and the current folder stays in the store. */
  lemma SessionStaysPlaced(d: Drive, p: Place, commands: seq<string>)
    requires Valid(d) && p.folder in d.objects && IsAbsolute(p.path)
    ensures var q := Session(d, p, commands).place;
            q.folder in d.objects && IsAbsolute(q.path)
  {
    RaisesOnlyCalls(d);
    LoopReplays(d, p, commands, RaisesIn(d));
  }

  /**
   * The input of a line that raises: a transfer whose argument has a ">" but
   * no " > ". The program reads that one line and stops; the "find" and the
   * "exit" after it are never read.
   */
  lemma TransferWithoutSpacesEndsSession(d: Drive)
    requires Valid(d)
    ensures Session(d, Place(Root, "/"), ["transfer a>b", "find x", "exit"]) == Outcome(Place(Root, "/"), 1, true)
  {
    TransferWithoutSpacesRaises(d, Place(Root, "/"));
    ExitExactly("transfer a>b");
  }

  lemma TransferWithoutSpacesRaises(d: Drive, p: Place)
    requires Valid(d) && p.folder in d.objects && IsAbsolute(p.path)
    ensures Raises(d, p, "transfer a>b")
  {
    TransferWithoutSpacesSplits();
  }

  lemma TransferWithoutSpacesSplits()
    ensures Classify("transfer a>b") == TransferTo("a>b")
    ensures '>' in "a>b" && |SplitOn("a>b", " > ")| < 2
  {
    assert "transfer " + "a>b" == "transfer a>b";
    ClassifyRender(TransferTo("a>b"));
    assert "a>b"[1] == '>';
    assert !Contains("a>b", " > ") by {
      assert "a>b"[1..] == ">b" && ">b"[1..] == "b" && "b"[1..] == "";
      assert !StartsWith("a>b", " > ") by { assert "a>b"[..3][0] == 'a'; }
    }
    SplitWithoutSeparator("a>b", " > ");
  }

  /**
   * One pass of `main`'s loop body for a line other than "exit": the client
   * call the line selects, whether that call raises, and the prompt path
   * afterwards.
   */
  method Dispatch(drive: GDrive, currentPath: string, command: string) returns (newPath: string, raised: bool)
    requires drive.Valid() && IsAbsolute(currentPath)
    modifies drive
    ensures drive.Valid()
    ensures raised == Raises(drive.store, Place(old(drive.currentFolderId), currentPath), command)
    ensures Place(drive.currentFolderId, newPath) == Step(drive.store, Place(old(drive.currentFolderId), currentPath), command)
  {
    newPath, raised := currentPath, false;
    match Classify(command) {
      case Help =>
      case List(a) =>
        var _ := drive.ListContents(currentPath, a);
      case ChangeDir(a) =>
        newPath := drive.ChangeFolder(currentPath, a);
      case TransferTo(a) =>
        var targets := drive.TransferTargets(currentPath, a);
        raised := targets.None?;
      case Upload(a) =>
        var upload := drive.UploadTarget(currentPath, a);
        raised := upload.None?;
      case Find(a) =>
        var rows := drive.Search(currentPath, a);
        raised := rows.None?;
      case Exit =>
      case Unknown =>
    }
  }

  /** Reading a line that neither is "exit" nor raises steps the state and counts the line. */
  lemma SessionStep(d: Drive, p: Place, commands: seq<string>, i: nat)
    requires Valid(d) && p.folder in d.objects && IsAbsolute(p.path)
    requires i < |commands| && Classify(commands[i]) != Exit && !Raises(d, p, commands[i])
    ensures var r := Session(d, Step(d, p, commands[i]), commands[i + 1..]);
            Session(d, p, commands[i..]) == Outcome(r.place, r.read + 1, r.raised)
  {
    assert commands[i..][0] == commands[i] && commands[i..][1..] == commands[i + 1..];
  }

  /** Reading "exit", or a line that raises, ends the session where it stands. */
  lemma SessionEnds(d: Drive, p: Place, commands: seq<string>, i: nat)
    requires Valid(d) && p.folder in d.objects && IsAbsolute(p.path)
    requires i < |commands|
    ensures Classify(commands[i]) == Exit ==> Session(d, p, commands[i..]) == Outcome(p, 1, false)
    ensures Raises(d, p, commands[i]) ==> Session(d, p, commands[i..]) == Outcome(p, 1, true)
  {
    assert commands[i..][0] == commands[i];
  }

  /**
   * `main`: a client over the store, the prompt at "/", and the lines handled
   * in turn until "exit", a line that raises, or the end of input; returns
   * the final state, the number of lines read and whether the program raised.
   */
  method Run(d: Drive, commands: seq<string>) returns (last: Place, read: nat, raised: bool)
    requires Valid(d)
    ensures Outcome(last, read, raised) == Session(d, Place(Root, "/"), commands)
  {
    var drive := new GDrive(d);
    var currentPath := "/";
    var i := 0;
    while i < |commands|
      invariant 0 <= i <= |commands|
      invariant drive.Valid() && drive.store == d && IsAbsolute(currentPath)
      invariant var r := Session(d, Place(drive.currentFolderId, currentPath), commands[i..]);
                Session(d, Place(Root, "/"), commands) == Outcome(r.place, r.read + i, r.raised)
    {
      var command := commands[i];
      ghost var here := Place(drive.currentFolderId, currentPath);
      SessionEnds(d, here, commands, i);
      if Classify(command) == Exit {
        return Place(drive.currentFolderId, currentPath), i + 1, false;
      }
      var newPath, failed := Dispatch(drive, currentPath, command);
      if failed {
        RaisesStays(d, here, command);
        return Place(drive.currentFolderId, newPath), i + 1, true;
      }
      SessionStep(d, here, commands, i);
      currentPath := newPath;
      i := i + 1;
    }
    assert commands[i..] == [];
    return Place(drive.currentFolderId, currentPath), i, false;
  }
}
