/**
 * The `gdrive` client object: the current folder id it keeps between
 * commands, and the operations of the shell that navigate the store.
 */
module GDriveClient {
  import opened Wrappers
  import opened Strings
  import opened Store
  import opened Resolution
  import opened Descendants
  import opened SearchPaths
  import opened Seqs
  import opened AncestorWalk

  /** What `transfer_ownership` hands to the permission requests: the account and the ids, in order. */
  datatype Transfer = Transfer(account: string, targets: seq<Id>)

  class GDrive {
    /** The remote store, fixed for the lifetime of the client. */
    const store: Drive
    /** `current_folder_id`: the folder relative paths start from. */
    var currentFolderId: Id

    ghost predicate Valid()
      reads this
    {
      Store.Valid(store) && currentFolderId in store.objects
    }

    constructor (d: Drive)
      requires Store.Valid(d)
      ensures Valid() && store == d && currentFolderId == Root
    {
      store := d;
      currentFolderId := Root;
    }

    /**
     * `__traverse_path`: walks the segments of `argument`, from the root for an
     * absolute path and from the current folder otherwise, and returns the
     * sentinel ("", "") when a `..` meets an object without parents or a name
     * matches no child.
     */
    method TraversePath(currentPath: string, argument: string) returns (r: Location)
      requires Valid() && IsAbsolute(currentPath)
      ensures r == Resolve(store, currentFolderId, currentPath, argument)
    {
      var absolute := StartsWith(argument, "/");
      var targetId := if absolute then Root else currentFolderId;
      var targetName := if absolute then "/" else currentPath;
      ghost var start := Location(targetId, targetName);
      var parts := Segments(argument);
      var i := 0;
      while i < |parts|
        invariant 0 <= i <= |parts|
        invariant IsAt(store, Location(targetId, targetName))
        invariant Walk(store, start, parts) == Walk(store, Location(targetId, targetName), parts[i..])
      {
        var part := parts[i];
        if part == "." {
        } else if part == ".." {
          var parents := store.objects[targetId].parents;
          if |parents| == 0 {
            return Failed;
          }
          targetId := parents[0];
          var k := LastIndexOf(targetName, '/').value;
          targetName := if k == 0 then "/" else targetName[..k];
        } else {
          var found := FirstNamed(store, Children(store, targetId), part);
          if found.None? {
            return Failed;
          }
          var item := found.value;
          targetId := item;
          targetName := if targetName == "/" then targetName + Name(store, item)
                        else targetName + "/" + Name(store, item);
        }
        i := i + 1;
      }
      return Location(targetId, targetName);
    }

    /**
     * `list_contents`: the folder whose contents are printed, the current one
     * for "" and ".", else the resolved one; None when resolution failed.
     */
    method ListContents(currentPath: string, argument: string) returns (shown: Option<Id>)
      requires Valid() && IsAbsolute(currentPath)
      ensures shown.Some? ==> shown.value in store.objects
      ensures shown == None <==> Resolve(store, currentFolderId, currentPath, argument) == Failed
      ensures shown.Some? ==> shown.value == Resolve(store, currentFolderId, currentPath, argument).id
    {
      ResolveEmptyOrDot(store, currentFolderId, currentPath);
      if argument == "" || argument == "." {
        shown := Some(currentFolderId);
      } else {
        var target := TraversePath(currentPath, argument);
        if target.id != "" {
          shown := Some(target.id);
        } else {
          shown := None;
        }
      }
    }

    /**
     * `change_folder`: on success the current folder becomes the resolved one
     * and its display path is returned; on failure nothing changes and the
     * old path is returned.
     */
    method ChangeFolder(currentPath: string, argument: string) returns (newPath: string)
      requires Valid() && IsAbsolute(currentPath)
      modifies this
      ensures Valid() && IsAbsolute(newPath)
      ensures var r := Resolve(store, old(currentFolderId), currentPath, argument);
              if r != Failed then currentFolderId == r.id && newPath == r.path
              else currentFolderId == old(currentFolderId) && newPath == currentPath
    {
      var target := TraversePath(currentPath, argument);
      if target.id != "" && target.path != "" {
        currentFolderId := target.id;
        return target.path;
      } else {
        return currentPath;
      }
    }

    /**
     * `upload_file`'s argument handling: the local file and the id of the
     * folder to upload into. None where indexing the " > " split raises.
     */
    method UploadTarget(currentPath: string, argument: string) returns (r: Option<(string, Id)>)
      requires Valid() && IsAbsolute(currentPath)
      ensures '>' !in argument ==> r == Some((argument, currentFolderId))
      ensures '>' in argument ==>
                var parts := SplitOn(argument, " > ");
                if |parts| < 2 then r == None
                else r == Some((parts[0], Resolve(store, currentFolderId, currentPath, parts[1]).id))
      ensures r.Some? && '>' in argument ==> StartsWith(argument, r.value.0 + " > ")
    {
      if '>' in argument {
        var pathParts := SplitOn(argument, " > ");
        if |pathParts| < 2 {
          return None;
        }
        var target := TraversePath(currentPath, pathParts[1]);
        r := Some((pathParts[0], target.id));
        SplitPrefix(argument, " > ");
      } else {
        r := Some((argument, currentFolderId));
      }
    }

    /**
     * `__get_folder_children_ids`: a breadth-first walk with a list as queue.
     * Each dequeued folder's whole listing is appended to the result and its
     * folder-typed children to the queue; the start folder is not included
     * and duplicates are kept.
     */
    method GetFolderChildrenIds(folderId: Id) returns (foundIds: seq<Id>)
      requires Valid() && folderId in store.objects
      ensures IsBreadthFirst(store, folderId, foundIds)
      ensures forall x :: x in foundIds ==> store.height[x] < store.height[folderId]
      ensures folderId !in foundIds
    {
      var parentIds := [folderId];
      foundIds := [];
      ghost var done: seq<Id> := [];
      while |parentIds| > 0
        invariant WalkState(store, folderId, done, parentIds, foundIds)
        decreases QueueSize(store, parentIds)
      {
        var head := parentIds[0];
        ghost var queued, before := parentIds, foundIds;
        var results := Children(store, head);
        foundIds, parentIds := AppendListing(results, foundIds, parentIds);
        DequeueStep(store, folderId, done, queued, before);
        TailOfAppend(queued, Folders(store, results));
        parentIds := parentIds[1..];
        done := done + [head];
      }
      assert done + parentIds == done;
    }

    /**
     * The body of the walk's inner loop: every listed child is appended to the
     * result, and the folder-typed ones to the queue as well, in listing order.
     */
    method AppendListing(results: seq<Id>, found: seq<Id>, queue: seq<Id>)
      returns (found': seq<Id>, queue': seq<Id>)
      requires forall x :: x in results ==> x in store.objects
      ensures found' == found + results
      ensures queue' == queue + Folders(store, results)
    {
      found', queue' := found, queue;
      var j := 0;
      while j < |results|
        invariant 0 <= j <= |results|
        invariant found' == found + results[..j]
        invariant queue' == queue + Folders(store, results[..j])
      {
        var item := results[j];
        EnqueueStep(store, found, queue, results, j);
        found' := found' + [item];
        if IsFolder(store, item) {
          queue' := queue' + [item];
        }
        j := j + 1;
      }
      TakeAll(results);
    }

    /**
     * `transfer_ownership`'s target list: the resolved object (or, without
     * " > ", the current folder) followed by its descendants when it is a
     * folder. None where the program raises: a ">" without the " > " split, or
     * a failed resolution whose id "" is then fetched.
     */
    method TransferTargets(currentPath: string, argument: string) returns (r: Option<Transfer>)
      requires Valid() && IsAbsolute(currentPath)
      ensures '>' !in argument ==>
                r.Some? && r.value.account == argument && |r.value.targets| >= 1
                && r.value.targets[0] == currentFolderId
                && IsBreadthFirst(store, currentFolderId, r.value.targets[1..])
      ensures '>' in argument ==>
                var parts := SplitOn(argument, " > ");
                (r == None <==>
                   |parts| < 2 || Resolve(store, currentFolderId, currentPath, parts[0]) == Failed)
                && (r.Some? ==>
                      var t := Resolve(store, currentFolderId, currentPath, parts[0]).id;
                      r.value.account == parts[1] && |r.value.targets| >= 1 && r.value.targets[0] == t
                      && (IsFolder(store, t) ==> IsBreadthFirst(store, t, r.value.targets[1..]))
                      && (!IsFolder(store, t) ==> |r.value.targets| == 1))
    {
      var targetObjectIds: seq<Id> := [];
      if '>' in argument {
        var argParts := SplitOn(argument, " > ");
        if |argParts| < 2 {
          return None;
        }
        var destinationAccount := argParts[1];
        var target := TraversePath(currentPath, argParts[0]);
        targetObjectIds := targetObjectIds + [target.id];
        if targetObjectIds[0] == "" {
          return None;
        }
        if IsFolder(store, targetObjectIds[0]) {
          var below := GetFolderChildrenIds(targetObjectIds[0]);
          targetObjectIds := targetObjectIds + below;
          assert targetObjectIds[1..] == below;
        }
        r := Some(Transfer(destinationAccount, targetObjectIds));
      } else {
        targetObjectIds := targetObjectIds + [currentFolderId];
        var below := GetFolderChildrenIds(targetObjectIds[0]);
        targetObjectIds := targetObjectIds + below;
        assert targetObjectIds[1..] == below;
        r := Some(Transfer(argument, targetObjectIds));
      }
    }

    /**
     * The inner walk of `search` once it meets a cached id `cur`: prepend the
     * cached names upward until the one named "My Drive" (gdrive.py:263-267).
     */
    method CachedPath(P: map<Id, Id>, N: map<Id, string>, ghost cur: Id, parentName: string,
                      parentId: Id, suffix: string) returns (path: string)
      requires Valid() && CacheOK(store, P, N)
      requires cur in N && parentName == N[cur] && parentId == P[cur]
      ensures path == Above(store, cur) + suffix
    {
      var name, pid := parentName, parentId;
      path := suffix;
      ghost var c := cur;
      while name != RootName
        invariant c in N && name == N[c] && pid == P[c]
        invariant Above(store, cur) + suffix == Above(store, c) + path
        decreases store.depth[c]
      {
        Regroup(Above(store, pid), "/", name, path);
        path := "/" + name + path;
        name := N[pid];
        c := pid;
        pid := P[pid];
      }
    }

    /**
     * The ancestor walk of `search` for one hit `m` (gdrive.py:234-269) over
     * `id_parentid_map` (P) and `id_pathname_map` (N): the hit's container
     * path, or None where the program raises KeyError; the maps after the
     * walk; and the ids passed to `files().get`, in order.
     */
    method ReconstructPath(m: Id, P0: map<Id, Id>, N0: map<Id, string>)
      returns (path: Option<string>, P: map<Id, Id>, N: map<Id, string>, fetched: seq<Id>)
      requires Valid() && m in store.objects && m != Root && CacheOK(store, P0, N0)
      ensures var v := Visit(store, P0.Keys, N0.Keys, m);
              (path.None? <==> v.None?)
              && (path.Some? ==>
                    path.value == ContainerPath(store, m) && CacheOK(store, P, N)
                    && P.Keys == v.value.0 && N.Keys == v.value.1)
      ensures fetched == if m in P0 then [] else Chain(store, P0.Keys, ParentOrEmpty(store, m))
    {
      P, N := P0, N0;
      fetched := [];
      var itemPath := "";
      var itemId := m;
      var parentId := ParentOrEmpty(store, m);
      var itemName: Option<string> := None;
      ghost var p0 := parentId;
      ghost var chain := Chain(store, P0.Keys, p0);
      ghost var walked: seq<Id> := [];
      ghost var prev := m;
      while true
        invariant itemName.None? ==>
                    itemId == m && P == P0 && N == N0 && fetched == [] && itemPath == "" && parentId == p0
                    && walked == [] && prev == m
        invariant itemName.Some? ==> WalkInv(store, m, P0, N0, P, N, itemId, itemName.value, parentId, itemPath,
                                             fetched, walked, prev)
        decreases if itemName.None? then store.depth[m] + 1 else store.depth[itemId]
      {
        if itemId !in P {
          if itemName.None? {
            WalkBegins(store, m, P0, N0);
          } else if itemName.value != RootName {
            WalkEnters(store, m, P0, N0, P, N, itemId, itemName.value, parentId, itemPath, fetched, walked, prev);
          } else {
            WalkEndsAtRoot(store, m, P0, N0, P, N, itemId, itemName.value, parentId, itemPath, fetched, walked, prev);
          }
          P := P[itemId := parentId];
          if itemName.Some? {
            N := N[itemId := itemName.value];
            if itemName.value != RootName {
              itemPath := "/" + itemName.value + itemPath;
              walked := walked + [itemId];
              prev := itemId;
            } else {
              break;
            }
          }
          itemId := parentId;
        } else {
          var parentName;
          if itemName.None? {
            if parentId !in N {
              return None, P, N, fetched;
            }
            parentName := N[parentId];
            itemPath := CachedPath(P, N, parentId, parentName, P[parentId], itemPath);
          } else {
            WalkEndsAtCached(store, m, P0, N0, P, N, itemId, itemName.value, parentId, itemPath, fetched, walked, prev);
            if itemId !in N {
              return None, P, N, fetched;
            }
            parentName := N[itemId];
            itemPath := CachedPath(P, N, itemId, parentName, parentId, itemPath);
          }
          break;
        }
        fetched := fetched + [itemId];
        parentId := ParentOrEmpty(store, itemId);
        itemName := Some(Name(store, itemId));
      }
      return Some(itemPath), P, N, fetched;
    }

    /**
     * One page of `search` (gdrive.py:231-281): every hit's ancestor walk in
     * turn, appending the hit and its path to the table when the path starts
     * with `scope`. `ok` is false where a walk raises KeyError; `anyFetch`
     * tells whether some walk called `files().get`, which replaces the
     * listing response the next page token is read from.
     */
    method ScanPage(page: seq<Id>, P0: map<Id, Id>, N0: map<Id, string>, table0: seq<(Id, string)>, scope: string)
      returns (ok: bool, P: map<Id, Id>, N: map<Id, string>, table: seq<(Id, string)>, anyFetch: bool)
      requires Valid() && CacheOK(store, P0, N0)
      requires forall m :: m in page ==> m in store.objects && m != Root
      ensures ok <==> VisitAll(store, P0.Keys, N0.Keys, page).Some?
      ensures ok ==> VisitAll(store, P0.Keys, N0.Keys, page) == Some((P.Keys, N.Keys, anyFetch))
                     && CacheOK(store, P, N) && table == table0 + Kept(store, page, scope)
    {
      P, N, table, anyFetch := P0, N0, table0, false;
      var i := 0;
      while i < |page|
        invariant 0 <= i <= |page|
        invariant VisitAll(store, P0.Keys, N0.Keys, page[..i]) == Some((P.Keys, N.Keys, anyFetch))
        invariant CacheOK(store, P, N)
        invariant table == table0 + Kept(store, page[..i], scope)
      {
        var m := page[i];
        var path, P', N', _ := ReconstructPath(m, P, N);
        if path.None? {
          PageRaises(store, P0.Keys, N0.Keys, page, i, P.Keys, N.Keys, anyFetch);
          return false, P, N, table, anyFetch;
        }
        PageAdvances(store, P0.Keys, N0.Keys, page, i, P.Keys, N.Keys, anyFetch, P'.Keys, N'.Keys);
        KeptAdvances(store, page, scope, i, table0, table, path.value);
        anyFetch := anyFetch || m !in P;
        table := table + (if StartsWith(path.value, scope) then [(m, path.value)] else []);
        P, N := P', N';
        i := i + 1;
      }
      ok := true;
      TakeAll(page);
    }

    /**
     * `search` (gdrive.py:214-286): the rows it prints, or None where it
     * raises. Pages of `PageSize` hits are scanned with one pair of memo maps
     * until a page's walks fetched something or the hits run out.
     */
    method Search(currentPath: string, argument: string) returns (r: Option<seq<(Id, string)>>)
      requires Valid()
      ensures r == SearchOutcome(store, argument, currentPath)
    {
      var (op, needle) := ChooseOperator(argument);
      var hits := Hits(store, op, needle);
      var P: map<Id, Id>, N: map<Id, string> := map[], map[];
      var table: seq<(Id, string)> := [];
      var start := 0;
      assert P.Keys == {} && N.Keys == {};
      while true
        invariant start <= |hits| && CacheOK(store, P, N)
        invariant PagesRead(store, hits, 0, {}, {}) == PagesRead(store, hits, start, P.Keys, N.Keys)
        invariant table == Kept(store, hits[..start], currentPath)
        decreases |hits| - start
      {
        var end := if start + PageSize < |hits| then start + PageSize else |hits|;
        var ok, P', N', table', anyFetch := ScanPage(hits[start..end], P, N, table, currentPath);
        if !ok {
          return None;
        }
        KeptPages(store, hits, currentPath, start, end, table);
        if anyFetch || end == |hits| {
          return Some(table');
        }
        P, N, table, start := P', N', table', end;
      }
    }
  }

  /** With at least two pieces, the string begins with the first piece and the separator. */
  lemma SplitPrefix(s: string, sep: string)
    requires |sep| > 0 && |SplitOn(s, sep)| >= 2
    ensures StartsWith(s, SplitOn(s, sep)[0] + sep)
  {
    var parts := SplitOn(s, sep);
    JoinSplit(s, sep);
    assert s == parts[0] + sep + Join(parts[1..], sep);
    assert s[..|parts[0] + sep|] == parts[0] + sep;
  }
}
