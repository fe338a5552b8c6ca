# gdrive-shell in Dafny

A model of the navigation core of gdrive-shell, a small interactive shell over
Google Drive, together with proofs about it. The shell keeps a current folder
and a prompt path. It lists folders (`ls`), changes folder (`cd`), collects the
ids whose ownership `transfer` hands over, picks the target folder of `upload`,
and finds files by name (`find`), showing each hit's containing-folder path.

The Drive API is replaced by a fixed in-memory store (`Store.Drive`), which holds:
- objects by id, each with a name, an ordered parent list and a mimeType;
- for every folder, the ordered sequence of its children, which stands in for `files().list`;
- the server's order of all non-root objects, which a name query filters.

The root has id `"root"`, no parents and the name `"My Drive"`. A folder is an
object whose mimeType is `application/vnd.google-apps.folder`. Two ghost maps
(`height` and `depth`) witness that the hierarchy is acyclic. These maps give
the termination measures of the walks down and up the tree.

Modules, one per file:
- `Seqs`, `Wrappers`, `Strings`: generic sequence facts, `Option`, and the
  Python string operations the program uses (`startswith`, `in`, `split`,
  `rindex`).
- `Store`: the abstract Drive and its invariant.
- `Resolution`: `__traverse_path` as a walk over path segments.
- `Descendants`: the breadth-first enumeration, specified as a fixed point.
- `SearchPaths`: the paths `search` shows, the memo maps' invariant, the ids each
  ancestor walk fetches, paging, and the scope filter.
- `AncestorWalk`: the state of one hit's ancestor walk while it runs.
- `GDriveClient`: the client class, whose methods are proved against the
  specifications above.
- `Shell`: the command dispatch and the loop of `main.py`.

The client is a class whose mutable field is `currentFolderId`. Its methods keep
the source's loops and carry their invariants. In `search`, the
`id_parentid_map` and `id_pathname_map` dictionaries are map-valued locals
threaded through the loops.

Uncaught Python exceptions are modelled as `None` results:
- a `KeyError` in the search walk;
- an `IndexError` from a `" > "` split into fewer than two pieces;
- the API error when `transfer` fetches the id `""` of a failed resolution.

`main` catches only `KeyboardInterrupt`, so any of these ends the program. The
shell's session therefore stops at the first line that is "exit" or whose
client call raises, and it records which of the two happened
(`Shell.Session`, `Shell.SessionStopsAtExit`). For example, on the lines
`transfer a>b`, `find x`, `exit` only the first line is read: "a>b" has a ">"
but no " > " (`Shell.TransferWithoutSpacesEndsSession`).

`search` is modelled as written. These consequences are proved:
- Its walk raises `KeyError` when a hit's walk reaches an id that is cached only
  as an earlier hit, which has a parent entry but no name
  (`HitInsideEarlierHitRaises`).
- The next-page token is read from a response the walk has overwritten with a
  `files().get` result, so only the first page of hits is read
  (`SearchReadsOnlyFirstPage`).
- A walk that reaches a cached ancestor fetches that ancestor once more before
  noticing it is cached. The cache therefore does not bring the cost down to one
  fetch per distinct id (`ReconstructPath`'s `fetched`, `ChainCachedOnlyAtEnd`,
  and the two-hit example `CachedParentFetchedAgain`).

## Model

| member | source | states |
|---|---|---|
| Strings.JoinSplit | gdrive.py:93 | joining the pieces of `s.split(sep)` with `sep` gives back `s` |
| Strings.SplitAround | gdrive.py:93 | splitting `a + "/" + b` on "/" gives the pieces of `a` followed by those of `b` |
| Strings.StartsWith | main.py:30 | Python's `startswith`: the prefix is no longer than the string and equals its first characters |
| Strings.Contains | gdrive.py:150 | Python's substring `in`: the text starts at some position of the string |
| Strings.ContainsChar | gdrive.py:150 | for a one-character string, `in` is membership of that character, as in `">" in argument` |
| Strings.SplitOn | gdrive.py:93 | Python's `split` with a non-empty separator: the pieces between leftmost non-overlapping occurrences, at least one piece |
| Strings.Join | gdrive.py:93 | Python's `sep.join`, the inverse `JoinSplit` is proved against |
| Strings.SplitWithoutSeparator | gdrive.py:151-152 | a string in which the separator does not occur splits into itself alone, so an argument with ">" but no " > " has one piece and `arg_parts[1]` raises |
| Strings.LastIndexOf | gdrive.py:102 | `rindex`: the returned index holds the character and no later index does; None exactly when the character does not occur |
| Store.ParentOrEmpty | gdrive.py:237 | the first parent, or "" exactly for the root; a non-root parent is in the store and shallower |
| Store.FirstNamed | gdrive.py:105-106 | the first child in listing order with exactly that name; None exactly when no child has it |
| Resolution.NonEmpty | gdrive.py:93 | the comprehension `if path`: the kept pieces are non-empty and come from the split |
| Resolution.Segments | gdrive.py:93 | the non-empty pieces of a "/" split, none containing "/" |
| Resolution.SegmentsAround | gdrive.py:93 | the segments of `a + "/" + b` are those of `a` followed by those of `b` (repeated and trailing slashes vanish) |
| Resolution.Truncate | gdrive.py:102 | cutting at the last "/", or "/" when that is the first character: the result is absolute and no longer |
| Resolution.Extend | gdrive.py:108 | appending a name, without a second "/" at the root: the result is absolute |
| Resolution.Start | gdrive.py:88-89 | an argument starting with "/" starts at "root" and "/", any other at the current folder and path |
| Resolution.Step | gdrive.py:96-108 | one segment: "." stays, ".." moves to the first parent (None at the root), a name to the first child so named (None if none); a result is a place of the store |
| Resolution.Walk | gdrive.py:95-108 | the segments in turn, None once one fails; a result is a place of the store |
| Resolution.TruncateExtend | gdrive.py:102-108 | cutting at the last "/" undoes appending a name, including at "/" |
| Resolution.Resolve | gdrive.py:86-114 | the result is the sentinel ("", "") or an object of the store with an absolute display path |
| Resolution.ResolveEmptyOrDot | gdrive.py:88-97 | "" and "." resolve to the current folder and path unchanged |
| Resolution.WalkIgnoresDots | gdrive.py:95-97 | "." segments change neither id nor path |
| Resolution.WalkAppend | gdrive.py:95-108 | walking two segment lists is walking the first, then the second from where it ends, and failure propagates |
| Resolution.ResolveSequence | gdrive.py:88-108 | resolving `a/b` relatively is resolving `b` from the place `a` reaches |
| Resolution.ParentOfRootFails | gdrive.py:98-101 | a ".." at the root (no parents) fails the whole resolution with ("", "") |
| Resolution.ChildThenParent | gdrive.py:98-108 | entering a single-parent child and then ".." returns to the same id and path |
| Resolution.NamedStep | gdrive.py:105-108 | a name moves to the first child with that name, and the path becomes `"/"+name` at "/" and `path+"/"+name` otherwise |
| GDriveClient.GDrive.constructor | gdrive.py:14-17 | a new client is over the given store with "root" as its current folder |
| GDriveClient.GDrive.TraversePath | gdrive.py:86-114 | the loop over the segments returns exactly the specified resolution `Resolve` |
| GDriveClient.GDrive.ListContents | gdrive.py:122-134 | "" and "." show the current folder; otherwise the resolved folder, and nothing when resolution fails |
| GDriveClient.GDrive.ChangeFolder | gdrive.py:136-144 | on success the current folder becomes the resolved id and the resolved path is returned; on failure the folder and path are unchanged |
| GDriveClient.GDrive.GetFolderChildrenIds | gdrive.py:40-63 | the result satisfies the breadth-first fixed point from the start folder, and it excludes the start folder |
| GDriveClient.GDrive.AppendListing | gdrive.py:50-54 | every listed child is appended to the result, and exactly the folder-typed ones to the queue, in order |
| Descendants.ChildrenOf | gdrive.py:45-54 | the listings of the given folders in turn; every id in it is in the store |
| Descendants.Folders | gdrive.py:53-54 | the folder-typed ids, in order, each among the given ids |
| Descendants.IsBreadthFirst | gdrive.py:40-63 | the walk's order as a fixed point: the result is the start folder's listing followed by the listing of each folder of the result, in result order |
| Descendants.BreadthFirstUnique | gdrive.py:40-63 | two results that both meet the breadth-first order are equal, so the order fixes the walk's output |
| Descendants.QueueAhead | gdrive.py:45-61 | the queue never empties early: after the first k dequeues the listings hold at least the next k folders to dequeue |
| Descendants.DequeueStep | gdrive.py:45-61 | one dequeue keeps the walk's invariant (the results are the listings of the dequeued folders) and shrinks the remaining work |
| Descendants.BreadthFirstIsDescendants | gdrive.py:40-63 | an id is in the breadth-first result iff it is a descendant of the start folder through folders |
| Descendants.BreadthFirstStartsWithChildren | gdrive.py:40-63 | the result begins with the start folder's own listing, in order |
| Descendants.FoldersAppend | gdrive.py:53-54 | the folder filter distributes over concatenation |
| Descendants.QueueSizeAppend | gdrive.py:45-61 | the remaining work of a concatenated queue is the sum of its parts |
| GDriveClient.GDrive.TransferTargets | gdrive.py:146-162 | without ">": the account is the argument and the targets are the current folder and its breadth-first descendants. With ">": None for a short split or a failed resolution; otherwise the account is the second piece and the targets are the resolved object, plus its descendants when it is a folder |
| GDriveClient.GDrive.UploadTarget | gdrive.py:195-207 | without ">": the argument and the current folder. With ">": None for a short split; otherwise the first piece and the id the second piece resolves to |
| GDriveClient.SplitPrefix | gdrive.py:151-152 | with two or more pieces, the argument starts with the first piece followed by " > " |
| SearchPaths.ChooseOperator | gdrive.py:221-225 | `contains` exactly when the argument starts with "*", with that one character stripped; otherwise `=` with the argument unchanged |
| SearchPaths.NameMatches | gdrive.py:228 | the query's test on a name: equality for `=`, substring for `contains` |
| SearchPaths.Hits | gdrive.py:228-229 | the query's hits in the server's order: each is a listed non-root object whose name matches |
| SearchPaths.Filter | gdrive.py:228-229 | a listed id is a hit iff its name matches under the operator |
| SearchPaths.Above | gdrive.py:240-269 | the display path of a folder: "" for "My Drive", otherwise its parent's path followed by "/" and its name |
| SearchPaths.ContainerPath | gdrive.py:234-269 | the path `search` shows for a hit: the display path of its first parent |
| SearchPaths.Chain | gdrive.py:251-273 | the ids one walk fetches from the hit's parent upward, up to the first cached or "My Drive" one; it starts at the parent and never climbs past the store |
| SearchPaths.Visit | gdrive.py:240-271 | one hit's walk on the key sets of the two maps, or None where it raises KeyError |
| SearchPaths.VisitAll | gdrive.py:231-275 | the walks of a page's hits in turn, with whether any walk fetched; None once one raises |
| SearchPaths.PagesRead | gdrive.py:227-286 | how many hits `search` reads, from `start` on: between `start` and the number of hits, or None when a walk raises |
| SearchPaths.SearchOutcome | gdrive.py:214-286 | the rows `search` shows: the kept hits of the pages read, or None where a walk raises |
| SearchPaths.Kept | gdrive.py:276-281 | the hits whose path string-starts with the scope, each with its path, in hit order |
| SearchPaths.CachedParentFetchedAgain | gdrive.py:240-273 | under "My Drive"/a/b with hits f1 and f2 in b: f1's walk fetches b, a and the root; f2's walk then fetches the cached b again |
| SearchPaths.AboveShape | gdrive.py:234-269 | a reconstructed path is "" or starts with "/" |
| SearchPaths.ChainCachedOnlyAtEnd | gdrive.py:240-271 | of the ids one walk fetches, only the last can be already cached, and the last is cached or named "My Drive" |
| SearchPaths.ChainAdvance | gdrive.py:251-273 | fetching the parent of an uncached id not named "My Drive" extends the fetch log by that parent, consistently with the walk's chain |
| SearchPaths.VisitGrows | gdrive.py:240-250 | a walk only adds entries; the hit gains a parent entry, and a name is cached for ancestors only, never for the hit |
| SearchPaths.HitInsideEarlierHitRaises | gdrive.py:241-261 | a hit whose parent was an earlier, uncached hit makes the walk raise KeyError |
| SearchPaths.VisitAllFlagsFirst | gdrive.py:241-271 | when the page's first hit is uncached, the page's walks call `files().get` |
| SearchPaths.SearchReadsOnlyFirstPage | gdrive.py:226-286 | `search` raises or reads exactly the first page of up to 100 hits |
| SearchPaths.VisitAllNone | gdrive.py:231-269 | once a hit's walk raises, so does the page |
| SearchPaths.KeptMembers | gdrive.py:274-277 | a (hit, path) row is kept iff the hit is among the hits, the path is its container path, and the path string-starts with the scope |
| SearchPaths.KeptAppend | gdrive.py:231-281 | the rows of two runs of hits are the rows of each, in order |
| SearchPaths.TopScopeDropsRootLevelHits | gdrive.py:277 | at scope "/" a hit directly in "My Drive" (path "") is never kept |
| SearchPaths.ScopeIsStringPrefix | gdrive.py:277 | a hit whose path is the scope followed by any text is kept, so scope "/A" also lists hits in the sibling "/AB" |
| SearchPaths.WalkAgreesWithAbove | gdrive.py:105-108 | walking plain names from a place whose display path is its reconstructed path reaches a folder with the same property |
| SearchPaths.ResolvedFolderIsSearchPath | gdrive.py:234-269 | a hit inside a folder reached by an absolute path of plain names shows that folder's display path ("" for the root) |
| SearchPaths.SearchRowsAreScopedHits | gdrive.py:214-286 | every row `search` shows is a matching non-root object with its container path, and that path starts with the scope |
| AncestorWalk.WalkBegins | gdrive.py:240-252 | entering an uncached hit records its parent and starts the walk invariant at that parent |
| AncestorWalk.WalkEnters | gdrive.py:241-252 | entering a fetched ancestor not named "My Drive" records its parent and name, prepends "/name", and keeps the walk invariant |
| AncestorWalk.WalkEndsAtRoot | gdrive.py:243-250 | reaching "My Drive" ends the walk with the container path, a sound cache and the specified key sets |
| AncestorWalk.WalkEndsAtCached | gdrive.py:253-261 | reaching a cached id ends the walk; it raises exactly when that id has no cached name |
| GDriveClient.GDrive.CachedPath | gdrive.py:262-267 | finishing from the maps prepends exactly the reconstructed path of the cached id |
| GDriveClient.GDrive.ReconstructPath | gdrive.py:234-269 | the hit's container path, or None exactly when the specified walk raises; the new maps are sound with the specified key sets; the ids fetched are the walk's chain |
| GDriveClient.GDrive.ScanPage | gdrive.py:231-281 | a page succeeds iff its specified walks do; then it appends exactly the page's kept rows and reports whether any walk fetched |
| GDriveClient.GDrive.Search | gdrive.py:214-286 | the rows shown are exactly the specified outcome `SearchOutcome`, or None where a walk raises |
| Shell.DropPrefix | main.py:33-43 | Python's `s[k:]`: the rest after the first k characters, "" once k passes the end |
| Shell.Classify | main.py:18-48 | the branch order help, "ls", "cd ", "transfer ", "upload ", "find ", exit, else unknown; the argument skips 3, 3, 9, 7 and 5 characters, and the bare "ls" passes "" |
| Shell.ClassifyRender | main.py:18-48 | every command reads back from its usual spelling, so the branch order never hides a keyword |
| Shell.RenderClassify | main.py:36-46 | a line dispatched to cd, transfer, upload, find, help or exit is exactly the keyword followed by the argument |
| Shell.ListArgument | main.py:30-33 | any line starting with "ls" lists; lines of up to three characters pass "", longer ones pass what follows the third character |
| Shell.ListSkipsThirdCharacter | main.py:30-33 | "lsx" lists "" and "lsx/a" lists "/a" |
| Shell.ExitExactly | main.py:44-46 | only the exact line "exit" ends the session |
| Shell.Step | main.py:36-37 | a line other than `cd` leaves folder and path unchanged; the path stays absolute |
| Shell.Raises | main.py:38-43 | a line raises out of the loop when its `transfer` has ">" but no " > " or an unresolved target, its `upload` has ">" but no " > ", or its `find` walk raises KeyError |
| Shell.RaisesStays | main.py:38-43 | a line that raises is not "exit" and is not a `cd`, so it leaves folder and path as they were |
| Shell.Replay | main.py:14-43 | the folder and path after stepping through the first n lines; without a `cd` among them, the start |
| Shell.Loop | main.py:13-51 | the loop over the lines for a given test of which lines raise: it stops after "exit", after a raising line or at the end of input; never more lines than given, and a raise reads at least one |
| Shell.RaisesOnlyCalls | main.py:36-46 | the lines that raise are `transfer`, `upload` or `find` calls, never a `cd` or "exit" |
| Shell.Session | main.py:13-51 | the loop with `Raises` as the raise test: the final place, lines read and whether it raised; never more lines than given, and a raise reads at least one |
| Shell.LoopReplays | main.py:14-43 | for any raise test that never picks `cd` or "exit", the final place is the one the lines read step to |
| Shell.LoopReadsPastNothing | main.py:14-46 | every line read before the last is neither "exit" nor raising in the place it is read in |
| Shell.LoopEndsOnLastRead | main.py:44-50 | when lines are left unread, the last line read was "exit" or raised |
| Shell.LoopRaisesOnLastRead | main.py:38-50 | the loop raised exactly when its last line read raises in the place it is read in |
| Shell.LoopIgnoresAfterExit | main.py:44-46 | lines after the first "exit" are never read, for any raise test |
| Shell.SessionStopsAtExit | main.py:13-51 | the lines read end at the first line that is "exit" or raises in the place the earlier lines reached, or run out; the session raised exactly when that last line raised; the final place is the one the lines read step to |
| Shell.TransferWithoutSpacesEndsSession | main.py:38-39 | on "transfer a>b", "find x", "exit" the program reads one line and raises |
| Shell.SessionStep | main.py:14-43 | a line that is neither "exit" nor raising steps the place and counts one line |
| Shell.SessionEnds | main.py:44-50 | "exit", or a line that raises, ends the session after one line where it stands |
| Shell.SessionIgnoresAfterExit | main.py:44-46 | lines after the first "exit" are never read and have no effect |
| Shell.SessionWithoutCd | main.py:36-37 | without a `cd` line the folder and path at the end are those at the start |
| Shell.SessionStaysPlaced | main.py:10-37 | the prompt path stays absolute and the current folder stays in the store |
| Shell.Dispatch | main.py:30-43 | one line calls the client method it selects; it reports a raise exactly when the specified `Raises` holds, and the new folder and path are the specified step |
| Shell.Run | main.py:5-51 | starting at "root" and "/", the loop's final folder and path, the number of lines read and whether the program raised are exactly the specified session |

## Left out

- OAuth and credential files (gdrive.py:19-38): file I/O and an external library.
- Table printing, `naturalsize` and `tabulate` (gdrive.py:65-84, 278-289): presentation only.
- GDriveClient.GDrive.ListContents: returns which folder's listing is printed, not the printed rows.
- GDriveClient.GDrive.Search: a row holds the hit and its path; modification time, size and mimeType columns are not modelled.
- GDriveClient.GDrive.TransferTargets: returns the account and the target ids. The permission requests, batching and `time.sleep` (gdrive.py:164-193) are remote effects and timing.
- GDriveClient.GDrive.UploadTarget: returns the local file and folder id. MIME sniffing and `files().create` (gdrive.py:209-212) are foreign calls.
- SearchPaths.Hits: the server-side query is a filter over the store's listing order. `=` is string equality and `contains` is a substring test. Drive's token-based `contains` and the quoting of the query string are not modelled.
- Child listings are whole sequences. Their pagination (gdrive.py:46-59) drains every page before moving on, so only the concatenation matters.
- Search pages are modelled as 100 hits each, with a next-page token exactly when more hits remain.
- Objects other than the root always have a parent (`Store.Valid`). A hit without parents would make `search` fetch the id "", an API error.
- Shell.Run: input is a finite sequence of lines, and the loop also ends when they run out. Prompts, `print` and `KeyboardInterrupt` (main.py:6, 15-16, 50-51) are I/O. The results of `ls`, `transfer`, `upload` and `find` are computed and not kept. A raise ends the run with a flag; the traceback is not modelled.
- Shell.Raises: only the raises the model's client calls expose. Failures of remote calls the model leaves out (the permission requests of `transfer`, `files().create` of `upload` with an unresolved folder id "" or a missing local file) are not modelled, so such lines do not end the session here.
- The help text (main.py:19-29) is not modelled.
