/**
 * The abstract Google Drive the shell talks to, in place of the Drive API:
 * objects by id, each with a name, an ordered parent list and a mimeType, and
 * for every folder the ordered sequence of its children that `files().list`
 * with `'<id>' in parents` returns (all pages, in the server's order).
 */
module Store {
  import opened Wrappers

  type Id = string

  /** The alias the Drive API accepts for the top of "My Drive". */
  const Root: Id := "root"
  /** The name the API reports for the root, used by search as the stop sentinel. */
  const RootName: string := "My Drive"
  /** The mimeType that marks an object as a folder. */
  const FolderMime: string := "application/vnd.google-apps.folder"

  datatype Object = Object(name: string, parents: seq<Id>, mimeType: string)

  /**
   * One fixed state of the remote store. `listing` is the server's order of all
   * non-root objects, which a name query filters. `height` and `depth` are
   * witnesses that the hierarchy is acyclic: a child is lower than the folder
   * listing it, and a first parent is shallower than its child.
   */
  datatype Drive = Drive(
    objects: map<Id, Object>,
    children: map<Id, seq<Id>>,
    listing: seq<Id>,
    ghost height: map<Id, nat>,
    ghost depth: map<Id, nat>)

  ghost predicate Valid(d: Drive) {
    && Root in d.objects
    && d.objects[Root].name == RootName
    && d.objects[Root].parents == []
    && "" !in d.objects
    && (forall x :: x in d.objects ==> x in d.height && x in d.depth)
    && (forall x {:trigger d.objects[x].parents} :: x in d.objects && x != Root ==>
          |d.objects[x].parents| > 0 && d.objects[x].parents[0] in d.objects
          && d.depth[d.objects[x].parents[0]] < d.depth[x])
    && (forall x :: x in d.children ==> x in d.objects)
    && (forall x, c :: x in d.children && c in d.children[x] ==>
          c in d.objects && d.height[c] < d.height[x])
    && (forall x :: x in d.listing ==> x in d.objects && x != Root)
  }

  /** The children of `x` in listing order; an id with no entry (a file) has none. */
  function Children(d: Drive, x: Id): (cs: seq<Id>)
    ensures Valid(d) ==> forall c :: c in cs ==> c in d.objects
    ensures Valid(d) && x in d.objects ==> forall c :: c in cs ==> d.height[c] < d.height[x]
  {
    if x in d.children then d.children[x] else []
  }

  predicate IsFolder(d: Drive, x: Id)
    requires x in d.objects
  {
    d.objects[x].mimeType == FolderMime
  }

  function Name(d: Drive, x: Id): string
    requires x in d.objects
  {
    d.objects[x].name
  }

  /**
   * `contents["parents"][0] if "parents" in contents else ""` for a
   * `files().get` response: the first parent, or "" for the root.
   */
  function ParentOrEmpty(d: Drive, x: Id): (p: Id)
    requires Valid(d) && x in d.objects
    ensures p == "" <==> x == Root
    ensures x != Root ==> p in d.objects && d.depth[p] < d.depth[x]
  {
    if |d.objects[x].parents| == 0 then "" else d.objects[x].parents[0]
  }

  /** The first id of `cs` whose object is named exactly `name`. */
  function FirstNamed(d: Drive, cs: seq<Id>, name: string): (r: Option<Id>)
    requires forall c :: c in cs ==> c in d.objects
    ensures r.Some? ==> r.value in cs && Name(d, r.value) == name
    ensures r.Some? ==> exists i :: 0 <= i < |cs| && cs[i] == r.value &&
                          forall j :: 0 <= j < i ==> Name(d, cs[j]) != name
    ensures r.None? <==> forall c :: c in cs ==> Name(d, c) != name
    decreases |cs|
  {
    if |cs| == 0 then None
    else if Name(d, cs[0]) == name then Some(cs[0])
    else
      var r := FirstNamed(d, cs[1..], name);
      if r.Some? then
        assert cs[1..][0] == cs[1];
        r
      else r
  }
}
