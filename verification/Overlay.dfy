/** The queued overlay of directory listings (eventfs-fuse/src/fs/queued_overlay.rs and
    mount_projection.rs). Deleting a queued path can empty or reveal a synthetic directory, which the
    code finds out by listing that directory through the overlay again. The source guards this recursion
    with a set of visited paths; here the recursion itself is shown to terminate, and the guard is
    shown never to fire. */
module Overlay {
  import opened Text
  import opened Paths
  import opened Listing

  datatype Change = Change(deleted: seq<MountPath>, visible: seq<MountPath>)

  /** What the overlay asks of the durable store: a listing, whether a key sits exactly at a path, and
      whether the path is of a kind whose directories exist only through their contents. */
  datatype Durable = Durable(list: MountPath -> Option<seq<DirEntry>>, exact: MountPath -> bool,
    synthetic: MountPath -> bool)

  /** `queued_directory_child`. */
  function ChildOf(dir: MountPath, file: MountPath): Option<DirEntry> {
    if |dir| < |file| && dir <= file then
      Some(DirEntry(file[|dir|], if |file| == |dir| + 1 then File else Directory))
    else None
  }

  // ---- entry lists ----

  /** `insert_directory_entry_sorted`: a directory overrides, a new name goes before the first larger one. */
  function InsertSorted(entries: seq<DirEntry>, e: DirEntry): seq<DirEntry> {
    var i := IndexOf(entries, e.name);
    if i < |entries| then if e.kind.Directory? then entries[i := e] else entries
    else
      var at := FirstAbove(entries, e.name);
      entries[..at] + [e] + entries[at..]
  }

  function FirstAbove(entries: seq<DirEntry>, name: string): (i: nat)
    ensures i <= |entries|
  {
    if entries == [] || Below(name, entries[0].name) then 0 else 1 + FirstAbove(entries[1..], name)
  }

  /** `retain(|entry| entry.name != name)`. */
  function Without(entries: seq<DirEntry>, name: string): seq<DirEntry> {
    if entries == [] then []
    else (if entries[0].name == name then [] else [entries[0]]) + Without(entries[1..], name)
  }

  function InsertVisible(dir: MountPath, entries: seq<DirEntry>, visible: seq<MountPath>): seq<DirEntry> {
    if visible == [] then entries
    else
      var before := InsertVisible(dir, entries, visible[..|visible| - 1]);
      var child := ChildOf(dir, visible[|visible| - 1]);
      if child.Some? then Merge(before, child.value) else before
  }

  // ---- the overlay without the visited set ----

  function Longest(paths: seq<MountPath>): (n: nat)
    ensures forall i :: 0 <= i < |paths| ==> |paths[i]| <= n
  {
    if paths == [] then 0
    else
      var n := Longest(paths[..|paths| - 1]);
      if |paths[|paths| - 1]| > n then |paths[|paths| - 1]| else n
  }

  /** The depth of the deepest deleted path. */
  function Depth(changes: seq<Change>): (n: nat)
    ensures forall i :: 0 <= i < |changes| ==> Longest(changes[i].deleted) <= n
  {
    if changes == [] then 0
    else
      var n, m := Depth(changes[..|changes| - 1]), Longest(changes[|changes| - 1].deleted);
      if m > n then m else n
  }

  /** How much deeper than a directory the deleted paths go. */
  function RoomBelow(changes: seq<Change>, dir: MountPath): nat {
    if |dir| < Depth(changes) then Depth(changes) - |dir| else 0
  }

  /** `apply_queued_overlay_to_directory`. */
  function Apply(d: Durable, changes: seq<Change>, dir: MountPath, entries: seq<DirEntry>): seq<DirEntry>
    decreases RoomBelow(changes, dir), 3, 0
  {
    ApplyChanges(d, changes, dir, entries, |changes|)
  }

  function ApplyChanges(d: Durable, changes: seq<Change>, dir: MountPath, entries: seq<DirEntry>, n: nat): seq<DirEntry>
    requires n <= |changes|
    decreases RoomBelow(changes, dir), 2, n
  {
    if n == 0 then entries
    else
      var before := ApplyChanges(d, changes, dir, entries, n - 1);
      InsertVisible(dir, ApplyDeleted(d, changes, dir, before, n - 1, |changes[n - 1].deleted|), changes[n - 1].visible)
  }

  function ApplyDeleted(d: Durable, changes: seq<Change>, dir: MountPath, entries: seq<DirEntry>, k: nat,
                        n: nat): seq<DirEntry>
    requires k < |changes| && n <= |changes[k].deleted|
    decreases RoomBelow(changes, dir), 1, n
  {
    if n == 0 then entries
    else Delete(d, changes, dir, ApplyDeleted(d, changes, dir, entries, k, n - 1), changes[k].deleted[n - 1])
  }

  function Delete(d: Durable, changes: seq<Change>, dir: MountPath, entries: seq<DirEntry>,
                  target: MountPath): seq<DirEntry>
    requires |target| <= Depth(changes)
    decreases RoomBelow(changes, dir), 0, 0
  {
    var child := ChildOf(dir, target);
    if child == None then entries
    else
      var name, path := child.value.name, dir + [child.value.name];
      if child.value.kind.File? then
        if d.synthetic(path) && KnownVisible(d, changes, path) then InsertSorted(entries, DirEntry(name, Directory))
        else Without(entries, name)
      else if d.synthetic(path) && DirEntry(name, File) !in entries && !d.exact(path) &&
        !HasVisible(d, changes, path) then
        Without(entries, name)
      else entries
  }

  /** `queued_directory_child_has_known_visible_entries`. */
  predicate KnownVisible(d: Durable, changes: seq<Change>, dir: MountPath)
    decreases RoomBelow(changes, dir), 4, 0
  {
    Apply(d, changes, dir, if d.list(dir).Some? then d.list(dir).value else []) != []
  }

  /** `queued_directory_child_has_visible_entries`. */
  predicate HasVisible(d: Durable, changes: seq<Change>, dir: MountPath)
    decreases RoomBelow(changes, dir), 4, 0
  {
    d.list(dir).Some? ==> Apply(d, changes, dir, d.list(dir).value) != []
  }

  // ---- a whole directory ----

  function QueuedMerged(changes: seq<Change>, dir: MountPath): seq<DirEntry> {
    if changes == [] then []
    else InsertVisible(dir, QueuedMerged(changes[..|changes| - 1], dir), changes[|changes| - 1].visible)
  }

  /** `directory_entries` of the overlay: the queued children of a directory, by name. */
  function QueuedEntries(changes: seq<Change>, dir: MountPath): seq<DirEntry> {
    SortByName(QueuedMerged(changes, dir))
  }

  function MergeAll(entries: seq<DirEntry>, more: seq<DirEntry>): seq<DirEntry> {
    if more == [] then entries else Merge(MergeAll(entries, more[..|more| - 1]), more[|more| - 1])
  }

  function InsertAllSorted(entries: seq<DirEntry>, more: seq<DirEntry>): seq<DirEntry> {
    if more == [] then entries else InsertSorted(InsertAllSorted(entries, more[..|more| - 1]), more[|more| - 1])
  }

  /** `merge_queued_directory_entries`: durable, local and queued children, then the overlay; a missing
      directory is still listed when something is queued in it. */
  function ListDirectory(d: Durable, changes: seq<Change>, dir: MountPath,
                         local: seq<DirEntry>): Option<seq<DirEntry>> {
    var queued := QueuedEntries(changes, dir);
    if d.list(dir).Some? then Some(Apply(d, changes, dir, MergeAll(InsertAllSorted(d.list(dir).value, local), queued)))
    else if queued != [] then Some(Apply(d, changes, dir, InsertAllSorted(local, queued)))
    else None
  }

  // ---- the overlay as the source runs it ----

  /** Everything on the recursion stack is an ancestor of the directory being listed, or itself. */
  ghost predicate OnStack(visited: set<MountPath>, dir: MountPath) {
    forall v :: v in visited ==> v <= dir
  }

  method ApplyOverlay(d: Durable, changes: seq<Change>, dir: MountPath, entries: seq<DirEntry>, visited: set<MountPath>)
    returns (result: seq<DirEntry>, visited': set<MountPath>)
    requires OnStack(visited, dir)
    ensures result == Apply(d, changes, dir, entries)
    ensures visited' == visited
    decreases RoomBelow(changes, dir), 1
  {
    result, visited' := entries, visited;
    for n := 0 to |changes|
      invariant result == ApplyChanges(d, changes, dir, entries, n) && visited' == visited
    {
      var change := changes[n];
      ghost var before := result;
      for i := 0 to |change.deleted|
        invariant result == ApplyDeleted(d, changes, dir, before, n, i) && visited' == visited
      {
        result, visited' := DeletePath(d, changes, dir, result, change.deleted[i], visited');
      }
      ghost var middle := result;
      for i := 0 to |change.visible|
        invariant result == InsertVisible(dir, middle, change.visible[..i])
      {
        assert change.visible[..i + 1][..i] == change.visible[..i];
        var child := ChildOf(dir, change.visible[i]);
        if child.Some? {
          result := Merge(result, child.value);
        }
      }
      assert change.visible[..|change.visible|] == change.visible;
    }
  }

  method DeletePath(d: Durable, changes: seq<Change>, dir: MountPath, entries: seq<DirEntry>, target: MountPath,
                    visited: set<MountPath>)
    returns (result: seq<DirEntry>, visited': set<MountPath>)
    requires OnStack(visited, dir) && |target| <= Depth(changes)
    ensures result == Delete(d, changes, dir, entries, target)
    ensures visited' == visited
    decreases RoomBelow(changes, dir), 0
  {
    result, visited' := entries, visited;
    var child := ChildOf(dir, target);
    if child.Some? {
      var name := child.value.name;
      var path := dir + [name];
      if child.value.kind.File? {
        var shown := false;
        if d.synthetic(path) {
          shown, visited' := LookKnown(d, changes, dir, path, visited);
        }
        result := if shown then InsertSorted(entries, DirEntry(name, Directory)) else Without(entries, name);
      } else if d.synthetic(path) && DirEntry(name, File) !in entries && !d.exact(path) {
        var stays;
        stays, visited' := LookVisible(d, changes, dir, path, visited);
        if !stays {
          result := Without(entries, name);
        }
      }
    }
  }

  /** The guarded recursion on a revealed directory: the guard always lets it through, because the path is
      never on the stack already. */
  method LookKnown(d: Durable, changes: seq<Change>, parent: MountPath, dir: MountPath, visited: set<MountPath>)
    returns (visible: bool, visited': set<MountPath>)
    requires OnStack(visited, parent) && parent < dir && |dir| <= Depth(changes)
    ensures dir !in visited
    ensures visible == KnownVisible(d, changes, dir)
    ensures visited' == visited
    decreases RoomBelow(changes, dir), 2
  {
    visible, visited' := false, visited;
    if dir !in visited {
      var inner := visited + {dir};
      var listed := if d.list(dir).Some? then d.list(dir).value else [];
      var entries;
      entries, inner := ApplyOverlay(d, changes, dir, listed, inner);
      visible, visited' := entries != [], inner - {dir};
    }
  }

  /** The same with the opposite answer for a directory that is on the stack or cannot be listed. */
  method LookVisible(d: Durable, changes: seq<Change>, parent: MountPath, dir: MountPath, visited: set<MountPath>)
    returns (visible: bool, visited': set<MountPath>)
    requires OnStack(visited, parent) && parent < dir && |dir| <= Depth(changes)
    ensures dir !in visited
    ensures visible == HasVisible(d, changes, dir)
    ensures visited' == visited
    decreases RoomBelow(changes, dir), 2
  {
    visible, visited' := true, visited;
    if dir !in visited {
      var inner := visited + {dir};
      if d.list(dir).Some? {
        var entries;
        entries, inner := ApplyOverlay(d, changes, dir, d.list(dir).value, inner);
        visible := entries != [];
      }
      visited' := inner - {dir};
    }
  }

  /** `directory_entries`, the loops. */
  method CollectQueued(changes: seq<Change>, dir: MountPath) returns (entries: seq<DirEntry>)
    ensures entries == QueuedEntries(changes, dir)
  {
    entries := [];
    for n := 0 to |changes|
      invariant entries == QueuedMerged(changes[..n], dir)
    {
      assert changes[..n + 1][..n] == changes[..n];
      var visible := changes[n].visible;
      ghost var before := entries;
      for i := 0 to |visible|
        invariant entries == InsertVisible(dir, before, visible[..i])
      {
        assert visible[..i + 1][..i] == visible[..i];
        var child := ChildOf(dir, visible[i]);
        if child.Some? {
          entries := Merge(entries, child.value);
        }
      }
      assert visible[..|visible|] == visible;
    }
    assert changes[..|changes|] == changes;
    entries := SortByName(entries);
  }

  /** `merge_queued_directory_entries`, starting the recursion with nothing visited. */
  method MergeQueued(d: Durable, changes: seq<Change>, dir: MountPath,
                     local: seq<DirEntry>) returns (result: Option<seq<DirEntry>>)
    ensures result == ListDirectory(d, changes, dir, local)
  {
    var queued := CollectQueued(changes, dir);
    var listed := d.list(dir);
    if listed == None && queued == [] {
      return None;
    }
    var entries := if listed.Some? then listed.value else local;
    if listed.Some? {
      for i := 0 to |local|
        invariant entries == InsertAllSorted(listed.value, local[..i])
      {
        assert local[..i + 1][..i] == local[..i];
        entries := InsertSorted(entries, local[i]);
      }
      assert local[..|local|] == local;
      ghost var before := entries;
      for i := 0 to |queued|
        invariant entries == MergeAll(before, queued[..i])
      {
        assert queued[..i + 1][..i] == queued[..i];
        entries := Merge(entries, queued[i]);
      }
    } else {
      for i := 0 to |queued|
        invariant entries == InsertAllSorted(local, queued[..i])
      {
        assert queued[..i + 1][..i] == queued[..i];
        entries := InsertSorted(entries, queued[i]);
      }
    }
    assert queued[..|queued|] == queued;
    var visited;
    entries, visited := ApplyOverlay(d, changes, dir, entries, {});
    return Some(entries);
  }
}
