/** With one queued write or rename, a directory listed through the overlay already shows what the
    directory will show once the operation has been replayed, at every stage of that replay. */
module OverlayListing {
  import opened Text
  import opened Paths
  import opened Listing
  import opened Overlay

  /** The kind of a child when exactly the files `files` exist: an exact file wins over a directory. */
  ghost function KindIn(files: set<MountPath>, dir: MountPath, name: string): Option<Kind> {
    if dir + [name] in files then Some(File)
    else if exists k :: k in files && dir + [name] < k then Some(Directory)
    else None
  }

  ghost predicate Shows(entries: seq<DirEntry>, files: set<MountPath>, dir: MountPath) {
    NoRepeats(entries) && forall e: DirEntry :: e in entries <==> KindIn(files, dir, e.name) == Some(e.kind)
  }

  // ---- entry lists ----

  lemma {:induction false} WithoutMembers(entries: seq<DirEntry>, name: string, x: DirEntry)
    ensures x in Without(entries, name) <==> x in entries && x.name != name
  {
    if entries != [] {
      WithoutMembers(entries[1..], name, x);
      assert x in entries <==> x == entries[0] || x in entries[1..];
    }
  }

  lemma {:induction false} WithoutNoRepeats(entries: seq<DirEntry>, name: string)
    requires NoRepeats(entries)
    ensures NoRepeats(Without(entries, name))
  {
    if entries != [] {
      WithoutNoRepeats(entries[1..], name);
      var rest := Without(entries[1..], name);
      forall j | 0 <= j < |rest|
        ensures rest[j].name != entries[0].name
      {
        WithoutMembers(entries[1..], name, rest[j]);
        var i :| 0 <= i < |entries[1..]| && entries[1..][i] == rest[j];
        assert entries[i + 1] == rest[j];
      }
    }
  }

  /** Inserting adds a name once; here a directory overrides a file. */
  lemma InsertSortedMembers(entries: seq<DirEntry>, e: DirEntry, x: DirEntry)
    requires NoRepeats(entries)
    ensures NoRepeats(InsertSorted(entries, e))
    ensures x in InsertSorted(entries, e) <==>
            if x.name != e.name then x in entries
            else x.kind == (if e.kind.Directory? || DirEntry(e.name, Directory) in entries then Directory else File)
  {
    var i := IndexOf(entries, e.name);
    if i < |entries| {
      OverwrittenMembers(entries, i, e, x);
      OverwrittenMembers(entries, i, entries[i], x);
      OverwrittenMembers(entries, i, entries[i], DirEntry(e.name, Directory));
      assert entries[i := entries[i]] == entries;
    } else {
      InsertedMembers(entries, FirstAbove(entries, e.name), e, x);
      assert forall y :: y in entries ==> y.name != e.name;
    }
  }

  lemma {:induction false} FirstAboveSplits(entries: seq<DirEntry>, name: string, k: nat)
    requires SortedByName(entries) && k < |entries| && forall j :: 0 <= j < |entries| ==> entries[j].name != name
    ensures if k < FirstAbove(entries, name) then Below(entries[k].name, name) else Below(name, entries[k].name)
  {
    if Below(name, entries[0].name) {
      if k > 0 {
        BelowTransitive(name, entries[0].name, entries[k].name);
      }
    } else if k == 0 {
      BelowTotal(name, entries[0].name);
    } else {
      FirstAboveSplits(entries[1..], name, k - 1);
    }
  }

  /** Inserting keeps a sorted list sorted. */
  lemma InsertSortedKeepsOrder(entries: seq<DirEntry>, e: DirEntry)
    requires SortedByName(entries)
    ensures SortedByName(InsertSorted(entries, e))
  {
    if IndexOf(entries, e.name) == |entries| {
      var at := FirstAbove(entries, e.name);
      forall k | 0 <= k < |entries|
        ensures if k < at then Below(entries[k].name, e.name) else Below(e.name, entries[k].name)
      {
        FirstAboveSplits(entries, e.name, k);
      }
      SortedWith(entries, at, e);
    }
  }

  lemma SortedWith(entries: seq<DirEntry>, at: nat, e: DirEntry)
    requires SortedByName(entries) && at <= |entries|
    requires forall k :: 0 <= k < |entries| ==>
               if k < at then Below(entries[k].name, e.name) else Below(e.name, entries[k].name)
    ensures SortedByName(entries[..at] + [e] + entries[at..])
  {
    hide Below;
    var after := entries[..at] + [e] + entries[at..];
    assert forall k :: 0 <= k < |after| ==>
      after[k] == if k < at then entries[k] else if k == at then e else entries[k - 1];
  }

  lemma OverwrittenMembers(entries: seq<DirEntry>, i: nat, e: DirEntry, x: DirEntry)
    requires NoRepeats(entries) && i < |entries| && entries[i].name == e.name
    ensures NoRepeats(entries[i := e])
    ensures x in entries[i := e] <==> if x.name == e.name then x == e else x in entries
  {
    var after := entries[i := e];
    assert after[i] in after;
    assert forall j :: 0 <= j < |entries| && j != i ==> after[j] == entries[j] && entries[j].name != e.name;
    if x.name != e.name && x in entries {
      var j :| 0 <= j < |entries| && entries[j] == x;
      assert after[j] == x;
    }
  }

  lemma InsertedMembers(entries: seq<DirEntry>, at: nat, e: DirEntry, x: DirEntry)
    requires NoRepeats(entries) && at <= |entries| && forall j :: 0 <= j < |entries| ==> entries[j].name != e.name
    ensures NoRepeats(entries[..at] + [e] + entries[at..])
    ensures x in entries[..at] + [e] + entries[at..] <==> x == e || x in entries
  {
    hide NoRepeats;
    assert entries == entries[..at] + entries[at..];
    InsertedNoRepeats(entries[..at], e, entries[at..]);
  }

  lemma InsertedNoRepeats(a: seq<DirEntry>, e: DirEntry, b: seq<DirEntry>)
    requires NoRepeats(a + b) && forall j :: 0 <= j < |a + b| ==> (a + b)[j].name != e.name
    ensures NoRepeats(a + [e] + b)
  {
    var all, after := a + b, a + [e] + b;
    forall i, j | 0 <= i < j < |after|
      ensures after[i].name != after[j].name
    {
      InsertedAt(a, e, b, i);
      InsertedAt(a, e, b, j);
    }
  }

  lemma InsertedAt(a: seq<DirEntry>, e: DirEntry, b: seq<DirEntry>, i: nat)
    requires i < |a + [e] + b|
    ensures (a + [e] + b)[i] == if i < |a| then (a + b)[i] else if i == |a| then e else (a + b)[i - 1]
  {
  }

  // ---- inserting a queued file ----

  lemma MergeShows(entries: seq<DirEntry>, files: set<MountPath>, dir: MountPath, file: MountPath)
    requires Shows(entries, files, dir)
    ensures var child := ChildOf(dir, file);
            Shows(if child.Some? then Merge(entries, child.value) else entries, files + {file}, dir)
  {
    var child := ChildOf(dir, file);
    var after := if child.Some? then Merge(entries, child.value) else entries;
    if child.Some? {
      MergeMembers(entries, child.value, child.value);
    }
    forall e: DirEntry
      ensures e in after <==> KindIn(files + {file}, dir, e.name) == Some(e.kind)
    {
      KindInAdd(files, dir, file, e.name);
      if child.Some? {
        MergeMembers(entries, child.value, e);
        assert DirEntry(e.name, File) in entries <==> KindIn(files, dir, e.name) == Some(File);
      }
      hide KindIn, Merge;
    }
  }

  lemma KindInAdd(files: set<MountPath>, dir: MountPath, file: MountPath, name: string)
    ensures var child := ChildOf(dir, file);
            KindIn(files + {file}, dir, name) ==
            if child == None || child.value.name != name then KindIn(files, dir, name)
            else if child.value.kind.File? || KindIn(files, dir, name) == Some(File) then Some(File)
            else Some(Directory)
  {
    var child := ChildOf(dir, file);
    if child.Some? {
      assert dir + [file[|dir|]] <= file;
      assert child.value.kind.File? ==> dir + [file[|dir|]] == file;
    }
    assert dir + [name] <= file ==> child.Some? && child.value.name == name by {
      if dir + [name] <= file {
        assert file[|dir|] == (dir + [name])[|dir|] == name;
        assert dir <= dir + [name];
      }
    }
    if k :| k in files && dir + [name] < k {
      assert k in files + {file};
    }
    if k :| k in files + {file} && dir + [name] < k {
      assert k in files || k == file;
    }
  }

  /** Below `root` only the first of the visible paths counts. */
  lemma {:induction false} InsertVisibleIs(dir: MountPath, entries: seq<DirEntry>, visible: seq<MountPath>,
                                           root: MountPath, dst: MountPath)
    requires root <= dir
    requires visible != [] && visible[0] == dst && forall i :: 1 <= i < |visible| ==> !(root <= visible[i])
    ensures var child := ChildOf(dir, dst);
            InsertVisible(dir, entries, visible) == if child.Some? then Merge(entries, child.value) else entries
  {
    var n := |visible| - 1;
    if n == 0 {
      assert InsertVisible(dir, entries, visible[..0]) == entries;
    } else {
      InsertVisibleIs(dir, entries, visible[..n], root, dst);
      assert ChildOf(dir, visible[n]) == None;
    }
  }

  // ---- deleting the source of a rename ----

  /** A listing is empty exactly when no file lies below the directory. */
  lemma EmptyListing(entries: seq<DirEntry>, files: set<MountPath>, dir: MountPath)
    requires Shows(entries, files, dir)
    ensures entries != [] <==> HasBelow(files, dir)
  {
    if entries != [] {
      var e := entries[0];
      assert e in entries;
      if dir + [e.name] in files {
        assert dir < dir + [e.name];
      } else {
        var k :| k in files && dir + [e.name] < k;
        assert dir < k;
      }
    }
    if k :| k in files && dir < k {
      var name := k[|dir|];
      assert dir + [name] <= k;
      if k != dir + [name] {
        assert dir + [name] < k;
      }
      var kind := KindIn(files, dir, name);
      assert DirEntry(name, kind.value) in entries;
    }
  }

  /** The durable store lists `files` below `root`, down to the deleted path. */
  ghost predicate Lists(d: Durable, files: set<MountPath>, root: MountPath, src: MountPath) {
    && (forall p :: root < p <= src ==> d.list(p).Some? && Shows(d.list(p).value, files, p))
    && (forall p :: root < p <= src ==> (d.exact(p) <==> p in files))
    && (forall p :: root < p <= src ==> d.synthetic(p))
  }

  /** One queued rename seen below `root`: its aliases lie elsewhere. */
  ghost predicate IsRename(change: Change, root: MountPath, src: MountPath, dst: MountPath) {
    && root < src && src != dst
    && change.deleted != [] && change.deleted[0] == src && (forall i :: 1 <= i < |change.deleted| ==>
      !(root <= change.deleted[i]))
    && change.visible != [] && change.visible[0] == dst && (forall i :: 1 <= i < |change.visible| ==>
      !(root <= change.visible[i]))
  }

  lemma {:induction false} OnlySourceDeleted(d: Durable, change: Change, root: MountPath, src: MountPath,
                                             dst: MountPath, dir: MountPath, entries: seq<DirEntry>, n: nat)
    requires IsRename(change, root, src, dst) && root <= dir && 1 <= n <= |change.deleted|
    requires |src| <= Depth([change])
    ensures ApplyDeleted(d, [change], dir, entries, 0, n) == Delete(d, [change], dir, entries, src)
  {
    if n > 1 {
      OnlySourceDeleted(d, change, root, src, dst, dir, entries, n - 1);
      assert ChildOf(dir, change.deleted[n - 1]) == None;
    } else {
      assert ApplyDeleted(d, [change], dir, entries, 0, 0) == entries;
    }
  }

  lemma ApplyIs(d: Durable, change: Change, root: MountPath, src: MountPath, dst: MountPath, dir: MountPath,
                entries: seq<DirEntry>)
    requires IsRename(change, root, src, dst) && root <= dir
    ensures |src| <= Depth([change])
    ensures Apply(d, [change], dir, entries) == InsertVisible(dir, Delete(d, [change], dir, entries, src),
            change.visible)
  {
    assert Longest(change.deleted) <= Depth([change]) by { assert [change][0] == change; }
    OnlySourceDeleted(d, change, root, src, dst, dir, entries, |change.deleted|);
    assert ApplyChanges(d, [change], dir, entries, 0) == entries;
  }

  /** The overlay shows the files after the rename, whether or not the put or the delete has happened. */
  lemma {:induction false} RenameShows(d: Durable, change: Change, root: MountPath, src: MountPath, dst: MountPath,
                                       files: set<MountPath>, dir: MountPath, entries: seq<DirEntry>,
                                         seen: set<MountPath>)
    requires IsRename(change, root, src, dst) && Lists(d, files, root, src) && root <= dir
    requires Shows(entries, seen, dir) && (seen == files || seen == files + {dst})
    ensures Shows(Apply(d, [change], dir, entries), files - {src} + {dst}, dir)
    decreases if |dir| < |src| then |src| - |dir| else 0
  {
    ApplyIs(d, change, root, src, dst, dir, entries);
    var child := ChildOf(dir, src);
    if child.Some? {
      var path := dir + [child.value.name];
      assert root < path <= src;
      RenameShows(d, change, root, src, dst, files, path, d.list(path).value, files);
      EmptyListing(Apply(d, [change], path, d.list(path).value), files - {src} + {dst}, path);
    }
    DeleteShows(d, change, root, src, dst, files, dir, entries, seen);
  }

  ghost predicate HasBelow(files: set<MountPath>, path: MountPath) {
    exists k :: k in files && path < k
  }

  /** The kind a name has once the deleted path was handled, before the queued file goes in. */
  ghost function KindAfter(seen: set<MountPath>, left: set<MountPath>, dir: MountPath, src: MountPath,
                           name: string): Option<Kind> {
    var child, path := ChildOf(dir, src), dir + [name];
    if child == None || child.value.name != name then KindIn(seen, dir, name)
    else if child.value.kind.File? then if HasBelow(left, path) then Some(Directory) else None
    else if path in seen || HasBelow(left, path) then KindIn(seen, dir, name)
    else None
  }

  ghost function KindMerged(kind: Option<Kind>, dir: MountPath, dst: MountPath, name: string): Option<Kind> {
    var child := ChildOf(dir, dst);
    if child == None || child.value.name != name then kind
    else if child.value.kind.File? || kind == Some(File) then Some(File)
    else Some(Directory)
  }

  lemma DeletedMembers(d: Durable, change: Change, root: MountPath, src: MountPath, dst: MountPath,
                       files: set<MountPath>, dir: MountPath, entries: seq<DirEntry>, seen: set<MountPath>, e: DirEntry)
    requires IsRename(change, root, src, dst) && Lists(d, files, root, src) && root <= dir
    requires |src| <= Depth([change])
    requires Shows(entries, seen, dir) && (seen == files || seen == files + {dst})
    requires ChildOf(dir, src).Some? ==>
               var path := dir + [ChildOf(dir, src).value.name];
               Apply(d, [change], path, d.list(path).value) != [] <==> HasBelow(files - {src} + {dst}, path)
    ensures NoRepeats(Delete(d, [change], dir, entries, src))
    ensures e in Delete(d, [change], dir, entries, src) <==>
            KindAfter(seen, files - {src} + {dst}, dir, src, e.name) == Some(e.kind)
  {
    hide Apply, InsertSorted, Without, NoRepeats, Depth, HasBelow;
    var child := ChildOf(dir, src);
    if child.Some? {
      var name, path := child.value.name, dir + [child.value.name];
      assert root < path <= src && root < src;
      hide IsRename;
      WithoutMembers(entries, name, e);
      WithoutNoRepeats(entries, name);
      InsertSortedMembers(entries, DirEntry(name, Directory), e);
      assert DirEntry(name, File) in entries <==> path in seen;
      assert d.synthetic(path) && (d.exact(path) <==> path in files) && d.list(path).Some?;
      hide Lists;
    }
  }

  lemma KindsAgree(seen: set<MountPath>, files: set<MountPath>, dir: MountPath, src: MountPath, dst: MountPath,
                   name: string)
    requires src != dst && (seen == files || seen == files + {dst})
    ensures var left := files - {src} + {dst};
            KindMerged(KindAfter(seen, left, dir, src, name), dir, dst, name) == KindIn(left, dir, name)
  {
    var left, path := files - {src} + {dst}, dir + [name];
    KindInAdd(seen, dir, dst, name);
    ChildIs(dir, src, name);
    ChildIs(dir, dst, name);
    if k :| k in left && path < k {
      assert k == dst || k in seen;
    }
    if k :| k in seen && path < k {
      assert k == src || k in left;
    }
    if path < dst {
      assert dst in left;
    }
  }

  lemma ChildIs(dir: MountPath, file: MountPath, name: string)
    ensures dir + [name] <= file <==> ChildOf(dir, file).Some? && ChildOf(dir, file).value.name == name
    ensures dir + [name] == file <==> ChildOf(dir, file) == Some(DirEntry(name, File))
  {
    if dir + [name] <= file {
      assert file[|dir|] == (dir + [name])[|dir|] == name;
      assert dir <= dir + [name];
    }
  }

  /** What is left after the deleted child was handled and the queued file inserted. */
  lemma DeleteShows(d: Durable, change: Change, root: MountPath, src: MountPath, dst: MountPath,
                    files: set<MountPath>, dir: MountPath, entries: seq<DirEntry>, seen: set<MountPath>)
    requires IsRename(change, root, src, dst) && Lists(d, files, root, src) && root <= dir
    requires |src| <= Depth([change])
    requires Shows(entries, seen, dir) && (seen == files || seen == files + {dst})
    requires ChildOf(dir, src).Some? ==>
               var path := dir + [ChildOf(dir, src).value.name];
               Apply(d, [change], path, d.list(path).value) != [] <==> HasBelow(files - {src} + {dst}, path)
    ensures Shows(InsertVisible(dir, Delete(d, [change], dir, entries, src), change.visible), files - {src} + {dst},
            dir)
  {
    var after, left := Delete(d, [change], dir, entries, src), files - {src} + {dst};
    var result := InsertVisible(dir, after, change.visible);
    InsertVisibleIs(dir, after, change.visible, root, dst);
    forall e: DirEntry
      ensures NoRepeats(result) && (e in result <==> KindIn(left, dir, e.name) == Some(e.kind))
    {
      DeletedMembers(d, change, root, src, dst, files, dir, entries, seen, e);
      DeletedMembers(d, change, root, src, dst, files, dir, entries, seen, DirEntry(e.name, File));
      KindsAgree(seen, files, dir, src, dst, e.name);
      var child := ChildOf(dir, dst);
      if child.Some? {
        MergeMembers(after, child.value, e);
      }
      hide Delete, Apply, KindIn, KindAfter, Merge, NoRepeats, ChildOf, InsertVisible;
    }
    hide Delete, Apply, KindIn, InsertVisible, IsRename, Lists;
    assert NoRepeats(result) by { assert DirEntry("", File) == DirEntry("", File); }
  }

  // ---- the whole listing ----

  /** A queued write whose first path lies below `root` and whose aliases do not. */
  ghost predicate IsPut(change: Change, root: MountPath, dst: MountPath) {
    && change.deleted == []
    && change.visible != [] && change.visible[0] == dst && (forall i :: 1 <= i < |change.visible| ==>
      !(root <= change.visible[i]))
  }

  ghost predicate IsElsewhere(change: Change, root: MountPath) {
    && (forall i :: 0 <= i < |change.deleted| ==> !(root <= change.deleted[i]))
    && (forall i :: 0 <= i < |change.visible| ==> !(root <= change.visible[i]))
  }

  lemma QueuedIs(change: Change, root: MountPath, dst: MountPath, dir: MountPath)
    requires root <= dir
    requires change.visible != [] && change.visible[0] == dst && forall i :: 1 <= i < |change.visible| ==>
             !(root <= change.visible[i])
    ensures QueuedEntries([change], dir) == if ChildOf(dir, dst).Some? then [ChildOf(dir, dst).value] else []
  {
    InsertVisibleIs(dir, [], change.visible, root, dst);
    assert QueuedMerged([change][..0], dir) == [];
    var child := ChildOf(dir, dst);
    if child.Some? {
      assert Merge([], child.value) == [child.value];
      assert [child.value][1..] == [];
      assert SortByName([child.value]) == InsertByName([], child.value);
    }
  }

  lemma {:induction false} NothingVisible(dir: MountPath, entries: seq<DirEntry>, visible: seq<MountPath>,
                                          root: MountPath)
    requires root <= dir && forall i :: 0 <= i < |visible| ==> !(root <= visible[i])
    ensures InsertVisible(dir, entries, visible) == entries
  {
    if visible != [] {
      var n := |visible| - 1;
      NothingVisible(dir, entries, visible[..n], root);
      assert ChildOf(dir, visible[n]) == None;
    }
  }

  lemma {:induction false} NothingDeleted(d: Durable, change: Change, root: MountPath, dir: MountPath,
                                          entries: seq<DirEntry>, n: nat)
    requires IsElsewhere(change, root) && root <= dir && n <= |change.deleted|
    ensures ApplyDeleted(d, [change], dir, entries, 0, n) == entries
  {
    if n > 0 {
      NothingDeleted(d, change, root, dir, entries, n - 1);
      assert ChildOf(dir, change.deleted[n - 1]) == None;
    }
  }

  lemma ApplyOne(d: Durable, change: Change, dir: MountPath, entries: seq<DirEntry>)
    ensures Apply(d, [change], dir, entries) ==
            InsertVisible(dir, ApplyDeleted(d, [change], dir, entries, 0, |change.deleted|), change.visible)
  {
    assert ApplyChanges(d, [change], dir, entries, 0) == entries;
    assert [change][0] == change;
    assert ApplyChanges(d, [change], dir, entries, 1) ==
           InsertVisible(dir, ApplyDeleted(d, [change], dir, entries, 0, |change.deleted|), change.visible);
  }

  lemma ElsewhereKeeps(d: Durable, change: Change, root: MountPath, dir: MountPath, local: seq<DirEntry>)
    requires IsElsewhere(change, root) && root <= dir && d.list(dir).Some?
    ensures ListDirectory(d, [change], dir, local) == ListDirectory(d, [], dir, local)
  {
    NothingVisible(dir, [], change.visible, root);
    assert QueuedMerged([change][..0], dir) == [];
    assert QueuedEntries([change], dir) == [] == QueuedEntries([], dir);
    var entries := InsertAllSorted(d.list(dir).value, local);
    assert MergeAll(entries, []) == entries;
    NothingDeleted(d, change, root, dir, entries, |change.deleted|);
    NothingVisible(dir, entries, change.visible, root);
    ApplyOne(d, change, dir, entries);
    assert Apply(d, [], dir, entries) == entries;
  }

  lemma EntriesSeen(d: Durable, change: Change, root: MountPath, dst: MountPath, files: set<MountPath>, dir: MountPath,
                    entries: seq<DirEntry>)
    requires root <= dir && Shows(entries, files, dir)
    requires change.visible != [] && change.visible[0] == dst && forall i :: 1 <= i < |change.visible| ==>
             !(root <= change.visible[i])
    ensures Shows(MergeAll(entries, QueuedEntries([change], dir)), files + {dst}, dir)
  {
    QueuedIs(change, root, dst, dir);
    MergeShows(entries, files, dir, dst);
    var child := ChildOf(dir, dst);
    if child.Some? {
      assert MergeAll(entries, [child.value][..0]) == entries;
    }
  }

  /** With a pending rename the listing shows the files as they will be. */
  lemma RenameListing(d: Durable, change: Change, root: MountPath, src: MountPath, dst: MountPath,
                      files: set<MountPath>, dir: MountPath, local: seq<DirEntry>)
    requires IsRename(change, root, src, dst) && Lists(d, files, root, src) && root <= dir
    requires d.list(dir).Some? && Shows(InsertAllSorted(d.list(dir).value, local), files, dir)
    ensures ListDirectory(d, [change], dir, local).Some?
    ensures Shows(ListDirectory(d, [change], dir, local).value, files - {src} + {dst}, dir)
  {
    var entries := InsertAllSorted(d.list(dir).value, local);
    EntriesSeen(d, change, root, dst, files, dir, entries);
    RenameShows(d, change, root, src, dst, files, dir, MergeAll(entries, QueuedEntries([change], dir)), files + {dst});
  }

  lemma PutListing(d: Durable, change: Change, root: MountPath, dst: MountPath, files: set<MountPath>, dir: MountPath,
                   local: seq<DirEntry>)
    requires IsPut(change, root, dst) && root <= dir
    requires d.list(dir).Some? && Shows(InsertAllSorted(d.list(dir).value, local), files, dir)
    ensures ListDirectory(d, [change], dir, local).Some?
    ensures Shows(ListDirectory(d, [change], dir, local).value, files + {dst}, dir)
  {
    var entries := InsertAllSorted(d.list(dir).value, local);
    EntriesSeen(d, change, root, dst, files, dir, entries);
    var seen := MergeAll(entries, QueuedEntries([change], dir));
    InsertVisibleIs(dir, seen, change.visible, root, dst);
    MergeShows(seen, files + {dst}, dir, dst);
    assert files + {dst} + {dst} == files + {dst};
    ApplyOne(d, change, dir, seen);
    assert ApplyDeleted(d, [change], dir, seen, 0, 0) == seen;
  }

  lemma PlainListing(d: Durable, dir: MountPath, local: seq<DirEntry>)
    requires d.list(dir).Some?
    ensures ListDirectory(d, [], dir, local) == Some(InsertAllSorted(d.list(dir).value, local))
  {
    var entries := InsertAllSorted(d.list(dir).value, local);
    assert MergeAll(entries, []) == entries;
    assert Apply(d, [], dir, entries) == entries;
  }

  // ---- the queued children of a directory ----

  ghost function QueuedPaths(changes: seq<Change>): set<MountPath> {
    if changes == [] then {}
    else QueuedPaths(changes[..|changes| - 1]) + PathSet(changes[|changes| - 1].visible)
  }

  ghost function PathSet(paths: seq<MountPath>): set<MountPath> {
    set p | p in paths
  }

  lemma {:induction false} VisibleShow(dir: MountPath, entries: seq<DirEntry>, files: set<MountPath>,
                                       visible: seq<MountPath>)
    requires Shows(entries, files, dir)
    ensures Shows(InsertVisible(dir, entries, visible), files + PathSet(visible), dir)
  {
    if visible == [] {
      assert files + {} == files;
    } else {
      hide Shows;
      var n := |visible| - 1;
      var front := files + PathSet(visible[..n]);
      VisibleShow(dir, entries, files, visible[..n]);
      MergeShows(InsertVisible(dir, entries, visible[..n]), front, dir, visible[n]);
      assert files + PathSet(visible) == front + {visible[n]};
    }
  }

  lemma {:induction false} QueuedMergedShows(changes: seq<Change>, dir: MountPath)
    ensures Shows(QueuedMerged(changes, dir), QueuedPaths(changes), dir)
  {
    if changes != [] {
      hide Shows;
      var n := |changes| - 1;
      QueuedMergedShows(changes[..n], dir);
      VisibleShow(dir, QueuedMerged(changes[..n], dir), QueuedPaths(changes[..n]), changes[n].visible);
    }
  }

  /** The queued children of a directory are sorted, and are exactly its children when the queued paths are the
      only files. */
  lemma QueuedShows(changes: seq<Change>, dir: MountPath)
    ensures Shows(QueuedEntries(changes, dir), QueuedPaths(changes), dir) && SortedByName(QueuedEntries(changes, dir))
  {
    hide KindIn, SortByName;
    QueuedMergedShows(changes, dir);
    var entries := QueuedMerged(changes, dir);
    SortSorts(entries);
    forall e
      ensures e in SortByName(entries) <==> e in entries
    {
      SortMembers(entries, e);
    }
    SortedIsApart(SortByName(entries));
  }

  lemma SortedIsApart(entries: seq<DirEntry>)
    requires SortedByName(entries)
    ensures NoRepeats(entries)
  {
    forall i, j | 0 <= i < j < |entries|
      ensures entries[i].name != entries[j].name
    {
      BelowIrreflexive(entries[i].name);
    }
  }

  // ---- a directory the store does not have ----

  /** A pending put shows in the directories above its file even if the store cannot list them; any other
      directory the store cannot list stays missing. */
  lemma MissingListing(d: Durable, change: Change, root: MountPath, dst: MountPath, files: set<MountPath>,
                       dir: MountPath, local: seq<DirEntry>)
    requires IsPut(change, root, dst) && root <= dir && d.list(dir) == None && Shows(local, files, dir)
    requires dir < dst ==> KindIn(files, dir, dst[|dir|]) == None
    ensures ListDirectory(d, [change], dir, local).Some? <==> dir < dst
    ensures dir < dst ==> Shows(ListDirectory(d, [change], dir, local).value, files + {dst}, dir)
  {
    QueuedIs(change, root, dst, dir);
    if dir < dst {
      var child := ChildOf(dir, dst).value;
      var seen := InsertAllSorted(local, [child]);
      assert InsertAllSorted(local, [child][..0]) == local;
      assert seen == InsertSorted(local, child);
      InsertShows(local, files, dir, dst);
      InsertVisibleIs(dir, seen, change.visible, root, dst);
      MergeShows(seen, files + {dst}, dir, dst);
      assert files + {dst} + {dst} == files + {dst};
      ApplyOne(d, change, dir, seen);
      assert ApplyDeleted(d, [change], dir, seen, 0, 0) == seen;
    }
  }

  lemma InsertShows(entries: seq<DirEntry>, files: set<MountPath>, dir: MountPath, file: MountPath)
    requires dir < file && Shows(entries, files, dir) && KindIn(files, dir, file[|dir|]) == None
    ensures Shows(InsertSorted(entries, ChildOf(dir, file).value), files + {file}, dir)
  {
    var child := ChildOf(dir, file).value;
    var after := InsertSorted(entries, child);
    InsertSortedMembers(entries, child, child);
    assert DirEntry(child.name, Directory) !in entries;
    forall e: DirEntry
      ensures e in after <==> KindIn(files + {file}, dir, e.name) == Some(e.kind)
    {
      KindInAdd(files, dir, file, e.name);
      InsertSortedMembers(entries, child, e);
      hide KindIn, InsertSorted;
    }
  }
}
