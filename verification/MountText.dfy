/** Mount paths as text (eventfs-protocol/src/mount_paths.rs, eventfs-fuse/src/fs/queued_overlay.rs): the string
    tests for descendants and children agree with prefixes of components. */
module MountText {
  import opened Text
  import opened Paths
  import opened PathLaws
  import opened Listing
  import opened Overlay

  /** `is_descendant_of`. */
  predicate Descends(path: string, root: string) {
    if root == "/" then path != "/"
    else StartsWith(path, root) && StartsWith(path[|root|..], "/")
  }

  /** `is_self_or_descendant_of`. */
  predicate Within(path: string, root: string) {
    path == root || Descends(path, root)
  }

  /** `queued_directory_child`. */
  function ChildText(dir: string, file: string): Option<DirEntry> {
    if !Descends(file, dir) || |file| < |dir| then None
    else
      var remainder := if dir == "/" then file[1..] else file[|dir|..][1..];
      if remainder == "" then None
      else
        var parts := Split(remainder, '/');
        Some(DirEntry(parts[0], if |parts| > 1 then Directory else File))
  }

  lemma SameText(a: MountPath, b: MountPath)
    requires MountComponents(a) && MountComponents(b)
    ensures AsStr(a) == AsStr(b) <==> a == b
  {
    ComponentsOfPrinted(a);
    ComponentsOfPrinted(b);
  }

  lemma BelowIsText(root: MountPath, rest: seq<string>)
    requires root != [] && rest != []
    ensures AsStr(root + rest) == AsStr(root) + "/" + Join(rest, '/')
  {
    JoinAppend(root, rest, '/');
  }

  lemma TextIsBelow(root: MountPath, path: MountPath, tail: string)
    requires MountComponents(root) && root != [] && MountComponents(path) && AsStr(path) == AsStr(root) + "/" + tail
    ensures path == root + Split(tail, '/')
  {
    assert Join(path, '/') == Join(root, '/') + ['/'] + tail by {
      assert AsStr(path)[1..] == Join(path, '/') && AsStr(root)[1..] == Join(root, '/');
    }
    assert path != [];
    SplitAppend(Join(root, '/'), tail, '/');
    SplitTail(root);
    SplitTail(path);
  }

  /** The string prefix test is exactly the component prefix. */
  lemma DescendsIsPrefix(path: MountPath, root: MountPath)
    requires MountComponents(path) && MountComponents(root)
    ensures Descends(AsStr(path), AsStr(root)) <==> root < path
    ensures Within(AsStr(path), AsStr(root)) <==> root <= path
  {
    hide Join, Split;
    SameText(path, root);
    SameText(path, []);
    SameText(root, []);
    assert AsStr([]) == "/" by { EmptyJoin(); }
    if root != [] {
      if root < path {
        BelowIsText(root, path[|root|..]);
        assert path == root + path[|root|..];
      }
      if Descends(AsStr(path), AsStr(root)) {
        TextIsBelow(root, path, AsStr(path)[|AsStr(root)| + 1..]);
      }
    }
  }

  lemma EmptyJoin()
    ensures Join([], '/') == ""
  {
  }

  /** The child the overlay shows for a queued file, told from the strings or from the components. */
  lemma ChildTextIsChild(dir: MountPath, file: MountPath)
    requires MountComponents(dir) && MountComponents(file)
    ensures ChildText(AsStr(dir), AsStr(file)) == ChildOf(dir, file)
  {
    DescendsIsPrefix(file, dir);
    if dir < file {
      var rest := file[|dir|..];
      assert file == dir + rest;
      TailComponents(file, |dir|);
      SplitTail(rest);
      EmptyJoin();
      hide Join, Split, MountComponents;
      if dir != [] {
        BelowIsText(dir, rest);
        assert AsStr(file)[|AsStr(dir)|..][1..] == Join(rest, '/');
        SameText(dir, []);
      } else {
        assert rest == file;
        assert AsStr(file)[1..] == Join(rest, '/');
      }
    }
  }
}
