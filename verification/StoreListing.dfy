/** KV and object directories of the in-memory store, listed through the overlay of one pending write or
    rename: the names and kinds a user sees do not move while the operation is replayed. */
module StoreListing {
  import opened Text
  import opened MemoryStore
  import opened Writeback
  import opened Paths
  import opened PathLaws
  import opened Listing
  import opened Overlay
  import opened OverlayView
  import OL = OverlayListing

  /** One bucket as a directory tree. */
  datatype Surface = KvSurface(bucket: string) | ObjectSurface(bucket: string)

  function RootOf(s: Surface): MountPath {
    if s.KvSurface? then ["kv", s.bucket] else ["objects", s.bucket]
  }

  /** What a directory or file of the tree parses to. */
  function PathAt(s: Surface, parts: seq<string>): JetStreamPath {
    if s.KvSurface? then if parts == [] then KvBucket(s.bucket) else KvKey(s.bucket, Join(parts, '/'))
    else if parts == [] then ObjectBucket(s.bucket) else ObjectFile(s.bucket, Join(parts, '/'))
  }

  /** Every slash prefix is a valid key. */
  ghost predicate Accessible(s: Surface, parts: seq<string>) {
    MountComponents(parts) &&
    forall n :: 0 <= n <= |parts| ==> ParseComponents(RootOf(s) + parts[..n]) == Some(PathAt(s, parts[..n]))
  }

  function KeysIn(st: Store, s: Surface): set<string> {
    if s.KvSurface? then set at | at in st.kv && at.0 == s.bucket :: at.1
    else set at | at in st.objects && at.0 == s.bucket :: at.1
  }

  predicate BucketExists(st: Store, s: Surface) {
    if s.KvSurface? then s.bucket in st.kvBuckets else s.bucket in st.objectBuckets
  }

  function FactAt(s: Surface, key: string): StorageFact {
    if s.KvSurface? then Aliases.KvFact(s.bucket, key) else Aliases.ObjectFact(s.bucket, key)
  }

  function FileAt(s: Surface, key: string): MountPath {
    RootOf(s) + Split(key, '/')
  }

  function FilesOf(keys: set<string>, s: Surface): set<MountPath> {
    set key | key in keys :: FileAt(s, key)
  }

  function Files(st: Store, s: Surface): set<MountPath> {
    FilesOf(KeysIn(st, s), s)
  }

  /** The keys of a bucket in some order. */
  ghost function InSomeOrder(keys: set<string>): (order: seq<string>)
    ensures forall k :: k in order <==> k in keys
  {
    if keys == {} then [] else var k :| k in keys; [k] + InSomeOrder(keys - {k})
  }

  /** `durable_directory_entries` for KV and object directories. */
  ghost function ListedBy(st: Store, p: JetStreamPath): Option<seq<DirEntry>> {
    match p
    case KvBucket(b) => ListPrefix(st, KvSurface(b), "")
    case KvKey(b, key) => ListPrefix(st, KvSurface(b), key)
    case ObjectBucket(b) => ListPrefix(st, ObjectSurface(b), "")
    case ObjectFile(b, name) => ListPrefix(st, ObjectSurface(b), name)
    case _ => None
  }

  /** `list_kv_prefix` and `list_object_prefix`. */
  ghost function ListPrefix(st: Store, s: Surface, prefix: string): Option<seq<DirEntry>> {
    if BucketExists(st, s) then Some(ImmediateChildren(InSomeOrder(KeysIn(st, s)), Normalized(prefix))) else None
  }

  /** `queued_delete_can_empty_synthetic_directory`. */
  predicate Synthetic(p: JetStreamPath) {
    p.KvKey? || p.ObjectFile? || p.TaskNamespace? || p.AgentRecord? || p.SemanticRecord?
  }

  /** `exact_dynamic_file_exists`. */
  predicate ExactFile(st: Store, p: JetStreamPath) {
    !p.Task? && Aliases.FactOf(p).Some? && !Aliases.FactOf(p).value.StreamFact? &&
      CacheRuns.FactBytes(st, Aliases.FactOf(p).value).Some?
  }

  ghost function DurableOf(st: Store): Durable {
    Durable(path => if ParseComponents(path).Some? then ListedBy(st, ParseComponents(path).value) else None,
            path => ParseComponents(path).Some? && ExactFile(st, ParseComponents(path).value),
            path => ParseComponents(path).Some? && Synthetic(ParseComponents(path).value))
  }

  /** `deterministic_directory_entries`. */
  function Local(s: Surface, parts: seq<string>): seq<DirEntry> {
    if s.KvSurface? && parts == [] then [DirEntry(".history", Directory)] else []
  }

  /** A directory as the mount lists it. */
  ghost function ListedAt(st: Store, pending: seq<QueueOperation>, s: Surface,
                          parts: seq<string>): Option<seq<DirEntry>> {
    ListDirectory(DurableOf(st), Changes(pending), RootOf(s) + parts, Local(s, parts))
  }

  function Changes(pending: seq<QueueOperation>): seq<Change> {
    seq(|pending|, i requires 0 <= i < |pending| => ChangeOf(pending[i]))
  }

  // ---- keys as component paths ----

  predicate NoneEmpty(parts: seq<string>) {
    forall i :: 0 <= i < |parts| ==> parts[i] != "" && '/' !in parts[i]
  }

  lemma ChildAgrees(rest: seq<string>, key: string)
    requires NoneEmpty(rest) && NoEmptyParts(key)
    ensures Child(Join(rest, '/'), key) == ChildOf(rest, Split(key, '/'))
  {
    var parts := Split(key, '/');
    JoinSplit(key, '/');
    if rest == [] {
      assert [] <= parts;
      assert parts[0] != "";
    } else {
      ChildBelow(rest, key);
    }
  }

  lemma ChildBelow(rest: seq<string>, key: string)
    requires rest != [] && NoneEmpty(rest) && NoEmptyParts(key)
    ensures Child(Join(rest, '/'), key) == ChildOf(rest, Split(key, '/'))
  {
    hide Split, Join, NoEmptyParts, FirstPart, Child, ChildOf;
    var parts, prefix := Split(key, '/'), Join(rest, '/');
    PrefixIsText(rest);
    JoinSplit(key, '/');
    if StartsWith(key, prefix + "/") {
      var tail := key[|prefix| + 1..];
      assert key == prefix + ['/'] + tail;
      PartsBelow(rest, key, tail);
      ChildInside(prefix, key);
    } else {
      ChildOutside(prefix, key);
      if rest < parts {
        PrefixText(rest, parts);
      }
      NoChildOf(rest, parts);
    }
  }

  lemma PrefixIsText(rest: seq<string>)
    requires rest != [] && NoneEmpty(rest)
    ensures Join(rest, '/') != ""
  {
    assert rest[0] != "";
  }

  lemma ChildInside(prefix: string, key: string)
    requires prefix != "" && StartsWith(key, prefix + "/") && |key| > |prefix| + 1
    ensures Child(prefix, key) == Some(FirstPart(key[|prefix| + 1..]))
  {
    hide FirstPart;
  }

  lemma ChildOutside(prefix: string, key: string)
    requires prefix != "" && !StartsWith(key, prefix + "/")
    ensures Child(prefix, key) == None
  {
    hide FirstPart;
  }

  lemma NoChildOf(rest: seq<string>, parts: seq<string>)
    requires !(rest < parts)
    ensures ChildOf(rest, parts) == None
  {
  }

  lemma PartsBelow(rest: seq<string>, key: string, tail: string)
    requires rest != [] && NoneEmpty(rest) && NoEmptyParts(key) && key == Join(rest, '/') + ['/'] + tail
    ensures tail != "" && ChildOf(rest, Split(key, '/')) == Some(FirstPart(tail))
  {
    hide Split, Join;
    SplitJoin(rest, '/');
    SplitAppend(Join(rest, '/'), tail, '/');
    EmptyText();
    var more := Split(tail, '/');
    assert Split(key, '/') == rest + more;
    assert (rest + more)[|rest|] == more[0];
  }

  lemma EmptyText()
    ensures Split("", '/') == [""]
  {
  }

  lemma PrefixText(rest: seq<string>, parts: seq<string>)
    requires rest != [] && rest < parts
    ensures StartsWith(Join(parts, '/'), Join(rest, '/') + "/")
  {
    JoinAppend(rest, parts[|rest|..], '/');
    assert parts == rest + parts[|rest|..];
  }

  lemma ChildUnderRoot(root: MountPath, rest: seq<string>, parts: seq<string>)
    ensures ChildOf(root + rest, root + parts) == ChildOf(rest, parts)
  {
    if rest <= parts {
      assert root + parts == root + rest + parts[|rest|..];
    }
    if root + rest <= root + parts {
      assert (root + rest)[|root|..] == rest && (root + parts)[|root|..] == parts;
      assert rest == parts[..|rest|];
    }
  }

  // ---- the store lists its files ----

  ghost predicate AllAccessible(st: Store, s: Surface) {
    forall key :: key in KeysIn(st, s) ==> Accessible(s, Split(key, '/'))
  }

  lemma AccessibleParts(s: Surface, parts: seq<string>)
    requires Accessible(s, parts)
    ensures NoneEmpty(parts)
    ensures ParseComponents(RootOf(s) + parts) == Some(PathAt(s, parts))
    ensures parts != [] ==> parts[0] != ".history"
    ensures Normalized(Join(parts, '/')) == Join(parts, '/')
  {
    assert parts[..|parts|] == parts;
    assert NoneEmpty(parts) by {
      assert forall i :: 0 <= i < |parts| ==> MountComponent(parts[i]);
    }
    if parts != [] {
      FirstPartIsNoHistory(s, parts);
      JoinEnds(parts);
      TrimSolid(Join(parts, '/'));
    }
  }

  lemma FirstPartIsNoHistory(s: Surface, parts: seq<string>)
    requires parts != [] && ParseComponents(RootOf(s) + parts) == Some(PathAt(s, parts))
    ensures parts[0] != ".history"
  {
    var all := RootOf(s) + parts;
    assert all[1..] == [s.bucket] + parts && all[1..][1..] == parts;
  }

  lemma GivenKind(st: Store, s: Surface, rest: seq<string>, order: seq<string>, e: DirEntry)
    requires NoneEmpty(rest) && (forall k :: k in order <==> k in KeysIn(st, s)) && forall k :: k in order ==>
             NoEmptyParts(k)
    ensures Gives(order, Join(rest, '/'), e) <==>
            exists f :: f in Files(st, s) && ChildOf(RootOf(s) + rest, f) == Some(e)
  {
    var prefix, dir := Join(rest, '/'), RootOf(s) + rest;
    forall key | key in order
      ensures Child(prefix, key) == ChildOf(dir, FileAt(s, key))
    {
      ChildAgrees(rest, key);
      ChildUnderRoot(RootOf(s), rest, Split(key, '/'));
    }
    hide Child, ChildOf, KeysIn, FileAt;
    if Gives(order, prefix, e) {
      var i :| 0 <= i < |order| && Child(prefix, order[i]) == Some(e);
      assert order[i] in order;
      assert FileAt(s, order[i]) in Files(st, s);
    }
    if f :| f in Files(st, s) && ChildOf(dir, f) == Some(e) {
      var key :| key in KeysIn(st, s) && FileAt(s, key) == f;
      assert key in order;
      var i :| 0 <= i < |order| && order[i] == key;
    }
  }

  lemma KindByChildren(files: set<MountPath>, dir: MountPath, e: DirEntry)
    ensures OL.KindIn(files, dir, e.name) == Some(e.kind) <==>
            (exists f :: f in files && ChildOf(dir, f) == Some(e)) &&
            (e.kind.Directory? ==> !exists f :: f in files && ChildOf(dir, f) == Some(DirEntry(e.name, File)))
  {
    forall f | f in files
      ensures ChildOf(dir, f) == Some(DirEntry(e.name, File)) <==> f == dir + [e.name]
      ensures ChildOf(dir, f) == Some(DirEntry(e.name, Directory)) <==> dir + [e.name] < f
    {
      OL.ChildIs(dir, f, e.name);
    }
  }

  lemma StoreShows(st: Store, s: Surface, parts: seq<string>)
    requires NoneEmpty(parts) && AllAccessible(st, s)
    ensures OL.Shows(ImmediateChildren(InSomeOrder(KeysIn(st, s)), Join(parts, '/')), Files(st, s), RootOf(s) + parts)
  {
    var order, prefix, dir := InSomeOrder(KeysIn(st, s)), Join(parts, '/'), RootOf(s) + parts;
    var entries := ImmediateChildren(order, prefix);
    ImmediateChildrenIsListing(order, prefix);
    assert forall k :: k in order ==> NoEmptyParts(k) by {
      forall k | k in order
        ensures NoEmptyParts(k)
      {
        AccessibleParts(s, Split(k, '/'));
      }
    }
    hide ImmediateChildren, KeysIn, Files, Gives, OL.KindIn;
    SortedHasNoRepeats(entries);
    forall e: DirEntry
      ensures e in entries <==> OL.KindIn(Files(st, s), dir, e.name) == Some(e.kind)
    {
      GivenKind(st, s, parts, order, e);
      GivenKind(st, s, parts, order, DirEntry(e.name, File));
      KindByChildren(Files(st, s), dir, e);
    }
  }

  lemma SortedHasNoRepeats(entries: seq<DirEntry>)
    requires SortedByName(entries)
    ensures NoRepeats(entries)
  {
    forall i, j | 0 <= i < j < |entries|
      ensures entries[i].name != entries[j].name
    {
      assert Below(entries[i].name, entries[j].name);
      BelowIrreflexive(entries[i].name);
    }
  }

  /** The files a listing accounts for; the history directory of a KV bucket counts as if it held one. */
  function Visible(files: set<MountPath>, s: Surface): set<MountPath> {
    if s.KvSurface? then files + {RootOf(s) + [".history", "@"]} else files
  }

  lemma HistoryIsElsewhere(files: set<MountPath>, s: Surface, parts: seq<string>, name: string)
    requires parts != [] && parts[0] != ".history"
    ensures OL.KindIn(Visible(files, s), RootOf(s) + parts, name) == OL.KindIn(files, RootOf(s) + parts, name)
  {
    var extra, path := RootOf(s) + [".history", "@"], RootOf(s) + parts + [name];
    assert path[2] == parts[0] && extra[2] == ".history";
    assert !(path <= extra);
    if k :| k in files && path < k {
      assert k in Visible(files, s);
    }
    if k :| k in Visible(files, s) && path < k {
      assert k in files;
    }
  }

  lemma DurableShows(st: Store, s: Surface, parts: seq<string>)
    requires Accessible(s, parts) && BucketExists(st, s) && AllAccessible(st, s)
    ensures DurableOf(st).list(RootOf(s) + parts).Some?
    ensures OL.Shows(DurableOf(st).list(RootOf(s) + parts).value, Files(st, s), RootOf(s) + parts)
    ensures parts != [] ==> DurableOf(st).synthetic(RootOf(s) + parts)
  {
    AccessibleParts(s, parts);
    StoreShows(st, s, parts);
    hide ImmediateChildren, ParseComponents, Accessible, AllAccessible, OL.Shows, Files;
  }

  lemma DeeperShows(st: Store, s: Surface, parts: seq<string>)
    requires Accessible(s, parts) && BucketExists(st, s) && AllAccessible(st, s) && parts != []
    ensures DurableOf(st).list(RootOf(s) + parts).Some?
    ensures OL.Shows(DurableOf(st).list(RootOf(s) + parts).value, Visible(Files(st, s), s), RootOf(s) + parts)
  {
    DurableShows(st, s, parts);
    AccessibleParts(s, parts);
    hide Accessible, AllAccessible, Files, DurableOf, OL.KindIn, Visible;
    forall name
      ensures OL.KindIn(Visible(Files(st, s), s), RootOf(s) + parts, name) ==
              OL.KindIn(Files(st, s), RootOf(s) + parts, name)
    {
      HistoryIsElsewhere(Files(st, s), s, parts, name);
    }
  }

  /** A directory with its local entry. */
  lemma ListedShows(st: Store, s: Surface, parts: seq<string>)
    requires Accessible(s, parts) && BucketExists(st, s) && AllAccessible(st, s)
    ensures DurableOf(st).list(RootOf(s) + parts).Some?
    ensures OL.Shows(InsertAllSorted(DurableOf(st).list(RootOf(s) + parts).value, Local(s, parts)),
            Visible(Files(st, s), s), RootOf(s) + parts)
  {
    hide DurableOf, Accessible, AllAccessible, OL.Shows, Files, InsertSorted, BucketExists;
    if parts != [] {
      DeeperShows(st, s, parts);
    } else {
      DurableShows(st, s, []);
      assert RootOf(s) + [] == RootOf(s);
      if s.KvSurface? {
        NoHistoryFile(st, s);
        HistoryInserted(DurableOf(st).list(RootOf(s)).value, Files(st, s), s);
      }
    }
  }

  lemma NoHistoryFile(st: Store, s: Surface)
    requires AllAccessible(st, s)
    ensures RootOf(s) + [".history"] !in Files(st, s)
  {
    forall key | key in KeysIn(st, s)
      ensures FileAt(s, key) != RootOf(s) + [".history"]
    {
      AccessibleParts(s, Split(key, '/'));
      assert FileAt(s, key)[2] == Split(key, '/')[0];
    }
  }

  lemma HistoryInserted(entries: seq<DirEntry>, files: set<MountPath>, s: Surface)
    requires s.KvSurface? && OL.Shows(entries, files, RootOf(s)) && RootOf(s) + [".history"] !in files
    ensures OL.Shows(InsertAllSorted(entries, [DirEntry(".history", Directory)]), Visible(files, s), RootOf(s))
  {
    var local, extra := [DirEntry(".history", Directory)], RootOf(s) + [".history", "@"];
    assert InsertAllSorted(entries, local[..0]) == entries;
    var after := InsertAllSorted(entries, local);
    assert after == InsertSorted(entries, DirEntry(".history", Directory));
    assert ChildOf(RootOf(s), extra) == Some(DirEntry(".history", Directory));
    hide InsertSorted, InsertAllSorted;
    forall e: DirEntry
      ensures NoRepeats(after) && (e in after <==> OL.KindIn(Visible(files, s), RootOf(s), e.name) == Some(e.kind))
    {
      OL.InsertSortedMembers(entries, DirEntry(".history", Directory), e);
      OL.KindInAdd(files, RootOf(s), extra, e.name);
    }
    assert NoRepeats(after) by { assert DirEntry("", File) == DirEntry("", File); }
  }

  lemma FileOfKey(st: Store, s: Surface, key: string)
    ensures FileAt(s, key) in Files(st, s) <==> key in KeysIn(st, s)
    ensures key in KeysIn(st, s) <==> CacheRuns.FactBytes(st, FactAt(s, key)).Some?
  {
    if FileAt(s, key) in Files(st, s) {
      var other :| other in KeysIn(st, s) && FileAt(s, other) == FileAt(s, key);
      assert FileAt(s, other)[2..] == Split(other, '/') && FileAt(s, key)[2..] == Split(key, '/');
      JoinSplit(other, '/');
      JoinSplit(key, '/');
    }
    assert key in KeysIn(st, s) <==> if s.KvSurface? then (s.bucket, key) in st.kv else (s.bucket, key) in st.objects;
  }

  // ---- one pending operation ----

  function SurfaceOf(op: QueueOperation): Surface
    requires !op.PublishJsonLines?
  {
    match op
    case KvPut(b, _, _) => KvSurface(b)
    case MaterializedPut(b, _, _) => KvSurface(b)
    case KvRenameComplete(_, _, _, b, _, _) => KvSurface(b)
    case ObjectPut(b, _, _) => ObjectSurface(b)
    case ObjectRenameComplete(_, _, _, _, b, _, _) => ObjectSurface(b)
  }

  function TargetKey(op: QueueOperation): string
    requires !op.PublishJsonLines?
  {
    var put := PutOf(op);
    if put.PutKey? then put.key else put.name
  }

  function SourceKeys(op: QueueOperation): seq<string> {
    match op
    case KvRenameComplete(_, key, _, _, _, _) => [key]
    case ObjectRenameComplete(_, name, _, _, _, _, _) => [name]
    case _ => []
  }

  /** Renames stay in one bucket, and every key is one whose slash prefixes are valid keys. */
  ghost predicate WellNamed(op: QueueOperation) {
    && !op.PublishJsonLines?
    && (op.KvRenameComplete? ==> op.fromBucket == op.toBucket && op.fromKey != op.toKey)
    && (op.ObjectRenameComplete? ==> op.fromBucket == op.toBucket && op.fromName != op.toName)
    && Accessible(SurfaceOf(op), Split(TargetKey(op), '/'))
    && forall key :: key in SourceKeys(op) ==> Accessible(SurfaceOf(op), Split(key, '/'))
  }

  lemma FactsOf(op: QueueOperation)
    requires WellNamed(op)
    ensures TargetFact(op) == FactAt(SurfaceOf(op), TargetKey(op))
    ensures SourceFact(op) == if SourceKeys(op) == [] then None else Some(FactAt(SurfaceOf(op), SourceKeys(op)[0]))
    ensures |SourceKeys(op)| <= 1 && TargetKey(op) !in SourceKeys(op)
  {
  }

  /** The paths of a key: its file first, then aliases outside the KV and object trees. */
  lemma PathsOfKey(s: Surface, key: string)
    requires Accessible(s, Split(key, '/'))
    ensures var paths := FactPaths(FactAt(s, key));
            && paths != [] && paths[0] == FileAt(s, key)
            && forall i :: 1 <= i < |paths| ==> paths[i] != [] && paths[i][0] in {"tasks", "agents", "semantic"}
  {
    var parts := Split(key, '/');
    JoinSplit(key, '/');
    assert parts[..0] == [] && RootOf(s) + [] == RootOf(s);
    assert ParseComponents(RootOf(s)) == Some(PathAt(s, []));
    BucketIsComponent(s);
    PathsExist(s, parts);
    hide Accessible, ParseComponents, Aliases.VisiblePaths;
    ListedShapes(FactAt(s, key));
    assert key != "" by { EmptyText(); AccessibleParts(s, parts); }
  }

  lemma BucketIsComponent(s: Surface)
    requires ParseComponents(RootOf(s)) == Some(PathAt(s, []))
    ensures MountComponent(s.bucket)
  {
    assert RootOf(s)[1..] == [s.bucket];
    assert s.bucket[0] != '.';
  }

  lemma PathsExist(s: Surface, parts: seq<string>)
    requires MountComponent(s.bucket) && parts != [] && MountComponents(parts)
    ensures Aliases.VisiblePaths(FactAt(s, Join(parts, '/'))).Some?
  {
    hide Aliases.VisiblePaths;
    if s.KvSurface? {
      Aliases.KvPathsExist(s.bucket, parts);
    } else {
      Aliases.ObjectFactExists(s.bucket, parts);
    }
  }

  lemma InThisTree(op: QueueOperation, s: Surface)
    requires WellNamed(op) && s == SurfaceOf(op)
    ensures var dst := FileAt(s, TargetKey(op)); ChangeOf(op).visible != [] && ChangeOf(op).visible[0] == dst
    ensures forall i :: 1 <= i < |ChangeOf(op).visible| ==> !(RootOf(s) <= ChangeOf(op).visible[i])
    ensures SourceKeys(op) == [] ==> ChangeOf(op).deleted == []
    ensures SourceKeys(op) != [] ==>
              ChangeOf(op).deleted != [] && ChangeOf(op).deleted[0] == FileAt(s, SourceKeys(op)[0])
    ensures forall i :: 1 <= i < |ChangeOf(op).deleted| ==> !(RootOf(s) <= ChangeOf(op).deleted[i])
  {
    FactsOf(op);
    PathsOfKey(s, TargetKey(op));
    if SourceKeys(op) != [] {
      PathsOfKey(s, SourceKeys(op)[0]);
    }
  }

  lemma InAnotherTree(op: QueueOperation, s: Surface)
    requires WellNamed(op) && s != SurfaceOf(op)
    ensures OL.IsElsewhere(ChangeOf(op), RootOf(s))
  {
    FactsOf(op);
    PathsElsewhere(SurfaceOf(op), TargetKey(op), s);
    if SourceKeys(op) != [] {
      PathsElsewhere(SurfaceOf(op), SourceKeys(op)[0], s);
    }
    hide Accessible, FactPaths, TargetFact, SourceFact;
  }

  lemma PathsElsewhere(s: Surface, key: string, other: Surface)
    requires Accessible(s, Split(key, '/')) && s != other
    ensures forall i :: 0 <= i < |FactPaths(FactAt(s, key))| ==> !(RootOf(other) <= FactPaths(FactAt(s, key))[i])
  {
    PathsOfKey(s, key);
    hide Accessible, FactPaths;
    assert RootOf(s)[0] != RootOf(other)[0] || RootOf(s)[1] != RootOf(other)[1];
    var file := FileAt(s, key);
    assert file[0] == RootOf(s)[0] && file[1] == RootOf(s)[1];
  }

  lemma SourceIsListed(st: Store, op: QueueOperation)
    requires WellNamed(op) && SourceKeys(op) != []
    requires BucketExists(st, SurfaceOf(op)) && AllAccessible(st, SurfaceOf(op))
    ensures var s := SurfaceOf(op);
            OL.Lists(DurableOf(st), Visible(Files(st, s), s), RootOf(s), FileAt(s, SourceKeys(op)[0]))
  {
    hide DurableOf, AllAccessible, BucketExists, Files, Visible, OL.Shows;
    var s, d := SurfaceOf(op), DurableOf(st);
    var key := SourceKeys(op)[0];
    var parts := Split(key, '/');
    assert Accessible(s, parts);
    hide Accessible, Split;
    forall p | RootOf(s) < p <= FileAt(s, key)
      ensures d.list(p).Some? && OL.Shows(d.list(p).value, Visible(Files(st, s), s), p)
      ensures d.exact(p) <==> p in Visible(Files(st, s), s)
      ensures d.synthetic(p)
    {
      var here := parts[..|p| - 2];
      assert p == RootOf(s) + here;
      AccessiblePrefix(s, parts, |p| - 2);
      DeeperShows(st, s, here);
      DurableShows(st, s, here);
      ExactIs(st, s, here);
    }
  }

  lemma AccessiblePrefix(s: Surface, parts: seq<string>, n: nat)
    requires Accessible(s, parts) && n <= |parts|
    ensures Accessible(s, parts[..n])
  {
    assert forall i :: 0 <= i <= n ==> parts[..n][..i] == parts[..i];
  }

  lemma ExactIs(st: Store, s: Surface, here: seq<string>)
    requires Accessible(s, here) && here != []
    ensures DurableOf(st).exact(RootOf(s) + here) <==> RootOf(s) + here in Visible(Files(st, s), s)
  {
    AccessibleParts(s, here);
    var key := Join(here, '/');
    SplitJoin(here, '/');
    FileOfKey(st, s, key);
    assert FileAt(s, key) == RootOf(s) + here;
    assert (RootOf(s) + here)[2] == here[0];
    ExactAt(st, s, here);
    hide Accessible, ParseComponents, Files, CacheRuns.FactBytes, DurableOf;
  }

  lemma ExactAt(st: Store, s: Surface, here: seq<string>)
    requires here != [] && ParseComponents(RootOf(s) + here) == Some(PathAt(s, here))
    ensures DurableOf(st).exact(RootOf(s) + here) <==> CacheRuns.FactBytes(st, FactAt(s, Join(here, '/'))).Some?
  {
    hide ParseComponents, CacheRuns.FactBytes, ListedBy;
  }

  // ---- the listings of a replay ----

  /** The files a bucket holds once the operation was applied. */
  function Settling(op: QueueOperation, s: Surface, files: set<MountPath>): set<MountPath>
    requires !op.PublishJsonLines?
  {
    if s != SurfaceOf(op) then files
    else if SourceKeys(op) == [] then files + {FileAt(s, TargetKey(op))}
    else files - {FileAt(s, SourceKeys(op)[0])} + {FileAt(s, TargetKey(op))}
  }

  function SettledKeys(op: QueueOperation, s: Surface, keys: set<string>): set<string>
    requires !op.PublishJsonLines?
  {
    if s != SurfaceOf(op) then keys
    else if SourceKeys(op) == [] then keys + {TargetKey(op)}
    else keys - {SourceKeys(op)[0]} + {TargetKey(op)}
  }

  lemma FilesDiffer(s: Surface, a: string, b: string)
    requires a != b
    ensures FileAt(s, a) != FileAt(s, b)
  {
    JoinSplit(a, '/');
    JoinSplit(b, '/');
    assert FileAt(s, a)[2..] == Split(a, '/') && FileAt(s, b)[2..] == Split(b, '/');
  }

  /** Through the overlay a directory shows the settled files, whatever the store has reached. */
  lemma PendingListing(st: Store, op: QueueOperation, s: Surface, parts: seq<string>)
    requires WellNamed(op) && BucketExists(st, s) && AllAccessible(st, s) && Accessible(s, parts)
    ensures ListedAt(st, [op], s, parts).Some?
    ensures OL.Shows(ListedAt(st, [op], s, parts).value, Settling(op, s, Visible(Files(st, s), s)), RootOf(s) + parts)
  {
    var d, dir, files := DurableOf(st), RootOf(s) + parts, Visible(Files(st, s), s);
    ListedShows(st, s, parts);
    assert Changes([op]) == [ChangeOf(op)];
    assert RootOf(s) <= dir;
    if s != SurfaceOf(op) {
      InAnotherTree(op, s);
      OL.ElsewhereKeeps(d, ChangeOf(op), RootOf(s), dir, Local(s, parts));
      OL.PlainListing(d, dir, Local(s, parts));
    } else {
      InThisTree(op, s);
      hide Files, Visible, DurableOf, Accessible, AllAccessible, ChangeOf, OL.Shows, ListDirectory;
      if SourceKeys(op) == [] {
        OL.PutListing(d, ChangeOf(op), RootOf(s), FileAt(s, TargetKey(op)), files, dir, Local(s, parts));
      } else {
        RenameSettles(st, op, parts);
      }
    }
  }

  lemma RenameChange(op: QueueOperation)
    requires WellNamed(op) && SourceKeys(op) != []
    ensures var s := SurfaceOf(op);
            OL.IsRename(ChangeOf(op), RootOf(s), FileAt(s, SourceKeys(op)[0]), FileAt(s, TargetKey(op)))
  {
    var s := SurfaceOf(op);
    FactsOf(op);
    InThisTree(op, s);
    FilesDiffer(s, SourceKeys(op)[0], TargetKey(op));
    hide ChangeOf, Accessible;
  }

  lemma RenameSettles(st: Store, op: QueueOperation, parts: seq<string>)
    requires WellNamed(op) && SourceKeys(op) != [] && Accessible(SurfaceOf(op), parts)
    requires BucketExists(st, SurfaceOf(op)) && AllAccessible(st, SurfaceOf(op))
    ensures var s := SurfaceOf(op);
            && ListedAt(st, [op], s, parts).Some?
            && OL.Shows(ListedAt(st, [op], s, parts).value, Settling(op, s, Visible(Files(st, s), s)), RootOf(s) +
              parts)
  {
    var s := SurfaceOf(op);
    var d, dir, files := DurableOf(st), RootOf(s) + parts, Visible(Files(st, s), s);
    var src, dst := FileAt(s, SourceKeys(op)[0]), FileAt(s, TargetKey(op));
    ListedShows(st, s, parts);
    RenameChange(op);
    SourceIsListed(st, op);
    hide Files, Visible, DurableOf, Accessible, AllAccessible, ChangeOf, OL.Shows, ListDirectory, OL.Lists;
    hide FileAt, OL.IsRename;
    assert RootOf(s) <= dir;
    OL.RenameListing(d, ChangeOf(op), RootOf(s), src, dst, files, dir, Local(s, parts));
    assert Changes([op]) == [ChangeOf(op)];
  }

  lemma PlainListingShows(st: Store, s: Surface, parts: seq<string>)
    requires BucketExists(st, s) && AllAccessible(st, s) && Accessible(s, parts)
    ensures ListedAt(st, [], s, parts).Some?
    ensures OL.Shows(ListedAt(st, [], s, parts).value, Visible(Files(st, s), s), RootOf(s) + parts)
  {
    ListedShows(st, s, parts);
    hide Files, Visible, DurableOf, Accessible, AllAccessible, OL.Shows, ListDirectory;
    OL.PlainListing(DurableOf(st), RootOf(s) + parts, Local(s, parts));
    assert Changes([]) == [];
  }

  // ---- the files during the replay ----

  lemma KeyAfterPut(st: Store, op: QueueOperation, id: string, s: Surface, key: string)
    requires WellNamed(op) && Undisturbed(st, op, id)
    ensures key in KeysIn(AfterPut(st, op, id), s) <==>
              key in KeysIn(st, s) || (s == SurfaceOf(op) && key == TargetKey(op))
  {
    FactsOf(op);
    FileOfKey(st, s, key);
    FileOfKey(AfterPut(st, op, id), s, key);
    FactsAfterPut(st, op, id, FactAt(s, key));
    hide AfterPut, KeysIn, Undisturbed, WellNamed, CacheRuns.FactBytes, Files;
  }

  lemma KeyAfterDelete(st: Store, op: QueueOperation, id: string, s: Surface, key: string)
    requires WellNamed(op) && Undisturbed(st, op, id)
    ensures key in KeysIn(AfterDelete(st, op, id), s) <==>
            if s == SurfaceOf(op) then key == TargetKey(op) || (key in KeysIn(st, s) && key !in SourceKeys(op))
            else key in KeysIn(st, s)
  {
    FactsOf(op);
    FileOfKey(st, s, key);
    FileOfKey(AfterDelete(st, op, id), s, key);
    FactsAfterDelete(st, op, id, FactAt(s, key));
    hide AfterDelete, KeysIn, Undisturbed, WellNamed, CacheRuns.FactBytes, Files;
  }

  lemma KeysAfterReplay(st: Store, op: QueueOperation, id: string, s: Surface)
    requires WellNamed(op) && Undisturbed(st, op, id)
    ensures KeysIn(AfterPut(st, op, id), s) == KeysIn(st, s) + if s == SurfaceOf(op) then {TargetKey(op)} else {}
    ensures KeysIn(AfterDelete(st, op, id), s) == SettledKeys(op, s, KeysIn(st, s))
  {
    hide AfterPut, AfterDelete, KeysIn, Undisturbed, Accessible, SourceKeys, TargetKey, SurfaceOf, TargetFact;
    hide SourceFact;
    FactsOf(op);
    hide WellNamed;
    forall key
      ensures key in KeysIn(AfterPut(st, op, id), s) <==>
                key in KeysIn(st, s) || (s == SurfaceOf(op) && key == TargetKey(op))
    {
      KeyAfterPut(st, op, id, s, key);
    }
    forall key
      ensures key in KeysIn(AfterDelete(st, op, id), s) <==> key in SettledKeys(op, s, KeysIn(st, s))
    {
      KeyAfterDelete(st, op, id, s, key);
    }
  }

  lemma BucketStays(st: Store, op: QueueOperation, id: string, s: Surface)
    requires BucketExists(st, s)
    ensures BucketExists(AfterPut(st, op, id), s) && BucketExists(AfterDelete(st, op, id), s)
  {
  }

  /** Every step of the replay settles to the files the store ends with. */
  lemma FilesSettle(st: Store, op: QueueOperation, id: string, s: Surface)
    requires WellNamed(op) && Undisturbed(st, op, id)
    ensures var end := Visible(Files(AfterDelete(st, op, id), s), s);
            && Settling(op, s, Visible(Files(st, s), s)) == end
            && Settling(op, s, Visible(Files(AfterPut(st, op, id), s), s)) == end
            && Settling(op, s, end) == end
  {
    hide AfterPut, AfterDelete, KeysIn, Undisturbed, Settling, FilesOf, Visible, Accessible;
    KeysAfterReplay(st, op, id, s);
    FactsOf(op);
    SettleOnKeys(op, s, KeysIn(st, s));
    SettleOnKeys(op, s, KeysIn(AfterPut(st, op, id), s));
    SettleOnKeys(op, s, KeysIn(AfterDelete(st, op, id), s));
    hide WellNamed;
    assert SettledKeys(op, s, KeysIn(AfterPut(st, op, id), s)) == SettledKeys(op, s, KeysIn(st, s));
    assert SettledKeys(op, s, KeysIn(AfterDelete(st, op, id), s)) == SettledKeys(op, s, KeysIn(st, s));
  }

  lemma FilesOfMore(keys: set<string>, s: Surface, key: string)
    ensures FilesOf(keys + {key}, s) == FilesOf(keys, s) + {FileAt(s, key)}
  {
    hide FileAt;
  }

  lemma FilesOfFewer(keys: set<string>, s: Surface, key: string)
    ensures FilesOf(keys - {key}, s) == FilesOf(keys, s) - {FileAt(s, key)}
  {
    forall other | other in keys && other != key
      ensures FileAt(s, other) != FileAt(s, key)
    {
      FilesDiffer(s, other, key);
    }
    hide FileAt;
  }

  lemma SettleOnKeys(op: QueueOperation, s: Surface, keys: set<string>)
    requires WellNamed(op)
    ensures Settling(op, s, Visible(FilesOf(keys, s), s)) == Visible(FilesOf(SettledKeys(op, s, keys), s), s)
  {
    hide Accessible, Split, FilesOf;
    if s == SurfaceOf(op) {
      if SourceKeys(op) == [] {
        FilesOfMore(keys, s, TargetKey(op));
      } else {
        var source := SourceKeys(op)[0];
        FilesOfFewer(keys, s, source);
        FilesOfMore(keys - {source}, s, TargetKey(op));
        AccessibleParts(s, Split(source, '/'));
        assert FileAt(s, source)[2] == Split(source, '/')[0];
        assert FileAt(s, source) != RootOf(s) + [".history", "@"];
      }
    }
    hide WellNamed, FileAt;
  }

  // ---- the theorem ----

  /** Two listings as maps from names to kinds. */
  ghost predicate SameNames(a: Option<seq<DirEntry>>, b: Option<seq<DirEntry>>) {
    a.Some? && b.Some? && NoRepeats(a.value) && NoRepeats(b.value) && forall e :: e in a.value <==> e in b.value
  }

  lemma AccessibleStays(st: Store, op: QueueOperation, id: string, s: Surface)
    requires WellNamed(op) && Undisturbed(st, op, id) && AllAccessible(st, s)
    ensures AllAccessible(AfterPut(st, op, id), s) && AllAccessible(AfterDelete(st, op, id), s)
  {
    KeysAfterReplay(st, op, id, s);
    hide AfterPut, AfterDelete, KeysIn, Undisturbed, Accessible;
  }

  /** Replay is invisible in directories: a KV or object directory shows the same names with the same
      kinds before the replay, after its put, after its delete and once the entry is gone. */
  lemma ListingsDoNotMove(st: Store, op: QueueOperation, id: string, s: Surface, parts: seq<string>)
    requires WellNamed(op) && Undisturbed(st, op, id)
    requires BucketExists(st, s) && AllAccessible(st, s) && Accessible(s, parts)
    ensures SameNames(ListedAt(st, [op], s, parts), ListedAt(AfterPut(st, op, id), [op], s, parts))
    ensures SameNames(ListedAt(st, [op], s, parts), ListedAt(AfterDelete(st, op, id), [op], s, parts))
    ensures SameNames(ListedAt(st, [op], s, parts), ListedAt(AfterDelete(st, op, id), [], s, parts))
  {
    hide AfterPut, AfterDelete, KeysIn, Undisturbed, Accessible, AllAccessible, WellNamed, BucketExists;
    hide ListedAt, Settling, Visible, Files;
    BucketStays(st, op, id, s);
    AccessibleStays(st, op, id, s);
    PendingListing(st, op, s, parts);
    PendingListing(AfterPut(st, op, id), op, s, parts);
    PendingListing(AfterDelete(st, op, id), op, s, parts);
    PlainListingShows(AfterDelete(st, op, id), s, parts);
    FilesSettle(st, op, id, s);
    hide OL.KindIn;
  }

  // ---- a bucket that does not exist yet ----

  lemma PutMakesBucket(st: Store, op: QueueOperation, id: string)
    requires WellNamed(op) && Undisturbed(st, op, id) && KeysIn(st, SurfaceOf(op)) == {}
    ensures BucketExists(AfterPut(st, op, id), SurfaceOf(op))
  {
    var s := SurfaceOf(op);
    FactsOf(op);
    FileOfKey(st, s, TargetKey(op));
    assert !PutApplied(st, PutOf(op), id);
    hide KeysIn, Accessible, CacheRuns.FactBytes, Files;
  }

  lemma LocalShows(s: Surface, parts: seq<string>)
    requires Accessible(s, parts)
    ensures OL.Shows(Local(s, parts), Visible({}, s), RootOf(s) + parts)
  {
    AccessibleParts(s, parts);
    hide Accessible;
    var dir := RootOf(s) + parts;
    forall e: DirEntry
      ensures e in Local(s, parts) <==> OL.KindIn(Visible({}, s), dir, e.name) == Some(e.kind)
    {
      if s.KvSurface? {
        OL.KindInAdd({}, dir, RootOf(s) + [".history", "@"], e.name);
        assert OL.KindIn({}, dir, e.name) == None;
        assert {} + {RootOf(s) + [".history", "@"]} == Visible({}, s);
        if parts == [] {
          assert dir == RootOf(s);
        } else {
          assert dir[2] == parts[0];
        }
      }
    }
  }

  lemma NothingThere(s: Surface, dir: MountPath, rest: seq<string>)
    requires RootOf(s) <= dir < RootOf(s) + rest && rest[0] != ".history"
    ensures OL.KindIn(Visible({}, s), dir, (RootOf(s) + rest)[|dir|]) == None
  {
    var file := RootOf(s) + rest;
    var path := dir + [file[|dir|]];
    assert path == file[..|dir| + 1];
    assert path[2] == rest[0];
    assert (RootOf(s) + [".history", "@"])[2] == ".history";
  }

  /** A put into a bucket that does not exist yet is visible in exactly the directories above its file: those
      list the same before and after it, and the bucket's other directories come into being with the put. */
  lemma MissingBucketListing(st: Store, op: QueueOperation, id: string, parts: seq<string>)
    requires WellNamed(op) && SourceKeys(op) == [] && Undisturbed(st, op, id) && Accessible(SurfaceOf(op), parts)
    requires !BucketExists(st, SurfaceOf(op)) && KeysIn(st, SurfaceOf(op)) == {}
    ensures var s := SurfaceOf(op);
            && ListedAt(AfterPut(st, op, id), [op], s, parts).Some?
            && (SameNames(ListedAt(st, [op], s, parts), ListedAt(AfterPut(st, op, id), [op], s, parts)) <==>
                  RootOf(s) + parts < FileAt(s, TargetKey(op)))
            && (ListedAt(st, [op], s, parts) == None <==> !(RootOf(s) + parts < FileAt(s, TargetKey(op))))
  {
    var s := SurfaceOf(op);
    var dir, dst := RootOf(s) + parts, FileAt(s, TargetKey(op));
    MissingListed(st, op, parts);
    PutMakesBucket(st, op, id);
    AccessibleStays(st, op, id, s);
    PendingListing(AfterPut(st, op, id), op, s, parts);
    FilesAfterFirstPut(st, op, id);
    hide ListedAt, AfterPut, Undisturbed, WellNamed, KeysIn, Accessible, AllAccessible, BucketExists, Files, Settling;
    hide OL.KindIn, Visible;
  }

  lemma MissingListed(st: Store, op: QueueOperation, parts: seq<string>)
    requires WellNamed(op) && SourceKeys(op) == [] && Accessible(SurfaceOf(op), parts)
    requires !BucketExists(st, SurfaceOf(op))
    ensures var s := SurfaceOf(op);
            var dir, dst := RootOf(s) + parts, FileAt(s, TargetKey(op));
            && (ListedAt(st, [op], s, parts).Some? <==> dir < dst)
            && (dir < dst ==> OL.Shows(ListedAt(st, [op], s, parts).value, Visible({}, s) + {dst}, dir))
  {
    var s := SurfaceOf(op);
    var dir, dst, d := RootOf(s) + parts, FileAt(s, TargetKey(op)), DurableOf(st);
    InThisTree(op, s);
    LocalShows(s, parts);
    if dir < dst {
      AccessibleParts(s, Split(TargetKey(op), '/'));
      NothingThere(s, dir, Split(TargetKey(op), '/'));
    }
    assert d.list(dir) == None by { AccessibleParts(s, parts); NotListed(st, s, parts); }
    assert Changes([op]) == [ChangeOf(op)];
    hide ChangeOf, OL.Shows, Visible, FileAt, DurableOf, Accessible, OL.KindIn;
    OL.MissingListing(d, ChangeOf(op), RootOf(s), dst, Visible({}, s), dir, Local(s, parts));
  }

  lemma NotListed(st: Store, s: Surface, parts: seq<string>)
    requires !BucketExists(st, s) && ParseComponents(RootOf(s) + parts) == Some(PathAt(s, parts))
    ensures DurableOf(st).list(RootOf(s) + parts) == None
  {
    hide ParseComponents, ImmediateChildren;
  }

  lemma FilesAfterFirstPut(st: Store, op: QueueOperation, id: string)
    requires WellNamed(op) && SourceKeys(op) == [] && Undisturbed(st, op, id) && KeysIn(st, SurfaceOf(op)) == {}
    ensures var s := SurfaceOf(op);
            Settling(op, s, Visible(Files(AfterPut(st, op, id), s), s)) ==
            Visible({}, s) + {FileAt(s, TargetKey(op))}
  {
    var s := SurfaceOf(op);
    KeysAfterReplay(st, op, id, s);
    hide AfterPut, Undisturbed, WellNamed, KeysIn, FileAt;
    assert Files(AfterPut(st, op, id), s) == FilesOf({TargetKey(op)}, s) == {FileAt(s, TargetKey(op))};
  }
}
