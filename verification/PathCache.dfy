/** The inode table of a mount (eventfs-fuse/src/path_cache.rs): two maps that stay inverse to each other,
    inodes that are never given out twice, and removals of exactly a subtree. */
module PathCache {
  import opened Paths
  import opened Listing
  import opened MountText

  const ROOT_INO: nat := 1

  datatype Table = Table(byPath: map<MountPath, (nat, Kind)>, byIno: map<nat, MountPath>, nextIno: nat)

  const NEW: Table := Table(map[[] := (ROOT_INO, Directory)], map[ROOT_INO := []], ROOT_INO + 1)

  function Remember(t: Table, path: MountPath, ino: nat, kind: Kind): Table {
    t.(byPath := t.byPath[path := (ino, kind)], byIno := t.byIno[ino := path])
  }

  function Ensure(t: Table, path: MountPath, kind: Kind): Table {
    if path in t.byPath then t.(byPath := t.byPath[path := (t.byPath[path].0, kind)])
    else Remember(t.(nextIno := t.nextIno + 1), path, t.nextIno, kind)
  }

  function Remove(t: Table, path: MountPath): Table {
    if path in t.byPath then t.(byPath := t.byPath - {path}, byIno := t.byIno - {t.byPath[path].0}) else t
  }

  /** Drop some paths and the inodes they had. */
  function Dropped(t: Table, gone: set<MountPath>): Table {
    t.(byPath := t.byPath - gone, byIno := t.byIno - (set p | p in t.byPath && p in gone :: t.byPath[p].0))
  }

  function RemoveRecursive(t: Table, path: MountPath): Table {
    if AsStr(path) == "/" then
      var empty := Table(map[], map[], t.nextIno);
      if [] in t.byPath then Remember(empty, [], t.byPath[[]].0, t.byPath[[]].1) else empty
    else Dropped(t, set p | p in t.byPath && Within(AsStr(p), AsStr(path)))
  }

  function RemoveDescendants(t: Table, path: MountPath): Table {
    Dropped(t, set p | p in t.byPath && p != [] && Descends(AsStr(p), AsStr(path)))
  }

  class Cache {
    var byPath: map<MountPath, (nat, Kind)>
    var byIno: map<nat, MountPath>
    var nextIno: nat

    function State(): Table
      reads this
    {
      Table(byPath, byIno, nextIno)
    }

    constructor ()
      ensures State() == NEW
    {
      byPath, byIno, nextIno := map[[] := (ROOT_INO, Directory)], map[ROOT_INO := []], ROOT_INO + 1;
    }

    method EnsurePath(path: MountPath, kind: Kind) returns (ino: nat)
      modifies this
      ensures State() == Ensure(old(State()), path, kind)
      ensures path in byPath && ino == byPath[path].0
    {
      if path in byPath {
        ino := byPath[path].0;
        byPath := byPath[path := (ino, kind)];
        return;
      }
      ino := nextIno;
      nextIno := nextIno + 1;
      byPath := byPath[path := (ino, kind)];
      byIno := byIno[ino := path];
    }

    method RemovePath(path: MountPath)
      modifies this
      ensures State() == Remove(old(State()), path)
    {
      if path in byPath {
        var ino := byPath[path].0;
        byPath := byPath - {path};
        byIno := byIno - {ino};
      }
    }

    /** The loop both removals end with. */
    method ForgetInodes(removed: set<nat>)
      modifies this
      ensures byIno == old(byIno) - removed && byPath == old(byPath) && nextIno == old(nextIno)
    {
      var left := removed;
      while left != {}
        invariant left <= removed && byPath == old(byPath) && nextIno == old(nextIno)
        invariant byIno == old(byIno) - (removed - left)
      {
        var ino :| ino in left;
        byIno := byIno - {ino};
        left := left - {ino};
      }
      assert removed - {} == removed;
    }

    method RemoveTree(path: MountPath)
      modifies this
      ensures State() == RemoveRecursive(old(State()), path)
    {
      if AsStr(path) == "/" {
        var hadRoot := [] in byPath;
        var root := if hadRoot then byPath[[]] else (0, Directory);
        byPath, byIno := map[], map[];
        if hadRoot {
          byPath := byPath[[] := root];
          byIno := byIno[root.0 := []];
        }
        return;
      }
      ghost var gone := set p | p in byPath && Within(AsStr(p), AsStr(path));
      var removed := set p | p in byPath && Within(AsStr(p), AsStr(path)) :: byPath[p].0;
      assert removed == set p | p in byPath && p in gone :: byPath[p].0;
      byPath := map p | p in byPath && !Within(AsStr(p), AsStr(path)) :: byPath[p];
      assert byPath == old(byPath) - gone;
      ForgetInodes(removed);
    }

    method RemoveBelow(path: MountPath)
      modifies this
      ensures State() == RemoveDescendants(old(State()), path)
    {
      ghost var gone := set p | p in byPath && p != [] && Descends(AsStr(p), AsStr(path));
      var removed := set p | p in byPath && p != [] && Descends(AsStr(p), AsStr(path)) :: byPath[p].0;
      assert removed == set p | p in byPath && p in gone :: byPath[p].0;
      byPath := map p | p in byPath && (p == [] || !Descends(AsStr(p), AsStr(path))) :: byPath[p];
      assert byPath == old(byPath) - gone;
      ForgetInodes(removed);
    }
  }

  // ---- the invariant ----

  /** The maps are inverse to each other, and inodes are numbered below the next one. */
  ghost predicate Inverse(t: Table) {
    && (forall p :: p in t.byPath ==> MountComponents(p) && t.byPath[p].0 in t.byIno && t.byIno[t.byPath[p].0] == p)
    && (forall i :: i in t.byIno ==> i < t.nextIno && t.byIno[i] in t.byPath && t.byPath[t.byIno[i]].0 == i)
  }

  lemma DroppedKeeps(t: Table, gone: set<MountPath>)
    requires Inverse(t)
    ensures Inverse(Dropped(t, gone))
    ensures forall i :: i in Dropped(t, gone).byIno <==> i in t.byIno && t.byIno[i] !in gone
  {
  }

  /** Only the root is left. */
  lemma RootStays(t: Table)
    requires Inverse(t)
    ensures RemoveRecursive(t, []) == Dropped(t, set p | p in t.byPath && p != [])
  {
    EmptyJoin();
    var gone := set p | p in t.byPath && p != [];
    var kept := Dropped(t, gone);
    DroppedKeeps(t, gone);
    assert forall p :: p in kept.byPath <==> p in t.byPath && p == [];
    if [] in t.byPath {
      assert kept.byPath == map[[] := t.byPath[[]]];
      assert forall i :: i in kept.byIno <==> i == t.byPath[[]].0;
      assert kept.byIno == map[t.byPath[[]].0 := []];
    } else {
      assert kept.byPath == map[];
      assert forall i :: i !in kept.byIno;
      assert kept.byIno == map[];
    }
  }

  // ---- runs ----

  datatype Event =
    | Ensured(path: MountPath, kind: Kind)
    | Removed(path: MountPath)
    | TreeRemoved(path: MountPath)
    | BelowRemoved(path: MountPath)

  function Step(t: Table, ev: Event): Table {
    match ev
    case Ensured(path, kind) => Ensure(t, path, kind)
    case Removed(path) => Remove(t, path)
    case TreeRemoved(path) => RemoveRecursive(t, path)
    case BelowRemoved(path) => RemoveDescendants(t, path)
  }

  function Run(t: Table, events: seq<Event>): Table {
    if events == [] then t else Step(Run(t, events[..|events| - 1]), events[|events| - 1])
  }

  predicate Normal(events: seq<Event>) {
    forall n :: 0 <= n < |events| ==> MountComponents(events[n].path)
  }

  /** Every inode of the later table is an old one with its old path, or a new number. */
  ghost predicate Onward(t: Table, t': Table) {
    && t.nextIno <= t'.nextIno
    && forall i :: i in t'.byIno ==> t.nextIno <= i || (i in t.byIno && t.byIno[i] == t'.byIno[i])
  }

  lemma RecursiveIsDropped(t: Table, path: MountPath)
    requires Inverse(t) && MountComponents(path)
    ensures RemoveRecursive(t, path) == Dropped(t, set p | p in t.byPath && path <= p && (path == [] ==> p != []))
  {
    SameText(path, []);
    EmptyJoin();
    if path == [] {
      RootStays(t);
      assert (set p | p in t.byPath && path <= p && (path == [] ==> p != [])) == set p | p in t.byPath && p != [];
    } else {
      forall p | p in t.byPath
        ensures Within(AsStr(p), AsStr(path)) <==> path <= p
      {
        DescendsIsPrefix(p, path);
      }
      assert (set p | p in t.byPath && Within(AsStr(p), AsStr(path))) == set p | p in t.byPath && path <= p &&
             (path == [] ==> p != []);
    }
  }

  lemma DescendantsAreDropped(t: Table, path: MountPath)
    requires Inverse(t) && MountComponents(path)
    ensures RemoveDescendants(t, path) == Dropped(t, set p | p in t.byPath && path < p)
  {
    forall p | p in t.byPath
      ensures p != [] && Descends(AsStr(p), AsStr(path)) <==> path < p
    {
      DescendsIsPrefix(p, path);
    }
    assert (set p | p in t.byPath && p != [] && Descends(AsStr(p), AsStr(path))) == set p | p in t.byPath && path < p;
  }

  lemma StepKeeps(t: Table, ev: Event)
    requires Inverse(t) && MountComponents(ev.path)
    ensures Inverse(Step(t, ev)) && Onward(t, Step(t, ev))
  {
    hide Inverse, Onward, Ensure, Remove, RemoveRecursive, RemoveDescendants;
    match ev
    case Ensured(path, kind) => EnsureKeeps(t, path, kind);
    case Removed(path) => RemoveKeeps(t, path);
    case TreeRemoved(path) =>
      RecursiveIsDropped(t, path);
      DropKeeps(t, set p | p in t.byPath && path <= p && (path == [] ==> p != []));
    case BelowRemoved(path) =>
      DescendantsAreDropped(t, path);
      DropKeeps(t, set p | p in t.byPath && path < p);
  }

  lemma EnsureKeeps(t: Table, path: MountPath, kind: Kind)
    requires Inverse(t) && MountComponents(path)
    ensures Inverse(Ensure(t, path, kind)) && Onward(t, Ensure(t, path, kind))
  {
  }

  lemma DropKeeps(t: Table, gone: set<MountPath>)
    requires Inverse(t)
    ensures Inverse(Dropped(t, gone)) && Onward(t, Dropped(t, gone))
  {
    DroppedKeeps(t, gone);
  }

  lemma RemoveKeeps(t: Table, path: MountPath)
    requires Inverse(t)
    ensures Inverse(Remove(t, path)) && Onward(t, Remove(t, path))
  {
    if path in t.byPath {
      DropKeeps(t, {path});
      assert (set p | p in t.byPath && p in {path} :: t.byPath[p].0) == {t.byPath[path].0};
    }
  }

  lemma {:induction false} RunKeeps(t: Table, events: seq<Event>, n: nat)
    requires Inverse(t) && Normal(events) && n <= |events|
    ensures Inverse(Run(t, events)) && Onward(Run(t, events[..n]), Run(t, events))
  {
    if n == |events| {
      assert events[..n] == events;
    }
    if events != [] {
      var front := events[..|events| - 1];
      assert forall i :: 0 <= i < |front| ==> front[i] == events[i];
      hide Step;
      if n < |events| {
        RunKeeps(t, front, n);
        assert front[..n] == events[..n];
      } else {
        RunKeeps(t, front, |front|);
      }
      StepKeeps(Run(t, front), events[|events| - 1]);
    }
  }

  /** In every run of a mount the two maps are mutually inverse. */
  lemma {:induction false} MapsStayInverse(events: seq<Event>)
    requires Normal(events)
    ensures Inverse(Run(NEW, events))
  {
    RunKeeps(NEW, events, 0);
  }

  /** An inode never stands for two paths: one that was given out and dropped does not come back, and one
      that is still known has the path it had. */
  lemma InodesAreNeverReused(events: seq<Event>, n: nat, ino: nat)
    requires Normal(events) && n <= |events|
    ensures var before := Run(NEW, events[..n]); var now := Run(NEW, events);
            ino < before.nextIno && ino in now.byIno ==> ino in before.byIno && before.byIno[ino] == now.byIno[ino]
  {
    RunKeeps(NEW, events, n);
  }

  /** Removing a tree drops exactly the paths that continue the given one, component by component, and
      their inodes; the root itself is kept. */
  lemma TreeIsRemovedExactly(t: Table, path: MountPath, p: MountPath, ino: nat)
    requires Inverse(t) && MountComponents(path)
    ensures var t' := RemoveRecursive(t, path);
            && (p in t'.byPath <==> p in t.byPath && (p == [] || !(path <= p)))
            && (p in t'.byPath ==> t'.byPath[p] == t.byPath[p])
            && (ino in t'.byIno <==> ino in t.byIno && t.byIno[ino] in t'.byPath)
  {
    RecursiveIsDropped(t, path);
    DroppedKeeps(t, set q | q in t.byPath && path <= q && (path == [] ==> q != []));
  }

  lemma BelowIsRemovedExactly(t: Table, path: MountPath, p: MountPath, ino: nat)
    requires Inverse(t) && MountComponents(path)
    ensures var t' := RemoveDescendants(t, path);
            && (p in t'.byPath <==> p in t.byPath && !(path < p))
            && (p in t'.byPath ==> t'.byPath[p] == t.byPath[p])
            && (ino in t'.byIno <==> ino in t.byIno && t.byIno[ino] in t'.byPath)
  {
    DescendantsAreDropped(t, path);
    DroppedKeeps(t, set q | q in t.byPath && path < q);
  }

  /** A path is given its inode once: a known path keeps the one it has, a new path gets a number that was never
      given out; either way it has the kind asked for, and nothing else changes. */
  lemma EnsureIsExact(t: Table, path: MountPath, kind: Kind, other: MountPath)
    requires Inverse(t)
    ensures var t' := Ensure(t, path, kind);
            && path in t'.byPath && t'.byPath[path].1 == kind
            && t'.byIno[t'.byPath[path].0] == path
            && (if path in t.byPath then t'.byPath[path].0 == t.byPath[path].0 && t'.nextIno == t.nextIno
                else t'.byPath[path].0 !in t.byIno && t'.byPath[path].0 == t.nextIno && t'.nextIno == t.nextIno + 1)
            && (other != path ==> (other in t'.byPath <==> other in t.byPath))
            && (other != path && other in t.byPath ==> t'.byPath[other] == t.byPath[other])
  {
  }

  /** Removing a path takes the path and its inode, and nothing else. */
  lemma RemoveIsExact(t: Table, path: MountPath, p: MountPath, ino: nat)
    requires Inverse(t)
    ensures var t' := Remove(t, path);
            && (p in t'.byPath <==> p in t.byPath && p != path)
            && (p in t'.byPath ==> t'.byPath[p] == t.byPath[p])
            && (ino in t'.byIno <==> ino in t.byIno && t.byIno[ino] != path)
            && t'.nextIno == t.nextIno
  {
  }
}
