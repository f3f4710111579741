/** Invalidation plans (eventfs-transport/src/invalidation.rs, with the affected paths of
    eventfs-protocol/src/mount_paths.rs) and the byte cache they act on (eventfs-transport/src/cache.rs). */
module Invalidation {
  import opened Text
  import opened JsonLines
  import opened Paths
  import opened PathLaws
  import opened Aliases

  /** `is_self_or_descendant_of`, on components. */
  predicate Within(path: MountPath, root: MountPath) {
    root <= path
  }

  function AncestorFloor(path: MountPath, reason: Reason): nat {
    if path == [] then 0
    else if path[0] == "kv" || path[0] == "objects" then 2
    else if path[0] == "streams" then 3
    else if path[0] == "tasks" || path[0] == "semantic" then 2
    else if path[0] == "events" then 1
    else if path[0] == "agents" then if reason.Mailbox? then 1 else 2
    else |path|
  }

  /** Ancestors of `path` with lengths in `[floor, length)`, the longest first. */
  function PushAncestorsFrom(paths: seq<AffectedPath>, path: MountPath, floor: nat, length: nat): seq<AffectedPath>
    requires length <= |path|
    decreases length
  {
    if length <= floor then paths
    else PushAncestorsFrom(PushUnique(paths, AffectedPath(path[..length - 1], Ancestor)), path, floor, length - 1)
  }

  function PushAncestors(paths: seq<AffectedPath>, path: MountPath, reason: Reason): seq<AffectedPath> {
    PushAncestorsFrom(paths, path, AncestorFloor(path, reason), |path|)
  }

  /** `push_ancestors`, the loop. */
  method PushAncestorPaths(paths: seq<AffectedPath>, path: MountPath,
                           reason: Reason) returns (result: seq<AffectedPath>)
    ensures result == PushAncestors(paths, path, reason)
  {
    var floor := AncestorFloor(path, reason);
    result := paths;
    if |path| <= floor {
      return;
    }
    var length := |path|;
    while length > floor
      invariant floor <= length <= |path|
      invariant PushAncestorsFrom(result, path, floor, length) == PushAncestors(paths, path, reason)
    {
      length := length - 1;
      result := PushUnique(result, AffectedPath(path[..length], Ancestor));
    }
  }

  /** `invalidation_paths`, given the visible ones. */
  function WithAncestors(paths: seq<AffectedPath>, visible: seq<AffectedPath>): seq<AffectedPath> {
    if visible == [] then paths
    else
      var before := WithAncestors(paths, visible[..|visible| - 1]);
      var a := visible[|visible| - 1];
      PushAncestors(PushUnique(before, a), a.path, a.reason)
  }

  function PushAll(paths: seq<AffectedPath>, more: seq<AffectedPath>): seq<AffectedPath> {
    if more == [] then paths
    else PushUnique(PushAll(paths, more[..|more| - 1]), more[|more| - 1])
  }

  /** `prioritize_source_path`. */
  function Prioritize(paths: seq<AffectedPath>, source: MountPath): seq<AffectedPath> {
    if !Lists(paths, source) then paths
    else
      var i := FirstAt(paths, source);
      PushAll(PushAncestors([paths[i]], source, paths[i].reason), paths)
  }

  function FirstAt(paths: seq<AffectedPath>, path: MountPath): (i: nat)
    requires Lists(paths, path)
    ensures i < |paths| && paths[i].path == path
  {
    if paths[0].path == path then 0
    else
      assert Lists(paths[1..], path) by {
        var i :| 0 <= i < |paths| && paths[i].path == path;
        assert paths[1..][i - 1].path == path;
      }
      1 + FirstAt(paths[1..], path)
  }

  /** `invalidation_paths_for_mount_path` on the components of the mutated path. */
  function AffectedBy(p: JetStreamPath): Option<seq<AffectedPath>> {
    var source := Print(p);
    if source == None then None
    else if FactOf(p).Some? then
      var visible := VisiblePaths(FactOf(p).value);
      if visible == None then None else Some(Prioritize(WithAncestors([], visible.value), source.value))
    else Some(PushAncestors([AffectedPath(source.value, Exact)], source.value, Exact))
  }

  // ---- plans ----

  datatype Scope = ExactEntry | Subtree | All
  datatype Action = Action(path: MountPath, scope: Scope)

  const GAP: seq<Action> := [Action([], All)]

  predicate Matches(path: MountPath, action: Action) {
    match action.scope
    case ExactEntry => path == action.path
    case Subtree => Within(path, action.path)
    case All => path != []
  }

  function ActionFor(a: AffectedPath): Action {
    Action(a.path, if a.reason.Ancestor? then ExactEntry else Subtree)
  }

  /** `from_affected_paths`, without repeated actions. */
  function PlanOf(affected: seq<AffectedPath>): (plan: seq<Action>)
    ensures forall a :: a in plan <==> exists i :: 0 <= i < |affected| && a == ActionFor(affected[i])
  {
    if affected == [] then []
    else
      var before := PlanOf(affected[..|affected| - 1]);
      var a := ActionFor(affected[|affected| - 1]);
      assert forall i :: 0 <= i < |affected| ==>
        (i < |affected| - 1 ==> affected[..|affected| - 1][i] == affected[i]);
      if a in before then before else before + [a]
  }

  /** `invalidate_after_local_mutation`: the plan of a mutated path, or its subtree if planning fails. */
  function LocalPlan(path: MountPath): seq<Action> {
    var p := ParseComponents(path);
    var affected := if p == None then None else AffectedBy(p.value);
    if affected == None then [Action(path, Subtree)] else PlanOf(affected.value)
  }

  predicate Invalidated(path: MountPath, plan: seq<Action>) {
    exists i :: 0 <= i < |plan| && Matches(path, plan[i])
  }

  // ---- the byte cache ----

  /** `apply_invalidation` on entries: `All` clears, the other scopes drop what they match. */
  function Drop(entries: map<MountPath, Bytes>, action: Action): map<MountPath, Bytes> {
    if action.scope.All? then map[]
    else map path | path in entries && !Matches(path, action) :: entries[path]
  }

  function DropAll(entries: map<MountPath, Bytes>, plan: seq<Action>): (kept: map<MountPath, Bytes>)
    ensures forall path :: path in kept ==> path in entries && kept[path] == entries[path]
  {
    if plan == [] then entries else Drop(DropAll(entries, plan[..|plan| - 1]), plan[|plan| - 1])
  }

  function Gaps(plan: seq<Action>): nat {
    if plan == [] then 0 else Gaps(plan[..|plan| - 1]) + if plan[|plan| - 1].scope.All? then 1 else 0
  }

  class LocalCache {
    var entries: map<MountPath, Bytes>
    var generation: nat

    constructor ()
      ensures entries == map[] && generation == 0
    {
      entries, generation := map[], 0;
    }

    method Insert(path: MountPath, bytes: Bytes)
      modifies this
      ensures entries == old(entries)[path := bytes] && generation == old(generation)
    {
      entries := entries[path := bytes];
    }

    method ApplyInvalidation(plan: seq<Action>)
      modifies this
      ensures entries == DropAll(old(entries), plan)
      ensures generation == old(generation) + Gaps(plan)
    {
      for n := 0 to |plan|
        invariant entries == DropAll(old(entries), plan[..n])
        invariant generation == old(generation) + Gaps(plan[..n])
      {
        assert plan[..n + 1][..n] == plan[..n];
        var action := plan[n];
        if action.scope.All? {
          generation := generation + 1;
          entries := map[];
        } else {
          entries := map path | path in entries && !Matches(path, action) :: entries[path];
        }
      }
      assert plan[..|plan|] == plan;
    }
  }

  lemma {:induction false} DroppedIfInvalidated(entries: map<MountPath, Bytes>, plan: seq<Action>, path: MountPath)
    requires path != []
    ensures path in DropAll(entries, plan) <==> path in entries && !Invalidated(path, plan)
  {
    if plan != [] {
      var front, last := plan[..|plan| - 1], plan[|plan| - 1];
      DroppedIfInvalidated(entries, front, path);
      assert forall i :: 0 <= i < |front| ==> front[i] == plan[i];
      assert Invalidated(path, plan) <==> Invalidated(path, front) || Matches(path, last);
    }
  }

  // ---- a local mutation reaches every alias ----

  lemma {:induction false} AncestorsKeep(paths: seq<AffectedPath>, path: MountPath, floor: nat, length: nat,
                                         listed: MountPath)
    requires length <= |path| && Lists(paths, listed)
    ensures Lists(PushAncestorsFrom(paths, path, floor, length), listed)
    decreases length
  {
    if length > floor {
      PushLists(paths, AffectedPath(path[..length - 1], Ancestor), listed);
      AncestorsKeep(PushUnique(paths, AffectedPath(path[..length - 1], Ancestor)), path, floor, length - 1, listed);
    }
  }

  lemma {:induction false} WithAncestorsKeeps(visible: seq<AffectedPath>, listed: MountPath)
    requires Lists(visible, listed)
    ensures Lists(WithAncestors([], visible), listed)
  {
    var front, a := visible[..|visible| - 1], visible[|visible| - 1];
    var before := WithAncestors([], front);
    if a.path != listed {
      var i :| 0 <= i < |visible| && visible[i].path == listed;
      assert front[i].path == listed;
      WithAncestorsKeeps(front, listed);
    }
    PushLists(before, a, listed);
    AncestorsKeep(PushUnique(before, a), a.path, AncestorFloor(a.path, a.reason), |a.path|, listed);
  }

  lemma {:induction false} PushAllLists(paths: seq<AffectedPath>, more: seq<AffectedPath>, listed: MountPath)
    requires Lists(paths, listed) || Lists(more, listed)
    ensures Lists(PushAll(paths, more), listed)
  {
    if more != [] {
      var front, a := more[..|more| - 1], more[|more| - 1];
      if Lists(paths, listed) || a.path != listed {
        if !Lists(paths, listed) {
          var i :| 0 <= i < |more| && more[i].path == listed;
          assert front[i].path == listed;
        }
        PushAllLists(paths, front, listed);
      }
      PushLists(PushAll(paths, front), a, listed);
    }
  }

  lemma PrioritizeKeeps(paths: seq<AffectedPath>, source: MountPath, listed: MountPath)
    requires Lists(paths, listed)
    ensures Lists(Prioritize(paths, source), listed)
  {
    if Lists(paths, source) {
      var i := FirstAt(paths, source);
      PushAllLists(PushAncestors([paths[i]], source, paths[i].reason), paths, listed);
    }
  }

  lemma ListedIsInvalidated(affected: seq<AffectedPath>, path: MountPath)
    requires Lists(affected, path)
    ensures Invalidated(path, PlanOf(affected))
  {
    var i :| 0 <= i < |affected| && affected[i].path == path;
    var a := ActionFor(affected[i]);
    assert a in PlanOf(affected) && Matches(path, a);
    var j :| 0 <= j < |PlanOf(affected)| && PlanOf(affected)[j] == a;
  }

  /** Mutating one mount path invalidates every path, under any alias, that shows the same storage fact. */
  lemma MutationReachesAliases(mutated: MountPath, p: JetStreamPath, other: MountPath, q: JetStreamPath)
    requires MountComponents(mutated) && ParseComponents(mutated) == Some(p)
    requires MountComponents(other) && ParseComponents(other) == Some(q)
    requires FactOf(p).Some? && FactOf(q) == FactOf(p) && OneSpelling(q)
    ensures Invalidated(other, LocalPlan(mutated))
  {
    hide ParseComponents, Print, VisiblePaths, PlanOf, WithAncestors, Prioritize;
    VisiblePathsExist(other, q);
    VisiblePathsExist(mutated, p);
    VisiblePathsAreComplete(other);
    PrintInvertsParse(other);
    ParsePrintComponents(mutated);
    var visible, source := VisiblePaths(FactOf(p).value).value, Print(p).value;
    WithAncestorsKeeps(visible, other);
    PrioritizeKeeps(WithAncestors([], visible), source, other);
    ListedIsInvalidated(Prioritize(WithAncestors([], visible), source), other);
  }

  // ---- a local mutation reaches the directories above, and nothing else ----

  /** `q` is the path itself or a directory above it that is not above the floor. */
  predicate Reaches(a: AffectedPath, q: MountPath) {
    q == a.path || (q <= a.path && AncestorFloor(a.path, a.reason) <= |q| < |a.path|)
  }

  lemma PushedExactly(paths: seq<AffectedPath>, a: AffectedPath, q: MountPath)
    ensures Lists(PushUnique(paths, a), q) <==> q == a.path || Lists(paths, q)
  {
    if q == a.path || Lists(paths, q) {
      PushLists(paths, a, q);
    }
  }

  lemma {:induction false} AncestorsExactly(paths: seq<AffectedPath>, path: MountPath, floor: nat, length: nat,
                                            q: MountPath)
    requires length <= |path|
    ensures Lists(PushAncestorsFrom(paths, path, floor, length), q) <==>
              Lists(paths, q) || (q <= path && floor <= |q| < length)
    decreases length
  {
    if length > floor {
      var a := AffectedPath(path[..length - 1], Ancestor);
      PushedExactly(paths, a, q);
      AncestorsExactly(PushUnique(paths, a), path, floor, length - 1, q);
      hide PushUnique, Lists;
    }
  }

  lemma OneMoreExactly(before: seq<AffectedPath>, a: AffectedPath, q: MountPath)
    ensures Lists(PushAncestors(PushUnique(before, a), a.path, a.reason), q) <==> Lists(before, q) || Reaches(a, q)
  {
    PushedExactly(before, a, q);
    AncestorsExactly(PushUnique(before, a), a.path, AncestorFloor(a.path, a.reason), |a.path|, q);
    hide Lists, PushUnique, AncestorFloor;
  }

  ghost predicate SomeReaches(visible: seq<AffectedPath>, q: MountPath) {
    exists v :: v in visible && Reaches(v, q)
  }

  lemma SomeReachesLast(visible: seq<AffectedPath>, q: MountPath)
    requires visible != []
    ensures var n := |visible| - 1;
            SomeReaches(visible, q) <==> SomeReaches(visible[..n], q) || Reaches(visible[n], q)
  {
    hide Reaches;
    assert forall v :: v in visible <==> v in visible[..|visible| - 1] || v == visible[|visible| - 1];
  }

  lemma WithAncestorsLast(visible: seq<AffectedPath>)
    requires visible != []
    ensures var n := |visible| - 1;
            WithAncestors([], visible) ==
            PushAncestors(PushUnique(WithAncestors([], visible[..n]), visible[n]), visible[n].path, visible[n].reason)
  {
    hide PushAncestors, PushUnique;
  }

  lemma {:induction false} WithAncestorsExactly(visible: seq<AffectedPath>, q: MountPath)
    ensures Lists(WithAncestors([], visible), q) <==> SomeReaches(visible, q)
  {
    if visible != [] {
      hide SomeReaches, PushAncestors, PushUnique, Lists, Reaches, WithAncestors;
      var n := |visible| - 1;
      WithAncestorsExactly(visible[..n], q);
      WithAncestorsLast(visible);
      OneMoreExactly(WithAncestors([], visible[..n]), visible[n], q);
      SomeReachesLast(visible, q);
    }
  }

  lemma {:induction false} PushAllExactly(paths: seq<AffectedPath>, more: seq<AffectedPath>, q: MountPath)
    ensures Lists(PushAll(paths, more), q) <==> Lists(paths, q) || Lists(more, q)
  {
    if more != [] {
      var n := |more| - 1;
      PushAllExactly(paths, more[..n], q);
      PushedExactly(PushAll(paths, more[..n]), more[n], q);
      assert forall i :: 0 <= i < n ==> more[..n][i] == more[i];
    }
  }

  lemma PrioritizeExactly(paths: seq<AffectedPath>, source: MountPath, q: MountPath)
    ensures Lists(Prioritize(paths, source), q) <==>
              Lists(paths, q) || (Lists(paths, source) && Reaches(paths[FirstAt(paths, source)], q))
  {
    if Lists(paths, source) {
      var a := paths[FirstAt(paths, source)];
      var first := PushAncestors([a], source, a.reason);
      PushAllExactly(first, paths, q);
      AncestorsExactly([a], source, AncestorFloor(source, a.reason), |source|, q);
      assert Lists([a], q) <==> q == a.path by { assert [a][0] == a; }
    }
  }

  // ---- exactly what a plan drops ----

  /** An affected path is one of the fact's own, or a directory above one, marked as such. */
  ghost predicate Justified(visible: seq<AffectedPath>, a: AffectedPath) {
    exists v :: v in visible && (a == v || (a.reason.Ancestor? && Reaches(v, a.path) && a.path != v.path))
  }

  ghost predicate AllJustified(visible: seq<AffectedPath>, paths: seq<AffectedPath>) {
    forall a :: a in paths ==> Justified(visible, a)
  }

  lemma PushJustified(visible: seq<AffectedPath>, paths: seq<AffectedPath>, a: AffectedPath)
    requires AllJustified(visible, paths) && Justified(visible, a)
    ensures AllJustified(visible, PushUnique(paths, a))
  {
    hide Justified;
  }

  /** Directories above a justified path are justified. */
  lemma AboveIsJustified(visible: seq<AffectedPath>, a: AffectedPath, n: nat)
    requires Justified(visible, a) && AncestorFloor(a.path, a.reason) <= n < |a.path|
    ensures Justified(visible, AffectedPath(a.path[..n], Ancestor))
  {
    var v :| v in visible && (a == v || (a.reason.Ancestor? && Reaches(v, a.path) && a.path != v.path));
    assert a.path[..n] <= v.path;
    assert a.path[0] == v.path[0];
    assert Reaches(v, a.path[..n]) && a.path[..n] != v.path;
  }

  lemma {:induction false} AncestorsJustified(visible: seq<AffectedPath>, paths: seq<AffectedPath>, a: AffectedPath,
                                              length: nat)
    requires AllJustified(visible, paths) && Justified(visible, a) && length <= |a.path|
    ensures AllJustified(visible, PushAncestorsFrom(paths, a.path, AncestorFloor(a.path, a.reason), length))
    decreases length
  {
    hide Justified, AllJustified, PushUnique, AncestorFloor;
    if length > AncestorFloor(a.path, a.reason) {
      var above := AffectedPath(a.path[..length - 1], Ancestor);
      AboveIsJustified(visible, a, length - 1);
      PushJustified(visible, paths, above);
      AncestorsJustified(visible, PushUnique(paths, above), a, length - 1);
    }
  }

  lemma OneMoreJustified(visible: seq<AffectedPath>, before: seq<AffectedPath>, a: AffectedPath)
    requires AllJustified(visible, before) && a in visible
    ensures AllJustified(visible, PushAncestors(PushUnique(before, a), a.path, a.reason))
  {
    assert Justified(visible, a);
    hide Justified, AllJustified, PushUnique, AncestorFloor;
    PushJustified(visible, before, a);
    AncestorsJustified(visible, PushUnique(before, a), a, |a.path|);
  }

  lemma {:induction false} WithAncestorsJustified(visible: seq<AffectedPath>, some: seq<AffectedPath>)
    requires forall a :: a in some ==> a in visible
    ensures AllJustified(visible, WithAncestors([], some))
  {
    if some != [] {
      hide Justified, AllJustified, PushUnique, PushAncestors, WithAncestors;
      var n := |some| - 1;
      WithAncestorsJustified(visible, some[..n]);
      WithAncestorsLast(some);
      OneMoreJustified(visible, WithAncestors([], some[..n]), some[n]);
    }
  }

  lemma {:induction false} PushAllJustified(visible: seq<AffectedPath>, paths: seq<AffectedPath>,
                                            more: seq<AffectedPath>)
    requires AllJustified(visible, paths) && AllJustified(visible, more)
    ensures AllJustified(visible, PushAll(paths, more))
  {
    if more != [] {
      var n := |more| - 1;
      assert forall a :: a in more[..n] ==> a in more;
      assert Justified(visible, more[n]);
      hide Justified, PushUnique;
      PushAllJustified(visible, paths, more[..n]);
      PushJustified(visible, PushAll(paths, more[..n]), more[n]);
    }
  }

  lemma PrioritizeJustified(visible: seq<AffectedPath>, paths: seq<AffectedPath>, source: MountPath)
    requires AllJustified(visible, paths)
    ensures AllJustified(visible, Prioritize(paths, source))
  {
    if Lists(paths, source) {
      var a := paths[FirstAt(paths, source)];
      assert a in paths && Justified(visible, a);
      assert AllJustified(visible, [a]);
      AncestorsJustified(visible, [a], a, |a.path|);
      PushAllJustified(visible, PushAncestors([a], source, a.reason), paths);
    }
  }

  /** The paths of a fact lie under different first components, and none is listed as a mere ancestor. */
  ghost predicate Apart(visible: seq<AffectedPath>) {
    && (forall v :: v in visible ==> v.path != [] && !v.reason.Ancestor?)
    && forall v, u :: v in visible && u in visible && v.path[0] == u.path[0] ==> v == u
  }

  /** The path, if there is one, starts with one of the names. */
  predicate StartsIn(path: Option<MountPath>, names: set<string>) {
    path.Some? ==> path.value != [] && path.value[0] in names
  }

  lemma Heads(f: StorageFact)
    ensures StartsIn(ExactPath(f), {"kv", "streams", "objects"})
    ensures f.KvFact? && KvAlias(f.bucket, f.key).Some? ==>
              StartsIn(KvAlias(f.bucket, f.key).value, {"tasks", "agents", "semantic"})
    ensures f.StreamFact? && EventAlias(f.stream, f.subject).Some? ==>
              StartsIn(EventAlias(f.stream, f.subject).value, {"events"})
    ensures f.StreamFact? && MailboxAlias(f.stream, f.subject).Some? ==>
              StartsIn(MailboxAlias(f.stream, f.subject).value, {"agents"})
  {
    hide Split, Join, IsReserved, AgentAliasParts, MailboxParts, MountComponents;
  }

  lemma PushApart(visible: seq<AffectedPath>, a: AffectedPath)
    requires Apart(visible) && a.path != [] && !a.reason.Ancestor?
    requires forall v :: v in visible ==> v.path != [] && v.path[0] != a.path[0]
    ensures Apart(PushUnique(visible, a))
    ensures forall v :: v in PushUnique(visible, a) ==> v in visible || v == a
  {
  }

  lemma VisibleApart(f: StorageFact)
    requires VisiblePaths(f).Some?
    ensures Apart(VisiblePaths(f).value)
  {
    Heads(f);
    hide ExactPath, KvAlias, EventAlias, MailboxAlias, PushUnique, Apart;
    var none: seq<AffectedPath> := [];
    assert Apart(none) by { NothingApart(); }
    var exact := AffectedPath(ExactPath(f).value, Exact);
    PushApart(none, exact);
    var first := PushUnique(none, exact);
    match f
    case KvFact(b, key) =>
      if KvAlias(b, key).Some? {
        PushApart(first, AffectedPath(KvAlias(b, key).value.value, Alias));
      }
    case StreamFact(s, subject) =>
      var second := first;
      if EventAlias(s, subject).Some? {
        var event := AffectedPath(EventAlias(s, subject).value.value, Alias);
        PushApart(first, event);
        second := PushUnique(first, event);
      }
      if MailboxAlias(s, subject).Some? {
        PushApart(second, AffectedPath(MailboxAlias(s, subject).value.value, Mailbox));
      }
    case ObjectFact(_, _) =>
  }

  lemma NothingApart()
    ensures Apart([])
  {
  }

  /** Mutating a path invalidates exactly the subtree of every path of its fact and the directories above each of
      them, down to the floor of the surface. */
  lemma MutationInvalidatesExactly(mutated: MountPath, p: JetStreamPath, visible: seq<AffectedPath>, q: MountPath)
    requires ParseComponents(mutated) == Some(p) && Print(p).Some? && FactOf(p).Some?
    requires VisiblePaths(FactOf(p).value) == Some(visible)
    ensures Invalidated(q, LocalPlan(mutated)) <==> exists v :: v in visible && (v.path <= q || Reaches(v, q))
  {
    var source, paths := Print(p).value, WithAncestors([], visible);
    var affected := Prioritize(paths, source);
    assert LocalPlan(mutated) == PlanOf(affected);
    VisibleApart(FactOf(p).value);
    hide ParseComponents, Print, VisiblePaths, FactOf, WithAncestors, Prioritize, PlanOf, AncestorFloor, LocalPlan;
    WithAncestorsJustified(visible, visible);
    PrioritizeJustified(visible, paths, source);
    if Invalidated(q, PlanOf(affected)) {
      InvalidatedIsJustified(visible, affected, q);
    }
    if v :| v in visible && (v.path <= q || Reaches(v, q)) {
      var at := if Reaches(v, q) then q else v.path;
      WithAncestorsExactly(visible, at);
      PrioritizeExactly(paths, source, at);
      assert SomeReaches(visible, at);
      if Reaches(v, q) {
        ListedIsInvalidated(affected, q);
      } else {
        SubtreeIsInvalidated(visible, affected, v, q);
      }
    }
  }

  lemma InvalidatedIsJustified(visible: seq<AffectedPath>, affected: seq<AffectedPath>, q: MountPath)
    requires Apart(visible) && AllJustified(visible, affected) && Invalidated(q, PlanOf(affected))
    ensures exists v :: v in visible && (v.path <= q || Reaches(v, q))
  {
    hide Reaches;
    var i :| 0 <= i < |PlanOf(affected)| && Matches(q, PlanOf(affected)[i]);
    assert PlanOf(affected)[i] in PlanOf(affected);
    var j :| 0 <= j < |affected| && PlanOf(affected)[i] == ActionFor(affected[j]);
    var a := affected[j];
    assert Justified(visible, a);
    var v :| v in visible && (a == v || (a.reason.Ancestor? && Reaches(v, a.path) && a.path != v.path));
    assert v.path <= q || Reaches(v, q);
  }

  lemma SubtreeIsInvalidated(visible: seq<AffectedPath>, affected: seq<AffectedPath>, v: AffectedPath, q: MountPath)
    requires Apart(visible) && AllJustified(visible, affected) && v in visible && Lists(affected, v.path) && v.path <= q
    ensures Invalidated(q, PlanOf(affected))
  {
    var i :| 0 <= i < |affected| && affected[i].path == v.path;
    var a := affected[i];
    assert Justified(visible, a);
    var u :| u in visible && (a == u || (a.reason.Ancestor? && Reaches(u, a.path) && a.path != u.path));
    assert u.path[0] == v.path[0];
    assert a == v;
    assert ActionFor(a) in PlanOf(affected);
    var j :| 0 <= j < |PlanOf(affected)| && PlanOf(affected)[j] == ActionFor(a);
    assert Matches(q, PlanOf(affected)[j]);
  }
}
