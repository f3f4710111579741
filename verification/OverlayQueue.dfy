/** Reads through the overlay while any number of whole-value writes and renames are pending
    (eventfs-fuse/src/fs/queued_overlay.rs): the latest entry that concerns a path decides, and the file
    already shows what the whole queue will have made of it. */
module OverlayQueue {
  import opened Text
  import opened JsonLines
  import opened MemoryStore
  import opened Writeback
  import opened ReplayInvariant
  import opened Paths
  import opened OverlayView
  import Aliases
  import CacheRuns
  import StoreLaws

  // ---- the scan from the latest entry ----

  /** From position `n` on, no entry deletes the path, and none shows it but queued lines if `lines` lets them. */
  ghost predicate Quiet(pending: seq<QueueOperation>, n: nat, path: MountPath, lines: bool) {
    forall m :: n <= m < |pending| ==>
      path !in ChangeOf(pending[m]).deleted &&
      (path in ChangeOf(pending[m]).visible ==> lines && pending[m].PublishJsonLines?)
  }

  lemma QuietFront(pending: seq<QueueOperation>, n: nat, path: MountPath, lines: bool)
    requires n < |pending|
    ensures var last := pending[|pending| - 1];
            Quiet(pending, n, path, lines) <==>
              && Quiet(pending[..|pending| - 1], n, path, lines)
              && path !in ChangeOf(last).deleted
              && (path in ChangeOf(last).visible ==> lines && last.PublishJsonLines?)
  {
    hide ChangeOf;
    var front := pending[..|pending| - 1];
    assert forall m :: n <= m < |front| ==> front[m] == pending[m];
  }

  /** A path is covered exactly when some entry deletes it and no later one deletes or shows it. */
  lemma {:induction false} DeleteCoversExactly(pending: seq<QueueOperation>, path: MountPath)
    ensures LatestDeleteCovers(pending, path) <==>
              exists k ::
                0 <= k < |pending| && path in ChangeOf(pending[k]).deleted && Quiet(pending, k + 1, path, false)
  {
    hide ChangeOf;
    if pending != [] {
      var last := |pending| - 1;
      var front := pending[..last];
      DeleteCoversExactly(front, path);
      assert Quiet(pending, |pending|, path, false);
      if path in ChangeOf(pending[last]).deleted {
        assert Quiet(pending, last + 1, path, false);
      } else {
        forall k | 0 <= k < last
          ensures Quiet(pending, k + 1, path, false) <==>
                    Quiet(front, k + 1, path, false) && path !in ChangeOf(pending[last]).visible
          ensures front[k] == pending[k]
        {
          QuietFront(pending, k + 1, path, false);
        }
      }
    }
  }

  /** Entry `k` decides what a path shows: it shows the path as a whole value, and no later one deletes the path or
      shows it so. */
  ghost predicate Decides(pending: seq<QueueOperation>, k: nat, path: MountPath)
  {
    && k < |pending| && !pending[k].PublishJsonLines?
    && path !in ChangeOf(pending[k]).deleted && path in ChangeOf(pending[k]).visible
    && Quiet(pending, k + 1, path, true)
  }

  lemma DecidesFront(pending: seq<QueueOperation>, path: MountPath, k: nat)
    requires k < |pending| - 1
    ensures var last := pending[|pending| - 1];
            Decides(pending, k, path) <==>
              && Decides(pending[..|pending| - 1], k, path) && path !in ChangeOf(last).deleted
              && (path in ChangeOf(last).visible ==> last.PublishJsonLines?)
  {
    hide ChangeOf;
    QuietFront(pending, k + 1, path, true);
    assert pending[..|pending| - 1][k] == pending[k];
    hide Quiet;
  }

  lemma {:induction false} DeciderShows(pending: seq<QueueOperation>, path: MountPath, k: nat)
    requires Decides(pending, k, path)
    ensures WholeValueSnapshot(pending, path) == Some(pending[k].bytes)
  {
    hide ChangeOf;
    var last := |pending| - 1;
    if k < last {
      DecidesFront(pending, path, k);
      hide Quiet;
      DeciderShows(pending[..last], path, k);
    }
  }

  lemma {:induction false} ShownHasDecider(pending: seq<QueueOperation>, path: MountPath) returns (k: nat)
    requires WholeValueSnapshot(pending, path).Some?
    ensures Decides(pending, k, path)
  {
    hide ChangeOf;
    k := |pending| - 1;
    var op := pending[k];
    if path !in ChangeOf(op).visible || op.PublishJsonLines? {
      hide Quiet;
      k := ShownHasDecider(pending[..|pending| - 1], path);
      DecidesFront(pending, path, k);
    }
  }

  /** The queued bytes of a path are those of the entry that decides; without one there are none. */
  lemma SnapshotIsLatest(pending: seq<QueueOperation>, path: MountPath, k: nat)
    ensures Decides(pending, k, path) ==> WholeValueSnapshot(pending, path) == Some(pending[k].bytes)
    ensures WholeValueSnapshot(pending, path).Some? ==> exists n :: Decides(pending, n, path)
  {
    hide Quiet, ChangeOf, WholeValueSnapshot;
    if Decides(pending, k, path) {
      DeciderShows(pending, path, k);
    }
    if WholeValueSnapshot(pending, path).Some? {
      var n := ShownHasDecider(pending, path);
    }
  }

  // ---- the whole queue ----

  function Operations(rs: seq<Request>): (ops: seq<QueueOperation>)
    requires forall i :: 0 <= i < |rs| ==> !rs[i].operation.Direct?
    ensures |ops| == |rs| && forall i :: 0 <= i < |rs| ==> ops[i] == rs[i].operation
  {
    seq(|rs|, i requires 0 <= i < |rs| => rs[i].operation)
  }

  /** A write of a whole value, or a rename to another place. */
  predicate IsWhole(r: Request) {
    && !r.operation.Direct? && !r.operation.PublishJsonLines?
    && SourceFact(r.operation) != Some(TargetFact(r.operation))
  }

  predicate WholeValues(rs: seq<Request>) {
    forall i :: 0 <= i < |rs| ==> IsWhole(rs[i])
  }

  /** When its turn comes, each rename finds its source as it read it, or gone: nobody else wrote it. */
  ghost predicate RenamesTake(st: Store, rs: seq<Request>)
    requires WholeValues(rs)
  {
    forall i :: 0 <= i < |rs| && SourceFact(rs[i].operation).Some? ==>
      CacheRuns.FactBytes(Fold(st, rs[..i + 1]), SourceFact(rs[i].operation).value) == None
  }

  lemma RenamesFront(st: Store, rs: seq<Request>)
    requires rs != [] && WholeValues(rs) && RenamesTake(st, rs)
    ensures var front, op := rs[..|rs| - 1], rs[|rs| - 1].operation;
            && WholeValues(front) && RenamesTake(st, front)
            && (SourceFact(op).Some? ==> CacheRuns.FactBytes(Fold(st, rs), SourceFact(op).value) == None)
  {
    hide SourceFact, TargetFact, Fold, CacheRuns.FactBytes;
    var front := rs[..|rs| - 1];
    assert rs[..|rs| - 1 + 1] == rs;
    assert forall i :: 0 <= i < |front| ==> front[i] == rs[i] && front[..i + 1] == rs[..i + 1];
  }

  lemma ReadLast(pending: seq<QueueOperation>, path: MountPath, durable: Option<Bytes>)
    requires pending != [] && !pending[|pending| - 1].PublishJsonLines?
    ensures var op := pending[|pending| - 1];
            ReadThrough(pending, path, durable) ==
              if path in ChangeOf(op).deleted then None
              else if path in ChangeOf(op).visible then Some(op.bytes)
              else ReadThrough(pending[..|pending| - 1], path, durable)
  {
    hide ChangeOf;
  }

  lemma ConcernsAre(r: Request, f: StorageFact)
    requires !r.operation.Direct?
    ensures StoreLaws.Writes(r, f) <==> TargetFact(r.operation) == f
    ensures StoreLaws.Removes(r, f) <==> SourceFact(r.operation) == Some(f)
  {
  }

  /** A queue of any length of whole-value writes and renames: the file of a key or object shows through the
      overlay, before anything is replayed, what the store will show once all of it has been applied in order. */
  lemma {:induction false} PendingReadsAsReplayed(st: Store, rs: seq<Request>, path: MountPath, p: JetStreamPath)
    requires WholeValues(rs) && RenamesTake(st, rs)
    requires MountComponents(path) && ParseComponents(path) == Some(p) && Aliases.FactOf(p).Some?
    requires !Aliases.FactOf(p).value.StreamFact?
    ensures var f := Aliases.FactOf(p).value;
            ReadThrough(Operations(rs), path, CacheRuns.FactBytes(st, f)) == CacheRuns.FactBytes(Fold(st, rs), f)
  {
    hide ParseComponents, MountComponents, CacheRuns.FactBytes, Effect, RenamesTake, Aliases.FactOf;
    if rs == [] {
      assert Operations(rs) == [];
    } else {
      var n := |rs| - 1;
      var front, r, f := rs[..n], rs[n], Aliases.FactOf(p).value;
      RenamesFront(st, rs);
      PendingReadsAsReplayed(st, front, path, p);
      assert Operations(rs)[..n] == Operations(front);
      LastReadsAsReplayed(Fold(st, front), r, path, p);
      ReadLast(Operations(rs), path, CacheRuns.FactBytes(st, f));
      hide ReadThrough, ChangeOf, Fold;
    }
  }

  /** One more entry: what it deletes, shows and leaves alone is what its effect removes, writes and keeps. */
  lemma LastReadsAsReplayed(st: Store, r: Request, path: MountPath, p: JetStreamPath)
    requires IsWhole(r)
    requires MountComponents(path) && ParseComponents(path) == Some(p) && Aliases.FactOf(p).Some?
    requires !Aliases.FactOf(p).value.StreamFact?
    ensures var f, change := Aliases.FactOf(p).value, ChangeOf(r.operation);
            && (path in change.deleted ==> SourceFact(r.operation) == Some(f))
            && (path !in change.deleted && path in change.visible ==>
                  CacheRuns.FactBytes(Effect(st, r), f) == Some(r.operation.bytes))
            && (path !in change.deleted && path !in change.visible ==>
                  CacheRuns.FactBytes(Effect(st, r), f) == CacheRuns.FactBytes(st, f))
  {
    hide ParseComponents, MountComponents, CacheRuns.FactBytes, Effect, FactPaths, Aliases.FactOf;
    var f := Aliases.FactOf(p).value;
    ConcernsAre(r, f);
    TargetIsValue(r.operation);
    PathsAreExact(TargetFact(r.operation), path, p);
    if SourceFact(r.operation).Some? {
      PathsAreExact(SourceFact(r.operation).value, path, p);
    }
    if TargetFact(r.operation) == f && SourceFact(r.operation) != Some(f) {
      StoreLaws.EffectShows(st, r, f);
    } else if SourceFact(r.operation) != Some(f) {
      StoreLaws.EffectKeepsFact(st, r, f);
    }
  }

  lemma TargetIsValue(op: QueueOperation)
    requires !op.PublishJsonLines?
    ensures !TargetFact(op).StreamFact? && (SourceFact(op).Some? ==> !SourceFact(op).value.StreamFact?)
    ensures StoreLaws.ShownAfter(None, PutOf(op)) == Some(op.bytes)
  {
  }

  // ---- subjects ----

  /** A subject file is missing exactly when it would be empty, and holds the text of its messages otherwise. */
  lemma SubjectReads(st: Store, render: Message -> Bytes, stream: string, subject: string)
    ensures var text := CacheRuns.SubjectText(Messages(st, stream), subject);
            DurableRead(st, render, StreamSubject(stream, subject)) == if text == "" then None else Some(text)
  {
    StoreLaws.TextTellsMessages(Messages(st, stream), subject);
    hide CacheRuns.SubjectText, Messages;
  }
}
