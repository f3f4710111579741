/** What a user sees while one whole-value write or rename is pending (eventfs-fuse/src/fs/mount_projection.rs and
    queued_overlay.rs over the in-memory store). The reads and the listings through the overlay are already
    those of the store after replay, and they do not move at any step of that replay. */
module OverlayView {
  import opened Text
  import opened JsonLines
  import opened MemoryStore
  import opened Writeback
  import opened Paths
  import opened PathLaws
  import opened Overlay
  import Aliases
  import CacheRuns

  type StorageFact = Aliases.StorageFact

  // ---- the pending change of one entry ----

  function SourceFact(op: QueueOperation): Option<StorageFact> {
    match op
    case KvRenameComplete(b, key, _, _, _, _) => Some(Aliases.KvFact(b, key))
    case ObjectRenameComplete(b, name, _, _, _, _, _) => Some(Aliases.ObjectFact(b, name))
    case _ => None
  }

  function TargetFact(op: QueueOperation): StorageFact {
    CacheRuns.FactWritten(PutOf(op))
  }

  function PathsOnly(paths: seq<Aliases.AffectedPath>): (r: seq<MountPath>)
    ensures |r| == |paths| && forall i :: 0 <= i < |r| ==> r[i] == paths[i].path
  {
    seq(|paths|, i requires 0 <= i < |paths| => paths[i].path)
  }

  /** `storage_fact_visible_paths`. */
  function FactPaths(f: StorageFact): seq<MountPath> {
    var paths := Aliases.VisiblePaths(f);
    if paths == None then [] else PathsOnly(paths.value)
  }

  /** `queue_entry_pending_overlay`. */
  function ChangeOf(op: QueueOperation): Change {
    Change(if SourceFact(op).Some? then FactPaths(SourceFact(op).value) else [], FactPaths(TargetFact(op)))
  }

  // ---- reads ----

  predicate HasSubject(messages: seq<Message>, subject: string) {
    exists i :: 0 <= i < |messages| && messages[i].subject == subject
  }

  /** A read that the overlay leaves to the store. */
  function DurableRead(st: Store, render: Message -> Bytes, p: JetStreamPath): Option<Bytes> {
    match p
    case StreamSubject(s, subject) =>
      if HasSubject(Messages(st, s), subject) then Some(CacheRuns.SubjectText(Messages(st, s), subject)) else None
    case _ => CacheRuns.Shown(st, render, p)
  }

  /** `latest_delete_covers`, scanned from the latest entry. */
  predicate LatestDeleteCovers(pending: seq<QueueOperation>, path: MountPath) {
    pending != [] &&
    var op := pending[|pending| - 1];
    path in ChangeOf(op).deleted ||
    (path !in ChangeOf(op).visible && LatestDeleteCovers(pending[..|pending| - 1], path))
  }

  /** `whole_value_snapshot`, scanned from the latest entry; queued JSON lines are passed over. */
  function WholeValueSnapshot(pending: seq<QueueOperation>, path: MountPath): Option<Bytes> {
    if pending == [] then None
    else
      var op := pending[|pending| - 1];
      if path in ChangeOf(op).deleted then None
      else if path in ChangeOf(op).visible && !op.PublishJsonLines? then Some(op.bytes)
      else WholeValueSnapshot(pending[..|pending| - 1], path)
  }

  /** `read_snapshot` with whole-value entries pending: a deleted path is missing, a visible one shows the
      queued bytes, anything else is read from the store. */
  function ReadThrough(pending: seq<QueueOperation>, path: MountPath, durable: Option<Bytes>): Option<Bytes> {
    if LatestDeleteCovers(pending, path) then None
    else if WholeValueSnapshot(pending, path).Some? then WholeValueSnapshot(pending, path)
    else durable
  }

  function Read(st: Store, render: Message -> Bytes, pending: seq<QueueOperation>, path: MountPath,
                p: JetStreamPath): Option<Bytes> {
    ReadThrough(pending, path, DurableRead(st, render, p))
  }

  /** Nobody else wrote: the rename source is still the one it read, or gone; a put that happened shows. */
  predicate Undisturbed(st: Store, op: QueueOperation, key: string) {
    && !op.PublishJsonLines?
    && SourceFact(op) != Some(TargetFact(op))
    && (PutApplied(st, PutOf(op), key) ==> CacheRuns.FactBytes(st, TargetFact(op)) == Some(op.bytes))
    && (SourceFact(op).Some? && DeleteApplied(st, DeleteOf(op)) ==>
      CacheRuns.FactBytes(st, SourceFact(op).value) == None)
  }

  function AfterPut(st: Store, op: QueueOperation, key: string): Store {
    PutIdempotent(st, PutOf(op), key)
  }

  function AfterDelete(st: Store, op: QueueOperation, key: string): Store {
    DeleteIf(AfterPut(st, op, key), DeleteOf(op))
  }

  /** A path is among those of a whole-value fact exactly when it shows that fact. */
  lemma PathsAreExact(f: StorageFact, path: MountPath, p: JetStreamPath)
    requires MountComponents(path) && ParseComponents(path) == Some(p) && !f.StreamFact?
    requires Aliases.FactOf(p).Some?
    ensures path in FactPaths(f) <==> Aliases.FactOf(p) == Some(f)
  {
    hide ParseComponents, Aliases.VisiblePaths, Print;
    var paths := Aliases.VisiblePaths(f);
    if Aliases.FactOf(p) == Some(f) {
      Aliases.ValuePathsExist(path, p);
      Aliases.VisiblePathsAreComplete(path);
      PrintInvertsParse(path);
      var i :| 0 <= i < |paths.value| && paths.value[i].path == path;
      assert FactPaths(f)[i] == path;
    } else if path in FactPaths(f) {
      var i :| 0 <= i < |FactPaths(f)| && FactPaths(f)[i] == path;
      Aliases.VisiblePathsShowFact(f, i);
    }
  }

  /** A fact with a file of its own: the key or object name is one the path grammar accepts. */
  predicate HasFile(f: StorageFact) {
    && Aliases.ExactPath(f).Some? && MountComponents(Aliases.ExactPath(f).value)
    && ParseComponents(Aliases.ExactPath(f).value).Some?
    && Aliases.FactOf(ParseComponents(Aliases.ExactPath(f).value).value) == Some(f)
  }

  lemma AliasHead(b: string, key: string)
    requires Aliases.KvAlias(b, key).Some? && Aliases.KvAlias(b, key).value.Some?
    ensures var path := Aliases.KvAlias(b, key).value.value; path != [] && path[0] in {"tasks", "agents", "semantic"}
  {
  }

  /** The first path is the exact one; the others belong to the materialized surfaces. */
  lemma ListedShapes(f: StorageFact)
    requires !f.StreamFact? && Aliases.VisiblePaths(f).Some?
    ensures FactPaths(f) != [] && Aliases.ExactPath(f) == Some(FactPaths(f)[0])
    ensures forall i :: 1 <= i < |FactPaths(f)| ==>
              FactPaths(f)[i] != [] && FactPaths(f)[i][0] in {"tasks", "agents", "semantic"}
  {
    hide Aliases.ExactPath, Aliases.KvAlias;
    if f.KvFact? && Aliases.KvAlias(f.bucket, f.key).Some? {
      AliasHead(f.bucket, f.key);
    }
  }

  lemma OtherSurface(path: MountPath)
    requires path != [] && path[0] in {"tasks", "agents", "semantic"} && ParseComponents(path).Some?
    ensures !ParseComponents(path).value.KvRevision? && !ParseComponents(path).value.StreamMessage?
  {
  }

  /** Revisions and stream messages are not paths of a whole-value fact. */
  lemma FixedFilesNotListed(f: StorageFact, path: MountPath, p: JetStreamPath)
    requires ParseComponents(path) == Some(p) && !f.StreamFact? && HasFile(f)
    requires p.KvRevision? || p.StreamMessage?
    ensures path !in FactPaths(f)
  {
    if path in FactPaths(f) {
      ListedShapes(f);
      var i :| 0 <= i < |FactPaths(f)| && FactPaths(f)[i] == path;
      hide ParseComponents, FactPaths;
      if i > 0 {
        OtherSurface(path);
      }
    }
  }

  // ---- the store during the replay ----

  lemma FactsAfterPut(st: Store, op: QueueOperation, key: string, f: StorageFact)
    requires Undisturbed(st, op, key)
    ensures CacheRuns.FactBytes(AfterPut(st, op, key), f) == if f == TargetFact(op) then Some(op.bytes)
            else CacheRuns.FactBytes(st, f)
  {
    if f != TargetFact(op) {
      CacheRuns.PutKeepsOtherFacts(st, PutOf(op), key, f);
    }
  }

  lemma SourceUntouched(st: Store, op: QueueOperation, key: string)
    requires Undisturbed(st, op, key) && SourceFact(op).Some?
    ensures DeleteApplied(AfterPut(st, op, key), DeleteOf(op)) == DeleteApplied(st, DeleteOf(op))
  {
  }

  lemma DeleteTakesSource(st: Store, op: QueueOperation, f: StorageFact)
    requires SourceFact(op).Some?
    ensures CacheRuns.FactBytes(DeleteIf(st, DeleteOf(op)), f) ==
            if SourceFact(op) == Some(f) && !DeleteApplied(st, DeleteOf(op)) then None else CacheRuns.FactBytes(st, f)
  {
    hide CacheRuns.SubjectText;
  }

  lemma FactsAfterDelete(st: Store, op: QueueOperation, key: string, f: StorageFact)
    requires Undisturbed(st, op, key)
    ensures CacheRuns.FactBytes(AfterDelete(st, op, key), f) ==
            if f == TargetFact(op) then Some(op.bytes) else if SourceFact(op) == Some(f) then None
              else CacheRuns.FactBytes(st, f)
  {
    hide AfterPut, CacheRuns.SubjectText, PutApplied;
    FactsAfterPut(st, op, key, f);
    if SourceFact(op).Some? {
      SourceUntouched(st, op, key);
      FactsAfterPut(st, op, key, SourceFact(op).value);
      DeleteTakesSource(AfterPut(st, op, key), op, f);
    }
    hide CacheRuns.FactBytes;
  }

  /** The pending view of a file with a storage fact, at any step: the target shows the queued bytes,
      the source is gone and everything else is as stored. */
  lemma PendingRead(st: Store, render: Message -> Bytes, op: QueueOperation, path: MountPath, p: JetStreamPath)
    requires !op.PublishJsonLines? && SourceFact(op) != Some(TargetFact(op))
    requires MountComponents(path) && ParseComponents(path) == Some(p) && Aliases.FactOf(p).Some?
    ensures Read(st, render, [op], path, p) ==
            if SourceFact(op) == Aliases.FactOf(p) then None
            else if Aliases.FactOf(p) == Some(TargetFact(op)) then Some(op.bytes)
            else DurableRead(st, render, p)
  {
    hide ParseComponents, DurableRead, FactPaths;
    PathsAreExact(TargetFact(op), path, p);
    if SourceFact(op).Some? {
      PathsAreExact(SourceFact(op).value, path, p);
    }
    ReadOne(op, path, DurableRead(st, render, p));
  }

  lemma ReadOne(op: QueueOperation, path: MountPath, durable: Option<Bytes>)
    requires !op.PublishJsonLines?
    ensures ReadThrough([op], path, durable) ==
            if path in ChangeOf(op).deleted then None else if path in ChangeOf(op).visible then Some(op.bytes)
              else durable
  {
    hide ChangeOf;
    assert WholeValueSnapshot([op][..0], path) == None && !LatestDeleteCovers([op][..0], path);
  }

  lemma StreamsKept(st: Store, op: QueueOperation, key: string)
    requires !op.PublishJsonLines?
    ensures AfterPut(st, op, key).streams == AfterDelete(st, op, key).streams == st.streams
  {
  }

  /** What a file shows once the operation was applied. */
  function Settled(st: Store, render: Message -> Bytes, op: QueueOperation, p: JetStreamPath): Option<Bytes> {
    if SourceFact(op).Some? && SourceFact(op) == Aliases.FactOf(p) then None
    else if Aliases.FactOf(p) == Some(TargetFact(op)) then Some(op.bytes)
    else DurableRead(st, render, p)
  }

  lemma ReadIsSettled(st: Store, render: Message -> Bytes, op: QueueOperation, path: MountPath, p: JetStreamPath)
    requires !op.PublishJsonLines? && SourceFact(op) != Some(TargetFact(op))
    requires HasFile(TargetFact(op)) && (SourceFact(op).Some? ==> HasFile(SourceFact(op).value))
    requires MountComponents(path) && ParseComponents(path) == Some(p)
    requires Aliases.FactOf(p).Some? || p.StreamMessage? || p.KvRevision?
    ensures Read(st, render, [op], path, p) == Settled(st, render, op, p)
  {
    if Aliases.FactOf(p).Some? {
      PendingRead(st, render, op, path, p);
    } else {
      hide ParseComponents, HasFile, FactPaths, DurableRead;
      FixedFilesNotListed(TargetFact(op), path, p);
      if SourceFact(op).Some? {
        FixedFilesNotListed(SourceFact(op).value, path, p);
      }
      ReadOne(op, path, DurableRead(st, render, p));
    }
  }

  /** Later stores settle to the same bytes, and the last one shows them without the overlay. */
  lemma StoresSettleAlike(st: Store, render: Message -> Bytes, op: QueueOperation, key: string, p: JetStreamPath)
    requires Undisturbed(st, op, key) && !p.KvRevision?
    ensures Settled(AfterPut(st, op, key), render, op, p) == Settled(st, render, op, p)
    ensures Settled(AfterDelete(st, op, key), render, op, p) == Settled(st, render, op, p)
    ensures DurableRead(AfterDelete(st, op, key), render, p) == Settled(st, render, op, p)
  {
    hide AfterPut, AfterDelete, DurableRead, Aliases.FactOf, Settled;
    var f := Aliases.FactOf(p);
    if f.Some? && !f.value.StreamFact? {
      ValuesSettleAlike(st, render, op, key, p);
    } else {
      hide Undisturbed;
      UndisturbedIsValue(st, op, key);
      StreamsSettleAlike(st, AfterPut(st, op, key), AfterDelete(st, op, key), render, op, key, p);
    }
  }

  lemma StreamsSettleAlike(st: Store, mid: Store, end: Store, render: Message -> Bytes, op: QueueOperation,
                           key: string, p: JetStreamPath)
    requires !op.PublishJsonLines? && mid == AfterPut(st, op, key) && end == AfterDelete(st, op, key) && !p.KvRevision?
    requires Aliases.FactOf(p).Some? ==> Aliases.FactOf(p).value.StreamFact?
    ensures Settled(mid, render, op, p) == Settled(st, render, op, p) == Settled(end, render, op, p) ==
            DurableRead(end, render, p)
  {
    StreamsKept(st, op, key);
    hide AfterPut, AfterDelete, DurableRead, Aliases.FactOf;
    StreamRead(st, mid, render, p);
    StreamRead(st, end, render, p);
    TargetIsValue(op);
    hide TargetFact, SourceFact;
  }

  lemma ValuesSettleAlike(st: Store, render: Message -> Bytes, op: QueueOperation, key: string, p: JetStreamPath)
    requires Undisturbed(st, op, key) && Aliases.FactOf(p).Some? && !Aliases.FactOf(p).value.StreamFact?
    ensures Settled(AfterPut(st, op, key), render, op, p) == Settled(st, render, op, p)
    ensures Settled(AfterDelete(st, op, key), render, op, p) == Settled(st, render, op, p)
    ensures DurableRead(AfterDelete(st, op, key), render, p) == Settled(st, render, op, p)
  {
    assert SourceFact(op) != Some(TargetFact(op));
    hide AfterPut, AfterDelete, DurableRead, Aliases.FactOf, Undisturbed, CacheRuns.FactBytes, PutOf;
    hide TargetFact, SourceFact;
    var f := Aliases.FactOf(p);
    ValueRead(st, render, p);
    ValueRead(AfterPut(st, op, key), render, p);
    ValueRead(AfterDelete(st, op, key), render, p);
    FactsAfterPut(st, op, key, f.value);
    FactsAfterDelete(st, op, key, f.value);
  }

  lemma TargetIsValue(op: QueueOperation)
    requires !op.PublishJsonLines?
    ensures !TargetFact(op).StreamFact? && (SourceFact(op).Some? ==> !SourceFact(op).value.StreamFact?)
  {
  }

  lemma ValueRead(st: Store, render: Message -> Bytes, p: JetStreamPath)
    requires Aliases.FactOf(p).Some? && !Aliases.FactOf(p).value.StreamFact?
    ensures DurableRead(st, render, p) == CacheRuns.FactBytes(st, Aliases.FactOf(p).value)
  {
  }

  lemma StreamRead(st: Store, other: Store, render: Message -> Bytes, p: JetStreamPath)
    requires st.streams == other.streams && !p.KvRevision?
    requires Aliases.FactOf(p).Some? ==> Aliases.FactOf(p).value.StreamFact?
    ensures DurableRead(other, render, p) == DurableRead(st, render, p)
  {
    var f := Aliases.FactOf(p);
    if f.Some? {
      assert Messages(st, f.value.stream) == Messages(other, f.value.stream);
    } else if p.StreamMessage? {
      assert Messages(st, p.stream) == Messages(other, p.stream);
    }
    hide Messages, CacheRuns.SubjectText, CacheRuns.FindMessage, HasSubject;
  }

  /** Replay is invisible to readers: every file reads the same before the replay, after its put, after
      its delete and once the entry is gone. */
  lemma ReadsDoNotMove(st: Store, render: Message -> Bytes, op: QueueOperation, key: string, path: MountPath,
                       p: JetStreamPath)
    requires Undisturbed(st, op, key)
    requires HasFile(TargetFact(op)) && (SourceFact(op).Some? ==> HasFile(SourceFact(op).value))
    requires MountComponents(path) && ParseComponents(path) == Some(p)
    requires Aliases.FactOf(p).Some? || p.StreamMessage?
    ensures Read(AfterPut(st, op, key), render, [op], path, p) == Read(st, render, [op], path, p)
    ensures Read(AfterDelete(st, op, key), render, [op], path, p) == Read(st, render, [op], path, p)
    ensures Read(AfterDelete(st, op, key), render, [], path, p) == Read(st, render, [op], path, p)
  {
    hide ParseComponents, HasFile, AfterPut, AfterDelete, Settled, DurableRead;
    ReadIsSettled(st, render, op, path, p);
    ReadIsSettled(AfterPut(st, op, key), render, op, path, p);
    ReadIsSettled(AfterDelete(st, op, key), render, op, path, p);
    StoresSettleAlike(st, render, op, key, p);
  }

  /** `read_snapshot` with the byte cache, which is asked after the overlay and before the store. */
  function CachedRead(m: CacheRuns.Mount, render: Message -> Bytes, pending: seq<QueueOperation>, path: MountPath,
                      p: JetStreamPath):
    Option<Bytes>
  {
    ReadThrough(pending, path, if path in m.cache then Some(m.cache[path]) else DurableRead(m.store, render, p))
  }

  /** A cache that agrees with the store, as it does in every run of the mount, changes no read. */
  lemma CacheChangesNoRead(m: CacheRuns.Mount, render: Message -> Bytes, pending: seq<QueueOperation>, path: MountPath,
                           p: JetStreamPath)
    requires CacheRuns.Agrees(render, m) && ParseComponents(path) == Some(p)
    ensures CachedRead(m, render, pending, path, p) == Read(m.store, render, pending, path, p)
  {
    hide ParseComponents, ReadThrough;
  }

  /** Hence reads do not move with the cache either, whatever it holds at each stage. */
  lemma CachedReadsDoNotMove(render: Message -> Bytes, before: CacheRuns.Mount, put: CacheRuns.Mount,
                             done: CacheRuns.Mount, op: QueueOperation, key: string, path: MountPath, p: JetStreamPath)
    requires CacheRuns.Agrees(render, before) && CacheRuns.Agrees(render, put) && CacheRuns.Agrees(render, done)
    requires put.store == AfterPut(before.store, op, key) && done.store == AfterDelete(before.store, op, key)
    requires Undisturbed(before.store, op, key)
    requires HasFile(TargetFact(op)) && (SourceFact(op).Some? ==> HasFile(SourceFact(op).value))
    requires MountComponents(path) && ParseComponents(path) == Some(p)
    requires Aliases.FactOf(p).Some? || p.StreamMessage?
    ensures CachedRead(put, render, [op], path, p) == CachedRead(before, render, [op], path, p)
    ensures CachedRead(done, render, [op], path, p) == CachedRead(before, render, [op], path, p)
    ensures CachedRead(done, render, [], path, p) == CachedRead(before, render, [op], path, p)
  {
    hide ParseComponents, HasFile, AfterPut, AfterDelete, Undisturbed, CachedRead, Read, CacheRuns.Agrees;
    CacheChangesNoRead(before, render, [op], path, p);
    CacheChangesNoRead(put, render, [op], path, p);
    CacheChangesNoRead(done, render, [op], path, p);
    CacheChangesNoRead(done, render, [], path, p);
    ReadsDoNotMove(before.store, render, op, key, path, p);
  }

  // ---- nobody else writes ----

  /** The store after executing one entry any number of times, each time with any failures and crashes. */
  function Executed(accepts: Bytes -> bool, st: Store, e: QueueEntry, scripts: seq<seq<Outcome>>): Store {
    if scripts == [] then st
    else
      var before := Executed(accepts, st, e, scripts[..|scripts| - 1]);
      Execute(accepts, Process(true, [e], [e], before), e, scripts[|scripts| - 1]).p.store
  }

  /** A new write, or a rename made from the source as it is, starts undisturbed. */
  lemma NewEntryIsUndisturbed(st: Store, op: QueueOperation, key: string)
    requires !op.PublishJsonLines? && SourceFact(op) != Some(TargetFact(op)) && !PutApplied(st, PutOf(op), key)
    requires SourceFact(op).Some? ==> !DeleteApplied(st, DeleteOf(op))
    ensures Undisturbed(st, op, key)
  {
  }

  lemma StagesAreUndisturbed(st: Store, op: QueueOperation, key: string)
    requires Undisturbed(st, op, key)
    ensures Undisturbed(AfterPut(st, op, key), op, key) && Undisturbed(AfterDelete(st, op, key), op, key)
  {
    FactsAfterPut(st, op, key, TargetFact(op));
    FactsAfterDelete(st, op, key, TargetFact(op));
    if SourceFact(op).Some? {
      FactsAfterPut(st, op, key, SourceFact(op).value);
      FactsAfterDelete(st, op, key, SourceFact(op).value);
      SourceUntouched(st, op, key);
    }
    hide AfterPut, AfterDelete, CacheRuns.FactBytes, PutApplied, PutOf;
  }

  lemma ExecuteReachesStages(accepts: Bytes -> bool, p: Process, e: QueueEntry, script: seq<Outcome>)
    ensures Execute(accepts, p, e, script).p.store in
            {p.store, AfterPut(p.store, e.operation, e.key), AfterDelete(p.store, e.operation, e.key)}
  {
    hide PutIdempotent, DeleteIf, PutOf, DeleteOf;
  }

  /** As long as only the entry itself is executed the store stays undisturbed. */
  lemma {:induction false} RunsAreUndisturbed(accepts: Bytes -> bool, st: Store, e: QueueEntry,
                                              scripts: seq<seq<Outcome>>)
    requires Undisturbed(st, e.operation, e.key)
    ensures Undisturbed(Executed(accepts, st, e, scripts), e.operation, e.key)
  {
    if scripts != [] {
      hide Undisturbed, Execute, AfterPut, AfterDelete;
      var front, last := scripts[..|scripts| - 1], scripts[|scripts| - 1];
      RunsAreUndisturbed(accepts, st, e, front);
      var before := Executed(accepts, st, e, front);
      StagesAreUndisturbed(before, e.operation, e.key);
      ExecuteReachesStages(accepts, Process(true, [e], [e], before), e, last);
    }
  }

  /** The one kind of file that does move: the revision the put creates, and only that one. */
  lemma HistoryReadMoves(st: Store, render: Message -> Bytes, op: QueueOperation, key: string, path: MountPath,
                         p: JetStreamPath)
    requires Undisturbed(st, op, key)
    requires HasFile(TargetFact(op)) && (SourceFact(op).Some? ==> HasFile(SourceFact(op).value))
    requires ParseComponents(path) == Some(p) && MountComponents(path) && p.KvRevision?
    ensures Read(AfterPut(st, op, key), render, [op], path, p) == Read(st, render, [op], path, p) <==>
            !(&& TargetFact(op) == Aliases.KvFact(p.bucket, p.key)
              && !PutApplied(st, PutOf(op), key)
              && p.revision == NextRevision(st, (p.bucket, p.key))
              && CacheRuns.FindRevision(History(st, (p.bucket, p.key)), p.revision) == None)
    ensures Read(AfterDelete(st, op, key), render, [], path, p) == Read(AfterPut(st, op, key), render, [op], path, p)
  {
    hide AfterPut, AfterDelete, ParseComponents, HasFile, CacheRuns.FindRevision, History, PutOf, PutApplied;
    hide Undisturbed;
    hide MountComponents, TargetFact, SourceFact, NextRevision;
    var mid, end, at := AfterPut(st, op, key), AfterDelete(st, op, key), (p.bucket, p.key);
    UndisturbedIsValue(st, op, key);
    HistoryAfterPut(st, op, key, at);
    FindInLonger(History(st, at), KeyRevision(NextRevision(st, at), op.bytes), p.revision);
    ReadIsSettled(st, render, op, path, p);
    ReadIsSettled(mid, render, op, path, p);
  }

  /** For instance the first revision of a new key: missing while its put is pending, there afterwards. */
  lemma FirstRevisionAppears(render: Message -> Bytes)
    ensures var op := KvPut("b", "k", "v");
            var path := ["kv", "b", ".history", "k", "@1"];
            && ParseComponents(path) == Some(KvRevision("b", "k", 1))
            && Read(EMPTY, render, [op], path, KvRevision("b", "k", 1)) == None
            && Read(AfterPut(EMPTY, op, "id"), render, [op], path, KvRevision("b", "k", 1)) == Some("v")
  {
    hide ParseComponents, HasFile, MountComponents, AfterPut, ReadThrough;
    var op, p := KvPut("b", "k", "v"), KvRevision("b", "k", 1);
    SampleParses();
    SampleComponents();
    SampleFile();
    var path := ["kv", "b", ".history", "k", "@1"];
    ReadIsSettled(EMPTY, render, op, path, p);
    ReadIsSettled(AfterPut(EMPTY, op, "id"), render, op, path, p);
    HistoryAfterPut(EMPTY, op, "id", ("b", "k"));
    var entry := KeyRevision(1, "v");
    assert History(AfterPut(EMPTY, op, "id"), ("b", "k")) == [] + [entry] == [entry];
  }

  lemma SampleParses()
    ensures ParseComponents(["kv", "b", ".history", "k", "@1"]) == Some(KvRevision("b", "k", 1))
  {
    SampleKey();
    RevisionRoundTrip("b", ["k"], 1);
    assert Decimal(1) == "1";
    assert ["kv", "b", ".history"] + (["k"] + ["@1"]) == ["kv", "b", ".history", "k", "@1"];
  }

  lemma SampleComponents()
    ensures MountComponents(["kv", "b", ".history", "k", "@1"])
  {
  }

  lemma SampleKey()
    ensures ValidToken("b") && JoinKvKey(["k"]) == Some("k") && MountComponents(["k"])
  {
    assert "k"[0] == 'k';
  }

  lemma SampleFile()
    ensures HasFile(Aliases.KvFact("b", "k"))
  {
    SampleKey();
    SplitSolid("k", '/');
    var path := ["kv", "b", "k"];
    TokenIsComponent("b");
    assert path == ["kv", "b"] + ["k"] && MountComponents(path);
    assert Aliases.ExactPath(Aliases.KvFact("b", "k")) == Some(path);
    assert path[1..] == ["b", "k"] && path[1..][1..] == ["k"];
  }

  lemma UndisturbedIsValue(st: Store, op: QueueOperation, key: string)
    requires Undisturbed(st, op, key)
    ensures !op.PublishJsonLines? && SourceFact(op) != Some(TargetFact(op))
  {
  }

  lemma HistoryAfterPut(st: Store, op: QueueOperation, key: string, at: Location)
    requires !op.PublishJsonLines?
    ensures History(AfterPut(st, op, key), at) ==
            if TargetFact(op) == Aliases.KvFact(at.0, at.1) && !PutApplied(st, PutOf(op), key)
            then History(st, at) + [KeyRevision(NextRevision(st, at), op.bytes)]
            else History(st, at)
    ensures History(AfterDelete(st, op, key), at) == History(AfterPut(st, op, key), at)
  {
  }

  lemma {:induction false} FindInLonger(history: seq<KeyRevision>, last: KeyRevision, revision: nat)
    ensures CacheRuns.FindRevision(history + [last], revision) ==
            var found := CacheRuns.FindRevision(history, revision);
            if found.Some? then found else if last.revision == revision then Some(last.bytes) else None
  {
    if history != [] {
      assert (history + [last])[1..] == history[1..] + [last];
      FindInLonger(history[1..], last, revision);
    } else {
      assert (history + [last])[1..] == [];
    }
  }
}
