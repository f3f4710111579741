# EventFS in Dafny

EventFS mounts NATS JetStream as a filesystem. This project models the part of it that must survive
crashes and keep one consistent view, and proves properties of whole runs of that model.

Five groups of modules:

- **Writeback queue, gate and replay over the in-memory store.** `MemoryStore` and `Writeback` are the store
  and the queue as values and functions, with every call outside the process drawing its outcome (works,
  fails before or after its effect, dies before or after it) from a script. `WritebackQueue` holds the same
  queue, gate and replay as objects, proved against those functions. `ReplayInvariant` and `CrashRuns` prove
  that replay refines one in-order application, `Progress` exactly when a turn, a replay, a commit or a rename
  goes through and where a failed write ends up, `StoreLaws` what the files then show, and `RenameSafety` that a
  rename completion loses nothing.
- **The JetStream protocols.** `JetStreamKv` and `JetStreamLines` are step machines of any number of writers over
  an append-only stream with eviction and expiring duplicate suppression; `JetStreamPut` is about the messages the
  first leaves and the end of a put, `OvertakenPut` is one run of it; `Ledger` covers the ledger keys.
- **The pending view.** `Overlay` is the recursive directory rule, `OverlayListing`, `StoreListing` and `OverlayView`
  prove that listings and reads through it do not move during replay, `OverlayQueue` that a queue of any length
  reads as its replay, `JsonlView` and `JsonlFiles` do the same for JSON lines, by subject and by mount path.
- **Paths and aliases.** `Paths`, `PathLaws`, `FileNames`, `Aliases`, `MountText` and `Listing`.
- **Caches and handles.** `Invalidation` and `CacheRuns` for the byte cache, `PathCache` for inodes, `Handles` and
  `HandleRuns` for staged buffers and commit seeds.

`Text` and `JsonLines` hold the string operations the rest is built from.

Conventions of the model: payloads are their decoded text; which payloads are valid JSON lines is a
parameter; revisions, sequences, inodes and handle numbers are unbounded; an idempotency key names one
operation (the code derives it by hashing path, bytes and commit seed); time is left out.

Where the code does not meet a property in full, the exact condition is proved, with an input that shows it:

- History files change when a put creates the revision they name (`OverlayView.HistoryReadMoves`,
  `OverlayView.FirstRevisionAppears`).
- While a put into a bucket that does not exist yet is pending, exactly the directories above its file are listed
  (`StoreListing.MissingBucketListing`); the rest of the bucket appears with the put.
- The alias list of a parsed path is missing for mailbox subjects with a slash (`Aliases.VisiblePathsExist`,
  `Aliases.SlashMailboxHasNoPaths`), so what is queued for such a subject is not shown until it is replayed; nor is
  it through the base 16 spelling of a plain subject (`JsonlFiles.ReadIsWholeExactly`,
  `JsonlFiles.SlashMailboxIsHidden`, `JsonlFiles.HexSpellingIsHidden`).
- The JSON lines view repeats lines when the progress query fails and the recorded number is behind
  (`JsonlFiles.ViewWithoutProgress`, `JsonlFiles.LateProgressRepeatsLines`).
- A KV put is reported as applied when the last message of its key is behind its marker, which may be somebody
  else's (`JetStreamKv.ReportedExactlyWhenPassed`, `OvertakenPut.OvertakenPutIsReportedApplied`).

A ledger kind with a bar in it could collide with another key (`Ledger.KindWithBarCollides`); no caller has one, and
for kinds without a bar there is no collision (`Ledger.ScopedKeyInjective`).

`dafny verify dfyconfig.toml` checks the whole project.

## Model

| member | source | states |
|---|---|---|
| `CrashRuns.ReplayRefinesInOrderApplication` | eventfs-transport/src/writeback.rs:307-378 | For every run of commits, renames, unlinks, new buckets, enqueues, replays, store calls and file replacements that fail before or after their effect, crashes and reopens: no acknowledged request is lost, nothing is applied that nobody asked for, a refused one is applied at most once, and a drained queue leaves the store equal to the fold of the unconditional effects of the log, each request exactly once. |
| `CrashRuns.LeftoverIsStartable` | eventfs-transport/src/writeback.rs:275-297 | Whatever a run leaves when the process is down is a state the next mount may start from, entries included that were applied already. |
| `CrashRuns.FirstStart` | eventfs-transport/src/writeback.rs:275-297 | A first mount may find any file whose keys the store has not seen. |
| `CrashRuns.DirectCallOk` | eventfs-fuse/src/fs/runtime.rs:1102-1165 | An unlink or mkdir takes effect after everything accepted before it, because the open gate means nothing is pending. |
| `CrashRuns.LogIsAppendOnly` | eventfs-transport/src/writeback.rs:307-334 | The order in which requests take effect is fixed once they are accepted: the log only grows at its end. |
| `CrashRuns.GateFollowsQueue` | eventfs-transport/src/writeback.rs:243-259 | After every operation of every run the gate accepts writes exactly when nothing is pending, and while something is pending no commit, rename, unlink or mkdir changes store, queue or anything else. |
| `CrashRuns.QueueStaysBounded` | eventfs-fuse/src/fs/runtime.rs:756-789 | A mount that opened its queue with n entries never holds more than max(n, 1), because a closed gate lets no write reach the queue. |
| `CrashRuns.StepOk` | eventfs-transport/src/writeback.rs:341-378 | Every event, with every failure and crash point inside it, keeps the invariant that ties queue, file, store and log together. |
| `CrashRuns.RunOk` | eventfs-transport/src/writeback.rs:275-378 | The invariant holds in every state reachable from whatever earlier mounts may have left. |
| `Progress.ReplayDrainsExactly` | eventfs-transport/src/writeback.rs:341-378 | In every reachable state a replay drains the queue if and only if every call it makes is fine and every queued operation is executable; then the gate is open and the store is the fold of everything accepted, otherwise the gate is closed or the process died. |
| `Progress.CommitIsKeptExactly` | eventfs-fuse/src/fs/runtime.rs:756-789 | A commit through the open gate is taken by the store, or, when its call came back with an error, by the queue and its file, which closes the gate. It is refused if and only if the process died, the queue has no room or its file could not be written. The store changes by the plain effect of the request, once, exactly when the call reached it. |
| `Progress.RenameIsKeptExactly` | eventfs-fuse/src/fs/runtime.rs:1173-1232 | A rename is acknowledged if and only if it was queued and the process lived; then it is applied or still queued, and when nothing goes wrong it is applied once and the gate is open again. |
| `Progress.EnqueueIsKeptExactly` | eventfs-transport/src/writeback.rs:307-334 | A failed write is queued if and only if its key is queued already, or there is room and the file was written; then it stands last in the queue and the gate is closed. |
| `Progress.ReopenIsExact` | eventfs-transport/src/writeback.rs:275-297 | A reopen fails exactly when completed entries must go and the file cannot be written; a reopened queue is what the file holds that is not done. |
| `Progress.CallIsExact` | eventfs-fuse/src/fs/runtime.rs:1102-1165 | An unlink or mkdir is acknowledged exactly when it came back without error and found what it needs, and is in the log exactly when it changed the store. |
| `StoreLaws.DrainedMountShows` | eventfs-transport/src/writeback.rs:341-378 | Whatever failed or crashed, a mount with an open gate shows on every subject the old lines and then every accepted line once and in order, and at every key and object the bytes of the last accepted put, or nothing after an unlink. |
| `ReplayInvariant.TurnOk` | eventfs-transport/src/writeback.rs:343-376 | One turn of the replay loop (applied check, attempt record, execution, removal) keeps the invariant at each of its crash points. |
| `ReplayInvariant.ReplayOk` | eventfs-transport/src/writeback.rs:341-378 | A whole replay keeps the invariant, and if it completes everything accepted was applied and nothing is half done. |
| `ReplayInvariant.BegunIsApplied` | eventfs-transport/src/writeback.rs:629-694 | A request that has begun is reported as applied unless it is a rename whose source delete is still due. |
| `ReplayInvariant.FoldApplied` | eventfs-transport/src/storage/memory.rs:165-197 | After the in-order application every request of the log is recorded as applied. |
| `ReplayInvariant.NewPutIsOnce` | eventfs-transport/src/storage/memory.rs:165-184 | With a key the store has not seen, the idempotent put is the plain put. |
| `Writeback.Replace` | eventfs-transport/src/writeback.rs:421-449 | Replacing the queue file is atomic: memory follows the file only on success, and after a failure the file is the old or the new list. |
| `Writeback.Replay` | eventfs-transport/src/writeback.rs:341-378 | A replay that completes empties the queue; one that fails leaves a non-empty rest no longer than before. Exactly when it completes is Progress.ReplayReports. |
| `Progress.TurnReports` | eventfs-transport/src/writeback.rs:343-376 | A turn removes the head if and only if every call it made was fine and the head is done or executable; it dies exactly when a call was deadly and reports an error otherwise. |
| `Progress.ReplayReports` | eventfs-transport/src/writeback.rs:341-378 | A replay completes if and only if every call it made was fine and every entry is done or executable; so a replay in which nothing goes wrong always drains an executable queue. |
| `Progress.FailedPublishIsRecorded` | eventfs-transport/src/writeback.rs:356-372 | When only the publish of a turn fails, the head counts one attempt more and records the lines that reached the stream all the same; the file is the queue and nothing else moved. |
| `Progress.LiveKeepsPending` | eventfs-transport/src/writeback.rs:780-784 | Compaction keeps exactly the entries that are not done, in order. |
| `Progress.NewEntriesAreFirst` | eventfs-transport/src/writeback.rs:311-323 | An enqueue takes from a batch exactly the first entry of each key that is not queued yet, in order. |
| `WritebackQueue.WritebackGate.SyncPending` | eventfs-transport/src/writeback.rs:247-259 | The gate ends accepting exactly when nothing is pending and reports the change. |
| `WritebackQueue.WritebackQueue.constructor` | eventfs-transport/src/writeback.rs:275-297 | Opening drops completed entries and rewrites the file only if there were any. |
| `WritebackQueue.WritebackQueue.ReplaceEntries` | eventfs-transport/src/writeback.rs:421-425 | The object form of the atomic replacement. |
| `WritebackQueue.WritebackQueue.ExecuteEntry` | eventfs-transport/src/writeback.rs:716-777 | The put, then for a rename the guarded delete, each call failing before or after its effect. |
| `WritebackQueue.WritebackQueue.Turn` | eventfs-transport/src/writeback.rs:343-376 | One turn of the loop as the source runs it equals the specified turn, outcome by outcome; exactly when that turn removes its head is Progress.TurnReports. |
| `WritebackQueue.WritebackQueue.ReplayQueue` | eventfs-transport/src/writeback.rs:341-378 | The replay loop equals the specified replay and terminates because each completed turn removes an entry. |
| `WritebackQueue.WritebackQueue.Unqueued` | eventfs-transport/src/writeback.rs:311-323 | The entries of a batch whose key is neither queued nor earlier in the batch. |
| `WritebackQueue.WritebackQueue.Enqueue` | eventfs-transport/src/writeback.rs:307-334 | A batch is queued whole or, over capacity, not at all; known keys are skipped. |
| `WritebackQueue.WritebackReplay.EnqueueFailedWrite` | eventfs-transport/src/writeback.rs:508-514 | Queueing a failed write leaves the gate in step with the queue. |
| `WritebackQueue.WritebackReplay.ReplayAll` | eventfs-transport/src/writeback.rs:516-520 | Replaying leaves the gate in step with the queue, also when it fails. |
| `MemoryStore.MemoryStorage.PutKeyValue` | eventfs-transport/src/storage/memory.rs:69-86 | A put appends the next revision to the history and makes it current. |
| `MemoryStore.MemoryStorage.PutKeyValueIdempotent` | eventfs-transport/src/storage/memory.rs:165-184 | A put under a key that was applied changes nothing and returns the recorded revision. |
| `MemoryStore.MemoryStorage.DeleteKeyIfRevision` | eventfs-transport/src/storage/memory.rs:199-215 | Only the expected revision is deleted; history stays. |
| `MemoryStore.MemoryStorage.PublishJsonLines` | eventfs-transport/src/storage/memory.rs:229-263 | All lines of a new seed are appended with consecutive sequences; a known seed changes nothing. What the lines then show is StoreLaws.PutShowsOnce and StoreLaws.PublishContinues. |
| `MemoryStore.MemoryStorage.PutObjectIdempotent` | eventfs-transport/src/storage/memory.rs:301-316 | An object put draws the next generation once per key. |
| `MemoryStore.MemoryStorage.DeleteObjectIfSequence` | eventfs-transport/src/storage/memory.rs:332-354 | Only the expected generation, with the expected nuid if one is named, is deleted. |
| `MemoryStore.NumberLines` | eventfs-transport/src/storage/memory.rs:245-260 | The publishing loop makes the i-th line the i-th new message, with that payload, subject and the i-th sequence behind the last message. |
| `MemoryStore.AppendedMessage` | eventfs-transport/src/storage/memory.rs:245-260 | The i-th line of a publish is the payload of the i-th new message. |
| `StoreLaws.PutShowsOnce` | eventfs-transport/src/storage/memory.rs:165-184 | A put under a new key shows what it wrote at its own fact, lines behind those that were there, changes no other fact, and changes nothing when repeated. |
| `StoreLaws.PublishContinues` | eventfs-transport/src/storage/memory.rs:229-299 | A publish continues the numbering of its stream, records how many lines it published, and each line is read back under its number. |
| `StoreLaws.UnlinkRemoves` | eventfs-transport/src/storage/memory.rs:433-444 | An unlink removes exactly its fact, and reports as missing exactly a fact that shows nothing. |
| `StoreLaws.RemovedIsGone` | eventfs-fuse/src/fs/runtime.rs:1102-1135 | After an unlink through a mount path its fact shows nothing; the call fails exactly on streams and on facts that show nothing. |
| `StoreLaws.DeleteRemovesNamed` | eventfs-transport/src/storage/memory.rs:199-215 | The guarded delete removes its fact exactly when it finds the generation it names. |
| `StoreLaws.FoldAppendsLines` | eventfs-transport/src/storage/memory.rs:229-263 | After any log a subject shows its old text and then every line the log publishes on it, once and in log order. |
| `StoreLaws.LastRequestDecides` | eventfs-transport/src/storage/memory.rs:165-184 | After any log a key or object shows the bytes of the last request that concerns it, or nothing if that is an unlink. |
| `StoreLaws.FoldMakes` | eventfs-transport/src/storage/memory.rs:393-400 | After any log a bucket or stream exists exactly when it did before or a request names it. |
| `RenameSafety.NewerSourceSurvives` | eventfs-transport/src/writeback.rs:723-765 | Once a newer source exists, no number of replays of the completion removes anything, whatever others delete and recreate meanwhile. |
| `RenameSafety.RevisionNamesOneValue` | eventfs-transport/src/storage/memory.rs:69-104 | In every run a key found twice at the same revision holds the same bytes: there is no ABA. |
| `RenameSafety.RenameNeverLosesData` | eventfs-transport/src/writeback.rs:723-765 | In every run, crashes and other writers included, the delete of a completion removes nothing, or a value with exactly the bytes that were copied; the copy was the target's value at some point, and a key's history still holds it. |
| `RenameSafety.GenerationNamesOneObject` | eventfs-transport/src/storage/memory.rs:88-104 | Two sightings of an object in one generation show the same object. |
| `RenameSafety.CompletionWasRead` | eventfs-fuse/src/fs/runtime.rs:1173-1232 | Every completion was made from a source that was there, in that generation and with those bytes. |
| `RenameSafety.AppliedWasShown` | eventfs-transport/src/storage/memory.rs:165-184 | A write recorded during a run was visible at its place at some point of it: the value at its key or object, or its lines, in order, at the end of its stream. |
| `RenameSafety.ExecuteIsAllowed` | eventfs-transport/src/writeback.rs:716-777 | Every execution of an entry, whatever its calls do, is an allowed run: the executor itself puts before it deletes. |
| `RenameSafety.ReplayIsAllowed` | eventfs-transport/src/writeback.rs:341-378 | So is every whole replay, with each failure and crash point in it. |
| `RenameSafety.RunMovesForward` | eventfs-transport/src/storage/memory.rs:69-104 | Histories only grow and generations never go back, across delete and recreate. |
| `OverlayView.ReadsDoNotMove` | eventfs-fuse/src/fs/mount_projection.rs:387-400 | With one pending whole-value put or rename, every file reads the same before replay, after its put, after its delete and once the entry is gone, under every alias. |
| `OverlayView.CachedReadsDoNotMove` | eventfs-fuse/src/fs/mount_projection.rs:387-406 | The same with the byte cache in between, whatever it holds, as long as it agrees with the store. |
| `OverlayView.RunsAreUndisturbed` | eventfs-transport/src/writeback.rs:716-777 | A store that only the pending entry works on meets the no-other-writer condition after any number of executions with any failures. |
| `OverlayView.NewEntryIsUndisturbed` | eventfs-fuse/src/fs/runtime.rs:1173-1232 | A new write, or a rename made from its source as it is, starts in that condition. |
| `OverlayView.HistoryReadMoves` | eventfs-fuse/src/fs/mount_projection.rs:437-463 | The exception, exactly: a history file moves if and only if it is the revision this put creates. |
| `OverlayView.FirstRevisionAppears` | eventfs-fuse/src/fs/mount_projection.rs:437-463 | A concrete read that changes: the first revision of a new key. |
| `OverlayView.PathsAreExact` | eventfs-transport/src/writeback.rs:896-987 | A path is among the paths a pending whole-value entry shows or hides exactly when it stands for that key or object. |
| `OverlayQueue.PendingReadsAsReplayed` | eventfs-fuse/src/fs/queued_overlay.rs:25-41 | With any number of pending whole-value writes and renames, the file of a key or object shows through the overlay, before anything is replayed, what the store will show once all of them were applied in order. |
| `OverlayQueue.SnapshotIsLatest` | eventfs-fuse/src/fs/queued_overlay.rs:25-41 | The queued bytes of a path are those of the latest entry that shows it as a whole value and that no later one deletes; without one there are none. |
| `OverlayQueue.DeleteCoversExactly` | eventfs-fuse/src/fs/queued_overlay.rs:92-102 | A path is covered if and only if some entry deletes it and no later one deletes or shows it. |
| `OverlayQueue.SubjectReads` | eventfs-fuse/src/fs/runtime.rs:362-384 | A subject file is missing exactly when it would be empty, and is the text of its messages otherwise. |
| `StoreListing.ListingsDoNotMove` | eventfs-fuse/src/fs/mount_projection.rs:704-866 | With one pending whole-value put or rename, every KV and object directory lists the same names with the same kinds at all four stages of the replay. |
| `StoreListing.MissingBucketListing` | eventfs-fuse/src/fs/mount_projection.rs:704-742 | A put into a bucket that does not exist yet: a directory lists the same before and after it if and only if it is above the file; the other directories of the bucket come into being with the put. |
| `StoreListing.StoreShows` | eventfs-transport/src/storage/memory.rs:402-412 | A prefix listing of the store is the children of its keys as a set of component paths. |
| `OverlayListing.RenameShows` | eventfs-fuse/src/fs/mount_projection.rs:744-858 | For any set of files: deleting the source and showing the target through the overlay gives the directory after the rename, including directories that vanish or appear. |
| `OverlayListing.PutListing` | eventfs-fuse/src/fs/mount_projection.rs:704-733 | A pending put shows its file in every directory above it. |
| `OverlayListing.MissingListing` | eventfs-fuse/src/fs/mount_projection.rs:704-742 | A directory the store cannot list is listed if and only if the pending put is below it, and then shows its file. |
| `OverlayListing.QueuedShows` | eventfs-fuse/src/fs/queued_overlay.rs:104-115 | The queued children of a directory are sorted and are exactly its children if the queued paths were the only files. |
| `OverlayListing.InsertSortedMembers` | eventfs-fuse/src/fs.rs:1040-1055 | Inserting adds a name once and a directory overrides a file. |
| `OverlayListing.InsertSortedKeepsOrder` | eventfs-fuse/src/fs.rs:1040-1055 | Inserting keeps a sorted list sorted. |
| `Overlay.ApplyOverlay` | eventfs-fuse/src/fs/mount_projection.rs:744-796 | The recursion over deleted and visible paths terminates, equals the recursion without a visited set, and restores that set. |
| `Overlay.LookKnown` | eventfs-fuse/src/fs/mount_projection.rs:818-836 | The visited test is there and never fires: the directory looked into is not on the stack. |
| `Overlay.LookVisible` | eventfs-fuse/src/fs/mount_projection.rs:838-858 | The same for the other look, whose fallback would have been the opposite answer. |
| `Overlay.DeletePath` | eventfs-fuse/src/fs/mount_projection.rs:750-787 | One deleted path removes, keeps or turns its child into a directory. |
| `Overlay.MergeQueued` | eventfs-fuse/src/fs/mount_projection.rs:704-742 | Durable, local and queued children merged in the order of the source, also for a directory that does not exist yet. |
| `Overlay.CollectQueued` | eventfs-fuse/src/fs/queued_overlay.rs:104-115 | The queued children of a directory, sorted. |
| `MountText.ChildTextIsChild` | eventfs-fuse/src/fs/queued_overlay.rs:186-209 | The child found by cutting strings is the next component. |
| `JetStreamKv.PutIsAtMostOnce` | eventfs-transport/src/storage/nats/kv.rs:219-253 | In every run of any number of writers, with crashes, retries, eviction and foreign messages, each value is published at most once, and once published its marker stands before the last message of the target. Which bytes are published is JetStreamPut.MessagesAreRight. |
| `JetStreamKv.AppliedIsSound` | eventfs-transport/src/storage/nats/kv.rs:518-557 | In every reachable state an operation reported or recorded as applied was published, or the target received a message after its marker, and its last message is behind the marker. |
| `JetStreamKv.ReportedExactlyWhenPassed` | eventfs-transport/src/storage/nats/kv.rs:518-557 | In every reachable state a check that runs to its end reports the put as applied if and only if the last message of the target is behind the put's marker: its own value, or as long as that is not published somebody else's message. |
| `JetStreamPut.MessagesAreRight` | eventfs-transport/src/storage/nats/kv.rs:219-253 | In every run each message with an operation's id is on the subject of its bucket and key and holds its bytes, and its two markers, on their subjects, name its key and id. |
| `JetStreamPut.PublishedIsHeld` | eventfs-transport/src/storage/nats/kv.rs:229-248 | Once a put has got past its publish the stream holds its bytes on its key under its id for good. |
| `JetStreamPut.PutEnds` | eventfs-transport/src/storage/nats/kv.rs:219-253 | In every reachable state a put that is then left alone succeeds and is recorded in the ledger; if its marker was not passed the stream then holds its bytes, otherwise nothing is published. |
| `OvertakenPut.OvertakenPutIsReportedApplied` | eventfs-transport/src/storage/nats/kv.rs:388-406 | The second case does happen: a put that stops between its marker and its value while somebody else writes the key is reported as applied though its value never reached the stream. |
| `JetStreamKv.WorkKeeps` | eventfs-transport/src/storage/nats/kv.rs:219-253 | A writer's own step keeps the invariant whether it works, fails before or after its effect, is retried or ends the process. |
| `JetStreamKv.OtherIsEnv` | eventfs-transport/src/storage/nats/kv.rs:434-461 | What another writer does is, for this one, harmless: its subjects, ids and ledger keys are different. |
| `JetStreamKv.SubjectsApart` | eventfs-transport/src/storage/nats/kv.rs:608-632 | Targets, markers and applied markers never share a subject. |
| `JetStreamKv.KeptLast` | eventfs-transport/src/storage/nats/kv.rs:408-432 | With one message kept per subject, the last stored message is the last message. |
| `JetStreamKv.TargetReadIsRight` | eventfs-transport/src/storage/nats/kv.rs:388-406 | The read tells exactly whether the last message is behind the marker; if not, the value was not published. |
| `JetStreamLines.PublishResumesExactly` | eventfs-transport/src/storage/nats/streams.rs:146-183 | In every run, at every crash point, a batch's messages in the stream are its first lines with their payloads and ids, in order and each once, and a line is reported applied exactly when it is among them. |
| `JetStreamLines.FinishedIsExact` | eventfs-transport/src/storage/nats/streams.rs:146-183 | A publish that finished left all lines in the stream; a query that finished reports how many there are. |
| `JetStreamLines.PublishEnds` | eventfs-transport/src/storage/nats/streams.rs:146-183 | In every reachable state a publish that is then left alone ends with every line in the stream, once and in order, whatever was published of it before. |
| `JetStreamLines.Query` | eventfs-transport/src/storage/nats/streams.rs:185-227 | Asked in any reachable state, the prefix query returns the number of published lines and the applied query is true exactly when that is all of them. |
| `JetStreamLines.AppliedPrefix` | eventfs-transport/src/storage/nats/streams.rs:207-227 | The loop stops at the first line that is not applied. |
| `JetStreamLines.AllApplied` | eventfs-transport/src/storage/nats/streams.rs:185-205 | True exactly when every line is applied. |
| `JetStreamLines.AppliedIsSent` | eventfs-transport/src/storage/nats/streams.rs:329-345 | Ledger or retained message: together they recognise exactly the published lines, also after recorded ones were evicted. |
| `JetStreamLines.IdsDiffer` | eventfs-transport/src/storage/nats/streams.rs:158-160 | A line id tells its seed and its index. |
| `JsonlView.PendingViewIsConstant` | eventfs-fuse/src/fs/mount_projection.rs:634-682 | While queued appends to a subject are published in order, its stored lines followed by the unapplied ones are the old lines followed by all queued lines at every publish step, for any recorded progress that is not ahead. |
| `JsonlView.ViewIsWholeExactly` | eventfs-fuse/src/fs/mount_projection.rs:634-682 | For any recorded progress the view is the old lines followed by all queued lines if and only if no recorded number skips a line that is still to be published. |
| `JsonlView.RecordedIsNotAhead` | eventfs-transport/src/writeback.rs:696-714 | Progress recorded at any earlier point of a run is never ahead of the stream. |
| `JsonlFiles.ReadIsWholeExactly` | eventfs-fuse/src/fs/mount_projection.rs:634-682 | A reader of a JSON lines path sees the old lines followed by all queued ones, at every publish step, if and only if the path is the printed one or an alias of a fact that is no slash mailbox and the progress of every append is known; through any other spelling only once everything was published. |
| `JsonlFiles.ListedFileIsConstant` | eventfs-fuse/src/fs/mount_projection.rs:634-682 | For printed paths and aliases the view does not move while lines are published. |
| `JsonlFiles.RoutingIsExact` | eventfs-fuse/src/fs/queued_overlay.rs:43-67 | A path of a stream subject is in the list a pending append carries exactly when it is the printed path or an alias and the fact is no slash mailbox. |
| `JsonlFiles.PendingIsExact` | eventfs-fuse/src/fs/queued_overlay.rs:43-67 | So a path shows all appends to its subject, or none. |
| `JsonlFiles.SlashMailboxIsHidden` | eventfs-transport/src/writeback.rs:976-987 | The subject file of agents.a/b.inbox never shows what is queued for it. |
| `JsonlFiles.HexSpellingIsHidden` | eventfs-protocol/src/file_names.rs:21-38 | The base 16 spelling of any plain subject opens the same file and does not show what is queued for it. |
| `JsonlFiles.ViewWithoutProgress` | eventfs-fuse/src/fs/runtime.rs:1037-1053 | If the progress queries fail the view of a listed path is right if and only if every recorded number is up to date. |
| `JsonlFiles.LateProgressRepeatsLines` | eventfs-fuse/src/fs/runtime.rs:1037-1053 | A reachable run in which it is not: the first line is shown twice. |
| `JsonlFiles.TextCountIsPublished` | eventfs-fuse/src/fs/runtime.rs:955-978 | The number recorded when an append is queued, counted by comparing texts, is the number of its lines in the stream as long as nobody else appends. |
| `JsonlView.PrefixCountIsExact` | eventfs-fuse/src/fs.rs:1124-1142 | After the first k queued lines were appended the text comparison counts k, plus what others appended only as far as it repeats the next queued lines. |
| `JsonlView.ProjectionIsWhole` | eventfs-fuse/src/fs.rs:1092-1097 | A projection is empty or ends with a newline, which is what counting progress from the text relies on. |
| `JsonlView.UnappliedBytes` | eventfs-fuse/src/fs.rs:1144-1153 | The text of the lines after the applied ones. |
| `JsonlView.CollectSubject` | eventfs-fuse/src/fs/runtime.rs:362-384 | The projection of a subject: its stored messages, one line each. |
| `JsonlView.LinesOfText` | eventfs-protocol/src/json.rs:17-26 | Lines written out are read back unchanged. |
| `Aliases.VisiblePathsShowFact` | eventfs-protocol/src/mount_paths.rs:166-197 | Every listed path that parses to something with a storage fact has the given fact. |
| `Aliases.VisiblePathsAreComplete` | eventfs-protocol/src/mount_paths.rs:299-351 | Whenever the list exists it holds the printed path of every parsed path with that fact. |
| `Aliases.VisiblePathsExist` | eventfs-protocol/src/mount_paths.rs:441-461 | The list of a parsed path's fact exists if and only if the fact is not a mailbox subject whose agent part has a slash, which only the stream view can produce. |
| `Aliases.SlashMailboxHasNoPaths` | eventfs-protocol/src/mount_paths.rs:449-461 | For instance the subject file of agents.a/b.inbox parses, and its fact has no list. |
| `Aliases.KvAliasShows` | eventfs-protocol/src/subjects.rs:22-49 | Task, agent and semantic aliases stand for the key they were built from. |
| `CacheRuns.CacheAgreesWithStore` | eventfs-fuse/src/fs/mount_projection.rs:401-524 | In every run without other writers, where failed writes are queued and failed unlinks have no effect, each cached file holds what the store shows at its path. |
| `CacheRuns.UnqueuedEffectIsStale` | eventfs-fuse/src/fs/runtime.rs:756-789 | Why failed writes must be queued: an effect that was not invalidated keeps the cache right if and only if it wrote the cached bytes. |
| `CacheRuns.PutKeepsOthers` | eventfs-fuse/src/fs/runtime.rs:791-806 | A write changes only what paths of its own fact show; revisions and messages never change. |
| `StoreLaws.ReadFills` | eventfs-fuse/src/fs/mount_projection.rs:401-406 | A read of an uncached file caches what the store shows there and changes nothing else. |
| `StoreLaws.WriteShows` | eventfs-fuse/src/fs/runtime.rs:791-806 | A write that succeeds is what its file shows, behind the old lines for a subject, and a whole value is what is cached for it. |
| `StoreLaws.UnlinkHides` | eventfs-fuse/src/fs/runtime.rs:1102-1135 | After an unlink the file shows nothing and no path of it is cached. |
| `Invalidation.MutationReachesAliases` | eventfs-protocol/src/mount_paths.rs:209-222 | Mutating one path invalidates every path, under any alias, of the same fact. |
| `Invalidation.MutationInvalidatesExactly` | eventfs-protocol/src/mount_paths.rs:209-222 | Mutating a path invalidates if and only if a path lies in the subtree of a path of the same fact or is a directory above one, down to the floor of its surface. |
| `Invalidation.DroppedIfInvalidated` | eventfs-transport/src/cache.rs:98-114 | A plan drops exactly the entries that one of its actions matches. |
| `Invalidation.LocalCache.ApplyInvalidation` | eventfs-transport/src/cache.rs:98-114 | Applying a plan drops entries action by action and advances the generation at gaps. |
| `Invalidation.PlanOf` | eventfs-transport/src/invalidation.rs:68-74 | The plan holds one action per affected path: exact for ancestors, subtree otherwise. |
| `Invalidation.PushAncestorPaths` | eventfs-protocol/src/mount_paths.rs:353-373 | Ancestors are added from the longest down to the floor of their surface. |
| `PathLaws.ParsePrintRoundTrip` | eventfs-protocol/src/path.rs:215-335 | Every string that parses prints, and parsing the print gives the same path. |
| `PathLaws.PrintInvertsParse` | eventfs-protocol/src/mount_paths.rs:224-297 | Printing gives back the parsed components for every path with one spelling. |
| `PathLaws.RevisionRoundTrip` | eventfs-protocol/src/path.rs:370-409 | Revision paths survive printing and parsing. |
| `PathLaws.MessageRoundTrip` | eventfs-protocol/src/path.rs:468-476 | Message paths survive printing and parsing. |
| `PathLaws.SubjectRoundTrip` | eventfs-protocol/src/path.rs:522-532 | Subject paths survive printing and parsing. |
| `FileNames.SubjectFileNameRoundTrip` | eventfs-protocol/src/file_names.rs:10-38 | Decoding the name of any non-empty subject returns it; the empty one is refused. |
| `FileNames.SubjectFileNameInjective` | eventfs-protocol/src/file_names.rs:10-19 | No two subjects share a name. |
| `FileNames.SubjectFileNameIsOneComponent` | eventfs-protocol/src/file_names.rs:10-19 | The name of any subject is one legal component with the suffix, and a plain subject keeps its own text. |
| `FileNames.KnownNames` | eventfs-protocol/src/file_names.rs:10-19 | Two file names spelled out, for a two and a three byte character. |
| `FileNames.EncodedNameDecodes` | eventfs-protocol/src/file_names.rs:21-38 | The base 16 name of a subject decodes to it even when the subject has a plain name. |
| `FileNames.UnhexHex` | eventfs-protocol/src/file_names.rs:51-83 | Base 16 decoding undoes encoding. |
| `FileNames.HexEncode` | eventfs-protocol/src/file_names.rs:51-59 | The encoding loop equals the specified encoding. |
| `FileNames.Utf8RoundTrip` | eventfs-protocol/src/file_names.rs:21-38 | UTF-8 decoding undoes encoding for every string. |
| `Listing.ImmediateChildrenMemory` | eventfs-transport/src/storage/memory.rs:107-134 | The memory adapter's listing is sorted and holds exactly the children of the prefix, a file winning over a directory. |
| `Listing.ImmediateChildrenNats` | eventfs-transport/src/storage/nats/mod.rs:331-359 | The NATS adapter's listing meets the same specification. |
| `Listing.ListingIsUnique` | eventfs-transport/src/storage/nats/mod.rs:331-382 | That specification has one solution, so both adapters agree for any order of the keys. |
| `Listing.ListingAgreesWithClassification` | eventfs-fuse/src/fs/runtime.rs:213-256 | Every listed child has the kind that classifying its path returns. |
| `Listing.MergeMembers` | eventfs-transport/src/storage/memory.rs:151-162 | Merging adds a name once; a file overrides a directory. |
| `HandleRuns.AppendsAreExact` | eventfs-fuse/src/fs/runtime.rs:625-737 | For sequential appends with commits failing or succeeding anywhere, committed payloads followed by the buffer are exactly the bytes written. |
| `HandleRuns.WholeValueIsExact` | eventfs-fuse/src/fs/runtime.rs:625-696 | In every run a whole-value buffer holds at each position the last byte staged since the last successful commit, over what that commit handed over or the bytes found at the opening, with zeros in gaps. |
| `HandleRuns.CommitHandsOverStaged` | eventfs-fuse/src/fs/runtime.rs:710-754 | In every run a commit of a whole value goes through if and only if something is due and the gate and the store or queue let it, and hands over the last byte staged at every position, or the payload of a new file when nothing is staged in a created one; otherwise it changes nothing. A release commits the same. |
| `HandleRuns.AppendCommitIsWhole` | eventfs-fuse/src/fs/runtime.rs:710-737 | A commit of lines that nothing refuses leaves nothing behind: everything written so far is committed, in order. |
| `HandleRuns.RetriesKeepTheSeed` | eventfs-fuse/src/fs/runtime.rs:625-737 | A handle whose commit has not gone through keeps its seed however often it is written to, truncated and committed in vain. |
| `HandleRuns.OpeningSucceedsExactly` | eventfs-fuse/src/fs/runtime.rs:509-558 | An opening for writing succeeds exactly when the gate is open, the path takes writes and lines are not truncated; a number is used up either way and no other handle changes. |
| `HandleRuns.AppendStartsBehindFound` | eventfs-fuse/src/fs/runtime.rs:573-608 | An appending handle starts with nothing staged behind the lines found; a write before that point is refused. |
| `HandleRuns.WriteRefusals` | eventfs-fuse/src/fs/runtime.rs:625-666 | Which write is refused with which error, exactly, and that a refused one stages nothing. |
| `HandleRuns.OtherRefusals` | eventfs-fuse/src/fs/runtime.rs:668-737 | The same for truncations and commits; a commit with nothing due succeeds and changes nothing. |
| `Handles.CommitSeedsAreUnique` | eventfs-fuse/src/fs/runtime.rs:616-623 | No two successful commits of a mount share a seed. |
| `HandleRuns.ClosedGateChangesNothing` | eventfs-fuse/src/fs/runtime.rs:110-116 | While the gate is closed nothing is committed or staged and no writable handle opens. |
| `Handles.Patched` | eventfs-fuse/src/fs/runtime.rs:655-662 | A positioned write byte by byte: data inside, old bytes outside, zeros in the gap. |
| `Handles.Overwrite` | eventfs-fuse/src/fs/runtime.rs:655-662 | Growing twice and copying gives the positioned write. |
| `Handles.HandleTable.OpenHandle` | eventfs-fuse/src/fs/runtime.rs:509-558 | Opening draws a handle number, and a seed if it succeeds. |
| `Handles.HandleTable.WriteToBuffer` | eventfs-fuse/src/fs/runtime.rs:625-666 | Error by error, which writes stage bytes and which only refresh the seed. |
| `Handles.HandleTable.StageTruncate` | eventfs-fuse/src/fs/runtime.rs:668-696 | Truncation clears a whole value and is refused for lines. |
| `Handles.HandleTable.CommitStaged` | eventfs-fuse/src/fs/runtime.rs:710-737 | A successful commit moves lines out of the buffer or keeps the whole value; what it hands over is HandleRuns.CommitHandsOverStaged and HandleRuns.AppendCommitIsWhole. |
| `Handles.HandleTable.ReleaseHandle` | eventfs-fuse/src/fs/runtime.rs:746-754 | Releasing commits, and drops the handle either way. |
| `PathCache.MapsStayInverse` | eventfs-fuse/src/path_cache.rs:35-92 | In every run the two maps are mutually inverse. |
| `PathCache.InodesAreNeverReused` | eventfs-fuse/src/path_cache.rs:35-44 | An inode never stands for two paths, and a dropped one never comes back. |
| `PathCache.TreeIsRemovedExactly` | eventfs-fuse/src/path_cache.rs:52-75 | Exactly the component-wise subtree and its inodes go; the root entry stays. |
| `PathCache.BelowIsRemovedExactly` | eventfs-fuse/src/path_cache.rs:77-92 | Exactly the strict descendants and their inodes go. |
| `PathCache.EnsureIsExact` | eventfs-fuse/src/path_cache.rs:35-44 | A known path keeps its inode and a new one gets a number never given out; it has the kind asked for and nothing else changes. |
| `PathCache.RemoveIsExact` | eventfs-fuse/src/path_cache.rs:46-50 | One path and its inode go and nothing else. |
| `PathCache.Cache.EnsurePath` | eventfs-fuse/src/path_cache.rs:35-44 | A known path keeps its inode, a new one gets the next. |
| `PathCache.Cache.RemovePath` | eventfs-fuse/src/path_cache.rs:46-50 | One path and its inode go. |
| `PathCache.Cache.RemoveTree` | eventfs-fuse/src/path_cache.rs:52-75 | The object form of the subtree removal. |
| `PathCache.Cache.RemoveBelow` | eventfs-fuse/src/path_cache.rs:77-92 | The object form of the descendant removal. |
| `MountText.DescendsIsPrefix` | eventfs-protocol/src/mount_paths.rs:57-69 | The string prefix test is exactly the component prefix. |
| `Ledger.ScopedKeyInjective` | eventfs-transport/src/storage/nats/ledger.rs:85-92 | Kinds without a bar and any parts are told apart by the key. |
| `Ledger.ScopedPartsInjective` | eventfs-transport/src/storage/nats/ledger.rs:85-92 | For one kind, any kind, the parts are told apart by the key. |
| `Ledger.KindWithBarCollides` | eventfs-transport/src/storage/nats/ledger.rs:85-92 | A kind with a bar could imitate parts; no caller has one. |
| `Ledger.EffectKeyInjective` | eventfs-transport/src/storage/nats/ledger.rs:26-36 | The recorded fact of one KV, object or line effect never proves another. |
| `Ledger.LedgerSubjectInjective` | eventfs-transport/src/storage/nats/ledger.rs:94-96 | Two ledger keys never share a subject. |
| `Ledger.BuildScopedKey` | eventfs-transport/src/storage/nats/ledger.rs:85-92 | The building loop equals the specified key. |

## Left out

- FUSE callbacks, attributes, stat kinds, the command line and the probe binary: plumbing without an invariant of its own.
- NATS connections, subscriptions, timeouts and error texts: the broker is data, and any call may fail.
- The NATS object store: chunks and rollup depend on library behaviour; objects are modelled on the in-memory store.
- File locking, fsync, the text format of the queue file and torn records: replacing the file is atomic and leaves the old or the new list on failure.
- JSON syntax, timestamps and version stamps: a parameter, or ignored.
- Overflow of 64-bit revisions, inodes, handle and commit numbers, which the code saturates or increments.
- Metadata files under /.eventfs, the error ring and diagnostic snapshots: formatting only.
- The planning table of eventfs-protocol/src/plan.rs: its results are built into the steps; a rename stays in one bucket.
- Making a directory that exists only through its contents, which reads the store and changes nothing.
- Listings with several pending entries (reads with several are in OverlayQueue), and listings of the materialized surfaces (tasks, agents, semantic): the listing result covers one pending operation and the KV and object trees; reads are covered under all aliases.
- Stream listings and history listings: single-level enumerations.
- Publishes that arrive after their call already failed and another call began: a failed call took effect before it returned, or never.
- CrashRuns.QueueStaysBounded: runs without direct enqueues, which the mount never makes outside a commit or rename.
- OverlayView.ReadsDoNotMove: no other writer, as a condition on the store (the rename source is the one read or gone, an applied put still shows); OverlayView.RunsAreUndisturbed derives it for runs of the entry alone.
- JsonlView.PendingViewIsConstant: nobody else appends to the same subject meanwhile, and its messages are not evicted.
- JsonlFiles.ReadIsWholeExactly: the same, with something pending for the path.
- Ledger.ScopedKeyInjective: which kinds with a bar collide is not characterised.
- JetStreamLines.PublishResumesExactly: a line may leave the stream only once the ledger recorded it, since otherwise nothing is left to recognise it by.
- CacheRuns.CacheAgreesWithStore: subject files are never cached, so the claim says nothing about them; a replay is any change of the store followed by dropping every entry.
- OverlayQueue.PendingReadsAsReplayed: nobody else writes meanwhile, as a condition on the store (each rename finds its source as it read it, or gone, when its turn comes).
- JetStreamPut.PutEnds: the applied marker is only promised if the broker does not suppress its id as a repetition.
- StoreListing.MissingBucketListing: puts only; a rename has read its source, so its bucket exists.
