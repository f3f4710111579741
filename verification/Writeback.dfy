/** The durable writeback queue, its replay executor and the write gate
    (eventfs-transport/src/writeback.rs) over the in-memory store.

    Every call that leaves the process (a store call, a queue file replacement) takes its outcome
    from a script. A call may fail before or after its effect, and the process may die before or
    after it, so a script describes every failure and every crash point of a run. */
module Writeback {
  import opened Text
  import opened JsonLines
  import opened MemoryStore

  /** A store call the mount makes itself, while the gate is open, and never queues. */
  datatype DirectCall =
    | UnlinkKey(bucket: string, key: string)
    | UnlinkName(bucket: string, name: string)
    | MakeBucket(bucket: string)
    | MakeObjectBucket(bucket: string)
    | MakeStream(stream: string)

  datatype Operation =
    | KvPut(bucket: string, key: string, bytes: Bytes)
    | KvRenameComplete(fromBucket: string, fromKey: string, expectedFromRevision: nat,
                       toBucket: string, toKey: string, bytes: Bytes)
    | ObjectPut(bucket: string, name: string, bytes: Bytes)
    | ObjectRenameComplete(fromBucket: string, fromName: string, expectedFromSequence: nat,
                           expectedFromNuid: string, toBucket: string, toName: string, bytes: Bytes)
    | PublishJsonLines(stream: string, subject: string, bytes: Bytes, appliedLines: nat)
    | MaterializedPut(bucket: string, key: string, bytes: Bytes)
    | Direct(call: DirectCall)

  /** What the queue can hold. */
  type QueueOperation = op: Operation | !op.Direct? witness KvPut("", "", "")

  datatype QueueEntry = QueueEntry(key: string, operation: QueueOperation, attempts: nat, done: bool)

  /** What an entry asks for, without the progress it carries. */
  datatype Request = Request(key: string, operation: Operation)

  function RequestOf(e: QueueEntry): (r: Request)
    ensures !r.operation.Direct?
  {
    Request(e.key, if e.operation.PublishJsonLines? then e.operation.(appliedLines := 0) else e.operation)
  }

  function Requests(entries: seq<QueueEntry>): (rs: seq<Request>)
    ensures |rs| == |entries|
    ensures forall i :: 0 <= i < |rs| ==> rs[i] == RequestOf(entries[i])
  {
    seq(|entries|, i requires 0 <= i < |entries| => RequestOf(entries[i]))
  }

  predicate IsRename(op: Operation) {
    op.KvRenameComplete? || op.ObjectRenameComplete?
  }

  /** Validation of a payload that must consist of JSON lines, given which payloads validate. */
  predicate Executable(accepts: Bytes -> bool, op: QueueOperation) {
    op.PublishJsonLines? ==> accepts(op.bytes)
  }

  // ---- what an operation does to the store ----

  /** The value an operation writes. */
  datatype Put =
    | PutKey(bucket: string, key: string, bytes: Bytes)
    | PutName(bucket: string, name: string, bytes: Bytes)
    | PutLines(stream: string, subject: string, bytes: Bytes)

  /** The guarded delete that completes a rename. */
  datatype Delete =
    | Keep
    | DeleteKey(bucket: string, key: string, expected: nat)
    | DeleteName(bucket: string, name: string, expected: nat, nuid: string)

  function PutOf(op: QueueOperation): Put {
    match op
    case KvPut(b, k, v) => PutKey(b, k, v)
    case MaterializedPut(b, k, v) => PutKey(b, k, v)
    case KvRenameComplete(_, _, _, b, k, v) => PutKey(b, k, v)
    case ObjectPut(b, n, v) => PutName(b, n, v)
    case ObjectRenameComplete(_, _, _, _, b, n, v) => PutName(b, n, v)
    case PublishJsonLines(s, subject, v, _) => PutLines(s, subject, v)
  }

  function DeleteOf(op: QueueOperation): Delete {
    match op
    case KvRenameComplete(b, k, revision, _, _, _) => DeleteKey(b, k, revision)
    case ObjectRenameComplete(b, n, sequence, nuid, _, _, _) => DeleteName(b, n, sequence, nuid)
    case _ => Keep
  }

  /** The put with its applied fact, without the idempotency test. */
  function PutOnce(st: Store, put: Put, id: string): Store {
    match put
    case PutKey(b, k, v) => KvPutOnce(st, b, k, v, id)
    case PutName(b, n, v) => ObjectPutOnce(st, b, n, v, id)
    case PutLines(s, subject, v) => PublishOnce(st, s, subject, v, id)
  }

  predicate PutApplied(st: Store, put: Put, id: string) {
    match put
    case PutKey(b, k, _) => KvPutApplied(st, b, k, id)
    case PutName(b, n, _) => ObjectPutApplied(st, b, n, id)
    case PutLines(s, subject, _) => PublishApplied(st, s, subject, id)
  }

  function PutIdempotent(st: Store, put: Put, id: string): Store {
    match put
    case PutKey(b, k, v) => KvPutIdempotent(st, b, k, v, id)
    case PutName(b, n, v) => ObjectPutIdempotent(st, b, n, v, id)
    case PutLines(s, subject, v) => PublishIdempotent(st, s, subject, v, id)
  }

  predicate DeleteApplied(st: Store, del: Delete) {
    match del
    case Keep => true
    case DeleteKey(b, k, expected) => KvDeleteIfRevisionApplied(st, b, k, expected)
    case DeleteName(b, n, expected, nuid) => ObjectDeleteIfSequenceApplied(st, b, n, expected, nuid)
  }

  function DeleteIf(st: Store, del: Delete): Store {
    match del
    case Keep => st
    case DeleteKey(b, k, expected) => KvDeleteIfRevision(st, b, k, expected)
    case DeleteName(b, n, expected, nuid) => ObjectDeleteIfSequence(st, b, n, expected, nuid)
  }

  /** `is_applied` on an executable operation. */
  function IsApplied(st: Store, key: string, op: QueueOperation): bool {
    PutApplied(st, PutOf(op), key) && DeleteApplied(st, DeleteOf(op))
  }

  // ---- direct calls ----

  /** The call finds nothing to work on and reports so. */
  predicate Missing(st: Store, call: DirectCall) {
    match call
    case UnlinkKey(b, k) => KvDelete(st, b, k) == None
    case UnlinkName(b, n) => ObjectDelete(st, b, n) == None
    case _ => false
  }

  function DirectEffect(st: Store, call: DirectCall): Store {
    match call
    case UnlinkKey(b, k) => var after := KvDelete(st, b, k); if after.Some? then after.value else st
    case UnlinkName(b, n) => var after := ObjectDelete(st, b, n); if after.Some? then after.value else st
    case MakeBucket(b) => st.(kvBuckets := st.kvBuckets + {b})
    case MakeObjectBucket(b) => st.(objectBuckets := st.objectBuckets + {b})
    case MakeStream(s) => if s in st.streams then st else st.(streams := st.streams[s := []])
  }

  // ---- calls with outcomes ----

  datatype Outcome = Fine | ErrBefore | ErrAfter | CrashBefore | CrashAfter
  datatype Status = Done | Failed | Crashed

  predicate Effective(o: Outcome) { o.Fine? || o.ErrAfter? || o.CrashAfter? }

  function StatusOf(o: Outcome): Status {
    match o
    case Fine => Done
    case ErrBefore | ErrAfter => Failed
    case CrashBefore | CrashAfter => Crashed
  }

  /** The next outcome; a script that ran out means nothing else goes wrong. */
  function Head(script: seq<Outcome>): Outcome { if script == [] then Fine else script[0] }
  function Tail(script: seq<Outcome>): seq<Outcome> { if script == [] then [] else script[1..] }

  /** A mount process: the queue in memory while it is open, the queue file, and the store. */
  datatype Process = Process(open: bool, entries: seq<QueueEntry>, file: seq<QueueEntry>, store: Store)
  datatype Reply = Reply(p: Process, status: Status, script: seq<Outcome>)

  function Survive(p: Process, status: Status): Process {
    if status.Crashed? then p.(open := false, entries := []) else p
  }

  /** `replace_entries`: an atomic file replacement, then the same list in memory. */
  function Replace(p: Process, entries: seq<QueueEntry>, script: seq<Outcome>): (r: Reply)
    ensures r.p.store == p.store && r.p.open == (p.open && !r.status.Crashed?)
    ensures r.status.Done? ==> r.p.entries == r.p.file == entries
    ensures r.status.Failed? ==> r.p.entries == p.entries
    ensures r.status.Crashed? ==> r.p.entries == []
    ensures r.p.file == p.file || r.p.file == entries
  {
    var o := Head(script);
    var written := if Effective(o) then p.(file := entries) else p;
    var kept := if o.Fine? then written.(entries := entries) else written;
    Reply(Survive(kept, StatusOf(o)), StatusOf(o), Tail(script))
  }

  function StoreCall(p: Process, after: Store, script: seq<Outcome>): (r: Reply)
    ensures r.p.file == p.file && r.p.open == (p.open && !r.status.Crashed?)
    ensures r.p.entries == if r.status.Crashed? then [] else p.entries
    ensures r.status.Done? ==> r.p.store == after
  {
    var o := Head(script);
    Reply(Survive(if Effective(o) then p.(store := after) else p, StatusOf(o)), StatusOf(o), Tail(script))
  }

  function ReadCall(p: Process, script: seq<Outcome>): Reply {
    Reply(Survive(p, StatusOf(Head(script))), StatusOf(Head(script)), Tail(script))
  }

  /** `StoreReplayExecutor::execute`. */
  function Execute(accepts: Bytes -> bool, p: Process, e: QueueEntry, script: seq<Outcome>): (r: Reply)
    ensures r.p.file == p.file && r.p.open == (p.open && !r.status.Crashed?)
    ensures r.p.entries == if r.status.Crashed? then [] else p.entries
  {
    if !Executable(accepts, e.operation) then Reply(p, Failed, script)
    else
      var first := StoreCall(p, PutIdempotent(p.store, PutOf(e.operation), e.key), script);
      if !first.status.Done? || !IsRename(e.operation) then first
      else StoreCall(first.p, DeleteIf(first.p.store, DeleteOf(e.operation)), first.script)
  }

  function Max(a: nat, b: nat): nat { if a < b then b else a }

  /** `refresh_after_failed_execute`: a failed progress read is only logged. */
  function Refresh(accepts: Bytes -> bool, p: Process, e: QueueEntry, script: seq<Outcome>): (Reply, QueueEntry) {
    if !e.operation.PublishJsonLines? || !Executable(accepts, e.operation) then (Reply(p, Done, script), e)
    else
      var op := e.operation;
      var prefix := PublishAppliedPrefix(p.store, op.stream, op.subject, e.key);
      var read := ReadCall(p, script);
      (read, if read.status.Done? then e.(operation := op.(appliedLines := Max(op.appliedLines, prefix))) else e)
  }

  const U32_MAX: nat := 0xffff_ffff

  function Attempted(e: QueueEntry): QueueEntry {
    e.(attempts := if e.attempts < U32_MAX then e.attempts + 1 else e.attempts)
  }

  /** The failure branch of the replay loop: record progress, then report the error. */
  function AfterFailedExecute(accepts: Bytes -> bool, p: Process, script: seq<Outcome>): (r: Reply)
    requires p.entries != []
    ensures !r.status.Done? && r.p.store == p.store && r.p.open == (p.open && !r.status.Crashed?)
    ensures r.status.Failed? ==> |r.p.entries| == |p.entries|
  {
    var (read, e) := Refresh(accepts, p, p.entries[0], script);
    if read.status.Crashed? then read
    else
      var saved := Replace(read.p, p.entries[0 := e], read.script);
      if saved.status.Done? then saved.(status := Failed) else saved
  }

  /** One turn of the replay loop. `Done` means the head entry is gone. */
  function ReplayTurn(accepts: Bytes -> bool, p: Process, script: seq<Outcome>): (r: Reply)
    requires p.entries != []
    ensures r.p.open == (p.open && !r.status.Crashed?)
    ensures r.status.Done? ==> r.p.entries == r.p.file == p.entries[1..]
    ensures r.status.Failed? ==> |r.p.entries| == |p.entries|
  {
    var e := p.entries[0];
    if e.done then Replace(p, p.entries[1..], script)
    else if !Executable(accepts, e.operation) then Reply(p, Failed, script)
    else
      var check := ReadCall(p, script);
      if !check.status.Done? then check
      else if IsApplied(p.store, e.key, e.operation) then Replace(p, p.entries[1..], check.script)
      else
        var attempt := Replace(p, p.entries[0 := Attempted(e)], check.script);
        if !attempt.status.Done? then attempt
        else
          var run := Execute(accepts, attempt.p, attempt.p.entries[0], attempt.script);
          match run.status
          case Crashed => run
          case Failed => AfterFailedExecute(accepts, run.p, run.script)
          case Done => Replace(run.p, run.p.entries[1..], run.script)
  }

  /** `WritebackQueue::replay`. */
  function Replay(accepts: Bytes -> bool, p: Process, script: seq<Outcome>): (r: Reply)
    ensures r.p.open == (p.open && !r.status.Crashed?)
    ensures r.status.Done? ==> r.p.entries == []
    ensures r.status.Failed? ==> 0 < |r.p.entries| <= |p.entries|
    decreases |p.entries|
  {
    if p.entries == [] then Reply(p, Done, script)
    else
      var turn := ReplayTurn(accepts, p, script);
      if turn.status.Done? then Replay(accepts, turn.p, turn.script) else turn
  }

  predicate HasKey(entries: seq<QueueEntry>, key: string) {
    exists i :: 0 <= i < |entries| && entries[i].key == key
  }

  /** The entries of a batch that are not queued yet, the first of each key. */
  function NewEntries(queued: seq<QueueEntry>, batch: seq<QueueEntry>): seq<QueueEntry> {
    if batch == [] then []
    else
      var before := NewEntries(queued, batch[..|batch| - 1]);
      var e := batch[|batch| - 1];
      if HasKey(queued, e.key) || HasKey(before, e.key) then before else before + [e]
  }

  /** `enqueue_all`. */
  function EnqueueAll(p: Process, capacity: nat, batch: seq<QueueEntry>, script: seq<Outcome>): Reply {
    var added := NewEntries(p.entries, batch);
    if added == [] then Reply(p, Done, script)
    else if |p.entries| + |added| > capacity then Reply(p, Failed, script)
    else Replace(p, p.entries + added, script)
  }

  function Live(entries: seq<QueueEntry>): (live: seq<QueueEntry>)
    ensures forall i :: 0 <= i < |live| ==> !live[i].done
    ensures |live| <= |entries|
  {
    if entries == [] then []
    else (if entries[0].done then [] else [entries[0]]) + Live(entries[1..])
  }

  /** `open`: read the file, drop completed entries, write the file back if any were dropped. */
  function Open(p: Process, script: seq<Outcome>): Reply {
    var live := Live(p.file);
    if |live| == |p.file| then Reply(p.(open := true, entries := live), Done, script)
    else
      var o := Head(script);
      var written := if Effective(o) then p.(file := live) else p;
      Reply(if o.Fine? then written.(open := true, entries := live) else written.(open := false, entries := []),
            StatusOf(o), Tail(script))
  }

  predicate HasPending(entries: seq<QueueEntry>) {
    Live(entries) != []
  }
}
