/** The writeback queue, gate and replay as the objects the source has, each method proved against the
    function of `Writeback` that the run theorems are about. */
module WritebackQueue {
  import opened JsonLines
  import opened MemoryStore
  import opened Writeback

  datatype GateTransition = Unchanged | Blocked | Unblocked

  class WritebackGate {
    var acceptingWrites: bool

    constructor ()
      ensures acceptingWrites
    {
      acceptingWrites := true;
    }

    /** `sync_pending`. */
    method SyncPending(hasPending: bool) returns (transition: GateTransition)
      modifies this
      ensures acceptingWrites == !hasPending
      ensures transition == if old(acceptingWrites) == acceptingWrites then Unchanged
                            else if acceptingWrites then Unblocked else Blocked
    {
      if acceptingWrites && hasPending {
        acceptingWrites := false;
        return Blocked;
      }
      if !acceptingWrites && !hasPending {
        acceptingWrites := true;
        return Unblocked;
      }
      return Unchanged;
    }
  }

  class WritebackQueue {
    const accepts: Bytes -> bool
    const capacity: nat
    const store: MemoryStorage
    var open: bool
    var entries: seq<QueueEntry>
    var file: seq<QueueEntry>
    var faults: seq<Outcome>  // the outcomes of the calls to come

    function View(): Process
      reads this, store
    {
      Process(open, entries, file, store.State())
    }

    /** `open` on a queue file left by an earlier mount; the object is unusable if that fails. */
    constructor (accepts: Bytes -> bool, capacity: nat, store: MemoryStorage, file: seq<QueueEntry>,
      faults: seq<Outcome>)
      ensures this.accepts == accepts && this.capacity == capacity && this.store == store
      ensures var r := Open(Process(false, [], file, store.State()), faults); View() == r.p && this.faults == r.script
    {
      var live := Live(file);
      this.accepts, this.capacity, this.store := accepts, capacity, store;
      if |live| == |file| {
        this.open, this.entries, this.file, this.faults := true, live, file, faults;
      } else {
        var o := Head(faults);
        this.open, this.entries := o.Fine?, if o.Fine? then live else [];
        this.file, this.faults := if Effective(o) then live else file, Tail(faults);
      }
    }

    method NextOutcome() returns (o: Outcome)
      modifies this`faults
      ensures o == Head(old(faults)) && faults == Tail(old(faults))
    {
      o := Head(faults);
      faults := Tail(faults);
    }

    method Die()
      modifies this`open, this`entries
      ensures !open && entries == []
    {
      open, entries := false, [];
    }

    /** `replace_entries`. */
    method ReplaceEntries(candidate: seq<QueueEntry>) returns (status: Status)
      modifies this
      ensures Reply(View(), status, faults) == Replace(old(View()), candidate, old(faults))
    {
      var o := NextOutcome();
      if Effective(o) {
        file := candidate;
      }
      if o.Fine? {
        entries := candidate;
      }
      status := StatusOf(o);
      if status.Crashed? {
        Die();
      }
    }

    method ReadStore() returns (status: Status)
      modifies this
      ensures Reply(View(), status, faults) == ReadCall(old(View()), old(faults))
    {
      var o := NextOutcome();
      status := StatusOf(o);
      if status.Crashed? {
        Die();
      }
    }

    method PutCall(put: Put, id: string) returns (status: Status)
      modifies this, store
      ensures Reply(View(), status, faults) ==
              StoreCall(old(View()), PutIdempotent(old(store.State()), put, id), old(faults))
    {
      var o := NextOutcome();
      if Effective(o) {
        match put
        case PutKey(b, k, v) => var _ := store.PutKeyValueIdempotent(b, k, v, id);
        case PutName(b, n, v) => store.PutObjectIdempotent(b, n, v, id);
        case PutLines(s, subject, v) => store.PublishJsonLines(s, subject, v, id);
      }
      status := StatusOf(o);
      if status.Crashed? {
        Die();
      }
    }

    method DeleteCall(del: Delete) returns (status: Status)
      modifies this, store
      ensures Reply(View(), status, faults) == StoreCall(old(View()), DeleteIf(old(store.State()), del), old(faults))
    {
      var o := NextOutcome();
      if Effective(o) {
        match del
        case Keep =>
        case DeleteKey(b, k, expected) => store.DeleteKeyIfRevision(b, k, expected);
        case DeleteName(b, n, expected, nuid) => store.DeleteObjectIfSequence(b, n, expected, nuid);
      }
      status := StatusOf(o);
      if status.Crashed? {
        Die();
      }
    }

    /** `StoreReplayExecutor::execute`. */
    method ExecuteEntry(e: QueueEntry) returns (status: Status)
      modifies this, store
      ensures Reply(View(), status, faults) == Execute(accepts, old(View()), e, old(faults))
    {
      if !Executable(accepts, e.operation) {
        return Failed;
      }
      status := PutCall(PutOf(e.operation), e.key);
      if status.Done? && IsRename(e.operation) {
        status := DeleteCall(DeleteOf(e.operation));
      }
    }

    method RecordProgress() returns (status: Status)
      requires entries != []
      modifies this
      ensures Reply(View(), status, faults) == AfterFailedExecute(accepts, old(View()), old(faults))
    {
      var e := entries[0];
      if e.operation.PublishJsonLines? && Executable(accepts, e.operation) {
        var op := e.operation;
        var prefix := PublishAppliedPrefix(store.State(), op.stream, op.subject, e.key);
        var read := ReadStore();
        if read.Crashed? {
          return Crashed;
        }
        if read.Done? {
          e := e.(operation := op.(appliedLines := Max(op.appliedLines, prefix)));
        }
      }
      status := ReplaceEntries(entries[0 := e]);
      if status.Done? {
        status := Failed;
      }
    }

    method Turn() returns (status: Status)
      requires entries != []
      modifies this, store
      ensures Reply(View(), status, faults) == ReplayTurn(accepts, old(View()), old(faults))
    {
      var e := entries[0];
      if e.done {
        status := ReplaceEntries(entries[1..]);
        return;
      }
      if !Executable(accepts, e.operation) {
        return Failed;
      }
      status := ReadStore();
      if !status.Done? {
        return;
      }
      if IsApplied(store.State(), e.key, e.operation) {
        status := ReplaceEntries(entries[1..]);
        return;
      }
      status := ReplaceEntries(entries[0 := Attempted(e)]);
      if !status.Done? {
        return;
      }
      status := ExecuteEntry(entries[0]);
      if status.Failed? {
        status := RecordProgress();
      } else if status.Done? {
        status := ReplaceEntries(entries[1..]);
      }
    }

    /** `WritebackQueue::replay`: the loop over the head of the queue. */
    method ReplayQueue() returns (status: Status)
      modifies this, store
      ensures Reply(View(), status, faults) == Replay(accepts, old(View()), old(faults))
    {
      status := Done;
      while status.Done? && entries != []
        invariant status.Done? ==>
                    Replay(accepts, View(), faults) == Replay(accepts, old(View()), old(faults))
        invariant !status.Done? ==>
                    Reply(View(), status, faults) == Replay(accepts, old(View()), old(faults))
        decreases status.Done?, |entries|
      {
        ghost var p, script := View(), faults;
        status := Turn();
        assert Replay(accepts, p, script) ==
               (if status.Done? then Replay(accepts, View(), faults) else Reply(View(), status, faults));
      }
    }

    /** The filter loop of `enqueue_all`. */
    static method Unqueued(queued: seq<QueueEntry>, batch: seq<QueueEntry>) returns (pending: seq<QueueEntry>)
      ensures pending == NewEntries(queued, batch)
    {
      pending := [];
      for i := 0 to |batch|
        invariant pending == NewEntries(queued, batch[..i])
      {
        assert batch[..i + 1][..i] == batch[..i];
        if !HasKey(queued, batch[i].key) && !HasKey(pending, batch[i].key) {
          pending := pending + [batch[i]];
        }
      }
      assert batch[..|batch|] == batch;
    }

    method Enqueue(batch: seq<QueueEntry>) returns (status: Status)
      modifies this
      ensures Reply(View(), status, faults) == EnqueueAll(old(View()), capacity, batch, old(faults))
    {
      var pending := Unqueued(entries, batch);
      if pending == [] {
        return Done;
      }
      if |entries| + |pending| > capacity {
        return Failed;
      }
      status := ReplaceEntries(entries + pending);
    }
  }

  /** `WritebackReplay`: every public operation leaves the gate in step with the queue. */
  class WritebackReplay {
    const queue: WritebackQueue
    const gate: WritebackGate

    predicate Synced()
      reads this, queue, gate
    {
      gate.acceptingWrites == !HasPending(queue.entries)
    }

    constructor (queue: WritebackQueue)
      ensures this.queue == queue && fresh(gate) && Synced()
    {
      this.queue := queue;
      gate := new WritebackGate();
      new;
      var _ := gate.SyncPending(HasPending(queue.entries));
    }

    method EnqueueFailedWrite(e: QueueEntry) returns (status: Status)
      requires Synced()
      modifies queue, gate
      ensures Reply(queue.View(), status, queue.faults) ==
              EnqueueAll(old(queue.View()), queue.capacity, [e], old(queue.faults))
      ensures queue.open ==> Synced()
    {
      status := queue.Enqueue([e]);
      if status.Done? {
        var _ := gate.SyncPending(HasPending(queue.entries));
      }
    }

    method ReplayAll() returns (status: Status)
      requires Synced()
      modifies queue, queue.store, gate
      ensures Reply(queue.View(), status, queue.faults) ==
              Replay(queue.accepts, old(queue.View()), old(queue.faults))
      ensures queue.open ==> Synced()
    {
      status := queue.ReplayQueue();
      var _ := gate.SyncPending(HasPending(queue.entries));
    }
  }
}
