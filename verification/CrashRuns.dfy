/** Runs of a mount over the writeback queue: commits, renames, enqueues, replays, failures, crashes
    and reopens in any order. The main result is that a drained queue leaves the store equal to one
    in-order application of the accepted requests, each exactly once. */
module CrashRuns {
  import opened JsonLines
  import opened MemoryStore
  import opened Writeback
  import opened ReplayInvariant

  datatype Config = Config(capacity: nat, accepts: Bytes -> bool)

  datatype Event =
    | Reopen(script: seq<Outcome>)
    | Crash
    | Enqueue(e: QueueEntry, script: seq<Outcome>)  // `enqueue_failed_write`, which has no gate of its own
    | Commit(e: QueueEntry, script: seq<Outcome>)   // a write through the mount
    | Rename(e: QueueEntry, script: seq<Outcome>)   // a rename through the mount
    | Unlink(ticket: string, call: DirectCall, script: seq<Outcome>)  // a delete through the mount
    | Mkdir(ticket: string, call: DirectCall, script: seq<Outcome>)   // a new bucket or stream through the mount
    | ReplayAll(script: seq<Outcome>)

  /** The process with its write gate, and what callers have been told. `accepted` lists requests in
      the order in which they were first seen in the open queue or in the store. */
  datatype World = World(p: Process, accepting: bool, accepted: seq<Request>,
                         acked: set<Request>, refused: set<Request>, openedWith: nat)

  function SyncGate(w: World): World {
    w.(accepting := !HasPending(w.p.entries))
  }

  function Tell(w: World, r: Request, status: Status): World {
    if status.Done? then w.(acked := w.acked + {r}) else w.(refused := w.refused + {r})
  }

  function SeenInStore(st: Store, r: Request): seq<Request>
    requires !r.operation.Direct?
  {
    if PutApplied(st, PutOf(r.operation), r.key) then [r] else []
  }

  /** `commit_mount_path_with_seed`: try the store, queue the write if that fails. */
  function CommitReply(c: Config, p: Process, e: QueueEntry, script: seq<Outcome>): Reply {
    var run := Execute(c.accepts, p, e, script);
    if run.status.Failed? then EnqueueAll(run.p, c.capacity, [e], run.script) else run
  }

  predicate MayWrite(c: Config, w: World, e: QueueEntry) {
    w.p.open && w.accepting && Executable(c.accepts, e.operation)
  }

  function ReopenStep(w: World, script: seq<Outcome>): World
    requires !w.p.open
  {
    var r := Open(w.p, script);
    if !r.status.Done? then w.(p := r.p)
    else SyncGate(w.(p := r.p, accepted := Extend(w.accepted, Requests(r.p.entries)), openedWith := |r.p.entries|))
  }

  function EnqueueStep(c: Config, w: World, e: QueueEntry, script: seq<Outcome>): World {
    var r := EnqueueAll(w.p, c.capacity, [e], script);
    var told := Tell(w.(p := r.p, accepted := Extend(w.accepted, Requests(r.p.entries))), RequestOf(e), r.status);
    if r.status.Done? then SyncGate(told) else told
  }

  function CommitStep(c: Config, w: World, e: QueueEntry, script: seq<Outcome>): World {
    var r := CommitReply(c, w.p, e, script);
    var seen := Extend(Extend(w.accepted, SeenInStore(r.p.store, RequestOf(e))), Requests(r.p.entries));
    var told := Tell(w.(p := r.p, accepted := seen), RequestOf(e), r.status);
    if r.status.Done? then SyncGate(told) else told
  }

  /** `execute_rename`: queue the completion, then replay; the rename stands even if the replay fails. */
  function RenameStep(c: Config, w: World, e: QueueEntry, script: seq<Outcome>): World {
    var queued := EnqueueAll(w.p, c.capacity, [e], script);
    var seen := w.(p := queued.p, accepted := Extend(w.accepted, Requests(queued.p.entries)));
    if !queued.status.Done? then Tell(seen, RequestOf(e), queued.status)
    else
      var r := Replay(c.accepts, queued.p, queued.script);
      if r.status.Crashed? then Tell(seen.(p := r.p), RequestOf(e), r.status)
      else SyncGate(Tell(seen.(p := r.p), RequestOf(e), Done))
  }

  /** A direct call may go out: the mount is up and its gate open. */
  predicate MayCall(w: World) {
    w.p.open && w.accepting
  }

  /** The part of `execute_unlink` and `execute_mkdir` behind the gate. The call enters the log if it took
      effect; one that finds nothing to delete fails without effect. */
  function CallStep(w: World, ticket: string, call: DirectCall, script: seq<Outcome>): World {
    var r, reply := Request(ticket, Direct(call)), StoreCall(w.p, DirectEffect(w.p.store, call), script);
    var missing := Missing(w.p.store, call);
    var log := if Effective(Head(script)) && !missing then w.accepted + [r] else w.accepted;
    Tell(w.(p := reply.p, accepted := log), r, if missing && reply.status.Done? then Failed else reply.status)
  }

  function ReplayStep(c: Config, w: World, script: seq<Outcome>): World {
    var r := Replay(c.accepts, w.p, script);
    if r.status.Crashed? then w.(p := r.p) else SyncGate(w.(p := r.p))
  }

  function Step(c: Config, w: World, ev: Event): World {
    match ev
    case Reopen(script) => if w.p.open then w else ReopenStep(w, script)
    case Crash => w.(p := Survive(w.p, Crashed))
    case Enqueue(e, script) => if w.p.open then EnqueueStep(c, w, e, script) else w
    case Commit(e, script) => if MayWrite(c, w, e) then CommitStep(c, w, e, script) else w
    case Rename(e, script) => if MayWrite(c, w, e) then RenameStep(c, w, e, script) else w
    case Unlink(ticket, call, script) => if MayCall(w) then CallStep(w, ticket, call, script) else w
    case Mkdir(ticket, call, script) => if MayCall(w) then CallStep(w, ticket, call, script) else w
    case ReplayAll(script) => if w.p.open then ReplayStep(c, w, script) else w
  }

  function Run(c: Config, w: World, events: seq<Event>): World {
    if events == [] then w else Step(c, Run(c, w, events[..|events| - 1]), events[|events| - 1])
  }

  // ---- what callers must respect ----

  /** A caller never gives one key to two operations, and never reuses the key of a rename
      (`execute_rename` draws a new commit seed every time). Direct calls carry no key; `ticket` tells one
      call of a run from another. */
  ghost predicate Admissible(owner: string -> Operation, st0: Store, w: World, initial: set<Request>, ev: Event) {
    match ev
    case Reopen(_) => true
    case Crash => true
    case ReplayAll(_) => true
    case Enqueue(e, _) => AdmissibleEntry(owner, st0, w, initial, e)
    case Commit(e, _) => AdmissibleEntry(owner, st0, w, initial, e) && !IsRename(e.operation)
    case Rename(e, _) => AdmissibleEntry(owner, st0, w, initial, e) && IsRename(e.operation)
    case Unlink(ticket, call, _) => IsUnlink(call) && AdmissibleCall(owner, st0, w, initial, ticket, call)
    case Mkdir(ticket, call, _) => !IsUnlink(call) && AdmissibleCall(owner, st0, w, initial, ticket, call)
  }

  ghost predicate AdmissibleEntry(owner: string -> Operation, st0: Store, w: World, initial: set<Request>,
                                  e: QueueEntry) {
    && !e.done
    && Owned(owner, st0, [RequestOf(e)])
    && (IsRename(e.operation) ==> RequestOf(e) !in Known(w, initial))
  }

  predicate IsUnlink(call: DirectCall) {
    call.UnlinkKey? || call.UnlinkName?
  }

  ghost predicate AdmissibleCall(owner: string -> Operation, st0: Store, w: World, initial: set<Request>,
                                 ticket: string, call: DirectCall)
  {
    var r := Request(ticket, Direct(call));
    Owned(owner, st0, [r]) && r !in Known(w, initial)
  }

  ghost predicate AdmissibleRun(c: Config, owner: string -> Operation, st0: Store, w: World, initial: set<Request>,
                                events: seq<Event>)
  {
    forall n :: 0 <= n < |events| ==> Admissible(owner, st0, Run(c, w, events[..n]), initial, events[n])
  }

  /** A mount that has not started: a store, the queue file an earlier mount left behind, and the log of
      what earlier mounts began. */
  function Start(st: Store, file: seq<QueueEntry>, log: seq<Request>): World {
    World(Process(false, [], file, st), false, log, {}, {}, 0)
  }

  function Initial(file: seq<QueueEntry>, log: seq<Request>): set<Request> {
    (set r | r in Requests(Live(file))) + set r | r in log
  }

  /** What earlier mounts may leave: `st` is `st0` with a first part of the log applied, the last request
      possibly a rename without its delete, and the file holds the rest, possibly with entries that were
      applied already. A first mount has an empty log and `st == st0`. */
  ghost predicate Startable(owner: string -> Operation, st0: Store, st: Store, file: seq<QueueEntry>,
                            log: seq<Request>) {
    exists begun, half :: ProcessOk(owner, st0, Process(false, [], file, st), log, begun, half)
  }

  // ---- the invariant of a world ----

  function Known(w: World, initial: set<Request>): set<Request> {
    initial + w.acked + w.refused
  }

  ghost predicate WorldOk(owner: string -> Operation, st0: Store, initial: set<Request>, w: World, begun: nat,
                          half: bool) {
    && ProcessOk(owner, st0, w.p, w.accepted, begun, half)
    && (w.p.open ==> (w.accepting <==> w.p.entries == []))
    && (forall r :: r in w.accepted ==> r in Known(w, initial))
    && Names(w.p.entries) + Names(Live(w.p.file)) <= Known(w, initial)
    && (forall r :: r in w.acked ==> r in w.accepted)
    && (forall r :: r in initial ==> r in w.accepted || (!w.p.open && r in Names(Live(w.p.file))))
  }

  // ---- nothing unknown gets into the queue or its file ----

  function Names(entries: seq<QueueEntry>): set<Request> {
    set e | e in entries :: RequestOf(e)
  }

  lemma NamesAre(entries: seq<QueueEntry>)
    ensures forall r :: r in Requests(entries) <==> r in Names(entries)
  {
    forall r | r in Names(entries)
      ensures r in Requests(entries)
    {
      var e :| e in entries && RequestOf(e) == r;
      var i :| 0 <= i < |entries| && entries[i] == e;
      assert Requests(entries)[i] == r;
    }
  }

  lemma NamesHead(entries: seq<QueueEntry>)
    requires entries != []
    ensures Names(entries) == {RequestOf(entries[0])} + Names(entries[1..])
  {
    assert forall e :: e in entries <==> e == entries[0] || e in entries[1..];
  }

  lemma {:induction false} LiveNames(entries: seq<QueueEntry>)
    ensures Names(Live(entries)) <= Names(entries)
  {
    if entries != [] {
      LiveNames(entries[1..]);
      NamesHead(entries);
      if !entries[0].done {
        NamesHead(Live(entries));
      }
    }
  }

  lemma SameNames(entries: seq<QueueEntry>, e: QueueEntry)
    requires entries != [] && RequestOf(e) == RequestOf(entries[0])
    ensures Names(entries[0 := e]) <= Names(entries)
  {
    assert forall x :: x in entries[0 := e] ==> x == e || x in entries;
    assert entries[0] in entries;
  }

  lemma AfterFailedNames(accepts: Bytes -> bool, p: Process, script: seq<Outcome>)
    requires p.entries != []
    ensures var r := AfterFailedExecute(accepts, p, script);
            Names(r.p.entries) + Names(r.p.file) <= Names(p.entries) + Names(p.file)
  {
    var (_, e) := Refresh(accepts, p, p.entries[0], script);
    SameNames(p.entries, e);
  }

  lemma TurnNames(accepts: Bytes -> bool, p: Process, script: seq<Outcome>)
    requires p.entries != []
    ensures var r := ReplayTurn(accepts, p, script);
            Names(r.p.entries) + Names(r.p.file) <= Names(p.entries) + Names(p.file)
  {
    hide IsApplied, AfterFailedExecute, Executable, Replace, Execute;
    NamesHead(p.entries);
    var e, check := p.entries[0], ReadCall(p, script);
    SameNames(p.entries, Attempted(e));
    var attempt := Replace(p, p.entries[0 := Attempted(e)], check.script);
    if attempt.status.Done? {
      assert attempt.p.entries[1..] == p.entries[1..];
      var run := Execute(accepts, attempt.p, attempt.p.entries[0], attempt.script);
      if run.status.Failed? {
        AfterFailedNames(accepts, run.p, run.script);
      }
    }
  }

  lemma {:induction false} ReplayNames(accepts: Bytes -> bool, p: Process, script: seq<Outcome>)
    ensures var r := Replay(accepts, p, script);
            Names(r.p.entries) + Names(r.p.file) <= Names(p.entries) + Names(p.file)
    decreases |p.entries|
  {
    hide ReplayTurn;
    if p.entries != [] {
      TurnNames(accepts, p, script);
      var turn := ReplayTurn(accepts, p, script);
      if turn.status.Done? {
        ReplayNames(accepts, turn.p, turn.script);
      }
    }
  }

  lemma EnqueueNames(p: Process, capacity: nat, e: QueueEntry, script: seq<Outcome>)
    ensures var r := EnqueueAll(p, capacity, [e], script);
            Names(r.p.entries) + Names(r.p.file) <= Names(p.entries) + Names(p.file) + {RequestOf(e)}
  {
    hide Replace;
    assert [e][..0] == [] && NewEntries(p.entries, []) == [];
    var added := NewEntries(p.entries, [e]);
    assert added == [] || added == [e];
    assert forall x :: x in p.entries + added ==> x in p.entries || x == e;
  }

  // ---- every event keeps the invariant ----

  lemma {:induction false} LiveFull(entries: seq<QueueEntry>)
    requires |Live(entries)| == |entries|
    ensures Live(entries) == entries
  {
    if entries != [] {
      LiveFull(entries[1..]);
    }
  }

  lemma ReopenedOk(owner: string -> Operation, st0: Store, p: Process, live: seq<QueueEntry>,
                   accepted: seq<Request>, extra: seq<Request>, begun: nat, half: bool)
    requires NoneDone(live) && Owned(owner, st0, Requests(live)) && begun <= |accepted| && (half ==> begun > 0)
    requires Good(owner, st0, accepted + extra) && Holds(Requests(live), accepted + extra, begun, half)
    requires p.store == StoreAt(st0, accepted, begun, half)
    ensures ProcessOk(owner, st0, p.(open := true, entries := live, file := live),
                      Extend(accepted, Requests(live)), begun, half)
  {
    ExtendHolds(owner, st0, Requests(live), accepted, extra, begun, half);
    FileIsQueue(owner, st0, Requests(live), accepted + extra, begun, half);
    StoreAtPrefix(st0, accepted, extra, begun, half);
    hide Holds, StoreAt, FileFollows, Good, Owned, Extend;
  }

  lemma ReopenOk(owner: string -> Operation, st0: Store, p: Process, script: seq<Outcome>,
                 accepted: seq<Request>, begun: nat, half: bool)
    requires !p.open && ProcessOk(owner, st0, p, accepted, begun, half)
    ensures var r := Open(p, script);
            var log := if r.status.Done? then Extend(accepted, Requests(r.p.entries)) else accepted;
            ProcessOk(owner, st0, r.p, log, begun, half)
  {
    hide Holds, StoreAt, FileFollows, Good, Owned, Extend, OpenOk;
    var live := Live(p.file);
    LiveIdentity(live);
    var extra :| Good(owner, st0, accepted + extra) && Holds(Requests(live), accepted + extra, begun, half);
    ReopenedOk(owner, st0, p, live, accepted, extra, begun, half);
    if |live| == |p.file| {
      LiveFull(p.file);
    }
  }

  lemma NoneUnbegun(begun: set<string>)
    ensures Unbegun([], begun) == []
  {
  }

  lemma DirectLog(owner: string -> Operation, st0: Store, file: seq<Request>, r: Request, accepted: seq<Request>)
    requires Good(owner, st0, accepted) && Owned(owner, st0, [r]) && !IsRename(r.operation) && r !in accepted
    requires FileFollows(owner, st0, [], file, accepted, |accepted|, false)
    ensures r.key !in AppliedKeys(st0) + KeySet(accepted)
    ensures var log := accepted + [r];
            && Good(owner, st0, log) && Holds([], log, |log|, false)
            && FileFollows(owner, st0, [], file, log, |log|, false)
  {
    hide AppliedKeys, Unbegun;
    var log := accepted + [r];
    assert r in [r];
    assert forall a :: a in accepted && a.key == r.key ==> a == r;
    KeySetAppend(accepted, [r]);
    assert KeySet([r]) == {r.key};
    assert Holds([], log, |log|, false) by { assert log[|log|..] == []; NoneUnbegun(KeySet(log[..|log|])); }
    var extra :| file == [] + extra && Stray(owner, st0, [], accepted, extra);
    forall x | x in extra && IsRename(x.operation)
      ensures x.key !in KeySet(log)
    {
      assert owner(x.key) == x.operation && owner(r.key) == r.operation;
    }
    assert Stray(owner, st0, [], log, extra);
  }

  /** A direct write through the open gate begins and ends one request. */
  lemma DirectOk(owner: string -> Operation, st0: Store, p: Process, r: Request, accepted: seq<Request>, begun: nat,
                 half: bool)
    requires p.open && p.entries == [] && ProcessOk(owner, st0, p, accepted, begun, half)
    requires Owned(owner, st0, [r]) && !IsRename(r.operation) && !r.operation.Direct? && r !in accepted
    ensures !PutApplied(p.store, PutOf(r.operation), r.key)
    ensures ProcessOk(owner, st0, p.(store := PutIdempotent(p.store, PutOf(r.operation), r.key)),
                      accepted + [r], |accepted| + 1, false)
  {
    DrainedOk(owner, st0, p, accepted, begun, half);
    assert Requests(p.entries) == [];
    DirectLog(owner, st0, Requests(p.file), r, accepted);
    hide Holds, FileFollows, Good;
    FoldKeys(st0, accepted);
    NewPutIsOnce(p.store, PutOf(r.operation), r.key);
    FoldOne(st0, accepted, r);
    hide Fold, Owned, PutOnce, PutIdempotent, PutApplied;
    assert Owned(owner, st0, Requests(p.entries));
    assert (accepted + [r])[..|accepted| + 1] == accepted + [r];
  }

  lemma FoldOne(st0: Store, log: seq<Request>, r: Request)
    requires !IsRename(r.operation) && !r.operation.Direct?
    ensures Fold(st0, log + [r]) == PutOnce(Fold(st0, log), PutOf(r.operation), r.key)
  {
    assert (log + [r])[..|log|] == log;
  }

  /** A direct call through the open gate comes after everything accepted before it. */
  lemma DirectCallOk(owner: string -> Operation, st0: Store, p: Process, r: Request, accepted: seq<Request>,
                     begun: nat, half: bool)
    requires p.open && p.entries == [] && ProcessOk(owner, st0, p, accepted, begun, half)
    requires Owned(owner, st0, [r]) && r.operation.Direct? && r !in accepted
    ensures ProcessOk(owner, st0, p.(store := DirectEffect(p.store, r.operation.call)), accepted + [r], |accepted| + 1,
            false)
  {
    DrainedOk(owner, st0, p, accepted, begun, half);
    assert Requests(p.entries) == [];
    DirectLog(owner, st0, Requests(p.file), r, accepted);
    hide Holds, FileFollows, Good, DirectEffect;
    assert Fold(st0, accepted + [r]) == DirectEffect(Fold(st0, accepted), r.operation.call) by {
      assert (accepted + [r])[..|accepted|] == accepted;
    }
    hide Fold, Owned;
    assert Owned(owner, st0, Requests(p.entries));
    assert (accepted + [r])[..|accepted| + 1] == accepted + [r];
  }

  lemma AlreadyDone(owner: string -> Operation, st0: Store, p: Process, r: Request, accepted: seq<Request>, begun: nat,
                    half: bool)
    requires p.open && p.entries == [] && ProcessOk(owner, st0, p, accepted, begun, half)
    requires r in accepted && !r.operation.Direct?
    ensures PutApplied(p.store, PutOf(r.operation), r.key)
    ensures PutIdempotent(p.store, PutOf(r.operation), r.key) == p.store
  {
    DrainedOk(owner, st0, p, accepted, begun, half);
    var i :| 0 <= i < |accepted| && accepted[i] == r;
    FoldApplied(st0, accepted, i);
    PutAgain(p.store, PutOf(r.operation), r.key);
  }

  lemma ExecuteDirectOk(owner: string -> Operation, st0: Store, c: Config, p: Process, e: QueueEntry,
                        script: seq<Outcome>, accepted: seq<Request>, begun: nat, half: bool) returns (begun': nat)
    requires p.open && p.entries == [] && ProcessOk(owner, st0, p, accepted, begun, half)
    requires Owned(owner, st0, [RequestOf(e)]) && !IsRename(e.operation) && Executable(c.accepts, e.operation)
    ensures var r := Execute(c.accepts, p, e, script);
            && ProcessOk(owner, st0, r.p, Extend(accepted, SeenInStore(r.p.store, RequestOf(e))), begun', false)
            && (r.status.Done? ==> RequestOf(e) in Extend(accepted, SeenInStore(r.p.store, RequestOf(e))))
  {
    hide ProcessOk, PutIdempotent, PutApplied, Owned, DeleteIf;
    var r := RequestOf(e);
    var put := PutIdempotent(p.store, PutOf(r.operation), r.key);
    DrainedOk(owner, st0, p, accepted, begun, half);
    CrashOk(owner, st0, p, accepted, begun, false);
    ExtendMembers(accepted, [r], r);
    begun' := begun;
    if r in accepted {
      AlreadyDone(owner, st0, p, r, accepted, begun, half);
      assert Extend(accepted, [r]) == accepted;
    } else {
      DirectOk(owner, st0, p, r, accepted, begun, half);
      CrashOk(owner, st0, p.(store := put), accepted + [r], begun + 1, false);
      PutAppliedNow(p.store, PutOf(r.operation), r.key);
      assert Extend(accepted, [r]) == accepted + [r];
      if Effective(Head(script)) {
        begun' := begun + 1;
      }
    }
  }

  lemma PutAppliedNow(st: Store, put: Put, id: string)
    ensures PutApplied(PutIdempotent(st, put, id), put, id)
  {
  }

  lemma GateOk(owner: string -> Operation, st0: Store, w: World, begun: nat, half: bool)
    requires w.p.open && ProcessOk(owner, st0, w.p, w.accepted, begun, half)
    ensures HasPending(w.p.entries) <==> w.p.entries != []
  {
    LiveIdentity(w.p.entries);
  }

  /** The part of the invariant about who asked for what, after a step to a process `p'`. */
  lemma NamesOk(owner: string -> Operation, st0: Store, initial: set<Request>, w: World, begun: nat, half: bool,
                w': World, new': set<Request>)
    requires WorldOk(owner, st0, initial, w, begun, half) && w.p.open
    requires Names(w'.p.entries) + Names(w'.p.file) <= Names(w.p.entries) + Names(w.p.file) + new'
    requires Known(w, initial) + new' <= Known(w', initial)
    ensures Names(w'.p.entries) + Names(Live(w'.p.file)) <= Known(w', initial)
  {
    LiveIdentity(w.p.file);
    LiveNames(w'.p.file);
  }

  lemma ExtendKnownNames(log: seq<Request>, entries: seq<QueueEntry>, known: set<Request>)
    requires (forall r :: r in log ==> r in known) && Names(entries) <= known
    ensures forall r :: r in Extend(log, Requests(entries)) ==> r in known
  {
    NamesAre(entries);
    forall r | r in Extend(log, Requests(entries))
      ensures r in known
    {
      ExtendMembers(log, Requests(entries), r);
    }
  }

  /** A request whose enqueue is acknowledged is in the queue, even when its key was already there. */
  lemma AckedIsQueued(owner: string -> Operation, st0: Store, p: Process, capacity: nat, e: QueueEntry,
                      script: seq<Outcome>)
    requires Owned(owner, st0, Requests(p.entries)) && Owned(owner, st0, [RequestOf(e)])
    ensures var r := EnqueueAll(p, capacity, [e], script);
            r.status.Done? ==> RequestOf(e) in Requests(r.p.entries)
  {
    assert [e][..0] == [] && NewEntries(p.entries, []) == [];
    var r := EnqueueAll(p, capacity, [e], script);
    assert RequestOf(e) in [RequestOf(e)];
    if HasKey(p.entries, e.key) {
      var i :| 0 <= i < |p.entries| && p.entries[i].key == e.key;
      assert Requests(p.entries)[i] in Requests(p.entries);
      assert Requests(p.entries)[i] == RequestOf(e);
    } else if r.status.Done? {
      assert r.p.entries == p.entries + [e];
      assert Requests(r.p.entries)[|p.entries|] == RequestOf(e);
    }
  }

  lemma EnqueueStepOk(owner: string -> Operation, st0: Store, c: Config, initial: set<Request>, w: World, begun: nat,
                      half: bool, e: QueueEntry, script: seq<Outcome>)
    requires WorldOk(owner, st0, initial, w, begun, half) && w.p.open
    requires AdmissibleEntry(owner, st0, w, initial, e)
    ensures var r := EnqueueAll(w.p, c.capacity, [e], script);
            var log := Extend(w.accepted, Requests(r.p.entries));
            && ProcessOk(owner, st0, r.p, log, begun, half)
            && (r.status.Done? ==> RequestOf(e) in log)
            && (forall x :: x in log ==> x in Known(w, initial) + {RequestOf(e)})
            && Names(r.p.entries) + Names(r.p.file) <= Names(w.p.entries) + Names(w.p.file) + {RequestOf(e)}
  {
    var r := EnqueueAll(w.p, c.capacity, [e], script);
    var q := RequestOf(e);
    assert Requests([e]) == [q];
    assert IsRename(e.operation) ==> q.key !in KeySet(w.accepted) by {
      assert forall a :: a in w.accepted && a.key == q.key ==> a == q;
    }
    EnqueueOk(owner, st0, w.p, c.capacity, [e], script, w.accepted, begun, half);
    AckedIsQueued(owner, st0, w.p, c.capacity, e, script);
    EnqueueNames(w.p, c.capacity, e, script);
    LiveIdentity(w.p.file);
    ExtendKnownNames(w.accepted, r.p.entries, Known(w, initial) + {q});
    ExtendMembers(w.accepted, Requests(r.p.entries), q);
  }

  lemma AckedKept(log: seq<Request>, log': seq<Request>, acked: set<Request>)
    requires log <= log'
    ensures forall r :: r in acked && r in log ==> r in log'
  {
    assert forall r :: r in log ==> r in log';
  }

  lemma EnqueueEventOk(owner: string -> Operation, st0: Store, c: Config, initial: set<Request>, w: World, begun: nat,
                       half: bool, e: QueueEntry, script: seq<Outcome>)
    requires WorldOk(owner, st0, initial, w, begun, half) && w.p.open
    requires AdmissibleEntry(owner, st0, w, initial, e)
    ensures WorldOk(owner, st0, initial, EnqueueStep(c, w, e, script), begun, half)
  {
    hide ProcessOk, Extend, AdmissibleEntry, EnqueueAll, Names, Live, HasPending;
    EnqueueStepOk(owner, st0, c, initial, w, begun, half, e, script);
    var w' := EnqueueStep(c, w, e, script);
    NamesOk(owner, st0, initial, w, begun, half, w', {RequestOf(e)});
    AckedKept(w.accepted, w'.accepted, w.acked);
    if w'.p.open {
      GateOk(owner, st0, w', begun, half);
      EnqueueShape(w.p, c.capacity, [e], script);
    }
  }

  lemma EnqueueShape(p: Process, capacity: nat, batch: seq<QueueEntry>, script: seq<Outcome>)
    ensures var r := EnqueueAll(p, capacity, batch, script);
            && r.p.store == p.store && r.p.open == (p.open && !r.status.Crashed?)
            && (r.status.Failed? ==> r.p.entries == p.entries)
            && (r.status.Done? ==> |r.p.entries| <= |p.entries| + |batch|)
  {
    NewEntriesCount(p.entries, batch);
  }

  lemma {:induction false} NewEntriesCount(queued: seq<QueueEntry>, batch: seq<QueueEntry>)
    ensures |NewEntries(queued, batch)| <= |batch|
  {
    if batch != [] {
      NewEntriesCount(queued, batch[..|batch| - 1]);
    }
  }

  lemma ReplayEventOk(owner: string -> Operation, st0: Store, c: Config, initial: set<Request>, w: World, begun: nat,
                      half: bool, script: seq<Outcome>) returns (begun': nat, half': bool)
    requires WorldOk(owner, st0, initial, w, begun, half) && w.p.open
    ensures WorldOk(owner, st0, initial, ReplayStep(c, w, script), begun', half')
  {
    hide ProcessOk, Replay;
    begun', half' := ReplayOk(owner, st0, c.accepts, w.p, script, w.accepted, begun, half);
    var w' := ReplayStep(c, w, script);
    ReplayNames(c.accepts, w.p, script);
    NamesOk(owner, st0, initial, w, begun, half, w', {});
    if w'.p.open {
      GateOk(owner, st0, w', begun', half');
    }
  }

  lemma RenameEventOk(owner: string -> Operation, st0: Store, c: Config, initial: set<Request>, w: World, begun: nat,
                      half: bool, e: QueueEntry, script: seq<Outcome>) returns (begun': nat, half': bool)
    requires WorldOk(owner, st0, initial, w, begun, half) && MayWrite(c, w, e)
    requires AdmissibleEntry(owner, st0, w, initial, e)
    ensures WorldOk(owner, st0, initial, RenameStep(c, w, e, script), begun', half')
  {
    hide ProcessOk, Replay, Extend, AdmissibleEntry, EnqueueAll;
    begun', half' := begun, half;
    EnqueueStepOk(owner, st0, c, initial, w, begun, half, e, script);
    EnqueueShape(w.p, c.capacity, [e], script);
    var queued := EnqueueAll(w.p, c.capacity, [e], script);
    var log := Extend(w.accepted, Requests(queued.p.entries));
    var w' := RenameStep(c, w, e, script);
    if queued.status.Done? {
      begun', half' := ReplayOk(owner, st0, c.accepts, queued.p, queued.script, log, begun, half);
      ReplayNames(c.accepts, queued.p, queued.script);
    }
    NamesOk(owner, st0, initial, w, begun, half, w', {RequestOf(e)});
    AckedKept(w.accepted, w'.accepted, w.acked);
    if w'.p.open {
      GateOk(owner, st0, w', begun', half');
    }
  }

  lemma SeenIsAsked(st: Store, r: Request)
    requires !r.operation.Direct?
    ensures forall x :: x in SeenInStore(st, r) ==> x == r
  {
    hide PutApplied;
  }

  /** The world between the failed store call of a commit and its enqueue. */
  lemma CommitMiddleOk(owner: string -> Operation, st0: Store, c: Config, initial: set<Request>, w: World, begun: nat,
                       half: bool, e: QueueEntry, script: seq<Outcome>) returns (begun': nat, middle: World)
    requires WorldOk(owner, st0, initial, w, begun, half) && MayWrite(c, w, e)
    requires AdmissibleEntry(owner, st0, w, initial, e) && !IsRename(e.operation)
    ensures var run := Execute(c.accepts, w.p, e, script);
            && middle == w.(p := run.p, accepted := Extend(w.accepted, SeenInStore(run.p.store, RequestOf(e))),
                            refused := w.refused + {RequestOf(e)})
            && WorldOk(owner, st0, initial, middle, begun', false)
            && (run.status.Done? ==> RequestOf(e) in middle.accepted)
  {
    hide ProcessOk, Extend, Execute, Owned, SeenInStore, Executable;
    begun' := ExecuteDirectOk(owner, st0, c, w.p, e, script, w.accepted, begun, half);
    hide AdmissibleEntry;
    var q, run := RequestOf(e), Execute(c.accepts, w.p, e, script);
    middle := w.(p := run.p, accepted := Extend(w.accepted, SeenInStore(run.p.store, q)), refused := w.refused + {q});
    assert forall x :: x in SeenInStore(run.p.store, q) ==> x == q by { SeenIsAsked(run.p.store, q); }
    forall x | x in middle.accepted
      ensures x in Known(middle, initial)
    {
      ExtendMembers(w.accepted, SeenInStore(run.p.store, q), x);
    }
    AckedKept(w.accepted, middle.accepted, w.acked);
    NamesOk(owner, st0, initial, w, begun, half, middle, {q});
  }

  lemma CommitEventOk(owner: string -> Operation, st0: Store, c: Config, initial: set<Request>, w: World, begun: nat,
                      half: bool, e: QueueEntry, script: seq<Outcome>) returns (begun': nat, half': bool)
    requires WorldOk(owner, st0, initial, w, begun, half) && MayWrite(c, w, e)
    requires AdmissibleEntry(owner, st0, w, initial, e) && !IsRename(e.operation)
    ensures WorldOk(owner, st0, initial, CommitStep(c, w, e, script), begun', half')
  {
    hide ProcessOk, Extend, Execute, EnqueueAll, SeenInStore;
    assert w.p.entries == [];
    hide WorldOk;
    var middle;
    begun', middle := CommitMiddleOk(owner, st0, c, initial, w, begun, half, e, script);
    half' := false;
    assert AdmissibleEntry(owner, st0, middle, initial, e);
    hide AdmissibleEntry;
    var q, run, w' := RequestOf(e), Execute(c.accepts, w.p, e, script), CommitStep(c, w, e, script);
    if run.status.Failed? {
      EnqueueEventOk(owner, st0, c, initial, middle, begun', false, e, run.script);
      EnqueueShape(run.p, c.capacity, [e], run.script);
      var x := EnqueueStep(c, middle, e, run.script);
      assert w' == x.(refused := w'.refused);
      RelabelOk(owner, st0, initial, x, w', begun', false);
    } else {
      assert Requests(run.p.entries) == [];
      ExtendNothing(middle.accepted);
      var synced := if run.status.Done? then SyncGate(middle) else middle;
      if run.status.Done? {
        SyncOk(owner, st0, initial, middle, begun', false);
      }
      assert w' == synced.(acked := w'.acked, refused := w'.refused);
      RelabelOk(owner, st0, initial, synced, w', begun', false);
    }
  }

  lemma CallProcessOk(owner: string -> Operation, st0: Store, p: Process, call: DirectCall, script: seq<Outcome>,
                      r: Request, accepted: seq<Request>, begun: nat, half: bool) returns (begun': nat, half': bool)
    requires p.open && p.entries == [] && ProcessOk(owner, st0, p, accepted, begun, half)
    requires Owned(owner, st0, [r]) && r.operation == Direct(call) && r !in accepted
    ensures var log := if Effective(Head(script)) && !Missing(p.store, call) then accepted + [r] else accepted;
            ProcessOk(owner, st0, StoreCall(p, DirectEffect(p.store, call), script).p, log, begun', half')
  {
    hide ProcessOk, DirectEffect, Missing, Owned;
    var after := p.(store := DirectEffect(p.store, call));
    DirectCallOk(owner, st0, p, r, accepted, begun, half);
    if Missing(p.store, call) {
      MissingChangesNothing(p.store, call);
    }
    CrashOk(owner, st0, p, accepted, begun, half);
    CrashOk(owner, st0, after, accepted + [r], |accepted| + 1, false);
    begun', half' := begun, half;
    if Effective(Head(script)) && !Missing(p.store, call) {
      begun', half' := |accepted| + 1, false;
    }
  }

  lemma MissingChangesNothing(st: Store, call: DirectCall)
    requires Missing(st, call)
    ensures DirectEffect(st, call) == st
  {
  }

  lemma CallEventOk(owner: string -> Operation, st0: Store, initial: set<Request>, w: World, begun: nat, half: bool,
                    ticket: string, call: DirectCall, script: seq<Outcome>) returns (begun': nat, half': bool)
    requires WorldOk(owner, st0, initial, w, begun, half) && MayCall(w)
    requires AdmissibleCall(owner, st0, w, initial, ticket, call)
    ensures WorldOk(owner, st0, initial, CallStep(w, ticket, call, script), begun', half')
  {
    hide ProcessOk, DirectEffect, Missing, Owned;
    var r, w' := Request(ticket, Direct(call)), CallStep(w, ticket, call, script);
    assert r !in w.accepted && w.p.entries == [];
    begun', half' := CallProcessOk(owner, st0, w.p, call, script, r, w.accepted, begun, half);
    NamesOk(owner, st0, initial, w, begun, half, w', {r});
    AckedKept(w.accepted, w'.accepted, w.acked);
  }

  /** Only what is known to have been asked for matters, and that acknowledged requests are in the log. */
  lemma RelabelOk(owner: string -> Operation, st0: Store, initial: set<Request>, w: World, w': World, begun: nat,
                  half: bool)
    requires WorldOk(owner, st0, initial, w, begun, half)
    requires w' == w.(acked := w'.acked, refused := w'.refused)
    requires Known(w', initial) == Known(w, initial)
    requires forall r :: r in w'.acked - w.acked ==> r in w.accepted
    ensures WorldOk(owner, st0, initial, w', begun, half)
  {
    hide ProcessOk;
    assert forall r :: r in w'.acked ==> r in w.acked || r in w'.acked - w.acked;
  }

  lemma SyncOk(owner: string -> Operation, st0: Store, initial: set<Request>, w: World, begun: nat, half: bool)
    requires WorldOk(owner, st0, initial, w, begun, half) && w.p.open
    ensures WorldOk(owner, st0, initial, SyncGate(w), begun, half)
  {
    GateOk(owner, st0, w, begun, half);
    hide ProcessOk;
  }

  lemma ExtendNothing(log: seq<Request>)
    ensures Extend(log, []) == log
  {
  }

  lemma ReopenEventOk(owner: string -> Operation, st0: Store, c: Config, initial: set<Request>, w: World, begun: nat,
                      half: bool, script: seq<Outcome>)
    requires WorldOk(owner, st0, initial, w, begun, half) && !w.p.open
    ensures WorldOk(owner, st0, initial, ReopenStep(w, script), begun, half)
  {
    hide ProcessOk, Extend, HasPending, Open, Live, Requests;
    ReopenOk(owner, st0, w.p, script, w.accepted, begun, half);
    OpenShape(w.p, script);
    var live, w' := Live(w.p.file), ReopenStep(w, script);
    AckedKept(w.accepted, w'.accepted, w.acked + initial);
    if w'.p.open {
      GateOk(owner, st0, w', begun, half);
      ExtendKnownNames(w.accepted, live, Known(w, initial));
      NamesAre(live);
      forall r | r in Names(live)
        ensures r in w'.accepted
      {
        ExtendMembers(w.accepted, Requests(live), r);
      }
    }
  }

  lemma OpenShape(p: Process, script: seq<Outcome>)
    ensures var r := Open(p, script);
            && Live(r.p.file) == Live(p.file)
            && r.p.open == r.status.Done?
            && r.p.entries == if r.status.Done? then Live(p.file) else []
  {
    LiveIdentity(Live(p.file));
  }

  lemma CrashEventOk(owner: string -> Operation, st0: Store, c: Config, initial: set<Request>, w: World, begun: nat,
                     half: bool)
    requires WorldOk(owner, st0, initial, w, begun, half)
    ensures WorldOk(owner, st0, initial, Step(c, w, Crash), begun, half)
  {
    if w.p.open {
      CrashOk(owner, st0, w.p, w.accepted, begun, half);
    }
    hide OpenOk, Good, StoreAt;
  }

  lemma StepOk(owner: string -> Operation, st0: Store, c: Config, initial: set<Request>, w: World, begun: nat,
               half: bool, ev: Event) returns (begun': nat, half': bool)
    requires WorldOk(owner, st0, initial, w, begun, half) && Admissible(owner, st0, w, initial, ev)
    ensures WorldOk(owner, st0, initial, Step(c, w, ev), begun', half')
    ensures w.accepted <= Step(c, w, ev).accepted
  {
    StepExtendsLog(c, w, ev);
    hide WorldOk, ReopenStep, EnqueueStep, CommitStep, RenameStep, ReplayStep, CallStep, AdmissibleCall;
    begun', half' := begun, half;
    match ev
    case Reopen(script) =>
      if !w.p.open {
        ReopenEventOk(owner, st0, c, initial, w, begun, half, script);
      }
    case Crash => CrashEventOk(owner, st0, c, initial, w, begun, half);
    case Enqueue(e, script) =>
      if w.p.open {
        EnqueueEventOk(owner, st0, c, initial, w, begun, half, e, script);
      }
    case Commit(e, script) =>
      if MayWrite(c, w, e) {
        begun', half' := CommitEventOk(owner, st0, c, initial, w, begun, half, e, script);
      }
    case Rename(e, script) =>
      if MayWrite(c, w, e) {
        begun', half' := RenameEventOk(owner, st0, c, initial, w, begun, half, e, script);
      }
    case Unlink(ticket, call, script) =>
      if MayCall(w) {
        begun', half' := CallEventOk(owner, st0, initial, w, begun, half, ticket, call, script);
      }
    case Mkdir(ticket, call, script) =>
      if MayCall(w) {
        begun', half' := CallEventOk(owner, st0, initial, w, begun, half, ticket, call, script);
      }
    case ReplayAll(script) =>
      if w.p.open {
        begun', half' := ReplayEventOk(owner, st0, c, initial, w, begun, half, script);
      }
  }

  // ---- theorems about whole runs ----

  lemma StartOk(owner: string -> Operation, st0: Store, st: Store, file: seq<QueueEntry>,
                log: seq<Request>) returns (begun: nat, half: bool)
    requires Startable(owner, st0, st, file, log)
    ensures WorldOk(owner, st0, Initial(file, log), Start(st, file, log), begun, half)
  {
    hide ProcessOk;
    NamesAre(Live(file));
    begun, half :| ProcessOk(owner, st0, Process(false, [], file, st), log, begun, half);
  }

  /** A first mount may find any file whose keys the store has not seen. */
  lemma FirstStart(owner: string -> Operation, st0: Store, file: seq<QueueEntry>)
    requires Good(owner, st0, Requests(Live(file)))
    ensures Startable(owner, st0, st0, file, [])
  {
    FirstProcessOk(owner, st0, file);
    hide ProcessOk;
  }

  lemma FirstProcessOk(owner: string -> Operation, st0: Store, file: seq<QueueEntry>)
    requires Good(owner, st0, Requests(Live(file)))
    ensures ProcessOk(owner, st0, Process(false, [], file, st0), [], 0, false)
  {
    hide OpenOk, Live, Requests, AppliedKeys;
    var rs := Requests(Live(file));
    NothingBegun(rs);
    assert [] + rs == rs;
    assert Good(owner, st0, []) && Owned(owner, st0, rs);
    hide Good, Owned, Fold, Holds;
    assert Fold(st0, []) == st0 by { FoldNothing(st0); }
  }

  lemma NothingBegun(rs: seq<Request>)
    ensures Holds(rs, rs, 0, false)
  {
    UnbegunAll(rs);
    hide Unbegun;
    assert rs[..0] == [] && rs[0..] == rs && KeySet([]) == {};
  }

  lemma FoldNothing(st0: Store)
    ensures Fold(st0, []) == st0
  {
  }

  lemma {:induction false} UnbegunAll(queue: seq<Request>)
    ensures Unbegun(queue, {}) == queue
  {
    if queue != [] {
      UnbegunAll(queue[1..]);
    }
  }

  lemma AdmissibleFront(c: Config, owner: string -> Operation, st0: Store, w: World, initial: set<Request>,
                        events: seq<Event>)
    requires events != [] && AdmissibleRun(c, owner, st0, w, initial, events)
    ensures var front, ev := events[..|events| - 1], events[|events| - 1];
            AdmissibleRun(c, owner, st0, w, initial, front) && Admissible(owner, st0, Run(c, w, front), initial, ev)
  {
    hide Admissible, Run;
    var front := events[..|events| - 1];
    forall i | 0 <= i < |front|
      ensures front[..i] == events[..i] && front[i] == events[i]
    {
    }
  }

  lemma {:induction false} RunOk(c: Config, owner: string -> Operation, st0: Store, st: Store, file: seq<QueueEntry>,
                                 log: seq<Request>, events: seq<Event>) returns (begun: nat, half: bool)
    requires Startable(owner, st0, st, file, log)
    requires AdmissibleRun(c, owner, st0, Start(st, file, log), Initial(file, log), events)
    ensures WorldOk(owner, st0, Initial(file, log), Run(c, Start(st, file, log), events), begun, half)
  {
    if events == [] {
      begun, half := StartOk(owner, st0, st, file, log);
    } else {
      hide WorldOk, Startable, Step, Admissible, AdmissibleRun, Initial;
      var n := |events| - 1;
      var front := events[..n];
      AdmissibleFront(c, owner, st0, Start(st, file, log), Initial(file, log), events);
      begun, half := RunOk(c, owner, st0, st, file, log, front);
      begun, half := StepOk(owner, st0, c, Initial(file, log), Run(c, Start(st, file, log), front), begun, half,
        events[n]);
    }
  }

  /** Whatever a run leaves behind when the process is down is something the next mount may start from. */
  lemma LeftoverIsStartable(owner: string -> Operation, st0: Store, initial: set<Request>, w: World, begun: nat,
                            half: bool)
    requires WorldOk(owner, st0, initial, w, begun, half) && !w.p.open
    ensures Startable(owner, st0, w.p.store, w.p.file, w.accepted)
  {
    assert w.p == Process(false, [], w.p.file, w.p.store);
    hide OpenOk, ClosedOk, Good, StoreAt;
  }

  /** Crash-safe replay refines one in-order application. Whatever failed and wherever the process died,
      no acknowledged request is lost, nothing that was never asked for is applied, and once the queue
      is drained the store is the fold of the unconditional effects of the log, each request once. */
  lemma ReplayRefinesInOrderApplication(c: Config, owner: string -> Operation, st0: Store, st: Store,
                                        file: seq<QueueEntry>, log: seq<Request>, events: seq<Event>)
    requires Startable(owner, st0, st, file, log)
    requires AdmissibleRun(c, owner, st0, Start(st, file, log), Initial(file, log), events)
    ensures var w := Run(c, Start(st, file, log), events);
            && Distinct(w.accepted) && log <= w.accepted
            && (forall r :: r in w.acked ==> r in w.accepted)
            && (forall r :: r in w.accepted ==> r in Initial(file, log) + w.acked + w.refused)
            && (w.p.open ==> forall r :: r in Initial(file, log) ==> r in w.accepted)
            && (w.p.open && w.p.entries == [] ==> w.p.store == Fold(st0, w.accepted))
  {
    var w := Run(c, Start(st, file, log), events);
    var begun, half := RunOk(c, owner, st0, st, file, log, events);
    LogIsAppendOnly(c, Start(st, file, log), events, 0);
    assert events[..0] == [];
    if w.p.open && w.p.entries == [] {
      DrainedOk(owner, st0, w.p, w.accepted, begun, half);
    }
    hide Run, OpenOk, ClosedOk, StoreAt;
  }

  /** The log only grows at its end, so a request acknowledged before another one was made precedes it. */
  lemma {:induction false} LogIsAppendOnly(c: Config, w: World, events: seq<Event>, n: nat)
    requires n <= |events|
    ensures Run(c, w, events[..n]).accepted <= Run(c, w, events).accepted
  {
    if n == |events| {
      assert events[..n] == events;
    } else {
      var front := events[..|events| - 1];
      assert front[..n] == events[..n];
      LogIsAppendOnly(c, w, front, n);
      StepExtendsLog(c, Run(c, w, front), events[|events| - 1]);
    }
  }

  lemma StepExtendsLog(c: Config, w: World, ev: Event)
    ensures w.accepted <= Step(c, w, ev).accepted
  {
    hide Replay, EnqueueAll, CommitReply, Extend, SeenInStore, StoreCall, DirectEffect, Missing;
  }

  // ---- the write gate ----

  /** After every operation the gate accepts writes exactly when nothing is pending, and while
      something is pending a commit, rename, unlink or mkdir through the mount changes nothing at all. */
  lemma GateFollowsQueue(c: Config, owner: string -> Operation, st0: Store, st: Store, file: seq<QueueEntry>,
                         log: seq<Request>, events: seq<Event>, ev: Event)
    requires Startable(owner, st0, st, file, log)
    requires AdmissibleRun(c, owner, st0, Start(st, file, log), Initial(file, log), events)
    ensures var w := Run(c, Start(st, file, log), events);
            w.p.open ==>
              && (w.accepting <==> !HasPending(w.p.entries)) && (w.accepting <==> w.p.entries == [])
              && (HasPending(w.p.entries) && (ev.Commit? || ev.Rename? || ev.Unlink? || ev.Mkdir?) ==>
                Step(c, w, ev) == w)
  {
    hide Run, ProcessOk, AdmissibleRun, Startable;
    var w := Run(c, Start(st, file, log), events);
    var begun, half := RunOk(c, owner, st0, st, file, log, events);
    if w.p.open {
      GateOk(owner, st0, w, begun, half);
    }
    hide CommitStep, RenameStep, CallStep;
  }

  predicate Bounded(w: World) {
    w.p.open ==> |w.p.entries| <= Max(w.openedWith, 1)
  }

  lemma StepBounded(c: Config, w: World, ev: Event)
    requires Bounded(w) && !ev.Enqueue?
    requires w.p.open && w.accepting ==> w.p.entries == []
    ensures Bounded(Step(c, w, ev))
  {
    hide Replay, EnqueueAll, Extend, SeenInStore, Execute, DirectEffect, Missing;
    match ev
    case Unlink(_, _, _) =>
    case Mkdir(_, _, _) =>
    case Reopen(_) =>
    case Crash =>
    case ReplayAll(_) =>
    case Commit(e, script) =>
      var run := Execute(c.accepts, w.p, e, script);
      EnqueueShape(run.p, c.capacity, [e], run.script);
    case Rename(e, script) =>
      EnqueueShape(w.p, c.capacity, [e], script);
  }

  /** A mount that opened its queue with n entries never holds more than max(n, 1). */
  lemma {:induction false} QueueStaysBounded(c: Config, owner: string -> Operation, st0: Store, st: Store,
                                             file: seq<QueueEntry>, log: seq<Request>, events: seq<Event>)
    requires Startable(owner, st0, st, file, log)
    requires AdmissibleRun(c, owner, st0, Start(st, file, log), Initial(file, log), events)
    requires forall i :: 0 <= i < |events| ==> !events[i].Enqueue?
    ensures Bounded(Run(c, Start(st, file, log), events))
  {
    if events != [] {
      hide Step, ProcessOk, Startable, Admissible, AdmissibleRun, Initial, Known, Names, Live, Bounded;
      var n := |events| - 1;
      var front := events[..n];
      AdmissibleFront(c, owner, st0, Start(st, file, log), Initial(file, log), events);
      assert forall i :: 0 <= i < n ==> front[i] == events[i];
      QueueStaysBounded(c, owner, st0, st, file, log, front);
      var begun, half := RunOk(c, owner, st0, st, file, log, front);
      StepBounded(c, Run(c, Start(st, file, log), front), events[n]);
    } else {
      assert !Start(st, file, log).p.open;
    }
  }
}
