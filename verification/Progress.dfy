/** What the queue achieves, as opposed to what it keeps: exactly which outcomes let a turn, a replay, a
    commit or a rename go through, and where a write ends up that the store did not take. */
module Progress {
  import opened JsonLines
  import opened MemoryStore
  import opened Writeback
  import opened ReplayInvariant
  import opened CrashRuns

  // ---- the outcomes a call drew ----

  predicate AllFine(outcomes: seq<Outcome>) {
    forall i :: 0 <= i < |outcomes| ==> outcomes[i].Fine?
  }

  /** One of the calls ended the process. */
  predicate Deadly(outcomes: seq<Outcome>) {
    exists i :: 0 <= i < |outcomes| && (outcomes[i].CrashBefore? || outcomes[i].CrashAfter?)
  }

  /** The outcomes drawn from `script` when `rest` is left of it. */
  function Drawn(script: seq<Outcome>, rest: seq<Outcome>): seq<Outcome>
    requires |rest| <= |script|
  {
    script[..|script| - |rest|]
  }

  /** A reply that drew its outcomes from the front of the script, is done exactly when all of them were fine
      and what it had to do is `able` to be done, and is crashed exactly when one of them was deadly. */
  ghost predicate Reports(script: seq<Outcome>, r: Reply, able: bool) {
    && |r.script| <= |script| && script == Drawn(script, r.script) + r.script
    && (r.status.Done? <==> able && AllFine(Drawn(script, r.script)))
    && (r.status.Crashed? <==> Deadly(Drawn(script, r.script)))
  }

  lemma OneCall(script: seq<Outcome>, r: Reply)
    requires r.script == Tail(script) && r.status == StatusOf(Head(script))
    ensures Reports(script, r, true)
  {
    var drawn := Drawn(script, r.script);
    assert drawn == if script == [] then [] else [script[0]];
    if script != [] {
      assert drawn[0] == script[0];
    }
  }

  lemma NoCall(p: Process, script: seq<Outcome>, able: bool)
    ensures Reports(script, Reply(p, if able then Done else Failed, script), able)
  {
    assert Drawn(script, script) == [];
  }

  lemma DrawnJoin(script: seq<Outcome>, middle: seq<Outcome>, rest: seq<Outcome>)
    requires |rest| <= |middle| <= |script|
    requires script == Drawn(script, middle) + middle && middle == Drawn(middle, rest) + rest
    ensures Drawn(script, rest) == Drawn(script, middle) + Drawn(middle, rest)
    ensures script == Drawn(script, rest) + rest
  {
  }

  lemma JoinedOutcomes(a: seq<Outcome>, b: seq<Outcome>)
    ensures AllFine(a + b) <==> AllFine(a) && AllFine(b)
    ensures Deadly(a + b) <==> Deadly(a) || Deadly(b)
  {
    assert forall i :: 0 <= i < |a| ==> (a + b)[i] == a[i];
    assert forall i :: 0 <= i < |b| ==> (a + b)[|a| + i] == b[i];
  }

  /** A call that did not go through ends there, or is followed by one that cannot mend it. */
  lemma AfterTrouble(script: seq<Outcome>, first: Reply, second: Reply, able: bool)
    requires Reports(script, first, true) && first.status.Failed? && Reports(first.script, second, false)
    ensures Reports(script, second, able)
  {
    DrawnJoin(script, first.script, second.script);
    JoinedOutcomes(Drawn(script, first.script), Drawn(first.script, second.script));
    hide AllFine, Deadly, Drawn;
  }

  lemma AfterSuccess(script: seq<Outcome>, first: Reply, second: Reply, able: bool)
    requires Reports(script, first, true) && first.status.Done? && Reports(first.script, second, able)
    ensures Reports(script, second, able)
  {
    DrawnJoin(script, first.script, second.script);
    JoinedOutcomes(Drawn(script, first.script), Drawn(first.script, second.script));
    FineIsNotDeadly(Drawn(script, first.script));
    hide AllFine, Deadly, Drawn;
  }

  lemma FineIsNotDeadly(outcomes: seq<Outcome>)
    requires AllFine(outcomes)
    ensures !Deadly(outcomes)
  {
  }

  // ---- a turn and a replay ----

  predicate Able(accepts: Bytes -> bool, e: QueueEntry) {
    e.done || Executable(accepts, e.operation)
  }

  lemma ExecuteReports(accepts: Bytes -> bool, p: Process, e: QueueEntry, script: seq<Outcome>)
    ensures Reports(script, Execute(accepts, p, e, script), Executable(accepts, e.operation))
  {
    hide Reports, PutIdempotent, DeleteIf;
    if !Executable(accepts, e.operation) {
      NoCall(p, script, false);
    } else {
      var first := StoreCall(p, PutIdempotent(p.store, PutOf(e.operation), e.key), script);
      OneCall(script, first);
      if first.status.Done? && IsRename(e.operation) {
        var second := StoreCall(first.p, DeleteIf(first.p.store, DeleteOf(e.operation)), first.script);
        OneCall(first.script, second);
        AfterSuccess(script, first, second, true);
      }
    }
  }

  lemma RefreshReports(accepts: Bytes -> bool, p: Process, e: QueueEntry, script: seq<Outcome>)
    ensures Reports(script, Refresh(accepts, p, e, script).0, true)
  {
    hide Reports, PublishAppliedPrefix;
    NoCall(p, script, true);
    OneCall(script, ReadCall(p, script));
  }

  /** A last call, after which the caller reports an error whatever came before. */
  lemma ErrorReports(script: seq<Outcome>, first: Reply, last: Reply, second: Reply)
    requires Reports(script, first, true) && !first.status.Crashed? && Reports(first.script, last, true)
    requires second.script == last.script && second.status == if last.status.Done? then Failed else last.status
    ensures Reports(script, second, false)
  {
    DrawnJoin(script, first.script, last.script);
    JoinedOutcomes(Drawn(script, first.script), Drawn(first.script, last.script));
    hide AllFine, Deadly, Drawn;
  }

  lemma AfterFailedReports(accepts: Bytes -> bool, p: Process, script: seq<Outcome>)
    requires p.entries != []
    ensures Reports(script, AfterFailedExecute(accepts, p, script), false)
  {
    RefreshReports(accepts, p, p.entries[0], script);
    var (read, e) := Refresh(accepts, p, p.entries[0], script);
    if read.status.Crashed? {
      hide AllFine, Deadly, Drawn, Refresh;
    } else {
      hide Reports, Refresh;
      var saved := Replace(read.p, p.entries[0 := e], read.script);
      OneCall(read.script, saved);
      ErrorReports(script, read, saved, AfterFailedExecute(accepts, p, script));
    }
  }

  /** An execution with what follows it in a turn. */
  lemma ExecutionReports(accepts: Bytes -> bool, p: Process, script: seq<Outcome>)
    requires p.entries != [] && Executable(accepts, p.entries[0].operation)
    ensures var run := Execute(accepts, p, p.entries[0], script);
            && Reports(script, run, true)
            && (run.status.Failed? ==> Reports(script, AfterFailedExecute(accepts, run.p, run.script), true))
            && (run.status.Done? ==> Reports(script, Replace(run.p, run.p.entries[1..], run.script), true))
  {
    hide Reports, Execute, AfterFailedExecute, Executable;
    var run := Execute(accepts, p, p.entries[0], script);
    ExecuteReports(accepts, p, p.entries[0], script);
    if run.status.Failed? {
      AfterFailedReports(accepts, run.p, run.script);
      AfterTrouble(script, run, AfterFailedExecute(accepts, run.p, run.script), true);
    } else if run.status.Done? {
      var cut := Replace(run.p, run.p.entries[1..], run.script);
      OneCall(run.script, cut);
      AfterSuccess(script, run, cut, true);
    }
  }

  /** Exactly when a turn removes the head: every call it made was fine and the head is done or executable.
      It dies exactly when a call was deadly, and reports an error otherwise. */
  lemma TurnReports(accepts: Bytes -> bool, p: Process, script: seq<Outcome>)
    requires p.entries != []
    ensures Reports(script, ReplayTurn(accepts, p, script), Able(accepts, p.entries[0]))
  {
    hide Reports, Executable, IsApplied, Execute, AfterFailedExecute;
    var e := p.entries[0];
    var check, turn := ReadCall(p, script), ReplayTurn(accepts, p, script);
    OneCall(script, check);
    if e.done {
      OneCall(script, turn);
    } else if !Executable(accepts, e.operation) {
      NoCall(p, script, false);
    } else if check.status.Done? {
      if IsApplied(p.store, e.key, e.operation) {
        OneCall(check.script, turn);
      } else {
        var attempt := Replace(p, p.entries[0 := Attempted(e)], check.script);
        OneCall(check.script, attempt);
        if attempt.status.Done? {
          ExecutionReports(accepts, attempt.p, attempt.script);
          AfterSuccess(check.script, attempt, turn, true);
        }
      }
      AfterSuccess(script, check, turn, true);
    }
  }

  predicate AllAble(accepts: Bytes -> bool, entries: seq<QueueEntry>) {
    forall i :: 0 <= i < |entries| ==> Able(accepts, entries[i])
  }

  /** Exactly when a replay drains the queue: every call it made was fine and every entry is done or
      executable. In particular a replay in which nothing goes wrong always drains an executable queue. */
  lemma {:induction false} ReplayReports(accepts: Bytes -> bool, p: Process, script: seq<Outcome>)
    ensures Reports(script, Replay(accepts, p, script), AllAble(accepts, p.entries))
    decreases |p.entries|
  {
    hide Reports, ReplayTurn, Able;
    if p.entries == [] {
      NoCall(p, script, true);
    } else {
      var turn := ReplayTurn(accepts, p, script);
      TurnReports(accepts, p, script);
      if turn.status.Done? {
        TurnIsAble(script, turn, Able(accepts, p.entries[0]));
        ReplayReports(accepts, turn.p, turn.script);
        AfterSuccess(script, turn, Replay(accepts, turn.p, turn.script), AllAble(accepts, turn.p.entries));
        assert p.entries == [p.entries[0]] + turn.p.entries;
      } else {
        NotDone(script, turn, Able(accepts, p.entries[0]), AllAble(accepts, p.entries));
      }
    }
  }

  lemma TurnIsAble(script: seq<Outcome>, turn: Reply, able: bool)
    requires Reports(script, turn, able) && turn.status.Done?
    ensures able && Reports(script, turn, true)
  {
  }

  lemma NotDone(script: seq<Outcome>, turn: Reply, able: bool, all: bool)
    requires Reports(script, turn, able) && !turn.status.Done? && (all ==> able)
    ensures Reports(script, turn, all)
  {
  }

  lemma {:induction false} FineRest(script: seq<Outcome>, r: Reply, able: bool)
    requires Reports(script, r, able) && AllFine(script)
    ensures r.status == if able then Done else Failed
  {
    FineIsNotDeadly(Drawn(script, r.script));
  }

  // ---- reachable worlds ----

  /** Some run of a mount, from what an earlier mount left, ends in `w`. */
  ghost predicate Reachable(c: Config, owner: string -> Operation, st0: Store, initial: set<Request>, w: World) {
    exists st, file, log, events ::
      && Startable(owner, st0, st, file, log) && initial == Initial(file, log)
      && AdmissibleRun(c, owner, st0, Start(st, file, log), Initial(file, log), events)
      && w == Run(c, Start(st, file, log), events)
  }

  lemma ReachableOk(c: Config, owner: string -> Operation, st0: Store, initial: set<Request>, w: World)
    returns (begun: nat, half: bool)
    requires Reachable(c, owner, st0, initial, w)
    ensures WorldOk(owner, st0, initial, w, begun, half)
  {
    hide Startable, AdmissibleRun, WorldOk, Run, Initial;
    var st, file, log, events :|
      && Startable(owner, st0, st, file, log) && initial == Initial(file, log)
      && AdmissibleRun(c, owner, st0, Start(st, file, log), Initial(file, log), events)
      && w == Run(c, Start(st, file, log), events);
    begun, half := RunOk(c, owner, st0, st, file, log, events);
  }

  /** While the gate is open nothing is queued and the store is the fold of the log. */
  lemma OpenGate(c: Config, owner: string -> Operation, st0: Store, initial: set<Request>, w: World)
    requires Reachable(c, owner, st0, initial, w) && w.p.open
    ensures w.accepting <==> w.p.entries == []
    ensures w.accepting ==> w.p.store == Fold(st0, w.accepted)
  {
    hide Reachable, ProcessOk, Fold;
    var begun, half := ReachableOk(c, owner, st0, initial, w);
    if w.accepting {
      DrainedOk(owner, st0, w.p, w.accepted, begun, half);
    }
  }

  // ---- what a replay achieves ----

  lemma ReplayStepDrains(c: Config, owner: string -> Operation, st0: Store, initial: set<Request>, w: World,
                         begun: nat, half: bool, script: seq<Outcome>)
    requires WorldOk(owner, st0, initial, w, begun, half) && w.p.open
    ensures var w' := ReplayStep(c, w, script);
            w'.p.open ==>
              && (w'.accepting <==> w'.p.entries == [])
              && (w'.accepting ==> w'.p.store == Fold(st0, w.accepted))
  {
    hide ProcessOk, Replay, Fold;
    var w' := ReplayStep(c, w, script);
    var begun', half' := ReplayEventOk(owner, st0, c, initial, w, begun, half, script);
    if w'.p.open && w'.accepting {
      DrainedOk(owner, st0, w'.p, w'.accepted, begun', half');
    }
  }

  /** In every reachable state a replay drains the queue exactly when every call it makes is fine and every
      queued operation is executable. Then the gate is open and the store is the fold of everything
      accepted; otherwise, unless the process died, the gate is closed. */
  lemma ReplayDrainsExactly(c: Config, owner: string -> Operation, st0: Store, initial: set<Request>, w: World,
                            script: seq<Outcome>)
    requires Reachable(c, owner, st0, initial, w) && w.p.open
    ensures var r, w' := Replay(c.accepts, w.p, script), Step(c, w, ReplayAll(script));
            && |r.script| <= |script| && w'.accepted == w.accepted && w'.acked == w.acked
            && (w'.p.open <==> !Deadly(Drawn(script, r.script)))
            && (w'.p.open ==>
                  && (w'.accepting <==> w'.p.entries == [])
                  && (w'.accepting <==> AllFine(Drawn(script, r.script)) && AllAble(c.accepts, w.p.entries))
                  && (w'.accepting ==> w'.p.store == Fold(st0, w.accepted)))
  {
    hide Reachable, WorldOk, Fold, Deadly, Drawn, AllFine, AllAble, HasPending, Replay;
    var begun, half := ReachableOk(c, owner, st0, initial, w);
    ReplayReports(c.accepts, w.p, script);
    ReplayStepDrains(c, owner, st0, initial, w, begun, half, script);
  }

  // ---- what an enqueue achieves ----

  lemma EnqueueOne(p: Process, capacity: nat, e: QueueEntry, script: seq<Outcome>)
    ensures EnqueueAll(p, capacity, [e], script) ==
              if HasKey(p.entries, e.key) then Reply(p, Done, script)
              else if |p.entries| + 1 > capacity then Reply(p, Failed, script)
              else Replace(p, p.entries + [e], script)
  {
    assert [e][..0] == [] && NewEntries(p.entries, []) == [];
  }

  lemma EnqueueEmpty(p: Process, capacity: nat, e: QueueEntry, script: seq<Outcome>)
    requires p.entries == []
    ensures var r := EnqueueAll(p, capacity, [e], script);
            && (r.status.Done? <==> capacity >= 1 && Head(script).Fine?)
            && (r.status.Done? ==> r.p.entries == r.p.file == [e] && r.script == Tail(script))
            && (r.status.Crashed? <==> capacity >= 1 && (Head(script).CrashBefore? || Head(script).CrashAfter?))
  {
    EnqueueOne(p, capacity, e, script);
    assert [] + [e] == [e];
  }

  lemma PendingOne(e: QueueEntry)
    requires !e.done
    ensures HasPending([e]) && Requests([e]) == [RequestOf(e)] && !HasPending([])
  {
    LiveIdentity([e]);
  }

  /** An enqueue without a gate is acknowledged exactly when its key is queued already, or there is room and the
      queue file was written; then the request is in the queue and the gate is closed. Otherwise the queue in
      memory stays as it was, unless the process died. */
  lemma EnqueueIsKeptExactly(c: Config, owner: string -> Operation, st0: Store, initial: set<Request>, w: World,
                             e: QueueEntry, script: seq<Outcome>)
    requires Reachable(c, owner, st0, initial, w) && w.p.open && AdmissibleEntry(owner, st0, w, initial, e)
    ensures var q, w' := RequestOf(e), Step(c, w, Enqueue(e, script));
            var known := HasKey(w.p.entries, e.key);
            && w'.p.store == w.p.store
            && (if known || (|w.p.entries| < c.capacity && Head(script).Fine?)
                then w'.acked == w.acked + {q} && w'.refused == w.refused && w'.p.open && !w'.accepting &&
                     q in Requests(w'.p.entries) && w'.p.entries == w.p.entries + (if known then [] else [e])
                else w'.acked == w.acked && w'.refused == w.refused + {q} &&
                     w'.p.entries == if w'.p.open then w.p.entries else [])
  {
    hide Reachable, ProcessOk, EnqueueStep, AdmissibleEntry, Names, Live, HasKey;
    var begun, half := ReachableOk(c, owner, st0, initial, w);
    EnqueueEventOk(owner, st0, c, initial, w, begun, half, e, script);
    OwnedQueue(owner, st0, w.p, w.accepted, begun, half);
    EnqueueIsTold(c, owner, st0, w, initial, e, script);
    var w' := EnqueueStep(c, w, e, script);
    assert Requests(w'.p.entries) != [] ==> w'.p.entries != [];
  }

  lemma EnqueueIsTold(c: Config, owner: string -> Operation, st0: Store, w: World, initial: set<Request>,
                      e: QueueEntry, script: seq<Outcome>)
    requires w.p.open && AdmissibleEntry(owner, st0, w, initial, e) && Owned(owner, st0, Requests(w.p.entries))
    ensures var q, w' := RequestOf(e), EnqueueStep(c, w, e, script);
            var known := HasKey(w.p.entries, e.key);
            && w'.p.store == w.p.store
            && (if known || (|w.p.entries| < c.capacity && Head(script).Fine?)
                then w'.acked == w.acked + {q} && w'.refused == w.refused && w'.p.open &&
                     q in Requests(w'.p.entries) && w'.p.entries == w.p.entries + (if known then [] else [e])
                else w'.acked == w.acked && w'.refused == w.refused + {q} &&
                     w'.p.entries == if w'.p.open then w.p.entries else [])
  {
    hide Owned;
    AckedIsQueued(owner, st0, w.p, c.capacity, e, script);
    EnqueueOne(w.p, c.capacity, e, script);
    hide EnqueueAll, HasKey, HasPending, AdmissibleEntry, Extend;
  }

  lemma OwnedQueue(owner: string -> Operation, st0: Store, p: Process, accepted: seq<Request>, begun: nat, half: bool)
    requires p.open && ProcessOk(owner, st0, p, accepted, begun, half)
    ensures Owned(owner, st0, Requests(p.entries))
  {
    hide Owned, Holds, FileFollows, Good, StoreAt;
  }

  // ---- what a commit achieves ----

  predicate IsError(o: Outcome) {
    o.ErrBefore? || o.ErrAfter?
  }

  /** The queue takes a write that the store did not: its call came back with an error, there is room, and the
      queue file was written. */
  predicate Queues(c: Config, script: seq<Outcome>) {
    IsError(Head(script)) && c.capacity >= 1 && Head(Tail(script)).Fine?
  }

  lemma CommitReplies(c: Config, p: Process, e: QueueEntry, script: seq<Outcome>)
    requires p.open && p.entries == [] && Executable(c.accepts, e.operation) && !IsRename(e.operation)
    ensures var r := CommitReply(c, p, e, script);
            && (r.status.Done? <==> Head(script).Fine? || Queues(c, script))
            && (r.status.Done? ==> r.p.open)
            && (Head(script).Fine? ==> r.p.entries == [])
            && (Queues(c, script) ==> r.p.entries == r.p.file == [e])
  {
    hide EnqueueAll, PutIdempotent;
    var run := Execute(c.accepts, p, e, script);
    EnqueueEmpty(run.p, c.capacity, e, run.script);
    EnqueueShape(run.p, c.capacity, [e], run.script);
  }

  lemma CommitIsTold(c: Config, w: World, e: QueueEntry, script: seq<Outcome>)
    requires MayWrite(c, w, e) && w.p.entries == [] && !e.done && !IsRename(e.operation)
    ensures var q, w' := RequestOf(e), CommitStep(c, w, e, script);
            && (if Head(script).Fine? || Queues(c, script)
                then w'.p.open && w'.acked == w.acked + {q} && w'.refused == w.refused
                else w'.acked == w.acked && w'.refused == w.refused + {q})
            && (Head(script).Fine? ==> w'.p.entries == [] && w'.accepting)
            && (Queues(c, script) ==> Requests(w'.p.entries) == Requests(w'.p.file) == [q] && !w'.accepting)
  {
    CommitReplies(c, w.p, e, script);
    PendingOne(e);
    hide CommitReply, Extend, SeenInStore, HasPending, Queues;
  }

  /** A commit through the open gate. The first outcome is that of the store call, the second that of the
      queue file. The store takes the write, or the queue does; it is refused exactly when the process
      died, the queue has no room or its file could not be written. */
  lemma CommitIsKeptExactly(c: Config, owner: string -> Operation, st0: Store, initial: set<Request>, w: World,
                            e: QueueEntry, script: seq<Outcome>)
    requires Reachable(c, owner, st0, initial, w) && MayWrite(c, w, e)
    requires AdmissibleEntry(owner, st0, w, initial, e) && !IsRename(e.operation)
    ensures var stored, saved, q := Head(script), Head(Tail(script)), RequestOf(e);
            var queued := IsError(stored) && c.capacity >= 1 && saved.Fine?;
            var w' := Step(c, w, Commit(e, script));
            && (if stored.Fine? || queued
                then w'.p.open && w'.acked == w.acked + {q} && w'.refused == w.refused && q in w'.accepted
                else w'.acked == w.acked && w'.refused == w.refused + {q})
            && (stored.Fine? ==> w'.p.entries == [] && w'.accepting && w'.p.store == Fold(st0, w'.accepted))
            && (queued ==> Requests(w'.p.entries) == Requests(w'.p.file) == [q] && !w'.accepting)
            && w'.p.store == if Effective(stored) && q !in w.accepted then Effect(w.p.store, q) else w.p.store
  {
    hide Reachable, Fold, ProcessOk, CommitStep, Owned, Effect;
    var begun, half := ReachableOk(c, owner, st0, initial, w);
    CommitEffect(c, owner, st0, w, begun, half, e, script);
    assert !e.done;
    hide AdmissibleEntry;
    var w' := Step(c, w, Commit(e, script));
    begun, half := CommitEventOk(owner, st0, c, initial, w, begun, half, e, script);
    CommitIsTold(c, w, e, script);
    if Head(script).Fine? {
      DrainedOk(owner, st0, w'.p, w'.accepted, begun, half);
    }
    assert RequestOf(e) in w.acked + {RequestOf(e)};
  }

  lemma CommitStores(c: Config, w: World, e: QueueEntry, script: seq<Outcome>)
    requires !IsRename(e.operation) && Executable(c.accepts, e.operation)
    ensures CommitStep(c, w, e, script).p.store ==
              if Effective(Head(script)) then PutIdempotent(w.p.store, PutOf(e.operation), e.key) else w.p.store
  {
    hide PutIdempotent, EnqueueAll, SeenInStore, Extend, HasPending;
    var run := Execute(c.accepts, w.p, e, script);
    EnqueueShape(run.p, c.capacity, [e], run.script);
  }

  /** The store call of a commit has its plain effect, once. */
  lemma CommitEffect(c: Config, owner: string -> Operation, st0: Store, w: World, begun: nat, half: bool,
                     e: QueueEntry, script: seq<Outcome>)
    requires w.p.open && w.p.entries == [] && ProcessOk(owner, st0, w.p, w.accepted, begun, half)
    requires Owned(owner, st0, [RequestOf(e)]) && !IsRename(e.operation) && Executable(c.accepts, e.operation)
    ensures var q := RequestOf(e);
            CommitStep(c, w, e, script).p.store ==
              if Effective(Head(script)) && q !in w.accepted then Effect(w.p.store, q) else w.p.store
  {
    hide ProcessOk, Owned, PutApplied, PutIdempotent, PutOnce, CommitStep;
    var q := RequestOf(e);
    CommitStores(c, w, e, script);
    if q in w.accepted {
      AlreadyDone(owner, st0, w.p, q, w.accepted, begun, half);
    } else {
      DirectOk(owner, st0, w.p, q, w.accepted, begun, half);
      PlainPut(w.p.store, PutOf(q.operation), q.key);
    }
  }

  lemma PlainPut(st: Store, put: Put, id: string)
    requires !PutApplied(st, put, id)
    ensures PutIdempotent(st, put, id) == PutOnce(st, put, id)
  {
  }

  // ---- what a rename achieves ----

  lemma OneLeft(p: Process, e: QueueEntry, accepts: Bytes -> bool, script: seq<Outcome>)
    requires p.entries == p.file == [e]
    ensures var r := Replay(accepts, p, script); r.status.Failed? ==> Requests(r.p.entries) == [RequestOf(e)]
  {
    hide Replay;
    ReplayNames(accepts, p, script);
    var r := Replay(accepts, p, script);
    assert Names([e]) == {RequestOf(e)};
    if r.status.Failed? {
      assert r.p.entries[0] in r.p.entries;
      assert RequestOf(r.p.entries[0]) in Names(r.p.entries);
    }
  }

  lemma RenameIsTold(c: Config, w: World, e: QueueEntry, script: seq<Outcome>)
    requires MayWrite(c, w, e) && w.p.entries == [] && !e.done
    ensures var q, w' := RequestOf(e), RenameStep(c, w, e, script);
            var queued := c.capacity >= 1 && Head(script).Fine?;
            && (if queued && w'.p.open then w'.acked == w.acked + {q} && w'.refused == w.refused
                else w'.acked == w.acked && w'.refused == w.refused + {q})
            && (queued ==> w'.accepted == Extend(w.accepted, [q]))
            && (queued && w'.p.open ==> w'.p.entries == [] || Requests(w'.p.entries) == [q])
            && (queued && AllFine(script) ==> w'.p.open && w'.p.entries == [] && w'.accepting)
  {
    hide EnqueueAll, Replay, Extend, HasPending, Executable;
    EnqueueEmpty(w.p, c.capacity, e, script);
    EnqueueShape(w.p, c.capacity, [e], script);
    PendingOne(e);
    var queued := EnqueueAll(w.p, c.capacity, [e], script);
    if queued.status.Done? {
      OneLeft(queued.p, e, c.accepts, queued.script);
      ReplayReports(c.accepts, queued.p, queued.script);
      if AllFine(script) {
        FineRest(queued.script, Replay(c.accepts, queued.p, queued.script), AllAble(c.accepts, [e]));
      }
    }
    hide Reports;
  }

  lemma NewInLog(log: seq<Request>, r: Request)
    requires r !in log
    ensures Extend(log, [r]) == log + [r]
  {
    assert [r][1..] == [];
  }

  /** A rename through the open gate. The first outcome is that of the queue file, the others those of the
      replay that follows. It is acknowledged exactly when it was queued and the process lived; then it is
      applied or still queued. When nothing goes wrong it is applied, once, and the gate is open again. */
  lemma RenameIsKeptExactly(c: Config, owner: string -> Operation, st0: Store, initial: set<Request>, w: World,
                            e: QueueEntry, script: seq<Outcome>)
    requires Reachable(c, owner, st0, initial, w) && MayWrite(c, w, e)
    requires AdmissibleEntry(owner, st0, w, initial, e) && IsRename(e.operation)
    ensures var q, w' := RequestOf(e), Step(c, w, Rename(e, script));
            var queued := c.capacity >= 1 && Head(script).Fine?;
            && (if queued && w'.p.open then w'.acked == w.acked + {q} && w'.refused == w.refused
                else w'.acked == w.acked && w'.refused == w.refused + {q})
            && (queued ==> w'.accepted == w.accepted + [q])
            && (queued && w'.p.open && w'.accepting ==> w'.p.entries == [] && w'.p.store == Effect(w.p.store, q))
            && (queued && w'.p.open && !w'.accepting ==> Requests(w'.p.entries) == [q])
            && (queued && AllFine(script) ==> w'.p.open && w'.accepting)
  {
    hide Reachable, Fold, ProcessOk, RenameStep, Owned;
    var begun, half := ReachableOk(c, owner, st0, initial, w);
    var q, w' := RequestOf(e), Step(c, w, Rename(e, script));
    assert q !in w.accepted;
    NewInLog(w.accepted, q);
    DrainedOk(owner, st0, w.p, w.accepted, begun, half);
    RenameIsTold(c, w, e, script);
    begun, half := RenameEventOk(owner, st0, c, initial, w, begun, half, e, script);
    if w'.p.open && w'.accepting {
      DrainedOk(owner, st0, w'.p, w'.accepted, begun, half);
      FoldLastOne(st0, w.accepted, q);
    }
    hide Effect, Extend, AdmissibleEntry;
  }

  lemma FoldLastOne(st0: Store, log: seq<Request>, r: Request)
    ensures Fold(st0, log + [r]) == Effect(Fold(st0, log), r)
  {
    assert (log + [r])[..|log|] == log;
  }

  // ---- what the queue keeps of a file and of a batch ----

  /** `some` is `all` at the positions `at`, in order. */
  ghost predicate Picks(all: seq<QueueEntry>, some: seq<QueueEntry>, at: seq<nat>) {
    && |at| == |some|
    && (forall k :: 0 <= k < |at| ==> at[k] < |all| && some[k] == all[at[k]])
    && forall k, l :: 0 <= k < l < |at| ==> at[k] < at[l]
  }

  /** One more position, kept or not. */
  lemma PicksMore(all: seq<QueueEntry>, some: seq<QueueEntry>, at: seq<nat>, keep: bool)
    requires all != [] && Picks(all[..|all| - 1], some, at)
    ensures var n := |all| - 1; var at' := at + if keep then [n] else [];
            && Picks(all, some + if keep then [all[n]] else [], at')
            && (n in at' <==> keep) && forall i: nat :: i < n ==> (i in at' <==> i in at)
  {
    var n := |all| - 1;
    assert forall k :: 0 <= k < |at| ==> at[k] < n && all[..n][at[k]] == all[at[k]];
    assert n !in at;
  }

  /** Opening a file keeps exactly the entries that are not done, in their order. */
  lemma {:induction false} LiveKeepsPending(entries: seq<QueueEntry>) returns (at: seq<nat>)
    ensures Picks(entries, Live(entries), at)
    ensures forall i: nat :: i < |entries| ==> (i in at <==> !entries[i].done)
  {
    if entries == [] {
      at := [];
    } else {
      var n := |entries| - 1;
      var front := LiveKeepsPending(entries[..n]);
      LiveLast(entries);
      hide Live, Picks;
      PicksMore(entries, Live(entries[..n]), front, !entries[n].done);
      at := front + if entries[n].done then [] else [n];
      assert forall i: nat :: i < n ==> entries[..n][i] == entries[i];
    }
  }

  lemma {:induction false} LiveLast(entries: seq<QueueEntry>)
    requires entries != []
    ensures var last := entries[|entries| - 1];
            Live(entries) == Live(entries[..|entries| - 1]) + if last.done then [] else [last]
  {
    var n := |entries| - 1;
    if n > 0 {
      LiveLast(entries[1..]);
      assert entries[1..][..n - 1] == entries[..n][1..];
    }
  }

  /** The entry is the first of its key in the batch, and the key is not queued. */
  predicate IsNew(queued: seq<QueueEntry>, batch: seq<QueueEntry>, i: nat)
    requires i < |batch|
  {
    !HasKey(queued, batch[i].key) && !HasKey(batch[..i], batch[i].key)
  }

  lemma IsNewInFront(queued: seq<QueueEntry>, batch: seq<QueueEntry>, n: nat)
    requires n <= |batch|
    ensures forall i: nat :: i < n ==> IsNew(queued, batch[..n], i) == IsNew(queued, batch, i)
  {
    hide HasKey;
    assert forall i: nat :: i < n ==> batch[..n][..i] == batch[..i] && batch[..n][i] == batch[i];
  }

  /** An enqueue takes from a batch exactly the first entry of each key that is not queued yet, in order. */
  lemma {:induction false} NewEntriesAreFirst(queued: seq<QueueEntry>, batch: seq<QueueEntry>) returns (at: seq<nat>)
    ensures Picks(batch, NewEntries(queued, batch), at)
    ensures forall i: nat :: i < |batch| ==> (i in at <==> IsNew(queued, batch, i))
  {
    if batch == [] {
      at := [];
    } else {
      var n := |batch| - 1;
      var front := NewEntriesAreFirst(queued, batch[..n]);
      var keep := IsNew(queued, batch, n);
      if !HasKey(queued, batch[n].key) {
        FirstOfKey(queued, batch[..n], batch[n].key, front);
      }
      assert NewEntries(queued, batch) == NewEntries(queued, batch[..n]) + if keep then [batch[n]] else [];
      hide NewEntries, Picks, IsNew, HasKey;
      IsNewInFront(queued, batch, n);
      PicksMore(batch, NewEntries(queued, batch[..n]), front, keep);
      at := front + if keep then [n] else [];
    }
  }

  /** A key of a batch that is not queued is among the entries taken from it. */
  lemma FirstOfKey(queued: seq<QueueEntry>, batch: seq<QueueEntry>, key: string, at: seq<nat>)
    requires Picks(batch, NewEntries(queued, batch), at) && !HasKey(queued, key)
    requires forall i: nat :: i < |batch| ==> (i in at <==> IsNew(queued, batch, i))
    ensures HasKey(NewEntries(queued, batch), key) <==> HasKey(batch, key)
  {
    var taken := NewEntries(queued, batch);
    hide NewEntries;
    if HasKey(taken, key) {
      var k :| 0 <= k < |taken| && taken[k].key == key;
      assert batch[at[k]].key == key;
    }
    if HasKey(batch, key) {
      var i := FirstAt(batch, key);
      assert i in at;
      var k :| 0 <= k < |at| && at[k] == i;
      assert taken[k].key == key;
    }
  }

  lemma FirstAt(batch: seq<QueueEntry>, key: string) returns (i: nat)
    requires HasKey(batch, key)
    ensures i < |batch| && batch[i].key == key && !HasKey(batch[..i], key)
  {
    i := 0;
    while batch[i].key != key
      invariant i < |batch| && !HasKey(batch[..i], key)
      decreases |batch| - i
    {
      assert batch[..i + 1] == batch[..i] + [batch[i]];
      i := i + 1;
    }
  }

  // ---- what a reopen and a direct call achieve ----

  /** A reopen fails exactly when completed entries must go and the file cannot be written. A reopened queue is
      what the file holds that is not done, the gate is open exactly when that is nothing, and no store call
      was made. */
  lemma ReopenIsExact(c: Config, w: World, script: seq<Outcome>)
    requires !w.p.open && w.p.entries == []
    ensures var w' := Step(c, w, Reopen(script)); var live := Live(w.p.file);
            && w'.p.store == w.p.store && w'.acked == w.acked && w'.refused == w.refused
            && (w'.p.open <==> NoneDone(w.p.file) || Head(script).Fine?)
            && (w'.p.open ==> w'.p.entries == w'.p.file == live && (w'.accepting <==> live == []))
            && (!w'.p.open ==> w'.p.entries == [] && (w'.p.file == w.p.file || w'.p.file == live))
  {
    hide Extend, Requests;
    var live := Live(w.p.file);
    LiveIdentity(live);
    if NoneDone(w.p.file) {
      LiveIdentity(w.p.file);
    } else if |live| == |w.p.file| {
      LiveFull(w.p.file);
    }
    hide Live;
  }

  /** A direct call is acknowledged exactly when it came back without error and found what it needs; it enters
      the log and changes the store exactly when it reached the store and found what it needs. */
  lemma CallIsExact(c: Config, w: World, ticket: string, call: DirectCall, script: seq<Outcome>)
    requires MayCall(w)
    ensures var r, o := Request(ticket, Direct(call)), Head(script);
            var works := Effective(o) && !Missing(w.p.store, call);
            var w' := Step(c, w, if IsUnlink(call) then Unlink(ticket, call, script) else Mkdir(ticket, call, script));
            && (if works && o.Fine? then w'.acked == w.acked + {r} && w'.refused == w.refused
                else w'.acked == w.acked && w'.refused == w.refused + {r})
            && w'.accepted == (if works then w.accepted + [r] else w.accepted)
            && w'.p.store == (if works then DirectEffect(w.p.store, call) else w.p.store)
            && (w'.p.open <==> !o.CrashBefore? && !o.CrashAfter?)
  {
    if Missing(w.p.store, call) {
      MissingChangesNothing(w.p.store, call);
    }
    hide Missing, DirectEffect;
  }

  // ---- what a failed turn records ----

  lemma FailedTurnIs(accepts: Bytes -> bool, p: Process, o: Outcome, rest: seq<Outcome>)
    requires p.open && p.entries != [] && !p.entries[0].done && !IsRename(p.entries[0].operation) && IsError(o)
    requires Executable(accepts, p.entries[0].operation)
    requires !IsApplied(p.store, p.entries[0].key, p.entries[0].operation)
    ensures var e := p.entries[0];
            var entries := p.entries[0 := Attempted(e)];
            var store := if o.ErrAfter? then PutIdempotent(p.store, PutOf(e.operation), e.key) else p.store;
            ReplayTurn(accepts, p, [Fine, Fine, o] + rest) ==
            AfterFailedExecute(accepts, Process(true, entries, entries, store), rest)
  {
    hide IsApplied, Executable, AfterFailedExecute, PutIdempotent;
    var script := [Fine, Fine, o] + rest;
    assert script[1..] == [Fine, o] + rest && ([Fine, o] + rest)[1..] == [o] + rest && ([o] + rest)[1..] == rest;
    var attempt := Replace(p, p.entries[0 := Attempted(p.entries[0])], [Fine, o] + rest);
    assert ReadCall(p, script) == Reply(p, Done, [Fine, o] + rest);
    assert attempt.status.Done? && attempt.script == [o] + rest;
  }

  lemma PublishedPrefix(st: Store, op: QueueOperation, id: string)
    requires op.PublishJsonLines? && !IsApplied(st, id, op)
    ensures PublishAppliedPrefix(st, op.stream, op.subject, id) == 0
    ensures PublishAppliedPrefix(PutIdempotent(st, PutOf(op), id), op.stream, op.subject, id) == |Lines(op.bytes)|
  {
    hide AppendLines, Lines, Sequences;
  }

  /** An append whose publish fails, in a turn in which nothing else does: the head counts one attempt more and
      knows the lines that reached the stream all the same, the file is the queue, and nothing else moved. */
  lemma FailedPublishIsRecorded(accepts: Bytes -> bool, p: Process, o: Outcome, rest: seq<Outcome>)
    requires p.open && p.entries != [] && !p.entries[0].done && p.entries[0].operation.PublishJsonLines?
    requires Executable(accepts, p.entries[0].operation)
    requires !IsApplied(p.store, p.entries[0].key, p.entries[0].operation)
    requires IsError(o) && AllFine(rest)
    ensures var r := ReplayTurn(accepts, p, [Fine, Fine, o] + rest);
            var e, op := p.entries[0], p.entries[0].operation;
            var all := |Lines(op.bytes)|;
            var lines := if o.ErrAfter? && all > op.appliedLines then all else op.appliedLines;
            var attempts := if e.attempts < 0xffff_ffff then e.attempts + 1 else e.attempts;
            && r.status.Failed? && r.p.entries == r.p.file && r.p.entries != []
            && r.p.entries[1..] == p.entries[1..]
            && r.p.entries[0] ==
               QueueEntry(e.key, PublishJsonLines(op.stream, op.subject, op.bytes, lines), attempts, false)
  {
    hide ReplayTurn, AfterFailedExecute, PutIdempotent, IsApplied, PublishAppliedPrefix, Lines;
    var e := p.entries[0];
    var entries := p.entries[0 := Attempted(e)];
    var store := if o.ErrAfter? then PutIdempotent(p.store, PutOf(e.operation), e.key) else p.store;
    FailedTurnIs(accepts, p, o, rest);
    PublishedPrefix(p.store, e.operation, e.key);
    RecordedProgress(accepts, Process(true, entries, entries, store), rest);
  }

  lemma RecordedProgress(accepts: Bytes -> bool, p: Process, script: seq<Outcome>)
    requires p.entries != [] && p.entries[0].operation.PublishJsonLines? && AllFine(script)
    requires Executable(accepts, p.entries[0].operation)
    ensures var r := AfterFailedExecute(accepts, p, script);
            var e, op := p.entries[0], p.entries[0].operation;
            var n := PublishAppliedPrefix(p.store, op.stream, op.subject, e.key);
            && r.status.Failed?
            && r.p.entries == r.p.file == p.entries[0 := e.(operation := op.(appliedLines := Max(op.appliedLines, n)))]
  {
    hide PublishAppliedPrefix;
    assert Head(script).Fine? && Head(Tail(script)).Fine?;
  }
}
