/** What every call of the writeback queue keeps: the store is a fold of the requests that have begun,
    and the queue and its file hold the rest in order, across failures and crashes at any call. */
module ReplayInvariant {
  import opened JsonLines
  import opened MemoryStore
  import opened Writeback

  // ---- the reference: unconditional effects, applied one after the other ----

  /** The put of a request, without any idempotency test. */
  function PutEffect(st: Store, r: Request): Store
    requires !r.operation.Direct?
  {
    PutOnce(st, PutOf(r.operation), r.key)
  }

  function Effect(st: Store, r: Request): Store {
    if r.operation.Direct? then DirectEffect(st, r.operation.call)
    else DeleteIf(PutEffect(st, r), DeleteOf(r.operation))
  }

  function Fold(st: Store, rs: seq<Request>): Store {
    if rs == [] then st else Effect(Fold(st, rs[..|rs| - 1]), rs[|rs| - 1])
  }

  // ---- applied facts ----

  function FactKeys(facts: set<AppliedFact>): set<string> {
    set f | f in facts :: f.2
  }

  function AppliedKeys(st: Store): set<string> {
    FactKeys(st.kvApplied.Keys) + FactKeys(st.streamApplied.Keys) + FactKeys(st.objectApplied)
  }

  function KeySet(rs: seq<Request>): set<string> {
    set r | r in rs :: r.key
  }

  lemma FactKeysAdd(facts: set<AppliedFact>, f: AppliedFact)
    ensures FactKeys(facts + {f}) == FactKeys(facts) + {f.2}
  {
    assert forall g :: g in facts + {f} <==> g == f || g in facts;
  }

  lemma PutAppliedHasKey(st: Store, put: Put, id: string)
    requires PutApplied(st, put, id)
    ensures id in AppliedKeys(st)
  {
    match put
    case PutKey(b, k, _) => assert (b, k, id) in st.kvApplied.Keys;
    case PutName(b, n, _) => assert (b, n, id) in st.objectApplied;
    case PutLines(s, subject, _) => assert (s, subject, id) in st.streamApplied.Keys;
  }

  lemma PutOnceKeys(st: Store, put: Put, id: string)
    ensures AppliedKeys(PutOnce(st, put, id)) == AppliedKeys(st) + {id}
  {
    var after := PutOnce(st, put, id);
    match put
    case PutKey(b, k, _) =>
      assert after.kvApplied.Keys == st.kvApplied.Keys + {(b, k, id)};
      FactKeysAdd(st.kvApplied.Keys, (b, k, id));
    case PutName(b, n, _) =>
      FactKeysAdd(st.objectApplied, (b, n, id));
    case PutLines(s, subject, _) =>
      assert after.streamApplied.Keys == st.streamApplied.Keys + {(s, subject, id)};
      FactKeysAdd(st.streamApplied.Keys, (s, subject, id));
  }

  lemma DeleteKeepsKeys(st: Store, del: Delete)
    ensures AppliedKeys(DeleteIf(st, del)) == AppliedKeys(st)
  {
  }

  lemma PutOnceKeeps(st: Store, put: Put, id: string, other: Put, otherId: string)
    requires PutApplied(st, put, id)
    ensures PutApplied(PutOnce(st, other, otherId), put, id)
  {
  }

  lemma DeleteKeeps(st: Store, del: Delete, put: Put, id: string)
    requires PutApplied(st, put, id)
    ensures PutApplied(DeleteIf(st, del), put, id)
  {
  }

  lemma CallKeeps(st: Store, call: DirectCall, put: Put, id: string)
    requires PutApplied(st, put, id)
    ensures PutApplied(DirectEffect(st, call), put, id)
  {
  }

  lemma NewPutIsOnce(st: Store, put: Put, id: string)
    requires id !in AppliedKeys(st)
    ensures !PutApplied(st, put, id)
    ensures PutIdempotent(st, put, id) == PutOnce(st, put, id)
  {
    if PutApplied(st, put, id) {
      PutAppliedHasKey(st, put, id);
    }
  }

  lemma CallKeepsKeys(st: Store, call: DirectCall)
    ensures AppliedKeys(DirectEffect(st, call)) == AppliedKeys(st)
  {
  }

  lemma EffectKeys(st: Store, r: Request)
    ensures AppliedKeys(Effect(st, r)) <= AppliedKeys(st) + {r.key}
  {
    hide AppliedKeys, PutOnce, DeleteIf, DirectEffect;
    if r.operation.Direct? {
      CallKeepsKeys(st, r.operation.call);
    } else {
      PutOnceKeys(st, PutOf(r.operation), r.key);
      DeleteKeepsKeys(PutEffect(st, r), DeleteOf(r.operation));
    }
  }

  lemma KeySetAppend(a: seq<Request>, b: seq<Request>)
    ensures KeySet(a + b) == KeySet(a) + KeySet(b)
  {
    assert forall r :: r in a + b <==> r in a || r in b;
  }

  lemma KeySetGrow(rs: seq<Request>)
    requires rs != []
    ensures KeySet(rs) == KeySet(rs[..|rs| - 1]) + {rs[|rs| - 1].key}
  {
    var front, r := rs[..|rs| - 1], rs[|rs| - 1];
    KeySetAppend(front, [r]);
    assert rs == front + [r];
    assert KeySet([r]) == {r.key};
  }

  lemma PutAgain(st: Store, put: Put, id: string)
    requires PutApplied(st, put, id)
    ensures PutIdempotent(st, put, id) == st
  {
  }

  lemma {:induction false} FoldKeys(st: Store, rs: seq<Request>)
    ensures AppliedKeys(Fold(st, rs)) <= AppliedKeys(st) + KeySet(rs)
  {
    if rs != [] {
      FoldKeys(st, rs[..|rs| - 1]);
      EffectKeys(Fold(st, rs[..|rs| - 1]), rs[|rs| - 1]);
      KeySetGrow(rs);
    }
  }

  lemma {:induction false} FoldApplied(st: Store, rs: seq<Request>, i: nat)
    requires i < |rs| && !rs[i].operation.Direct?
    ensures PutApplied(Fold(st, rs), PutOf(rs[i].operation), rs[i].key)
  {
    var last := rs[|rs| - 1];
    var before := Fold(st, rs[..|rs| - 1]);
    if i < |rs| - 1 {
      FoldApplied(st, rs[..|rs| - 1], i);
      if last.operation.Direct? {
        CallKeeps(before, last.operation.call, PutOf(rs[i].operation), rs[i].key);
        return;
      }
      PutOnceKeeps(before, PutOf(rs[i].operation), rs[i].key, PutOf(last.operation), last.key);
    } else {
      PutAppliedAfter(before, PutOf(last.operation), last.key);
    }
    DeleteKeeps(PutEffect(before, last), DeleteOf(last.operation), PutOf(rs[i].operation), rs[i].key);
  }

  lemma PutAppliedAfter(st: Store, put: Put, id: string)
    ensures PutApplied(PutOnce(st, put, id), put, id)
  {
  }

  // ---- the part of a queue whose application has not begun ----

  function Unbegun(queue: seq<Request>, begun: set<string>): (rs: seq<Request>) {
    if queue == [] then []
    else (if queue[0].key in begun then [] else [queue[0]]) + Unbegun(queue[1..], begun)
  }

  predicate Distinct(rs: seq<Request>) {
    forall i, j :: 0 <= i < j < |rs| ==> rs[i].key != rs[j].key
  }

  lemma UnbegunStep(queue: seq<Request>, begun: set<string>)
    ensures queue == [] ==> Unbegun(queue, begun) == []
    ensures queue != [] ==>
              Unbegun(queue, begun) == (if queue[0].key in begun then [] else [queue[0]]) + Unbegun(queue[1..], begun)
  {
  }

  lemma {:induction false} UnbegunAppend(a: seq<Request>, b: seq<Request>, begun: set<string>)
    ensures Unbegun(a + b, begun) == Unbegun(a, begun) + Unbegun(b, begun)
  {
    hide Unbegun;
    UnbegunStep(a, begun);
    if a == [] {
      assert a + b == b;
    } else {
      UnbegunStep(a + b, begun);
      UnbegunAppend(a[1..], b, begun);
      assert (a + b)[1..] == a[1..] + b && (a + b)[0] == a[0];
      Reassociate(if a[0].key in begun then [] else [a[0]], Unbegun(a[1..], begun), Unbegun(b, begun));
    }
  }

  lemma Reassociate(a: seq<Request>, b: seq<Request>, c: seq<Request>)
    ensures a + (b + c) == (a + b) + c
  {
  }

  lemma {:induction false} UnbegunMember(queue: seq<Request>, begun: set<string>, i: nat)
    requires i < |queue| && queue[i].key !in begun
    ensures queue[i] in Unbegun(queue, begun)
  {
    if i > 0 {
      UnbegunMember(queue[1..], begun, i - 1);
    }
  }

  lemma {:induction false} UnbegunFrom(queue: seq<Request>, begun: set<string>, r: Request)
    requires r in Unbegun(queue, begun)
    ensures r in queue && r.key !in begun
  {
    if queue[0].key in begun || r != queue[0] {
      UnbegunFrom(queue[1..], begun, r);
    }
  }

  lemma {:induction false} UnbegunStable(queue: seq<Request>, begun: set<string>, key: string)
    requires key !in KeySet(Unbegun(queue, begun))
    ensures Unbegun(queue, begun + {key}) == Unbegun(queue, begun)
  {
    if queue != [] {
      var rest := Unbegun(queue[1..], begun);
      if queue[0].key in begun {
        assert Unbegun(queue, begun) == rest;
      } else {
        var all := Unbegun(queue, begun);
        assert all[0] == queue[0] && all[1..] == rest;
        assert all[0].key in KeySet(all);
        assert forall i :: 0 <= i < |rest| ==> rest[i] == all[i + 1];
      }
      assert KeySet(rest) <= KeySet(Unbegun(queue, begun));
      UnbegunStable(queue[1..], begun, key);
    }
  }

  /** Beginning the first unbegun request leaves the others, in order. */
  lemma {:induction false} UnbegunBegin(queue: seq<Request>, begun: set<string>)
    requires Unbegun(queue, begun) != [] && Distinct(Unbegun(queue, begun))
    ensures Unbegun(queue, begun + {Unbegun(queue, begun)[0].key}) == Unbegun(queue, begun)[1..]
  {
    var all := Unbegun(queue, begun);
    if queue[0].key in begun {
      assert all == Unbegun(queue[1..], begun);
      UnbegunBegin(queue[1..], begun);
    } else {
      var rest := Unbegun(queue[1..], begun);
      assert all[1..] == rest;
      assert forall i :: 0 <= i < |rest| ==> rest[i] == all[i + 1];
      UnbegunStable(queue[1..], begun, queue[0].key);
    }
  }

  lemma LiveIdentity(entries: seq<QueueEntry>)
    requires forall i :: 0 <= i < |entries| ==> !entries[i].done
    ensures Live(entries) == entries
  {
    if entries != [] {
      LiveIdentity(entries[1..]);
    }
  }

  // ---- the invariant of a process ----

  /** One key names one operation, and the store has not seen the key before the run. */
  ghost predicate Owned(owner: string -> Operation, st0: Store, rs: seq<Request>) {
    forall r :: r in rs ==> owner(r.key) == r.operation && r.key !in AppliedKeys(st0)
  }

  ghost predicate Good(owner: string -> Operation, st0: Store, accepted: seq<Request>) {
    Distinct(accepted) && Owned(owner, st0, accepted)
  }

  /** `queue` holds what is left of `accepted` once its first `begun` requests have begun; `half` says
      that the last of those is a rename whose source delete is still due. */
  ghost predicate Holds(queue: seq<Request>, accepted: seq<Request>, begun: nat, half: bool) {
    && begun <= |accepted|
    && Unbegun(queue, KeySet(accepted[..begun])) == accepted[begun..]
    && (forall i :: 0 <= i < |queue| && IsRename(queue[i].operation) && queue[i].key in KeySet(accepted[..begun]) ==>
          i == 0 && begun > 0 && queue[0] == accepted[begun - 1])
    && (half ==> begun > 0 && IsRename(accepted[begun - 1].operation) && queue != [] && queue[0] == accepted[begun - 1])
  }

  function StoreAt(st0: Store, accepted: seq<Request>, begun: nat, half: bool): Store
    requires begun <= |accepted| && (half ==> begun > 0 && !accepted[begun - 1].operation.Direct?)
  {
    if half then PutEffect(Fold(st0, accepted[..begun - 1]), accepted[begun - 1]) else Fold(st0, accepted[..begun])
  }

  /** Requests that a failed enqueue may have left in the file behind the queue. */
  ghost predicate Stray(owner: string -> Operation, st0: Store, queue: seq<Request>, accepted: seq<Request>,
                  extra: seq<Request>)
  {
    && Good(owner, st0, extra)
    && (forall r :: r in extra ==> r.key !in KeySet(queue))
    && (forall r :: r in extra && IsRename(r.operation) ==> r.key !in KeySet(accepted))
  }

  /** While the queue is open the file is the queue, or lacks only a finished head, or has strays. */
  ghost predicate FileFollows(owner: string -> Operation, st0: Store, queue: seq<Request>, file: seq<Request>,
                        accepted: seq<Request>, begun: nat, half: bool)
    requires begun <= |accepted|
  {
    || (exists extra :: file == queue + extra && Stray(owner, st0, queue, accepted, extra))
    || (queue != [] && file == queue[1..] && queue[0].key in KeySet(accepted[..begun]) && !half)
  }

  predicate NoneDone(entries: seq<QueueEntry>) {
    forall i :: 0 <= i < |entries| ==> !entries[i].done
  }

  ghost predicate OpenOk(owner: string -> Operation, st0: Store, p: Process, accepted: seq<Request>, begun: nat,
                         half: bool) {
    && NoneDone(p.entries) && NoneDone(p.file)
    && Owned(owner, st0, Requests(p.entries))
    && Holds(Requests(p.entries), accepted, begun, half)
    && FileFollows(owner, st0, Requests(p.entries), Requests(p.file), accepted, begun, half)
  }

  ghost predicate ClosedOk(owner: string -> Operation, st0: Store, p: Process, accepted: seq<Request>, begun: nat,
                           half: bool) {
    && p.entries == []
    && Owned(owner, st0, Requests(Live(p.file)))
    && exists extra ::
         Good(owner, st0, accepted + extra) && Holds(Requests(Live(p.file)), accepted + extra, begun, half)
  }

  ghost predicate ProcessOk(owner: string -> Operation, st0: Store, p: Process, accepted: seq<Request>, begun: nat,
                            half: bool) {
    && Good(owner, st0, accepted)
    && begun <= |accepted| && (half ==> begun > 0 && !accepted[begun - 1].operation.Direct?)
    && p.store == StoreAt(st0, accepted, begun, half)
    && if p.open then OpenOk(owner, st0, p, accepted, begun, half)
       else ClosedOk(owner, st0, p, accepted, begun, half)
  }

  // ---- crashing keeps it ----

  lemma HoldsTail(queue: seq<Request>, accepted: seq<Request>, begun: nat)
    requires Holds(queue, accepted, begun, false)
    requires queue != [] && queue[0].key in KeySet(accepted[..begun])
    ensures Holds(queue[1..], accepted, begun, false)
  {
    forall i | 0 <= i < |queue[1..]| && IsRename(queue[1..][i].operation)
      ensures queue[1..][i].key !in KeySet(accepted[..begun])
    {
      assert queue[1..][i] == queue[i + 1];
    }
  }

  lemma HoldsStray(owner: string -> Operation, st0: Store, queue: seq<Request>, extra: seq<Request>,
                   accepted: seq<Request>, begun: nat, half: bool)
    requires Good(owner, st0, accepted) && Holds(queue, accepted, begun, half)
    requires Stray(owner, st0, queue, accepted, extra)
    ensures var more := Unbegun(extra, KeySet(accepted[..begun]));
            Good(owner, st0, accepted + more) && Holds(queue + extra, accepted + more, begun, half)
  {
    var begunKeys := KeySet(accepted[..begun]);
    var more := Unbegun(extra, begunKeys);
    var all := accepted + more;
    assert all[..begun] == accepted[..begun];
    assert all[begun..] == accepted[begun..] + more;
    UnbegunAppend(queue, extra, begunKeys);
    KeySetSplit(accepted, begun);
    UnbegunKeys(queue, begunKeys);
    forall r | r in more
      ensures r in extra && r.key !in KeySet(accepted)
    {
      UnbegunFrom(extra, begunKeys, r);
    }
    UnbegunDistinct(extra, begunKeys);
    forall i, j | 0 <= i < j < |all|
      ensures all[i].key != all[j].key
    {
      if i < |accepted| <= j {
        assert all[j] in more;
        assert all[i] in accepted;
      }
    }
    assert forall i :: |queue| <= i < |queue + extra| ==> (queue + extra)[i] in extra;
  }

  lemma KeySetSplit(rs: seq<Request>, n: nat)
    requires n <= |rs|
    ensures KeySet(rs) == KeySet(rs[..n]) + KeySet(rs[n..])
  {
    KeySetAppend(rs[..n], rs[n..]);
    assert rs[..n] + rs[n..] == rs;
  }

  lemma UnbegunKeys(queue: seq<Request>, begun: set<string>)
    ensures KeySet(Unbegun(queue, begun)) <= KeySet(queue) - begun
  {
    forall r | r in Unbegun(queue, begun)
      ensures r.key in KeySet(queue) - begun
    {
      UnbegunFrom(queue, begun, r);
    }
  }

  lemma {:induction false} UnbegunDistinct(queue: seq<Request>, begun: set<string>)
    requires Distinct(queue)
    ensures Distinct(Unbegun(queue, begun))
  {
    if queue != [] {
      var rest := Unbegun(queue[1..], begun);
      UnbegunDistinct(queue[1..], begun);
      forall i | 0 <= i < |rest|
        ensures rest[i].key != queue[0].key
      {
        UnbegunFrom(queue[1..], begun, rest[i]);
        var j :| 0 <= j < |queue[1..]| && queue[1..][j] == rest[i];
        assert queue[j + 1] == rest[i];
      }
    }
  }

  lemma CrashOk(owner: string -> Operation, st0: Store, p: Process, accepted: seq<Request>, begun: nat, half: bool)
    requires p.open && ProcessOk(owner, st0, p, accepted, begun, half)
    ensures ProcessOk(owner, st0, p.(open := false, entries := []), accepted, begun, half)
  {
    LiveIdentity(p.file);
    var queue, file := Requests(p.entries), Requests(p.file);
    if extra :| file == queue + extra && Stray(owner, st0, queue, accepted, extra) {
      HoldsStray(owner, st0, queue, extra, accepted, begun, half);
      assert Owned(owner, st0, file);
    } else {
      HoldsTail(queue, accepted, begun);
      assert accepted + [] == accepted;
      assert forall r :: r in file ==> r in queue;
    }
  }

  // ---- every call of the replay loop keeps it ----

  lemma FileIsQueue(owner: string -> Operation, st0: Store, queue: seq<Request>, accepted: seq<Request>, begun: nat,
                    half: bool)
    requires begun <= |accepted|
    ensures FileFollows(owner, st0, queue, queue, accepted, begun, half)
  {
    assert queue == queue + [] && Stray(owner, st0, queue, accepted, []);
  }

  lemma ReplaceSameOk(owner: string -> Operation, st0: Store, p: Process, entries: seq<QueueEntry>,
                      script: seq<Outcome>, accepted: seq<Request>, begun: nat, half: bool)
    requires p.open && ProcessOk(owner, st0, p, accepted, begun, half)
    requires NoneDone(entries) && Requests(entries) == Requests(p.entries)
    ensures ProcessOk(owner, st0, Replace(p, entries, script).p, accepted, begun, half)
  {
    FileIsQueue(owner, st0, Requests(entries), accepted, begun, half);
    var o := Head(script);
    var written := if Effective(o) then p.(file := entries) else p;
    assert ProcessOk(owner, st0, written, accepted, begun, half);
    CrashOk(owner, st0, written, accepted, begun, half);
  }

  lemma ReplaceTailOk(owner: string -> Operation, st0: Store, p: Process, script: seq<Outcome>,
                      accepted: seq<Request>, begun: nat)
    requires p.open && ProcessOk(owner, st0, p, accepted, begun, false)
    requires p.entries != [] && p.entries[0].key in KeySet(accepted[..begun])
    ensures ProcessOk(owner, st0, Replace(p, p.entries[1..], script).p, accepted, begun, false)
  {
    var queue, tail := Requests(p.entries), p.entries[1..];
    assert Requests(tail) == queue[1..];
    assert queue[0].key == p.entries[0].key;
    var o := Head(script);
    var written := if Effective(o) then p.(file := tail) else p;
    assert ProcessOk(owner, st0, written, accepted, begun, false);
    CrashOk(owner, st0, written, accepted, begun, false);
    if o.Fine? {
      HoldsTail(queue, accepted, begun);
      FileIsQueue(owner, st0, queue[1..], accepted, begun, false);
      assert forall r :: r in queue[1..] ==> r in queue;
    }
  }

  lemma BeginHolds(queue: seq<Request>, accepted: seq<Request>, begun: nat, half: bool)
    requires Distinct(accepted) && Holds(queue, accepted, begun, half)
    requires queue != [] && queue[0].key !in KeySet(accepted[..begun])
    ensures !half && begun < |accepted| && accepted[begun] == queue[0]
    ensures Holds(queue, accepted, begun + 1, IsRename(queue[0].operation))
  {
    hide Unbegun;
    var before := KeySet(accepted[..begun]);
    assert begun > 0 ==> accepted[begun - 1] in accepted[..begun];
    var all := Unbegun(queue, before);
    UnbegunStep(queue, before);
    assert all[0] == queue[0] && all[1..] == Unbegun(queue[1..], before);
    assert accepted[begun] == queue[0];
    assert accepted[begun..][1..] == accepted[begun + 1..];
    KeySetGrow(accepted[..begun + 1]);
    assert accepted[..begun + 1][..begun] == accepted[..begun];
    UnbegunBegin(queue, before);
    forall i | 0 < i < |queue| && IsRename(queue[i].operation)
      ensures queue[i].key !in KeySet(accepted[..begun + 1])
    {
      assert queue[i].key !in before;
      UnbegunMember(queue[1..], before, i - 1);
      assert queue[i] in accepted[begun + 1..];
    }
  }

  /** The put of an unbegun head takes effect. */
  lemma BeginOk(owner: string -> Operation, st0: Store, p: Process, accepted: seq<Request>, begun: nat, half: bool)
    requires p.open && ProcessOk(owner, st0, p, accepted, begun, half)
    requires p.entries != [] && p.entries[0].key !in KeySet(accepted[..begun])
    ensures !PutApplied(p.store, PutOf(p.entries[0].operation), p.entries[0].key)
    ensures begun < |accepted| && accepted[begun] == RequestOf(p.entries[0])
    ensures ProcessOk(owner, st0, p.(store := PutIdempotent(p.store, PutOf(p.entries[0].operation), p.entries[0].key)),
                      accepted, begun + 1, IsRename(p.entries[0].operation))
  {
    var queue, r := Requests(p.entries), RequestOf(p.entries[0]);
    assert queue[0] == r;
    BeginHolds(queue, accepted, begun, half);
    FoldKeys(st0, accepted[..begun]);
    NewPutIsOnce(p.store, PutOf(r.operation), r.key);
    hide AppliedKeys, PutIdempotent, PutApplied, PutOnce, Unbegun;
    assert accepted[..begun + 1][..begun] == accepted[..begun];
    assert FileFollows(owner, st0, queue, Requests(p.file), accepted, begun + 1, IsRename(r.operation));
  }

  /** The source delete of a half-done head takes effect, or turns out to have nothing to delete. */
  lemma FinishOk(owner: string -> Operation, st0: Store, p: Process, accepted: seq<Request>, begun: nat)
    requires p.open && ProcessOk(owner, st0, p, accepted, begun, true)
    ensures p.entries != [] && RequestOf(p.entries[0]) == accepted[begun - 1]
    ensures ProcessOk(owner, st0, p.(store := DeleteIf(p.store, DeleteOf(p.entries[0].operation))), accepted, begun,
            false)
    ensures DeleteApplied(p.store, DeleteOf(p.entries[0].operation)) ==>
            ProcessOk(owner, st0, p, accepted, begun, false)
  {
    var queue := Requests(p.entries);
    assert queue[0] == RequestOf(p.entries[0]);
    assert accepted[..begun][..begun - 1] == accepted[..begun - 1];
    assert FileFollows(owner, st0, queue, Requests(p.file), accepted, begun, false);
  }

  /** A begun head that is not half done is reported as applied. */
  lemma BegunIsApplied(owner: string -> Operation, st0: Store, p: Process, accepted: seq<Request>, begun: nat,
                       half: bool)
    requires p.open && ProcessOk(owner, st0, p, accepted, begun, half)
    requires p.entries != [] && p.entries[0].key in KeySet(accepted[..begun])
    ensures PutApplied(p.store, PutOf(p.entries[0].operation), p.entries[0].key)
    ensures !half ==> DeleteApplied(p.store, DeleteOf(p.entries[0].operation))
    ensures half ==> IsRename(p.entries[0].operation)
  {
    hide PutApplied, DeleteApplied, PutOnce, AppliedKeys, Unbegun, FileFollows, Fold, Effect;
    var queue, r := Requests(p.entries), RequestOf(p.entries[0]);
    assert queue[0] == r && r in queue;
    var a :| a in accepted[..begun] && a.key == r.key;
    assert a in accepted && a == r;
    var i :| 0 <= i < begun && accepted[..begun][i] == r;
    if half {
      PutAppliedAfter(Fold(st0, accepted[..begun - 1]), PutOf(r.operation), r.key);
    } else {
      FoldApplied(st0, accepted[..begun], i);
      if IsRename(r.operation) {
        assert accepted[begun - 1] == r;
        FoldLast(st0, accepted, begun);
        DeleteIsApplied(PutEffect(Fold(st0, accepted[..begun - 1]), r), DeleteOf(r.operation));
      } else {
        NoDeleteIsApplied(p.store, r.operation);
      }
    }
  }

  lemma FoldLast(st0: Store, rs: seq<Request>, n: nat)
    requires 0 < n <= |rs| && !rs[n - 1].operation.Direct?
    ensures Fold(st0, rs[..n]) == DeleteIf(PutEffect(Fold(st0, rs[..n - 1]), rs[n - 1]), DeleteOf(rs[n - 1].operation))
  {
    assert rs[..n][..n - 1] == rs[..n - 1];
    hide PutEffect, DeleteIf;
  }

  lemma DeleteIsApplied(st: Store, del: Delete)
    ensures DeleteApplied(DeleteIf(st, del), del)
  {
  }

  lemma NoDeleteIsApplied(st: Store, op: QueueOperation)
    requires !IsRename(op)
    ensures DeleteApplied(st, DeleteOf(op))
  {
  }

  lemma StoreCallOk(owner: string -> Operation, st0: Store, p: Process, after: Store, script: seq<Outcome>,
                    accepted: seq<Request>, begun: nat, half: bool, begun': nat, half': bool)
    requires p.open && ProcessOk(owner, st0, p, accepted, begun, half)
    requires ProcessOk(owner, st0, p.(store := after), accepted, begun', half')
    ensures var o := Head(script);
            ProcessOk(owner, st0, StoreCall(p, after, script).p, accepted,
                      if Effective(o) then begun' else begun, if Effective(o) then half' else half)
  {
    CrashOk(owner, st0, p, accepted, begun, half);
    CrashOk(owner, st0, p.(store := after), accepted, begun', half');
  }

  lemma ExecuteOk(owner: string -> Operation, st0: Store, accepts: Bytes -> bool, p: Process, script: seq<Outcome>,
                  accepted: seq<Request>, begun: nat, half: bool) returns (begun': nat, half': bool)
    requires p.open && begun <= |accepted| && ProcessOk(owner, st0, p, accepted, begun, half)
    requires p.entries != [] && Executable(accepts, p.entries[0].operation)
    requires !IsApplied(p.store, p.entries[0].key, p.entries[0].operation)
    ensures var run := Execute(accepts, p, p.entries[0], script);
            && begun' <= |accepted| && ProcessOk(owner, st0, run.p, accepted, begun', half')
            && (run.status.Done? ==> !half' && p.entries[0].key in KeySet(accepted[..begun']))
  {
    hide ProcessOk, PutIdempotent, PutApplied, DeleteIf, DeleteApplied;
    var e := p.entries[0];
    var put := PutIdempotent(p.store, PutOf(e.operation), e.key);
    var middle, rename := p.(store := put), IsRename(e.operation);
    var first := StoreCall(p, put, script);
    var after := begun;
    if e.key in KeySet(accepted[..begun]) {
      BegunIsApplied(owner, st0, p, accepted, begun, half);
      PutAgain(p.store, PutOf(e.operation), e.key);
      assert middle == p && half;
      StoreCallOk(owner, st0, p, put, script, accepted, begun, half, begun, half);
    } else {
      after := begun + 1;
      BeginOk(owner, st0, p, accepted, begun, half);
      assert accepted[begun] in accepted[..begun + 1];
      StoreCallOk(owner, st0, p, put, script, accepted, begun, half, after, rename);
    }
    begun', half' := if Effective(Head(script)) then after else begun, if Effective(Head(script)) then rename else half;
    if first.status.Done? && rename {
      FinishOk(owner, st0, middle, accepted, after);
      StoreCallOk(owner, st0, middle, DeleteIf(put, DeleteOf(e.operation)), first.script, accepted, after, true, after,
        false);
      half' := !Effective(Head(first.script));
    }
  }

  lemma AfterFailedExecuteOk(owner: string -> Operation, st0: Store, accepts: Bytes -> bool, p: Process,
                             script: seq<Outcome>, accepted: seq<Request>, begun: nat, half: bool)
    requires p.open && ProcessOk(owner, st0, p, accepted, begun, half) && p.entries != []
    ensures ProcessOk(owner, st0, AfterFailedExecute(accepts, p, script).p, accepted, begun, half)
  {
    CrashOk(owner, st0, p, accepted, begun, half);
    var (read, e) := Refresh(accepts, p, p.entries[0], script);
    if !read.status.Crashed? {
      var entries := p.entries[0 := e];
      assert Requests(entries) == Requests(p.entries);
      ReplaceSameOk(owner, st0, p, entries, read.script, accepted, begun, half);
    }
  }

  lemma TurnOk(owner: string -> Operation, st0: Store, accepts: Bytes -> bool, p: Process, script: seq<Outcome>,
               accepted: seq<Request>, begun: nat, half: bool) returns (begun': nat, half': bool)
    requires p.open && ProcessOk(owner, st0, p, accepted, begun, half) && p.entries != []
    ensures ProcessOk(owner, st0, ReplayTurn(accepts, p, script).p, accepted, begun', half')
  {
    hide PutApplied, DeleteApplied, Execute, AfterFailedExecute, Good, StoreAt, Holds, FileFollows, Owned;
    begun', half' := begun, half;
    var e := p.entries[0];
    var check := ReadCall(p, script);
    if !Executable(accepts, e.operation) {
    } else if !check.status.Done? {
      CrashOk(owner, st0, p, accepted, begun, half);
    } else if IsApplied(p.store, e.key, e.operation) {
      if e.key !in KeySet(accepted[..begun]) {
        BeginOk(owner, st0, p, accepted, begun, half);
      }
      if half {
        FinishOk(owner, st0, p, accepted, begun);
        half' := false;
      }
      ReplaceTailOk(owner, st0, p, check.script, accepted, begun);
    } else {
      var entries := p.entries[0 := Attempted(e)];
      assert Requests(entries) == Requests(p.entries);
      ReplaceSameOk(owner, st0, p, entries, check.script, accepted, begun, half);
      var attempt := Replace(p, entries, check.script);
      if attempt.status.Done? {
        begun', half' := ExecuteOk(owner, st0, accepts, attempt.p, attempt.script, accepted, begun, half);
        var run := Execute(accepts, attempt.p, attempt.p.entries[0], attempt.script);
        if run.status.Failed? {
          AfterFailedExecuteOk(owner, st0, accepts, run.p, run.script, accepted, begun', half');
        } else if run.status.Done? {
          ReplaceTailOk(owner, st0, run.p, run.script, accepted, begun');
        }
      }
    }
  }

  lemma {:induction false} ReplayOk(owner: string -> Operation, st0: Store, accepts: Bytes -> bool, p: Process,
                                    script: seq<Outcome>, accepted: seq<Request>, begun: nat, half: bool)
    returns (begun': nat, half': bool)
    requires p.open && ProcessOk(owner, st0, p, accepted, begun, half)
    ensures ProcessOk(owner, st0, Replay(accepts, p, script).p, accepted, begun', half')
    ensures Replay(accepts, p, script).status.Done? ==> begun' == |accepted| && !half'
    decreases |p.entries|
  {
    hide ProcessOk, ReplayTurn;
    begun', half' := begun, half;
    if p.entries != [] {
      begun', half' := TurnOk(owner, st0, accepts, p, script, accepted, begun, half);
      var turn := ReplayTurn(accepts, p, script);
      if turn.status.Done? {
        begun', half' := ReplayOk(owner, st0, accepts, turn.p, turn.script, accepted, begun', half');
      }
    } else {
      DrainedOk(owner, st0, p, accepted, begun, half);
    }
  }

  /** With an empty queue everything accepted has been applied. */
  lemma DrainedOk(owner: string -> Operation, st0: Store, p: Process, accepted: seq<Request>, begun: nat, half: bool)
    requires p.open && p.entries == [] && ProcessOk(owner, st0, p, accepted, begun, half)
    ensures begun == |accepted| && !half && p.store == Fold(st0, accepted)
  {
    assert accepted[..|accepted|] == accepted;
  }

  // ---- requests enter the log ----

  /** Appends the requests that are not in the log yet. */
  function Extend(log: seq<Request>, rs: seq<Request>): (log': seq<Request>)
    ensures log <= log'
    decreases rs
  {
    if rs == [] then log else Extend(if rs[0] in log then log else log + [rs[0]], rs[1..])
  }

  lemma {:induction false} ExtendMembers(log: seq<Request>, rs: seq<Request>, r: Request)
    ensures r in Extend(log, rs) <==> r in log || r in rs
    decreases rs
  {
    if rs != [] {
      ExtendMembers(if rs[0] in log then log else log + [rs[0]], rs[1..], r);
    }
  }

  lemma {:induction false} ExtendUnbegun(log: seq<Request>, queue: seq<Request>, begun: set<string>)
    requires forall r :: r in queue && r.key in begun ==> r in log
    ensures Extend(log, queue) == Extend(log, Unbegun(queue, begun))
    decreases queue
  {
    if queue != [] {
      var log' := if queue[0] in log then log else log + [queue[0]];
      ExtendUnbegun(log', queue[1..], begun);
      var all := Unbegun(queue, begun);
      if queue[0].key in begun {
        assert all == Unbegun(queue[1..], begun);
      } else {
        assert all[0] == queue[0] && all[1..] == Unbegun(queue[1..], begun);
      }
    }
  }

  lemma {:induction false} ExtendKnown(log: seq<Request>, known: seq<Request>, rs: seq<Request>)
    requires forall r :: r in known ==> r in log
    ensures Extend(log, known + rs) == Extend(log, rs)
  {
    if known == [] {
      assert known + rs == rs;
    } else {
      assert (known + rs)[1..] == known[1..] + rs;
      ExtendKnown(log, known[1..], rs);
    }
  }

  lemma {:induction false} ExtendNew(log: seq<Request>, rs: seq<Request>)
    requires Distinct(log + rs)
    ensures Extend(log, rs) == log + rs
    decreases rs
  {
    if rs != [] {
      var all := log + rs;
      forall i | 0 <= i < |log|
        ensures log[i] != rs[0]
      {
        assert all[i] == log[i] && all[|log|] == rs[0];
      }
      assert log + [rs[0]] + rs[1..] == all;
      ExtendNew(log + [rs[0]], rs[1..]);
    }
  }

  /** Opening a queue extends the log by exactly the requests that had not been seen before. */
  lemma ExtendHolds(owner: string -> Operation, st0: Store, queue: seq<Request>, accepted: seq<Request>,
                    extra: seq<Request>, begun: nat, half: bool)
    requires Good(owner, st0, accepted + extra) && begun <= |accepted|
    requires Owned(owner, st0, queue) && Holds(queue, accepted + extra, begun, half)
    ensures Extend(accepted, queue) == accepted + extra
  {
    var all := accepted + extra;
    assert all[..begun] == accepted[..begun];
    assert all[begun..] == accepted[begun..] + extra;
    var begunKeys := KeySet(accepted[..begun]);
    forall r | r in queue && r.key in begunKeys
      ensures r in accepted
    {
      var a :| a in accepted[..begun] && a.key == r.key;
      assert a in all;
    }
    ExtendUnbegun(accepted, queue, begunKeys);
    ExtendKnown(accepted, accepted[begun..], extra);
    ExtendNew(accepted, extra);
  }

  lemma {:induction false} NewEntriesFacts(queued: seq<QueueEntry>, batch: seq<QueueEntry>)
    ensures var added := Requests(NewEntries(queued, batch));
            && Distinct(added)
            && (forall r :: r in added ==> r.key !in KeySet(Requests(queued)))
            && (forall e :: e in NewEntries(queued, batch) ==> e in batch)
  {
    if batch != [] {
      var front, e := batch[..|batch| - 1], batch[|batch| - 1];
      NewEntriesFacts(queued, front);
      var before := NewEntries(queued, front);
      if !HasKey(queued, e.key) && !HasKey(before, e.key) {
        var added := Requests(before + [e]);
        assert forall i :: 0 <= i < |before| ==> before[i].key != e.key;
        assert forall i :: 0 <= i < |queued| ==> queued[i].key != e.key;
        assert forall i :: 0 <= i < |before| ==> added[i] == Requests(before)[i];
      }
    }
  }

  lemma LongerOk(owner: string -> Operation, st0: Store, p: Process, added: seq<QueueEntry>,
                 accepted: seq<Request>, begun: nat, half: bool)
    requires p.open && ProcessOk(owner, st0, p, accepted, begun, half)
    requires NoneDone(added) && Stray(owner, st0, Requests(p.entries), accepted, Requests(added))
    ensures var entries := p.entries + added;
            ProcessOk(owner, st0, p.(entries := entries, file := entries), Extend(accepted, Requests(entries)), begun,
              half)
  {
    hide Unbegun, StoreAt, FileFollows, Extend;
    var queue, extra, entries := Requests(p.entries), Requests(added), p.entries + added;
    assert Requests(entries) == queue + extra;
    assert Owned(owner, st0, queue + extra);
    assert NoneDone(entries);
    hide Owned, Good, Holds, Stray;
    HoldsStray(owner, st0, queue, extra, accepted, begun, half);
    var more := Unbegun(extra, KeySet(accepted[..begun]));
    ExtendHolds(owner, st0, queue + extra, accepted, more, begun, half);
    StoreAtPrefix(st0, accepted, more, begun, half);
    OpenAgain(owner, st0, p, entries, accepted + more, begun, half);
  }

  lemma OpenAgain(owner: string -> Operation, st0: Store, p: Process, entries: seq<QueueEntry>,
                  accepted: seq<Request>, begun: nat, half: bool)
    requires p.open && NoneDone(entries) && Owned(owner, st0, Requests(entries)) && Good(owner, st0, accepted)
    requires Holds(Requests(entries), accepted, begun, half) && begun <= |accepted| &&
             (half ==> begun > 0 && !accepted[begun - 1].operation.Direct?)
    requires p.store == StoreAt(st0, accepted, begun, half)
    ensures ProcessOk(owner, st0, p.(entries := entries, file := entries), accepted, begun, half)
  {
    hide Holds, Good, Owned, StoreAt, FileFollows;
    FileIsQueue(owner, st0, Requests(entries), accepted, begun, half);
  }

  lemma StoreAtPrefix(st0: Store, accepted: seq<Request>, more: seq<Request>, begun: nat, half: bool)
    requires begun <= |accepted| && (half ==> begun > 0 && !accepted[begun - 1].operation.Direct?)
    ensures StoreAt(st0, accepted + more, begun, half) == StoreAt(st0, accepted, begun, half)
  {
    assert (accepted + more)[..begun] == accepted[..begun];
    assert half ==> (accepted + more)[..begun - 1] == accepted[..begun - 1];
  }

  lemma StrayFileOk(owner: string -> Operation, st0: Store, p: Process, added: seq<QueueEntry>,
                    accepted: seq<Request>, begun: nat, half: bool)
    requires p.open && ProcessOk(owner, st0, p, accepted, begun, half)
    requires NoneDone(added) && Stray(owner, st0, Requests(p.entries), accepted, Requests(added))
    ensures ProcessOk(owner, st0, p.(file := p.entries + added), accepted, begun, half)
  {
    hide Holds, Stray, Good, Owned, StoreAt;
    assert Requests(p.entries + added) == Requests(p.entries) + Requests(added);
    assert NoneDone(p.entries + added);
  }

  /** The queue file replacement of an enqueue, whatever its outcome. */
  lemma ReplaceLongerOk(owner: string -> Operation, st0: Store, p: Process, added: seq<QueueEntry>,
                        script: seq<Outcome>, accepted: seq<Request>, begun: nat, half: bool)
    requires p.open && ProcessOk(owner, st0, p, accepted, begun, half)
    requires NoneDone(added) && Stray(owner, st0, Requests(p.entries), accepted, Requests(added))
    ensures var r := Replace(p, p.entries + added, script);
            ProcessOk(owner, st0, r.p, Extend(accepted, Requests(r.p.entries)), begun, half)
  {
    hide ProcessOk, Stray;
    var o := Head(script);
    var written := if Effective(o) then p.(file := p.entries + added) else p;
    if o.Fine? {
      LongerOk(owner, st0, p, added, accepted, begun, half);
    } else {
      StrayFileOk(owner, st0, p, added, accepted, begun, half);
      CrashOk(owner, st0, written, accepted, begun, half);
      SeenOk(owner, st0, p, accepted, begun, half);
    }
  }

  lemma SeenOk(owner: string -> Operation, st0: Store, p: Process, accepted: seq<Request>, begun: nat, half: bool)
    requires p.open && ProcessOk(owner, st0, p, accepted, begun, half)
    ensures Extend(accepted, Requests(p.entries)) == accepted == Extend(accepted, [])
  {
    assert accepted + [] == accepted;
    ExtendHolds(owner, st0, Requests(p.entries), accepted, [], begun, half);
  }

  lemma RequestsWithin(some: seq<QueueEntry>, all: seq<QueueEntry>)
    requires forall e :: e in some ==> e in all
    ensures forall r :: r in Requests(some) ==> r in Requests(all)
  {
    forall r | r in Requests(some)
      ensures r in Requests(all)
    {
      var i :| 0 <= i < |some| && Requests(some)[i] == r;
      assert some[i] in all;
      var j :| 0 <= j < |all| && all[j] == some[i];
      assert Requests(all)[j] == r;
    }
  }

  lemma EnqueueOk(owner: string -> Operation, st0: Store, p: Process, capacity: nat, batch: seq<QueueEntry>,
                  script: seq<Outcome>, accepted: seq<Request>, begun: nat, half: bool)
    requires p.open && ProcessOk(owner, st0, p, accepted, begun, half)
    requires NoneDone(batch) && Owned(owner, st0, Requests(batch))
    requires forall r :: r in Requests(batch) && IsRename(r.operation) ==> r.key !in KeySet(accepted)
    ensures var r := EnqueueAll(p, capacity, batch, script);
            ProcessOk(owner, st0, r.p, Extend(accepted, Requests(r.p.entries)), begun, half)
  {
    hide ProcessOk, Replace;
    var added := NewEntries(p.entries, batch);
    NewEntriesFacts(p.entries, batch);
    RequestsWithin(added, batch);
    SeenOk(owner, st0, p, accepted, begun, half);
    hide NewEntries, Extend;
    assert forall i :: 0 <= i < |added| ==> added[i] in batch;
    if added != [] && |p.entries| + |added| <= capacity {
      ReplaceLongerOk(owner, st0, p, added, script, accepted, begun, half);
    }
  }
}
