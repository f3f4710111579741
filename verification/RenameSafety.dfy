/** Rename completion against concurrent writers of the same store. The two store calls of a completion
    are separate steps, any of which may fail or be cut off by a crash and be replayed any number of
    times; other clients put, delete and recreate keys in between. */
module RenameSafety {
  import opened Text
  import opened JsonLines
  import opened MemoryStore
  import opened Writeback
  import opened ReplayInvariant

  type Rename = r: Request | IsRename(r.operation) witness Request("", KvRenameComplete("", "", 0, "", "", ""))

  datatype Event =
    | ExternalPut(bucket: string, key: string, bytes: Bytes)
    | ExternalDelete(bucket: string, key: string)
    | ExternalObjectPut(bucket: string, name: string, bytes: Bytes)
    | ExternalObjectDelete(bucket: string, name: string)
    | OtherPut(put: Put, id: string)                      // another queued or direct write
    | RenameBegin(r: Rename)                              // the source is read and the completion made from it
    | RenamePut(r: Rename, effect: bool, returned: bool)  // `returned`: the call came back without error
    | RenameDelete(r: Rename, effect: bool)
    | Crash

  /** `begun` holds the completions made so far, which a crash does not undo; `ready` those whose put has
      returned in the execution that is under way. */
  datatype System = System(store: Store, begun: set<Rename>, ready: set<Rename>)

  function StoreAfter(st: Store, ev: Event): Store {
    match ev
    case ExternalPut(b, k, v) => PutKv(st, b, k, v)
    case ExternalDelete(b, k) => var after := KvDelete(st, b, k); if after.Some? then after.value else st
    case ExternalObjectPut(b, n, v) => PutObject(st, b, n, v)
    case ExternalObjectDelete(b, n) => var after := ObjectDelete(st, b, n); if after.Some? then after.value else st
    case OtherPut(put, id) => PutIdempotent(st, put, id)
    case RenameBegin(_) => st
    case RenamePut(r, effect, _) => if effect then PutIdempotent(st, PutOf(r.operation), r.key) else st
    case RenameDelete(r, effect) => if effect then DeleteIf(st, DeleteOf(r.operation)) else st
    case Crash => st
  }

  function Step(s: System, ev: Event): System {
    System(StoreAfter(s.store, ev),
           if ev.RenameBegin? then s.begun + {ev.r} else s.begun,
           match ev
           case RenamePut(r, _, true) => s.ready + {r}
           case RenameDelete(r, _) => s.ready - {r}
           case Crash => {}
           case _ => s.ready)
  }

  function Run(s: System, events: seq<Event>): System {
    if events == [] then s else Step(Run(s, events[..|events| - 1]), events[|events| - 1])
  }

  /** `execute_rename` found the source in the generation, and with the bytes, that it puts in the completion. */
  predicate Reads(st: Store, r: Rename) {
    match r.operation
    case KvRenameComplete(b, k, revision, _, _, bytes) => KvAt(st, (b, k)) == Some(KeyRevision(revision, bytes))
    case ObjectRenameComplete(b, n, sequence, nuid, _, _, bytes) =>
      ObjectAt(st, (b, n)) == Some(ObjectVersion(sequence, nuid, bytes))
  }

  /** A completion is made from what was read, a delete follows its own put, a put that returned took
      effect, and one key names one value. */
  predicate Allowed(owner: string -> Put, st0: Store, s: System, ev: Event) {
    match ev
    case RenameBegin(r) => Reads(s.store, r) && owner(r.key) == PutOf(r.operation) && r.key !in AppliedKeys(st0)
    case RenamePut(r, effect, returned) => (returned ==> effect) && r in s.begun
    case RenameDelete(r, _) => r in s.ready
    case OtherPut(put, id) => owner(id) == put && id !in AppliedKeys(st0)
    case _ => true
  }

  predicate AllowedRun(owner: string -> Put, st0: Store, s: System, events: seq<Event>) {
    forall n :: 0 <= n < |events| ==> Allowed(owner, st0, Run(s, events[..n]), events[n])
  }

  lemma AllowedFront(owner: string -> Put, st0: Store, s: System, events: seq<Event>)
    requires events != [] && AllowedRun(owner, st0, s, events)
    ensures var front, ev := events[..|events| - 1], events[|events| - 1];
            AllowedRun(owner, st0, s, front) && Allowed(owner, st0, Run(s, front), ev)
  {
    hide Allowed, Run;
    var front := events[..|events| - 1];
    forall i | 0 <= i < |front|
      ensures front[..i] == events[..i] && front[i] == events[i]
    {
    }
  }

  // ---- generations only move forward ----

  function KvAt(st: Store, at: Location): Option<KeyRevision> {
    if at in st.kv then Some(st.kv[at]) else None
  }

  function ObjectAt(st: Store, at: Location): Option<ObjectVersion> {
    if at in st.objects then Some(st.objects[at]) else None
  }

  /** The i-th value of a key has revision i + 1, and a present key holds its last value. */
  predicate Numbered(history: seq<KeyRevision>, current: Option<KeyRevision>) {
    && (forall i :: 0 <= i < |history| ==> history[i].revision == i + 1)
    && (current.Some? ==> history != [] && current.value == history[|history| - 1])
  }

  /** A present object is of the latest generation. */
  predicate Latest(generation: nat, current: Option<ObjectVersion>) {
    current.Some? ==> current.value.sequence == generation && current.value.nuid == Nuid(generation)
  }

  ghost predicate Generations(st: Store) {
    forall at :: Numbered(History(st, at), KvAt(st, at)) && Latest(Generation(st, at), ObjectAt(st, at))
  }

  /** What every store call does to the generations. */
  ghost predicate Forward(st: Store, st': Store) {
    && Generations(st')
    && (forall at :: History(st, at) <= History(st', at) && Generation(st, at) <= Generation(st', at))
    && forall at :: KeepsObject(st, st', at)
  }

  /** Within one generation an object can only disappear. */
  predicate KeepsObject(st: Store, st': Store, at: Location) {
    Generation(st, at) == Generation(st', at) ==> ObjectAt(st', at) == None || ObjectAt(st', at) == ObjectAt(st, at)
  }

  lemma PutKvForward(st: Store, bucket: string, key: string, bytes: Bytes)
    requires Generations(st)
    ensures Forward(st, PutKv(st, bucket, key, bytes))
  {
    var st' := PutKv(st, bucket, key, bytes);
    forall at
      ensures Numbered(History(st', at), KvAt(st', at)) && Latest(Generation(st', at), ObjectAt(st', at))
      ensures History(st, at) <= History(st', at) && Generation(st, at) <= Generation(st', at)
    {
      assert Numbered(History(st, at), KvAt(st, at));
      assert Generation(st', at) == Generation(st, at) && ObjectAt(st', at) == ObjectAt(st, at);
      if at == (bucket, key) {
        assert History(st', at) == History(st, at) + [KeyRevision(NextRevision(st, at), bytes)];
        assert KvAt(st', at) == Some(KeyRevision(NextRevision(st, at), bytes));
      } else {
        assert History(st', at) == History(st, at) && KvAt(st', at) == KvAt(st, at);
      }
    }
  }

  lemma PutObjectForward(st: Store, bucket: string, name: string, bytes: Bytes)
    requires Generations(st)
    ensures Forward(st, PutObject(st, bucket, name, bytes))
  {
    var st' := PutObject(st, bucket, name, bytes);
    forall at
      ensures Numbered(History(st', at), KvAt(st', at)) && Latest(Generation(st', at), ObjectAt(st', at))
      ensures History(st, at) <= History(st', at) && Generation(st, at) <= Generation(st', at)
    {
      assert Numbered(History(st, at), KvAt(st, at)) && Latest(Generation(st, at), ObjectAt(st, at));
      assert History(st', at) == History(st, at) && KvAt(st', at) == KvAt(st, at);
      if at != (bucket, name) {
        assert Generation(st', at) == Generation(st, at) && ObjectAt(st', at) == ObjectAt(st, at);
      }
    }
  }

  /** A call that at most removes values. */
  lemma SameForward(st: Store, st': Store)
    requires Generations(st) && st'.kvHistory == st.kvHistory && st'.objectGenerations == st.objectGenerations
    requires forall at :: KvAt(st', at) == KvAt(st, at) || KvAt(st', at) == None
    requires forall at :: ObjectAt(st', at) == ObjectAt(st, at) || ObjectAt(st', at) == None
    ensures Forward(st, st')
  {
    forall at
      ensures Numbered(History(st', at), KvAt(st', at)) && Latest(Generation(st', at), ObjectAt(st', at))
      ensures History(st, at) <= History(st', at) && Generation(st, at) <= Generation(st', at)
    {
      assert Numbered(History(st, at), KvAt(st, at)) && Latest(Generation(st, at), ObjectAt(st, at));
    }
  }

  lemma FactsForward(st: Store, st': Store, facts: map<AppliedFact, nat>, objects: set<AppliedFact>)
    requires Forward(st, st')
    ensures Forward(st, st'.(kvApplied := facts)) && Forward(st, st'.(objectApplied := objects))
  {
    SameForward(st', st'.(kvApplied := facts));
    SameForward(st', st'.(objectApplied := objects));
    hide History, Generations;
    assert forall at :: History(st, at) <= History(st', at) && KeepsObject(st, st', at);
    forall at
      ensures KeepsObject(st, st'.(kvApplied := facts), at) && KeepsObject(st, st'.(objectApplied := objects), at)
    {
      assert KeepsObject(st, st', at);
    }
  }

  lemma PutForward(st: Store, put: Put, id: string)
    requires Generations(st)
    ensures Forward(st, PutIdempotent(st, put, id))
  {
    SameForward(st, st);
    match put
    case PutKey(b, k, v) =>
      PutKvForward(st, b, k, v);
      hide Forward, PutKv;
      FactsForward(st, PutKv(st, b, k, v), st.kvApplied[(b, k, id) := NextRevision(st, (b, k))], {});
    case PutName(b, n, v) =>
      PutObjectForward(st, b, n, v);
      hide Forward, PutObject;
      FactsForward(st, PutObject(st, b, n, v), map[], st.objectApplied + {(b, n, id)});
    case PutLines(s, subject, v) =>
      hide Forward, Lines, AppendLines;
      SameForward(st, PutIdempotent(st, put, id));
  }

  lemma DeleteForward(st: Store, del: Delete)
    requires Generations(st)
    ensures Forward(st, DeleteIf(st, del))
  {
    hide Forward, Generations;
    var st' := DeleteIf(st, del);
    assert st'.kvHistory == st.kvHistory && st'.objectGenerations == st.objectGenerations;
    SameForward(st, st');
  }

  lemma StepForward(st: Store, ev: Event)
    requires Generations(st)
    ensures Forward(st, StoreAfter(st, ev))
  {
    hide Forward, Generations, PutIdempotent, DeleteIf, PutKv, PutObject, PutOf, DeleteOf;
    SameForward(st, st);
    match ev
    case ExternalPut(b, k, v) => PutKvForward(st, b, k, v);
    case ExternalDelete(b, k) => SameForward(st, StoreAfter(st, ev));
    case ExternalObjectPut(b, n, v) => PutObjectForward(st, b, n, v);
    case ExternalObjectDelete(b, n) => SameForward(st, StoreAfter(st, ev));
    case OtherPut(put, id) => PutForward(st, put, id);
    case RenameBegin(_) =>
    case RenamePut(r, _, _) => PutForward(st, PutOf(r.operation), r.key);
    case RenameDelete(r, _) => DeleteForward(st, DeleteOf(r.operation));
    case Crash =>
  }

  lemma {:induction false} RunMovesForward(s: System, events: seq<Event>, n: nat, at: Location)
    requires Generations(s.store) && n <= |events|
    ensures Generations(Run(s, events).store)
    ensures History(Run(s, events[..n]).store, at) <= History(Run(s, events).store, at)
    ensures Generation(Run(s, events[..n]).store, at) <= Generation(Run(s, events).store, at)
    ensures KeepsObject(Run(s, events[..n]).store, Run(s, events).store, at)
  {
    if events != [] {
      var front, last := events[..|events| - 1], events[|events| - 1];
      var m := if n < |events| then n else n - 1;
      assert front[..m] == events[..m];
      RunMovesForward(s, front, m, at);
      hide StoreAfter, Generations, History, Generation, ObjectAt;
      StepForward(Run(s, front).store, last);
      assert KeepsObject(Run(s, front).store, Run(s, events).store, at);
      assert n == |events| ==> events[..n] == events;
    }
  }

  /** A revision names one value for ever: a key found twice at the same revision holds the same bytes. */
  lemma RevisionNamesOneValue(s: System, events: seq<Event>, n: nat, at: Location)
    requires Generations(s.store) && n <= |events|
    requires at in Run(s, events[..n]).store.kv && at in Run(s, events).store.kv
    requires Run(s, events[..n]).store.kv[at].revision == Run(s, events).store.kv[at].revision
    ensures Run(s, events[..n]).store.kv[at] == Run(s, events).store.kv[at]
  {
    hide Run, Generations;
    RunMovesForward(s, events, n, at);
    RunMovesForward(s, events[..n], n, at);
    var a, b := Run(s, events[..n]).store, Run(s, events).store;
    assert Numbered(History(a, at), KvAt(a, at)) && Numbered(History(b, at), KvAt(b, at)) by {
      GenerationsAt(a, at);
      GenerationsAt(b, at);
    }
  }

  /** A generation names one object for ever, likewise. */
  lemma GenerationNamesOneObject(s: System, events: seq<Event>, n: nat, at: Location)
    requires Generations(s.store) && n <= |events|
    requires at in Run(s, events[..n]).store.objects && at in Run(s, events).store.objects
    requires Run(s, events[..n]).store.objects[at].sequence == Run(s, events).store.objects[at].sequence
    ensures Run(s, events[..n]).store.objects[at] == Run(s, events).store.objects[at]
  {
    hide Run, Generations;
    RunMovesForward(s, events, n, at);
    RunMovesForward(s, events[..n], n, at);
    GenerationsAt(Run(s, events[..n]).store, at);
    GenerationsAt(Run(s, events).store, at);
  }

  lemma GenerationsAt(st: Store, at: Location)
    requires Generations(st)
    ensures Numbered(History(st, at), KvAt(st, at)) && Latest(Generation(st, at), ObjectAt(st, at))
  {
  }

  // ---- a newer source survives ----

  /** The source has moved past the generation the completion names. */
  predicate Newer(st: Store, r: Rename) {
    match DeleteOf(r.operation)
    case Keep => false
    case DeleteKey(b, k, expected) => |History(st, (b, k))| > expected
    case DeleteName(b, n, expected, _) => Generation(st, (b, n)) > expected
  }

  /** Once a newer source was written, no number of replays of the completion removes anything, whatever
      other clients delete and recreate in the meantime. */
  lemma NewerSourceSurvives(s: System, events: seq<Event>, r: Rename)
    requires Generations(s.store) && Newer(s.store, r)
    ensures Newer(Run(s, events).store, r)
    ensures DeleteIf(Run(s, events).store, DeleteOf(r.operation)) == Run(s, events).store
  {
    assert events[..0] == [];
    match DeleteOf(r.operation)
    case Keep =>
    case DeleteKey(b, k, _) => RunMovesForward(s, events, 0, (b, k));
    case DeleteName(b, n, _, _) => RunMovesForward(s, events, 0, (b, n));
  }

  // ---- nothing is deleted before it was copied ----

  /** The applied fact of a key points at the value that key writes. */
  predicate FactsPoint(owner: string -> Put, st0: Store, st: Store) {
    forall f :: f in st.kvApplied && f.2 !in AppliedKeys(st0) ==>
      && st.kvApplied[f] > 0 && owner(f.2).PutKey?
      && |History(st, (f.0, f.1))| >= st.kvApplied[f]
      && History(st, (f.0, f.1))[st.kvApplied[f] - 1].bytes == owner(f.2).bytes
  }

  lemma PutKeepsFacts(owner: string -> Put, st0: Store, st: Store, put: Put, id: string)
    requires Generations(st) && FactsPoint(owner, st0, st) && owner(id) == put
    ensures FactsPoint(owner, st0, PutIdempotent(st, put, id))
  {
    hide AppliedKeys, Generations, FactsPoint;
    var st' := PutIdempotent(st, put, id);
    if put.PutKey? && !PutApplied(st, put, id) {
      NewFact(st, put, id);
      PutForward(st, put, id);
      hide PutIdempotent, PutApplied;
      MoreFacts(owner, st0, st, st', (put.bucket, put.key, id));
    } else {
      assert st'.kvApplied == st.kvApplied && st'.kvHistory == st.kvHistory;
      hide PutIdempotent, PutApplied;
      SameFacts(owner, st0, st, st');
    }
  }

  lemma SameFacts(owner: string -> Put, st0: Store, st: Store, st': Store)
    requires FactsPoint(owner, st0, st) && st'.kvApplied == st.kvApplied && st'.kvHistory == st.kvHistory
    ensures FactsPoint(owner, st0, st')
  {
    assert forall at :: History(st', at) == History(st, at);
    hide AppliedKeys, History;
  }

  lemma FactAt(owner: string -> Put, st0: Store, st: Store, f: AppliedFact)
    requires FactsPoint(owner, st0, st) && f in st.kvApplied && f.2 !in AppliedKeys(st0)
    ensures owner(f.2).PutKey? && 0 < st.kvApplied[f] <= |History(st, (f.0, f.1))|
    ensures History(st, (f.0, f.1))[st.kvApplied[f] - 1].bytes == owner(f.2).bytes
  {
    hide AppliedKeys, History;
  }

  lemma MoreFacts(owner: string -> Put, st0: Store, st: Store, st': Store, f: AppliedFact)
    requires FactsPoint(owner, st0, st) && Forward(st, st') && owner(f.2).PutKey?
    requires st'.kvApplied == st.kvApplied[f := |History(st, (f.0, f.1))| + 1]
    requires |History(st', (f.0, f.1))| == |History(st, (f.0, f.1))| + 1
    requires History(st', (f.0, f.1))[|History(st, (f.0, f.1))|].bytes == owner(f.2).bytes
    ensures FactsPoint(owner, st0, st')
  {
    hide AppliedKeys, History, Generations, KeepsObject;
    forall g | g in st'.kvApplied && g.2 !in AppliedKeys(st0)
      ensures st'.kvApplied[g] > 0 && owner(g.2).PutKey?
      ensures |History(st', (g.0, g.1))| >= st'.kvApplied[g]
      ensures History(st', (g.0, g.1))[st'.kvApplied[g] - 1].bytes == owner(g.2).bytes
    {
      if g != f {
        assert g in st.kvApplied && st'.kvApplied[g] == st.kvApplied[g];
        FactAt(owner, st0, st, g);
        assert History(st, (g.0, g.1)) <= History(st', (g.0, g.1));
        SameEntry(History(st, (g.0, g.1)), History(st', (g.0, g.1)), st.kvApplied[g]);
      }
    }
  }

  lemma SameEntry(before: seq<KeyRevision>, after: seq<KeyRevision>, n: nat)
    requires before <= after && 0 < n <= |before|
    ensures n <= |after| && after[n - 1] == before[n - 1]
  {
  }

  lemma NewFact(st: Store, put: Put, id: string)
    requires Generations(st) && put.PutKey? && !PutApplied(st, put, id)
    ensures var st' := PutIdempotent(st, put, id); var at := (put.bucket, put.key); var n := |History(st, at)|;
            && st'.kvApplied == st.kvApplied[(put.bucket, put.key, id) := n + 1]
            && |History(st', at)| == n + 1 && History(st', at)[n].bytes == put.bytes
  {
    assert Numbered(History(st, (put.bucket, put.key)), KvAt(st, (put.bucket, put.key)));
    hide Generations;
  }

  lemma LongerFacts(owner: string -> Put, st0: Store, st: Store, bucket: string, key: string, bytes: Bytes)
    requires FactsPoint(owner, st0, st)
    ensures FactsPoint(owner, st0, PutKv(st, bucket, key, bytes))
  {
    hide AppliedKeys;
    var st' := PutKv(st, bucket, key, bytes);
    assert forall at :: History(st, at) <= History(st', at);
    hide History, PutKv;
  }

  lemma DeleteKeepsFacts(owner: string -> Put, st0: Store, st: Store, del: Delete)
    requires FactsPoint(owner, st0, st)
    ensures FactsPoint(owner, st0, DeleteIf(st, del))
  {
    hide FactsPoint;
    SameFacts(owner, st0, st, DeleteIf(st, del));
  }

  lemma StepKeepsFacts(owner: string -> Put, st0: Store, s: System, ev: Event)
    requires Generations(s.store) && FactsPoint(owner, st0, s.store)
    requires CompletionsOk(owner, st0, s) && Allowed(owner, st0, s, ev)
    ensures FactsPoint(owner, st0, StoreAfter(s.store, ev))
  {
    hide PutIdempotent, AppliedKeys, FactsPoint, Generations, PutOf, Reads;
    match ev
    case OtherPut(put, id) => PutKeepsFacts(owner, st0, s.store, put, id);
    case RenamePut(r, _, _) => PutKeepsFacts(owner, st0, s.store, PutOf(r.operation), r.key);
    case ExternalPut(b, k, v) => LongerFacts(owner, st0, s.store, b, k, v);
    case ExternalDelete(_, _) => SameFacts(owner, st0, s.store, StoreAfter(s.store, ev));
    case ExternalObjectPut(_, _, _) => SameFacts(owner, st0, s.store, StoreAfter(s.store, ev));
    case ExternalObjectDelete(_, _) => SameFacts(owner, st0, s.store, StoreAfter(s.store, ev));
    case RenameBegin(_) =>
    case RenameDelete(r, _) => DeleteKeepsFacts(owner, st0, s.store, DeleteOf(r.operation));
    case Crash =>
  }

  lemma AppliedStays(st: Store, ev: Event, put: Put, id: string)
    requires PutApplied(st, put, id)
    ensures PutApplied(StoreAfter(st, ev), put, id)
  {
    hide PutIdempotent;
    match ev
    case OtherPut(other, otherId) => PutKeepsApplied(st, other, otherId, put, id);
    case RenamePut(r, _, _) => PutKeepsApplied(st, PutOf(r.operation), r.key, put, id);
    case _ =>
  }

  lemma PutKeepsApplied(st: Store, other: Put, otherId: string, put: Put, id: string)
    requires PutApplied(st, put, id)
    ensures PutApplied(PutIdempotent(st, other, otherId), put, id)
  {
    hide Lines, AppendLines, Sequences;
  }

  /** What is known of a completion that was made, and of one whose put has returned. */
  ghost predicate CompletionsOk(owner: string -> Put, st0: Store, s: System) {
    && (forall r :: r in s.begun ==> owner(r.key) == PutOf(r.operation) && r.key !in AppliedKeys(st0))
    && (forall r :: r in s.ready ==> r in s.begun && PutApplied(s.store, PutOf(r.operation), r.key))
  }

  lemma StepKeepsCompletions(owner: string -> Put, st0: Store, s: System, ev: Event)
    requires CompletionsOk(owner, st0, s) && Allowed(owner, st0, s, ev)
    ensures CompletionsOk(owner, st0, Step(s, ev))
  {
    hide AppliedKeys, PutIdempotent, DeleteIf, PutOf, DeleteOf, PutApplied, Reads, PutKv, PutObject, KvDelete;
    hide ObjectDelete;
    forall r | r in Step(s, ev).ready
      ensures PutApplied(Step(s, ev).store, PutOf(r.operation), r.key)
    {
      if r in s.ready {
        AppliedStays(s.store, ev, PutOf(r.operation), r.key);
      } else {
        PutIsApplied(s.store, PutOf(r.operation), r.key);
      }
    }
    hide StoreAfter;
  }

  lemma PutIsApplied(st: Store, put: Put, id: string)
    ensures PutApplied(PutIdempotent(st, put, id), put, id)
  {
  }

  lemma {:induction false} RunInvariant(owner: string -> Put, st0: Store, events: seq<Event>)
    requires Generations(st0)
    requires AllowedRun(owner, st0, Fresh(st0), events)
    ensures var s := Run(Fresh(st0), events);
            Generations(s.store) && FactsPoint(owner, st0, s.store) && CompletionsOk(owner, st0, s)
  {
    if events == [] {
      assert forall f :: f in st0.kvApplied ==> f.2 in FactKeys(st0.kvApplied.Keys);
    } else {
      hide StoreAfter, Generations, FactsPoint, AppliedKeys, Allowed, PutApplied, CompletionsOk;
      hide AllowedRun;
      var n := |events| - 1;
      var front := events[..n];
      AllowedFront(owner, st0, Fresh(st0), events);
      RunInvariant(owner, st0, front);
      var s := Run(Fresh(st0), front);
      StepForward(s.store, events[n]);
      StepKeepsFacts(owner, st0, s, events[n]);
      StepKeepsCompletions(owner, st0, s, events[n]);
    }
  }

  function Fresh(st: Store): System {
    System(st, {}, {})
  }

  /** Every completion was made from a source that was there. */
  lemma {:induction false} CompletionWasRead(owner: string -> Put, st0: Store, events: seq<Event>,
                                             r: Rename) returns (n: nat)
    requires AllowedRun(owner, st0, Fresh(st0), events) && r in Run(Fresh(st0), events).begun
    ensures n <= |events| && Reads(Run(Fresh(st0), events[..n]).store, r)
  {
    hide AllowedRun;
    var last := |events| - 1;
    var front := events[..last];
    AllowedFront(owner, st0, Fresh(st0), events);
    if r in Run(Fresh(st0), front).begun {
      n := CompletionWasRead(owner, st0, front, r);
      assert front[..n] == events[..n];
    } else {
      n := last;
      hide StoreAfter;
      assert events[last] == RenameBegin(r);
    }
  }

  /** The place a write goes to holds what it writes. */
  predicate Shows(st: Store, put: Put) {
    match put
    case PutKey(b, k, bytes) => (b, k) in st.kv && st.kv[(b, k)].bytes == bytes
    case PutName(b, n, bytes) => (b, n) in st.objects && st.objects[(b, n)].bytes == bytes
    case PutLines(s, subject, bytes) => EndsInLines(Messages(st, s), subject, Lines(bytes))
  }

  /** The last messages are the lines, in order, on the subject. */
  predicate EndsInLines(messages: seq<Message>, subject: string, lines: seq<string>) {
    && |lines| <= |messages|
    && var last := messages[|messages| - |lines|..];
       forall i :: 0 <= i < |lines| ==> last[i].subject == subject && last[i].payload == lines[i]
  }

  lemma AppendEndsInLines(messages: seq<Message>, stream: string, subject: string, lines: seq<string>)
    ensures EndsInLines(AppendLines(messages, stream, subject, lines), subject, lines)
  {
    var last := AppendLines(messages, stream, subject, lines)[|messages|..];
    forall i | 0 <= i < |lines|
      ensures last[i].subject == subject && last[i].payload == lines[i]
    {
      AppendedMessage(messages, stream, subject, lines, i);
    }
  }

  /** A write recorded in a run, which was not recorded before it, was visible at its place at some point. */
  lemma {:induction false} AppliedWasShown(owner: string -> Put, st0: Store, events: seq<Event>, put: Put,
                                           id: string) returns (n: nat)
    requires Generations(st0) && AllowedRun(owner, st0, Fresh(st0), events)
    requires owner(id) == put && id !in AppliedKeys(st0) && PutApplied(Run(Fresh(st0), events).store, put, id)
    ensures n <= |events| && Shows(Run(Fresh(st0), events[..n]).store, put)
  {
    if events == [] {
      PutAppliedHasKey(st0, put, id);
      assert false;
    } else {
      hide AllowedRun, AppliedKeys, Generations, FactsPoint, PutApplied, StoreAfter, Shows;
      var last := |events| - 1;
      var front := events[..last];
      AllowedFront(owner, st0, Fresh(st0), events);
      var s := Run(Fresh(st0), front);
      if PutApplied(s.store, put, id) {
        n := AppliedWasShown(owner, st0, front, put, id);
        assert front[..n] == events[..n];
      } else {
        n := |events|;
        assert events[..n] == events;
        RunInvariant(owner, st0, front);
        NewlyApplied(owner, st0, s, events[last], put, id);
      }
    }
  }

  lemma NewlyApplied(owner: string -> Put, st0: Store, s: System, ev: Event, put: Put, id: string)
    requires CompletionsOk(owner, st0, s) && Allowed(owner, st0, s, ev) && owner(id) == put
    requires !PutApplied(s.store, put, id) && PutApplied(StoreAfter(s.store, ev), put, id)
    ensures Shows(StoreAfter(s.store, ev), put)
  {
    hide AppliedKeys, Reads, PutIdempotent, PutOf, Shows, DeleteIf, DeleteOf;
    match ev
    case OtherPut(other, otherId) => PutShows(owner, s.store, other, otherId, put, id);
    case RenamePut(r, _, _) => PutShows(owner, s.store, PutOf(r.operation), r.key, put, id);
    case RenameDelete(r, _) => DeleteRecordsNothing(s.store, DeleteOf(r.operation), put, id);
    case _ => assert false;
  }

  lemma DeleteRecordsNothing(st: Store, del: Delete, put: Put, id: string)
    ensures PutApplied(DeleteIf(st, del), put, id) == PutApplied(st, put, id)
  {
  }

  lemma PutShows(owner: string -> Put, st: Store, other: Put, otherId: string, put: Put, id: string)
    requires owner(otherId) == other && owner(id) == put
    requires !PutApplied(st, put, id) && PutApplied(PutIdempotent(st, other, otherId), put, id)
    ensures Shows(PutIdempotent(st, other, otherId), put)
  {
    hide Lines, AppendLines, Sequences, EndsInLines;
    if put.PutLines? {
      AppendEndsInLines(Messages(st, put.stream), put.stream, put.subject, Lines(put.bytes));
    }
  }

  /** In every run, a completion's delete removes nothing, or exactly the value the rename read, and then
      that value was copied before: it was the target's value at some point, and a key's history still
      holds it. */
  lemma RenameNeverLosesData(owner: string -> Put, st0: Store, events: seq<Event>, r: Rename)
    requires Generations(st0) && AllowedRun(owner, st0, Fresh(st0), events)
    requires r in Run(Fresh(st0), events).ready
    ensures var st := Run(Fresh(st0), events).store;
            var st' := StoreAfter(st, RenameDelete(r, true));
            && (exists n :: 0 <= n <= |events| && Shows(Run(Fresh(st0), events[..n]).store, PutOf(r.operation)))
            && (r.operation.KvRenameComplete? ==>
                  && (exists i :: 0 <= i < |History(st, (r.operation.toBucket, r.operation.toKey))| &&
                        History(st, (r.operation.toBucket, r.operation.toKey))[i].bytes == r.operation.bytes)
                  && var from := (r.operation.fromBucket, r.operation.fromKey);
                     st' == st || (from in st.kv && st.kv[from].bytes == r.operation.bytes &&
                       st' == st.(kv := st.kv - {from})))
            && (r.operation.ObjectRenameComplete? ==>
                  var from := (r.operation.fromBucket, r.operation.fromName);
                  st' == st ||
                  (from in st.objects && st.objects[from].bytes == r.operation.bytes &&
                    st' == st.(objects := st.objects - {from})))
  {
    hide FactsPoint, AppliedKeys, Run, Allowed, PutApplied, StoreAfter, Generations, History, AllowedRun;
    RunInvariant(owner, st0, events);
    var st := Run(Fresh(st0), events).store;
    var n := AppliedWasShown(owner, st0, events, PutOf(r.operation), r.key);
    var m := CompletionWasRead(owner, st0, events, r);
    DeleteTakesTheNamed(st, r);
    if r.operation.KvRenameComplete? {
      CopyIsWritten(owner, st0, st, r);
      var from := (r.operation.fromBucket, r.operation.fromKey);
      if from in st.kv && st.kv[from].revision == r.operation.expectedFromRevision {
        RevisionNamesOneValue(Fresh(st0), events, m, from);
      }
    } else {
      var from := (r.operation.fromBucket, r.operation.fromName);
      if from in st.objects && st.objects[from].sequence == r.operation.expectedFromSequence {
        GenerationNamesOneObject(Fresh(st0), events, m, from);
      }
    }
  }

  /** The guarded delete removes nothing, or exactly the generation the completion names. */
  lemma DeleteTakesTheNamed(st: Store, r: Rename)
    ensures var st' := StoreAfter(st, RenameDelete(r, true));
            && (r.operation.KvRenameComplete? ==>
                  var from := (r.operation.fromBucket, r.operation.fromKey);
                  st' == st || (st' == st.(kv := st.kv - {from}) && from in st.kv
                                && st.kv[from].revision == r.operation.expectedFromRevision))
            && (r.operation.ObjectRenameComplete? ==>
                  var from := (r.operation.fromBucket, r.operation.fromName);
                  st' == st || (st' == st.(objects := st.objects - {from}) && from in st.objects
                                && st.objects[from].sequence == r.operation.expectedFromSequence))
  {
  }

  lemma CopyIsWritten(owner: string -> Put, st0: Store, st: Store, r: Rename)
    requires FactsPoint(owner, st0, st) && r.operation.KvRenameComplete?
    requires PutApplied(st, PutOf(r.operation), r.key) && owner(r.key) == PutOf(r.operation) &&
             r.key !in AppliedKeys(st0)
    ensures var to := (r.operation.toBucket, r.operation.toKey);
            exists i :: 0 <= i < |History(st, to)| && History(st, to)[i].bytes == r.operation.bytes
  {
    var f := (r.operation.toBucket, r.operation.toKey, r.key);
    assert f in st.kvApplied;
    assert History(st, (f.0, f.1))[st.kvApplied[f] - 1].bytes == r.operation.bytes;
  }

  // ---- the executor makes such runs ----

  /** The store calls of one `execute`, as events. */
  function ExecuteEvents(e: QueueEntry, script: seq<Outcome>): seq<Event> {
    var r, first, second := RequestOf(e), Head(script), Head(Tail(script));
    if !IsRename(e.operation) then
      if Effective(first) then [OtherPut(PutOf(r.operation), r.key)] else []
    else
      [RenamePut(r, Effective(first), first.Fine?)] + if first.Fine? then [RenameDelete(r, Effective(second))] else []
  }

  lemma SameParts(e: QueueEntry)
    ensures PutOf(RequestOf(e).operation) == PutOf(e.operation) &&
            DeleteOf(RequestOf(e).operation) == DeleteOf(e.operation)
    ensures IsRename(RequestOf(e).operation) == IsRename(e.operation)
  {
  }

  /** What a queue entry needs to be executed: an own key, and for a rename that it was made by one. */
  ghost predicate Executes(owner: string -> Put, st0: Store, s: System, e: QueueEntry) {
    && owner(e.key) == PutOf(e.operation) && e.key !in AppliedKeys(st0)
    && (IsRename(e.operation) ==> RequestOf(e) in s.begun)
  }

  lemma RunOne(s: System, ev: Event)
    ensures Run(s, [ev]) == Step(s, ev) && Run(s, []) == s
  {
    assert Run(s, [ev][..0]) == s;
  }

  lemma {:induction false} RunInTwo(s: System, first: seq<Event>, second: seq<Event>)
    ensures Run(s, first + second) == Run(Run(s, first), second)
  {
    if second == [] {
      assert first + second == first;
    } else {
      var n := |second| - 1;
      RunInTwo(s, first, second[..n]);
      assert (first + second)[..|first + second| - 1] == first + second[..n];
    }
  }

  lemma AllowedOneMore(owner: string -> Put, st0: Store, s: System, events: seq<Event>, ev: Event)
    requires AllowedRun(owner, st0, s, events) && Allowed(owner, st0, Run(s, events), ev)
    ensures AllowedRun(owner, st0, s, events + [ev])
  {
    hide Allowed, Run;
    var more := events + [ev];
    forall n | 0 <= n < |more|
      ensures Allowed(owner, st0, Run(s, more[..n]), more[n])
    {
      if n < |events| {
        assert more[..n] == events[..n];
      } else {
        assert more[..n] == events;
      }
    }
  }

  lemma {:induction false} AllowedInTwo(owner: string -> Put, st0: Store, s: System, first: seq<Event>,
                                        second: seq<Event>)
    requires AllowedRun(owner, st0, s, first) && AllowedRun(owner, st0, Run(s, first), second)
    ensures AllowedRun(owner, st0, s, first + second)
  {
    hide Allowed, Run;
    if second == [] {
      assert first + second == first;
    } else {
      AllowedFront(owner, st0, Run(s, first), second);
      hide AllowedRun;
      var n := |second| - 1;
      AllowedInTwo(owner, st0, s, first, second[..n]);
      RunInTwo(s, first, second[..n]);
      AllowedOneMore(owner, st0, s, first + second[..n], second[n]);
      assert first + second == first + second[..n] + [second[n]];
    }
  }

  lemma AllowedOne(owner: string -> Put, st0: Store, s: System, ev: Event)
    requires Allowed(owner, st0, s, ev)
    ensures AllowedRun(owner, st0, s, [ev])
  {
    assert [ev][..0] == [];
    RunOne(s, ev);
  }

  /** Every execution, whatever its calls do, is an allowed run of the events above with the same effect on
      the store: the put comes before the delete because the executor makes it so. */
  lemma ExecuteIsAllowed(owner: string -> Put, st0: Store, s: System, accepts: Bytes -> bool, p: Process, e: QueueEntry,
                         script: seq<Outcome>)
    requires s.store == p.store && Executes(owner, st0, s, e) && Executable(accepts, e.operation)
    ensures AllowedRun(owner, st0, s, ExecuteEvents(e, script))
    ensures Run(s, ExecuteEvents(e, script)).store == Execute(accepts, p, e, script).p.store
    ensures Run(s, ExecuteEvents(e, script)).begun == s.begun
  {
    SameParts(e);
    hide AppliedKeys, PutIdempotent, DeleteIf, PutOf, DeleteOf, Run;
    var r, first := RequestOf(e), Head(script);
    if !IsRename(e.operation) {
      var put := OtherPut(PutOf(r.operation), r.key);
      AllowedOne(owner, st0, s, put);
      RunOne(s, put);
    } else {
      var put, del := RenamePut(r, Effective(first), first.Fine?), RenameDelete(r, Effective(Head(Tail(script))));
      AllowedOne(owner, st0, s, put);
      RunOne(s, put);
      var s1 := Step(s, put);
      if first.Fine? {
        AllowedOne(owner, st0, s1, del);
        RunOne(s1, del);
        AllowedInTwo(owner, st0, s, [put], [del]);
        RunInTwo(s, [put], [del]);
      } else {
        assert [put] + [] == [put];
      }
    }
  }

  function TurnEvents(accepts: Bytes -> bool, p: Process, script: seq<Outcome>): seq<Event>
    requires p.entries != []
  {
    var e, check := p.entries[0], ReadCall(p, script);
    if e.done || !Executable(accepts, e.operation) || !check.status.Done? ||
      IsApplied(p.store, e.key, e.operation) then []
    else
      var attempt := Replace(p, p.entries[0 := Attempted(e)], check.script);
      if attempt.status.Done? then ExecuteEvents(Attempted(e), attempt.script) else []
  }

  lemma TurnIsAllowed(owner: string -> Put, st0: Store, s: System, accepts: Bytes -> bool, p: Process,
                      script: seq<Outcome>)
    requires s.store == p.store && p.entries != [] && Executes(owner, st0, s, p.entries[0])
    ensures AllowedRun(owner, st0, s, TurnEvents(accepts, p, script))
    ensures Run(s, TurnEvents(accepts, p, script)).store == ReplayTurn(accepts, p, script).p.store
    ensures Run(s, TurnEvents(accepts, p, script)).begun == s.begun
  {
    hide AppliedKeys, IsApplied, Execute, ExecuteEvents, Allowed, Run, Replace, PutOf, AfterFailedExecute;
    var e, check := p.entries[0], ReadCall(p, script);
    RunOne(s, Crash);
    var attempt := Replace(p, p.entries[0 := Attempted(e)], check.script);
    if !(e.done || !Executable(accepts, e.operation) || !check.status.Done? ||
      IsApplied(p.store, e.key, e.operation)) && attempt.status.Done? {
      ExecuteIsAllowed(owner, st0, s, accepts, attempt.p, Attempted(e), attempt.script);
    }
  }

  function ReplayEvents(accepts: Bytes -> bool, p: Process, script: seq<Outcome>): seq<Event>
    decreases |p.entries|
  {
    if p.entries == [] then []
    else
      var turn := ReplayTurn(accepts, p, script);
      TurnEvents(accepts, p, script) + if turn.status.Done? then ReplayEvents(accepts, turn.p, turn.script) else []
  }

  /** A whole replay, with every failure and crash point in it, is such a run too. */
  lemma {:induction false} ReplayIsAllowed(owner: string -> Put, st0: Store, s: System, accepts: Bytes -> bool,
                                           p: Process, script: seq<Outcome>)
    requires s.store == p.store && forall e :: e in p.entries ==> Executes(owner, st0, s, e)
    ensures AllowedRun(owner, st0, s, ReplayEvents(accepts, p, script))
    ensures Run(s, ReplayEvents(accepts, p, script)).store == Replay(accepts, p, script).p.store
    decreases |p.entries|
  {
    hide AppliedKeys, ReplayTurn, TurnEvents, Allowed, PutOf;
    if p.entries != [] {
      var first, turn := TurnEvents(accepts, p, script), ReplayTurn(accepts, p, script);
      TurnIsAllowed(owner, st0, s, accepts, p, script);
      var s1 := Run(s, first);
      if turn.status.Done? {
        assert forall e :: e in turn.p.entries ==> e in p.entries;
        ReplayIsAllowed(owner, st0, s1, accepts, turn.p, turn.script);
        var rest := ReplayEvents(accepts, turn.p, turn.script);
        AllowedInTwo(owner, st0, s, first, rest);
        RunInTwo(s, first, rest);
      } else {
        assert first + [] == first;
      }
    }
  }
}
