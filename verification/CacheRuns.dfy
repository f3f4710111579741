/** Runs of a mount over its byte cache (eventfs-fuse/src/fs/runtime.rs and mount_projection.rs): reads
    fill it, local mutations and replays invalidate it. The result is that a cached file is never stale. */
module CacheRuns {
  import opened Text
  import opened JsonLines
  import opened MemoryStore
  import opened Writeback
  import opened Paths
  import opened Aliases
  import opened Invalidation

  // ---- what the store shows at a path ----

  /** `append_json_line`. */
  function JsonLine(payload: Bytes): Bytes {
    payload + if EndsWith(payload, "\n") then "" else "\n"
  }

  /** `collect_stream_subject_snapshot`. */
  function SubjectText(messages: seq<Message>, subject: string): Bytes {
    if messages == [] then ""
    else
      var last := messages[|messages| - 1];
      SubjectText(messages[..|messages| - 1], subject) + if last.subject == subject then JsonLine(last.payload) else ""
  }

  function FindRevision(history: seq<KeyRevision>, revision: nat): Option<Bytes> {
    if history == [] then None
    else if history[0].revision == revision then Some(history[0].bytes)
    else FindRevision(history[1..], revision)
  }

  function FindMessage(messages: seq<Message>, sequence: nat): Option<Message> {
    if messages == [] then None
    else if messages[0].sequence == sequence then Some(messages[0])
    else FindMessage(messages[1..], sequence)
  }

  function FactBytes(st: Store, f: StorageFact): Option<Bytes> {
    match f
    case KvFact(b, key) => if (b, key) in st.kv then Some(st.kv[(b, key)].bytes) else None
    case ObjectFact(b, name) => if (b, name) in st.objects then Some(st.objects[(b, name)].bytes) else None
    case StreamFact(s, subject) => Some(SubjectText(Messages(st, s), subject))
  }

  /** What a durable read returns and caches, for the paths whose reads are cached; `render` is the JSON
      form of one stream message. */
  function Shown(st: Store, render: Message -> Bytes, p: JetStreamPath): Option<Bytes> {
    match p
    case KvRevision(b, key, revision) => FindRevision(History(st, (b, key)), revision)
    case StreamMessage(s, sequence) =>
      var message := FindMessage(Messages(st, s), sequence);
      if message.Some? then Some(render(message.value)) else None
    case StreamSubject(_, _) => None  // subject files are read from the stream every time
    case _ => var f := FactOf(p); if f.Some? then FactBytes(st, f.value) else None
  }

  // ---- the mount ----

  datatype Mount = Mount(store: Store, cache: map<MountPath, Bytes>)

  datatype Event =
    | Read(path: MountPath, queued: bool)  // `queued`: the pending overlay answers the read
    | Write(path: MountPath, bytes: Bytes, id: string, effect: bool, ok: bool)
    | Unlink(path: MountPath, ok: bool)
    | Replay(after: Store)                 // a queue replay or a rename, which replays: anything may change
    | Gap                                  // a watch gap

  /** The write a mount path stands for (`plan_write`). */
  function PutAt(p: JetStreamPath, bytes: Bytes): Option<Put> {
    var f := FactOf(p);
    if f == None then None
    else
      match f.value
      case KvFact(b, key) => Some(PutKey(b, key, bytes))
      case ObjectFact(b, name) => Some(PutName(b, name, bytes))
      case StreamFact(s, subject) => Some(PutLines(s, subject, bytes))
  }

  /** `plan_unlink` with its store call; streams are append-only. */
  function Removed(st: Store, p: JetStreamPath): Option<Store> {
    var f := FactOf(p);
    if f == None then None
    else
      match f.value
      case KvFact(b, key) => KvDelete(st, b, key)
      case ObjectFact(b, name) => ObjectDelete(st, b, name)
      case StreamFact(_, _) => None
  }

  /** `cache_entry_after_write`: whole values are cached again, JSON lines are not. */
  function Refilled(st: Store, cache: map<MountPath, Bytes>, path: MountPath, p: JetStreamPath, bytes: Bytes):
    map<MountPath, Bytes>
  {
    match FactOf(p)
    case Some(KvFact(b, key)) => if (b, key) in st.kv then cache[path := st.kv[(b, key)].bytes] else cache
    case Some(ObjectFact(b, name)) => if (b, name) in st.objects then cache[path := bytes] else cache
    case _ => cache
  }

  function Step(render: Message -> Bytes, m: Mount, ev: Event): Mount {
    match ev
    case Read(path, queued) =>
      var p := ParseComponents(path);
      if queued || p == None || path in m.cache then m
      else
        var shown := Shown(m.store, render, p.value);
        if shown == None then m else m.(cache := m.cache[path := shown.value])
    case Write(path, bytes, id, effect, ok) =>
      var p := ParseComponents(path);
      var put := if p == None then None else PutAt(p.value, bytes);
      if put == None then m
      else
        var st := if effect then PutIdempotent(m.store, put.value, id) else m.store;
        var kept := DropAll(m.cache, LocalPlan(path));
        Mount(st, if ok then Refilled(st, kept, path, p.value, bytes) else kept)
    case Unlink(path, ok) =>
      var p := ParseComponents(path);
      var after := if p == None then None else Removed(m.store, p.value);
      if !ok || after == None then m else Mount(after.value, DropAll(m.cache, LocalPlan(path)))
    case Replay(after) => Mount(after, DropAll(m.cache, GAP))
    case Gap => m.(cache := DropAll(m.cache, GAP))
  }

  function Run(render: Message -> Bytes, m: Mount, events: seq<Event>): Mount {
    if events == [] then m else Step(render, Run(render, m, events[..|events| - 1]), events[|events| - 1])
  }

  /** Paths are normalized; a write that succeeds took effect, and drew a commit seed of its own. */
  predicate Allowed(m: Mount, ev: Event) {
    match ev
    case Read(path, _) => MountComponents(path)
    case Write(path, bytes, id, effect, ok) =>
      && MountComponents(path) && (ok ==> effect)
      && (ParseComponents(path).Some? && PutAt(ParseComponents(path).value, bytes).Some? ==>
            !PutApplied(m.store, PutAt(ParseComponents(path).value, bytes).value, id))
    case Unlink(path, _) => MountComponents(path)
    case _ => true
  }

  predicate AllowedRun(render: Message -> Bytes, m: Mount, events: seq<Event>) {
    forall n :: 0 <= n < |events| ==> Allowed(Run(render, m, events[..n]), events[n])
  }

  /** Every cached file holds what the store shows at its path now. */
  ghost predicate Agrees(render: Message -> Bytes, m: Mount) {
    forall path :: path in m.cache ==>
      && path != [] && MountComponents(path) && ParseComponents(path).Some?
      && Shown(m.store, render, ParseComponents(path).value) == Some(m.cache[path])
  }

  // ---- a write or delete only changes its own fact ----

  lemma {:induction false} FindRevisionStays(history: seq<KeyRevision>, more: seq<KeyRevision>, revision: nat)
    requires FindRevision(history, revision).Some?
    ensures FindRevision(history + more, revision) == FindRevision(history, revision)
  {
    assert (history + more)[0] == history[0] && (history + more)[1..] == history[1..] + more;
    if history[0].revision != revision {
      FindRevisionStays(history[1..], more, revision);
    }
  }

  lemma {:induction false} FindMessageStays(messages: seq<Message>, more: seq<Message>, sequence: nat)
    requires FindMessage(messages, sequence).Some?
    ensures FindMessage(messages + more, sequence) == FindMessage(messages, sequence)
  {
    assert (messages + more)[0] == messages[0] && (messages + more)[1..] == messages[1..] + more;
    if messages[0].sequence != sequence {
      FindMessageStays(messages[1..], more, sequence);
    }
  }

  lemma {:induction false} OtherSubjectText(messages: seq<Message>, stream: string, subject: string,
                                            lines: seq<string>, other: string)
    requires other != subject
    ensures SubjectText(AppendLines(messages, stream, subject, lines), other) == SubjectText(messages, other)
  {
    if lines != [] {
      var front := AppendLines(messages, stream, subject, lines[..|lines| - 1]);
      OtherSubjectText(messages, stream, subject, lines[..|lines| - 1], other);
      var all := AppendLines(messages, stream, subject, lines);
      assert all[..|all| - 1] == front && all[|all| - 1].subject == subject;
    }
  }

  function FactWritten(put: Put): StorageFact {
    match put
    case PutKey(b, k, _) => KvFact(b, k)
    case PutName(b, n, _) => ObjectFact(b, n)
    case PutLines(s, subject, _) => StreamFact(s, subject)
  }

  lemma PutKeepsOtherFacts(st: Store, put: Put, id: string, g: StorageFact)
    requires g != FactWritten(put)
    ensures FactBytes(PutIdempotent(st, put, id), g) == FactBytes(st, g)
  {
    hide Lines, Sequences, AppendLines, SubjectText;
    if put.PutLines? && g.StreamFact? && g.stream == put.stream {
      OtherSubjectText(Messages(st, put.stream), put.stream, put.subject, Lines(put.bytes), g.subject);
    }
  }

  lemma PutAppends(st: Store, put: Put, id: string, at: Location, s: string)
    ensures History(st, at) <= History(PutIdempotent(st, put, id), at)
    ensures Messages(st, s) <= Messages(PutIdempotent(st, put, id), s)
  {
    hide Lines, Sequences;
  }

  lemma PutKeepsOthers(st: Store, render: Message -> Bytes, put: Put, id: string, q: JetStreamPath)
    requires Shown(st, render, q).Some? && FactOf(q) != Some(FactWritten(put))
    ensures Shown(PutIdempotent(st, put, id), render, q) == Shown(st, render, q)
  {
    hide PutIdempotent, FactBytes;
    var st' := PutIdempotent(st, put, id);
    if q.KvRevision? {
      PutAppends(st, put, id, (q.bucket, q.key), "");
      var before, after := History(st, (q.bucket, q.key)), History(st', (q.bucket, q.key));
      assert after == before + after[|before|..];
      FindRevisionStays(before, after[|before|..], q.revision);
    } else if q.StreamMessage? {
      PutAppends(st, put, id, ("", ""), q.stream);
      var before, after := Messages(st, q.stream), Messages(st', q.stream);
      assert after == before + after[|before|..];
      FindMessageStays(before, after[|before|..], q.sequence);
    } else {
      PutKeepsOtherFacts(st, put, id, FactOf(q).value);
    }
  }

  lemma RemoveKeepsOthers(st: Store, render: Message -> Bytes, p: JetStreamPath, q: JetStreamPath)
    requires Removed(st, p).Some? && FactOf(q) != FactOf(p)
    ensures Shown(Removed(st, p).value, render, q) == Shown(st, render, q)
  {
    hide FactBytes, FindMessage, FindRevision;
    RemoveKeepsLogs(st, p);
    hide Removed;
    if FactOf(q).Some? {
      RemoveKeepsFacts(st, p, FactOf(q).value);
    }
  }

  lemma RemoveKeepsLogs(st: Store, p: JetStreamPath)
    requires Removed(st, p).Some?
    ensures Removed(st, p).value.kvHistory == st.kvHistory && Removed(st, p).value.streams == st.streams
  {
  }

  lemma RemoveKeepsFacts(st: Store, p: JetStreamPath, g: StorageFact)
    requires Removed(st, p).Some? && FactOf(p) != Some(g)
    ensures FactBytes(Removed(st, p).value, g) == FactBytes(st, g)
  {
    hide FactOf, SubjectText;
    var f := FactOf(p).value;
    if f.KvFact? {
      assert Removed(st, p).value == st.(kv := st.kv - {(f.bucket, f.key)});
    } else {
      assert Removed(st, p).value == st.(objects := st.objects - {(f.bucket, f.name)});
    }
    hide Removed;
  }

  // ---- every step keeps the cache in agreement ----

  /** After the plan of a mutation is applied, no cached path shows the mutated fact. */
  lemma PlanDropsFact(render: Message -> Bytes, m: Mount, path: MountPath, p: JetStreamPath, cached: MountPath)
    requires Agrees(render, m) && MountComponents(path) && ParseComponents(path) == Some(p) && FactOf(p).Some?
    requires cached in DropAll(m.cache, LocalPlan(path))
    ensures cached in m.cache && FactOf(ParseComponents(cached).value) != FactOf(p)
  {
    var q := ParseComponents(cached).value;
    hide ParseComponents, LocalPlan;
    DroppedIfInvalidated(m.cache, LocalPlan(path), cached);
    if FactOf(q) == FactOf(p) {
      MutationReachesAliases(path, p, cached, q);
    }
  }

  lemma KeptAgrees(render: Message -> Bytes, m: Mount, path: MountPath, bytes: Bytes, id: string, cached: MountPath)
    requires Agrees(render, m) && MountComponents(path)
    requires ParseComponents(path).Some? && PutAt(ParseComponents(path).value, bytes).Some?
    requires cached in DropAll(m.cache, LocalPlan(path))
    ensures cached in m.cache && DropAll(m.cache, LocalPlan(path))[cached] == m.cache[cached]
    ensures var st := PutIdempotent(m.store, PutAt(ParseComponents(path).value, bytes).value, id);
            Shown(st, render, ParseComponents(cached).value) == Some(m.cache[cached])
  {
    hide ParseComponents, LocalPlan, PutIdempotent, Shown, MountComponents;
    var p := ParseComponents(path).value;
    PlanDropsFact(render, m, path, p, cached);
    PutKeepsOthers(m.store, render, PutAt(p, bytes).value, id, ParseComponents(cached).value);
  }

  lemma WriteAgrees(render: Message -> Bytes, m: Mount, path: MountPath, bytes: Bytes, id: string, effect: bool,
                    ok: bool)
    requires Agrees(render, m) && Allowed(m, Write(path, bytes, id, effect, ok))
    requires ParseComponents(path).Some? && PutAt(ParseComponents(path).value, bytes).Some?
    ensures Agrees(render, Step(render, m, Write(path, bytes, id, effect, ok)))
  {
    hide ParseComponents, LocalPlan, PutIdempotent, PutAt, Shown, MountComponents, PutApplied;
    var kept := DropAll(m.cache, LocalPlan(path));
    var m' := Step(render, m, Write(path, bytes, id, effect, ok));
    WrittenPathAgrees(render, m, path, bytes, id, effect, ok);
    forall cached | cached in m'.cache && cached != path
      ensures cached in kept && m'.cache[cached] == kept[cached]
      ensures cached in m.cache && Shown(m'.store, render, ParseComponents(cached).value) == Some(m'.cache[cached])
    {
      KeptAgrees(render, m, path, bytes, id, cached);
    }
  }

  lemma WrittenPathAgrees(render: Message -> Bytes, m: Mount, path: MountPath, bytes: Bytes, id: string, effect: bool,
                          ok: bool)
    requires Agrees(render, m) && Allowed(m, Write(path, bytes, id, effect, ok))
    requires ParseComponents(path).Some? && PutAt(ParseComponents(path).value, bytes).Some?
    ensures var m' := Step(render, m, Write(path, bytes, id, effect, ok));
            path in m'.cache ==>
              path != [] && Shown(m'.store, render, ParseComponents(path).value) == Some(m'.cache[path])
  {
    hide LocalPlan, MountComponents, AppendLines, Lines, Sequences;
    assert ParseComponents([]) == Some(Root) && path != [];
    hide ParseComponents;
    var p := ParseComponents(path).value;
    var kept := DropAll(m.cache, LocalPlan(path));
    if path in kept {
      PlanDropsFact(render, m, path, p, path);
    }
    hide DropAll;
  }

  lemma UnlinkAgrees(render: Message -> Bytes, m: Mount, path: MountPath)
    requires Agrees(render, m) && MountComponents(path)
    requires ParseComponents(path).Some? && Removed(m.store, ParseComponents(path).value).Some?
    ensures Agrees(render, Step(render, m, Unlink(path, true)))
  {
    hide ParseComponents, LocalPlan, Shown, MountComponents;
    var p := ParseComponents(path).value;
    assert FactOf(p).Some?;
    hide Removed;
    var kept := DropAll(m.cache, LocalPlan(path));
    forall cached | cached in kept
      ensures cached in m.cache && Shown(Removed(m.store, p).value, render, ParseComponents(cached).value) ==
              Some(m.cache[cached])
    {
      PlanDropsFact(render, m, path, p, cached);
      RemoveKeepsOthers(m.store, render, p, ParseComponents(cached).value);
    }
  }

  lemma GapAgrees(render: Message -> Bytes, m: Mount, after: Store)
    ensures Agrees(render, Mount(after, DropAll(m.cache, GAP)))
  {
    assert GAP[..0] == [];
    assert DropAll(m.cache, GAP) == map[];
  }

  lemma StepAgrees(render: Message -> Bytes, m: Mount, ev: Event)
    requires Agrees(render, m) && Allowed(m, ev)
    ensures Agrees(render, Step(render, m, ev))
  {
    hide LocalPlan, PutIdempotent;
    match ev
    case Read(path, queued) => ReadAgrees(render, m, path, queued);
    case Write(path, bytes, id, effect, ok) =>
      if ParseComponents(path).Some? && PutAt(ParseComponents(path).value, bytes).Some? {
        hide ParseComponents, PutAt;
        WriteAgrees(render, m, path, bytes, id, effect, ok);
      }
    case Unlink(path, ok) =>
      if ok && ParseComponents(path).Some? && Removed(m.store, ParseComponents(path).value).Some? {
        hide ParseComponents, Removed;
        UnlinkAgrees(render, m, path);
      }
    case Replay(after) => GapAgrees(render, m, after);
    case Gap => GapAgrees(render, m, m.store);
  }

  lemma ReadAgrees(render: Message -> Bytes, m: Mount, path: MountPath, queued: bool)
    requires Agrees(render, m) && MountComponents(path)
    ensures Agrees(render, Step(render, m, Read(path, queued)))
  {
    assert ParseComponents([]) == Some(Root) && Shown(m.store, render, Root) == None;
  }

  /** In every run without other writers, where a failed write was queued and a failed unlink had no
      effect, each cached file holds the bytes the store shows at its path, under every alias. */
  lemma {:induction false} CacheAgreesWithStore(render: Message -> Bytes, st0: Store, events: seq<Event>)
    requires AllowedRun(render, Mount(st0, map[]), events)
    ensures Agrees(render, Run(render, Mount(st0, map[]), events))
  {
    if events != [] {
      var n := |events| - 1;
      var front := events[..n];
      assert forall i :: 0 <= i < n ==> front[..i] == events[..i];
      CacheAgreesWithStore(render, st0, front);
      hide Step, Agrees, Allowed;
      StepAgrees(render, Run(render, Mount(st0, map[]), front), events[n]);
    }
  }

  /** Why a failed write must be queued: a put that took effect but was not invalidated leaves the cache
      in agreement exactly when it wrote the bytes that were cached already. */
  lemma UnqueuedEffectIsStale(render: Message -> Bytes, m: Mount, path: MountPath, bytes: Bytes, id: string)
    requires Agrees(render, m) && path in m.cache && ParseComponents(path).value.KvKey?
    requires var p := ParseComponents(path).value; !KvPutApplied(m.store, p.bucket, p.key, id)
    ensures var p := ParseComponents(path).value;
            Agrees(render, m.(store := KvPutIdempotent(m.store, p.bucket, p.key, bytes, id))) <==>
              bytes == m.cache[path]
  {
    var p := ParseComponents(path).value;
    var put, m' := PutKey(p.bucket, p.key, bytes), m.(store := KvPutIdempotent(m.store, p.bucket, p.key, bytes, id));
    hide ParseComponents;
    assert Shown(m'.store, render, p) == Some(bytes);
    if bytes == m.cache[path] {
      forall cached | cached in m.cache
        ensures Shown(m'.store, render, ParseComponents(cached).value) == Some(m.cache[cached])
      {
        var q := ParseComponents(cached).value;
        if FactOf(q) != FactOf(p) {
          PutKeepsOthers(m.store, render, put, id, q);
        }
      }
    }
  }
}
