/** What the store shows at a fact after the calls of a log: appended lines stand in log order, a value is
    that of the last put, and a removed value is gone. */
module StoreLaws {
  import opened Text
  import opened JsonLines
  import opened MemoryStore
  import opened Writeback
  import opened ReplayInvariant
  import opened Paths
  import opened Aliases
  import opened Invalidation
  import opened CacheRuns
  import opened JsonlView
  import CrashRuns
  import Progress

  // ---- one put ----

  lemma {:induction false} AppendedText(messages: seq<Message>, stream: string, subject: string, lines: seq<string>)
    ensures SubjectText(AppendLines(messages, stream, subject, lines), subject) ==
            SubjectText(messages, subject) + TextOf(lines)
  {
    if lines != [] {
      hide LineText;
      var front := lines[..|lines| - 1];
      AppendedText(messages, stream, subject, front);
      var all := AppendLines(messages, stream, subject, lines);
      assert all[..|all| - 1] == AppendLines(messages, stream, subject, front);
      var old', more, line := SubjectText(messages, subject), TextOf(front), LineText(lines[|lines| - 1]);
      assert old' + (more + line) == (old' + more) + line;
    }
  }

  /** What a fact shows after a put to it, given what it showed before. */
  function ShownAfter(before: Option<Bytes>, put: Put): Option<Bytes> {
    match put
    case PutKey(_, _, bytes) => Some(bytes)
    case PutName(_, _, bytes) => Some(bytes)
    case PutLines(_, _, bytes) => Some((if before.Some? then before.value else "") + TextOf(Lines(bytes)))
  }

  lemma PutOnceShows(st: Store, put: Put, id: string)
    ensures var f := FactWritten(put); FactBytes(PutOnce(st, put, id), f) == ShownAfter(FactBytes(st, f), put)
  {
    hide Lines, Sequences, AppendLines, SubjectText, TextOf;
    if put.PutLines? {
      AppendedText(Messages(st, put.stream), put.stream, put.subject, Lines(put.bytes));
    }
  }

  lemma PutOnceKeeps(st: Store, put: Put, id: string, g: StorageFact)
    requires g != FactWritten(put)
    ensures FactBytes(PutOnce(st, put, id), g) == FactBytes(st, g)
  {
    hide Lines, Sequences, AppendLines, SubjectText;
    if put.PutLines? && g.StreamFact? && g.stream == put.stream {
      OtherSubjectText(Messages(st, put.stream), put.stream, put.subject, Lines(put.bytes), g.subject);
    }
  }

  /** A put under a new key shows at its fact what it wrote, at the end of what was there for lines, and changes
      no other fact; the same put under the same key changes nothing more. */
  lemma PutShowsOnce(st: Store, put: Put, id: string, g: StorageFact)
    requires !PutApplied(st, put, id)
    ensures var st' := PutIdempotent(st, put, id);
            && FactBytes(st', g) ==
               (if g == FactWritten(put) then ShownAfter(FactBytes(st, g), put) else FactBytes(st, g))
            && PutApplied(st', put, id) && PutIdempotent(st', put, id) == st'
  {
    hide FactBytes, ShownAfter, AppendLines, Lines, Sequences;
    assert PutIdempotent(st, put, id) == PutOnce(st, put, id);
    if g == FactWritten(put) {
      PutOnceShows(st, put, id);
    } else {
      PutOnceKeeps(st, put, id, g);
    }
  }

  /** A subject shows text exactly when some message is on it. */
  lemma {:induction false} TextTellsMessages(messages: seq<Message>, subject: string)
    ensures SubjectText(messages, subject) != "" <==> exists m :: m in messages && m.subject == subject
  {
    if messages != [] {
      var n := |messages| - 1;
      TextTellsMessages(messages[..n], subject);
      assert JsonLine(messages[n].payload) != "";
      assert forall m :: m in messages <==> m in messages[..n] || m == messages[n];
    }
  }

  // ---- numbered streams ----

  /** The i-th message of a stream has sequence i + 1 and knows its stream. */
  predicate InSequence(messages: seq<Message>, stream: string) {
    forall i :: 0 <= i < |messages| ==> messages[i].sequence == i + 1 && messages[i].stream == stream
  }

  lemma {:induction false} FoundAt(messages: seq<Message>, i: nat)
    requires i < |messages| && forall j :: 0 <= j < i ==> messages[j].sequence != messages[i].sequence
    ensures FindMessage(messages, messages[i].sequence) == Some(messages[i])
  {
    if i > 0 {
      FoundAt(messages[1..], i - 1);
    }
  }

  /** A publish continues the numbering, records how many lines it published, and leaves the i-th line readable
      under the number it got. */
  lemma PublishContinues(st: Store, stream: string, subject: string, bytes: Bytes, id: string, i: nat)
    requires InSequence(Messages(st, stream), stream) && !PublishApplied(st, stream, subject, id)
    ensures var st' := PublishIdempotent(st, stream, subject, bytes, id);
            var n := |Messages(st, stream)|;
            && InSequence(Messages(st', stream), stream)
            && PublishAppliedPrefix(st', stream, subject, id) == |Lines(bytes)|
            && (i < |Lines(bytes)| ==>
                  FindMessage(Messages(st', stream), n + i + 1) ==
                  Some(Message(stream, n + i + 1, subject, Lines(bytes)[i])))
  {
    hide Lines, AppendLines, Sequences, FindMessage;
    var before, lines := Messages(st, stream), Lines(bytes);
    var after := AppendLines(before, stream, subject, lines);
    assert Messages(PublishIdempotent(st, stream, subject, bytes, id), stream) == after;
    forall j | 0 <= j < |after|
      ensures after[j].sequence == j + 1 && after[j].stream == stream
    {
      if j < |before| {
        assert after[j] == before[j];
      } else {
        AppendedMessage(before, stream, subject, lines, j - |before|);
      }
    }
    if i < |lines| {
      AppendedMessage(before, stream, subject, lines, i);
      FoundAt(after, |before| + i);
    }
  }

  // ---- one request ----

  function FactDeleted(del: Delete): Option<StorageFact> {
    match del
    case Keep => None
    case DeleteKey(b, k, _) => Some(KvFact(b, k))
    case DeleteName(b, n, _, _) => Some(ObjectFact(b, n))
  }

  function FactUnlinked(call: DirectCall): Option<StorageFact> {
    match call
    case UnlinkKey(b, k) => Some(KvFact(b, k))
    case UnlinkName(b, n) => Some(ObjectFact(b, n))
    case _ => None
  }

  predicate Writes(r: Request, f: StorageFact) {
    !r.operation.Direct? && FactWritten(PutOf(r.operation)) == f
  }

  /** The request may remove the fact: an unlink, or a rename away from it. */
  predicate Removes(r: Request, f: StorageFact) {
    if r.operation.Direct? then FactUnlinked(r.operation.call) == Some(f)
    else FactDeleted(DeleteOf(r.operation)) == Some(f)
  }

  lemma DeleteKeepsFact(st: Store, del: Delete, f: StorageFact)
    requires FactDeleted(del) != Some(f)
    ensures FactBytes(DeleteIf(st, del), f) == FactBytes(st, f)
  {
    hide SubjectText;
  }

  /** An unlink removes exactly its fact, and reports as missing exactly a fact that shows nothing. */
  lemma UnlinkRemoves(st: Store, call: DirectCall, f: StorageFact)
    ensures FactBytes(DirectEffect(st, call), f) == if FactUnlinked(call) == Some(f) then None else FactBytes(st, f)
    ensures Missing(st, call) <==> FactUnlinked(call).Some? && FactBytes(st, FactUnlinked(call).value) == None
  {
    hide SubjectText;
  }

  /** The same through a path of the mount. */
  lemma RemovedIsGone(st: Store, p: JetStreamPath)
    ensures Removed(st, p).Some? <==>
              FactOf(p).Some? && !FactOf(p).value.StreamFact? && FactBytes(st, FactOf(p).value).Some?
    ensures Removed(st, p).Some? ==> FactBytes(Removed(st, p).value, FactOf(p).value) == None
  {
    hide FactOf, SubjectText;
  }

  /** The guarded delete removes its fact exactly when it finds the generation it names. */
  lemma DeleteRemovesNamed(st: Store, b: string, k: string, expected: nat, nuid: string)
    ensures FactBytes(DeleteIf(st, DeleteKey(b, k, expected)), KvFact(b, k)) ==
              if (b, k) in st.kv && st.kv[(b, k)].revision == expected then None else FactBytes(st, KvFact(b, k))
    ensures FactBytes(DeleteIf(st, DeleteName(b, k, expected, nuid)), ObjectFact(b, k)) ==
              if (b, k) in st.objects && st.objects[(b, k)].sequence == expected &&
                 (nuid == "" || st.objects[(b, k)].nuid == nuid) then None
              else FactBytes(st, ObjectFact(b, k))
  {
    hide SubjectText;
  }

  lemma EffectKeepsFact(st: Store, r: Request, f: StorageFact)
    requires !Writes(r, f) && !Removes(r, f)
    ensures FactBytes(Effect(st, r), f) == FactBytes(st, f)
  {
    hide FactBytes, PutOnce, DeleteIf, DirectEffect, PutOf, DeleteOf;
    if r.operation.Direct? {
      UnlinkRemoves(st, r.operation.call, f);
    } else {
      PutOnceKeeps(st, PutOf(r.operation), r.key, f);
      DeleteKeepsFact(PutEffect(st, r), DeleteOf(r.operation), f);
    }
  }

  lemma EffectShows(st: Store, r: Request, f: StorageFact)
    requires Writes(r, f) && !Removes(r, f)
    ensures FactBytes(Effect(st, r), f) == ShownAfter(FactBytes(st, f), PutOf(r.operation))
  {
    hide FactBytes, PutOnce, DeleteIf, PutOf, DeleteOf, ShownAfter;
    PutOnceShows(st, PutOf(r.operation), r.key);
    DeleteKeepsFact(PutEffect(st, r), DeleteOf(r.operation), f);
  }

  // ---- a log of requests ----

  /** The lines all requests of a log publish on one subject, in log order. */
  function LinesOn(log: seq<Request>, stream: string, subject: string): seq<string> {
    if log == [] then []
    else LinesOn(log[..|log| - 1], stream, subject) + LinesBy(log[|log| - 1], stream, subject)
  }

  function LinesBy(r: Request, stream: string, subject: string): seq<string> {
    if r.operation.PublishJsonLines? && r.operation.stream == stream && r.operation.subject == subject
    then Lines(r.operation.bytes) else []
  }

  lemma EffectAppends(st: Store, r: Request, stream: string, subject: string, before: Bytes, lines: seq<string>)
    requires FactBytes(st, StreamFact(stream, subject)) == Some(before + TextOf(lines))
    ensures FactBytes(Effect(st, r), StreamFact(stream, subject)) ==
            Some(before + TextOf(lines + LinesBy(r, stream, subject)))
  {
    var f, more := StreamFact(stream, subject), LinesBy(r, stream, subject);
    hide Effect, FactBytes, Lines;
    if Writes(r, f) {
      EffectShows(st, r, f);
      TextAppend(lines, more);
      hide TextOf;
      assert (before + TextOf(lines)) + TextOf(more) == before + (TextOf(lines) + TextOf(more));
    } else {
      EffectKeepsFact(st, r, f);
      hide TextOf;
      assert more == [] && lines + more == lines;
    }
  }

  /** A subject shows what it showed before the log, then every line the log publishes on it, once, in order. */
  lemma {:induction false} FoldAppendsLines(st0: Store, log: seq<Request>, stream: string, subject: string)
    ensures FactBytes(Fold(st0, log), StreamFact(stream, subject)) ==
            Some(SubjectText(Messages(st0, stream), subject) + TextOf(LinesOn(log, stream, subject)))
  {
    var before := SubjectText(Messages(st0, stream), subject);
    if log == [] {
      assert before + "" == before;
    } else {
      hide Effect, FactBytes, LinesBy, TextOf;
      FoldAppendsLines(st0, log[..|log| - 1], stream, subject);
      EffectAppends(Fold(st0, log[..|log| - 1]), log[|log| - 1], stream, subject, before,
        LinesOn(log[..|log| - 1], stream, subject));
    }
  }

  predicate Untouched(log: seq<Request>, f: StorageFact) {
    forall i :: 0 <= i < |log| ==> !Writes(log[i], f) && !Removes(log[i], f)
  }

  lemma {:induction false} FoldKeepsFact(st0: Store, log: seq<Request>, n: nat, f: StorageFact)
    requires n <= |log| && Untouched(log[n..], f)
    ensures FactBytes(Fold(st0, log), f) == FactBytes(Fold(st0, log[..n]), f)
  {
    hide FactBytes, Effect, Writes, Removes;
    if n == |log| {
      assert log[..n] == log;
    } else {
      var front, r := log[..|log| - 1], log[|log| - 1];
      assert front[..n] == log[..n] && log[n..] == front[n..] + [r];
      assert Untouched(front[n..], f) by { assert forall i :: 0 <= i < |front[n..]| ==> front[n..][i] == log[n..][i]; }
      FoldKeepsFact(st0, front, n, f);
      assert log[n..][|log| - 1 - n] == r;
      EffectKeepsFact(Fold(st0, front), r, f);
    }
  }

  /** The last request that concerns a key or object decides: a put shows its bytes, an unlink shows nothing,
      and a fact that no request concerns shows what it did before. */
  lemma LastRequestDecides(st0: Store, log: seq<Request>, n: nat, f: StorageFact)
    requires n < |log| && Untouched(log[n + 1..], f) && !f.StreamFact?
    ensures Writes(log[n], f) && !Removes(log[n], f) ==>
              FactBytes(Fold(st0, log), f) == Some(PutOf(log[n].operation).bytes)
    ensures log[n].operation.Direct? && Removes(log[n], f) ==> FactBytes(Fold(st0, log), f) == None
  {
    hide FactBytes, Writes, Removes, PutOf, DirectEffect;
    var r, before := log[n], Fold(st0, log[..n]);
    FoldKeepsFact(st0, log, n + 1, f);
    assert log[..n + 1][..n] == log[..n];
    assert Fold(st0, log[..n + 1]) == Effect(before, r);
    hide Fold;
    if Writes(r, f) && !Removes(r, f) {
      EffectShows(before, r, f);
      WrittenFact(r, f);
    } else if r.operation.Direct? && Removes(r, f) {
      UnlinkRemoves(before, r.operation.call, f);
      assert FactUnlinked(r.operation.call) == Some(f) by { RemovedFact(r, f); }
    }
  }

  lemma WrittenFact(r: Request, f: StorageFact)
    requires Writes(r, f)
    ensures !r.operation.Direct? && FactWritten(PutOf(r.operation)) == f
  {
  }

  lemma RemovedFact(r: Request, f: StorageFact)
    requires Removes(r, f) && r.operation.Direct?
    ensures FactUnlinked(r.operation.call) == Some(f)
  {
  }

  // ---- buckets and streams ----

  predicate NamesBucket(r: Request, b: string) {
    if r.operation.Direct? then r.operation.call == MakeBucket(b)
    else PutOf(r.operation).PutKey? && PutOf(r.operation).bucket == b
  }

  predicate NamesObjectBucket(r: Request, b: string) {
    if r.operation.Direct? then r.operation.call == MakeObjectBucket(b)
    else PutOf(r.operation).PutName? && PutOf(r.operation).bucket == b
  }

  predicate NamesStream(r: Request, s: string) {
    if r.operation.Direct? then r.operation.call == MakeStream(s)
    else PutOf(r.operation).PutLines? && PutOf(r.operation).stream == s
  }

  lemma PutMakes(st: Store, put: Put, id: string)
    ensures var st' := PutOnce(st, put, id);
            && st'.kvBuckets == st.kvBuckets + (if put.PutKey? then {put.bucket} else {})
            && st'.objectBuckets == st.objectBuckets + (if put.PutName? then {put.bucket} else {})
            && st'.streams.Keys == st.streams.Keys + if put.PutLines? then {put.stream} else {}
  {
    hide AppendLines, Sequences, Lines;
  }

  lemma CallMakes(st: Store, call: DirectCall)
    ensures var st' := DirectEffect(st, call);
            && st'.kvBuckets == st.kvBuckets + (if call.MakeBucket? then {call.bucket} else {})
            && st'.objectBuckets == st.objectBuckets + (if call.MakeObjectBucket? then {call.bucket} else {})
            && st'.streams.Keys == st.streams.Keys + if call.MakeStream? then {call.stream} else {}
  {
  }

  lemma EffectMakes(st: Store, r: Request, name: string)
    ensures name in Effect(st, r).kvBuckets <==> name in st.kvBuckets || NamesBucket(r, name)
    ensures name in Effect(st, r).objectBuckets <==> name in st.objectBuckets || NamesObjectBucket(r, name)
    ensures name in Effect(st, r).streams <==> name in st.streams || NamesStream(r, name)
  {
    hide PutOnce, DeleteIf, DirectEffect, PutOf, DeleteOf;
    if r.operation.Direct? {
      CallMakes(st, r.operation.call);
    } else {
      PutMakes(st, PutOf(r.operation), r.key);
      DeleteMakesNothing(PutEffect(st, r), DeleteOf(r.operation));
    }
  }

  lemma DeleteMakesNothing(st: Store, del: Delete)
    ensures var st' := DeleteIf(st, del);
            st'.kvBuckets == st.kvBuckets && st'.objectBuckets == st.objectBuckets && st'.streams == st.streams
  {
  }

  /** A bucket or stream exists after a log exactly when it did before or a request of the log names it. */
  lemma {:induction false} FoldMakes(st0: Store, log: seq<Request>, name: string)
    ensures name in Fold(st0, log).kvBuckets <==>
              name in st0.kvBuckets || exists r :: r in log && NamesBucket(r, name)
    ensures name in Fold(st0, log).objectBuckets <==>
              name in st0.objectBuckets || exists r :: r in log && NamesObjectBucket(r, name)
    ensures name in Fold(st0, log).streams <==>
              name in st0.streams || exists r :: r in log && NamesStream(r, name)
  {
    if log != [] {
      hide Effect, NamesBucket, NamesObjectBucket, NamesStream;
      var n := |log| - 1;
      FoldMakes(st0, log[..n], name);
      EffectMakes(Fold(st0, log[..n]), log[n], name);
      assert forall r :: r in log <==> r in log[..n] || r == log[n];
    }
  }

  // ---- a drained mount ----

  /** Whatever failed or crashed, a reachable mount with an open gate shows every accepted line once and in
      order, and at every key and object the bytes of the last accepted put, or nothing after an unlink. */
  lemma DrainedMountShows(c: CrashRuns.Config, owner: string -> Operation, st0: Store, initial: set<Request>,
                          w: CrashRuns.World, stream: string, subject: string, n: nat, f: StorageFact)
    requires Progress.Reachable(c, owner, st0, initial, w) && w.p.open && w.accepting
    requires n < |w.accepted| && Untouched(w.accepted[n + 1..], f) && !f.StreamFact?
    ensures FactBytes(w.p.store, StreamFact(stream, subject)) ==
            Some(SubjectText(Messages(st0, stream), subject) + TextOf(LinesOn(w.accepted, stream, subject)))
    ensures var r := w.accepted[n];
            && (Writes(r, f) && !Removes(r, f) ==> FactBytes(w.p.store, f) == Some(PutOf(r.operation).bytes))
            && (r.operation.Direct? && Removes(r, f) ==> FactBytes(w.p.store, f) == None)
  {
    hide Progress.Reachable, FactBytes, Writes, Removes, PutOf, SubjectText, Fold, Untouched, LinesOn;
    Progress.OpenGate(c, owner, st0, initial, w);
    FoldAppendsLines(st0, w.accepted, stream, subject);
    LastRequestDecides(st0, w.accepted, n, f);
  }

  // ---- through the mount's cache ----

  /** A read of an uncached file caches what the store shows there, and changes nothing else. */
  lemma ReadFills(render: Message -> Bytes, m: Mount, path: MountPath)
    requires ParseComponents(path).Some? && path !in m.cache
    ensures var shown := Shown(m.store, render, ParseComponents(path).value);
            var m' := Step(render, m, Read(path, false));
            && m'.store == m.store && (path in m'.cache <==> shown.Some?)
            && (shown.Some? ==> m'.cache == m.cache[path := shown.value])
  {
    hide Shown, ParseComponents;
  }

  /** A write of a whole value that succeeds is what the file shows and what is cached for it. */
  lemma WriteShows(render: Message -> Bytes, m: Mount, path: MountPath, bytes: Bytes, id: string)
    requires Allowed(m, Write(path, bytes, id, true, true)) && ParseComponents(path).Some?
    requires FactOf(ParseComponents(path).value).Some?
    ensures var f := FactOf(ParseComponents(path).value).value;
            var m' := Step(render, m, Write(path, bytes, id, true, true));
            if f.StreamFact?
            then FactBytes(m'.store, f) ==
                 Some(SubjectText(Messages(m.store, f.stream), f.subject) + TextOf(Lines(bytes)))
            else FactBytes(m'.store, f) == Some(bytes) && path in m'.cache && m'.cache[path] == bytes
  {
    hide ParseComponents, PutIdempotent, PutApplied, SubjectText, Lines, MountComponents, LocalPlan;
    var p := ParseComponents(path).value;
    PutShowsOnce(m.store, PutAt(p, bytes).value, id, FactOf(p).value);
    hide FactOf;
  }

  /** After an unlink that succeeds the file shows nothing, and no path of it is cached. */
  lemma UnlinkHides(render: Message -> Bytes, m: Mount, path: MountPath, cached: MountPath)
    requires Agrees(render, m) && MountComponents(path) && ParseComponents(path).Some?
    requires Removed(m.store, ParseComponents(path).value).Some?
    ensures var p := ParseComponents(path).value; var m' := Step(render, m, Unlink(path, true));
            && FactBytes(m'.store, FactOf(p).value) == None
            && (cached in m'.cache ==> FactOf(ParseComponents(cached).value) != FactOf(p))
  {
    var p := ParseComponents(path).value;
    hide ParseComponents, Agrees, MountComponents, LocalPlan, FactBytes;
    RemovedIsGone(m.store, p);
    hide Removed;
    if cached in DropAll(m.cache, LocalPlan(path)) {
      PlanDropsFact(render, m, path, p, cached);
    }
  }
}
