/** The in-memory storage adapter (eventfs-transport/src/storage/memory.rs): its state as a value,
    the calls as functions on that value, and the adapter itself as a class proved against them.
    Timestamps are left out. */
module MemoryStore {
  import opened Text
  import opened JsonLines

  type Location = (string, string)          // (bucket, key) or (bucket, name)
  type AppliedFact = (string, string, string)  // (bucket or stream, key or subject, idempotency key)

  datatype KeyRevision = KeyRevision(revision: nat, bytes: Bytes)
  datatype ObjectVersion = ObjectVersion(sequence: nat, nuid: string, bytes: Bytes)
  datatype Message = Message(stream: string, sequence: nat, subject: string, payload: Bytes)

  datatype Store = Store(
    kvBuckets: set<string>,
    kv: map<Location, KeyRevision>,
    kvHistory: map<Location, seq<KeyRevision>>,
    kvApplied: map<AppliedFact, nat>,
    streams: map<string, seq<Message>>,
    streamApplied: map<AppliedFact, seq<nat>>,
    objectBuckets: set<string>,
    objects: map<Location, ObjectVersion>,
    objectGenerations: map<Location, nat>,
    objectApplied: set<AppliedFact>)

  const EMPTY: Store := Store({}, map[], map[], map[], map[], map[], {}, map[], map[], {})

  // ---- KV ----

  function History(st: Store, at: Location): seq<KeyRevision> {
    if at in st.kvHistory then st.kvHistory[at] else []
  }

  function NextRevision(st: Store, at: Location): nat {
    var history := History(st, at);
    if history == [] then 1 else history[|history| - 1].revision + 1
  }

  /** `put_kv`. */
  function PutKv(st: Store, bucket: string, key: string, bytes: Bytes): Store {
    var at := (bucket, key);
    var entry := KeyRevision(NextRevision(st, at), bytes);
    st.(kvBuckets := st.kvBuckets + {bucket},
        kv := st.kv[at := entry],
        kvHistory := st.kvHistory[at := History(st, at) + [entry]])
  }

  function KvPutApplied(st: Store, bucket: string, key: string, id: string): bool {
    (bucket, key, id) in st.kvApplied
  }

  /** The put together with the fact that it happened, without the idempotency test. */
  function KvPutOnce(st: Store, bucket: string, key: string, bytes: Bytes, id: string): Store {
    PutKv(st, bucket, key, bytes).(
      kvApplied := st.kvApplied[(bucket, key, id) := NextRevision(st, (bucket, key))])
  }

  function KvPutIdempotent(st: Store, bucket: string, key: string, bytes: Bytes, id: string): Store {
    if KvPutApplied(st, bucket, key, id) then st else KvPutOnce(st, bucket, key, bytes, id)
  }

  function KvDeleteIfRevisionApplied(st: Store, bucket: string, key: string, expected: nat): bool {
    (bucket, key) in st.kv ==> st.kv[(bucket, key)].revision != expected
  }

  function KvDeleteIfRevision(st: Store, bucket: string, key: string, expected: nat): Store {
    if KvDeleteIfRevisionApplied(st, bucket, key, expected) then st
    else st.(kv := st.kv - {(bucket, key)})
  }

  /** `kv_delete`: `None` is the NotFound error, which changes nothing. */
  function KvDelete(st: Store, bucket: string, key: string): Option<Store> {
    if (bucket, key) in st.kv then Some(st.(kv := st.kv - {(bucket, key)})) else None
  }

  // ---- streams ----

  function NextSequence(messages: seq<Message>): nat {
    if messages == [] then 1 else messages[|messages| - 1].sequence + 1
  }

  function AppendLines(messages: seq<Message>, stream: string, subject: string, lines: seq<string>):
    (result: seq<Message>)
    ensures messages <= result && |result| == |messages| + |lines|
    ensures NextSequence(result) == NextSequence(messages) + |lines|
  {
    if lines == [] then messages
    else
      var sofar := AppendLines(messages, stream, subject, lines[..|lines| - 1]);
      sofar + [Message(stream, NextSequence(sofar), subject, lines[|lines| - 1])]
  }

  /** The i-th line becomes the i-th new message, numbered on from the last one. */
  lemma {:induction false} AppendedMessage(messages: seq<Message>, stream: string, subject: string,
                                           lines: seq<string>, i: nat)
    requires i < |lines|
    ensures AppendLines(messages, stream, subject, lines)[|messages| + i] ==
            Message(stream, NextSequence(messages) + i, subject, lines[i])
  {
    if i < |lines| - 1 {
      AppendedMessage(messages, stream, subject, lines[..|lines| - 1], i);
    }
  }

  /** `count` consecutive stream sequences. */
  function Sequences(start: nat, count: nat): (sequences: seq<nat>)
    ensures |sequences| == count
  {
    if count == 0 then [] else Sequences(start, count - 1) + [start + count - 1]
  }

  lemma {:induction false} SequenceAt(start: nat, count: nat, i: nat)
    requires i < count
    ensures Sequences(start, count)[i] == start + i
  {
    if i < count - 1 {
      SequenceAt(start, count - 1, i);
    }
  }

  function Messages(st: Store, stream: string): seq<Message> {
    if stream in st.streams then st.streams[stream] else []
  }

  function PublishApplied(st: Store, stream: string, subject: string, id: string): bool {
    (stream, subject, id) in st.streamApplied
  }

  /** `publish_json_lines_applied_prefix`. */
  function PublishAppliedPrefix(st: Store, stream: string, subject: string, id: string): nat {
    if PublishApplied(st, stream, subject, id) then |st.streamApplied[(stream, subject, id)]| else 0
  }

  function PublishOnce(st: Store, stream: string, subject: string, bytes: Bytes, id: string): Store {
    var lines := Lines(bytes);
    var messages := Messages(st, stream);
    st.(streams := st.streams[stream := AppendLines(messages, stream, subject, lines)],
        streamApplied := st.streamApplied[(stream, subject, id) :=
          Sequences(NextSequence(messages), |lines|)])
  }

  /** `publish_json_lines` on a payload that passes validation. */
  function PublishIdempotent(st: Store, stream: string, subject: string, bytes: Bytes, id: string): Store {
    if PublishApplied(st, stream, subject, id) then st else PublishOnce(st, stream, subject, bytes, id)
  }

  // ---- objects ----

  function Generation(st: Store, at: Location): nat {
    if at in st.objectGenerations then st.objectGenerations[at] else 0
  }

  function Nuid(sequence: nat): string {
    "memory-object-" + Decimal(sequence)
  }

  /** `put_object`. */
  function PutObject(st: Store, bucket: string, name: string, bytes: Bytes): Store {
    var at := (bucket, name);
    var sequence := Generation(st, at) + 1;
    st.(objectBuckets := st.objectBuckets + {bucket},
        objects := st.objects[at := ObjectVersion(sequence, Nuid(sequence), bytes)],
        objectGenerations := st.objectGenerations[at := sequence])
  }

  function ObjectPutApplied(st: Store, bucket: string, name: string, id: string): bool {
    (bucket, name, id) in st.objectApplied
  }

  function ObjectPutOnce(st: Store, bucket: string, name: string, bytes: Bytes, id: string): Store {
    PutObject(st, bucket, name, bytes).(objectApplied := st.objectApplied + {(bucket, name, id)})
  }

  function ObjectPutIdempotent(st: Store, bucket: string, name: string, bytes: Bytes, id: string): Store {
    if ObjectPutApplied(st, bucket, name, id) then st else ObjectPutOnce(st, bucket, name, bytes, id)
  }

  function ObjectDeleteIfSequenceApplied(st: Store, bucket: string, name: string, expected: nat, nuid: string):
    bool
  {
    (bucket, name) in st.objects ==>
      var entry := st.objects[(bucket, name)];
      entry.sequence != expected || (nuid != "" && entry.nuid != nuid)
  }

  function ObjectDeleteIfSequence(st: Store, bucket: string, name: string, expected: nat, nuid: string): Store {
    if ObjectDeleteIfSequenceApplied(st, bucket, name, expected, nuid) then st
    else st.(objects := st.objects - {(bucket, name)})
  }

  function ObjectDelete(st: Store, bucket: string, name: string): Option<Store> {
    if (bucket, name) in st.objects then Some(st.(objects := st.objects - {(bucket, name)})) else None
  }

  // ---- the adapter ----

  /** The publishing loop: each line gets the sequence after the last message. */
  method NumberLines(before: seq<Message>, stream: string, subject: string, lines: seq<string>)
    returns (messages: seq<Message>, sequences: seq<nat>)
    ensures messages == AppendLines(before, stream, subject, lines)
    ensures sequences == Sequences(NextSequence(before), |lines|)
    ensures |messages| == |before| + |lines| && messages[..|before|] == before
    ensures forall i :: 0 <= i < |lines| ==>
              messages[|before| + i] == Message(stream, NextSequence(before) + i, subject, lines[i]) &&
              sequences[i] == NextSequence(before) + i
  {
    messages, sequences := before, [];
    for i := 0 to |lines|
      invariant messages == AppendLines(before, stream, subject, lines[..i])
      invariant sequences == Sequences(NextSequence(before), i)
    {
      assert lines[..i + 1][..i] == lines[..i];
      var sequence := NextSequence(messages);
      messages := messages + [Message(stream, sequence, subject, lines[i])];
      sequences := sequences + [sequence];
    }
    assert lines[..|lines|] == lines;
    forall i | 0 <= i < |lines|
      ensures messages[|before| + i] == Message(stream, NextSequence(before) + i, subject, lines[i])
      ensures sequences[i] == NextSequence(before) + i
    {
      AppendedMessage(before, stream, subject, lines, i);
      SequenceAt(NextSequence(before), |lines|, i);
    }
  }

  class MemoryStorage {
    var kvBuckets: set<string>
    var kv: map<Location, KeyRevision>
    var kvHistory: map<Location, seq<KeyRevision>>
    var kvApplied: map<AppliedFact, nat>
    var streams: map<string, seq<Message>>
    var streamApplied: map<AppliedFact, seq<nat>>
    var objectBuckets: set<string>
    var objects: map<Location, ObjectVersion>
    var objectGenerations: map<Location, nat>
    var objectApplied: set<AppliedFact>

    function State(): Store
      reads this
    {
      Store(kvBuckets, kv, kvHistory, kvApplied, streams, streamApplied,
            objectBuckets, objects, objectGenerations, objectApplied)
    }

    constructor ()
      ensures State() == EMPTY
    {
      kvBuckets, kv, kvHistory, kvApplied := {}, map[], map[], map[];
      streams, streamApplied := map[], map[];
      objectBuckets, objects, objectGenerations, objectApplied := {}, map[], map[], {};
    }

    method PutKeyValue(bucket: string, key: string, bytes: Bytes) returns (revision: nat)
      modifies this
      ensures State() == PutKv(old(State()), bucket, key, bytes)
      ensures revision == NextRevision(old(State()), (bucket, key))
    {
      kvBuckets := kvBuckets + {bucket};
      var at := (bucket, key);
      var history := if at in kvHistory then kvHistory[at] else [];
      revision := if history == [] then 1 else history[|history| - 1].revision + 1;
      var entry := KeyRevision(revision, bytes);
      kv := kv[at := entry];
      kvHistory := kvHistory[at := history + [entry]];
    }

    method PutKeyValueIdempotent(bucket: string, key: string, bytes: Bytes, id: string) returns (revision: nat)
      modifies this
      ensures State() == KvPutIdempotent(old(State()), bucket, key, bytes, id)
      ensures (bucket, key, id) in kvApplied && revision == kvApplied[(bucket, key, id)]
    {
      if (bucket, key, id) in kvApplied {
        return kvApplied[(bucket, key, id)];
      }
      revision := PutKeyValue(bucket, key, bytes);
      kvApplied := kvApplied[(bucket, key, id) := revision];
    }

    method DeleteKeyIfRevision(bucket: string, key: string, expected: nat)
      modifies this
      ensures State() == KvDeleteIfRevision(old(State()), bucket, key, expected)
    {
      var at := (bucket, key);
      if at in kv && kv[at].revision == expected {
        kv := kv - {at};
      }
    }

    method PublishJsonLines(stream: string, subject: string, bytes: Bytes, id: string)
      modifies this
      ensures State() == PublishIdempotent(old(State()), stream, subject, bytes, id)
    {
      var lines := Lines(bytes);
      if (stream, subject, id) in streamApplied {
        return;
      }
      var before := if stream in streams then streams[stream] else [];
      var messages, sequences := NumberLines(before, stream, subject, lines);
      streams := streams[stream := messages];
      streamApplied := streamApplied[(stream, subject, id) := sequences];
    }

    method PutObjectIdempotent(bucket: string, name: string, bytes: Bytes, id: string)
      modifies this
      ensures State() == ObjectPutIdempotent(old(State()), bucket, name, bytes, id)
    {
      if (bucket, name, id) in objectApplied {
        return;
      }
      objectBuckets := objectBuckets + {bucket};
      var at := (bucket, name);
      var sequence := (if at in objectGenerations then objectGenerations[at] else 0) + 1;
      objectGenerations := objectGenerations[at := sequence];
      objects := objects[at := ObjectVersion(sequence, Nuid(sequence), bytes)];
      objectApplied := objectApplied + {(bucket, name, id)};
    }

    method DeleteObjectIfSequence(bucket: string, name: string, expected: nat, nuid: string)
      modifies this
      ensures State() == ObjectDeleteIfSequence(old(State()), bucket, name, expected, nuid)
    {
      var at := (bucket, name);
      if at in objects && objects[at].sequence == expected && (nuid == "" || objects[at].nuid == nuid) {
        objects := objects - {at};
      }
    }
  }
}
