/** The idempotent KV put over JetStream (eventfs-transport/src/storage/nats/kv.rs, ledger.rs), as steps of
    many writers over one bucket's stream. Every call may fail before or after its effect, be retried, or
    end the process; other programs append messages in between; the stream keeps at least the last
    message of every subject and suppresses repeated message ids for as long as its window holds them. */
module JetStreamKv {
  import opened Text
  import opened JsonLines
  import opened FileNames
  import opened Paths
  import opened Ledger

  // ---- the broker ----

  datatype Body = Value(bytes: Bytes) | Marker(operation: string, key: string, id: string)
  datatype Msg = Msg(subject: string, header: Option<string>, body: Body, msgId: Option<string>)

  /** A message's position in the log is its stream sequence; `ledger` holds the recorded ledger keys. */
  datatype Broker = Broker(log: seq<Msg>, retained: set<nat>, window: set<string>, ledger: set<string>)

  function LastOn(log: seq<Msg>, subject: string): (n: Option<nat>)
    ensures n.Some? ==> n.value < |log| && log[n.value].subject == subject
  {
    if log == [] then None
    else if log[|log| - 1].subject == subject then Some(|log| - 1)
    else LastOn(log[..|log| - 1], subject)
  }

  /** The last message of a subject among those still stored. */
  function LastStored(log: seq<Msg>, retained: set<nat>, subject: string): (n: Option<nat>)
    ensures n.Some? ==> n.value < |log| && log[n.value].subject == subject && n.value in retained
  {
    if log == [] then None
    else if log[|log| - 1].subject == subject && |log| - 1 in retained then Some(|log| - 1)
    else LastStored(log[..|log| - 1], retained, subject)
  }

  /** `get_last_message`. */
  function GetLast(b: Broker, subject: string): Option<nat> {
    LastStored(b.log, b.retained, subject)
  }

  /** The stream keeps at least one message per subject. */
  ghost predicate KeepsLast(b: Broker) {
    forall n :: 0 <= n < |b.log| && LastOn(b.log, b.log[n].subject) == Some(n) ==> n in b.retained
  }

  /** A publish with a message id. */
  function Publish(b: Broker, msg: Msg): Broker {
    if msg.msgId.Some? && msg.msgId.value in b.window then b
    else b.(log := b.log + [msg], retained := b.retained + {|b.log|},
            window := b.window + if msg.msgId.Some? then {msg.msgId.value} else {})
  }

  // ---- names ----

  datatype Op = Op(bucket: string, key: string, bytes: Bytes, id: string)

  const WRITEBACK: string := "kv-writeback-marker"
  const APPLIED: string := "kv-applied-marker"

  function KvSubject(bucket: string, key: string): string { "$KV." + bucket + "." + key }
  function Target(op: Op): string { KvSubject(op.bucket, op.key) }
  function MarkerSubject(op: Op): string { KvSubject(op.bucket, WRITEBACK_MARKER + "." + Hex(Utf8(op.id))) }
  function AppliedSubject(op: Op): string { KvSubject(op.bucket, APPLIED_MARKER + "." + Hex(Utf8(op.id))) }
  function MarkerId(op: Op): string { "writeback-marker:" + op.id }
  function AppliedId(op: Op): string { "writeback-applied-marker:" + op.id }
  function LedgerKey(op: Op): string { EffectKey(KvEffect(op.bucket, op.key, op.id)) }

  function ValueMsg(op: Op): Msg { Msg(Target(op), Some(op.id), Value(op.bytes), Some(op.id)) }
  function MarkerMsg(op: Op): Msg { Msg(MarkerSubject(op), None, Marker(WRITEBACK, op.key, op.id), Some(MarkerId(op))) }

  function AppliedMsg(op: Op): Msg {
    Msg(AppliedSubject(op), None, Marker(APPLIED, op.key, op.id), Some(AppliedId(op)))
  }

  /** Keys are not reserved (path.rs refuses those) and ids are hexadecimal text. */
  predicate WellFormed(op: Op) {
    !IsReserved(op.key) && ':' !in op.id
  }

  // ---- one writer ----

  datatype Pc =
    | Idle
    | CheckLedger | CheckApplied | CheckLatest | CheckMarker | CheckTarget(marker: nat) | CheckScan
    | RecordEvidence
    | EnsureMarker | PublishMarker | PublishValue
    | CheckAppliedAgain | PublishApplied | RecordLedger
    | Finished(applied: bool)

  /** `putting` tells `put_idempotent` from `put_applied`. */
  datatype Writer = Writer(pc: Pc, putting: bool)

  predicate HasMarker(b: Broker, subject: string, body: Body) {
    GetLast(b, subject).Some? && b.log[GetLast(b, subject).value].body == body
  }

  function Act(op: Op, b: Broker, pc: Pc): Broker {
    match pc
    case PublishMarker => Publish(b, MarkerMsg(op))
    case PublishValue => Publish(b, ValueMsg(op))
    case PublishApplied => Publish(b, AppliedMsg(op))
    case RecordEvidence | RecordLedger => b.(ledger := b.ledger + {LedgerKey(op)})
    case _ => b
  }

  /** A retained message of the target that carries the idempotency header. */
  predicate ScanFinds(op: Op, b: Broker) {
    exists n :: 0 <= n < |b.log| && n in b.retained && b.log[n].subject == Target(op) && b.log[n].header == Some(op.id)
  }

  /** Where a call goes after its current step succeeded. */
  function After(op: Op, b: Broker, w: Writer): Pc {
    match w.pc
    case CheckLedger => if LedgerKey(op) in b.ledger then Finished(true) else CheckApplied
    case CheckApplied => if HasMarker(b, AppliedSubject(op), AppliedMsg(op).body) then RecordEvidence else CheckLatest
    case CheckLatest =>
      var last := GetLast(b, Target(op));
      if last.Some? && b.log[last.value].header == Some(op.id) then RecordEvidence else CheckMarker
    case CheckMarker =>
      if HasMarker(b, MarkerSubject(op), MarkerMsg(op).body) then CheckTarget(GetLast(b, MarkerSubject(op)).value)
        else CheckScan
    case CheckTarget(marker) =>
      var last := GetLast(b, Target(op));
      if last.Some? && last.value > marker then RecordEvidence else CheckScan
    case CheckScan => if ScanFinds(op, b) then RecordEvidence else if w.putting then EnsureMarker else Finished(false)
    case RecordEvidence => Finished(true)
    case EnsureMarker => if HasMarker(b, MarkerSubject(op), MarkerMsg(op).body) then PublishValue else PublishMarker
    case PublishMarker => PublishValue
    case PublishValue => CheckAppliedAgain
    case CheckAppliedAgain => if HasMarker(b, AppliedSubject(op), AppliedMsg(op).body) then RecordLedger
      else PublishApplied
    case PublishApplied => RecordLedger
    case RecordLedger => Finished(true)
    case Idle => Idle
    case Finished(applied) => Finished(applied)
  }

  /** The call goes on, is tried again after an error, or ends with an error or a crash. */
  datatype Next = Advance | Retry | Stop

  function Worked(op: Op, b: Broker, w: Writer, effect: bool, next: Next): (Broker, Writer) {
    (if effect || next.Advance? then Act(op, b, w.pc) else b,
     match next
     case Advance => w.(pc := After(op, b, w))
     case Retry => w
     case Stop => w.(pc := Idle))
  }

  // ---- all writers of a bucket ----

  datatype World = World(broker: Broker, writers: map<Op, Writer>)

  datatype Event =
    | Start(op: Op, putting: bool)
    | Work(op: Op, effect: bool, next: Next)
    | External(msg: Msg)
    | ExternalLedger(key: string)
    | Evict(dropped: set<nat>)
    | Expire(ids: set<string>)

  function Step(w: World, ev: Event): World {
    match ev
    case Start(op, putting) => if op in w.writers then w.(writers := w.writers[op := Writer(CheckLedger, putting)])
      else w
    case Work(op, effect, next) =>
      if op !in w.writers then w
      else
        var (b, writer) := Worked(op, w.broker, w.writers[op], effect, next);
        World(b, w.writers[op := writer])
    case External(msg) => w.(broker := Publish(w.broker, msg))
    case ExternalLedger(key) => w.(broker := w.broker.(ledger := w.broker.ledger + {key}))
    case Evict(dropped) => w.(broker := w.broker.(retained := w.broker.retained - dropped))
    case Expire(ids) => w.(broker := w.broker.(window := w.broker.window - ids))
  }

  /** A message of somebody else: not on the operation's markers and without its ids. */
  predicate Harmless(op: Op, msg: Msg) {
    && msg.subject != MarkerSubject(op) && msg.subject != AppliedSubject(op) && msg.header != Some(op.id)
    && msg.msgId != Some(op.id) && msg.msgId != Some(MarkerId(op)) && msg.msgId != Some(AppliedId(op))
  }

  /** One owner per idempotency key; an id stays in the window while its publish is being retried. */
  ghost predicate Allowed(w: World, ev: Event) {
    match ev
    case External(msg) => forall op :: op in w.writers ==> Harmless(op, msg)
    case ExternalLedger(key) => forall op :: op in w.writers ==> key != LedgerKey(op)
    case Evict(dropped) => forall n :: n in dropped && n < |w.broker.log| ==>
      LastOn(w.broker.log, w.broker.log[n].subject) != Some(n)
    case Expire(ids) => forall op :: op in w.writers && w.writers[op].pc.PublishValue? ==> op.id !in ids
    case _ => true
  }

  function Run(w: World, events: seq<Event>): World {
    if events == [] then w else Step(Run(w, events[..|events| - 1]), events[|events| - 1])
  }

  ghost predicate AllowedRun(w: World, events: seq<Event>) {
    forall n :: 0 <= n < |events| ==> Allowed(Run(w, events[..n]), events[n])
  }

  // ---- what is kept ----

  /** How many messages carry the operation's value. */
  function Copies(op: Op, log: seq<Msg>): nat {
    if log == [] then 0
    else
      var last := log[|log| - 1];
      Copies(op, log[..|log| - 1]) + if last.subject == Target(op) && last.header == Some(op.id) then 1 else 0
  }

  /** Some message reached the target after a marker of the operation. */
  ghost predicate Overtaken(op: Op, log: seq<Msg>) {
    exists m: nat, n: nat :: m < n < |log| && log[m].subject == MarkerSubject(op) && log[n].subject == Target(op)
  }

  ghost predicate Marked(op: Op, log: seq<Msg>) {
    && LastOn(log, MarkerSubject(op)).Some?
    && LastOn(log, Target(op)).Some?
    && LastOn(log, MarkerSubject(op)).value < LastOn(log, Target(op)).value
  }

  /** The value is published at most once, and then the marker stands before the target's last message. */
  ghost predicate Safe(op: Op, log: seq<Msg>) {
    Copies(op, log) <= 1 && (Copies(op, log) == 1 ==> Marked(op, log))
  }

  ghost predicate LogOk(op: Op, b: Broker) {
    && Safe(op, b.log)
    && (forall n :: 0 <= n < |b.log| && b.log[n].subject == MarkerSubject(op) ==> b.log[n].body == MarkerMsg(op).body)
    && (op.id in b.window ==> Copies(op, b.log) == 1)
    && (MarkerId(op) in b.window ==> LastOn(b.log, MarkerSubject(op)).Some?)
    && (LastOn(b.log, AppliedSubject(op)).Some? ==> Copies(op, b.log) == 1)
    && (LedgerKey(op) in b.ledger ==> Marked(op, b.log))
  }

  ghost predicate WriterOk(op: Op, b: Broker, pc: Pc) {
    match pc
    case CheckApplied | CheckLatest | CheckMarker => LedgerKey(op) !in b.ledger
    case CheckTarget(marker) => LedgerKey(op) !in b.ledger && LastOn(b.log, MarkerSubject(op)) == Some(marker)
    case CheckScan | EnsureMarker | PublishMarker => LedgerKey(op) !in b.ledger && Copies(op, b.log) == 0
    case PublishValue => LastOn(b.log, MarkerSubject(op)).Some? && (Copies(op, b.log) == 0 || op.id in b.window)
    case RecordEvidence => Marked(op, b.log)
    case CheckAppliedAgain | PublishApplied | RecordLedger => Copies(op, b.log) == 1
    case Finished(applied) => applied ==> Marked(op, b.log)
    case Idle | CheckLedger => true
  }

  ghost predicate OpOk(op: Op, b: Broker, pc: Pc) {
    WellFormed(op) && LogOk(op, b) && WriterOk(op, b, pc)
  }

  ghost predicate WorldOk(w: World) {
    && KeepsLast(w.broker)
    && (forall op :: op in w.writers ==> OpOk(op, w.broker, w.writers[op].pc))
    && (forall op, other :: op in w.writers && other in w.writers && op != other ==>
          op.id != other.id && op.bucket == other.bucket)
  }

  // ---- the log grows ----

  lemma Appended(op: Op, log: seq<Msg>, msg: Msg, subject: string)
    ensures LastOn(log + [msg], subject) == if msg.subject == subject then Some(|log|) else LastOn(log, subject)
    ensures Copies(op, log + [msg]) ==
            Copies(op, log) + if msg.subject == Target(op) && msg.header == Some(op.id) then 1 else 0
  {
    assert (log + [msg])[..|log|] == log;
  }

  lemma {:induction false} GetLastIs(log: seq<Msg>, retained: set<nat>, subject: string)
    requires LastOn(log, subject).Some? ==> LastOn(log, subject).value in retained
    ensures LastStored(log, retained, subject) == LastOn(log, subject)
  {
    if log != [] {
      if log[|log| - 1].subject != subject {
        GetLastIs(log[..|log| - 1], retained, subject);
      }
    }
  }

  /** The last message is the one `get_last_message` returns. */
  lemma KeptLast(b: Broker, subject: string)
    requires KeepsLast(b)
    ensures GetLast(b, subject) == LastOn(b.log, subject)
  {
    GetLastIs(b.log, b.retained, subject);
  }

  lemma PublishKeepsLast(b: Broker, msg: Msg)
    requires KeepsLast(b)
    ensures KeepsLast(Publish(b, msg))
  {
    var b' := Publish(b, msg);
    if b' != b {
      forall n | 0 <= n < |b'.log| && LastOn(b'.log, b'.log[n].subject) == Some(n)
        ensures n in b'.retained
      {
        assert b'.log == b.log + [msg];
        assert b'.log[..|b.log|] == b.log;
      }
    }
  }

  // ---- names are apart ----

  lemma SubjectKey(bucket: string, key: string, other: string)
    requires KvSubject(bucket, key) == KvSubject(bucket, other)
    ensures key == other
  {
    var n := |"$KV." + bucket + "."|;
    assert KvSubject(bucket, key)[n..] == key && KvSubject(bucket, other)[n..] == other;
  }

  lemma MarkerKeysReserved(op: Op)
    ensures IsReserved(WRITEBACK_MARKER + "." + Hex(Utf8(op.id))) && IsReserved(APPLIED_MARKER + "." + Hex(Utf8(op.id)))
  {
    hide Hex, Utf8;
    var a, b := WRITEBACK_MARKER + "." + Hex(Utf8(op.id)), APPLIED_MARKER + "." + Hex(Utf8(op.id));
    assert a[|WRITEBACK_MARKER|] == '.' && b[|APPLIED_MARKER|] == '.';
  }

  /** Targets, markers and applied markers never share a subject. */
  lemma SubjectsApart(op: Op, other: Op)
    requires WellFormed(op) && op.bucket == other.bucket
    ensures Target(op) != MarkerSubject(other) && Target(op) != AppliedSubject(other)
    ensures MarkerSubject(op) != AppliedSubject(other)
    ensures op.id != other.id ==>
              MarkerSubject(op) != MarkerSubject(other) && AppliedSubject(op) != AppliedSubject(other)
  {
    hide KvSubject, IsReserved, Hex, Utf8;
    var bucket, m, a := op.bucket, WRITEBACK_MARKER + "." + Hex(Utf8(op.id)), APPLIED_MARKER + "." + Hex(Utf8(op.id));
    var m', a' := WRITEBACK_MARKER + "." + Hex(Utf8(other.id)), APPLIED_MARKER + "." + Hex(Utf8(other.id));
    MarkerKeysReserved(other);
    if Target(op) == MarkerSubject(other) {
      SubjectKey(bucket, op.key, m');
    }
    if Target(op) == AppliedSubject(other) {
      SubjectKey(bucket, op.key, a');
    }
    assert m[10] == 'w' && a'[10] == 'a';
    if MarkerSubject(op) == AppliedSubject(other) {
      SubjectKey(bucket, m, a');
    }
    if MarkerSubject(op) == MarkerSubject(other) {
      SubjectKey(bucket, m, m');
      assert m[|WRITEBACK_MARKER| + 1..] == Hex(Utf8(op.id)) && m'[|WRITEBACK_MARKER| + 1..] == Hex(Utf8(other.id));
      HexTextInjective(op.id, other.id);
    }
    if AppliedSubject(op) == AppliedSubject(other) {
      SubjectKey(bucket, a, a');
      assert a[|APPLIED_MARKER| + 1..] == Hex(Utf8(op.id)) && a'[|APPLIED_MARKER| + 1..] == Hex(Utf8(other.id));
      HexTextInjective(op.id, other.id);
    }
  }

  lemma IdsApart(op: Op, other: Op)
    requires WellFormed(op) && WellFormed(other) && op.id != other.id
    ensures other.id != MarkerId(op) && other.id != AppliedId(op)
    ensures MarkerId(other) != op.id && MarkerId(other) != MarkerId(op) && MarkerId(other) != AppliedId(op)
    ensures AppliedId(other) != op.id && AppliedId(other) != MarkerId(op) && AppliedId(other) != AppliedId(op)
  {
    forall x: string
      ensures ':' in "writeback-marker:" + x && ':' in "writeback-applied-marker:" + x
      ensures ("writeback-marker:" + x)[10] == 'm' && ("writeback-applied-marker:" + x)[10] == 'a'
      ensures ("writeback-marker:" + x)[17..] == x && ("writeback-applied-marker:" + x)[25..] == x
    {
      assert ("writeback-marker:" + x)[16] == ':' && ("writeback-applied-marker:" + x)[24] == ':';
    }
  }

  lemma OtherMessagesHarmless(op: Op, other: Op)
    requires WellFormed(op) && WellFormed(other) && op.id != other.id && op.bucket == other.bucket
    ensures Harmless(op, ValueMsg(other)) && Harmless(op, MarkerMsg(other)) && Harmless(op, AppliedMsg(other))
    ensures LedgerKey(op) != LedgerKey(other)
  {
    SubjectsApart(op, other);
    SubjectsApart(other, op);
    IdsApart(op, other);
    if LedgerKey(op) == LedgerKey(other) {
      EffectKeyInjective(KvEffect(op.bucket, op.key, op.id), KvEffect(other.bucket, other.key, other.id));
    }
  }

  // ---- steps of others ----

  /** What everybody else may do to the broker while the operation stands at `pc`. */
  ghost predicate EnvStep(op: Op, b: Broker, b': Broker, pc: Pc) {
    && (b'.log == b.log || (|b'.log| == |b.log| + 1 && b'.log[..|b.log|] == b.log && Harmless(op, b'.log[|b.log|])))
    && (LedgerKey(op) in b'.ledger ==> LedgerKey(op) in b.ledger)
    && (op.id in b'.window ==> op.id in b.window) && (MarkerId(op) in b'.window ==> MarkerId(op) in b.window)
    && (pc.PublishValue? && op.id in b.window ==> op.id in b'.window)
  }

  lemma EnvKeeps(op: Op, b: Broker, b': Broker, pc: Pc)
    requires OpOk(op, b, pc) && EnvStep(op, b, b', pc)
    ensures OpOk(op, b', pc)
  {
    if b'.log != b.log {
      var msg := b'.log[|b.log|];
      assert b'.log == b.log + [msg];
      LogGrows(op, b.log, msg);
      hide LastOn, Copies, Marked, MarkerSubject, AppliedSubject, Target, LedgerKey, MarkerId, WellFormed;
    }
  }

  /** A harmless message changes neither the count nor the markers, and only moves the target on. */
  lemma LogGrows(op: Op, log: seq<Msg>, msg: Msg)
    requires Harmless(op, msg)
    ensures Copies(op, log + [msg]) == Copies(op, log)
    ensures LastOn(log + [msg], MarkerSubject(op)) == LastOn(log, MarkerSubject(op))
    ensures LastOn(log + [msg], AppliedSubject(op)) == LastOn(log, AppliedSubject(op))
    ensures Marked(op, log) ==> Marked(op, log + [msg])
  {
    Appended(op, log, msg, MarkerSubject(op));
    Appended(op, log, msg, AppliedSubject(op));
    Appended(op, log, msg, Target(op));
  }

  lemma OtherIsEnv(op: Op, other: Op, b: Broker, w: Writer, effect: bool, next: Next, pc: Pc)
    requires WellFormed(op) && WellFormed(other) && op.id != other.id && op.bucket == other.bucket
    ensures EnvStep(op, b, Worked(other, b, w, effect, next).0, pc)
  {
    hide Harmless, ValueMsg, MarkerMsg, AppliedMsg, After, LedgerKey, WellFormed, EnvStep, Publish;
    OtherMessagesHarmless(op, other);
    PublishIsEnv(op, b, ValueMsg(other), pc);
    PublishIsEnv(op, b, MarkerMsg(other), pc);
    PublishIsEnv(op, b, AppliedMsg(other), pc);
    RecordIsEnv(op, b, b.(ledger := b.ledger + {LedgerKey(other)}), pc);
    RecordIsEnv(op, b, b, pc);
  }

  lemma PublishIsEnv(op: Op, b: Broker, msg: Msg, pc: Pc)
    requires Harmless(op, msg)
    ensures EnvStep(op, b, Publish(b, msg), pc)
  {
    hide Target, MarkerSubject, AppliedSubject, MarkerId, AppliedId, LedgerKey;
  }

  lemma RecordIsEnv(op: Op, b: Broker, b': Broker, pc: Pc)
    requires b'.log == b.log && b'.window == b.window && (LedgerKey(op) in b'.ledger ==> LedgerKey(op) in b.ledger)
    ensures EnvStep(op, b, b', pc)
  {
  }

  // ---- the operation's own steps ----

  lemma MarkerRead(op: Op, b: Broker)
    requires KeepsLast(b) && LogOk(op, b)
    ensures HasMarker(b, MarkerSubject(op), MarkerMsg(op).body) <==> LastOn(b.log, MarkerSubject(op)).Some?
    ensures GetLast(b, MarkerSubject(op)) == LastOn(b.log, MarkerSubject(op))
    ensures GetLast(b, Target(op)) == LastOn(b.log, Target(op))
    ensures HasMarker(b, AppliedSubject(op), AppliedMsg(op).body) ==> LastOn(b.log, AppliedSubject(op)).Some?
  {
    KeptLast(b, MarkerSubject(op));
    KeptLast(b, Target(op));
    KeptLast(b, AppliedSubject(op));
  }

  lemma {:induction false} CopyCounts(op: Op, log: seq<Msg>, n: nat)
    requires n < |log| && log[n].subject == Target(op) && log[n].header == Some(op.id)
    ensures Copies(op, log) > 0
  {
    if n < |log| - 1 {
      CopyCounts(op, log[..|log| - 1], n);
    }
  }

  lemma MarkedIsOvertaken(op: Op, log: seq<Msg>)
    requires Marked(op, log)
    ensures Overtaken(op, log)
  {
    var m, n := LastOn(log, MarkerSubject(op)).value, LastOn(log, Target(op)).value;
    assert log[m].subject == MarkerSubject(op) && log[n].subject == Target(op);
  }

  /** Every finding of the check means that the marker was passed. */
  lemma FindingsAreRight(op: Op, b: Broker)
    requires KeepsLast(b) && LogOk(op, b)
    ensures ScanFinds(op, b) ==> Marked(op, b.log)
    ensures var last := GetLast(b, Target(op));
            last.Some? && b.log[last.value].header == Some(op.id) ==> Marked(op, b.log)
    ensures HasMarker(b, AppliedSubject(op), AppliedMsg(op).body) ==> Marked(op, b.log)
  {
    MarkerRead(op, b);
    if ScanFinds(op, b) {
      var n :| 0 <= n < |b.log| && n in b.retained && b.log[n].subject == Target(op) && b.log[n].header == Some(op.id);
      CopyCounts(op, b.log, n);
    }
    var last := LastOn(b.log, Target(op));
    if last.Some? && b.log[last.value].header == Some(op.id) {
      CopyCounts(op, b.log, last.value);
    }
  }

  /** A last message behind the marker means the marker was passed; none means nothing was published. */
  lemma TargetReadIsRight(op: Op, b: Broker, marker: nat)
    requires KeepsLast(b) && LogOk(op, b) && LastOn(b.log, MarkerSubject(op)) == Some(marker)
    ensures var last := GetLast(b, Target(op)); last.Some? && last.value > marker <==> Marked(op, b.log)
    ensures !Marked(op, b.log) ==> Copies(op, b.log) == 0
  {
    MarkerRead(op, b);
  }

  lemma ReadsAreRight(op: Op, b: Broker, w: Writer)
    requires KeepsLast(b) && OpOk(op, b, w.pc)
    requires !w.pc.PublishMarker? && !w.pc.PublishValue?
    ensures WriterOk(op, b, After(op, b, w))
  {
    hide GetLast, LastOn, Copies, Target, MarkerSubject, AppliedSubject, LedgerKey, HasMarker, ScanFinds, MarkerMsg;
    hide AppliedMsg, KeepsLast, WellFormed;
    MarkerRead(op, b);
    FindingsAreRight(op, b);
    if w.pc.CheckTarget? {
      TargetReadIsRight(op, b, w.pc.marker);
    }
  }

  lemma PublishMarkerKeeps(op: Op, b: Broker)
    requires KeepsLast(b) && OpOk(op, b, PublishMarker)
    ensures OpOk(op, Publish(b, MarkerMsg(op)), PublishMarker) && OpOk(op, Publish(b, MarkerMsg(op)), PublishValue)
  {
    var msg := MarkerMsg(op);
    if MarkerId(op) !in b.window {
      SubjectsApart(op, op);
      Appended(op, b.log, msg, MarkerSubject(op));
      Appended(op, b.log, msg, AppliedSubject(op));
      hide LastOn, Copies, Target, MarkerSubject, AppliedSubject, LedgerKey, WellFormed, Marked;
    }
  }

  lemma ValueAppended(op: Op, log: seq<Msg>)
    requires WellFormed(op) && Copies(op, log) == 0 && LastOn(log, MarkerSubject(op)).Some?
    ensures var log' := log + [ValueMsg(op)];
            Copies(op, log') == 1 && Marked(op, log') && LastOn(log', MarkerSubject(op)) ==
              LastOn(log, MarkerSubject(op))
  {
    var msg := ValueMsg(op);
    SubjectsApart(op, op);
    Appended(op, log, msg, MarkerSubject(op));
    Appended(op, log, msg, Target(op));
  }

  lemma PublishValueKeeps(op: Op, b: Broker)
    requires KeepsLast(b) && OpOk(op, b, PublishValue)
    ensures OpOk(op, Publish(b, ValueMsg(op)), PublishValue) && OpOk(op, Publish(b, ValueMsg(op)), CheckAppliedAgain)
  {
    if op.id !in b.window {
      ValueAppended(op, b.log);
      SubjectsApart(op, op);
      assert ValueMsg(op).subject == Target(op) && ValueMsg(op).msgId == Some(op.id);
      hide LastOn, Copies, Target, MarkerSubject, AppliedSubject, LedgerKey, WellFormed, Overtaken, Marked;
      hide ValueMsg, MarkerMsg, MarkerId;
    }
  }

  lemma IdsOfOne(op: Op)
    requires WellFormed(op)
    ensures AppliedId(op) != op.id && AppliedId(op) != MarkerId(op)
  {
    assert AppliedId(op)[10] == 'a' && MarkerId(op)[10] == 'm' && |AppliedId(op)| > |op.id|;
  }

  lemma PublishAppliedKeeps(op: Op, b: Broker)
    requires KeepsLast(b) && OpOk(op, b, PublishApplied)
    ensures OpOk(op, Publish(b, AppliedMsg(op)), PublishApplied)
  {
    hide LastOn, Copies, Target, MarkerSubject, AppliedSubject, LedgerKey, MarkerId;
    var msg := AppliedMsg(op);
    if AppliedId(op) !in b.window {
      SubjectsApart(op, op);
      IdsOfOne(op);
      Appended(op, b.log, msg, MarkerSubject(op));
      Appended(op, b.log, msg, AppliedSubject(op));
      Appended(op, b.log, msg, Target(op));
      hide WellFormed;
    }
  }

  lemma RecordKeeps(op: Op, b: Broker, pc: Pc)
    requires OpOk(op, b, pc) && Marked(op, b.log) && (pc.RecordEvidence? || pc.RecordLedger?)
    ensures OpOk(op, b.(ledger := b.ledger + {LedgerKey(op)}), pc)
  {
    hide LastOn, Copies, Overtaken, Target, MarkerSubject, AppliedSubject, LedgerKey, WellFormed;
  }

  lemma ActKeeps(op: Op, b: Broker, pc: Pc)
    requires KeepsLast(b) && OpOk(op, b, pc)
    ensures OpOk(op, Act(op, b, pc), pc) && KeepsLast(Act(op, b, pc))
  {
    PublishKeepsLast(b, MarkerMsg(op));
    PublishKeepsLast(b, ValueMsg(op));
    PublishKeepsLast(b, AppliedMsg(op));
    if pc.PublishMarker? {
      PublishMarkerKeeps(op, b);
    } else if pc.PublishValue? {
      PublishValueKeeps(op, b);
    } else if pc.PublishApplied? {
      PublishAppliedKeeps(op, b);
    } else if pc.RecordEvidence? || pc.RecordLedger? {
      RecordKeeps(op, b, pc);
    }
    hide LastOn, Copies, Overtaken, Target, MarkerSubject, AppliedSubject, LedgerKey, WellFormed, Publish, LogOk;
  }

  lemma AdvanceKeeps(op: Op, b: Broker, w: Writer)
    requires KeepsLast(b) && OpOk(op, b, w.pc)
    ensures OpOk(op, Act(op, b, w.pc), After(op, b, w))
  {
    hide LastOn, Copies, Target, MarkerSubject, AppliedSubject, LedgerKey, WellFormed, LogOk, KeepsLast;
    hide GetLast, HasMarker;
    hide Publish, MarkerMsg, ValueMsg, AppliedMsg, ScanFinds, Marked;
    if w.pc.PublishMarker? {
      PublishMarkerKeeps(op, b);
    } else if w.pc.PublishValue? {
      PublishValueKeeps(op, b);
    } else {
      ReadsAreRight(op, b, w);
      hide After;
      if w.pc.PublishApplied? {
        PublishAppliedKeeps(op, b);
      } else if w.pc.RecordEvidence? || w.pc.RecordLedger? {
        RecordKeeps(op, b, w.pc);
        FinishedAfter(op, b, w);
      }
    }
  }

  lemma FinishedAfter(op: Op, b: Broker, w: Writer)
    requires w.pc.RecordEvidence? || w.pc.RecordLedger?
    ensures After(op, b, w) == Finished(true)
  {
  }

  /** A writer's own step keeps its invariant, whether the call works, fails before or after its effect,
      is retried, or ends the process. */
  lemma WorkKeeps(op: Op, b: Broker, w: Writer, effect: bool, next: Next)
    requires KeepsLast(b) && OpOk(op, b, w.pc)
    ensures var (b', w') := Worked(op, b, w, effect, next); OpOk(op, b', w'.pc) && KeepsLast(b')
  {
    ActKeeps(op, b, w.pc);
    AdvanceKeeps(op, b, w);
    hide LogOk, After, Act, KeepsLast, WellFormed;
  }

  // ---- whole runs ----

  lemma EvictKeepsLast(b: Broker, dropped: set<nat>)
    requires KeepsLast(b)
    requires forall n :: n in dropped && n < |b.log| ==> LastOn(b.log, b.log[n].subject) != Some(n)
    ensures KeepsLast(b.(retained := b.retained - dropped))
  {
  }

  lemma EnvEvent(w: World, ev: Event, op: Op)
    requires WorldOk(w) && Allowed(w, ev) && op in w.writers && !ev.Start? && !ev.Work?
    ensures EnvStep(op, w.broker, Step(w, ev).broker, w.writers[op].pc)
  {
    hide Harmless, LedgerKey, WorldOk, LastOn, EnvStep, Publish;
    var b, b', pc := w.broker, Step(w, ev).broker, w.writers[op].pc;
    match ev
    case External(msg) => PublishIsEnv(op, b, msg, pc);
    case ExternalLedger(key) => RecordIsEnv(op, b, b', pc);
    case Evict(dropped) => RecordIsEnv(op, b, b', pc);
    case Expire(ids) => ExpireIsEnv(op, b, ids, pc);
  }

  lemma ExpireIsEnv(op: Op, b: Broker, ids: set<string>, pc: Pc)
    requires pc.PublishValue? ==> op.id !in ids
    ensures EnvStep(op, b, b.(window := b.window - ids), pc)
  {
  }

  lemma StepKeepsLast(w: World, ev: Event)
    requires WorldOk(w) && Allowed(w, ev)
    ensures KeepsLast(Step(w, ev).broker)
  {
    match ev
    case Work(op, effect, next) =>
      if op in w.writers {
        hide KeepsLast, OpOk, Worked, LastOn;
        WorkKeeps(op, w.broker, w.writers[op], effect, next);
      }
    case External(msg) => PublishKeepsLast(w.broker, msg);
    case Evict(dropped) => EvictKeepsLast(w.broker, dropped);
    case _ =>
  }

  lemma StepKeepsOp(w: World, ev: Event, op: Op)
    requires WorldOk(w) && Allowed(w, ev) && op in w.writers
    ensures op in Step(w, ev).writers && OpOk(op, Step(w, ev).broker, Step(w, ev).writers[op].pc)
  {
    hide KeepsLast, LogOk, WellFormed;
    var b, pc := w.broker, w.writers[op].pc;
    assert OpOk(op, b, pc);
    if ev.Work? && ev.op in w.writers {
      assert OpOk(ev.op, b, w.writers[ev.op].pc);
      hide WriterOk, Worked, EnvStep;
      if ev.op == op {
        WorkKeeps(op, b, w.writers[op], ev.effect, ev.next);
      } else {
        OtherIsEnv(op, ev.op, b, w.writers[ev.op], ev.effect, ev.next, pc);
        EnvKeeps(op, b, Step(w, ev).broker, pc);
      }
    } else if !ev.Start? && !ev.Work? {
      hide WriterOk, Step, Allowed;
      EnvEvent(w, ev, op);
      EnvKeeps(op, b, Step(w, ev).broker, pc);
      assert Step(w, ev).writers == w.writers by { OnlyWorkersMove(w, ev); }
    }
  }

  lemma OnlyWorkersMove(w: World, ev: Event)
    ensures Step(w, ev).writers.Keys == w.writers.Keys
    ensures !ev.Start? && !ev.Work? ==> Step(w, ev).writers == w.writers
  {
    hide Publish, Worked;
  }

  lemma StepKeeps(w: World, ev: Event)
    requires WorldOk(w) && Allowed(w, ev)
    ensures WorldOk(Step(w, ev))
  {
    StepKeepsLast(w, ev);
    OnlyWorkersMove(w, ev);
    hide KeepsLast, OpOk, Step, Allowed;
    forall op | op in Step(w, ev).writers
      ensures OpOk(op, Step(w, ev).broker, Step(w, ev).writers[op].pc)
    {
      StepKeepsOp(w, ev, op);
    }
  }

  /** Nothing in the stream or the ledger comes from the operation yet. */
  ghost predicate Untouched(op: Op, b: Broker) {
    && (forall n :: 0 <= n < |b.log| ==> Harmless(op, b.log[n]))
    && op.id !in b.window && MarkerId(op) !in b.window && LedgerKey(op) !in b.ledger
  }

  /** Several writers, each owning its idempotency key, over any stream that keeps last messages. */
  ghost predicate Initial(w: World) {
    && KeepsLast(w.broker)
    && (forall op :: op in w.writers ==> WellFormed(op) && Untouched(op, w.broker) && w.writers[op].pc == Idle)
    && (forall op, other :: op in w.writers && other in w.writers && op != other ==>
          op.id != other.id && op.bucket == other.bucket)
  }

  lemma {:induction false} UntouchedLog(op: Op, log: seq<Msg>)
    requires forall n :: 0 <= n < |log| ==> Harmless(op, log[n])
    ensures Copies(op, log) == 0 && LastOn(log, MarkerSubject(op)) == None && LastOn(log, AppliedSubject(op)) == None
  {
    if log != [] {
      UntouchedLog(op, log[..|log| - 1]);
    }
  }

  lemma InitialOk(w: World)
    requires Initial(w)
    ensures WorldOk(w)
  {
    forall op | op in w.writers
      ensures OpOk(op, w.broker, w.writers[op].pc)
    {
      UntouchedLog(op, w.broker.log);
    }
  }

  lemma {:induction false} RunKeeps(w: World, events: seq<Event>)
    requires Initial(w) && AllowedRun(w, events)
    ensures WorldOk(Run(w, events)) && Run(w, events).writers.Keys == w.writers.Keys
  {
    if events == [] {
      InitialOk(w);
    } else {
      var n := |events| - 1;
      var front := events[..n];
      assert forall i :: 0 <= i < n ==> front[..i] == events[..i];
      RunKeeps(w, front);
      hide Step, WorldOk, Allowed, Initial;
      StepKeeps(Run(w, front), events[n]);
      OnlyWorkersMove(Run(w, front), events[n]);
    }
  }

  /** In every run each operation's value is published at most once; once it is, the operation's marker
      exists before the last message of the target. */
  lemma PutIsAtMostOnce(w: World, events: seq<Event>, op: Op)
    requires Initial(w) && AllowedRun(w, events) && op in w.writers
    ensures var log := Run(w, events).broker.log;
            Copies(op, log) <= 1 && (Copies(op, log) == 1 ==> Marked(op, log))
  {
    RunKeeps(w, events);
  }

  lemma OkIsSound(op: Op, b: Broker, pc: Pc)
    requires OpOk(op, b, pc)
    requires pc == Finished(true) || LedgerKey(op) in b.ledger || LastOn(b.log, AppliedSubject(op)).Some?
    ensures Marked(op, b.log) && Overtaken(op, b.log)
  {
    assert Marked(op, b.log) by {
      hide WellFormed, LastOn, Copies, LedgerKey, AppliedSubject, MarkerSubject, Target, MarkerMsg, Marked;
    }
    MarkedIsOvertaken(op, b.log);
  }

  /** In every reachable state an operation reported or recorded as applied was published, or the target
      received some message after the operation's marker. */
  lemma AppliedIsSound(w: World, events: seq<Event>, op: Op)
    requires Initial(w) && AllowedRun(w, events) && op in w.writers
    ensures op in Run(w, events).writers
    ensures var end := Run(w, events);
            var (log, pc) := (end.broker.log, end.writers[op].pc);
            pc == Finished(true) || LedgerKey(op) in end.broker.ledger || LastOn(log, AppliedSubject(op)).Some? ==>
              Marked(op, log) && (Copies(op, log) == 1 || Overtaken(op, log))
  {
    RunKeeps(w, events);
    var end := Run(w, events);
    hide Run, Allowed, KeepsLast, Initial, LastOn, Copies, Overtaken, Marked, OpOk, LedgerKey, AppliedSubject;
    var b, pc := end.broker, end.writers[op].pc;
    if pc == Finished(true) || LedgerKey(op) in b.ledger || LastOn(b.log, AppliedSubject(op)).Some? {
      OkIsSound(op, b, pc);
    }
  }

  // ---- exactly when a check reports a put as applied ----

  /** A writer advancing `n` times, with nobody else moving. */
  function Advanced(op: Op, b: Broker, w: Writer, n: nat): (Broker, Writer)
    decreases n
  {
    if n == 0 then (b, w) else Advanced(op, Act(op, b, w.pc), w.(pc := After(op, b, w)), n - 1)
  }

  /** One advance whose effect and next step are known. */
  lemma Advance1(op: Op, b: Broker, putting: bool, pc: Pc, n: nat, b': Broker, pc': Pc)
    requires Act(op, b, pc) == b' && After(op, b, Writer(pc, putting)) == pc'
    ensures Advanced(op, b, Writer(pc, putting), n + 1) == Advanced(op, b', Writer(pc', putting), n)
  {
    hide Act, After;
  }

  lemma AdvancedNot(op: Op, b: Broker, w: Writer)
    ensures Advanced(op, b, w, 0) == (b, w)
  {
  }

  lemma {:induction false} FinishedStays(op: Op, b: Broker, w: Writer, n: nat)
    requires w.pc.Finished?
    ensures Advanced(op, b, w, n) == (b, w)
    decreases n
  {
    if n > 0 {
      FinishedStays(op, b, w, n - 1);
    }
  }

  lemma RecordedIsReported(op: Op, b: Broker, n: nat)
    ensures Advanced(op, b, Writer(RecordEvidence, false), n + 1).1.pc == Finished(true)
  {
    hide Advanced, LedgerKey;
    var recorded := b.(ledger := b.ledger + {LedgerKey(op)});
    Advance1(op, b, false, RecordEvidence, n, recorded, Finished(true));
    FinishedStays(op, recorded, Writer(Finished(true), false), n);
  }

  /** From the marker check on: the report is whether the target's last message is behind the marker. */
  lemma MarkerCheckIsExact(op: Op, b: Broker)
    requires KeepsLast(b) && LogOk(op, b) && LedgerKey(op) !in b.ledger
    ensures Advanced(op, b, Writer(CheckMarker, false), 4).1.pc == Finished(Marked(op, b.log))
  {
    hide GetLast, LastOn, Copies, Target, MarkerSubject, LedgerKey, HasMarker, ScanFinds, MarkerMsg, KeepsLast, LogOk;
    hide AppliedSubject, AppliedMsg, Advanced;
    MarkerRead(op, b);
    FindingsAreRight(op, b);
    var marker := LastOn(b.log, MarkerSubject(op));
    if marker.Some? {
      TargetReadIsRight(op, b, marker.value);
    }
    assert marker == None ==> !Marked(op, b.log);
    hide Marked;
    if marker.Some? {
      var pc := CheckTarget(marker.value);
      Advance1(op, b, false, CheckMarker, 3, b, pc);
      Advance1(op, b, false, pc, 2, b, if Marked(op, b.log) then RecordEvidence else CheckScan);
      if Marked(op, b.log) {
        RecordedIsReported(op, b, 1);
      } else {
        Advance1(op, b, false, CheckScan, 1, b, Finished(false));
        FinishedStays(op, b, Writer(Finished(false), false), 1);
      }
    } else {
      Advance1(op, b, false, CheckMarker, 3, b, CheckScan);
      Advance1(op, b, false, CheckScan, 2, b, Finished(false));
      FinishedStays(op, b, Writer(Finished(false), false), 2);
    }
  }

  lemma LatestCheckIsExact(op: Op, b: Broker)
    requires KeepsLast(b) && LogOk(op, b) && LedgerKey(op) !in b.ledger
    ensures Advanced(op, b, Writer(CheckLatest, false), 5).1.pc == Finished(Marked(op, b.log))
  {
    var last := GetLast(b, Target(op));
    assert last.Some? ==> last.value < |b.log|;
    hide GetLast, LastOn, Copies, Target, MarkerSubject, AppliedSubject, LedgerKey, HasMarker, MarkerMsg, AppliedMsg;
    hide Marked, Advanced, KeepsLast, ScanFinds, LogOk;
    FindingsAreRight(op, b);
    MarkerCheckIsExact(op, b);
    if last.Some? && b.log[last.value].header == Some(op.id) {
      Advance1(op, b, false, CheckLatest, 4, b, RecordEvidence);
      RecordedIsReported(op, b, 3);
    } else {
      Advance1(op, b, false, CheckLatest, 4, b, CheckMarker);
    }
  }

  lemma CheckIsExact(op: Op, b: Broker)
    requires KeepsLast(b) && LogOk(op, b)
    ensures Advanced(op, b, Writer(CheckLedger, false), 7).1.pc == Finished(Marked(op, b.log))
  {
    hide GetLast, LastOn, Copies, Target, MarkerSubject, AppliedSubject, LedgerKey, HasMarker, MarkerMsg, AppliedMsg;
    hide Marked, Advanced, KeepsLast, ScanFinds;
    assert LedgerKey(op) in b.ledger ==> Marked(op, b.log);
    hide LogOk;
    FindingsAreRight(op, b);
    if LedgerKey(op) in b.ledger {
      Advance1(op, b, false, CheckLedger, 6, b, Finished(true));
      FinishedStays(op, b, Writer(Finished(true), false), 6);
    } else {
      LatestCheckIsExact(op, b);
      Advance1(op, b, false, CheckLedger, 6, b, CheckApplied);
      if HasMarker(b, AppliedSubject(op), AppliedMsg(op).body) {
        Advance1(op, b, false, CheckApplied, 5, b, RecordEvidence);
        RecordedIsReported(op, b, 4);
      } else {
        Advance1(op, b, false, CheckApplied, 5, b, CheckLatest);
      }
    }
  }

  /** In every reachable state a check that runs to its end reports a put as applied if and only if the
      last message of the target is behind the put's marker: its own value, or, as long as that was not
      published, somebody else's message that overtook it. */
  lemma ReportedExactlyWhenPassed(w: World, events: seq<Event>, op: Op)
    requires Initial(w) && AllowedRun(w, events) && op in w.writers
    ensures var b := Run(w, events).broker;
            && Advanced(op, b, Writer(CheckLedger, false), 7).1.pc == Finished(Marked(op, b.log))
            && (Copies(op, b.log) == 1 ==> Marked(op, b.log))
            && (Marked(op, b.log) && Copies(op, b.log) == 0 ==> Overtaken(op, b.log))
  {
    RunKeeps(w, events);
    var b := Run(w, events).broker;
    hide Run, Allowed, Initial, Advanced;
    CheckIsExact(op, b);
    if Marked(op, b.log) {
      MarkedIsOvertaken(op, b.log);
    }
  }
}
