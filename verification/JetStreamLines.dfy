/** Publishing JSON lines over JetStream (eventfs-transport/src/storage/nats/streams.rs, ledger.rs), as steps
    of many publishers over one stream. Each line has its own message id, so a publish that was cut off
    resumes at the first line that is missing. */
module JetStreamLines {
  import opened Text
  import opened Ledger

  datatype Msg = Msg(subject: string, payload: string, msgId: Option<string>)

  /** `retained` holds the positions still stored, `window` the message ids still suppressed. */
  datatype Broker = Broker(log: seq<Msg>, retained: set<nat>, window: set<string>, ledger: set<string>)

  function Publish(b: Broker, msg: Msg): Broker {
    if msg.msgId.Some? && msg.msgId.value in b.window then b
    else b.(log := b.log + [msg], retained := b.retained + {|b.log|},
            window := b.window + if msg.msgId.Some? then {msg.msgId.value} else {})
  }

  /** One publish call: the validated lines of its payload under an idempotency seed. */
  datatype Batch = Batch(stream: string, subject: string, seed: string, lines: seq<string>)

  function LineId(batch: Batch, i: nat): string { batch.seed + ":" + Decimal(i) }

  function LineKey(batch: Batch, i: nat): string {
    EffectKey(LineEffect(batch.stream, batch.subject, LineId(batch, i)))
  }

  function LineMsg(batch: Batch, i: nat): Msg
    requires i < |batch.lines|
  {
    Msg(batch.subject, batch.lines[i], Some(LineId(batch, i)))
  }

  // ---- one publisher ----

  /** `Check`, `Scan` and `Found` are `line_applied`; `Finished` carries the number of applied lines. */
  datatype Pc =
    | Idle
    | Check(i: nat) | Scan(i: nat) | Found(i: nat)
    | Send(i: nat) | Record(i: nat)
    | Finished(applied: nat)

  /** `publishing` tells `publish_json_lines` from the applied and applied-prefix queries. */
  datatype Publisher = Publisher(pc: Pc, publishing: bool)

  predicate ScanFinds(batch: Batch, b: Broker, i: nat) {
    exists n :: 0 <= n < |b.log| && n in b.retained && b.log[n].subject == batch.subject &&
      b.log[n].msgId == Some(LineId(batch, i))
  }

  predicate LineApplied(batch: Batch, b: Broker, i: nat) {
    LineKey(batch, i) in b.ledger || ScanFinds(batch, b, i)
  }

  function Act(batch: Batch, b: Broker, pc: Pc): Broker {
    match pc
    case Send(i) => if i < |batch.lines| then Publish(b, LineMsg(batch, i)) else b
    case Record(i) => b.(ledger := b.ledger + {LineKey(batch, i)})
    case Found(i) => b.(ledger := b.ledger + {LineKey(batch, i)})
    case _ => b
  }

  /** The next line, or the end of the loop. */
  function At(batch: Batch, i: nat): Pc {
    if i < |batch.lines| then Check(i) else Finished(i)
  }

  function After(batch: Batch, b: Broker, p: Publisher): Pc {
    match p.pc
    case Check(i) => if LineKey(batch, i) in b.ledger then At(batch, i + 1) else Scan(i)
    case Scan(i) => if ScanFinds(batch, b, i) then Found(i) else if p.publishing then Send(i) else Finished(i)
    case Found(i) => At(batch, i + 1)
    case Send(i) => Record(i)
    case Record(i) => At(batch, i + 1)
    case Idle => Idle
    case Finished(n) => Finished(n)
  }

  datatype Next = Advance | Retry | Stop

  function Worked(batch: Batch, b: Broker, p: Publisher, effect: bool, next: Next): (Broker, Publisher) {
    (if effect || next.Advance? then Act(batch, b, p.pc) else b,
     match next
     case Advance => p.(pc := After(batch, b, p))
     case Retry => p
     case Stop => p.(pc := Idle))
  }

  /** `publish_json_lines_applied_prefix` on the state it reads. */
  method AppliedPrefix(batch: Batch, b: Broker) returns (applied: nat)
    ensures applied <= |batch.lines|
    ensures forall i :: 0 <= i < applied ==> LineApplied(batch, b, i)
    ensures applied < |batch.lines| ==> !LineApplied(batch, b, applied)
  {
    applied := 0;
    for index := 0 to |batch.lines|
      invariant applied == index
      invariant forall i :: 0 <= i < applied ==> LineApplied(batch, b, i)
    {
      if LineApplied(batch, b, index) {
        applied := applied + 1;
      } else {
        break;
      }
    }
  }

  /** `publish_json_lines_applied`. */
  method AllApplied(batch: Batch, b: Broker) returns (all: bool)
    ensures all <==> forall i :: 0 <= i < |batch.lines| ==> LineApplied(batch, b, i)
  {
    for index := 0 to |batch.lines|
      invariant forall i :: 0 <= i < index ==> LineApplied(batch, b, i)
    {
      if !LineApplied(batch, b, index) {
        return false;
      }
    }
    return true;
  }

  // ---- all publishers of a stream ----

  datatype World = World(broker: Broker, publishers: map<Batch, Publisher>)

  datatype Event =
    | Start(batch: Batch, publishing: bool)
    | Work(batch: Batch, effect: bool, next: Next)
    | External(msg: Msg)
    | ExternalLedger(key: string)
    | Evict(dropped: set<nat>)
    | Expire(ids: set<string>)

  function Step(w: World, ev: Event): World {
    match ev
    case Start(batch, publishing) =>
      if batch in w.publishers then w.(publishers := w.publishers[batch := Publisher(At(batch, 0), publishing)]) else w
    case Work(batch, effect, next) =>
      if batch !in w.publishers then w
      else
        var (b, p) := Worked(batch, w.broker, w.publishers[batch], effect, next);
        World(b, w.publishers[batch := p])
    case External(msg) => w.(broker := Publish(w.broker, msg))
    case ExternalLedger(key) => w.(broker := w.broker.(ledger := w.broker.ledger + {key}))
    case Evict(dropped) => w.(broker := w.broker.(retained := w.broker.retained - dropped))
    case Expire(ids) => w.(broker := w.broker.(window := w.broker.window - ids))
  }

  /** A message id of the batch. */
  predicate Owns(batch: Batch, msgId: Option<string>) {
    msgId.Some? && exists i :: 0 <= i < |batch.lines| && msgId.value == LineId(batch, i)
  }

  predicate OwnsKey(batch: Batch, key: string) {
    exists i :: 0 <= i < |batch.lines| && key == LineKey(batch, i)
  }

  /** A line may leave the stream once the ledger knows it. */
  ghost predicate Evictable(batch: Batch, b: Broker, dropped: set<nat>) {
    forall n, i: nat :: n in dropped && n < |b.log| && i < |batch.lines| && b.log[n].msgId == Some(LineId(batch, i)) ==>
      LineKey(batch, i) in b.ledger
  }

  ghost predicate Allowed(w: World, ev: Event) {
    match ev
    case External(msg) => forall batch :: batch in w.publishers ==> !Owns(batch, msg.msgId)
    case ExternalLedger(key) => forall batch :: batch in w.publishers ==> !OwnsKey(batch, key)
    case Evict(dropped) => forall batch :: batch in w.publishers ==> Evictable(batch, w.broker, dropped)
    case Expire(ids) => forall batch :: batch in w.publishers && w.publishers[batch].pc.Send? ==>
      LineId(batch, w.publishers[batch].pc.i) !in ids
    case _ => true
  }

  function Run(w: World, events: seq<Event>): World {
    if events == [] then w else Step(Run(w, events[..|events| - 1]), events[|events| - 1])
  }

  ghost predicate AllowedRun(w: World, events: seq<Event>) {
    forall n :: 0 <= n < |events| ==> Allowed(Run(w, events[..n]), events[n])
  }

  // ---- what is kept ----

  /** The batch's messages in stream order. */
  function Sent(batch: Batch, log: seq<Msg>): seq<Msg> {
    if log == [] then []
    else
      var last := log[|log| - 1];
      Sent(batch, log[..|log| - 1]) + if Owns(batch, last.msgId) then [last] else []
  }

  function FirstLines(batch: Batch, k: nat): (msgs: seq<Msg>)
    requires k <= |batch.lines|
    ensures |msgs| == k && forall i :: 0 <= i < k ==> msgs[i] == LineMsg(batch, i)
  {
    seq(k, i requires 0 <= i < k => LineMsg(batch, i))
  }

  ghost predicate LogOk(batch: Batch, b: Broker) {
    var k := |Sent(batch, b.log)|;
    && k <= |batch.lines| && Sent(batch, b.log) == FirstLines(batch, k)
    && (forall i: nat :: i < |batch.lines| && LineId(batch, i) in b.window ==> i < k)
    && (forall i: nat :: i < |batch.lines| && LineKey(batch, i) in b.ledger ==> i < k)
    && (forall n: nat, i: nat :: n < |b.log| && i < |batch.lines| && b.log[n].msgId == Some(LineId(batch, i)) ==>
          n in b.retained || LineKey(batch, i) in b.ledger)
  }

  ghost predicate PublisherOk(batch: Batch, b: Broker, pc: Pc) {
    var k := |Sent(batch, b.log)|;
    match pc
    case Check(i) => i <= k && i < |batch.lines|
    case Scan(i) => i <= k && i < |batch.lines| && LineKey(batch, i) !in b.ledger
    case Found(i) => i < k
    case Send(i) => i < |batch.lines| && (k == i || (k == i + 1 && LineId(batch, i) in b.window))
    case Record(i) => i < k
    case Finished(n) => n == k
    case Idle => true
  }

  ghost predicate BatchOk(batch: Batch, b: Broker, pc: Pc) {
    LogOk(batch, b) && PublisherOk(batch, b, pc)
  }

  /** A publish only finishes with every line applied. */
  predicate FinishOk(batch: Batch, p: Publisher) {
    p.pc.Finished? && p.publishing ==> p.pc.applied == |batch.lines|
  }

  ghost predicate Apart(publishers: map<Batch, Publisher>) {
    forall batch, other :: batch in publishers && other in publishers && batch != other ==> batch.seed != other.seed
  }

  ghost predicate WorldOk(w: World) {
    Apart(w.publishers) && forall batch :: batch in w.publishers ==>
      BatchOk(batch, w.broker, w.publishers[batch].pc) && FinishOk(batch, w.publishers[batch])
  }

  // ---- ids are apart ----

  lemma IdParts(batch: Batch, i: nat)
    ensures Split(LineId(batch, i), ':') == Split(batch.seed, ':') + [Decimal(i)]
  {
    NoColon(i);
    SplitSolid(Decimal(i), ':');
    SplitAppend(batch.seed, Decimal(i), ':');
  }

  lemma IdsDiffer(batch: Batch, i: nat, other: Batch, j: nat)
    requires LineId(batch, i) == LineId(other, j)
    ensures batch.seed == other.seed && i == j
  {
    hide LineId, Split;
    IdParts(batch, i);
    IdParts(other, j);
    var a, b := Split(batch.seed, ':'), Split(other.seed, ':');
    assert (a + [Decimal(i)])[..|a|] == a && (b + [Decimal(j)])[..|b|] == b;
    assert (a + [Decimal(i)])[|a|] == (b + [Decimal(j)])[|b|];
    DecimalInjective(i, j);
    JoinSplit(batch.seed, ':');
    JoinSplit(other.seed, ':');
  }

  lemma KeysDiffer(batch: Batch, i: nat, other: Batch, j: nat)
    requires LineKey(batch, i) == LineKey(other, j)
    ensures batch.seed == other.seed && i == j
  {
    EffectKeyInjective(LineEffect(batch.stream, batch.subject, LineId(batch, i)),
      LineEffect(other.stream, other.subject, LineId(other, j)));
    IdsDiffer(batch, i, other, j);
  }

  lemma OtherIdsNotOwned(batch: Batch, other: Batch, j: nat)
    requires batch.seed != other.seed
    ensures !Owns(batch, Some(LineId(other, j))) && !OwnsKey(batch, LineKey(other, j))
  {
    forall i: nat
      ensures LineId(batch, i) != LineId(other, j) && LineKey(batch, i) != LineKey(other, j)
    {
      if LineId(batch, i) == LineId(other, j) {
        IdsDiffer(batch, i, other, j);
      }
      if LineKey(batch, i) == LineKey(other, j) {
        KeysDiffer(batch, i, other, j);
      }
    }
  }

  // ---- the log grows ----

  lemma SentAppend(batch: Batch, log: seq<Msg>, msg: Msg)
    ensures Sent(batch, log + [msg]) == Sent(batch, log) + if Owns(batch, msg.msgId) then [msg] else []
  {
    assert (log + [msg])[..|log|] == log;
  }

  lemma {:induction false} SentIsLogged(batch: Batch, log: seq<Msg>, j: nat) returns (n: nat)
    requires j < |Sent(batch, log)|
    ensures n < |log| && log[n] == Sent(batch, log)[j]
  {
    var front := log[..|log| - 1];
    if j < |Sent(batch, front)| {
      n := SentIsLogged(batch, front, j);
    } else {
      n := |log| - 1;
    }
  }

  /** A line counts as applied exactly when it was published. */
  lemma AppliedIsSent(batch: Batch, b: Broker, i: nat)
    requires LogOk(batch, b) && i < |batch.lines|
    ensures LineApplied(batch, b, i) <==> i < |Sent(batch, b.log)|
  {
    if i < |Sent(batch, b.log)| {
      var n := SentIsLogged(batch, b.log, i);
      assert b.log[n] == LineMsg(batch, i);
      assert n in b.retained || LineKey(batch, i) in b.ledger;
    }
    if ScanFinds(batch, b, i) {
      var n: nat :| n < |b.log| && n in b.retained && b.log[n].subject == batch.subject &&
        b.log[n].msgId == Some(LineId(batch, i));
      LoggedIsSent(batch, b.log, n, i);
    }
  }

  lemma LoggedIsSent(batch: Batch, log: seq<Msg>, n: nat, i: nat)
    requires n < |log| && i < |batch.lines| && log[n].msgId == Some(LineId(batch, i))
    requires |Sent(batch, log)| <= |batch.lines| && Sent(batch, log) == FirstLines(batch, |Sent(batch, log)|)
    ensures i < |Sent(batch, log)|
  {
    var all := Sent(batch, log);
    LoggedIsIn(batch, log, n);
    var j :| 0 <= j < |all| && all[j] == log[n];
    assert all[j] == LineMsg(batch, j);
    IdsDiffer(batch, i, batch, j);
  }

  lemma {:induction false} LoggedIsIn(batch: Batch, log: seq<Msg>, n: nat)
    requires n < |log| && Owns(batch, log[n].msgId)
    ensures log[n] in Sent(batch, log)
  {
    var front := log[..|log| - 1];
    if n < |front| {
      LoggedIsIn(batch, front, n);
    }
  }

  // ---- steps of others ----

  ghost predicate EnvStep(batch: Batch, b: Broker, b': Broker, pc: Pc) {
    && (b'.log == b.log || (|b'.log| == |b.log| + 1 && b'.log[..|b.log|] == b.log &&
      !Owns(batch, b'.log[|b.log|].msgId)))
    && b.ledger <= b'.ledger
    && (forall i: nat :: i < |batch.lines| && LineKey(batch, i) in b'.ledger ==> LineKey(batch, i) in b.ledger)
    && (forall i: nat :: i < |batch.lines| && LineId(batch, i) in b'.window ==> LineId(batch, i) in b.window)
    && (pc.Send? && LineId(batch, pc.i) in b.window ==> LineId(batch, pc.i) in b'.window)
    && (forall n: nat, i: nat ::
          n < |b.log| && i < |batch.lines| && b.log[n].msgId == Some(LineId(batch, i)) && n in b.retained ==>
            n in b'.retained || LineKey(batch, i) in b.ledger)
  }

  lemma EnvKeeps(batch: Batch, b: Broker, b': Broker, pc: Pc)
    requires BatchOk(batch, b, pc) && EnvStep(batch, b, b', pc)
    ensures BatchOk(batch, b', pc)
  {
    if b'.log != b.log {
      var msg := b'.log[|b.log|];
      assert b'.log == b.log + [msg];
      SentAppend(batch, b.log, msg);
      forall n: nat, i: nat | n < |b'.log| && i < |batch.lines| && b'.log[n].msgId == Some(LineId(batch, i))
        ensures n in b'.retained || LineKey(batch, i) in b'.ledger
      {
        assert n < |b.log| && b.log[n] == b'.log[n];
      }
      hide Sent, LineId, LineKey, FirstLines;
    } else {
      hide Sent, LineId, LineKey, FirstLines;
    }
  }

  lemma PublishIsEnv(batch: Batch, b: Broker, msg: Msg, pc: Pc)
    requires !Owns(batch, msg.msgId)
    ensures EnvStep(batch, b, Publish(b, msg), pc)
  {
    hide LineId, LineKey;
  }

  lemma OtherIsEnv(batch: Batch, other: Batch, b: Broker, p: Publisher, effect: bool, next: Next, pc: Pc)
    requires batch.seed != other.seed
    ensures EnvStep(batch, b, Worked(other, b, p, effect, next).0, pc)
  {
    hide LineId, LineKey, After, Publish;
    if p.pc.Send? && p.pc.i < |other.lines| {
      OtherIdsNotOwned(batch, other, p.pc.i);
      PublishIsEnv(batch, b, LineMsg(other, p.pc.i), pc);
    } else if p.pc.Record? || p.pc.Found? {
      OtherIdsNotOwned(batch, other, p.pc.i);
    }
  }

  // ---- the batch's own steps ----

  lemma SendKeeps(batch: Batch, b: Broker, i: nat)
    requires BatchOk(batch, b, Send(i))
    ensures var b' := Publish(b, LineMsg(batch, i));
            BatchOk(batch, b', Send(i)) && BatchOk(batch, b', Record(i))
  {
    var msg := LineMsg(batch, i);
    if LineId(batch, i) !in b.window {
      var b' := Publish(b, msg);
      assert Owns(batch, msg.msgId);
      SentAppend(batch, b.log, msg);
      NextLine(batch, b.log, i);
      SendRetains(batch, b, i);
      SendWindow(batch, b, i);
      hide Sent, LineId, LineKey, FirstLines, Owns, Publish, LineMsg;
    }
  }

  lemma SendRetains(batch: Batch, b: Broker, i: nat)
    requires BatchOk(batch, b, Send(i)) && LineId(batch, i) !in b.window
    ensures var b' := Publish(b, LineMsg(batch, i));
            && b'.log == b.log + [LineMsg(batch, i)] && b'.ledger == b.ledger
            && forall n: nat, j: nat ::
                 n < |b'.log| && j < |batch.lines| && b'.log[n].msgId == Some(LineId(batch, j)) ==>
                   n in b'.retained || LineKey(batch, j) in b'.ledger
  {
    hide Sent, LineKey, FirstLines;
    var b' := Publish(b, LineMsg(batch, i));
    forall n: nat, j: nat | n < |b'.log| && j < |batch.lines| && b'.log[n].msgId == Some(LineId(batch, j))
      ensures n in b'.retained || LineKey(batch, j) in b'.ledger
    {
      if n < |b.log| {
        assert b.log[n] == b'.log[n];
      }
    }
  }

  lemma SendWindow(batch: Batch, b: Broker, i: nat)
    requires BatchOk(batch, b, Send(i)) && LineId(batch, i) !in b.window
    ensures var b' := Publish(b, LineMsg(batch, i));
            LineId(batch, i) in b'.window && forall j: nat :: j < |batch.lines| && LineId(batch, j) in b'.window ==>
              j <= i
  {
    hide Sent, LineKey, FirstLines;
    var b' := Publish(b, LineMsg(batch, i));
    forall j: nat | j < |batch.lines| && LineId(batch, j) in b'.window
      ensures j <= i
    {
      if LineId(batch, j) == LineId(batch, i) {
        IdsDiffer(batch, j, batch, i);
      }
    }
  }

  lemma NextLine(batch: Batch, log: seq<Msg>, i: nat)
    requires i < |batch.lines| && |Sent(batch, log)| == i && Sent(batch, log) == FirstLines(batch, i)
    ensures Sent(batch, log) + [LineMsg(batch, i)] == FirstLines(batch, i + 1)
  {
  }

  lemma RecordKeeps(batch: Batch, b: Broker, i: nat, pc: Pc)
    requires BatchOk(batch, b, pc) && i < |Sent(batch, b.log)| && (pc.Scan? ==> pc.i != i)
    ensures BatchOk(batch, b.(ledger := b.ledger + {LineKey(batch, i)}), pc)
  {
    forall j: nat | LineKey(batch, j) == LineKey(batch, i)
      ensures j == i
    {
      KeysDiffer(batch, j, batch, i);
    }
    hide Sent, LineId, LineKey, FirstLines;
  }

  lemma AtOk(batch: Batch, b: Broker, i: nat)
    requires LogOk(batch, b) && i <= |Sent(batch, b.log)|
    ensures PublisherOk(batch, b, At(batch, i))
  {
  }

  lemma AdvanceKeeps(batch: Batch, b: Broker, p: Publisher)
    requires BatchOk(batch, b, p.pc)
    ensures BatchOk(batch, Act(batch, b, p.pc), After(batch, b, p))
  {
    hide Sent, FirstLines, LineKey, LineId, ScanFinds;
    match p.pc
    case Check(i) =>
      if LineKey(batch, i) in b.ledger {
        AppliedIsSent(batch, b, i);
        AtOk(batch, b, i + 1);
      }
    case Scan(i) => AppliedIsSent(batch, b, i);
    case Found(i) =>
      RecordKeeps(batch, b, i, Idle);
      AtOk(batch, Act(batch, b, p.pc), i + 1);
    case Send(i) => SendKeeps(batch, b, i);
    case Record(i) =>
      RecordKeeps(batch, b, i, Idle);
      AtOk(batch, Act(batch, b, p.pc), i + 1);
    case Idle =>
    case Finished(_) =>
  }

  lemma ActKeeps(batch: Batch, b: Broker, pc: Pc)
    requires BatchOk(batch, b, pc)
    ensures BatchOk(batch, Act(batch, b, pc), pc)
  {
    hide LogOk;
    match pc
    case Send(i) => SendKeeps(batch, b, i);
    case Found(i) => RecordKeeps(batch, b, i, pc);
    case Record(i) => RecordKeeps(batch, b, i, pc);
    case _ =>
  }

  lemma WorkKeeps(batch: Batch, b: Broker, p: Publisher, effect: bool, next: Next)
    requires BatchOk(batch, b, p.pc)
    ensures var (b', p') := Worked(batch, b, p, effect, next); BatchOk(batch, b', p'.pc)
  {
    ActKeeps(batch, b, p.pc);
    AdvanceKeeps(batch, b, p);
    hide LogOk, Act, After;
  }

  lemma WorkFinishes(batch: Batch, b: Broker, p: Publisher, effect: bool, next: Next)
    requires BatchOk(batch, b, p.pc) && FinishOk(batch, p)
    ensures FinishOk(batch, Worked(batch, b, p, effect, next).1)
  {
    hide Sent, FirstLines, LineKey, LineId, Act;
  }

  // ---- whole runs ----

  lemma EnvEvent(w: World, ev: Event, batch: Batch)
    requires Allowed(w, ev) && batch in w.publishers && !ev.Start? && !ev.Work?
    ensures EnvStep(batch, w.broker, Step(w, ev).broker, w.publishers[batch].pc)
  {
    hide Publish, LineId, LineKey;
    match ev
    case External(msg) => PublishIsEnv(batch, w.broker, msg, w.publishers[batch].pc);
    case ExternalLedger(key) => assert !OwnsKey(batch, key);
    case Evict(dropped) => assert Evictable(batch, w.broker, dropped);
    case Expire(ids) =>
  }

  lemma OnlyWorkersMove(w: World, ev: Event)
    ensures Step(w, ev).publishers.Keys == w.publishers.Keys
    ensures !ev.Start? && !ev.Work? ==> Step(w, ev).publishers == w.publishers
  {
    hide Publish, Worked, At;
  }

  lemma StepKeepsBatch(w: World, ev: Event, batch: Batch)
    requires WorldOk(w) && Allowed(w, ev) && batch in w.publishers
    ensures batch in Step(w, ev).publishers && BatchOk(batch, Step(w, ev).broker, Step(w, ev).publishers[batch].pc)
    ensures FinishOk(batch, Step(w, ev).publishers[batch])
  {
    hide LogOk;
    var b, pc := w.broker, w.publishers[batch].pc;
    assert BatchOk(batch, b, pc);
    if ev.Start? {
      AtOk(batch, b, 0);
    } else if ev.Work? {
      hide PublisherOk, Worked, EnvStep;
      if ev.batch == batch {
        WorkKeeps(batch, b, w.publishers[batch], ev.effect, ev.next);
        WorkFinishes(batch, b, w.publishers[batch], ev.effect, ev.next);
      } else if ev.batch in w.publishers {
        OtherIsEnv(batch, ev.batch, b, w.publishers[ev.batch], ev.effect, ev.next, pc);
        EnvKeeps(batch, b, Step(w, ev).broker, pc);
      }
    } else {
      hide PublisherOk, Step, Allowed;
      EnvEvent(w, ev, batch);
      EnvKeeps(batch, b, Step(w, ev).broker, pc);
      OnlyWorkersMove(w, ev);
    }
  }

  lemma StepKeeps(w: World, ev: Event)
    requires WorldOk(w) && Allowed(w, ev)
    ensures WorldOk(Step(w, ev))
  {
    OnlyWorkersMove(w, ev);
    hide BatchOk, Step, Allowed, FinishOk;
    forall batch | batch in Step(w, ev).publishers
      ensures BatchOk(batch, Step(w, ev).broker, Step(w, ev).publishers[batch].pc) &&
              FinishOk(batch, Step(w, ev).publishers[batch])
    {
      StepKeepsBatch(w, ev, batch);
    }
  }

  /** Several batches with seeds of their own, none of which left anything in the stream yet. */
  ghost predicate Initial(w: World) {
    && Apart(w.publishers)
    && forall batch :: batch in w.publishers ==>
         && w.publishers[batch].pc == Idle
         && (forall n :: 0 <= n < |w.broker.log| ==> !Owns(batch, w.broker.log[n].msgId))
         && (forall i: nat :: i < |batch.lines| ==>
               LineId(batch, i) !in w.broker.window && LineKey(batch, i) !in w.broker.ledger)
  }

  lemma {:induction false} NothingSent(batch: Batch, log: seq<Msg>)
    requires forall n :: 0 <= n < |log| ==> !Owns(batch, log[n].msgId)
    ensures Sent(batch, log) == []
  {
    if log != [] {
      NothingSent(batch, log[..|log| - 1]);
    }
  }

  lemma InitialOk(w: World)
    requires Initial(w)
    ensures WorldOk(w)
  {
    forall batch | batch in w.publishers
      ensures BatchOk(batch, w.broker, w.publishers[batch].pc)
    {
      NothingSent(batch, w.broker.log);
    }
  }

  lemma {:induction false} RunKeeps(w: World, events: seq<Event>)
    requires Initial(w) && AllowedRun(w, events)
    ensures WorldOk(Run(w, events)) && Run(w, events).publishers.Keys == w.publishers.Keys
  {
    if events == [] {
      InitialOk(w);
    } else {
      var n := |events| - 1;
      var front := events[..n];
      assert forall i :: 0 <= i < n ==> front[..i] == events[..i];
      RunKeeps(w, front);
      hide Step, WorldOk, Allowed, Initial;
      StepKeeps(Run(w, front), events[n]);
      OnlyWorkersMove(Run(w, front), events[n]);
    }
  }

  /** In every run, at every crash point, the messages of a batch in the stream are its first lines, in
      order and each once; a line is reported applied exactly when it is among them. */
  lemma PublishResumesExactly(w: World, events: seq<Event>, batch: Batch)
    requires Initial(w) && AllowedRun(w, events) && batch in w.publishers
    ensures var b := Run(w, events).broker; var k := |Sent(batch, b.log)|;
            && k <= |batch.lines| && Sent(batch, b.log) == FirstLines(batch, k)
            && (forall i: nat :: i < k ==>
                  Sent(batch, b.log)[i] == Msg(batch.subject, batch.lines[i], Some(batch.seed + ":" + Decimal(i))))
            && forall i: nat :: i < |batch.lines| ==> (LineApplied(batch, b, i) <==> i < k)
  {
    RunKeeps(w, events);
    var b := Run(w, events).broker;
    hide LineApplied, Run, Initial, Allowed;
    assert LogOk(batch, b);
    forall i: nat | i < |batch.lines|
      ensures LineApplied(batch, b, i) <==> i < |Sent(batch, b.log)|
    {
      AppliedIsSent(batch, b, i);
    }
  }

  /** A publish or query that finished reports the number of published lines: a publish all of them. */
  lemma FinishedIsExact(w: World, events: seq<Event>, batch: Batch)
    requires Initial(w) && AllowedRun(w, events) && batch in w.publishers
    ensures var end := Run(w, events);
            batch in end.publishers &&
            (end.publishers[batch].pc.Finished? ==>
               && end.publishers[batch].pc.applied == |Sent(batch, end.broker.log)|
               && (end.publishers[batch].publishing ==>
                     Sent(batch, end.broker.log) == FirstLines(batch, |batch.lines|)))
  {
    hide Run, AllowedRun, Initial, Sent, FirstLines, LineKey, LineId;
    RunKeeps(w, events);
    var end := Run(w, events);
    assert BatchOk(batch, end.broker, end.publishers[batch].pc) && FinishOk(batch, end.publishers[batch]);
  }

  /** The two queries, asked in any reachable state: the prefix is the number of published lines, and
      everything is applied exactly when that prefix is complete. */
  method Query(w: World, ghost events: seq<Event>, batch: Batch, b: Broker) returns (prefix: nat, all: bool)
    requires Initial(w) && AllowedRun(w, events) && batch in w.publishers && b == Run(w, events).broker
    ensures prefix == |Sent(batch, b.log)|
    ensures all <==> |Sent(batch, b.log)| == |batch.lines|
  {
    PublishResumesExactly(w, events, batch);
    hide LineApplied, Run, Initial, Allowed;
    ghost var k: nat := |Sent(batch, b.log)|;
    assert k < |batch.lines| ==> !LineApplied(batch, b, k);
    prefix := AppliedPrefix(batch, b);
    all := AllApplied(batch, b);
  }

  // ---- a publish that is left alone ----

  /** A publisher advancing `n` times, with nobody else moving. */
  function Advanced(batch: Batch, b: Broker, p: Publisher, n: nat): (Broker, Publisher)
    decreases n
  {
    if n == 0 then (b, p) else Advanced(batch, Act(batch, b, p.pc), p.(pc := After(batch, b, p)), n - 1)
  }

  lemma {:induction false} AdvancedMore(batch: Batch, b: Broker, p: Publisher, n: nat, more: nat)
    ensures Advanced(batch, b, p, n + more) ==
            Advanced(batch, Advanced(batch, b, p, n).0, Advanced(batch, b, p, n).1, more)
    decreases n
  {
    if n > 0 {
      AdvancedMore(batch, Act(batch, b, p.pc), p.(pc := After(batch, b, p)), n - 1, more);
    }
  }

  lemma {:induction false} AdvancedKeeps(batch: Batch, b: Broker, p: Publisher, n: nat)
    requires BatchOk(batch, b, p.pc)
    ensures var (b', p') := Advanced(batch, b, p, n); BatchOk(batch, b', p'.pc) && p'.publishing == p.publishing
    decreases n
  {
    hide BatchOk, Act, After;
    if n > 0 {
      AdvanceKeeps(batch, b, p);
      AdvancedKeeps(batch, Act(batch, b, p.pc), p.(pc := After(batch, b, p)), n - 1);
    }
  }

  /** One line: at most a check, a scan, a send and a record. */
  lemma LineLeads(batch: Batch, b: Broker, i: nat) returns (n: nat)
    ensures Advanced(batch, b, Publisher(Check(i), true), n).1 == Publisher(At(batch, i + 1), true)
  {
    hide LineKey, LineId, ScanFinds, Publish, At;
    var next := Publisher(At(batch, i + 1), true);
    if LineKey(batch, i) in b.ledger {
      n := 1;
      assert Advanced(batch, b, next, 0).1 == next;
    } else {
      var p := Publisher(if ScanFinds(batch, b, i) then Found(i) else Send(i), true);
      var b1 := Act(batch, b, p.pc);
      n := if p.pc.Found? then 3 else 4;
      if p.pc.Send? {
        assert Advanced(batch, Act(batch, b1, Record(i)), next, 0).1 == next;
        assert Advanced(batch, b1, Publisher(Record(i), true), 1).1 == next;
        assert Advanced(batch, b, p, 2).1 == next;
      } else {
        assert Advanced(batch, b1, next, 0).1 == next;
        assert Advanced(batch, b, p, 1).1 == next;
      }
      assert Advanced(batch, b, Publisher(Scan(i), true), n - 1).1 == next;
    }
  }

  lemma {:induction false} LinesLead(batch: Batch, b: Broker, i: nat) returns (n: nat)
    requires i <= |batch.lines|
    ensures Advanced(batch, b, Publisher(At(batch, i), true), n).1 == Publisher(Finished(|batch.lines|), true)
    decreases |batch.lines| - i
  {
    hide Advanced, Act, After;
    if i == |batch.lines| {
      n := 0;
      AdvancedNot(batch, b, Publisher(Finished(i), true));
    } else {
      n := LineLeads(batch, b, i);
      var b1 := Advanced(batch, b, Publisher(Check(i), true), n).0;
      var more := LinesLead(batch, b1, i + 1);
      AdvancedMore(batch, b, Publisher(Check(i), true), n, more);
      n := n + more;
    }
  }

  lemma AdvancedNot(batch: Batch, b: Broker, p: Publisher)
    ensures Advanced(batch, b, p, 0) == (b, p)
  {
  }

  /** In every reachable state a publish that is then left alone ends with every line in the stream, once and in
      order, whatever was published of it before. */
  lemma PublishEnds(w: World, events: seq<Event>, batch: Batch) returns (n: nat)
    requires Initial(w) && AllowedRun(w, events) && batch in w.publishers
    ensures var (b', p) := Advanced(batch, Run(w, events).broker, Publisher(At(batch, 0), true), n);
            && p.pc == Finished(|batch.lines|) && |Sent(batch, b'.log)| == |batch.lines|
            && forall i: nat :: i < |batch.lines| ==>
                 Sent(batch, b'.log)[i] == Msg(batch.subject, batch.lines[i], Some(batch.seed + ":" + Decimal(i)))
  {
    RunKeeps(w, events);
    var b := Run(w, events).broker;
    assert BatchOk(batch, b, Run(w, events).publishers[batch].pc);
    AtOk(batch, b, 0);
    hide Run, Initial, Allowed, Advanced, At, Sent, LineKey;
    n := LinesLead(batch, b, 0);
    AdvancedKeeps(batch, b, Publisher(At(batch, 0), true), n);
  }
}
