/** What the idempotent KV put leaves in the stream: the bytes, header and subject of every message that
    belongs to an operation, spelled out, and that a put left alone always comes to its end. */
module JetStreamPut {
  import opened Text
  import opened FileNames
  import opened Paths
  import opened JetStreamKv

  // ---- what every message of an operation looks like ----

  /** A message under the operation's id or on one of its markers is exactly what the operation publishes. */
  ghost predicate Belongs(op: Op, msg: Msg) {
    && (msg.header == Some(op.id) ==>
          msg.subject == "$KV." + op.bucket + "." + op.key && msg.body == Value(op.bytes) && msg.msgId == Some(op.id))
    && (msg.subject == "$KV." + op.bucket + "." + ("__eventfs_writeback." + Hex(Utf8(op.id))) ==>
          msg.header == None && msg.body == Marker("kv-writeback-marker", op.key, op.id))
    && (msg.subject == "$KV." + op.bucket + "." + ("__eventfs_applied." + Hex(Utf8(op.id))) ==>
          msg.header == None && msg.body == Marker("kv-applied-marker", op.key, op.id))
  }

  ghost predicate LogBelongs(w: World) {
    forall op, n: nat :: op in w.writers && n < |w.broker.log| ==> Belongs(op, w.broker.log[n])
  }

  lemma HarmlessBelongs(op: Op, msg: Msg)
    requires Harmless(op, msg)
    ensures Belongs(op, msg)
  {
    hide Hex, Utf8;
    assert WRITEBACK_MARKER + "." + Hex(Utf8(op.id)) == "__eventfs_writeback." + Hex(Utf8(op.id));
    assert APPLIED_MARKER + "." + Hex(Utf8(op.id)) == "__eventfs_applied." + Hex(Utf8(op.id));
  }

  lemma OwnBelongs(op: Op)
    requires WellFormed(op)
    ensures Belongs(op, ValueMsg(op)) && Belongs(op, MarkerMsg(op)) && Belongs(op, AppliedMsg(op))
  {
    SubjectsApart(op, op);
    hide Hex, Utf8;
    assert WRITEBACK_MARKER + "." + Hex(Utf8(op.id)) == "__eventfs_writeback." + Hex(Utf8(op.id));
    assert APPLIED_MARKER + "." + Hex(Utf8(op.id)) == "__eventfs_applied." + Hex(Utf8(op.id));
  }

  lemma PublishBelongs(op: Op, b: Broker, msg: Msg)
    requires Belongs(op, msg) && forall n: nat :: n < |b.log| ==> Belongs(op, b.log[n])
    ensures forall n: nat :: n < |Publish(b, msg).log| ==> Belongs(op, Publish(b, msg).log[n])
  {
    hide Belongs;
  }

  lemma StepBelongsTo(w: World, ev: Event, op: Op)
    requires WorldOk(w) && Allowed(w, ev) && op in w.writers
    requires forall n: nat :: n < |w.broker.log| ==> Belongs(op, w.broker.log[n])
    ensures forall n: nat :: n < |Step(w, ev).broker.log| ==> Belongs(op, Step(w, ev).broker.log[n])
  {
    hide Belongs, Publish, WorldOk, Harmless, After, Act;
    if ev.External? {
      HarmlessBelongs(op, ev.msg);
      PublishBelongs(op, w.broker, ev.msg);
    } else if ev.Work? && ev.op in w.writers {
      WorkBelongs(w, op, ev.op);
    }
  }

  lemma StepBelongs(w: World, ev: Event)
    requires WorldOk(w) && LogBelongs(w) && Allowed(w, ev)
    ensures LogBelongs(Step(w, ev))
  {
    OnlyWorkersMove(w, ev);
    hide Belongs, WorldOk, Allowed, Step;
    forall op | op in w.writers
      ensures forall n: nat :: n < |Step(w, ev).broker.log| ==> Belongs(op, Step(w, ev).broker.log[n])
    {
      StepBelongsTo(w, ev, op);
    }
  }

  lemma WorkBelongs(w: World, op: Op, other: Op)
    requires WorldOk(w) && op in w.writers && other in w.writers
    requires forall n: nat :: n < |w.broker.log| ==> Belongs(op, w.broker.log[n])
    ensures forall pc, n: nat :: n < |Act(other, w.broker, pc).log| ==> Belongs(op, Act(other, w.broker, pc).log[n])
  {
    hide Belongs, KeepsLast, LogOk, WriterOk, WellFormed, Harmless, ValueMsg, MarkerMsg, AppliedMsg, Publish;
    if op == other {
      OwnBelongs(op);
    } else {
      OtherMessagesHarmless(op, other);
      HarmlessBelongs(op, ValueMsg(other));
      HarmlessBelongs(op, MarkerMsg(other));
      HarmlessBelongs(op, AppliedMsg(other));
    }
    PublishBelongs(op, w.broker, ValueMsg(other));
    PublishBelongs(op, w.broker, MarkerMsg(other));
    PublishBelongs(op, w.broker, AppliedMsg(other));
  }

  lemma {:induction false} RunBelongs(w: World, events: seq<Event>)
    requires Initial(w) && AllowedRun(w, events)
    ensures LogBelongs(Run(w, events))
  {
    if events == [] {
      forall op, n: nat | op in w.writers && n < |w.broker.log|
        ensures Belongs(op, w.broker.log[n])
      {
        assert Untouched(op, w.broker);
        HarmlessBelongs(op, w.broker.log[n]);
      }
    } else {
      var n := |events| - 1;
      var front := events[..n];
      assert forall i :: 0 <= i < n ==> front[..i] == events[..i];
      RunBelongs(w, front);
      RunKeeps(w, front);
      hide Step, WorldOk, Allowed, Initial, LogBelongs;
      StepBelongs(Run(w, front), events[n]);
    }
  }

  /** In every run each message that carries the operation's id is on its key and holds its bytes, and its
      markers name it. */
  lemma MessagesAreRight(w: World, events: seq<Event>, op: Op, n: nat)
    requires Initial(w) && AllowedRun(w, events) && op in w.writers && n < |Run(w, events).broker.log|
    ensures var msg := Run(w, events).broker.log[n];
            && (msg.header == Some(op.id) ==>
                  msg.subject == "$KV." + op.bucket + "." + op.key && msg.body == Value(op.bytes))
            && (msg.subject == "$KV." + op.bucket + "." + ("__eventfs_writeback." + Hex(Utf8(op.id))) ==>
                  msg.header == None && msg.body == Marker("kv-writeback-marker", op.key, op.id))
            && (msg.subject == "$KV." + op.bucket + "." + ("__eventfs_applied." + Hex(Utf8(op.id))) ==>
                  msg.header == None && msg.body == Marker("kv-applied-marker", op.key, op.id))
  {
    RunBelongs(w, events);
    RunKeeps(w, events);
    hide Run, Initial, WorldOk, Allowed, Hex, Utf8;
    assert Belongs(op, Run(w, events).broker.log[n]);
  }

  // ---- the value is in the stream ----

  /** The stream holds the operation's bytes on its key, under its id. */
  ghost predicate Holds(op: Op, log: seq<Msg>) {
    exists n :: 0 <= n < |log| && log[n].subject == "$KV." + op.bucket + "." + op.key &&
      log[n].header == Some(op.id) && log[n].body == Value(op.bytes)
  }

  lemma {:induction false} CopyIsSomewhere(op: Op, log: seq<Msg>) returns (n: nat)
    requires Copies(op, log) > 0
    ensures n < |log| && log[n].subject == Target(op) && log[n].header == Some(op.id)
  {
    n := |log| - 1;
    if log[n].subject != Target(op) || log[n].header != Some(op.id) {
      n := CopyIsSomewhere(op, log[..n]);
    }
  }

  lemma CopyIsHeld(w: World, op: Op)
    requires op in w.writers && LogBelongs(w) && Copies(op, w.broker.log) > 0
    ensures Holds(op, w.broker.log)
  {
    var n := CopyIsSomewhere(op, w.broker.log);
    hide Copies, Hex, Utf8;
    assert Belongs(op, w.broker.log[n]);
  }

  lemma {:induction false} LogOnlyGrows(w: World, events: seq<Event>, n: nat)
    requires n <= |events|
    ensures Run(w, events[..n]).broker.log <= Run(w, events).broker.log
  {
    if n == |events| {
      assert events[..n] == events;
    } else {
      var front := events[..|events| - 1];
      assert front[..n] == events[..n];
      LogOnlyGrows(w, front, n);
      StepGrows(Run(w, front), events[|events| - 1]);
    }
  }

  lemma StepGrows(w: World, ev: Event)
    ensures w.broker.log <= Step(w, ev).broker.log
  {
    hide After, MarkerMsg, ValueMsg, AppliedMsg, LedgerKey;
  }

  /** A put is past the publish of its value. */
  predicate PastPublish(pc: Pc) {
    pc.CheckAppliedAgain? || pc.PublishApplied? || pc.RecordLedger?
  }

  lemma AllowedPrefix(w: World, events: seq<Event>, n: nat)
    requires AllowedRun(w, events) && n <= |events|
    ensures AllowedRun(w, events[..n])
  {
    hide Allowed, Run;
    assert forall i :: 0 <= i < n ==> events[..n][..i] == events[..i] && events[..n][i] == events[i];
  }

  lemma PastIsCopied(w: World, op: Op)
    requires WorldOk(w) && op in w.writers && PastPublish(w.writers[op].pc)
    ensures Copies(op, w.broker.log) == 1
  {
    hide LogOk, WellFormed, KeepsLast, Copies;
    assert OpOk(op, w.broker, w.writers[op].pc);
  }

  /** Once a put has got past its publish, the stream holds its bytes for good. */
  lemma PublishedIsHeld(w: World, events: seq<Event>, n: nat, op: Op)
    requires Initial(w) && AllowedRun(w, events) && op in w.writers && n <= |events|
    requires op in Run(w, events[..n]).writers && PastPublish(Run(w, events[..n]).writers[op].pc)
    ensures Holds(op, Run(w, events).broker.log)
  {
    hide Run, Initial, AllowedRun, WorldOk, LogBelongs, PastPublish, Holds, Copies;
    var now := Run(w, events[..n]);
    AllowedPrefix(w, events, n);
    RunKeeps(w, events[..n]);
    RunBelongs(w, events[..n]);
    PastIsCopied(now, op);
    CopyIsHeld(now, op);
    LogOnlyGrows(w, events, n);
    HeldStays(op, now.broker.log, Run(w, events).broker.log);
  }

  lemma HeldStays(op: Op, log: seq<Msg>, log': seq<Msg>)
    requires log <= log' && Holds(op, log)
    ensures Holds(op, log')
  {
    var n :| 0 <= n < |log| && log[n].subject == "$KV." + op.bucket + "." + op.key &&
      log[n].header == Some(op.id) && log[n].body == Value(op.bytes);
    assert log'[n] == log[n];
  }

  // ---- a put that is left alone ----

  /** Advancing goes on where it stopped. */
  lemma {:induction false} AdvancedMore(op: Op, b: Broker, w: Writer, n: nat, more: nat)
    ensures Advanced(op, b, w, n + more) == Advanced(op, Advanced(op, b, w, n).0, Advanced(op, b, w, n).1, more)
    decreases n
  {
    if n > 0 {
      AdvancedMore(op, Act(op, b, w.pc), w.(pc := After(op, b, w)), n - 1, more);
    }
  }

  /** The put's own check: it ends there if the marker was passed, and goes on to publish otherwise. */
  lemma CheckLeads(op: Op, b: Broker) returns (n: nat)
    requires KeepsLast(b) && LogOk(op, b)
    ensures var (b', w) := Advanced(op, b, Writer(CheckLedger, true), n);
            && b'.log == b.log && (if Marked(op, b.log) then LedgerKey(op) in b'.ledger else b' == b)
            && w == Writer(if Marked(op, b.log) then Finished(true) else EnsureMarker, true)
  {
    hide GetLast, LastOn, Copies, Target, MarkerSubject, AppliedSubject, LedgerKey, HasMarker, MarkerMsg, AppliedMsg;
    hide Marked, Advanced, KeepsLast, ScanFinds;
    assert LedgerKey(op) in b.ledger ==> Marked(op, b.log);
    hide LogOk;
    FindingsAreRight(op, b);
    if LedgerKey(op) in b.ledger {
      n := 1;
      Advance1(op, b, true, CheckLedger, 0, b, Finished(true));
      AdvancedNot(op, b, Writer(Finished(true), true));
    } else if HasMarker(b, AppliedSubject(op), AppliedMsg(op).body) {
      n := 3;
      Advance1(op, b, true, CheckLedger, 2, b, CheckApplied);
      Advance1(op, b, true, CheckApplied, 1, b, RecordEvidence);
      RecordedEnds(op, b);
    } else {
      n := LatestLeads(op, b);
      Advance1(op, b, true, CheckLedger, n + 1, b, CheckApplied);
      Advance1(op, b, true, CheckApplied, n, b, CheckLatest);
      n := n + 2;
    }
  }

  lemma RecordedEnds(op: Op, b: Broker)
    ensures var (b', w) := Advanced(op, b, Writer(RecordEvidence, true), 1);
            b'.log == b.log && LedgerKey(op) in b'.ledger && w == Writer(Finished(true), true)
  {
    hide Advanced, LedgerKey;
    var recorded := b.(ledger := b.ledger + {LedgerKey(op)});
    Advance1(op, b, true, RecordEvidence, 0, recorded, Finished(true));
    AdvancedNot(op, recorded, Writer(Finished(true), true));
  }

  lemma LatestLeads(op: Op, b: Broker) returns (n: nat)
    requires KeepsLast(b) && LogOk(op, b)
    ensures var (b', w) := Advanced(op, b, Writer(CheckLatest, true), n);
            && b'.log == b.log && (if Marked(op, b.log) then LedgerKey(op) in b'.ledger else b' == b)
            && w == Writer(if Marked(op, b.log) then Finished(true) else EnsureMarker, true)
  {
    var last := GetLast(b, Target(op));
    assert last.Some? ==> last.value < |b.log|;
    hide GetLast, LastOn, Copies, Target, MarkerSubject, AppliedSubject, LedgerKey, HasMarker, MarkerMsg, AppliedMsg;
    hide Marked, Advanced, KeepsLast, ScanFinds, LogOk;
    FindingsAreRight(op, b);
    if last.Some? && b.log[last.value].header == Some(op.id) {
      n := 2;
      Advance1(op, b, true, CheckLatest, 1, b, RecordEvidence);
      RecordedEnds(op, b);
    } else {
      n := MarkerLeads(op, b);
      Advance1(op, b, true, CheckLatest, n, b, CheckMarker);
      n := n + 1;
    }
  }

  lemma MarkerLeads(op: Op, b: Broker) returns (n: nat)
    requires KeepsLast(b) && LogOk(op, b)
    ensures var (b', w) := Advanced(op, b, Writer(CheckMarker, true), n);
            && b'.log == b.log && (if Marked(op, b.log) then LedgerKey(op) in b'.ledger else b' == b)
            && w == Writer(if Marked(op, b.log) then Finished(true) else EnsureMarker, true)
  {
    hide GetLast, LastOn, Copies, Target, MarkerSubject, LedgerKey, HasMarker, ScanFinds, MarkerMsg, KeepsLast, LogOk;
    hide AppliedSubject, AppliedMsg, Advanced;
    MarkerRead(op, b);
    FindingsAreRight(op, b);
    var marker := LastOn(b.log, MarkerSubject(op));
    if marker.Some? {
      TargetReadIsRight(op, b, marker.value);
    }
    assert marker == None ==> !Marked(op, b.log);
    hide Marked;
    var pc := if marker.Some? then CheckTarget(marker.value) else CheckScan;
    if Marked(op, b.log) {
      n := 3;
      Advance1(op, b, true, CheckMarker, 2, b, pc);
      Advance1(op, b, true, pc, 1, b, RecordEvidence);
      RecordedEnds(op, b);
    } else {
      AdvancedNot(op, b, Writer(EnsureMarker, true));
      Advance1(op, b, true, CheckScan, 0, b, EnsureMarker);
      n := 2;
      if marker.Some? {
        n := 3;
        Advance1(op, b, true, pc, 1, b, CheckScan);
      }
      Advance1(op, b, true, CheckMarker, n - 1, b, pc);
    }
  }

  ghost predicate AllBelong(op: Op, log: seq<Msg>) {
    forall n: nat :: n < |log| ==> Belongs(op, log[n])
  }

  lemma ActBelongs(op: Op, b: Broker, pc: Pc)
    requires OpOk(op, b, pc) && AllBelong(op, b.log)
    ensures AllBelong(op, Act(op, b, pc).log) && b.log <= Act(op, b, pc).log
  {
    OwnBelongs(op);
    hide LogOk, WriterOk, Belongs, ValueMsg, MarkerMsg, AppliedMsg, WellFormed, LedgerKey;
  }

  /** Every advance keeps what is known of the operation. */
  lemma {:induction false} AdvancedKeeps(op: Op, b: Broker, w: Writer, n: nat)
    requires KeepsLast(b) && OpOk(op, b, w.pc) && AllBelong(op, b.log)
    ensures var (b', w') := Advanced(op, b, w, n);
            KeepsLast(b') && OpOk(op, b', w'.pc) && AllBelong(op, b'.log) && b.log <= b'.log
    decreases n
  {
    hide KeepsLast, OpOk, AllBelong, Act, After;
    if n > 0 {
      ActKeeps(op, b, w.pc);
      AdvanceKeeps(op, b, w);
      ActBelongs(op, b, w.pc);
      AdvancedKeeps(op, Act(op, b, w.pc), w.(pc := After(op, b, w)), n - 1);
    }
  }

  lemma PublishKeepsId(b: Broker, msg: Msg, id: string)
    requires msg.msgId != Some(id)
    ensures id in Publish(b, msg).window <==> id in b.window
  {
  }

  lemma PublishLeads(op: Op, b: Broker) returns (n: nat)
    requires OpOk(op, b, EnsureMarker)
    ensures var (b', w) := Advanced(op, b, Writer(EnsureMarker, true), n);
            w == Writer(CheckAppliedAgain, true) && (AppliedId(op) in b'.window ==> AppliedId(op) in b.window)
  {
    hide LogOk, WriterOk;
    IdsOfOne(op);
    assert MarkerMsg(op).msgId == Some(MarkerId(op)) && ValueMsg(op).msgId == Some(op.id);
    PublishKeepsId(b, MarkerMsg(op), AppliedId(op));
    PublishKeepsId(b, ValueMsg(op), AppliedId(op));
    PublishKeepsId(Publish(b, MarkerMsg(op)), ValueMsg(op), AppliedId(op));
    hide Advanced, MarkerMsg, ValueMsg, HasMarker, Publish, MarkerSubject, WellFormed;
    var has := HasMarker(b, MarkerSubject(op), MarkerMsg(op).body);
    var b1 := if has then b else Publish(b, MarkerMsg(op));
    var b2 := Publish(b1, ValueMsg(op));
    n := if has then 2 else 3;
    Advance1(op, b, true, EnsureMarker, n - 1, b, if has then PublishValue else PublishMarker);
    if !has {
      Advance1(op, b, true, PublishMarker, 1, b1, PublishValue);
    }
    Advance1(op, b1, true, PublishValue, 0, b2, CheckAppliedAgain);
    AdvancedNot(op, b2, Writer(CheckAppliedAgain, true));
  }

  lemma EndLeads(op: Op, b: Broker) returns (n: nat)
    ensures var (b', w) := Advanced(op, b, Writer(CheckAppliedAgain, true), n);
            && w == Writer(Finished(true), true) && LedgerKey(op) in b'.ledger
            && (AppliedId(op) !in b.window ==> OnApplied(op, b'.log))
  {
    hide Advanced, AppliedMsg, HasMarker, Publish, AppliedSubject, LedgerKey;
    var has := HasMarker(b, AppliedSubject(op), AppliedMsg(op).body);
    var b1 := if has then b else Publish(b, AppliedMsg(op));
    var b2 := b1.(ledger := b1.ledger + {LedgerKey(op)});
    n := if has then 2 else 3;
    Advance1(op, b, true, CheckAppliedAgain, n - 1, b, if has then RecordLedger else PublishApplied);
    if !has {
      Advance1(op, b, true, PublishApplied, 1, b1, RecordLedger);
    }
    Advance1(op, b1, true, RecordLedger, 0, b2, Finished(true));
    AdvancedNot(op, b2, Writer(Finished(true), true));
    MarkedApplied(op, b);
  }

  /** The stream holds the applied marker of the operation. */
  ghost predicate OnApplied(op: Op, log: seq<Msg>) {
    exists n :: 0 <= n < |log| && log[n].subject == "$KV." + op.bucket + "." + ("__eventfs_applied." + Hex(Utf8(op.id)))
  }

  lemma MarkedApplied(op: Op, b: Broker)
    ensures HasMarker(b, AppliedSubject(op), AppliedMsg(op).body) ==> OnApplied(op, b.log)
    ensures AppliedId(op) !in b.window ==> OnApplied(op, Publish(b, AppliedMsg(op)).log)
  {
    hide Hex, Utf8, LastStored;
    assert APPLIED_MARKER + "." + Hex(Utf8(op.id)) == "__eventfs_applied." + Hex(Utf8(op.id));
    var log := b.log + [AppliedMsg(op)];
    assert log[|b.log|].subject == AppliedSubject(op);
  }

  /** From the decision to publish on: the put ends, and the stream holds its value. */
  lemma PublishEnds(op: Op, b: Broker) returns (n: nat)
    requires KeepsLast(b) && OpOk(op, b, EnsureMarker) && AllBelong(op, b.log)
    ensures var (b', w) := Advanced(op, b, Writer(EnsureMarker, true), n);
            && b.log <= b'.log && w == Writer(Finished(true), true) && Holds(op, b'.log)
            && LedgerKey(op) in b'.ledger && (AppliedId(op) !in b.window ==> OnApplied(op, b'.log))
  {
    hide Advanced, KeepsLast, AllBelong, OpOk, Holds, Copies, OnApplied, LedgerKey, AppliedId;
    var start := Writer(EnsureMarker, true);
    var m := PublishLeads(op, b);
    AdvancedKeeps(op, b, start, m);
    var b1 := Advanced(op, b, start, m).0;
    var more := EndLeads(op, b1);
    AdvancedKeeps(op, b1, Writer(CheckAppliedAgain, true), more);
    assert Copies(op, b1.log) == 1 by { CopiedAtAgain(op, b1); }
    BelongsIsHeld(op, b1.log);
    var b2 := Advanced(op, b1, Writer(CheckAppliedAgain, true), more).0;
    HeldStays(op, b1.log, b2.log);
    AdvancedMore(op, b, start, m, more);
    n := m + more;
  }

  lemma CopiedAtAgain(op: Op, b: Broker)
    requires OpOk(op, b, CheckAppliedAgain)
    ensures Copies(op, b.log) == 1
  {
    hide LogOk, WellFormed, Copies;
  }

  lemma BelongsIsHeld(op: Op, log: seq<Msg>)
    requires AllBelong(op, log) && Copies(op, log) > 0
    ensures Holds(op, log)
  {
    var n := CopyIsSomewhere(op, log);
    hide Copies, Hex, Utf8;
    assert Belongs(op, log[n]);
  }

  lemma UnmarkedMayPublish(op: Op, b: Broker)
    requires WellFormed(op) && LogOk(op, b) && !Marked(op, b.log)
    ensures OpOk(op, b, EnsureMarker)
  {
    hide WellFormed, LastOn, Copies, LedgerKey, AppliedSubject, MarkerSubject, Target, MarkerMsg, Marked, MarkerId;
  }

  lemma ReachedOk(w: World, op: Op)
    requires WorldOk(w) && LogBelongs(w) && op in w.writers
    ensures KeepsLast(w.broker) && WellFormed(op) && LogOk(op, w.broker) && AllBelong(op, w.broker.log)
  {
    hide KeepsLast, LogOk, WriterOk, WellFormed, Belongs;
    assert OpOk(op, w.broker, w.writers[op].pc);
  }

  /** In every reachable state a put that is then left alone ends in success and is in the ledger. If the marker
      was not passed yet, the stream afterwards holds its bytes on its key under its id, and its applied marker
      unless the broker suppressed that as a repetition; if it was, nothing is published. */
  lemma PutEnds(w: World, events: seq<Event>, op: Op) returns (n: nat)
    requires Initial(w) && AllowedRun(w, events) && op in w.writers
    ensures var b := Run(w, events).broker;
            var (b', writer) := Advanced(op, b, Writer(CheckLedger, true), n);
            && writer.pc == Finished(true) && b.log <= b'.log && LedgerKey(op) in b'.ledger
            && (if Marked(op, b.log) then b'.log == b.log
                else Holds(op, b'.log) && (AppliedId(op) !in b.window ==> OnApplied(op, b'.log)))
  {
    hide Run, Initial, AllowedRun, WorldOk, LogBelongs, LogOk, AllBelong, KeepsLast, WellFormed, OpOk;
    hide Advanced, Marked, Holds, OnApplied, LedgerKey, AppliedId;
    RunKeeps(w, events);
    RunBelongs(w, events);
    var b := Run(w, events).broker;
    ReachedOk(Run(w, events), op);
    n := CheckLeads(op, b);
    if !Marked(op, b.log) {
      UnmarkedMayPublish(op, b);
      var more := PublishEnds(op, b);
      AdvancedMore(op, b, Writer(CheckLedger, true), n, more);
      n := n + more;
    }
  }
}
