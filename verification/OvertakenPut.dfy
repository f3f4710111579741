/** Why "applied" does not mean "published" for a KV put over JetStream (eventfs-transport/src/storage/nats/kv.rs):
    one run of one writer, step by step. */
module OvertakenPut {
  import opened Text
  import opened JetStreamKv

  /** The same writer advancing `n` times. */
  function Advances(op: Op, n: nat): seq<Event> {
    seq(n, _ => Work(op, true, Advance))
  }

  function Alone(op: Op, b: Broker, w: Writer): World {
    World(b, map[op := w])
  }

  lemma {:induction false} RunInTwo(w: World, first: seq<Event>, second: seq<Event>)
    ensures Run(w, first + second) == Run(Run(w, first), second)
  {
    if second == [] {
      assert first + second == first;
    } else {
      var n := |second| - 1;
      RunInTwo(w, first, second[..n]);
      assert (first + second)[..|first + second| - 1] == first + second[..n];
    }
  }

  lemma RunOne(w: World, ev: Event)
    ensures Run(w, [ev]) == Step(w, ev)
  {
    assert Run(w, [ev][..0]) == w;
  }

  lemma {:induction false} RunAdvances(op: Op, b: Broker, w: Writer, n: nat)
    ensures var (b', w') := Advanced(op, b, w, n); Run(Alone(op, b, w), Advances(op, n)) == Alone(op, b', w')
    decreases n
  {
    if n > 0 {
      var b1, w1 := Act(op, b, w.pc), w.(pc := After(op, b, w));
      RunAdvances(op, b1, w1, n - 1);
      hide Act, After;
      var ev := Work(op, true, Advance);
      assert Advances(op, n) == [ev] + Advances(op, n - 1);
      RunInTwo(Alone(op, b, w), [ev], Advances(op, n - 1));
      RunOne(Alone(op, b, w), ev);
      assert map[op := w][op := w1] == map[op := w1];
    }
  }

  const QUIET: Broker := Broker([], {}, {}, {})

  /** The marker, and behind it what somebody else wrote. */
  function Overtaking(op: Op, msg: Msg): Broker {
    Broker([MarkerMsg(op), msg], {0, 1}, {MarkerId(op)}, {})
  }

  /** Nothing found: the writer leaves its marker and comes to publish the value. */
  lemma MarkerIsLeft(op: Op)
    ensures var marked := Broker([MarkerMsg(op)], {0}, {MarkerId(op)}, {});
            Advanced(op, QUIET, Writer(CheckLedger, true), 7) == (marked, Writer(PublishValue, true))
  {
    hide LedgerKey, Target, MarkerSubject, AppliedSubject, Advanced, Publish, GetLast, MarkerMsg, AppliedMsg;
    var marked := Broker([MarkerMsg(op)], {0}, {MarkerId(op)}, {});
    forall subject: string
      ensures GetLast(QUIET, subject) == None
    {
      NothingStored(subject);
    }
    MarkerPublished(op);
    assert !ScanFinds(op, QUIET);
    hide ScanFinds;
    Advance1(op, QUIET, true, CheckLedger, 6, QUIET, CheckApplied);
    Advance1(op, QUIET, true, CheckApplied, 5, QUIET, CheckLatest);
    Advance1(op, QUIET, true, CheckLatest, 4, QUIET, CheckMarker);
    Advance1(op, QUIET, true, CheckMarker, 3, QUIET, CheckScan);
    Advance1(op, QUIET, true, CheckScan, 2, QUIET, EnsureMarker);
    Advance1(op, QUIET, true, EnsureMarker, 1, QUIET, PublishMarker);
    Advance1(op, QUIET, true, PublishMarker, 0, marked, PublishValue);
    AdvancedNot(op, marked, Writer(PublishValue, true));
  }

  lemma NothingStored(subject: string)
    ensures GetLast(QUIET, subject) == None
  {
  }

  lemma MarkerPublished(op: Op)
    ensures Publish(QUIET, MarkerMsg(op)) == Broker([MarkerMsg(op)], {0}, {MarkerId(op)}, {})
  {
    assert [] + [MarkerMsg(op)] == [MarkerMsg(op)] && {} + {0} == {0} && {} + {MarkerId(op)} == {MarkerId(op)};
  }

  lemma OvertakingReads(op: Op, msg: Msg)
    requires WellFormed(op) && msg.subject == Target(op) && Harmless(op, msg)
    ensures var b := Overtaking(op, msg);
            && GetLast(b, Target(op)) == Some(1) && GetLast(b, MarkerSubject(op)) == Some(0) &&
              GetLast(b, AppliedSubject(op)) == None
            && Copies(op, b.log) == 0
  {
    SubjectsApart(op, op);
    var b := Overtaking(op, msg);
    var one := [MarkerMsg(op)];
    assert b.log[..1] == one && one[..0] == [];
    assert Copies(op, []) == 0 && forall subject :: LastStored([], b.retained, subject) == None;
    hide Target, MarkerSubject, AppliedSubject, WellFormed;
    assert Copies(op, one) == 0;
    assert LastStored(one, b.retained, MarkerSubject(op)) == Some(0);
    assert LastStored(one, b.retained, AppliedSubject(op)) == None;
  }

  lemma NothingRecorded(op: Op, msg: Msg)
    ensures Overtaking(op, msg).ledger == {} && Overtaking(op, msg).log == [MarkerMsg(op), msg]
  {
  }

  /** The next check finds the foreign message behind the marker and reports the put as applied. */
  lemma OvertakenIsReported(op: Op, msg: Msg)
    requires WellFormed(op) && msg.subject == Target(op) && Harmless(op, msg)
    ensures var (b, w) := Advanced(op, Overtaking(op, msg), Writer(CheckLedger, false), 6);
            w.pc == Finished(true) && b.log == Overtaking(op, msg).log
  {
    hide LedgerKey, Target, MarkerSubject, AppliedSubject, Advanced, WellFormed;
    var b := Overtaking(op, msg);
    OvertakingReads(op, msg);
    assert HasMarker(b, MarkerSubject(op), MarkerMsg(op).body) &&
           !HasMarker(b, AppliedSubject(op), AppliedMsg(op).body);
    assert b.log[1].header != Some(op.id);
    hide GetLast, HasMarker, Harmless, MarkerMsg, AppliedMsg, Overtaking;
    var done := b.(ledger := b.ledger + {LedgerKey(op)});
    assert LedgerKey(op) !in b.ledger by { NothingRecorded(op, msg); }
    Advance1(op, b, false, CheckLedger, 5, b, CheckApplied);
    Advance1(op, b, false, CheckApplied, 4, b, CheckLatest);
    Advance1(op, b, false, CheckLatest, 3, b, CheckMarker);
    Advance1(op, b, false, CheckMarker, 2, b, CheckTarget(0));
    Advance1(op, b, false, CheckTarget(0), 1, b, RecordEvidence);
    Advance1(op, b, false, RecordEvidence, 0, done, Finished(true));
    AdvancedNot(op, done, Writer(Finished(true), false));
  }

  function OvertakenEvents(op: Op, msg: Msg): seq<Event> {
    [Start(op, true)] + Advances(op, 7) + [External(msg), Work(op, false, Stop), Start(op, false)] + Advances(op, 6)
  }

  lemma {:induction false} OneWriterAllowed(w: World, op: Op, events: seq<Event>)
    requires w.writers.Keys == {op}
    requires forall n :: 0 <= n < |events| ==>
               events[n].Start? || events[n].Work? || (events[n].External? && Harmless(op, events[n].msg))
    ensures AllowedRun(w, events) && Run(w, events).writers.Keys == {op}
  {
    if events != [] {
      hide Harmless, Step;
      var n := |events| - 1;
      var front := events[..n];
      OneWriterAllowed(w, op, front);
      OnlyWorkersMove(Run(w, front), events[n]);
      assert Allowed(Run(w, front), events[n]);
      assert events == front + [events[n]];
      hide Allowed;
      AllowedOneMore(w, front, events[n]);
    }
  }

  lemma AllowedOneMore(w: World, events: seq<Event>, ev: Event)
    requires AllowedRun(w, events) && Allowed(Run(w, events), ev)
    ensures AllowedRun(w, events + [ev])
  {
    hide Allowed, Run;
    var more := events + [ev];
    forall n | 0 <= n < |more|
      ensures Allowed(Run(w, more[..n]), more[n])
    {
      if n < |events| {
        assert more[..n] == events[..n];
      } else {
        assert more[..n] == events;
      }
    }
  }

  /** So a put can be reported as applied although its value never reached the stream: when it stops
      between its marker and its value and somebody else writes the key meanwhile. */
  lemma OvertakenPutIsReportedApplied(op: Op, msg: Msg)
    requires WellFormed(op) && msg.subject == Target(op) && Harmless(op, msg) && msg.msgId == None
    ensures var w := Alone(op, QUIET, Writer(Idle, true));
            && Initial(w) && AllowedRun(w, OvertakenEvents(op, msg))
            && var end := Run(w, OvertakenEvents(op, msg));
               op in end.writers && end.writers[op].pc == Finished(true) && Copies(op, end.broker.log) == 0
  {
    hide Harmless, WellFormed, Advanced, Advances, AllowedRun, Initial, Copies, Target;
    var w := Alone(op, QUIET, Writer(Idle, true));
    QuietIsInitial(op);
    OvertakenAllowed(op, msg);
    OvertakenIsReported(op, msg);
    OvertakingReads(op, msg);
    OvertakenRun(op, msg);
  }

  lemma QuietIsInitial(op: Op)
    requires WellFormed(op)
    ensures Initial(Alone(op, QUIET, Writer(Idle, true)))
  {
  }

  lemma OvertakenAllowed(op: Op, msg: Msg)
    requires Harmless(op, msg)
    ensures AllowedRun(Alone(op, QUIET, Writer(Idle, true)), OvertakenEvents(op, msg))
  {
    hide Harmless;
    OneWriterAllowed(Alone(op, QUIET, Writer(Idle, true)), op, OvertakenEvents(op, msg));
  }

  lemma OvertakenRun(op: Op, msg: Msg)
    requires msg.msgId == None
    ensures var (b, writer) := Advanced(op, Overtaking(op, msg), Writer(CheckLedger, false), 6);
            Run(Alone(op, QUIET, Writer(Idle, true)), OvertakenEvents(op, msg)) == Alone(op, b, writer)
  {
    var w, first, last := Alone(op, QUIET, Writer(Idle, true)), [Start(op, true)],
      [External(msg), Work(op, false, Stop), Start(op, false)];
    RunOne(w, first[0]);
    assert Run(w, first) == Alone(op, QUIET, Writer(CheckLedger, true)) by {
      assert map[op := Writer(Idle, true)][op := Writer(CheckLedger, true)] == map[op := Writer(CheckLedger, true)];
    }
    hide Run, Step, Advanced, Advances, Overtaking, MarkerMsg;
    MarkerIsLeft(op);
    MiddleThree(op, msg);
    RunInTwo(w, first + Advances(op, 7) + last, Advances(op, 6));
    RunInTwo(w, first + Advances(op, 7), last);
    RunInTwo(w, first, Advances(op, 7));
    RunAdvances(op, QUIET, Writer(CheckLedger, true), 7);
    RunAdvances(op, Overtaking(op, msg), Writer(CheckLedger, false), 6);
  }

  lemma MiddleThree(op: Op, msg: Msg)
    requires msg.msgId == None
    ensures var marked := Broker([MarkerMsg(op)], {0}, {MarkerId(op)}, {});
            Run(Alone(op, marked, Writer(PublishValue, true)),
              [External(msg), Work(op, false, Stop), Start(op, false)]) ==
            Alone(op, Overtaking(op, msg), Writer(CheckLedger, false))
  {
    hide MarkerMsg, Act, After;
    var marked := Broker([MarkerMsg(op)], {0}, {MarkerId(op)}, {});
    var w0 := Alone(op, marked, Writer(PublishValue, true));
    var events := [External(msg), Work(op, false, Stop), Start(op, false)];
    RunInTwo(w0, [External(msg)], [Work(op, false, Stop)] + [Start(op, false)]);
    var w1 := Step(w0, External(msg));
    RunOne(w0, External(msg));
    RunInTwo(w1, [Work(op, false, Stop)], [Start(op, false)]);
    RunOne(w1, Work(op, false, Stop));
    var w2 := Step(w1, Work(op, false, Stop));
    RunOne(w2, Start(op, false));
    assert events == [External(msg)] + ([Work(op, false, Stop)] + [Start(op, false)]);
    assert w1 == Alone(op, Overtaking(op, msg), Writer(PublishValue, true)) by {
      assert [MarkerMsg(op)] + [msg] == [MarkerMsg(op), msg] && {0} + {1} == {0, 1} &&
             {MarkerId(op)} + {} == {MarkerId(op)};
    }
    assert w2 == Alone(op, Overtaking(op, msg), Writer(Idle, true));
    assert Step(w2, Start(op, false)) == Alone(op, Overtaking(op, msg), Writer(CheckLedger, false));
  }
}
