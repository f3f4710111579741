/** The view of a JSON lines file while appends to it are pending (eventfs-fuse/src/fs/mount_projection.rs,
    fs.rs): the lines the stream holds, then the lines of each queued append that are not in it yet. */
module JsonlView {
  import opened Text
  import opened JsonLines
  import CacheRuns
  import JL = JetStreamLines

  // ---- canonical lines ----

  /** `append_json_line`. */
  function LineText(payload: Bytes): Bytes {
    CacheRuns.JsonLine(payload)
  }

  function TextOf(lines: seq<string>): Bytes {
    if lines == [] then "" else TextOf(lines[..|lines| - 1]) + LineText(lines[|lines| - 1])
  }

  /** `skip`. */
  function Skip(lines: seq<string>, n: nat): seq<string> {
    if n < |lines| then lines[n..] else []
  }

  /** `unapplied_jsonl_bytes` on the lines of a payload. */
  method UnappliedBytes(bytes: Bytes, applied: nat) returns (output: Bytes)
    ensures output == TextOf(Skip(Lines(bytes), applied))
  {
    var rest := Skip(Lines(bytes), applied);
    output := "";
    for i := 0 to |rest|
      invariant output == TextOf(rest[..i])
    {
      assert rest[..i + 1][..i] == rest[..i];
      output := output + LineText(rest[i]);
    }
    assert rest[..|rest|] == rest;
  }

  lemma {:induction false} TextAppend(a: seq<string>, b: seq<string>)
    ensures TextOf(a + b) == TextOf(a) + TextOf(b)
  {
    hide LineText;
    if b == [] {
      assert a + b == a;
    } else {
      TextAppend(a, b[..|b| - 1]);
      assert (a + b)[..|a + b| - 1] == a + b[..|b| - 1];
    }
  }

  lemma FirstOut(lines: seq<string>, k: nat)
    requires k < |lines|
    ensures TextOf(Skip(lines, k)) == LineText(lines[k]) + TextOf(Skip(lines, k + 1))
  {
    hide LineText;
    assert Skip(lines, k) == [lines[k]] + Skip(lines, k + 1);
    TextAppend([lines[k]], Skip(lines, k + 1));
    TextOfOne(lines[k]);
  }

  lemma TextOfOne(line: string)
    ensures TextOf([line]) == LineText(line)
  {
    hide LineText;
    assert [line][..0] == [] && TextOf([]) == "";
  }

  // ---- the projection of the stream ----

  /** `collect_stream_subject_snapshot` over the stored messages. */
  function Projected(log: seq<JL.Msg>, retained: set<nat>, subject: string): Bytes {
    if log == [] then ""
    else
      var n := |log| - 1;
      var line := if log[n].subject == subject && n in retained then LineText(log[n].payload) else "";
      Projected(log[..n], retained, subject) + line
  }

  function Projection(b: JL.Broker, subject: string): Bytes {
    Projected(b.log, b.retained, subject)
  }

  method CollectSubject(b: JL.Broker, subject: string) returns (bytes: Bytes)
    ensures bytes == Projection(b, subject)
  {
    hide LineText;
    bytes := "";
    for n := 0 to |b.log|
      invariant bytes == Projected(b.log[..n], b.retained, subject)
    {
      assert b.log[..n + 1][..n] == b.log[..n] && b.log[..n + 1][n] == b.log[n];
      if n in b.retained && b.log[n].subject == subject {
        bytes := bytes + LineText(b.log[n].payload);
      }
    }
    assert b.log[..|b.log|] == b.log;
  }

  // ---- the view ----

  /** The lines of a queued append the stream already holds. */
  function Published(batch: JL.Batch, b: JL.Broker): nat {
    |JL.Sent(batch, b.log)|
  }

  /** The queued appends in order, each without its applied lines: `applied` is the larger of the durable
      prefix and the recorded number. */
  function Unapplied(pending: seq<JL.Batch>, b: JL.Broker, recorded: JL.Batch -> nat): Bytes {
    if pending == [] then ""
    else
      var batch := pending[0];
      var applied := if recorded(batch) > Published(batch, b) then recorded(batch) else Published(batch, b);
      TextOf(Skip(batch.lines, applied)) + Unapplied(pending[1..], b, recorded)
  }

  /** `queued_jsonl_snapshot`. */
  function View(pending: seq<JL.Batch>, b: JL.Broker, subject: string, recorded: JL.Batch -> nat): Bytes {
    Projection(b, subject) + Unapplied(pending, b, recorded)
  }

  ghost predicate NotAhead(pending: seq<JL.Batch>, b: JL.Broker, recorded: JL.Batch -> nat) {
    forall batch :: batch in pending ==> recorded(batch) <= Published(batch, b)
  }

  // ---- quiet runs ----

  /** Appends to the file happen in queue order, and nothing else touches its lines. */
  ghost predicate Quiet(w: JL.World, ev: JL.Event, pending: seq<JL.Batch>, subject: string) {
    match ev
    case External(msg) => msg.subject != subject
    case Evict(dropped) => forall n :: n in dropped && n < |w.broker.log| ==> w.broker.log[n].subject != subject
    case Work(batch, _, _) =>
      batch in w.publishers && batch.subject == subject ==>
        exists j :: 0 <= j < |pending| && pending[j] == batch && forall i :: 0 <= i < j ==>
          Published(pending[i], w.broker) == |pending[i].lines|
    case _ => true
  }

  ghost predicate QuietRun(w: JL.World, events: seq<JL.Event>, pending: seq<JL.Batch>, subject: string) {
    forall n :: 0 <= n < |events| ==> Quiet(JL.Run(w, events[..n]), events[n], pending, subject)
  }

  /** Every queued append belongs to the file and has its own seed. */
  ghost predicate Queued(w: JL.World, pending: seq<JL.Batch>, subject: string) {
    && (forall j :: 0 <= j < |pending| ==> pending[j] in w.publishers && pending[j].subject == subject)
    && (forall i, j :: 0 <= i < j < |pending| ==> pending[i] != pending[j])
  }

  // ---- every step keeps the view ----

  lemma {:induction false} SameUnapplied(pending: seq<JL.Batch>, b: JL.Broker, b': JL.Broker, recorded: JL.Batch -> nat)
    requires forall batch :: batch in pending ==> Published(batch, b') == Published(batch, b)
    ensures Unapplied(pending, b', recorded) == Unapplied(pending, b, recorded)
  {
    if pending != [] {
      assert pending[0] in pending && forall batch :: batch in pending[1..] ==> batch in pending;
      SameUnapplied(pending[1..], b, b', recorded);
    }
  }

  lemma {:induction false} SameProjected(log: seq<JL.Msg>, retained: set<nat>, retained': set<nat>, subject: string)
    requires forall n: nat :: n < |log| && log[n].subject == subject ==> (n in retained <==> n in retained')
    ensures Projected(log, retained', subject) == Projected(log, retained, subject)
  {
    if log != [] {
      SameProjected(log[..|log| - 1], retained, retained', subject);
    }
  }

  lemma SameLogSameView(pending: seq<JL.Batch>, b: JL.Broker, b': JL.Broker, subject: string, recorded: JL.Batch -> nat)
    requires b'.log == b.log
    requires forall n: nat :: n < |b.log| && b.log[n].subject == subject ==> (n in b.retained <==> n in b'.retained)
    ensures View(pending, b', subject, recorded) == View(pending, b, subject, recorded)
  {
    SameUnapplied(pending, b, b', recorded);
    SameProjected(b.log, b.retained, b'.retained, subject);
  }

  lemma ProjectedAppend(b: JL.Broker, msg: JL.Msg, subject: string)
    ensures Projected(b.log + [msg], b.retained + {|b.log|}, subject) ==
            Projection(b, subject) + if msg.subject == subject then LineText(msg.payload) else ""
  {
    var log := b.log + [msg];
    assert log[..|b.log|] == b.log;
    SameProjected(b.log, b.retained, b.retained + {|b.log|}, subject);
  }

  lemma ForeignAppend(pending: seq<JL.Batch>, b: JL.Broker, b': JL.Broker, msg: JL.Msg, subject: string,
                      recorded: JL.Batch -> nat)
    requires b'.log == b.log + [msg] && b'.retained == b.retained + {|b.log|} && msg.subject != subject
    requires forall batch :: batch in pending ==> !JL.Owns(batch, msg.msgId)
    ensures View(pending, b', subject, recorded) == View(pending, b, subject, recorded)
  {
    hide JL.Owns, JL.Sent, Projected, LineText, Unapplied;
    ProjectedAppend(b, msg, subject);
    forall batch | batch in pending
      ensures Published(batch, b') == Published(batch, b)
    {
      JL.SentAppend(batch, b.log, msg);
    }
    SameUnapplied(pending, b, b', recorded);
  }

  /** The next line of an append moves from its unapplied lines to the end of the stream. */
  lemma {:induction false} OwnAppendMoves(pending: seq<JL.Batch>, j: nat, b: JL.Broker, b': JL.Broker, line: string,
                                          recorded: JL.Batch -> nat)
    requires j < |pending| && NotAhead(pending, b, recorded)
    requires forall i :: 0 <= i < j ==> Published(pending[i], b) == |pending[i].lines|
    requires Published(pending[j], b) < |pending[j].lines| && line == pending[j].lines[Published(pending[j], b)]
    requires Published(pending[j], b') == Published(pending[j], b) + 1
    requires forall i :: 0 <= i < |pending| && i != j ==> Published(pending[i], b') == Published(pending[i], b)
    ensures Unapplied(pending, b, recorded) == LineText(line) + Unapplied(pending, b', recorded)
  {
    hide LineText, Published, TextOf, Skip;
    var rest := pending[1..];
    assert pending[0] in pending && forall batch :: batch in rest ==> batch in pending;
    UnappliedHead(pending, b, recorded);
    UnappliedHead(pending, b', recorded);
    if j == 0 {
      FirstOut(pending[0].lines, Published(pending[0], b));
      forall batch | batch in rest
        ensures Published(batch, b') == Published(batch, b)
      {
        var i :| 0 <= i < |rest| && rest[i] == batch;
        assert pending[i + 1] == batch;
      }
      SameUnapplied(rest, b, b', recorded);
    } else {
      OwnAppendMoves(rest, j - 1, b, b', line, recorded);
      NothingLeft(pending[0].lines);
    }
  }

  lemma UnappliedHead(pending: seq<JL.Batch>, b: JL.Broker, recorded: JL.Batch -> nat)
    requires pending != [] && recorded(pending[0]) <= Published(pending[0], b)
    ensures Unapplied(pending, b, recorded) == TextOf(Skip(pending[0].lines, Published(pending[0], b))) +
            Unapplied(pending[1..], b, recorded)
  {
  }

  lemma NothingLeft(lines: seq<string>)
    ensures TextOf(Skip(lines, |lines|)) == ""
  {
  }

  lemma OwnAppend(pending: seq<JL.Batch>, j: nat, b: JL.Broker, b': JL.Broker, msg: JL.Msg, subject: string,
                  recorded: JL.Batch -> nat)
    requires j < |pending| && NotAhead(pending, b, recorded)
    requires forall i :: 0 <= i < j ==> Published(pending[i], b) == |pending[i].lines|
    requires Published(pending[j], b) < |pending[j].lines| &&
             msg.payload == pending[j].lines[Published(pending[j], b)] && msg.subject == subject
    requires Published(pending[j], b') == Published(pending[j], b) + 1
    requires forall i :: 0 <= i < |pending| && i != j ==> Published(pending[i], b') == Published(pending[i], b)
    requires b'.log == b.log + [msg] && b'.retained == b.retained + {|b.log|}
    ensures View(pending, b', subject, recorded) == View(pending, b, subject, recorded)
  {
    hide LineText, Published, Projected, Unapplied;
    ProjectedAppend(b, msg, subject);
    OwnAppendMoves(pending, j, b, b', msg.payload, recorded);
    var p, t, u := Projection(b, subject), LineText(msg.payload), Unapplied(pending, b', recorded);
    assert Projection(b', subject) == p + t;
    assert (p + t) + u == p + (t + u);
  }

  lemma PublishedMoves(w: JL.World, pending: seq<JL.Batch>, j: nat, b': JL.Broker, subject: string)
    requires JL.Apart(w.publishers) && Queued(w, pending, subject) && j < |pending|
    requires Published(pending[j], w.broker) < |pending[j].lines|
    requires b'.log == w.broker.log + [JL.LineMsg(pending[j], Published(pending[j], w.broker))]
    ensures Published(pending[j], b') == Published(pending[j], w.broker) + 1
    ensures forall i :: 0 <= i < |pending| && i != j ==> Published(pending[i], b') == Published(pending[i], w.broker)
  {
    var b, k := w.broker, Published(pending[j], w.broker);
    var msg := JL.LineMsg(pending[j], k);
    JL.SentAppend(pending[j], b.log, msg);
    assert JL.Owns(pending[j], msg.msgId);
    hide JL.Sent, JL.LineId, JL.LineKey;
    forall i | 0 <= i < |pending| && i != j
      ensures Published(pending[i], b') == Published(pending[i], b)
    {
      JL.OtherIdsNotOwned(pending[i], pending[j], k);
      JL.SentAppend(pending[i], b.log, msg);
    }
  }

  // ---- whole runs ----

  /** Every step of a quiet run leaves the view as it is. */
  lemma StepKeepsView(w: JL.World, ev: JL.Event, pending: seq<JL.Batch>, subject: string, recorded: JL.Batch -> nat)
    requires JL.WorldOk(w) && JL.Allowed(w, ev) && Quiet(w, ev, pending, subject) && Queued(w, pending, subject)
    requires NotAhead(pending, w.broker, recorded)
    ensures View(pending, JL.Step(w, ev).broker, subject, recorded) == View(pending, w.broker, subject, recorded)
  {
    var b, b' := w.broker, JL.Step(w, ev).broker;
    hide View, NotAhead, JL.WorldOk, JL.Apart, JL.Owns;
    match ev
    case External(msg) =>
      if b'.log != b.log {
        assert forall batch :: batch in pending ==> batch in w.publishers;
        ForeignAppend(pending, b, b', msg, subject, recorded);
      }
    case Work(batch, effect, next) =>
      hide JL.Step;
      WorkKeepsView(w, batch, effect, next, pending, subject, recorded);
    case Evict(dropped) => SameLogSameView(pending, b, b', subject, recorded);
    case _ => SameLogSameView(pending, b, b', subject, recorded);
  }

  lemma WorkKeepsView(w: JL.World, batch: JL.Batch, effect: bool, next: JL.Next, pending: seq<JL.Batch>,
                      subject: string, recorded: JL.Batch -> nat)
    requires JL.WorldOk(w) && Quiet(w, JL.Work(batch, effect, next), pending, subject) && Queued(w, pending, subject)
    requires NotAhead(pending, w.broker, recorded)
    ensures View(pending, JL.Step(w, JL.Work(batch, effect, next)).broker, subject, recorded) ==
            View(pending, w.broker, subject, recorded)
  {
    var b, b' := w.broker, JL.Step(w, JL.Work(batch, effect, next)).broker;
    if b'.log == b.log {
      assert b'.retained == b.retained by { LogTellsRetained(w, batch, effect, next); }
      SameLogSameView(pending, b, b', subject, recorded);
    } else {
      LineIsNext(w, batch, effect, next);
      var msg := JL.LineMsg(batch, Published(batch, b));
      hide View, NotAhead, JL.WorldOk, JL.Owns, JL.Step, Published, JL.LineId;
      if batch.subject == subject {
        var j :| 0 <= j < |pending| && pending[j] == batch && forall i :: 0 <= i < j ==>
          Published(pending[i], b) == |pending[i].lines|;
        PublishedMoves(w, pending, j, b', subject);
        OwnAppend(pending, j, b, b', msg, subject, recorded);
      } else {
        forall other | other in pending
          ensures !JL.Owns(other, msg.msgId)
        {
          JL.OtherIdsNotOwned(other, batch, Published(batch, b));
        }
        ForeignAppend(pending, b, b', msg, subject, recorded);
      }
    }
  }

  lemma LogTellsRetained(w: JL.World, batch: JL.Batch, effect: bool, next: JL.Next)
    ensures var b' := JL.Step(w, JL.Work(batch, effect, next)).broker; b'.log == w.broker.log ==>
            b'.retained == w.broker.retained
  {
  }

  /** A publisher only ever appends its next line. */
  lemma LineIsNext(w: JL.World, batch: JL.Batch, effect: bool, next: JL.Next)
    requires JL.WorldOk(w) && JL.Step(w, JL.Work(batch, effect, next)).broker.log != w.broker.log
    ensures batch in w.publishers && JL.Apart(w.publishers) && Published(batch, w.broker) < |batch.lines|
    ensures var b' := JL.Step(w, JL.Work(batch, effect, next)).broker;
            && b'.log == w.broker.log + [JL.LineMsg(batch, Published(batch, w.broker))]
            && b'.retained == w.broker.retained + {|w.broker.log|}
  {
    assert JL.BatchOk(batch, w.broker, w.publishers[batch].pc);
    hide JL.LogOk, JL.Sent, JL.LineId, JL.LineKey;
  }

  function AllText(pending: seq<JL.Batch>): Bytes {
    if pending == [] then "" else TextOf(pending[0].lines) + AllText(pending[1..])
  }

  const NOTHING: JL.Batch -> nat := _ => 0

  lemma {:induction false} RecordedDoesNotMatter(pending: seq<JL.Batch>, b: JL.Broker, recorded: JL.Batch -> nat)
    requires NotAhead(pending, b, recorded)
    ensures Unapplied(pending, b, recorded) == Unapplied(pending, b, NOTHING)
  {
    if pending != [] {
      assert pending[0] in pending && forall batch :: batch in pending[1..] ==> batch in pending;
      hide TextOf, Skip, Published;
      RecordedDoesNotMatter(pending[1..], b, recorded);
    }
  }

  lemma {:induction false} NothingPublished(pending: seq<JL.Batch>, b: JL.Broker)
    requires forall batch :: batch in pending ==> Published(batch, b) == 0
    ensures Unapplied(pending, b, NOTHING) == AllText(pending)
  {
    if pending != [] {
      assert pending[0] in pending && forall batch :: batch in pending[1..] ==> batch in pending;
      NothingPublished(pending[1..], b);
      assert Skip(pending[0].lines, 0) == pending[0].lines;
    }
  }

  lemma NothingIsNotAhead(pending: seq<JL.Batch>, b: JL.Broker)
    ensures NotAhead(pending, b, NOTHING)
  {
  }

  lemma FrontIsQuiet(w: JL.World, events: seq<JL.Event>, pending: seq<JL.Batch>, subject: string)
    requires events != [] && JL.AllowedRun(w, events) && QuietRun(w, events, pending, subject)
    ensures var front, ev := events[..|events| - 1], events[|events| - 1];
            && JL.AllowedRun(w, front) && QuietRun(w, front, pending, subject)
            && JL.Allowed(JL.Run(w, front), ev) && Quiet(JL.Run(w, front), ev, pending, subject)
  {
    hide JL.Run, JL.Allowed, Quiet;
    var front := events[..|events| - 1];
    forall i | 0 <= i < |front|
      ensures front[i] == events[i] && front[..i] == events[..i]
    {
    }
  }

  lemma {:induction false} RunKeepsView(w: JL.World, events: seq<JL.Event>, pending: seq<JL.Batch>, subject: string)
    requires JL.Initial(w) && JL.AllowedRun(w, events) && QuietRun(w, events, pending, subject) &&
             Queued(w, pending, subject)
    ensures View(pending, JL.Run(w, events).broker, subject, NOTHING) == View(pending, w.broker, subject, NOTHING)
  {
    if events != [] {
      hide JL.Step, JL.WorldOk, JL.Allowed, JL.Initial, JL.AllowedRun, QuietRun, View, Quiet, NotAhead;
      FrontIsQuiet(w, events, pending, subject);
      var front := events[..|events| - 1];
      RunKeepsView(w, front, pending, subject);
      JL.RunKeeps(w, front);
      var mid := JL.Run(w, front);
      NothingIsNotAhead(pending, mid.broker);
      assert Queued(mid, pending, subject);
      StepKeepsView(mid, events[|events| - 1], pending, subject, NOTHING);
    }
  }

  /** While queued appends are published in order, and as long as no recorded number is ahead of the
      stream, the file shows its old lines followed by all the queued ones, at every publish step. */
  lemma PendingViewIsConstant(w: JL.World, events: seq<JL.Event>, pending: seq<JL.Batch>, subject: string,
                              recorded: JL.Batch -> nat)
    requires JL.Initial(w) && JL.AllowedRun(w, events) && QuietRun(w, events, pending, subject) &&
             Queued(w, pending, subject)
    requires NotAhead(pending, JL.Run(w, events).broker, recorded)
    ensures View(pending, JL.Run(w, events).broker, subject, recorded) ==
            Projection(w.broker, subject) + AllText(pending)
  {
    RunKeepsView(w, events, pending, subject);
    RecordedDoesNotMatter(pending, JL.Run(w, events).broker, recorded);
    forall batch | batch in pending
      ensures Published(batch, w.broker) == 0
    {
      JL.NothingSent(batch, w.broker.log);
    }
    NothingPublished(pending, w.broker);
  }

  // ---- recorded numbers are never ahead ----

  lemma StepPublishes(w: JL.World, ev: JL.Event, batch: JL.Batch)
    ensures Published(batch, w.broker) <= Published(batch, JL.Step(w, ev).broker)
  {
    var log, log' := w.broker.log, JL.Step(w, ev).broker.log;
    if log' != log {
      assert log' == log + [log'[|log|]];
      JL.SentAppend(batch, log, log'[|log|]);
    }
  }

  /** The prefix found at some point of a run, which the queue records, is never ahead later on. */
  lemma {:induction false} RecordedIsNotAhead(w: JL.World, events: seq<JL.Event>, n: nat, batch: JL.Batch)
    requires n <= |events|
    ensures Published(batch, JL.Run(w, events[..n]).broker) <= Published(batch, JL.Run(w, events).broker)
  {
    if n == |events| {
      assert events[..n] == events;
    } else {
      var front := events[..|events| - 1];
      RecordedIsNotAhead(w, front, n, batch);
      assert front[..n] == events[..n];
      hide JL.Step, Published;
      StepPublishes(JL.Run(w, front), events[|events| - 1], batch);
    }
  }

  lemma {:induction false} MoreLinesMoreText(lines: seq<string>)
    ensures |TextOf(lines)| >= |lines|
  {
    if lines != [] {
      MoreLinesMoreText(lines[..|lines| - 1]);
      assert |LineText(lines[|lines| - 1])| >= 1;
    }
  }

  // ---- a recorded number that is ahead ----

  /** Skipping more leaves less text, and strictly less as long as there are lines to skip. */
  lemma SkipMore(lines: seq<string>, n: nat, m: nat)
    requires n <= m
    ensures |TextOf(Skip(lines, m))| <= |TextOf(Skip(lines, n))|
    ensures TextOf(Skip(lines, m)) == TextOf(Skip(lines, n)) <==> n == m || n >= |lines|
    ensures n < m && n < |lines| ==> |TextOf(Skip(lines, m))| < |TextOf(Skip(lines, n))|
  {
    hide TextOf;
    if n < m && n < |lines| {
      var k := if m < |lines| then m else |lines|;
      assert Skip(lines, n) == lines[n..k] + Skip(lines, m);
      TextAppend(lines[n..k], Skip(lines, m));
      MoreLinesMoreText(lines[n..k]);
    }
  }

  /** The recorded number skips no line that is still to be published. */
  predicate SkipsNothing(batch: JL.Batch, b: JL.Broker, recorded: JL.Batch -> nat) {
    recorded(batch) <= Published(batch, b) || Published(batch, b) >= |batch.lines|
  }

  lemma SamePieces(a: Bytes, b: Bytes, c: Bytes, d: Bytes)
    requires |a| <= |c| && |b| <= |d|
    ensures a + b == c + d <==> a == c && b == d
  {
    if a + b == c + d {
      assert |a| == |c|;
      assert (a + b)[..|a|] == a && (c + d)[..|c|] == c && (a + b)[|a|..] == b && (c + d)[|c|..] == d;
    }
  }

  ghost predicate NoneSkipped(pending: seq<JL.Batch>, b: JL.Broker, recorded: JL.Batch -> nat) {
    forall batch :: batch in pending ==> SkipsNothing(batch, b, recorded)
  }

  lemma NoneSkippedStep(pending: seq<JL.Batch>, b: JL.Broker, recorded: JL.Batch -> nat)
    requires pending != []
    ensures NoneSkipped(pending, b, recorded) <==>
              SkipsNothing(pending[0], b, recorded) && NoneSkipped(pending[1..], b, recorded)
  {
    hide SkipsNothing;
    assert forall batch :: batch in pending <==> batch == pending[0] || batch in pending[1..];
  }

  lemma UnappliedStep(pending: seq<JL.Batch>, b: JL.Broker, recorded: JL.Batch -> nat)
    requires pending != []
    ensures var n := Published(pending[0], b);
            Unapplied(pending, b, recorded) ==
            TextOf(Skip(pending[0].lines, if recorded(pending[0]) > n then recorded(pending[0]) else n)) +
            Unapplied(pending[1..], b, recorded)
  {
    hide TextOf, Skip, Published;
  }

  lemma {:induction false} AheadSkips(pending: seq<JL.Batch>, b: JL.Broker, recorded: JL.Batch -> nat)
    ensures |Unapplied(pending, b, recorded)| <= |Unapplied(pending, b, NOTHING)|
    ensures Unapplied(pending, b, recorded) == Unapplied(pending, b, NOTHING) <==> NoneSkipped(pending, b, recorded)
  {
    if pending != [] {
      hide TextOf, Skip, Published, Unapplied, NoneSkipped;
      var batch, rest := pending[0], pending[1..];
      AheadSkips(rest, b, recorded);
      NoneSkippedStep(pending, b, recorded);
      UnappliedStep(pending, b, recorded);
      UnappliedStep(pending, b, NOTHING);
      var n := Published(batch, b);
      var m := if recorded(batch) > n then recorded(batch) else n;
      SkipMore(batch.lines, n, m);
      SamePieces(TextOf(Skip(batch.lines, m)), Unapplied(rest, b, recorded), TextOf(Skip(batch.lines, n)),
        Unapplied(rest, b, NOTHING));
    }
  }

  /** Exactly when the view is whole for any recorded numbers: none of them skips a line that is still to be
      published. */
  lemma ViewIsWholeExactly(w: JL.World, events: seq<JL.Event>, pending: seq<JL.Batch>, subject: string,
                           recorded: JL.Batch -> nat)
    requires JL.Initial(w) && JL.AllowedRun(w, events) && QuietRun(w, events, pending, subject) &&
             Queued(w, pending, subject)
    ensures var b := JL.Run(w, events).broker;
            View(pending, b, subject, recorded) == Projection(w.broker, subject) + AllText(pending) <==>
            forall batch :: batch in pending ==> SkipsNothing(batch, b, recorded)
  {
    assert NoneSkipped(pending, JL.Run(w, events).broker, recorded) <==>
           forall batch :: batch in pending ==> SkipsNothing(batch, JL.Run(w, events).broker, recorded);
    hide NoneSkipped, JL.Run, JL.Initial, JL.AllowedRun, QuietRun, Queued, SkipsNothing, NotAhead;
    var b := JL.Run(w, events).broker;
    NothingIsNotAhead(pending, b);
    PendingViewIsConstant(w, events, pending, subject, NOTHING);
    AheadSkips(pending, b, recorded);
    hide Unapplied, AllText, Projection;
    SamePieces(Projection(b, subject), Unapplied(pending, b, recorded), Projection(b, subject),
      Unapplied(pending, b, NOTHING));
  }

  // ---- progress told from the text ----

  /** `jsonl_canonical_lines`. */
  function Canonical(lines: seq<string>): (texts: seq<Bytes>)
    ensures |texts| == |lines| && forall i :: 0 <= i < |lines| ==> texts[i] == LineText(lines[i])
  {
    seq(|lines|, i requires 0 <= i < |lines| => LineText(lines[i]))
  }

  function CommonPrefix(a: seq<Bytes>, b: seq<Bytes>): nat {
    if a == [] || b == [] || a[0] != b[0] then 0 else 1 + CommonPrefix(a[1..], b[1..])
  }

  /** `jsonl_applied_prefix_count`. */
  function AppliedPrefixCount(base: Bytes, current: Bytes, pending: Bytes): nat {
    var before, now, queued := Canonical(Lines(base)), Canonical(Lines(current)), Canonical(Lines(pending));
    if |now| < |before| || now[..|before|] != before then 0 else CommonPrefix(now[|before|..], queued)
  }

  /** What a projection looks like: empty, or ending with a newline. */
  predicate WholeLines(bytes: Bytes) {
    bytes == "" || EndsWith(bytes, "\n")
  }

  lemma ProjectionIsWhole(log: seq<JL.Msg>, retained: set<nat>, subject: string)
    ensures WholeLines(Projected(log, retained, subject))
  {
  }

  lemma TextIsWhole(lines: seq<string>)
    ensures WholeLines(TextOf(lines))
  {
  }

  lemma {:induction false} KeepLinesAppend(a: seq<string>, b: seq<string>)
    requires Solid(a, '\n') && Solid(b, '\n')
    ensures Solid(a + b, '\n') && KeepLines(a + b) == KeepLines(a) + KeepLines(b)
  {
    hide Trim;
    if a == [] {
      assert a + b == b;
    } else {
      KeepLinesAppend(a[1..], b);
      assert (a + b)[1..] == a[1..] + b && (a + b)[0] == a[0];
    }
  }

  lemma SplitLines(a: Bytes, b: Bytes)
    ensures Lines(a + ['\n'] + b) == KeepLines(Split(a, '\n')) + Lines(b)
  {
    SplitAppend(a, b, '\n');
    KeepLinesAppend(Split(a, '\n'), Split(b, '\n'));
    hide Split, KeepLines;
  }

  /** The lines of a text that starts with whole lines. */
  lemma LinesAppend(a: Bytes, b: Bytes)
    requires WholeLines(a)
    ensures Lines(a + b) == Lines(a) + Lines(b)
  {
    hide Lines, Split, KeepLines;
    NoLines();
    if a == "" {
      assert a + b == b;
    } else {
      var a0 := a[..|a| - 1];
      assert a == a0 + ['\n'] + "" && a + b == a0 + ['\n'] + b;
      SplitLines(a0, b);
      SplitLines(a0, "");
    }
  }

  lemma NoLines()
    ensures Lines("") == []
  {
    assert Split("", '\n') == [""];
    assert Trim("") == "";
    assert [""][1..] == [];
  }

  lemma OneLine(line: string)
    requires IsLine(line)
    ensures Lines(LineText(line)) == [line]
  {
    assert LineText(line) == line + ['\n'] + "" by {
      assert line[|line| - 1] in line;
    }
    SplitLines(line, "");
    SplitSolid(line, '\n');
    NoLines();
    TrimmedStays(line);
    KeepOne(line);
    hide Lines, Split, KeepLines;
  }

  lemma KeepOne(line: string)
    requires IsLine(line)
    ensures KeepLines([line]) == [Trim(line)]
  {
    TrimmedStays(line);
    assert KeepLines([]) == [];
    assert [line][1..] == [];
  }

  lemma TrimmedStays(line: string)
    requires Trimmed(line)
    ensures Trim(line) == line
  {
  }

  /** Lines that were written out are read back. */
  lemma {:induction false} LinesOfText(lines: seq<string>)
    requires forall i :: 0 <= i < |lines| ==> IsLine(lines[i])
    ensures Lines(TextOf(lines)) == lines
  {
    hide Lines, LineText, IsLine;
    if lines == [] {
      NoLines();
    } else {
      var front, last := lines[..|lines| - 1], lines[|lines| - 1];
      LinesOfText(front);
      TextIsWhole(front);
      LinesAppend(TextOf(front), LineText(last));
      OneLine(last);
      assert TextOf(lines) == TextOf(front) + LineText(last);
      hide TextOf;
      assert lines == front + [last];
    }
  }

  lemma {:induction false} CommonPrefixExtends(a: seq<Bytes>, b: seq<Bytes>, c: seq<Bytes>)
    ensures CommonPrefix(a + b, a + c) == |a| + CommonPrefix(b, c)
  {
    if a == [] {
      assert a + b == b && a + c == c;
    } else {
      assert (a + b)[1..] == a[1..] + b && (a + c)[1..] == a[1..] + c;
      CommonPrefixExtends(a[1..], b, c);
    }
  }

  lemma NoCommonPrefix(b: seq<Bytes>)
    ensures CommonPrefix(Canonical([]), b) == 0
  {
  }

  /** After the first `k` queued lines were appended to a projection, the count is `k`; lines that others
      appended behind them only count if they repeat the next queued ones. */
  lemma PrefixCountIsExact(base: Bytes, pending: Bytes, k: nat, extra: Bytes)
    requires WholeLines(base) && k <= |Lines(pending)|
    ensures AppliedPrefixCount(base, base + TextOf(Lines(pending)[..k]) + extra, pending) ==
            k + CommonPrefix(Canonical(Lines(extra)), Canonical(Lines(pending)[k..]))
    ensures AppliedPrefixCount(base, base + TextOf(Lines(pending)[..k]), pending) == k
  {
    hide Lines, LineText, Canonical, CommonPrefix;
    NoCommonPrefix(Canonical(Lines(pending)[k..]));
    var queued := Lines(pending);
    var done, left := queued[..k], queued[k..];
    assert queued == done + left;
    LinesOfText(done);
    TextIsWhole(done);
    LinesAppend(TextOf(done), extra);
    assert base + TextOf(done) + extra == base + (TextOf(done) + extra);
    assert done + [] == done;
    hide TextOf, AppliedPrefixCount;
    CountAfter(base, TextOf(done) + extra, pending, done, Lines(extra), left);
    CountAfter(base, TextOf(done), pending, done, [], left);
  }

  lemma CanonicalAppend(a: seq<string>, b: seq<string>)
    ensures Canonical(a + b) == Canonical(a) + Canonical(b)
  {
    hide LineText;
  }

  lemma CountAfter(base: Bytes, added: Bytes, pending: Bytes, done: seq<string>, more: seq<string>, left: seq<string>)
    requires WholeLines(base) && Lines(added) == done + more && Lines(pending) == done + left
    ensures AppliedPrefixCount(base, base + added, pending) == |done| + CommonPrefix(Canonical(more), Canonical(left))
  {
    hide Lines, LineText, CommonPrefix, Canonical;
    LinesAppend(base, added);
    CanonicalAppend(Lines(base), done + more);
    CanonicalAppend(done, more);
    CanonicalAppend(done, left);
    var before, now := Canonical(Lines(base)), Canonical(Lines(base + added));
    assert now == before + (Canonical(done) + Canonical(more));
    assert now[|before|..] == Canonical(done) + Canonical(more);
    CommonPrefixExtends(Canonical(done), Canonical(more), Canonical(left));
  }
}
