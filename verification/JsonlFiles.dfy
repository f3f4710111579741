/** JSON lines files by mount path (eventfs-fuse/src/fs/queued_overlay.rs, mount_projection.rs): which queued
    appends a path shows, and exactly when a reader of that path sees all of them. */
module JsonlFiles {
  import opened Text
  import opened JsonLines
  import opened FileNames
  import opened Paths
  import opened PathLaws
  import opened Aliases
  import opened JsonlView
  import OverlayView
  import JL = JetStreamLines

  function FactFor(batch: JL.Batch): StorageFact {
    StreamFact(batch.stream, batch.subject)
  }

  // ---- which appends a path shows ----

  /** `jsonl_entries`: the queued appends whose list of visible paths holds the path. */
  function PendingAt(queue: seq<JL.Batch>, path: MountPath): seq<JL.Batch> {
    if queue == [] then []
    else (if path in OverlayView.FactPaths(FactFor(queue[0])) then [queue[0]] else []) + PendingAt(queue[1..], path)
  }

  /** The queued appends to one subject of one stream. */
  function PendingOf(queue: seq<JL.Batch>, f: StorageFact): seq<JL.Batch> {
    if queue == [] then []
    else (if FactFor(queue[0]) == f then [queue[0]] else []) + PendingOf(queue[1..], f)
  }

  /** A subject path is listed for its fact exactly when it is the printed one and the fact is no slash mailbox. */
  lemma RoutingIsExact(path: MountPath, p: JetStreamPath, f: StorageFact)
    requires MountComponents(path) && ParseComponents(path) == Some(p) && FactOf(p) == Some(f) && f.StreamFact?
    ensures path in OverlayView.FactPaths(f) <==> !BadMailbox(f) && Print(p) == Some(path)
  {
    hide ParseComponents, VisiblePaths, Print, BadMailbox, MountComponents;
    VisiblePathsExist(path, p);
    VisiblePathsAreComplete(path);
    var paths := VisiblePaths(f);
    if !BadMailbox(f) && Print(p) == Some(path) {
      var i :| 0 <= i < |paths.value| && paths.value[i].path == path;
      assert OverlayView.FactPaths(f)[i] == path;
    }
    if path in OverlayView.FactPaths(f) {
      var i :| 0 <= i < |OverlayView.FactPaths(f)| && OverlayView.FactPaths(f)[i] == path;
      if p.StreamSubject? {
        SubjectHead(path, p);
        ListedSubjectIsExact(f, i);
        ExactIsPrinted(p);
      } else {
        PrintInvertsParse(path);
      }
    }
  }

  lemma SubjectHead(path: MountPath, p: JetStreamPath)
    requires ParseComponents(path) == Some(p) && p.StreamSubject?
    ensures path != [] && path[0] == "streams"
  {
  }

  lemma ExactIsPrinted(p: JetStreamPath)
    requires p.StreamSubject?
    ensures ExactPath(FactOf(p).value) == Print(p)
  {
    hide WithTail, SubjectFileName;
  }

  lemma AliasHeads(s: string, subject: string)
    ensures EventAlias(s, subject).Some? && EventAlias(s, subject).value.Some? ==>
              var m := EventAlias(s, subject).value.value; m != [] && m[0] == "events"
    ensures MailboxAlias(s, subject).Some? && MailboxAlias(s, subject).value.Some? ==>
              var m := MailboxAlias(s, subject).value.value; m != [] && m[0] == "agents"
  {
    hide MailboxParts;
  }

  /** Among the paths of a stream fact only the exact one is a subject file. */
  lemma ListedSubjectIsExact(f: StorageFact, i: nat)
    requires f.StreamFact? && VisiblePaths(f).Some? && i < |VisiblePaths(f).value|
    requires var m := VisiblePaths(f).value[i].path; m != [] && m[0] == "streams"
    ensures ExactPath(f) == Some(VisiblePaths(f).value[i].path)
  {
    hide ExactPath, EventAlias, MailboxAlias;
    AliasHeads(f.stream, f.subject);
    var exact := Push(Some([]), ExactPath(f), Exact);
    var events := PushAlias(exact, EventAlias(f.stream, f.subject), Alias);
    var all := PushAlias(events, MailboxAlias(f.stream, f.subject), Mailbox);
    assert all.value[i] in events.value;
    assert all.value[i] in exact.value;
  }

  /** A path that parses is listed for no other fact. */
  lemma ListedForOwnFact(path: MountPath, p: JetStreamPath, f: StorageFact, g: StorageFact)
    requires ParseComponents(path) == Some(p) && FactOf(p) == Some(f) && path in OverlayView.FactPaths(g)
    ensures f == g
  {
    hide ParseComponents, VisiblePaths;
    var i :| 0 <= i < |OverlayView.FactPaths(g)| && OverlayView.FactPaths(g)[i] == path;
    VisiblePathsShowFact(g, i);
  }

  predicate Listed(path: MountPath, p: JetStreamPath, f: StorageFact) {
    !BadMailbox(f) && Print(p) == Some(path)
  }

  /** So a listed path shows the queued appends to its subject, and any other path shows none. */
  lemma {:induction false} PendingIsExact(queue: seq<JL.Batch>, path: MountPath, p: JetStreamPath, f: StorageFact)
    requires MountComponents(path) && ParseComponents(path) == Some(p) && FactOf(p) == Some(f) && f.StreamFact?
    ensures PendingAt(queue, path) == if Listed(path, p, f) then PendingOf(queue, f) else []
  {
    if queue != [] {
      PendingIsExact(queue[1..], path, p, f);
      hide ParseComponents, OverlayView.FactPaths, MountComponents, Print, BadMailbox;
      RoutingIsExact(path, p, f);
      var g := FactFor(queue[0]);
      if path in OverlayView.FactPaths(g) {
        ListedForOwnFact(path, p, f, g);
      }
    }
  }

  // ---- what a reader gets ----

  predicate Stored(b: JL.Broker, subject: string) {
    exists n :: 0 <= n < |b.log| && n in b.retained && b.log[n].subject == subject
  }

  /** The lines left out of an append: the larger of the durable prefix, which counts as nothing if the
      query is not answered, and the recorded number. */
  function Skipped(batch: JL.Batch, b: JL.Broker, recorded: JL.Batch -> nat, answered: JL.Batch -> bool): nat {
    var durable := if answered(batch) then Published(batch, b) else 0;
    if recorded(batch) > durable then recorded(batch) else durable
  }

  function Shown(pending: seq<JL.Batch>, b: JL.Broker, recorded: JL.Batch -> nat, answered: JL.Batch -> bool): Bytes {
    if pending == [] then ""
    else
      var applied := Skipped(pending[0], b, recorded, answered);
      TextOf(Skip(pending[0].lines, applied)) + Shown(pending[1..], b, recorded, answered)
  }

  /** `read_snapshot` of a JSON lines path: stored lines and the queued ones, or just the stored ones if
      nothing is queued for the path; a subject file without messages is missing. */
  function ReadFile(queue: seq<JL.Batch>, b: JL.Broker, path: MountPath, p: JetStreamPath, recorded: JL.Batch -> nat,
                    answered: JL.Batch -> bool): Option<Bytes>
    requires FactOf(p).Some? && FactOf(p).value.StreamFact?
  {
    var subject, pending := FactOf(p).value.subject, PendingAt(queue, path);
    if pending != [] then Some(Projection(b, subject) + Shown(pending, b, recorded, answered))
    else if p.StreamSubject? && !Stored(b, subject) then None
    else Some(Projection(b, subject))
  }

  /** The progress of an append is known: the query was answered, or the recorded number is up to date. */
  predicate UpToDate(batch: JL.Batch, b: JL.Broker, recorded: JL.Batch -> nat, answered: JL.Batch -> bool) {
    answered(batch) || recorded(batch) == Published(batch, b)
  }

  ghost predicate Within(pending: seq<JL.Batch>, b: JL.Broker) {
    forall batch :: batch in pending ==> Published(batch, b) <= |batch.lines|
  }

  lemma SkipLess(lines: seq<string>, less: nat, more: nat)
    requires less <= more <= |lines|
    ensures |TextOf(Skip(lines, less))| >= |TextOf(Skip(lines, more))| + (more - less)
  {
    var extra := lines[less..more];
    assert Skip(lines, less) == extra + Skip(lines, more);
    TextAppend(extra, Skip(lines, more));
    MoreLinesMoreText(extra);
  }

  lemma JoinedEqual(a: Bytes, b: Bytes, c: Bytes, d: Bytes)
    requires |a| >= |c| && |b| >= |d|
    ensures a + b == c + d <==> a == c && b == d
  {
    if a + b == c + d {
      assert a == (a + b)[..|a|] && b == (a + b)[|a|..];
      assert c == (c + d)[..|c|] && d == (c + d)[|c|..];
    }
  }

  lemma HeadIsLonger(batch: JL.Batch, b: JL.Broker, recorded: JL.Batch -> nat, answered: JL.Batch -> bool)
    requires recorded(batch) <= Published(batch, b) <= |batch.lines|
    ensures var (shown, left) := (TextOf(Skip(batch.lines, Skipped(batch, b, recorded, answered))),
            TextOf(Skip(batch.lines, Published(batch, b))));
            |shown| >= |left| && (shown == left <==> UpToDate(batch, b, recorded, answered))
  {
    SkipLess(batch.lines, Skipped(batch, b, recorded, answered), Published(batch, b));
    hide TextOf, Skip, Published;
  }

  /** Showing an append without knowing its progress repeats lines. */
  lemma {:induction false} ShownIsLonger(pending: seq<JL.Batch>, b: JL.Broker, recorded: JL.Batch -> nat,
                                         answered: JL.Batch -> bool)
    requires NotAhead(pending, b, recorded) && Within(pending, b)
    ensures |Shown(pending, b, recorded, answered)| >= |Unapplied(pending, b, NOTHING)|
    ensures Shown(pending, b, recorded, answered) == Unapplied(pending, b, NOTHING) <==>
            forall batch :: batch in pending ==> UpToDate(batch, b, recorded, answered)
  {
    if pending != [] {
      hide TextOf, Skip, Published, UpToDate, Skipped, Unapplied;
      var batch, rest := pending[0], pending[1..];
      assert batch in pending && forall x :: x in pending <==> x == batch || x in rest;
      ShownIsLonger(rest, b, recorded, answered);
      UnappliedHead(pending, b, NOTHING);
      HeadIsLonger(batch, b, recorded, answered);
      var shown, left := TextOf(Skip(batch.lines, Skipped(batch, b, recorded, answered))),
        TextOf(Skip(batch.lines, Published(batch, b)));
      JoinedEqual(shown, Shown(rest, b, recorded, answered), left, Unapplied(rest, b, NOTHING));
    }
  }

  lemma {:induction false} NothingUnapplied(pending: seq<JL.Batch>, b: JL.Broker)
    requires Within(pending, b)
    ensures Unapplied(pending, b, NOTHING) == "" <==> forall batch :: batch in pending ==>
            Published(batch, b) == |batch.lines|
  {
    if pending != [] {
      var batch, rest := pending[0], pending[1..];
      assert batch in pending && forall x :: x in pending <==> x == batch || x in rest;
      NothingUnapplied(rest, b);
      UnappliedHead(pending, b, NOTHING);
      SkipLess(batch.lines, Published(batch, b), |batch.lines|);
      NothingLeft(batch.lines);
      hide TextOf, Skip, Published;
    }
  }

  // ---- exactly when a reader sees everything ----

  /** A run of quiet publishes leaves what was stored, followed by what is published and what is not. */
  lemma QuietSplit(w: JL.World, events: seq<JL.Event>, pending: seq<JL.Batch>, subject: string)
    requires JL.Initial(w) && JL.AllowedRun(w, events) && QuietRun(w, events, pending, subject) &&
             Queued(w, pending, subject)
    ensures var b := JL.Run(w, events).broker;
            Projection(b, subject) + Unapplied(pending, b, NOTHING) == Projection(w.broker, subject) + AllText(pending)
    ensures Within(pending, JL.Run(w, events).broker)
  {
    var b := JL.Run(w, events).broker;
    NothingIsNotAhead(pending, b);
    PendingViewIsConstant(w, events, pending, subject, NOTHING);
    JL.RunKeeps(w, events);
    forall batch | batch in pending
      ensures Published(batch, b) <= |batch.lines|
    {
      assert batch in w.publishers;
      assert JL.LogOk(batch, b);
    }
  }

  lemma SuffixCancels(a: Bytes, b: Bytes, c: Bytes)
    ensures a + b == a + c <==> b == c
    ensures a == a + b <==> b == ""
  {
    if a + b == a + c {
      assert b == (a + b)[|a|..] && c == (a + c)[|a|..];
    }
  }

  /** While queued appends to a file are published in order, a reader of the path sees the old lines
      followed by all the queued ones if and only if the path is listed for its subject and the progress of
      every append is known, or, if it is not listed, everything was published already. */
  lemma ReadIsWholeExactly(w: JL.World, events: seq<JL.Event>, queue: seq<JL.Batch>, path: MountPath, p: JetStreamPath,
                           recorded: JL.Batch -> nat, answered: JL.Batch -> bool)
    requires MountComponents(path) && ParseComponents(path) == Some(p) && FactOf(p).Some? && FactOf(p).value.StreamFact?
    requires JL.Initial(w) && JL.AllowedRun(w, events)
    requires var f := FactOf(p).value; var pending := PendingOf(queue, f);
             pending != [] && QuietRun(w, events, pending, f.subject) && Queued(w, pending, f.subject)
    requires NotAhead(PendingOf(queue, FactOf(p).value), JL.Run(w, events).broker, recorded)
    ensures var f, b := FactOf(p).value, JL.Run(w, events).broker; var pending := PendingOf(queue, f);
            ReadFile(queue, b, path, p, recorded, answered) ==
              Some(Projection(w.broker, f.subject) + AllText(pending)) <==>
            if Listed(path, p, f) then forall batch :: batch in pending ==> UpToDate(batch, b, recorded, answered)
            else (p.StreamSubject? ==> Stored(b, f.subject)) && forall batch :: batch in pending ==>
              Published(batch, b) == |batch.lines|
  {
    var f, b := FactOf(p).value, JL.Run(w, events).broker;
    var pending := PendingOf(queue, f);
    PendingIsExact(queue, path, p, f);
    QuietSplit(w, events, pending, f.subject);
    ShownIsLonger(pending, b, recorded, answered);
    NothingUnapplied(pending, b);
    hide JL.Run, JL.Initial, JL.AllowedRun, QuietRun, Queued, NotAhead, Within, UpToDate, Published;
    hide Projection, AllText, Unapplied, Shown;
    hide PendingAt, PendingOf, Listed, Stored, ParseComponents, MountComponents, FactOf;
    var stored := Projection(b, f.subject);
    SuffixCancels(stored, Shown(pending, b, recorded, answered), Unapplied(pending, b, NOTHING));
    SuffixCancels(stored, Unapplied(pending, b, NOTHING), "");
  }

  /** In particular the view of the printed path, or of an alias, does not move. */
  lemma ListedFileIsConstant(w: JL.World, events: seq<JL.Event>, queue: seq<JL.Batch>, path: MountPath,
                             p: JetStreamPath, recorded: JL.Batch -> nat)
    requires MountComponents(path) && ParseComponents(path) == Some(p) && FactOf(p).Some? && FactOf(p).value.StreamFact?
    requires JL.Initial(w) && JL.AllowedRun(w, events) && Listed(path, p, FactOf(p).value)
    requires var f := FactOf(p).value; var pending := PendingOf(queue, f);
             pending != [] && QuietRun(w, events, pending, f.subject) && Queued(w, pending, f.subject)
    requires NotAhead(PendingOf(queue, FactOf(p).value), JL.Run(w, events).broker, recorded)
    ensures var f := FactOf(p).value;
            ReadFile(queue, JL.Run(w, events).broker, path, p, recorded, _ => true) ==
            Some(Projection(w.broker, f.subject) + AllText(PendingOf(queue, f)))
  {
    ReadIsWholeExactly(w, events, queue, path, p, recorded, _ => true);
  }

  // ---- paths that show nothing pending ----

  /** The subject file of a slash mailbox never shows what is queued for it. */
  lemma SlashMailboxIsHidden(queue: seq<JL.Batch>)
    ensures var path := ["streams", AGENTS_STREAM, "subjects", SubjectFileName(SLASH_MAILBOX)];
            PendingAt(queue, path) == []
  {
    SlashMailboxHasNoPaths();
    hide SubjectFileName, ParseComponents, VisiblePaths, Print, BadMailbox, MountComponents;
    var path, p := ["streams", AGENTS_STREAM, "subjects", SubjectFileName(SLASH_MAILBOX)],
      StreamSubject(AGENTS_STREAM, SLASH_MAILBOX);
    PendingIsExact(queue, path, p, StreamFact(AGENTS_STREAM, SLASH_MAILBOX));
  }

  function HexName(subject: string): string {
    ENCODED_PREFIX + Hex(Utf8(subject)) + JSONL_SUFFIX
  }

  lemma HexNameIsComponent(subject: string)
    ensures MountComponent(HexName(subject))
  {
    assert forall i :: 0 <= i < |JSONL_SUFFIX| ==> PlainChar(JSONL_SUFFIX[i]);
    assert forall i :: 0 <= i < |ENCODED_PREFIX| ==> PlainChar(ENCODED_PREFIX[i]);
    HexChars(Utf8(subject));
    PlainAppend(ENCODED_PREFIX, Hex(Utf8(subject)));
    PlainAppend(ENCODED_PREFIX + Hex(Utf8(subject)), JSONL_SUFFIX);
    PlainIsComponent(HexName(subject));
  }

  /** The base 16 spelling of a plain subject opens the same file for writing, and does not show the lines
      that are queued for it. */
  lemma HexSpellingIsHidden(stream: string, subject: string, queue: seq<JL.Batch>)
    requires ValidToken(stream) && ValidSubject(subject) && IsPlainStem(subject)
    ensures var path := ["streams", stream, "subjects", HexName(subject)];
            && MountComponents(path) && ParseComponents(path) == Some(StreamSubject(stream, subject))
            && PendingAt(queue, path) == []
  {
    hide Hex, Utf8, ParseSubjectFileName, SubjectFileName, HexName, IsPlainStem, Print, BadMailbox, ParseComponents;
    var path, p := ["streams", stream, "subjects", HexName(subject)], StreamSubject(stream, subject);
    HexPathIsValid(stream, subject);
    HexNameDecodes(subject);
    HexNameParses(stream, subject);
    HexNameDiffers(subject);
    SubjectRoundTrip(stream, subject);
    hide MountComponents, ValidSubject, ValidToken;
    PendingIsExact(queue, path, p, StreamFact(stream, subject));
    assert Print(p).value[3] == SubjectFileName(subject);
  }

  lemma HexPathIsValid(stream: string, subject: string)
    requires ValidToken(stream)
    ensures MountComponents(["streams", stream, "subjects", HexName(subject)])
  {
    TokenIsComponent(stream);
    HexNameIsComponent(subject);
    hide HexName;
  }

  lemma HexNameDecodes(subject: string)
    requires subject != ""
    ensures ParseSubjectFileName(HexName(subject)) == Some(subject)
  {
    hide Hex, Utf8, ParseSubjectFileName;
    EncodedNameDecodes(subject);
  }

  lemma HexNameParses(stream: string, subject: string)
    requires ValidToken(stream) && ValidSubject(subject) && ParseSubjectFileName(HexName(subject)) == Some(subject)
    ensures ParseComponents(["streams", stream, "subjects", HexName(subject)]) == Some(StreamSubject(stream, subject))
  {
    hide Hex, Utf8, ParseSubjectFileName, HexName, ValidSubject, ValidToken;
    assert ["streams", stream, "subjects", HexName(subject)][1..] == [stream, "subjects", HexName(subject)];
  }

  lemma HexNameDiffers(subject: string)
    requires IsPlainStem(subject)
    ensures HexName(subject) != SubjectFileName(subject)
  {
    if HexName(subject) == SubjectFileName(subject) {
      StripAppended(ENCODED_PREFIX + Hex(Utf8(subject)), JSONL_SUFFIX);
      StripAppended(subject, JSONL_SUFFIX);
      DropPrefix(ENCODED_PREFIX, Hex(Utf8(subject)));
    }
  }

  // ---- when the progress query fails ----

  /** If no query is answered only the recorded numbers are used: the view is still right if and only if
      every one of them is up to date. */
  lemma ViewWithoutProgress(w: JL.World, events: seq<JL.Event>, queue: seq<JL.Batch>, path: MountPath, p: JetStreamPath,
                            recorded: JL.Batch -> nat)
    requires MountComponents(path) && ParseComponents(path) == Some(p) && FactOf(p).Some? && FactOf(p).value.StreamFact?
    requires JL.Initial(w) && JL.AllowedRun(w, events) && Listed(path, p, FactOf(p).value)
    requires var f := FactOf(p).value; var pending := PendingOf(queue, f);
             pending != [] && QuietRun(w, events, pending, f.subject) && Queued(w, pending, f.subject)
    requires NotAhead(PendingOf(queue, FactOf(p).value), JL.Run(w, events).broker, recorded)
    ensures var f, b := FactOf(p).value, JL.Run(w, events).broker; var pending := PendingOf(queue, f);
            ReadFile(queue, b, path, p, recorded, _ => false) ==
              Some(Projection(w.broker, f.subject) + AllText(pending)) <==>
            forall batch :: batch in pending ==> recorded(batch) == Published(batch, b)
  {
    ReadIsWholeExactly(w, events, queue, path, p, recorded, _ => false);
  }

  /** One publisher on an empty stream. */
  function Alone(batch: JL.Batch): JL.World {
    JL.World(JL.Broker([], {}, {}, {}), map[batch := JL.Publisher(JL.Idle, false)])
  }

  /** It is cut off after its first line, before the ledger or the queue heard of it. */
  function CutOff(batch: JL.Batch): seq<JL.Event> {
    [JL.Start(batch, true), JL.Work(batch, true, JL.Advance), JL.Work(batch, true, JL.Advance),
      JL.Work(batch, true, JL.Stop)]
  }

  function AfterFirstLine(batch: JL.Batch): JL.Broker
    requires batch.lines != []
  {
    JL.Broker([JL.LineMsg(batch, 0)], {0}, {JL.LineId(batch, 0)}, {})
  }

  lemma RunFour(w: JL.World, a: JL.Event, b: JL.Event, c: JL.Event, d: JL.Event)
    ensures JL.Run(w, [a, b, c, d]) == JL.Step(JL.Step(JL.Step(JL.Step(w, a), b), c), d)
  {
    hide JL.Step;
    var all := [a, b, c, d];
    assert all[..3] == [a, b, c] && [a, b, c][..2] == [a, b] && [a, b][..1] == [a] && [a][..0] == [];
    assert JL.Run(w, []) == w && JL.Run(w, [a]) == JL.Step(w, a) && JL.Run(w, [a, b]) == JL.Step(JL.Step(w, a), b);
  }

  lemma CutOffRun(batch: JL.Batch)
    requires batch.lines != []
    ensures JL.Run(Alone(batch), CutOff(batch)) ==
            JL.World(AfterFirstLine(batch), map[batch := JL.Publisher(JL.Idle, true)])
  {
    hide JL.LineKey, JL.LineId, JL.LineMsg;
    var w, advance := Alone(batch), JL.Work(batch, true, JL.Advance);
    var quiet := w.broker;
    RunFour(w, JL.Start(batch, true), advance, advance, JL.Work(batch, true, JL.Stop));
    hide JL.Run;
    var at := (pc: JL.Pc) => JL.World(quiet, map[batch := JL.Publisher(pc, true)]);
    assert JL.Step(w, JL.Start(batch, true)) == at(JL.Check(0));
    assert JL.Step(at(JL.Check(0)), advance) == at(JL.Scan(0));
    assert JL.Step(at(JL.Scan(0)), advance) == at(JL.Send(0));
    assert JL.Publish(quiet, JL.LineMsg(batch, 0)) == AfterFirstLine(batch) by { FirstPublish(batch); }
  }

  lemma FirstPublish(batch: JL.Batch)
    requires batch.lines != []
    ensures JL.Publish(JL.Broker([], {}, {}, {}), JL.LineMsg(batch, 0)) == AfterFirstLine(batch)
  {
    assert [] + [JL.LineMsg(batch, 0)] == [JL.LineMsg(batch, 0)];
  }

  lemma CutOffIsQuiet(batch: JL.Batch)
    ensures JL.Initial(Alone(batch)) && JL.AllowedRun(Alone(batch), CutOff(batch))
    ensures QuietRun(Alone(batch), CutOff(batch), [batch], batch.subject) &&
            Queued(Alone(batch), [batch], batch.subject)
  {
    hide JL.Run, JL.LineId, JL.LineKey;
    assert [batch][0] == batch;
  }

  lemma FirstLineIsPublished(batch: JL.Batch)
    requires batch.lines != []
    ensures var b := AfterFirstLine(batch);
            Published(batch, b) == 1 && Projection(b, batch.subject) == LineText(batch.lines[0])
  {
    var log := AfterFirstLine(batch).log;
    assert JL.Owns(batch, log[0].msgId);
    assert log[..0] == [];
    assert JL.Sent(batch, log[..0]) == [] && Projected(log[..0], {0}, batch.subject) == "";
    hide JL.LineId, LineText;
  }

  /** So a run in which the queue recorded nothing yet, and then the query fails, shows the first line twice. */
  lemma LateProgressRepeatsLines(batch: JL.Batch, path: MountPath, p: JetStreamPath)
    requires MountComponents(path) && ParseComponents(path) == Some(p) && FactOf(p) == Some(FactFor(batch))
    requires Listed(path, p, FactFor(batch)) && batch.lines != []
    ensures JL.Initial(Alone(batch)) && JL.AllowedRun(Alone(batch), CutOff(batch))
    ensures QuietRun(Alone(batch), CutOff(batch), [batch], batch.subject)
    ensures var b := JL.Run(Alone(batch), CutOff(batch)).broker;
            && ReadFile([batch], b, path, p, NOTHING, _ => true) == Some(TextOf(batch.lines))
            && ReadFile([batch], b, path, p, NOTHING, _ => false) ==
              Some(LineText(batch.lines[0]) + TextOf(batch.lines))
  {
    hide JL.Run, JL.Initial, JL.AllowedRun, QuietRun, Queued, ParseComponents, MountComponents, Listed;
    hide PendingAt, Published, Projection, LineText;
    hide ReadFile, FactOf;
    CutOffIsQuiet(batch);
    CutOffRun(batch);
    FirstLineIsPublished(batch);
    PendingIsExact([batch], path, p, FactFor(batch));
    assert PendingOf([batch], FactFor(batch)) == [batch] by { assert [batch][1..] == []; }
    var b := AfterFirstLine(batch);
    hide PendingOf, AfterFirstLine, Alone, CutOff;
    RepeatedView(batch, b, path, p);
  }

  lemma RepeatedView(batch: JL.Batch, b: JL.Broker, path: MountPath, p: JetStreamPath)
    requires FactOf(p) == Some(FactFor(batch)) && PendingAt([batch], path) == [batch] && batch.lines != []
    requires Published(batch, b) == 1 && Projection(b, batch.subject) == LineText(batch.lines[0])
    ensures ReadFile([batch], b, path, p, NOTHING, _ => true) == Some(TextOf(batch.lines))
    ensures ReadFile([batch], b, path, p, NOTHING, _ => false) == Some(LineText(batch.lines[0]) + TextOf(batch.lines))
  {
    hide PendingAt, Published, Projection, LineText, FactOf;
    ShownOne(batch, b, _ => true);
    ShownOne(batch, b, _ => false);
    assert Skip(batch.lines, 0) == batch.lines;
    FirstOut(batch.lines, 0);
    hide TextOf, Skip, Shown;
  }

  lemma ShownOne(batch: JL.Batch, b: JL.Broker, answered: JL.Batch -> bool)
    ensures Shown([batch], b, NOTHING, answered) ==
            TextOf(Skip(batch.lines, if answered(batch) then Published(batch, b) else 0))
  {
    hide TextOf, Skip, Published;
    assert [batch][1..] == [] && Shown([], b, NOTHING, answered) == "";
  }

  // ---- progress told from the text ----

  /** The number an append starts with in the queue, counted by comparing texts, is the number of its lines
      in the stream, as long as nobody else appends to the file. */
  lemma TextCountIsPublished(w: JL.World, events: seq<JL.Event>, batch: JL.Batch, bytes: Bytes)
    requires JL.Initial(w) && JL.AllowedRun(w, events) && batch.lines == Lines(bytes)
    requires QuietRun(w, events, [batch], batch.subject) && Queued(w, [batch], batch.subject)
    ensures var b := JL.Run(w, events).broker;
            AppliedPrefixCount(Projection(w.broker, batch.subject), Projection(b, batch.subject), bytes) ==
              Published(batch, b)
  {
    hide JL.Run, JL.Initial, JL.AllowedRun, QuietRun, Queued, Projection, Published, Unapplied, AllText;
    hide AppliedPrefixCount;
    hide TextOf, Skip, Lines;
    var b, subject := JL.Run(w, events).broker, batch.subject;
    QuietSplit(w, events, [batch], subject);
    assert batch in [batch];
    UnappliedOne(batch, b);
    ProjectionIsWhole(w.broker.log, w.broker.retained, subject);
    assert WholeLines(Projection(w.broker, subject)) by { ProjectionUnfolds(w.broker, subject); }
    CountOfSplit(Projection(w.broker, subject), Projection(b, subject), bytes, Published(batch, b));
  }

  lemma ProjectionUnfolds(b: JL.Broker, subject: string)
    ensures Projection(b, subject) == Projected(b.log, b.retained, subject)
  {
  }

  /** The count of a text that grew by the first `k` lines of a payload. */
  lemma CountOfSplit(before: Bytes, now: Bytes, bytes: Bytes, k: nat)
    requires WholeLines(before) && k <= |Lines(bytes)| && now + TextOf(Skip(Lines(bytes), k)) ==
             before + TextOf(Lines(bytes))
    ensures AppliedPrefixCount(before, now, bytes) == k
  {
    hide Lines, AppliedPrefixCount, LineText, WholeLines;
    var lines := Lines(bytes);
    var done, left := lines[..k], Skip(lines, k);
    assert lines == done + left;
    TextAppend(done, left);
    hide TextOf, Skip;
    assert before + TextOf(done) + TextOf(left) == before + (TextOf(done) + TextOf(left));
    PrefixCancels(now, before + TextOf(done), TextOf(left));
    PrefixCountIsExact(before, bytes, k, "");
  }

  lemma PrefixCancels(a: Bytes, b: Bytes, c: Bytes)
    ensures a + c == b + c ==> a == b
  {
    if a + c == b + c {
      assert |a| == |b| && a == (a + c)[..|a|] && b == (b + c)[..|b|];
    }
  }

  lemma UnappliedOne(batch: JL.Batch, b: JL.Broker)
    ensures Unapplied([batch], b, NOTHING) == TextOf(Skip(batch.lines, Published(batch, b))) &&
            AllText([batch]) == TextOf(batch.lines)
  {
    hide TextOf, Skip, Published;
    assert [batch][1..] == [] && Unapplied([], b, NOTHING) == "" && AllText([]) == "";
  }
}
