/** Parsing and printing mount paths undo each other. */
module PathLaws {
  import opened Text
  import opened FileNames
  import opened Paths

  // ---- strings and components ----

  lemma {:induction false} JoinEnds(cs: seq<string>)
    requires cs != [] && MountComponents(cs)
    ensures var s := Join(cs, '/'); s != "" && s[0] != '/' && s[|s| - 1] != '/' && '\0' !in s
  {
    assert MountComponent(cs[0]);
    assert cs[0][0] in cs[0] && cs[0][|cs[0]| - 1] in cs[0];
    if |cs| > 1 {
      JoinEnds(cs[1..]);
      var s := Join(cs, '/');
      assert s[|s| - 1] == Join(cs[1..], '/')[|Join(cs[1..], '/')| - 1];
    }
  }

  lemma ComponentsOfPrinted(cs: seq<string>)
    requires MountComponents(cs)
    ensures Components(AsStr(cs)) == Some(cs)
  {
    var s := AsStr(cs);
    if cs == [] {
      assert TrimLeft(s[1..]) == "";
    } else {
      var joined := Join(cs, '/');
      JoinEnds(cs);
      assert s[1..] == joined;
      assert TrimLeft(s) == joined;
      assert joined[|joined| - 1] != '/' && TrimRight(joined) == joined;
      assert Solid(cs, '/') by { assert forall i :: 0 <= i < |cs| ==> MountComponent(cs[i]); }
      SplitJoin(cs, '/');
      assert forall i :: 0 <= i < |cs| ==> MountComponent(cs[i]);
    }
  }

  lemma ParsedComponents(path: string, cs: seq<string>)
    requires Components(path) == Some(cs)
    ensures MountComponents(cs)
  {
    var trimmed := TrimRight(TrimLeft(path));
    if trimmed != "" {
      SplitKeepsChars(trimmed, '/', '\0');
    }
  }

  lemma {:induction false} SplitKeepsChars(s: string, sep: char, c: char)
    requires c !in s
    ensures forall i :: 0 <= i < |Split(s, sep)| ==> c !in Split(s, sep)[i]
  {
    if s != "" {
      SplitKeepsChars(s[1..], sep, c);
    }
  }

  lemma SplitTail(rest: seq<string>)
    requires rest != [] && MountComponents(rest)
    ensures Join(rest, '/') != "" && Split(Join(rest, '/'), '/') == rest
  {
    JoinEnds(rest);
    assert Solid(rest, '/') by { assert forall i :: 0 <= i < |rest| ==> MountComponent(rest[i]); }
    SplitJoin(rest, '/');
  }

  lemma SplitOne(s: string)
    requires MountComponent(s)
    ensures Split(s, '/') == [s]
  {
    SplitSolid(s, '/');
  }

  lemma TailComponents(cs: seq<string>, n: nat)
    requires MountComponents(cs) && n <= |cs|
    ensures MountComponents(cs[n..]) && MountComponents(cs[..n])
  {
  }

  lemma AppendComponents(a: seq<string>, b: seq<string>)
    requires MountComponents(a) && MountComponents(b)
    ensures MountComponents(a + b)
  {
  }

  /** Printing a path with a tail gives back the components it was parsed from. */
  lemma WithTailOf(fixed: seq<string>, rest: seq<string>)
    requires rest != [] && MountComponents(fixed) && MountComponents(rest)
    ensures WithTail(fixed, Join(rest, '/')) == Some(fixed + rest)
  {
    SplitTail(rest);
    AppendComponents(fixed, rest);
  }

  // ---- paths that print back to themselves ----

  /** Only numbers and subjects have more than one spelling. */
  predicate OneSpelling(p: JetStreamPath) {
    !p.KvRevision? && !p.StreamMessage? && !p.StreamSubject?
  }

  lemma PrintKv(cs: seq<string>)
    requires MountComponents(["kv"] + cs) && ParseKv(cs).Some? && OneSpelling(ParseKv(cs).value)
    ensures Print(ParseKv(cs).value) == Some(["kv"] + cs)
  {
    hide ValidToken, ValidKvKey, Join, Split, ValidComponent;
    var p, all := ParseKv(cs).value, ["kv"] + cs;
    TailComponents(all, 1);
    assert all[1..] == cs;
    if p.KvHistoryKey? {
      TailComponents(cs, 2);
      assert all == ["kv", cs[0], ".history"] + cs[2..];
      TailComponents(all, 3);
      assert all[..3] == ["kv", cs[0], ".history"];
      WithTailOf(["kv", cs[0], ".history"], cs[2..]);
    } else if p.KvKey? {
      assert all == ["kv", cs[0]] + cs[1..];
      TailComponents(all, 2);
      assert all[..2] == ["kv", cs[0]] && all[2..] == cs[1..];
      WithTailOf(["kv", cs[0]], cs[1..]);
    } else if p.KvBucket? {
      assert all == ["kv", cs[0]];
    } else if p.KvHistoryRoot? {
      assert all == ["kv", cs[0], ".history"];
    } else {
      assert all == ["kv"];
    }
  }

  lemma PrintStreams(cs: seq<string>)
    requires MountComponents(["streams"] + cs) && ParseStreams(cs).Some? && OneSpelling(ParseStreams(cs).value)
    ensures Print(ParseStreams(cs).value) == Some(["streams"] + cs)
  {
    var p, all := ParseStreams(cs).value, ["streams"] + cs;
    if p.StreamRoot? {
      assert all == ["streams", cs[0]];
    } else if p.StreamMessages? {
      assert all == ["streams", cs[0], "messages"];
    } else if p.StreamSubjects? {
      assert all == ["streams", cs[0], "subjects"];
    } else {
      assert all == ["streams"];
    }
  }

  lemma PrintObjects(cs: seq<string>)
    requires MountComponents(["objects"] + cs) && ParseObjects(cs).Some?
    ensures Print(ParseObjects(cs).value) == Some(["objects"] + cs)
  {
    var p, all := ParseObjects(cs).value, ["objects"] + cs;
    if p.ObjectFile? {
      assert all == ["objects", cs[0]] + cs[1..];
      TailComponents(all, 2);
      assert all[..2] == ["objects", cs[0]] && all[2..] == cs[1..];
      WithTailOf(["objects", cs[0]], cs[1..]);
    } else if p.ObjectBucket? {
      assert all == ["objects", cs[0]];
    } else {
      assert all == ["objects"];
    }
  }

  lemma PrintEvents(cs: seq<string>)
    requires MountComponents(["events"] + cs) && ParseEvents(cs).Some?
    ensures Print(ParseEvents(cs).value) == Some(["events"] + cs)
  {
    hide Split, ValidToken;
    var p, all := ParseEvents(cs).value, ["events"] + cs;
    if p.EventLog? {
      assert all == ["events", cs[0]];
      assert all[1] == cs[0];
      SplitOne(cs[0]);
      assert p.stream + ".jsonl" == cs[0];
      assert ["events"] + [cs[0]] == all;
    } else {
      assert all == ["events"];
    }
  }

  lemma PrintTasks(cs: seq<string>)
    requires MountComponents(["tasks"] + cs) && ParseTasks(cs).Some?
    ensures Print(ParseTasks(cs).value) == Some(["tasks"] + cs)
  {
    hide ValidRootName, ValidKvKey, ValidComponent, Split;
    var p, all := ParseTasks(cs).value, ["tasks"] + cs;
    if p.Task? {
      assert all == ["tasks", cs[0], cs[1]] == ["tasks", cs[0]] + [cs[1]];
      assert all[2] == cs[1];
      SplitOne(cs[1]);
    } else if p.TaskNamespace? {
      assert all == ["tasks", cs[0]];
    } else {
      assert all == ["tasks"];
    }
  }

  lemma PrintAgents(cs: seq<string>)
    requires MountComponents(["agents"] + cs) && ParseAgents(cs).Some?
    ensures Print(ParseAgents(cs).value) == Some(["agents"] + cs)
  {
    hide ValidRootName, ValidKvKey, Join, Split, ValidComponent, MountComponent;
    var p, all := ParseAgents(cs).value, ["agents"] + cs;
    if p.AgentRecord? {
      assert all == ["agents", cs[0], cs[1]] + cs[2..];
      TailComponents(all, 3);
      assert all[..3] == ["agents", cs[0], cs[1]] && all[3..] == cs[2..];
      WithTailOf(["agents", cs[0], cs[1]], cs[2..]);
    } else if p.AgentRoot? {
      assert all == ["agents", cs[0]];
    } else if p.AgentMailbox? || p.AgentDirectory? {
      assert all == ["agents", cs[0], cs[1]];
    } else {
      assert all == ["agents"];
    }
  }

  lemma PrintSemantic(cs: seq<string>)
    requires MountComponents(["semantic"] + cs) && ParseSemanticPath(cs).Some?
    ensures Print(ParseSemanticPath(cs).value) == Some(["semantic"] + cs)
  {
    hide ValidKvKey, Join, Split;
    var p, all := ParseSemanticPath(cs).value, ["semantic"] + cs;
    if p.SemanticRecord? {
      assert all == ["semantic", cs[0]] + cs[1..];
      TailComponents(all, 2);
      assert all[..2] == ["semantic", cs[0]] && all[2..] == cs[1..];
      WithTailOf(["semantic", cs[0]], cs[1..]);
    } else if p.SemanticDirectory? {
      assert all == ["semantic", cs[0]];
    } else {
      assert all == ["semantic"];
    }
  }

  lemma PrintMetadata(cs: seq<string>)
    requires MountComponents([".eventfs"] + cs) && ParseMetadataPath(cs).Some?
    ensures Print(ParseMetadataPath(cs).value) == Some([".eventfs"] + cs)
  {
    if cs != [] {
      assert [".eventfs"] + cs == [".eventfs", cs[0]];
    } else {
      assert [".eventfs"] + cs == [".eventfs"];
    }
  }

  /** Every parsed path but a revision, message or subject prints to the very components it came from. */
  lemma PrintInvertsParse(cs: seq<string>)
    requires MountComponents(cs) && ParseComponents(cs).Some? && OneSpelling(ParseComponents(cs).value)
    ensures Print(ParseComponents(cs).value) == Some(cs)
  {
    hide Print, ParseKv, ParseStreams, ParseObjects, ParseEvents, ParseTasks, ParseAgents, ParseSemanticPath;
    hide ParseMetadataPath;
    if cs == [] {
      assert Print(Root) == Some([]) by { PrintRoot(); }
    } else {
      var rest := cs[1..];
      assert cs == [cs[0]] + rest;
      if cs[0] == "kv" {
        PrintKv(rest);
      } else if cs[0] == "streams" {
        PrintStreams(rest);
      } else if cs[0] == "objects" {
        PrintObjects(rest);
      } else if cs[0] == "events" {
        PrintEvents(rest);
      } else if cs[0] == "tasks" {
        PrintTasks(rest);
      } else if cs[0] == "agents" {
        PrintAgents(rest);
      } else if cs[0] == "semantic" {
        PrintSemantic(rest);
      } else {
        PrintMetadata(rest);
      }
    }
  }

  lemma PrintRoot()
    ensures Print(Root) == Some([])
  {
  }

  // ---- numbers and subjects are normalized ----

  lemma {:induction false} HexChars(bytes: seq<Byte>)
    ensures forall i :: 0 <= i < |Hex(bytes)| ==> IsAlnum(Hex(bytes)[i])
  {
    if bytes != [] {
      HexChars(bytes[..|bytes| - 1]);
    }
  }

  predicate PlainChar(c: char) {
    IsAlnum(c) || c == '_' || c == '-' || c == '.' || c == '@'
  }

  lemma PlainIsComponent(s: string)
    requires |s| > 2 || (s != "" && s[0] != '.')
    requires forall i :: 0 <= i < |s| ==> PlainChar(s[i])
    ensures MountComponent(s)
  {
  }

  lemma PlainAppend(a: string, b: string)
    requires forall i :: 0 <= i < |a| ==> PlainChar(a[i])
    requires forall i :: 0 <= i < |b| ==> PlainChar(b[i])
    ensures forall i :: 0 <= i < |a + b| ==> PlainChar((a + b)[i])
  {
  }

  lemma SubjectFileNameIsComponent(subject: string)
    ensures MountComponent(SubjectFileName(subject))
  {
    var name := SubjectFileName(subject);
    assert forall i :: 0 <= i < |JSONL_SUFFIX| ==> PlainChar(JSONL_SUFFIX[i]);
    if IsPlainStem(subject) {
      PlainAppend(subject, JSONL_SUFFIX);
    } else {
      assert forall i :: 0 <= i < |ENCODED_PREFIX| ==> PlainChar(ENCODED_PREFIX[i]);
      HexChars(Utf8(subject));
      PlainAppend(ENCODED_PREFIX, Hex(Utf8(subject)));
      PlainAppend(ENCODED_PREFIX + Hex(Utf8(subject)), JSONL_SUFFIX);
    }
    PlainIsComponent(name);
  }

  lemma TokenIsComponent(s: string)
    requires ValidToken(s)
    ensures MountComponent(s)
  {
    assert forall i :: 0 <= i < |s| ==> PlainChar(s[i]);
    PlainIsComponent(s);
  }

  lemma JoinOne(s: string)
    ensures Join([s], '/') == s
  {
  }

  lemma RevisionRoundTrip(bucket: string, rest: seq<string>, revision: nat)
    requires ValidToken(bucket) && MountComponents(rest) && JoinKvKey(rest).Some? && revision <= U64_MAX
    ensures var m := ["kv", bucket, ".history"] + (rest + ["@" + Decimal(revision)]);
            && Print(KvRevision(bucket, JoinKvKey(rest).value, revision)) == Some(m)
            && ParseComponents(m) == Some(KvRevision(bucket, JoinKvKey(rest).value, revision))
  {
    hide Join, Decimal, ParseU64, ValidKvKey;
    var mark := "@" + Decimal(revision);
    var fixed, tail := ["kv", bucket, ".history"], rest + [mark];
    TokenIsComponent(bucket);
    assert MountComponents(tail) by {
      assert forall i :: 0 <= i < |mark| ==> PlainChar(mark[i]);
      PlainIsComponent(mark);
    }
    assert MountComponents(fixed);
    JoinAppend(rest, [mark], '/');
    assert Join([mark], '/') == mark by { JoinOne(mark); }
    assert Join(tail, '/') == Join(rest, '/') + "/@" + Decimal(revision);
    WithTailOf(fixed, tail);
    var m := fixed + tail;
    assert m[1..] == [bucket, ".history"] + tail && m[1..][2..] == tail;
    assert tail[..|tail| - 1] == rest && mark[1..] == Decimal(revision);
    ParseDecimal(revision);
  }

  lemma MessageRoundTrip(stream: string, sequence: nat)
    requires ValidToken(stream) && sequence <= U64_MAX
    ensures var m := ["streams", stream, "messages"] + [Decimal(sequence) + ".json"];
            Print(StreamMessage(stream, sequence)) == Some(m) &&
              ParseComponents(m) == Some(StreamMessage(stream, sequence))
  {
    hide Decimal, DigitsValue, Join, Split;
    var name := Decimal(sequence) + ".json";
    TokenIsComponent(stream);
    assert Join([name], '/') == name by { JoinOne(name); }
    assert MountComponent(name) by {
      assert forall i :: 0 <= i < |name| ==> PlainChar(name[i]);
      PlainIsComponent(name);
    }
    WithTailOf(["streams", stream, "messages"], [name]);
    var m := ["streams", stream, "messages"] + [name];
    assert m[1..] == [stream, "messages", name];
    StripAppended(Decimal(sequence), ".json");
    ParseDecimal(sequence);
  }

  lemma SubjectRoundTrip(stream: string, subject: string)
    requires ValidToken(stream) && ValidSubject(subject)
    ensures var m := ["streams", stream, "subjects"] + [SubjectFileName(subject)];
            Print(StreamSubject(stream, subject)) == Some(m) &&
              ParseComponents(m) == Some(StreamSubject(stream, subject))
  {
    hide SubjectFileName, ParseSubjectFileName;
    var name := SubjectFileName(subject);
    TokenIsComponent(stream);
    SubjectFileNameIsComponent(subject);
    WithTailOf(["streams", stream, "subjects"], [name]);
    var m := ["streams", stream, "subjects"] + [name];
    assert m[1..] == [stream, "subjects", name];
    SubjectFileNameRoundTrip(subject);
  }

  lemma ParsedRevision(cs: seq<string>, p: JetStreamPath)
    requires ParseComponents(cs) == Some(p) && p.KvRevision?
    ensures |cs| > 3 && ValidToken(p.bucket) && p.revision <= U64_MAX
    ensures JoinKvKey(cs[3..][..|cs| - 4]) == Some(p.key)
  {
    hide JoinKvKey, ValidToken, DigitsValue;
    assert cs[1..][2..] == cs[3..];
  }

  lemma ParsedMessage(cs: seq<string>, p: JetStreamPath)
    requires ParseComponents(cs) == Some(p) && p.StreamMessage?
    ensures ValidToken(p.stream) && p.sequence <= U64_MAX
  {
    hide ValidToken, DigitsValue;
  }

  lemma ParsedSubject(cs: seq<string>, p: JetStreamPath)
    requires ParseComponents(cs) == Some(p) && p.StreamSubject?
    ensures ValidToken(p.stream) && ValidSubject(p.subject)
  {
    hide ValidToken, ValidSubject, ParseSubjectFileName;
  }

  lemma ParsePrintComponents(cs: seq<string>)
    requires MountComponents(cs) && ParseComponents(cs).Some?
    ensures var p := ParseComponents(cs).value;
            Print(p).Some? && MountComponents(Print(p).value) && ParseComponents(Print(p).value) == Some(p)
  {
    hide Print, ParseComponents, MountComponents;
    var p := ParseComponents(cs).value;
    if OneSpelling(p) {
      PrintInvertsParse(cs);
    } else if p.KvRevision? {
      ParsedRevision(cs, p);
      TailComponents(cs, 3);
      var parts := cs[3..];
      TailComponents(parts, |parts| - 1);
      RevisionRoundTrip(p.bucket, parts[..|parts| - 1], p.revision);
    } else if p.StreamMessage? {
      ParsedMessage(cs, p);
      MessageRoundTrip(p.stream, p.sequence);
    } else {
      ParsedSubject(cs, p);
      SubjectRoundTrip(p.stream, p.subject);
    }
    PrintedIsValid(p);
  }

  lemma PrintedIsValid(p: JetStreamPath)
    ensures Print(p).Some? ==> MountComponents(Print(p).value)
  {
    hide MountComponent, Split, Decimal, SubjectFileName, AreaName, SemanticName, MetadataName;
    RootsAreValid();
  }

  lemma RootsAreValid()
    ensures MountComponents([]) && MountComponents(["kv"]) && MountComponents(["streams"]) &&
            MountComponents(["objects"])
    ensures MountComponents(["events"]) && MountComponents(["tasks"]) && MountComponents(["agents"])
    ensures MountComponents(["semantic"]) && MountComponents([".eventfs"])
  {
  }

  /** For every string that parses, printing the result succeeds and parses to the same path again. */
  lemma ParsePrintRoundTrip(path: string)
    requires Parse(path).Some?
    ensures var p := Parse(path).value;
            Print(p).Some? && Parse(AsStr(Print(p).value)) == Some(p)
  {
    hide ParseComponents, Print;
    var cs := Components(path).value;
    ParsedComponents(path, cs);
    ParsePrintComponents(cs);
    ComponentsOfPrinted(Print(ParseComponents(cs).value).value);
  }
}
