/** Storage facts and the mount paths that show them (eventfs-protocol/src/mount_paths.rs, subjects.rs). */
module Aliases {
  import opened Text
  import opened FileNames
  import opened Paths
  import opened PathLaws

  const TASKS_BUCKET: string := "EVENTFS_TASKS"
  const AGENTS_BUCKET: string := "EVENTFS_AGENTS"
  const AGENTS_STREAM: string := "EVENTFS_AGENTS"
  const SEMANTIC_BUCKET: string := "EVENTFS_SEMANTIC"

  datatype StorageFact =
    | KvFact(bucket: string, key: string)
    | StreamFact(stream: string, subject: string)
    | ObjectFact(bucket: string, name: string)

  /** `StorageFact::from_jetstream_path`, with the materialized targets of subjects.rs. */
  function FactOf(p: JetStreamPath): Option<StorageFact> {
    match p
    case KvKey(b, key) => Some(KvFact(b, key))
    case StreamSubject(s, subject) => Some(StreamFact(s, subject))
    case ObjectFile(b, name) => Some(ObjectFact(b, name))
    case EventLog(s) => Some(StreamFact(s, "events." + s))
    case Task(n, task) => Some(KvFact(TASKS_BUCKET, n + "/" + task))
    case AgentMailbox(a, area) =>
      if IsMailbox(area) then Some(StreamFact(AGENTS_STREAM, "agents." + a + "." + AreaName(area))) else None
    case AgentRecord(a, area, path) => Some(KvFact(AGENTS_BUCKET, a + "/" + AreaName(area) + "/" + path))
    case SemanticRecord(area, path) => Some(KvFact(SEMANTIC_BUCKET, SemanticName(area) + "/" + path))
    case _ => None
  }

  datatype Reason = Exact | Ancestor | Alias | Mailbox
  datatype AffectedPath = AffectedPath(path: MountPath, reason: Reason)

  function PushUnique(paths: seq<AffectedPath>, a: AffectedPath): seq<AffectedPath> {
    if exists i :: 0 <= i < |paths| && paths[i].path == a.path then paths else paths + [a]
  }

  /** `push_storage_path`; errors propagate. */
  function Push(paths: Option<seq<AffectedPath>>, path: Option<MountPath>, reason: Reason): Option<seq<AffectedPath>> {
    if paths == None || path == None then None else Some(PushUnique(paths.value, AffectedPath(path.value, reason)))
  }

  /** `agent_kv_alias_parts`: the first two slash-separated parts and the rest. */
  function AgentAliasParts(key: string): Option<(string, string, string)> {
    var parts := Split(key, '/');
    if |parts| < 3 then None
    else
      var rest := Join(parts[2..], '/');
      if parts[0] == "" || parts[1] == "" || rest == "" then None else Some((parts[0], parts[1], rest))
  }

  /** `agent_mailbox_subject_parts`. */
  function MailboxParts(subject: string): Option<(string, AgentArea)> {
    var parts := Split(subject, '.');
    if |parts| != 3 || parts[0] != "agents" || parts[1] == "" || IsReserved(parts[1]) then None
    else
      var area := ParseArea(parts[2]);
      if area == None || !IsMailbox(area.value) then None else Some((parts[1], area.value))
  }

  function KvAlias(bucket: string, key: string): Option<Option<MountPath>> {
    if bucket == TASKS_BUCKET then Some(WithTail(["tasks"], key))
    else if bucket == AGENTS_BUCKET then
      var parts := AgentAliasParts(key);
      if parts == None then None
      else Some(WithTail(["agents", parts.value.0, parts.value.1], parts.value.2))
    else if bucket == SEMANTIC_BUCKET then Some(WithTail(["semantic"], key))
    else None
  }

  function EventAlias(stream: string, subject: string): Option<Option<MountPath>> {
    if subject == "events." + stream then Some(WithTail(["events"], stream + ".jsonl")) else None
  }

  function MailboxAlias(stream: string, subject: string): Option<Option<MountPath>> {
    var parts := if stream == AGENTS_STREAM then MailboxParts(subject) else None;
    if parts == None then None else Some(FromComponents(["agents", parts.value.0, AreaName(parts.value.1)]))
  }

  function PushAlias(paths: Option<seq<AffectedPath>>, alias: Option<Option<MountPath>>, reason: Reason):
    Option<seq<AffectedPath>>
  {
    if alias == None then paths else Push(paths, alias.value, reason)
  }

  function ExactPath(f: StorageFact): Option<MountPath> {
    match f
    case KvFact(b, key) => WithTail(["kv", b], key)
    case StreamFact(s, subject) => WithTail(["streams", s, "subjects"], SubjectFileName(subject))
    case ObjectFact(b, name) => WithTail(["objects", b], name)
  }

  /** `visible_paths`. */
  function VisiblePaths(f: StorageFact): Option<seq<AffectedPath>> {
    var exact := Push(Some([]), ExactPath(f), Exact);
    match f
    case KvFact(b, key) => PushAlias(exact, KvAlias(b, key), Alias)
    case StreamFact(s, subject) => PushAlias(PushAlias(exact, EventAlias(s, subject), Alias), MailboxAlias(s, subject),
      Mailbox)
    case ObjectFact(_, _) => exact
  }

  // ---- every path in the list shows the fact ----

  ghost predicate Shows(f: StorageFact, path: MountPath) {
    ParseComponents(path).Some? && FactOf(ParseComponents(path).value).Some? ==>
      FactOf(ParseComponents(path).value) == Some(f)
  }

  lemma JoinTwo(a: string, b: string)
    ensures Join([a, b], '/') == a + "/" + b
  {
    assert [a, b][1..] == [b];
  }

  lemma ExactKvShows(b: string, key: string)
    requires ExactPath(KvFact(b, key)).Some?
    ensures Shows(KvFact(b, key), ExactPath(KvFact(b, key)).value)
  {
    hide Split, Join, ValidKvKey;
    var m := ExactPath(KvFact(b, key)).value;
    JoinSplit(key, '/');
    assert m[1..] == [b] + Split(key, '/') && m[1..][1..] == Split(key, '/');
  }

  lemma ExactObjectShows(b: string, name: string)
    requires ExactPath(ObjectFact(b, name)).Some?
    ensures Shows(ObjectFact(b, name), ExactPath(ObjectFact(b, name)).value)
  {
    hide Split, Join;
    var m := ExactPath(ObjectFact(b, name)).value;
    JoinSplit(name, '/');
    assert m[1..] == [b] + Split(name, '/') && m[1..][1..] == Split(name, '/');
  }

  lemma ExactStreamShows(s: string, subject: string)
    requires ExactPath(StreamFact(s, subject)).Some?
    ensures Shows(StreamFact(s, subject), ExactPath(StreamFact(s, subject)).value)
  {
    hide SubjectFileName, ParseSubjectFileName;
    var m := ExactPath(StreamFact(s, subject)).value;
    SubjectFileNameIsComponent(subject);
    SplitOne(SubjectFileName(subject));
    SubjectFileNameRoundTrip(subject);
    assert m == ["streams", s, "subjects"] + [SubjectFileName(subject)];
    assert m[1..] == [s, "subjects", SubjectFileName(subject)];
  }

  lemma TasksAliasShows(key: string)
    requires KvAlias(TASKS_BUCKET, key).value.Some?
    ensures Shows(KvFact(TASKS_BUCKET, key), KvAlias(TASKS_BUCKET, key).value.value)
  {
    hide Split, ValidRootName, ValidKvKey, ValidComponent;
    var m, parts := KvAlias(TASKS_BUCKET, key).value.value, Split(key, '/');
    JoinSplit(key, '/');
    assert m[1..] == parts;
    if |parts| == 2 {
      JoinTwo(parts[0], parts[1]);
      assert parts == [parts[0], parts[1]];
    }
  }

  lemma AgentsAliasShows(key: string)
    requires KvAlias(AGENTS_BUCKET, key).Some? && KvAlias(AGENTS_BUCKET, key).value.Some?
    ensures Shows(KvFact(AGENTS_BUCKET, key), KvAlias(AGENTS_BUCKET, key).value.value)
  {
    hide Split, Join;
    var m, parts := KvAlias(AGENTS_BUCKET, key).value.value, Split(key, '/');
    var rest := Join(parts[2..], '/');
    AgentKeyParts(key);
    JoinSplit(rest, '/');
    assert m[1..] == [parts[0], parts[1]] + Split(rest, '/') && m[1..][2..] == Split(rest, '/');
    hide MountComponents, ValidRootName, ValidKvKey, ValidComponent;
  }

  lemma AgentKeyParts(key: string)
    requires |Split(key, '/')| > 2
    ensures var parts := Split(key, '/'); key == parts[0] + "/" + parts[1] + "/" + Join(parts[2..], '/')
  {
    hide Split, Join;
    var parts := Split(key, '/');
    JoinSplit(key, '/');
    AgentKey(parts);
  }

  lemma SemanticAliasShows(key: string)
    requires KvAlias(SEMANTIC_BUCKET, key).value.Some?
    ensures Shows(KvFact(SEMANTIC_BUCKET, key), KvAlias(SEMANTIC_BUCKET, key).value.value)
  {
    var m, parts := KvAlias(SEMANTIC_BUCKET, key).value.value, Split(key, '/');
    JoinSplit(key, '/');
    hide Split;
    assert m[1..] == parts;
    if |parts| > 1 {
      JoinAppend([parts[0]], parts[1..], '/');
      assert parts == [parts[0]] + parts[1..];
      assert key == parts[0] + "/" + Join(parts[1..], '/');
    }
  }

  lemma KvAliasShows(b: string, key: string)
    requires KvAlias(b, key).Some? && KvAlias(b, key).value.Some?
    ensures Shows(KvFact(b, key), KvAlias(b, key).value.value)
  {
    hide Shows;
    if b == TASKS_BUCKET {
      TasksAliasShows(key);
    } else if b == AGENTS_BUCKET {
      AgentsAliasShows(key);
    } else {
      SemanticAliasShows(key);
    }
  }

  lemma EventAliasShows(s: string, subject: string)
    requires EventAlias(s, subject).Some? && EventAlias(s, subject).value.Some?
    ensures Shows(StreamFact(s, subject), EventAlias(s, subject).value.value)
  {
    var m, name := EventAlias(s, subject).value.value, s + ".jsonl";
    assert m[1..] == Split(name, '/');
    if |m| == 2 {
      JoinSplit(name, '/');
      assert Split(name, '/') == [name];
      StripAppended(s, ".jsonl");
    }
  }

  lemma MailboxAliasShows(s: string, subject: string)
    requires MailboxAlias(s, subject).Some? && MailboxAlias(s, subject).value.Some?
    ensures Shows(StreamFact(s, subject), MailboxAlias(s, subject).value.value)
  {
    var m, parts := MailboxAlias(s, subject).value.value, Split(subject, '.');
    JoinSplit(subject, '.');
    MailboxSubject(subject);
    assert m[1..] == [parts[1], parts[2]];
  }

  lemma MailboxSubject(subject: string)
    requires MailboxParts(subject).Some?
    ensures var (agent, area) := MailboxParts(subject).value; subject == "agents." + agent + "." + AreaName(area)
  {
    var parts := Split(subject, '.');
    JoinSplit(subject, '.');
    assert parts[1..] == [parts[1], parts[2]] && parts[1..][1..] == [parts[2]];
    assert Join(parts, '.') == parts[0] + "." + Join(parts[1..], '.');
  }

  /** Every path in the list that parses to something with a storage fact has the given one. */
  lemma VisiblePathsShowFact(f: StorageFact, i: nat)
    requires VisiblePaths(f).Some? && i < |VisiblePaths(f).value|
    ensures Shows(f, VisiblePaths(f).value[i].path)
  {
    hide Shows, ExactPath, KvAlias, EventAlias, MailboxAlias;
    match f
    case KvFact(b, key) =>
      ExactKvShows(b, key);
      if KvAlias(b, key).Some? {
        KvAliasShows(b, key);
      }
    case StreamFact(s, subject) =>
      ExactStreamShows(s, subject);
      if EventAlias(s, subject).Some? {
        EventAliasShows(s, subject);
      }
      if MailboxAlias(s, subject).Some? {
        MailboxAliasShows(s, subject);
      }
    case ObjectFact(b, name) =>
      ExactObjectShows(b, name);
  }

  // ---- every path that shows the fact is in the list ----

  predicate Lists(paths: seq<AffectedPath>, path: MountPath) {
    exists i :: 0 <= i < |paths| && paths[i].path == path
  }

  lemma PushLists(paths: seq<AffectedPath>, a: AffectedPath, path: MountPath)
    requires path == a.path || Lists(paths, path)
    ensures Lists(PushUnique(paths, a), path)
  {
    var after := PushUnique(paths, a);
    if after != paths {
      assert after[|paths|] == a;
      if i :| 0 <= i < |paths| && paths[i].path == path {
        assert after[i].path == path;
      }
    }
  }

  lemma PushAliasLists(paths: Option<seq<AffectedPath>>, alias: Option<Option<MountPath>>, reason: Reason,
                       path: MountPath)
    requires PushAlias(paths, alias, reason).Some?
    requires Lists(paths.value, path) || alias == Some(Some(path))
    ensures Lists(PushAlias(paths, alias, reason).value, path)
  {
    if alias.Some? {
      PushLists(paths.value, AffectedPath(alias.value.value, reason), path);
    }
  }

  /** The list holds the exact path and the aliases that exist. */
  lemma VisiblePathsList(f: StorageFact, path: MountPath)
    requires VisiblePaths(f).Some?
    requires || ExactPath(f) == Some(path)
             || (f.KvFact? && KvAlias(f.bucket, f.key) == Some(Some(path)))
             || (f.StreamFact? && EventAlias(f.stream, f.subject) == Some(Some(path)))
             || (f.StreamFact? && MailboxAlias(f.stream, f.subject) == Some(Some(path)))
    ensures Lists(VisiblePaths(f).value, path)
  {
    hide ExactPath, KvAlias, EventAlias, MailboxAlias;
    var exact := Push(Some([]), ExactPath(f), Exact);
    assert exact.value[0].path == ExactPath(f).value;
    match f
    case KvFact(b, key) => PushAliasLists(exact, KvAlias(b, key), Alias, path);
    case StreamFact(s, subject) =>
      var events := PushAlias(exact, EventAlias(s, subject), Alias);
      if MailboxAlias(s, subject) != Some(Some(path)) {
        PushAliasLists(exact, EventAlias(s, subject), Alias, path);
      }
      PushAliasLists(events, MailboxAlias(s, subject), Mailbox, path);
    case ObjectFact(_, _) =>
  }

  lemma NonEmptyComponent(s: string)
    requires MountComponent(s)
    ensures s != ""
  {
  }

  lemma TaskAlias(n: string, task: string)
    requires MountComponent(n) && MountComponent(task)
    ensures KvAlias(TASKS_BUCKET, n + "/" + task) == Some(Print(Task(n, task)))
  {
    hide Split, Join, MountComponent;
    JoinTwo(n, task);
    SplitTail([n, task]);
    SplitOne(task);
    NonEmptyComponent(task);
    assert ["tasks"] + [n, task] == ["tasks", n] + [task];
  }

  lemma AreaIsComponent(area: AgentArea)
    ensures MountComponent(AreaName(area))
  {
  }

  lemma SemanticIsComponent(area: SemanticArea)
    ensures MountComponent(SemanticName(area))
  {
  }

  lemma AgentParts(a: string, name: string, rest: seq<string>)
    requires MountComponent(a) && MountComponent(name) && rest != [] && MountComponents(rest)
    ensures AgentAliasParts(a + "/" + name + "/" + Join(rest, '/')) == Some((a, name, Join(rest, '/')))
  {
    var all := [a, name] + rest;
    JoinTwo(a, name);
    JoinAppend([a, name], rest, '/');
    SplitTail(all);
    SplitTail(rest);
    assert a + "/" + name + "/" + Join(rest, '/') == Join(all, '/');
    hide Split, Join, MountComponents;
    assert all[2..] == rest && all[0] == a && all[1] == name;
  }

  lemma AgentRecordAlias(a: string, area: AgentArea, rest: seq<string>)
    requires MountComponent(a) && rest != [] && MountComponents(rest)
    ensures KvAlias(AGENTS_BUCKET, a + "/" + AreaName(area) + "/" + Join(rest, '/')) ==
            Some(Print(AgentRecord(a, area, Join(rest, '/'))))
  {
    AreaIsComponent(area);
    hide AreaName, Join, WithTail, AgentAliasParts;
    AgentParts(a, AreaName(area), rest);
  }

  lemma SemanticParts(name: string, rest: seq<string>)
    requires MountComponent(name) && rest != [] && MountComponents(rest)
    ensures WithTail(["semantic"], name + "/" + Join(rest, '/')) == WithTail(["semantic", name], Join(rest, '/'))
  {
    hide Split, Join, MountComponent;
    var all := [name] + rest;
    JoinAppend([name], rest, '/');
    assert Join([name], '/') == name by { JoinOne(name); }
    assert MountComponents(all);
    SplitTail(all);
    SplitTail(rest);
    assert name + "/" + Join(rest, '/') == Join(all, '/');
    hide MountComponents;
    assert ["semantic"] + all == ["semantic", name] + rest;
  }

  lemma SemanticRecordAlias(area: SemanticArea, rest: seq<string>)
    requires rest != [] && MountComponents(rest)
    ensures KvAlias(SEMANTIC_BUCKET, SemanticName(area) + "/" + Join(rest, '/')) ==
            Some(Print(SemanticRecord(area, Join(rest, '/'))))
  {
    SemanticIsComponent(area);
    hide SemanticName, Join, WithTail;
    SemanticParts(SemanticName(area), rest);
  }

  lemma MailboxSplit(a: string, name: string)
    requires '.' !in a && '.' !in name
    ensures Split("agents." + a + "." + name, '.') == ["agents", a, name]
  {
    var parts := ["agents", a, name];
    assert parts[1..] == [a, name] && parts[1..][1..] == [name];
    assert Join(parts[1..], '.') == a + "." + name;
    assert Join(parts, '.') == "agents" + "." + (a + "." + name);
    assert Join(parts, '.') == "agents." + a + "." + name;
    SplitJoin(parts, '.');
  }

  lemma AgentMailboxAlias(a: string, area: AgentArea)
    requires ValidRootName(a) && IsMailbox(area)
    ensures var subject := "agents." + a + "." + AreaName(area);
            && MailboxParts(subject) == Some((a, area))
            && MailboxAlias(AGENTS_STREAM, subject) == Some(Print(AgentMailbox(a, area)))
  {
    MailboxPartsOf(a, area);
    hide MailboxParts, ValidRootName, AreaName;
  }

  lemma MailboxPartsOf(a: string, area: AgentArea)
    requires ValidRootName(a) && IsMailbox(area)
    ensures MailboxParts("agents." + a + "." + AreaName(area)) == Some((a, area))
  {
    assert '.' !in a && a != "" && !IsReserved(a);
    assert '.' !in AreaName(area);
    hide Split, IsReserved, ValidRootName, AreaName;
    MailboxSplit(a, AreaName(area));
    var parts := ["agents", a, AreaName(area)];
    assert parts[0] == "agents" && parts[1] == a && parts[2] == AreaName(area);
  }

  /** Whenever the list exists it contains the mount path of every parsed path with that fact. */
  lemma VisiblePathsAreComplete(cs: seq<string>)
    requires MountComponents(cs) && ParseComponents(cs).Some?
    ensures var p := ParseComponents(cs).value;
            Print(p).Some? &&
            (FactOf(p).Some? && VisiblePaths(FactOf(p).value).Some? ==>
               Lists(VisiblePaths(FactOf(p).value).value, Print(p).value))
  {
    ParsePrintComponents(cs);
    var p := ParseComponents(cs).value;
    if FactOf(p).Some? && VisiblePaths(FactOf(p).value).Some? {
      FactPathIsListed(cs, p);
      hide Print, ParseComponents;
      VisiblePathsList(FactOf(p).value, Print(p).value);
    }
  }

  lemma FactPathIsListed(cs: seq<string>, p: JetStreamPath)
    requires MountComponents(cs) && ParseComponents(cs) == Some(p) && FactOf(p).Some?
    ensures var f := FactOf(p).value;
            || ExactPath(f) == Print(p)
            || (f.KvFact? && KvAlias(f.bucket, f.key) == Some(Print(p)))
            || (f.StreamFact? && EventAlias(f.stream, f.subject) == Some(Print(p)))
            || (f.StreamFact? && MailboxAlias(f.stream, f.subject) == Some(Print(p)))
  {
    hide ParseComponents, WithTail, SubjectFileName, MountComponent, Join, KvAlias, MailboxAlias, EventAlias;
    match p
    case Task(n, task) =>
      ParsedTask(cs, p);
      TaskAlias(n, task);
    case AgentRecord(a, area, path) =>
      ParsedAgent(cs, p);
      TailComponents(cs, 3);
      AgentRecordAlias(a, area, cs[3..]);
    case SemanticRecord(area, path) =>
      ParsedSemantic(cs, p);
      TailComponents(cs, 2);
      SemanticRecordAlias(area, cs[2..]);
    case AgentMailbox(a, area) =>
      ParsedMailbox(cs, p);
      AgentMailboxAlias(a, area);
    case EventLog(s) => EventAliasIs(s);
    case KvKey(_, _) =>
    case ObjectFile(_, _) =>
    case StreamSubject(_, _) =>
  }

  lemma EventAliasIs(s: string)
    ensures EventAlias(s, "events." + s) == Some(Print(EventLog(s)))
  {
  }

  lemma ParsedTask(cs: seq<string>, p: JetStreamPath)
    requires ParseComponents(cs) == Some(p) && p.Task?
    ensures |cs| == 3 && cs[1] == p.namespace && cs[2] == p.task
  {
    hide ValidRootName, ValidKvKey, ValidComponent;
  }

  lemma ParsedAgent(cs: seq<string>, p: JetStreamPath)
    requires ParseComponents(cs) == Some(p) && p.AgentRecord?
    ensures |cs| > 3 && cs[1] == p.agent && p.path == Join(cs[3..], '/')
  {
    hide ValidRootName, ValidKvKey, ValidComponent, Join;
    assert cs[1..][2..] == cs[3..];
  }

  lemma ParsedSemantic(cs: seq<string>, p: JetStreamPath)
    requires ParseComponents(cs) == Some(p) && p.SemanticRecord?
    ensures |cs| > 2 && p.path == Join(cs[2..], '/')
  {
    hide ValidKvKey, ValidComponent, Join;
    assert cs[1..][1..] == cs[2..];
  }

  // ---- when the list exists ----

  lemma KeyPathExists(fixed: seq<string>, parts: seq<string>)
    requires MountComponents(fixed) && parts != [] && MountComponents(parts)
    ensures WithTail(fixed, Join(parts, '/')).Some?
  {
    WithTailOf(fixed, parts);
  }

  lemma AgentAliasExists(parts: seq<string>)
    requires parts != [] && MountComponents(parts) && AgentAliasParts(Join(parts, '/')).Some?
    ensures var (agent, area, rest) := AgentAliasParts(Join(parts, '/')).value;
            WithTail(["agents", agent, area], rest).Some?
  {
    SplitTail(parts);
    TailComponents(parts, 2);
    hide Join, Split, WithTail;
    KeyPathExists(["agents", parts[0], parts[1]], parts[2..]);
  }

  lemma KvPathsExist(bucket: string, parts: seq<string>)
    requires MountComponent(bucket) && parts != [] && MountComponents(parts)
    ensures VisiblePaths(KvFact(bucket, Join(parts, '/'))).Some?
  {
    hide Join, WithTail, AgentAliasParts, MountComponent;
    var key := Join(parts, '/');
    FixedComponents(bucket);
    hide MountComponents;
    KeyPathExists(["kv", bucket], parts);
    KeyPathExists(["tasks"], parts);
    KeyPathExists(["semantic"], parts);
    if AgentAliasParts(key).Some? {
      AgentAliasExists(parts);
    }
  }

  lemma FixedComponents(bucket: string)
    requires MountComponent(bucket)
    ensures MountComponents(["kv", bucket]) && MountComponents(["tasks"]) && MountComponents(["semantic"])
  {
  }

  lemma ObjectPathExists(bucket: string, parts: seq<string>)
    requires MountComponent(bucket) && parts != [] && MountComponents(parts)
    ensures ExactPath(ObjectFact(bucket, Join(parts, '/'))).Some?
  {
    SplitTail(parts);
  }

  lemma StreamPaths(stream: string, subject: string)
    requires ValidToken(stream)
    ensures ExactPath(StreamFact(stream, subject)).Some?
    ensures EventAlias(stream, subject).Some? ==> EventAlias(stream, subject).value.Some?
  {
    hide SubjectFileName;
    var name := stream + ".jsonl";
    TokenIsComponent(stream);
    SubjectFileNameIsComponent(subject);
    SplitOne(SubjectFileName(subject));
    assert forall i :: 0 <= i < |name| ==> PlainChar(name[i]);
    PlainIsComponent(name);
    SplitOne(name);
  }

  /** A mailbox subject whose agent part cannot be a path component. */
  predicate BadMailbox(f: StorageFact) {
    f.StreamFact? && f.stream == AGENTS_STREAM && MailboxParts(f.subject).Some? &&
      '/' in MailboxParts(f.subject).value.0
  }

  lemma MailboxPathExists(stream: string, subject: string)
    requires ValidSubject(subject) && MailboxAlias(stream, subject).Some?
    ensures MailboxAlias(stream, subject).value.Some? <==> !BadMailbox(StreamFact(stream, subject))
  {
    var agent := MailboxParts(subject).value.0;
    AreaIsComponent(MailboxParts(subject).value.1);
    assert agent in Split(subject, '.') && '.' !in agent;
    assert '\0' !in subject by { assert forall i :: 0 <= i < |subject| ==> !IsControl(subject[i]); }
    SplitKeepsChars(subject, '.', '\0');
    assert MountComponent(agent) <==> '/' !in agent;
    var m := ["agents", agent, AreaName(MailboxParts(subject).value.1)];
    assert MountComponents(m) <==> MountComponent(agent) by { assert m[1] == agent; }
  }

  lemma EventSubject(stream: string)
    requires ValidToken(stream)
    ensures ValidSubject("events." + stream) && MailboxParts("events." + stream) == None
  {
    var subject := "events." + stream;
    assert forall i :: 0 <= i < |stream| ==> IsAlnum(stream[i]) || stream[i] == '_' || stream[i] == '-';
    assert forall i :: 7 <= i < |subject| ==> subject[i] == stream[i - 7];
    SplitHead("events", stream, '.');
    assert subject == "events" + ['.'] + stream;
    assert Split(subject, '.')[0] == "events";
  }

  lemma StreamPathsExist(stream: string, subject: string)
    requires ValidToken(stream) && (MailboxAlias(stream, subject).Some? ==> ValidSubject(subject))
    ensures VisiblePaths(StreamFact(stream, subject)).Some? <==> !BadMailbox(StreamFact(stream, subject))
  {
    StreamPaths(stream, subject);
    if MailboxAlias(stream, subject).Some? {
      MailboxPathExists(stream, subject);
    }
    hide ExactPath, EventAlias, MailboxParts, ValidSubject;
  }

  lemma MailboxFactExists(a: string, area: AgentArea)
    requires ValidRootName(a) && IsMailbox(area)
    ensures var f := StreamFact(AGENTS_STREAM, "agents." + a + "." + AreaName(area));
            VisiblePaths(f).Some? && !BadMailbox(f)
  {
    hide ExactPath, EventAlias, MailboxParts, AreaName;
    var subject := "agents." + a + "." + AreaName(area);
    TokenIsComponent(a);
    AreaIsComponent(area);
    StreamPaths(AGENTS_STREAM, subject);
    AgentMailboxAlias(a, area);
    assert MountComponents(["agents", a, AreaName(area)]);
  }

  lemma KvKeyShape(cs: seq<string>, p: JetStreamPath)
    requires ParseComponents(cs) == Some(p) && p.KvKey?
    ensures |cs| > 2 && ValidToken(cs[1]) && FactOf(p) == Some(KvFact(cs[1], Join(cs[2..], '/')))
  {
    assert cs[1..][1..] == cs[2..];
    hide ValidToken, ValidKvKey, ValidComponent, Join;
  }

  lemma ObjectShape(cs: seq<string>, p: JetStreamPath)
    requires ParseComponents(cs) == Some(p) && p.ObjectFile?
    ensures |cs| > 2 && ValidToken(cs[1]) && FactOf(p) == Some(ObjectFact(cs[1], Join(cs[2..], '/')))
  {
    assert cs[1..][1..] == cs[2..];
    hide ValidToken, ValidComponent, Join;
  }

  lemma TaskShape(cs: seq<string>, p: JetStreamPath)
    requires ParseComponents(cs) == Some(p) && p.Task?
    ensures |cs| == 3 && FactOf(p) == Some(KvFact(TASKS_BUCKET, Join(cs[1..], '/')))
  {
    hide ValidRootName, ValidKvKey, ValidComponent;
    JoinTwo(p.namespace, p.task);
    assert cs[1..] == [p.namespace, p.task];
  }

  lemma AgentShape(cs: seq<string>, p: JetStreamPath)
    requires ParseComponents(cs) == Some(p) && p.AgentRecord?
    ensures |cs| > 3 && FactOf(p) == Some(KvFact(AGENTS_BUCKET, Join(cs[1..], '/')))
  {
    hide ValidRootName, ValidKvKey, ValidComponent, Join;
    AgentKey(cs[1..]);
  }

  lemma SemanticShape(cs: seq<string>, p: JetStreamPath)
    requires ParseComponents(cs) == Some(p) && p.SemanticRecord?
    ensures |cs| > 2 && FactOf(p) == Some(KvFact(SEMANTIC_BUCKET, Join(cs[1..], '/')))
  {
    hide ValidKvKey, ValidComponent, Join;
    SemanticKey(cs[1..]);
  }

  lemma ValuePathsExist(cs: seq<string>, p: JetStreamPath)
    requires MountComponents(cs) && ParseComponents(cs) == Some(p) && FactOf(p).Some? && !FactOf(p).value.StreamFact?
    ensures VisiblePaths(FactOf(p).value).Some?
  {
    hide VisiblePaths, ParseComponents, MountComponents, Join;
    MaterializedBuckets();
    TailComponents(cs, if |cs| > 0 then 1 else 0);
    TailComponents(cs, if |cs| > 1 then 2 else 0);
    match p
    case KvKey(_, _) =>
      KvKeyShape(cs, p);
      TokenIsComponent(cs[1]);
      KvPathsExist(cs[1], cs[2..]);
    case ObjectFile(_, _) =>
      ObjectShape(cs, p);
      TokenIsComponent(cs[1]);
      ObjectFactExists(cs[1], cs[2..]);
    case Task(_, _) =>
      TaskShape(cs, p);
      KvPathsExist(TASKS_BUCKET, cs[1..]);
    case AgentRecord(_, _, _) =>
      AgentShape(cs, p);
      KvPathsExist(AGENTS_BUCKET, cs[1..]);
    case SemanticRecord(_, _) =>
      SemanticShape(cs, p);
      KvPathsExist(SEMANTIC_BUCKET, cs[1..]);
  }

  lemma MaterializedBuckets()
    ensures MountComponent(TASKS_BUCKET) && MountComponent(AGENTS_BUCKET) && MountComponent(SEMANTIC_BUCKET)
  {
  }

  lemma ObjectFactExists(bucket: string, parts: seq<string>)
    requires MountComponent(bucket) && parts != [] && MountComponents(parts)
    ensures VisiblePaths(ObjectFact(bucket, Join(parts, '/'))).Some?
  {
    ObjectPathExists(bucket, parts);
  }

  lemma SemanticKey(rest: seq<string>)
    requires |rest| > 1
    ensures Join(rest, '/') == rest[0] + "/" + Join(rest[1..], '/')
  {
  }

  /** The paths of a parsed file's fact can be listed, except for a mailbox subject written through the
      stream view whose agent part contains a slash. */
  lemma VisiblePathsExist(cs: seq<string>, p: JetStreamPath)
    requires MountComponents(cs) && ParseComponents(cs) == Some(p) && FactOf(p).Some?
    ensures VisiblePaths(FactOf(p).value).Some? <==> !BadMailbox(FactOf(p).value)
    ensures !p.StreamSubject? ==> !BadMailbox(FactOf(p).value)
  {
    hide VisiblePaths, MountComponents, ParseComponents;
    if !FactOf(p).value.StreamFact? {
      ValuePathsExist(cs, p);
    } else {
      hide BadMailbox;
      match p
      case EventLog(s) =>
        ParsedEvent(cs, p);
        EventSubject(s);
        EventIsNoMailbox(s);
        StreamPathsExist(s, "events." + s);
      case AgentMailbox(a, area) =>
        ParsedMailbox(cs, p);
        MailboxFactExists(a, area);
      case StreamSubject(s, subject) =>
        ParsedSubject(cs, p);
        StreamPathsExist(s, subject);
    }
  }

  lemma ParsedEvent(cs: seq<string>, p: JetStreamPath)
    requires ParseComponents(cs) == Some(p) && p.EventLog?
    ensures ValidToken(p.stream)
  {
    hide ValidToken;
  }

  lemma ParsedMailbox(cs: seq<string>, p: JetStreamPath)
    requires ParseComponents(cs) == Some(p) && p.AgentMailbox?
    ensures ValidRootName(p.agent) && IsMailbox(p.area)
  {
    hide ValidRootName;
  }

  lemma EventIsNoMailbox(s: string)
    requires ValidToken(s)
    ensures !BadMailbox(StreamFact(s, "events." + s))
  {
    EventSubject(s);
  }

  lemma AgentKey(rest: seq<string>)
    requires |rest| > 2
    ensures Join(rest, '/') == rest[0] + "/" + rest[1] + "/" + Join(rest[2..], '/')
  {
    JoinTwo(rest[0], rest[1]);
    JoinAppend([rest[0], rest[1]], rest[2..], '/');
    assert rest == [rest[0], rest[1]] + rest[2..];
  }

  // ---- a path whose fact has no list ----

  const SLASH_MAILBOX: string := "agents.a/b.inbox"

  lemma SlashMailboxParts()
    ensures MailboxParts(SLASH_MAILBOX) == Some(("a/b", Inbox))
  {
    hide Split, IsReserved;
    MailboxSplit("a/b", "inbox");
    assert SLASH_MAILBOX == "agents." + "a/b" + "." + "inbox";
    SlashNotReserved();
  }

  lemma SlashNotReserved()
    ensures !IsReserved("a/b")
  {
    assert "a/b"[0] == 'a' && WRITEBACK_MARKER[0] == '_' && APPLIED_MARKER[0] == '_';
  }

  lemma SlashMailboxIsSubject()
    ensures ValidSubject(SLASH_MAILBOX) && ValidToken(AGENTS_STREAM)
  {
  }

  lemma SlashMailboxPath()
    ensures var path := ["streams", AGENTS_STREAM, "subjects", SubjectFileName(SLASH_MAILBOX)];
            MountComponents(path) && ParseComponents(path) == Some(StreamSubject(AGENTS_STREAM, SLASH_MAILBOX))
  {
    SlashMailboxIsSubject();
    hide SubjectFileName, ParseComponents, Print, ValidSubject, ValidToken, MountComponent;
    var path := ["streams", AGENTS_STREAM, "subjects"] + [SubjectFileName(SLASH_MAILBOX)];
    SubjectRoundTrip(AGENTS_STREAM, SLASH_MAILBOX);
    SubjectPathIsValid(AGENTS_STREAM, SLASH_MAILBOX);
    assert path == ["streams", AGENTS_STREAM, "subjects", SubjectFileName(SLASH_MAILBOX)];
  }

  lemma SubjectPathIsValid(stream: string, subject: string)
    requires ValidToken(stream)
    ensures MountComponents(["streams", stream, "subjects", SubjectFileName(subject)])
  {
    TokenIsComponent(stream);
    SubjectFileNameIsComponent(subject);
    hide SubjectFileName;
  }

  /** For instance the inbox subject of the agent "a/b": its subject file parses, and it has no list. */
  lemma SlashMailboxHasNoPaths()
    ensures var path := ["streams", AGENTS_STREAM, "subjects", SubjectFileName(SLASH_MAILBOX)];
            MountComponents(path) && ParseComponents(path) == Some(StreamSubject(AGENTS_STREAM, SLASH_MAILBOX))
    ensures FactOf(StreamSubject(AGENTS_STREAM, SLASH_MAILBOX)) == Some(StreamFact(AGENTS_STREAM, SLASH_MAILBOX))
    ensures BadMailbox(StreamFact(AGENTS_STREAM, SLASH_MAILBOX)) &&
            VisiblePaths(StreamFact(AGENTS_STREAM, SLASH_MAILBOX)) == None
  {
    hide SubjectFileName, ParseComponents, VisiblePaths, MountComponents, MailboxParts;
    SlashMailboxPath();
    SlashMailboxParts();
    var path := ["streams", AGENTS_STREAM, "subjects", SubjectFileName(SLASH_MAILBOX)];
    assert "a/b"[1] == '/';
    VisiblePathsExist(path, StreamSubject(AGENTS_STREAM, SLASH_MAILBOX));
  }
}
