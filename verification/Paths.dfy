/** The mount path grammar (eventfs-protocol/src/path.rs) and the printer of parsed paths
    (eventfs-protocol/src/mount_paths.rs). A `None` result is the invalid-path error. */
module Paths {
  import opened Text
  import opened JsonLines
  import opened FileNames

  datatype AgentArea = Inbox | Outbox | AgentTasks | Memory
  datatype SemanticArea = Summaries | Tags | Relations | Timelines | Embeddings
  datatype MetadataFile = Status | Cache | Queue | Capabilities | Errors

  datatype JetStreamPath =
    | Root
    | KvRoot
    | KvBucket(bucket: string)
    | KvKey(bucket: string, key: string)
    | KvHistoryRoot(bucket: string)
    | KvHistoryKey(bucket: string, key: string)
    | KvRevision(bucket: string, key: string, revision: nat)
    | StreamsRoot
    | StreamRoot(stream: string)
    | StreamMessages(stream: string)
    | StreamMessage(stream: string, sequence: nat)
    | StreamSubjects(stream: string)
    | StreamSubject(stream: string, subject: string)
    | ObjectsRoot
    | ObjectBucket(bucket: string)
    | ObjectFile(bucket: string, name: string)
    | EventsRoot
    | EventLog(stream: string)
    | TasksRoot
    | TaskNamespace(namespace: string)
    | Task(namespace: string, task: string)
    | AgentsRoot
    | AgentRoot(agent: string)
    | AgentMailbox(agent: string, area: AgentArea)
    | AgentDirectory(agent: string, area: AgentArea)
    | AgentRecord(agent: string, area: AgentArea, path: string)
    | SemanticRoot
    | SemanticDirectory(semantic: SemanticArea)
    | SemanticRecord(semantic: SemanticArea, path: string)
    | MetadataRoot
    | Metadata(file: MetadataFile)

  // ---- names of areas and files ----

  function AreaName(area: AgentArea): string {
    match area
    case Inbox => "inbox"
    case Outbox => "outbox"
    case AgentTasks => "tasks"
    case Memory => "memory"
  }

  function ParseArea(s: string): (r: Option<AgentArea>)
    ensures r.Some? ==> AreaName(r.value) == s
    ensures forall area: AgentArea :: AreaName(area) == s ==> r == Some(area)
  {
    if s == "inbox" then Some(Inbox) else if s == "outbox" then Some(Outbox)
    else if s == "tasks" then Some(AgentTasks) else if s == "memory" then Some(Memory) else None
  }

  predicate IsMailbox(area: AgentArea) {
    area.Inbox? || area.Outbox?
  }

  function SemanticName(area: SemanticArea): string {
    match area
    case Summaries => "summaries"
    case Tags => "tags"
    case Relations => "relations"
    case Timelines => "timelines"
    case Embeddings => "embeddings"
  }

  function ParseSemantic(s: string): (r: Option<SemanticArea>)
    ensures r.Some? ==> SemanticName(r.value) == s
    ensures forall area: SemanticArea :: SemanticName(area) == s ==> r == Some(area)
  {
    if s == "summaries" then Some(Summaries) else if s == "tags" then Some(Tags)
    else if s == "relations" then Some(Relations) else if s == "timelines" then Some(Timelines)
    else if s == "embeddings" then Some(Embeddings) else None
  }

  function MetadataName(file: MetadataFile): string {
    match file
    case Status => "status.json"
    case Cache => "cache.json"
    case Queue => "queue.json"
    case Capabilities => "capabilities.json"
    case Errors => "errors.jsonl"
  }

  function ParseMetadata(s: string): (r: Option<MetadataFile>)
    ensures r.Some? ==> MetadataName(r.value) == s
    ensures forall file: MetadataFile :: MetadataName(file) == s ==> r == Some(file)
  {
    if s == "status.json" then Some(Status) else if s == "cache.json" then Some(Cache)
    else if s == "queue.json" then Some(Queue) else if s == "capabilities.json" then Some(Capabilities)
    else if s == "errors.jsonl" then Some(Errors) else None
  }

  // ---- validators ----

  predicate ValidToken(s: string) {
    s != "" && forall i :: 0 <= i < |s| ==> IsAlnum(s[i]) || s[i] == '_' || s[i] == '-'
  }

  const WRITEBACK_MARKER: string := "__eventfs_writeback"
  const APPLIED_MARKER: string := "__eventfs_applied"

  predicate HasReservedPrefix(key: string, prefix: string) {
    key == prefix || (StartsWith(key, prefix) && |key| > |prefix| && (key[|prefix|] == '.' || key[|prefix|] == '/'))
  }

  predicate IsReserved(key: string) {
    HasReservedPrefix(key, WRITEBACK_MARKER) || HasReservedPrefix(key, APPLIED_MARKER)
  }

  predicate ValidRootName(s: string) {
    ValidToken(s) && !IsReserved(s)
  }

  predicate IsControl(c: char) {
    c < ' ' || '\U{7F}' <= c <= '\U{9F}'
  }

  predicate ValidSubject(s: string) {
    && s != "" && s[0] != '.' && s[|s| - 1] != '.' && !HasDoubleDot(s)
    && forall i :: 0 <= i < |s| ==> !IsControl(s[i]) && !IsWhitespace(s[i]) && s[i] != '*' && s[i] != '>'
  }

  /** `validate_component`: a leading dot also covers "." and "..". */
  predicate ValidComponent(s: string) {
    s != "" && '\0' !in s && s[0] != '.'
  }

  predicate ValidKvKey(s: string) {
    && s != "" && s[0] != '.' && s[|s| - 1] != '.' && !IsReserved(s)
    && forall i :: 0 <= i < |s| ==>
         IsAlnum(s[i]) || s[i] == '-' || s[i] == '_' || s[i] == '=' || s[i] == '.' || s[i] == '/'
  }

  // ---- components ----

  /** `validate_mount_component`. */
  predicate MountComponent(s: string) {
    s != "" && s != "." && s != ".." && '\0' !in s && '/' !in s
  }

  predicate MountComponents(cs: seq<string>) {
    forall i :: 0 <= i < |cs| ==> MountComponent(cs[i])
  }

  function TrimLeft(s: string): (t: string)
    ensures t != "" ==> t[0] != '/'
    ensures forall c :: c in t ==> c in s
  {
    if s != "" && s[0] == '/' then TrimLeft(s[1..]) else s
  }

  function TrimRight(s: string): (t: string)
    ensures t <= s
    ensures t != "" ==> t[|t| - 1] != '/'
  {
    if s != "" && s[|s| - 1] == '/' then TrimRight(s[..|s| - 1]) else s
  }

  /** `components`. */
  function Components(path: string): Option<seq<string>> {
    if '\0' in path then None
    else
      var trimmed := TrimRight(TrimLeft(path));
      if trimmed == "" then Some([])
      else
        var parts := Split(trimmed, '/');
        if exists i :: 0 <= i < |parts| && (parts[i] == "" || parts[i] == "." || parts[i] == "..") then None
        else Some(parts)
  }

  // ---- the parser ----

  /** `join_path`. */
  function JoinPath(parts: seq<string>): Option<string> {
    if parts == [] || exists i :: 0 <= i < |parts| && !ValidComponent(parts[i]) then None
    else Some(Join(parts, '/'))
  }

  /** `join_kv_key`. */
  function JoinKvKey(parts: seq<string>): Option<string> {
    var key := JoinPath(parts);
    if key.Some? && ValidKvKey(key.value) then key else None
  }

  /** `parse_kv_history` on at least one component. */
  function ParseHistory(bucket: string, rest: seq<string>): Option<JetStreamPath>
    requires rest != []
  {
    var last := rest[|rest| - 1];
    if !ValidToken(bucket) then None
    else if StartsWith(last, "@") then
      var revision := ParseU64(last[1..]);
      var key := JoinKvKey(rest[..|rest| - 1]);
      if revision.Some? && key.Some? then Some(KvRevision(bucket, key.value, revision.value)) else None
    else
      var key := JoinKvKey(rest);
      if key.Some? then Some(KvHistoryKey(bucket, key.value)) else None
  }

  function ParseKv(cs: seq<string>): Option<JetStreamPath> {
    if cs == [] then Some(KvRoot)
    else if |cs| > 2 && cs[1] == ".history" then ParseHistory(cs[0], cs[2..])
    else if !ValidToken(cs[0]) then None
    else if |cs| == 1 then Some(KvBucket(cs[0]))
    else if cs[1] == ".history" then Some(KvHistoryRoot(cs[0]))
    else
      var key := JoinKvKey(cs[1..]);
      if key.Some? then Some(KvKey(cs[0], key.value)) else None
  }

  function ParseStreams(cs: seq<string>): Option<JetStreamPath> {
    if cs == [] then Some(StreamsRoot)
    else if !ValidToken(cs[0]) then None
    else if |cs| == 1 then Some(StreamRoot(cs[0]))
    else if |cs| == 2 && cs[1] == "messages" then Some(StreamMessages(cs[0]))
    else if |cs| == 3 && cs[1] == "messages" then
      var stem := StripSuffix(cs[2], ".json");
      var sequence := if stem.Some? then ParseU64(stem.value) else None;
      if sequence.Some? then Some(StreamMessage(cs[0], sequence.value)) else None
    else if |cs| == 2 && cs[1] == "subjects" then Some(StreamSubjects(cs[0]))
    else if |cs| == 3 && cs[1] == "subjects" then
      var subject := ParseSubjectFileName(cs[2]);
      if subject.Some? && ValidSubject(subject.value) then Some(StreamSubject(cs[0], subject.value)) else None
    else None
  }

  function ParseObjects(cs: seq<string>): Option<JetStreamPath> {
    if cs == [] then Some(ObjectsRoot)
    else if !ValidToken(cs[0]) then None
    else if |cs| == 1 then Some(ObjectBucket(cs[0]))
    else
      var name := JoinPath(cs[1..]);
      if name.Some? then Some(ObjectFile(cs[0], name.value)) else None
  }

  function ParseEvents(cs: seq<string>): Option<JetStreamPath> {
    if cs == [] then Some(EventsRoot)
    else if |cs| > 1 then None
    else
      var stem := StripSuffix(cs[0], ".jsonl");
      if stem.Some? && ValidToken(stem.value) then Some(EventLog(stem.value)) else None
  }

  function ParseTasks(cs: seq<string>): Option<JetStreamPath> {
    if cs == [] then Some(TasksRoot)
    else if |cs| > 2 || !ValidRootName(cs[0]) then None
    else if |cs| == 1 then Some(TaskNamespace(cs[0]))
    else if EndsWith(cs[1], ".json") && ValidComponent(cs[1]) && ValidKvKey(cs[1]) then Some(Task(cs[0], cs[1]))
    else None
  }

  function ParseAgents(cs: seq<string>): Option<JetStreamPath> {
    if cs == [] then Some(AgentsRoot)
    else if !ValidRootName(cs[0]) then None
    else if |cs| == 1 then Some(AgentRoot(cs[0]))
    else
      var area := ParseArea(cs[1]);
      if area == None then None
      else if |cs| == 2 then
        Some(if IsMailbox(area.value) then AgentMailbox(cs[0], area.value) else AgentDirectory(cs[0], area.value))
      else
        var path := JoinKvKey(cs[2..]);
        if IsMailbox(area.value) || path == None then None else Some(AgentRecord(cs[0], area.value, path.value))
  }

  function ParseSemanticPath(cs: seq<string>): Option<JetStreamPath> {
    if cs == [] then Some(SemanticRoot)
    else
      var area := ParseSemantic(cs[0]);
      if area == None then None
      else if |cs| == 1 then Some(SemanticDirectory(area.value))
      else
        var path := JoinKvKey(cs[1..]);
        if path.Some? then Some(SemanticRecord(area.value, path.value)) else None
  }

  function ParseMetadataPath(cs: seq<string>): Option<JetStreamPath> {
    if cs == [] then Some(MetadataRoot)
    else if |cs| > 1 then None
    else
      var file := ParseMetadata(cs[0]);
      if file.Some? then Some(Metadata(file.value)) else None
  }

  function ParseComponents(cs: seq<string>): Option<JetStreamPath> {
    if cs == [] then Some(Root)
    else if cs[0] == "kv" then ParseKv(cs[1..])
    else if cs[0] == "streams" then ParseStreams(cs[1..])
    else if cs[0] == "objects" then ParseObjects(cs[1..])
    else if cs[0] == "events" then ParseEvents(cs[1..])
    else if cs[0] == "tasks" then ParseTasks(cs[1..])
    else if cs[0] == "agents" then ParseAgents(cs[1..])
    else if cs[0] == "semantic" then ParseSemanticPath(cs[1..])
    else if cs[0] == ".eventfs" then ParseMetadataPath(cs[1..])
    else None
  }

  /** `JetStreamPath::parse`. */
  function Parse(path: string): Option<JetStreamPath> {
    var cs := Components(path);
    if cs == None then None else ParseComponents(cs.value)
  }

  // ---- the printer ----

  /** A normalized mount path, as its components. */
  type MountPath = seq<string>

  function AsStr(path: MountPath): string {
    "/" + Join(path, '/')
  }

  /** `join_storage_path` with a tail. */
  function WithTail(fixed: seq<string>, tail: string): Option<MountPath> {
    if tail == "" then None else FromComponents(fixed + Split(tail, '/'))
  }

  /** `MountPath::from_components`. */
  function FromComponents(cs: seq<string>): Option<MountPath> {
    if MountComponents(cs) then Some(cs) else None
  }

  /** `mount_path_from_jetstream_path`. */
  function Print(p: JetStreamPath): Option<MountPath> {
    match p
    case Root => Some([])
    case KvRoot => Some(["kv"])
    case KvBucket(b) => FromComponents(["kv", b])
    case KvKey(b, key) => WithTail(["kv", b], key)
    case KvHistoryRoot(b) => FromComponents(["kv", b, ".history"])
    case KvHistoryKey(b, key) => WithTail(["kv", b, ".history"], key)
    case KvRevision(b, key, revision) => WithTail(["kv", b, ".history"], key + "/@" + Decimal(revision))
    case StreamsRoot => Some(["streams"])
    case StreamRoot(s) => FromComponents(["streams", s])
    case StreamMessages(s) => FromComponents(["streams", s, "messages"])
    case StreamMessage(s, sequence) => WithTail(["streams", s, "messages"], Decimal(sequence) + ".json")
    case StreamSubjects(s) => FromComponents(["streams", s, "subjects"])
    case StreamSubject(s, subject) => WithTail(["streams", s, "subjects"], SubjectFileName(subject))
    case ObjectsRoot => Some(["objects"])
    case ObjectBucket(b) => FromComponents(["objects", b])
    case ObjectFile(b, name) => WithTail(["objects", b], name)
    case EventsRoot => Some(["events"])
    case EventLog(s) => WithTail(["events"], s + ".jsonl")
    case TasksRoot => Some(["tasks"])
    case TaskNamespace(n) => FromComponents(["tasks", n])
    case Task(n, task) => WithTail(["tasks", n], task)
    case AgentsRoot => Some(["agents"])
    case AgentRoot(a) => FromComponents(["agents", a])
    case AgentMailbox(a, area) => FromComponents(["agents", a, AreaName(area)])
    case AgentDirectory(a, area) => FromComponents(["agents", a, AreaName(area)])
    case AgentRecord(a, area, path) => WithTail(["agents", a, AreaName(area)], path)
    case SemanticRoot => Some(["semantic"])
    case SemanticDirectory(area) => FromComponents(["semantic", SemanticName(area)])
    case SemanticRecord(area, path) => WithTail(["semantic", SemanticName(area)], path)
    case MetadataRoot => Some([".eventfs"])
    case Metadata(file) => FromComponents([".eventfs", MetadataName(file)])
  }
}
