/** File handles of a mount (eventfs-fuse/src/fs/runtime.rs, fs.rs): writes are staged in a buffer and
    committed under a seed. A commit's fate in the store and the queue is an input. */
module Handles {
  import opened Text
  import opened JsonLines

  datatype Mode = WholeValue | AppendLines
  datatype Errno = EBADF | EINVAL | EROFS | EIO

  datatype Handle = Handle(path: string, buffer: Bytes, dirty: bool, committed: bool, writable: bool, seed: nat,
    mode: Mode,
                           baseOffset: nat, defaultPayload: Option<Bytes>)

  /** A payload that a commit handed over successfully, with the number of its seed. */
  datatype Commit = Commit(fh: Option<nat>, seed: nat, bytes: Bytes)

  /** The handle table of a mount, its gate and the commits that succeeded. */
  datatype Mount = Mount(handles: map<nat, Handle>, nextFh: nat, nextSeed: nat, accepting: bool, commits: seq<Commit>)

  // ---- buffers ----

  function Zeros(n: nat): (s: Bytes)
    ensures |s| == n && forall i :: 0 <= i < n ==> s[i] == '\0'
  {
    seq(n, _ => '\0')
  }

  function Resized(buffer: Bytes, size: nat): Bytes {
    if |buffer| < size then buffer + Zeros(size - |buffer|) else buffer
  }

  /** A positioned write: the gap before it is filled with zeros. */
  function Patched(buffer: Bytes, start: nat, data: Bytes): (r: Bytes)
    ensures |r| == if |buffer| < start + |data| then start + |data| else |buffer|
    ensures forall i :: 0 <= i < |r| ==>
      r[i] == if start <= i < start + |data| then data[i - start] else if i < |buffer| then buffer[i] else '\0'
  {
    var whole := Resized(Resized(buffer, start), start + |data|);
    whole[..start] + data + whole[start + |data|..]
  }

  // ---- the calls as functions ----

  function DrawSeed(m: Mount): Mount { m.(nextSeed := m.nextSeed + 1) }

  /** The seed of a handle whose last commit succeeded is replaced, before anything else is checked. */
  function Refreshed(m: Mount, h: Handle): (Mount, Handle) {
    if h.committed then (DrawSeed(m), h.(seed := m.nextSeed)) else (m, h)
  }

  function Put(m: Mount, fh: nat, h: Handle): Mount { m.(handles := m.handles[fh := h]) }

  /** How a file is opened, with what the mount found: the write mode of its path, the payload of a new
      file and the bytes of an old one, `None` if any of that was refused. */
  datatype Opening = Opening(path: string, writable: bool, truncate: bool, create: bool, mode: Mode, fallback: Bytes,
    found: Option<Bytes>)

  /** `initial_handle_state`: a whole value is edited in a copy, lines are appended behind the old ones. */
  function NewHandle(o: Opening, seed: nat): Handle
    requires o.writable ==> o.found.Some?
  {
    if !o.writable then Handle(o.path, "", false, false, false, seed, WholeValue, 0, None)
    else if o.create then Handle(o.path, "", true, false, true, seed, o.mode, 0, Some(o.fallback))
    else if o.truncate then Handle(o.path, "", true, false, true, seed, o.mode, 0, None)
    else if o.mode.AppendLines? then Handle(o.path, "", false, false, true, seed, o.mode, |o.found.value|, None)
    else Handle(o.path, o.found.value, false, false, true, seed, o.mode, 0, None)
  }

  /** `open_handle`: a refused open still uses up a handle number. */
  function Open(m: Mount, o: Opening): (Mount, Option<Errno>) {
    var counted := m.(nextFh := m.nextFh + 1);
    if o.writable && !m.accepting then (counted, Some(EROFS))
    else if o.writable && o.truncate && o.mode.AppendLines? then (counted, Some(EROFS))
    else if o.writable && o.found == None then (counted, Some(EIO))
    else (Put(DrawSeed(counted), m.nextFh, NewHandle(o, m.nextSeed)), None)
  }

  /** `write_to_handle_buffer`. */
  function Write(m: Mount, fh: nat, offset: int, data: Bytes): (Mount, Option<Errno>) {
    if offset < 0 then (m, Some(EINVAL))
    else if fh !in m.handles then (m, Some(EBADF))
    else
      var (m1, h) := Refreshed(m, m.handles[fh]);
      if !m.accepting then (m1, Some(EROFS))
      else if !h.writable then (Put(m1, fh, h), Some(EBADF))
      else if h.mode.AppendLines? && offset < h.baseOffset then (Put(m1, fh, h), Some(EINVAL))
      else
        var start := if h.mode.AppendLines? then offset - h.baseOffset else offset;
        (Put(m1, fh, h.(buffer := Patched(h.buffer, start, data), dirty := true, committed := false)), None)
  }

  /** `stage_truncate`. */
  function Truncate(m: Mount, fh: nat): (Mount, Option<Errno>) {
    if fh !in m.handles then (m, Some(EBADF))
    else if m.handles[fh].mode.AppendLines? then (m, Some(EROFS))
    else
      var (m1, h) := Refreshed(m, m.handles[fh]);
      if !m.accepting then (m1, Some(EROFS))
      else if !h.writable then (Put(m1, fh, h), Some(EBADF))
      else (Put(m1, fh, h.(buffer := "", baseOffset := 0, dirty := true, committed := false)), None)
  }

  /** `handle_commit_bytes`. */
  function CommitBytes(h: Handle): Bytes {
    if h.mode.WholeValue? && h.buffer == "" && h.defaultPayload.Some? then h.defaultPayload.value else h.buffer
  }

  function AfterCommit(h: Handle): Handle {
    var bytes := CommitBytes(h);
    if h.mode.AppendLines? then h.(baseOffset := h.baseOffset + |bytes|, buffer := "", dirty := false,
      committed := true)
    else h.(buffer := bytes, dirty := false, committed := true)
  }

  /** How a commit went in the store: refused, applied, or queued, which closes the gate. */
  datatype Fate = Refused | Applied | Queued

  predicate NeedsCommit(h: Handle) {
    h.writable && h.dirty && !h.committed
  }

  /** `commit_handle`. */
  function CommitHandle(m: Mount, fh: nat, fate: Fate): (Mount, Option<Errno>) {
    if fh !in m.handles || !NeedsCommit(m.handles[fh]) then (m, None)
    else if !m.accepting then (m, Some(EROFS))
    else if fate.Refused? then (m, Some(EIO))
    else
      var h := m.handles[fh];
      (Put(m, fh, AfterCommit(h)).(accepting := fate.Applied?, commits := m.commits +
        [Commit(Some(fh), h.seed, CommitBytes(h))]), None)
  }

  /** `release_handle`: the handle goes even when its commit failed. */
  function Release(m: Mount, fh: nat, fate: Fate): (Mount, Option<Errno>) {
    var (m1, errno) := CommitHandle(m, fh, fate);
    (m1.(handles := m1.handles - {fh}), errno)
  }

  /** A rename or node creation outside handles, when writes are allowed, draws a seed of its own; `bytes`
      is what it committed, if it got that far. */
  function CommitDirectly(m: Mount, bytes: Option<Bytes>): Mount {
    var m1 := if m.accepting then DrawSeed(m) else m;
    if bytes == None || !m.accepting then m1 else m1.(commits := m.commits + [Commit(None, m.nextSeed, bytes.value)])
  }

  // ---- the handle table ----

  /** The buffer part of a write: grow to the start, grow to the end, copy. */
  method Overwrite(staged: Bytes, start: nat, data: Bytes) returns (buffer: Bytes)
    ensures buffer == Patched(staged, start, data)
  {
    buffer := staged;
    if |buffer| < start {
      buffer := buffer + Zeros(start - |buffer|);
    }
    var end := start + |data|;
    if |buffer| < end {
      buffer := buffer + Zeros(end - |buffer|);
    }
    buffer := buffer[..start] + data + buffer[end..];
  }

  class HandleTable {
    var handles: map<nat, Handle>
    var nextFh: nat
    var nextSeed: nat
    var accepting: bool
    ghost var commits: seq<Commit>

    ghost function State(): Mount
      reads this
    {
      Mount(handles, nextFh, nextSeed, accepting, commits)
    }

    constructor ()
      ensures State() == Mount(map[], 1, 1, true, [])
    {
      handles, nextFh, nextSeed, accepting, commits := map[], 1, 1, true, [];
    }

    method NextSeed() returns (seed: nat)
      modifies this
      ensures seed == old(nextSeed) && State() == DrawSeed(old(State()))
    {
      seed := nextSeed;
      nextSeed := nextSeed + 1;
    }

    method OpenHandle(o: Opening) returns (errno: Option<Errno>)
      modifies this
      ensures (State(), errno) == Open(old(State()), o)
    {
      var fh := nextFh;
      nextFh := nextFh + 1;
      if o.writable && !accepting {
        return Some(EROFS);
      }
      if o.writable && o.truncate && o.mode.AppendLines? {
        return Some(EROFS);
      }
      if o.writable && o.found == None {
        return Some(EIO);
      }
      var seed := NextSeed();
      handles := handles[fh := NewHandle(o, seed)];
      return None;
    }

    method WriteToBuffer(fh: nat, offset: int, data: Bytes) returns (errno: Option<Errno>)
      modifies this
      ensures (State(), errno) == Write(old(State()), fh, offset, data)
    {
      hide Patched;
      if offset < 0 {
        return Some(EINVAL);
      }
      if fh !in handles {
        return Some(EBADF);
      }
      var h := handles[fh];
      if h.committed {
        var seed := NextSeed();
        h := h.(seed := seed);
      }
      if !accepting {
        return Some(EROFS);
      }
      handles := handles[fh := h];
      if !h.writable {
        return Some(EBADF);
      }
      if h.mode.AppendLines? && offset < h.baseOffset {
        return Some(EINVAL);
      }
      var start := if h.mode.AppendLines? then offset - h.baseOffset else offset;
      var buffer := Overwrite(h.buffer, start, data);
      handles := handles[fh := h.(buffer := buffer, dirty := true, committed := false)];
      assert handles == old(handles)[fh := handles[fh]];
      return None;
    }

    method StageTruncate(fh: nat) returns (errno: Option<Errno>)
      modifies this
      ensures (State(), errno) == Truncate(old(State()), fh)
    {
      if fh !in handles {
        return Some(EBADF);
      }
      var h := handles[fh];
      if h.mode.AppendLines? {
        return Some(EROFS);
      }
      if h.committed {
        var seed := NextSeed();
        h := h.(seed := seed);
      }
      if !accepting {
        return Some(EROFS);
      }
      handles := handles[fh := h];
      if !h.writable {
        return Some(EBADF);
      }
      handles := handles[fh := h.(buffer := "", baseOffset := 0, dirty := h.mode.WholeValue?, committed := false)];
      assert handles == old(handles)[fh := handles[fh]];
      return None;
    }

    method CommitStaged(fh: nat, fate: Fate) returns (errno: Option<Errno>)
      modifies this
      ensures (State(), errno) == CommitHandle(old(State()), fh, fate)
    {
      if fh !in handles {
        return None;
      }
      var h := handles[fh];
      if !h.writable || !h.dirty || h.committed {
        return None;
      }
      var bytes := CommitBytes(h);
      if !accepting {
        return Some(EROFS);
      }
      if fate.Refused? {
        return Some(EIO);
      }
      commits := commits + [Commit(Some(fh), h.seed, bytes)];
      accepting := fate.Applied?;
      var after := if h.mode.AppendLines? then h.(baseOffset := h.baseOffset + |bytes|, buffer := "")
        else h.(buffer := bytes);
      handles := handles[fh := after.(dirty := false, committed := true)];
      return None;
    }

    method ReleaseHandle(fh: nat, fate: Fate) returns (errno: Option<Errno>)
      modifies this
      ensures (State(), errno) == Release(old(State()), fh, fate)
    {
      errno := CommitStaged(fh, fate);
      handles := handles - {fh};
    }
  }

  // ---- runs ----

  datatype Event =
    | Opened(o: Opening)
    | Written(fh: nat, offset: int, data: Bytes)
    | Truncated(fh: nat)
    | Committed(fh: nat, fate: Fate)
    | Released(fh: nat, fate: Fate)
    | Direct(bytes: Option<Bytes>)
    | Gate(accepting: bool)  // a replay drained the queue, or a check found it pending

  function Do(m: Mount, ev: Event): (Mount, Option<Errno>) {
    match ev
    case Opened(o) => Open(m, o)
    case Written(fh, offset, data) => Write(m, fh, offset, data)
    case Truncated(fh) => Truncate(m, fh)
    case Committed(fh, fate) => CommitHandle(m, fh, fate)
    case Released(fh, fate) => Release(m, fh, fate)
    case Direct(bytes) => (CommitDirectly(m, bytes), None)
    case Gate(accepting) => (m.(accepting := accepting), None)
  }

  function Step(m: Mount, ev: Event): Mount { Do(m, ev).0 }

  function Run(m: Mount, events: seq<Event>): Mount {
    if events == [] then m else Step(Run(m, events[..|events| - 1]), events[|events| - 1])
  }

  const START: Mount := Mount(map[], 1, 1, true, [])

  // ---- commit seeds ----

  /** `next_commit_seed` as text. */
  function SeedText(mount: string, instance: nat, seed: nat): string {
    mount + ":" + Decimal(instance) + ":" + Decimal(seed)
  }

  lemma SeedTextInjective(mount: string, instance: nat, a: nat, b: nat)
    requires SeedText(mount, instance, a) == SeedText(mount, instance, b)
    ensures a == b
  {
    var n := |mount + ":" + Decimal(instance) + ":"|;
    assert Decimal(a) == SeedText(mount, instance, a)[n..] && Decimal(b) == SeedText(mount, instance, b)[n..];
    DecimalInjective(a, b);
  }

  predicate UsedUp(m: Mount, seed: nat) {
    exists i :: 0 <= i < |m.commits| && m.commits[i].seed == seed
  }

  /** Seeds in use are numbered below the next one; no two commits share one, and an uncommitted handle
      holds a seed that no commit used and no other uncommitted handle holds. */
  ghost predicate SeedsOk(m: Mount) {
    && (forall fh :: fh in m.handles ==> fh < m.nextFh && m.handles[fh].seed < m.nextSeed)
    && (forall i :: 0 <= i < |m.commits| ==> m.commits[i].seed < m.nextSeed)
    && (forall i, j :: 0 <= i < j < |m.commits| ==> m.commits[i].seed != m.commits[j].seed)
    && (forall fh :: fh in m.handles && !m.handles[fh].committed ==> !UsedUp(m, m.handles[fh].seed))
    && (forall fh, other ::
          && fh in m.handles && other in m.handles && fh != other
          && !m.handles[fh].committed && !m.handles[other].committed ==>
            m.handles[fh].seed != m.handles[other].seed)
  }

  lemma PutFreshKeepsSeeds(m: Mount, fh: nat, h: Handle)
    requires SeedsOk(m) && fh < m.nextFh && h.seed == m.nextSeed
    ensures SeedsOk(Put(DrawSeed(m), fh, h))
  {
  }

  lemma PutSameKeepsSeeds(m: Mount, fh: nat, h: Handle)
    requires SeedsOk(m) && fh in m.handles && h.seed == m.handles[fh].seed && (m.handles[fh].committed ==> h.committed)
    ensures SeedsOk(Put(m, fh, h))
  {
  }

  lemma DrawKeepsSeeds(m: Mount)
    requires SeedsOk(m)
    ensures SeedsOk(DrawSeed(m))
  {
  }

  lemma EditKeepsSeeds(m: Mount, fh: nat, h: Handle)
    requires SeedsOk(m) && fh in m.handles && h.seed == Refreshed(m, m.handles[fh]).1.seed
    ensures SeedsOk(Put(Refreshed(m, m.handles[fh]).0, fh, h))
  {
    if m.handles[fh].committed {
      PutFreshKeepsSeeds(m, fh, h);
    } else {
      PutSameKeepsSeeds(m, fh, h);
    }
  }

  lemma WriteKeepsSeeds(m: Mount, fh: nat, offset: int, data: Bytes)
    requires SeedsOk(m)
    ensures SeedsOk(Write(m, fh, offset, data).0)
  {
    if fh in m.handles && offset >= 0 {
      var (m1, h) := Refreshed(m, m.handles[fh]);
      hide SeedsOk, Patched;
      DrawKeepsSeeds(m);
      EditKeepsSeeds(m, fh, h);
      var start := if h.mode.AppendLines? then offset - h.baseOffset else offset;
      if start >= 0 {
        EditKeepsSeeds(m, fh, h.(buffer := Patched(h.buffer, start, data), dirty := true, committed := false));
      }
    }
  }

  lemma TruncateKeepsSeeds(m: Mount, fh: nat)
    requires SeedsOk(m)
    ensures SeedsOk(Truncate(m, fh).0)
  {
    if fh in m.handles {
      var (m1, h) := Refreshed(m, m.handles[fh]);
      hide SeedsOk;
      DrawKeepsSeeds(m);
      EditKeepsSeeds(m, fh, h);
      EditKeepsSeeds(m, fh, h.(buffer := "", baseOffset := 0, dirty := true, committed := false));
    }
  }

  lemma UsedUpByOneMore(m: Mount, m': Mount, c: Commit, seed: nat)
    requires m'.commits == m.commits + [c]
    ensures UsedUp(m', seed) <==> UsedUp(m, seed) || c.seed == seed
  {
    assert m'.commits[|m.commits|] == c;
    assert forall i :: 0 <= i < |m.commits| ==> m'.commits[i] == m.commits[i];
  }

  lemma LogKeepsSeeds(m: Mount, m': Mount, c: Commit)
    requires SeedsOk(m) && c.seed < m'.nextSeed && m.nextSeed <= m'.nextSeed && m.nextFh <= m'.nextFh &&
             !UsedUp(m, c.seed)
    requires m'.commits == m.commits + [c] && m'.handles.Keys <= m.handles.Keys
    requires forall fh :: fh in m'.handles ==>
               m'.handles[fh].seed == m.handles[fh].seed && (m.handles[fh].committed ==> m'.handles[fh].committed)
    requires forall fh :: fh in m'.handles && !m'.handles[fh].committed ==> m.handles[fh].seed != c.seed
    ensures SeedsOk(m')
  {
    forall i, j | 0 <= i < j < |m'.commits|
      ensures m'.commits[i].seed != m'.commits[j].seed
    {
      assert m'.commits[i] == m.commits[i];
      if j < |m.commits| {
        assert m'.commits[j] == m.commits[j];
      }
    }
    forall fh | fh in m'.handles && !m'.handles[fh].committed
      ensures !UsedUp(m', m'.handles[fh].seed)
    {
      UsedUpByOneMore(m, m', c, m'.handles[fh].seed);
    }
  }

  lemma CommitKeepsSeeds(m: Mount, fh: nat, fate: Fate)
    requires SeedsOk(m)
    ensures SeedsOk(CommitHandle(m, fh, fate).0)
  {
    var m' := CommitHandle(m, fh, fate).0;
    if m'.commits != m.commits {
      var h := m.handles[fh];
      LogKeepsSeeds(m, m', Commit(Some(fh), h.seed, CommitBytes(h)));
    }
  }

  lemma StepKeepsSeeds(m: Mount, ev: Event)
    requires SeedsOk(m)
    ensures SeedsOk(Step(m, ev))
  {
    hide SeedsOk, Open, Write, Truncate, CommitHandle, Release, CommitDirectly;
    match ev
    case Opened(o) => OpenKeepsSeeds(m, o);
    case Written(fh, offset, data) => WriteKeepsSeeds(m, fh, offset, data);
    case Truncated(fh) => TruncateKeepsSeeds(m, fh);
    case Committed(fh, fate) => CommitKeepsSeeds(m, fh, fate);
    case Released(fh, fate) => ReleaseKeepsSeeds(m, fh, fate);
    case Direct(bytes) => DirectKeepsSeeds(m, bytes);
    case Gate(accepting) => GateKeepsSeeds(m, accepting);
  }

  lemma OpenKeepsSeeds(m: Mount, o: Opening)
    requires SeedsOk(m)
    ensures SeedsOk(Open(m, o).0)
  {
    if Open(m, o).1 == None {
      PutFreshKeepsSeeds(m.(nextFh := m.nextFh + 1), m.nextFh, NewHandle(o, m.nextSeed));
    }
  }

  lemma ReleaseKeepsSeeds(m: Mount, fh: nat, fate: Fate)
    requires SeedsOk(m)
    ensures SeedsOk(Release(m, fh, fate).0)
  {
    CommitKeepsSeeds(m, fh, fate);
    hide CommitHandle;
    var m1 := CommitHandle(m, fh, fate).0;
    assert forall seed :: UsedUp(m1.(handles := m1.handles - {fh}), seed) == UsedUp(m1, seed);
  }

  lemma DirectKeepsSeeds(m: Mount, bytes: Option<Bytes>)
    requires SeedsOk(m)
    ensures SeedsOk(CommitDirectly(m, bytes))
  {
    if bytes.Some? && m.accepting {
      LogKeepsSeeds(m, CommitDirectly(m, bytes), Commit(None, m.nextSeed, bytes.value));
    } else {
      DrawKeepsSeeds(m);
    }
  }

  lemma GateKeepsSeeds(m: Mount, accepting: bool)
    requires SeedsOk(m)
    ensures SeedsOk(m.(accepting := accepting))
  {
    assert forall seed :: UsedUp(m.(accepting := accepting), seed) == UsedUp(m, seed);
  }

  lemma {:induction false} RunKeepsSeeds(m: Mount, events: seq<Event>)
    requires SeedsOk(m)
    ensures SeedsOk(Run(m, events))
  {
    if events != [] {
      hide SeedsOk, Step;
      RunKeepsSeeds(m, events[..|events| - 1]);
      StepKeepsSeeds(Run(m, events[..|events| - 1]), events[|events| - 1]);
    }
  }

  /** No two successful commits of a mount share a seed. */
  lemma CommitSeedsAreUnique(mount: string, instance: nat, events: seq<Event>, i: nat, j: nat)
    requires i < j < |Run(START, events).commits|
    ensures var commits := Run(START, events).commits;
            SeedText(mount, instance, commits[i].seed) != SeedText(mount, instance, commits[j].seed)
  {
    assert SeedsOk(START);
    RunKeepsSeeds(START, events);
    var commits := Run(START, events).commits;
    if SeedText(mount, instance, commits[i].seed) == SeedText(mount, instance, commits[j].seed) {
      SeedTextInjective(mount, instance, commits[i].seed, commits[j].seed);
    }
  }
}
