/** What a handle's buffer and commits amount to over a run of opens, writes, truncates and commits that
    fail or succeed anywhere (eventfs-fuse/src/fs/runtime.rs). */
module HandleRuns {
  import opened Text
  import opened JsonLines
  import opened Handles

  predicate Succeeds(m: Mount, ev: Event) {
    Do(m, ev).1 == None
  }

  predicate NotReleased(events: seq<Event>, fh: nat) {
    forall n :: 0 <= n < |events| ==> !(events[n].Released? && events[n].fh == fh)
  }

  // ---- appending handles ----

  /** The bytes successfully written to a handle, in order. */
  function BytesWritten(m: Mount, events: seq<Event>, fh: nat): Bytes {
    if events == [] then ""
    else
      var front, ev := events[..|events| - 1], events[|events| - 1];
      BytesWritten(m, front, fh) + if ev.Written? && ev.fh == fh && Succeeds(Run(m, front), ev) then ev.data else ""
  }

  function BytesCommitted(commits: seq<Commit>, fh: nat): Bytes {
    if commits == [] then ""
    else
      var last := commits[|commits| - 1];
      BytesCommitted(commits[..|commits| - 1], fh) + if last.fh == Some(fh) then last.bytes else ""
  }

  /** Each write continues where the one before it ended. */
  ghost predicate Sequential(m: Mount, events: seq<Event>, fh: nat)
    requires fh in m.handles
  {
    forall n :: 0 <= n < |events| ==>
      var ev := events[n];
      ev.Written? && ev.fh == fh && Succeeds(Run(m, events[..n]), ev) ==>
        ev.offset == m.handles[fh].baseOffset + |BytesWritten(m, events[..n], fh)|
  }

  /** The handle accounts for `written`: committed bytes and staged bytes, at the right offset. */
  ghost predicate AppendOk(m: Mount, now: Mount, fh: nat, written: Bytes)
    requires fh in m.handles
  {
    && fh in now.handles && fh < now.nextFh && now.handles[fh].mode == AppendLines
    && m.commits <= now.commits
    && BytesCommitted(now.commits[|m.commits|..], fh) + now.handles[fh].buffer == written
    && now.handles[fh].baseOffset + |now.handles[fh].buffer| == m.handles[fh].baseOffset + |written|
  }

  lemma OneMoreCommit(m: Mount, commits: seq<Commit>, c: Commit, fh: nat)
    requires m.commits <= commits
    ensures BytesCommitted((commits + [c])[|m.commits|..], fh) ==
            BytesCommitted(commits[|m.commits|..], fh) + if c.fh == Some(fh) then c.bytes else ""
  {
    var more, all := commits[|m.commits|..], (commits + [c])[|m.commits|..];
    assert all == more + [c];
    assert all[..|all| - 1] == more;
  }

  lemma PatchAtEnd(buffer: Bytes, data: Bytes)
    ensures Patched(buffer, |buffer|, data) == buffer + data
  {
  }

  lemma WriteAppends(m: Mount, now: Mount, fh: nat, written: Bytes, at: nat, offset: int, data: Bytes)
    requires fh in m.handles && AppendOk(m, now, fh, written)
    requires at == fh && Write(now, at, offset, data).1 == None ==> offset == m.handles[fh].baseOffset + |written|
    ensures AppendOk(m, Write(now, at, offset, data).0, fh,
                     if at == fh && Write(now, at, offset, data).1 == None then written + data else written)
  {
    hide Patched, BytesCommitted;
    var h := now.handles[fh];
    PatchAtEnd(h.buffer, data);
    var next := Write(now, at, offset, data).0;
    assert next.commits == now.commits && fh in next.handles && fh < next.nextFh;
    if at == fh {
      if Write(now, at, offset, data).1 == None {
        assert next.handles[fh].buffer == h.buffer + data && next.handles[fh].baseOffset == h.baseOffset;
      } else {
        assert next.handles[fh].buffer == h.buffer && next.handles[fh].baseOffset == h.baseOffset;
      }
    } else {
      assert next.handles[fh] == h;
    }
    hide Write;
  }

  lemma CommitAppends(m: Mount, now: Mount, fh: nat, written: Bytes, at: nat, fate: Fate)
    requires fh in m.handles && AppendOk(m, now, fh, written)
    ensures AppendOk(m, CommitHandle(now, at, fate).0, fh, written)
  {
    var next := CommitHandle(now, at, fate).0;
    if next.commits != now.commits {
      var h := now.handles[at];
      OneMoreCommit(m, now.commits, Commit(Some(at), h.seed, CommitBytes(h)), fh);
      assert m.commits <= next.commits;
      hide BytesCommitted;
    }
  }

  lemma StepAppends(m: Mount, now: Mount, fh: nat, written: Bytes, ev: Event)
    requires fh in m.handles && AppendOk(m, now, fh, written) && !(ev.Released? && ev.fh == fh)
    requires ev.Written? && ev.fh == fh && Succeeds(now, ev) ==> ev.offset == m.handles[fh].baseOffset + |written|
    ensures AppendOk(m, Step(now, ev), fh,
                     if ev.Written? && ev.fh == fh && Succeeds(now, ev) then written + ev.data else written)
  {
    hide BytesCommitted, Patched;
    match ev
    case Written(at, offset, data) => hide Write, AppendOk; WriteAppends(m, now, fh, written, at, offset, data);
    case Committed(at, fate) => hide CommitHandle, AppendOk; CommitAppends(m, now, fh, written, at, fate);
    case Released(at, fate) => CommitAppends(m, now, fh, written, at, fate); hide CommitHandle;
    case Direct(bytes) =>
      if bytes.Some? && now.accepting {
        OneMoreCommit(m, now.commits, Commit(None, now.nextSeed, bytes.value), fh);
      }
    case _ =>
  }

  lemma SequentialFront(m: Mount, events: seq<Event>, fh: nat)
    requires fh in m.handles && events != [] && NotReleased(events, fh) && Sequential(m, events, fh)
    ensures var front, ev := events[..|events| - 1], events[|events| - 1];
            && NotReleased(front, fh) && Sequential(m, front, fh) && !(ev.Released? && ev.fh == fh)
            && (ev.Written? && ev.fh == fh && Succeeds(Run(m, front), ev) ==>
                  ev.offset == m.handles[fh].baseOffset + |BytesWritten(m, front, fh)|)
  {
    hide Run, Succeeds, BytesWritten;
    var front := events[..|events| - 1];
    forall i | 0 <= i < |front|
      ensures front[i] == events[i] && front[..i] == events[..i]
    {
    }
  }

  lemma {:induction false} RunAppends(m: Mount, events: seq<Event>, fh: nat)
    requires fh in m.handles && fh < m.nextFh && m.handles[fh].mode == AppendLines && m.handles[fh].buffer == ""
    requires NotReleased(events, fh) && Sequential(m, events, fh)
    ensures AppendOk(m, Run(m, events), fh, BytesWritten(m, events, fh))
  {
    if events == [] {
      assert m.commits[|m.commits|..] == [];
    } else {
      SequentialFront(m, events, fh);
      hide AppendOk, Step, Succeeds, Sequential, NotReleased;
      var front := events[..|events| - 1];
      RunAppends(m, front, fh);
      StepAppends(m, Run(m, front), fh, BytesWritten(m, front, fh), events[|events| - 1]);
    }
  }

  /** Sequential appends, with commits that fail or succeed anywhere: the committed payloads followed by
      the buffer are exactly the bytes written. */
  lemma AppendsAreExact(m: Mount, events: seq<Event>, fh: nat)
    requires fh in m.handles && fh < m.nextFh && m.handles[fh].mode == AppendLines && m.handles[fh].buffer == ""
    requires NotReleased(events, fh) && Sequential(m, events, fh)
    ensures var end := Run(m, events);
            && fh in end.handles && m.commits <= end.commits
            && BytesCommitted(end.commits[|m.commits|..], fh) + end.handles[fh].buffer == BytesWritten(m, events, fh)
  {
    RunAppends(m, events, fh);
  }

  /** Appended bytes that are not committed yet are due. */
  ghost predicate AppendsDue(m: Mount) {
    forall fh :: fh in m.handles && m.handles[fh].mode.AppendLines? && m.handles[fh].buffer != "" ==>
      NeedsCommit(m.handles[fh])
  }

  predicate IsDue(h: Handle) {
    h.mode.AppendLines? && h.buffer != "" ==> NeedsCommit(h)
  }

  lemma PutKeepsDue(m: Mount, m': Mount, fh: nat)
    requires AppendsDue(m) && (fh in m'.handles ==> IsDue(m'.handles[fh]))
    requires forall f :: f in m'.handles && f != fh ==> f in m.handles && m'.handles[f] == m.handles[f]
    ensures AppendsDue(m')
  {
  }

  lemma EditsKeepDue(m: Mount, fh: nat, offset: int, data: Bytes)
    requires AppendsDue(m)
    ensures AppendsDue(Write(m, fh, offset, data).0) && AppendsDue(Truncate(m, fh).0)
  {
    assert fh in m.handles ==> IsDue(m.handles[fh]);
    hide Patched, AppendsDue;
    PutKeepsDue(m, Write(m, fh, offset, data).0, fh);
    PutKeepsDue(m, Truncate(m, fh).0, fh);
  }

  lemma CommitKeepsDue(m: Mount, fh: nat, fate: Fate)
    requires AppendsDue(m)
    ensures AppendsDue(CommitHandle(m, fh, fate).0) && AppendsDue(Release(m, fh, fate).0)
  {
    assert fh in m.handles ==> IsDue(m.handles[fh]);
    hide AppendsDue;
    PutKeepsDue(m, CommitHandle(m, fh, fate).0, fh);
    PutKeepsDue(m, Release(m, fh, fate).0, fh);
  }

  lemma OpenKeepsDue(m: Mount, o: Opening)
    requires AppendsDue(m)
    ensures AppendsDue(Open(m, o).0)
  {
    assert m.nextFh in m.handles ==> IsDue(m.handles[m.nextFh]);
    hide AppendsDue;
    PutKeepsDue(m, Open(m, o).0, m.nextFh);
  }

  lemma StepKeepsDue(m: Mount, ev: Event)
    requires AppendsDue(m)
    ensures AppendsDue(Step(m, ev))
  {
    hide Write, Truncate, CommitHandle, Release, Open;
    match ev
    case Opened(o) => OpenKeepsDue(m, o);
    case Written(fh, offset, data) => EditsKeepDue(m, fh, offset, data);
    case Truncated(fh) => EditsKeepDue(m, fh, 0, "");
    case Committed(fh, fate) => CommitKeepsDue(m, fh, fate);
    case Released(fh, fate) => CommitKeepsDue(m, fh, fate);
    case _ =>
  }

  lemma {:induction false} RunKeepsDue(m: Mount, events: seq<Event>)
    requires AppendsDue(m)
    ensures AppendsDue(Run(m, events))
  {
    if events != [] {
      hide Step, AppendsDue;
      RunKeepsDue(m, events[..|events| - 1]);
      StepKeepsDue(Run(m, events[..|events| - 1]), events[|events| - 1]);
    }
  }

  lemma CommitEmpties(now: Mount, fh: nat, fate: Fate)
    requires fh in now.handles && now.handles[fh].mode == AppendLines && AppendsDue(now)
    requires now.accepting && !fate.Refused?
    ensures var next := CommitHandle(now, fh, fate).0; fh in next.handles && next.handles[fh].buffer == ""
  {
  }

  lemma NothingStaged(m: Mount, next: Mount, fh: nat, written: Bytes)
    requires fh in m.handles && AppendOk(m, next, fh, written) && next.handles[fh].buffer == ""
    ensures m.commits <= next.commits && BytesCommitted(next.commits[|m.commits|..], fh) == written
  {
    hide BytesCommitted;
    var all := BytesCommitted(next.commits[|m.commits|..], fh);
    assert all + "" == all;
  }

  /** A commit that nothing refuses leaves nothing behind: everything written so far is committed, in order. */
  lemma AppendCommitIsWhole(m: Mount, events: seq<Event>, fh: nat, fate: Fate)
    requires fh in m.handles && fh < m.nextFh && m.handles[fh].mode == AppendLines && m.handles[fh].buffer == ""
    requires NotReleased(events, fh) && Sequential(m, events, fh) && AppendsDue(m)
    requires Run(m, events).accepting && !fate.Refused?
    ensures var next := Step(Run(m, events), Committed(fh, fate));
            m.commits <= next.commits && BytesCommitted(next.commits[|m.commits|..], fh) == BytesWritten(m, events, fh)
  {
    hide Run, Sequential, NotReleased, BytesWritten, AppendsDue, BytesCommitted, CommitHandle;
    var now, written := Run(m, events), BytesWritten(m, events, fh);
    RunAppends(m, events, fh);
    RunKeepsDue(m, events);
    CommitEmpties(now, fh, fate);
    CommitAppends(m, now, fh, written, fh, fate);
    NothingStaged(m, CommitHandle(now, fh, fate).0, fh, written);
  }

  // ---- whole values ----

  datatype Piece = Patch(start: nat, data: Bytes) | Clear

  function Folded(base: Bytes, pieces: seq<Piece>): Bytes {
    if pieces == [] then base
    else
      match pieces[|pieces| - 1]
      case Patch(start, data) => Patched(Folded(base, pieces[..|pieces| - 1]), start, data)
      case Clear => ""
  }

  /** The size after some pieces: the furthest end since the last clearing. */
  function Size(base: Bytes, pieces: seq<Piece>): nat {
    if pieces == [] then |base|
    else
      match pieces[|pieces| - 1]
      case Patch(start, data) =>
        var before := Size(base, pieces[..|pieces| - 1]);
        if before < start + |data| then start + |data| else before
      case Clear => 0
  }

  /** The byte at a position: from the last piece that covers it, else from the base, else zero. */
  function ByteAt(base: Bytes, pieces: seq<Piece>, i: nat): char {
    if pieces == [] then if i < |base| then base[i] else '\0'
    else
      var last := pieces[|pieces| - 1];
      match last
      case Clear => '\0'
      case Patch(start, data) =>
        if start <= i < start + |data| then data[i - start] else ByteAt(base, pieces[..|pieces| - 1], i)
  }

  lemma {:induction false} PastTheEnd(base: Bytes, pieces: seq<Piece>, i: nat)
    requires i >= Size(base, pieces)
    ensures ByteAt(base, pieces, i) == '\0'
  {
    if pieces != [] && pieces[|pieces| - 1].Patch? {
      PastTheEnd(base, pieces[..|pieces| - 1], i);
    }
  }

  lemma {:induction false} FoldedSize(base: Bytes, pieces: seq<Piece>)
    ensures |Folded(base, pieces)| == Size(base, pieces)
  {
    if pieces != [] {
      FoldedSize(base, pieces[..|pieces| - 1]);
    }
  }

  /** Staging pieces one after another gives every position its last byte. */
  lemma {:induction false} FoldedByte(base: Bytes, pieces: seq<Piece>, i: nat)
    requires i < |Folded(base, pieces)|
    ensures Folded(base, pieces)[i] == ByteAt(base, pieces, i)
  {
    if pieces != [] && pieces[|pieces| - 1].Patch? {
      var front := pieces[..|pieces| - 1];
      FoldedSize(base, front);
      if i < |Folded(base, front)| {
        FoldedByte(base, front, i);
      } else {
        PastTheEnd(base, front, i);
      }
    }
  }

  /** What is staged in a handle: pieces over the bytes that were there before them, and whether anything is due
      to be committed. */
  datatype Staged = Staged(base: Bytes, pieces: seq<Piece>, due: bool)

  /** A file opened for writing is edited from the bytes found; a new or truncated one starts empty and is due to
      be committed even if nothing is written. */
  function StartOf(o: Opening): Staged
    requires o.found.Some?
  {
    if o.create || o.truncate then Staged("", [], true) else Staged(o.found.value, [], false)
  }

  /** The bytes a commit should hand over: every position holds the byte staged there last; nothing staged in a
      created file stands for the payload of a new file. */
  function Payload(o: Opening, s: Staged): Bytes {
    if o.create && Size(s.base, s.pieces) == 0 then o.fallback
    else seq(Size(s.base, s.pieces), i requires 0 <= i => ByteAt(s.base, s.pieces, i))
  }

  /** The commit goes through: something is due, the gate is open and neither store nor queue refused it. */
  predicate GoesThrough(now: Mount, s: Staged, fate: Fate) {
    s.due && now.accepting && !fate.Refused?
  }

  function StagedBy(now: Mount, o: Opening, s: Staged, ev: Event, fh: nat): Staged {
    if ev.Written? && ev.fh == fh && Succeeds(now, ev) && ev.offset >= 0 then
      Staged(s.base, s.pieces + [Patch(ev.offset, ev.data)], true)
    else if ev.Truncated? && ev.fh == fh && Succeeds(now, ev) then Staged(s.base, s.pieces + [Clear], true)
    else if ev.Committed? && ev.fh == fh && GoesThrough(now, s, ev.fate) then Staged(Payload(o, s), [], false)
    else s
  }

  /** What is staged in the handle that an opening of `m` made, after some events. */
  function StagedIn(m: Mount, o: Opening, events: seq<Event>): Staged
    requires o.found.Some?
  {
    if events == [] then StartOf(o)
    else
      var front, ev := events[..|events| - 1], events[|events| - 1];
      StagedBy(Run(Open(m, o).0, front), o, StagedIn(m, o, front), ev, m.nextFh)
  }

  ghost predicate ValueOk(now: Mount, fh: nat, o: Opening, s: Staged) {
    && fh in now.handles && fh < now.nextFh
    && var h := now.handles[fh];
       && h.mode == WholeValue && h.writable && h.buffer == Folded(s.base, s.pieces)
       && h.defaultPayload == (if o.create then Some(o.fallback) else None)
       && (s.due <==> h.dirty && !h.committed)
  }

  lemma FoldOneMore(s: Staged, piece: Piece)
    ensures Folded(s.base, s.pieces + [piece]) ==
            match piece case Patch(start, data) => Patched(Folded(s.base, s.pieces), start, data) case Clear => ""
  {
    assert (s.pieces + [piece])[..|s.pieces|] == s.pieces;
  }

  lemma FoldedIs(base: Bytes, pieces: seq<Piece>)
    ensures Folded(base, pieces) == seq(Size(base, pieces), i requires 0 <= i => ByteAt(base, pieces, i))
  {
    FoldedSize(base, pieces);
    forall i: nat | i < |Folded(base, pieces)|
      ensures Folded(base, pieces)[i] == ByteAt(base, pieces, i)
    {
      FoldedByte(base, pieces, i);
    }
    hide Folded, Size, ByteAt;
  }

  /** The bytes of a commit are the payload its handle stands for. */
  lemma CommitBytesArePayload(now: Mount, fh: nat, o: Opening, s: Staged)
    requires ValueOk(now, fh, o, s)
    ensures CommitBytes(now.handles[fh]) == Payload(o, s)
  {
    FoldedIs(s.base, s.pieces);
    hide Folded, Size, ByteAt;
  }

  lemma WriteStages(now: Mount, fh: nat, o: Opening, s: Staged, at: nat, offset: int, data: Bytes)
    requires ValueOk(now, fh, o, s)
    ensures ValueOk(Write(now, at, offset, data).0, fh, o, StagedBy(now, o, s, Written(at, offset, data), fh))
  {
    if offset >= 0 {
      FoldOneMore(s, Patch(offset, data));
    }
    hide Patched, Folded, Payload, GoesThrough;
    if at != fh {
      var next := Write(now, at, offset, data).0;
      assert fh in next.handles ==> next.handles[fh] == now.handles[fh];
    }
  }

  lemma TruncateStages(now: Mount, fh: nat, o: Opening, s: Staged, at: nat)
    requires ValueOk(now, fh, o, s)
    ensures ValueOk(Truncate(now, at).0, fh, o, StagedBy(now, o, s, Truncated(at), fh))
  {
    FoldOneMore(s, Clear);
    hide Folded;
  }

  /** A commit of the handle: exactly when it goes through, and what it hands over. */
  lemma CommitStages(now: Mount, fh: nat, o: Opening, s: Staged, fate: Fate)
    requires ValueOk(now, fh, o, s)
    ensures var next := CommitHandle(now, fh, fate).0;
            && next.commits == now.commits +
                 (if GoesThrough(now, s, fate) then [Commit(Some(fh), now.handles[fh].seed, Payload(o, s))] else [])
            && (!GoesThrough(now, s, fate) ==> next == now)
            && (GoesThrough(now, s, fate) ==> next.accepting == fate.Applied? && CommitHandle(now, fh, fate).1 == None)
            && ValueOk(next, fh, o, StagedBy(now, o, s, Committed(fh, fate), fh))
  {
    CommitBytesArePayload(now, fh, o, s);
    assert Folded(Payload(o, s), []) == Payload(o, s);
    hide Folded, Payload;
  }

  lemma OtherCommit(now: Mount, fh: nat, o: Opening, s: Staged, at: nat, fate: Fate)
    requires ValueOk(now, fh, o, s) && at != fh
    ensures ValueOk(CommitHandle(now, at, fate).0, fh, o, s)
  {
    hide Folded, CommitBytes;
  }

  lemma StepStages(now: Mount, fh: nat, o: Opening, s: Staged, ev: Event)
    requires ValueOk(now, fh, o, s) && !(ev.Released? && ev.fh == fh)
    ensures ValueOk(Step(now, ev), fh, o, StagedBy(now, o, s, ev, fh))
  {
    hide Patched, Folded, Payload;
    match ev
    case Written(at, offset, data) => hide Write, ValueOk, StagedBy; WriteStages(now, fh, o, s, at, offset, data);
    case Truncated(at) => hide Truncate, ValueOk, StagedBy; TruncateStages(now, fh, o, s, at);
    case Committed(at, fate) =>
      if at == fh {
        hide CommitHandle, ValueOk, StagedBy;
        CommitStages(now, fh, o, s, fate);
      } else {
        hide CommitHandle, ValueOk;
        OtherCommit(now, fh, o, s, at, fate);
      }
    case Released(at, fate) => OtherCommit(now, fh, o, s, at, fate); hide CommitHandle;
    case _ =>
  }

  /** A successful opening of a whole value for writing. */
  predicate OpensValue(m: Mount, o: Opening) {
    o.writable && o.mode.WholeValue? && Open(m, o).1 == None
  }

  lemma {:induction false} RunStages(m: Mount, o: Opening, events: seq<Event>)
    requires OpensValue(m, o) && NotReleased(events, m.nextFh)
    ensures ValueOk(Run(Open(m, o).0, events), m.nextFh, o, StagedIn(m, o, events))
  {
    if events != [] {
      var n := |events| - 1;
      var front := events[..n];
      assert forall i :: 0 <= i < n ==> front[i] == events[i];
      RunStages(m, o, front);
      hide ValueOk, Step, StagedBy;
      StepStages(Run(Open(m, o).0, front), m.nextFh, o, StagedIn(m, o, front), events[n]);
    }
  }

  /** A whole-value buffer holds, at every position, the last byte staged there since the last successful
      commit, over what that commit handed over or the bytes found when it was opened, with zeros in the gaps. */
  lemma WholeValueIsExact(m: Mount, o: Opening, events: seq<Event>)
    requires OpensValue(m, o) && NotReleased(events, m.nextFh)
    ensures var end, s := Run(Open(m, o).0, events), StagedIn(m, o, events);
            && m.nextFh in end.handles
            && var buffer := end.handles[m.nextFh].buffer;
               && |buffer| == Size(s.base, s.pieces)
               && forall i: nat :: i < |buffer| ==> buffer[i] == ByteAt(s.base, s.pieces, i)
  {
    RunStages(m, o, events);
    var s := StagedIn(m, o, events);
    hide Run, StagedIn, Open;
    FoldedIs(s.base, s.pieces);
    hide ByteAt, Size, Folded;
  }

  /** In every run a commit of a whole-value handle goes through exactly when something was staged since the
      last one, or the file is new or truncated, and the gate and the store or queue let it. It hands over the
      last byte staged at every position, or, when nothing is staged in a created file, the payload of a new
      file. A commit that does not go through changes nothing. Releasing the handle commits the same. */
  lemma CommitHandsOverStaged(m: Mount, o: Opening, events: seq<Event>, fate: Fate)
    requires OpensValue(m, o) && NotReleased(events, m.nextFh)
    ensures var fh, now, s := m.nextFh, Run(Open(m, o).0, events), StagedIn(m, o, events);
            var next, last := Step(now, Committed(fh, fate)), Step(now, Released(fh, fate));
            && last == next.(handles := next.handles - {fh})
            && (if s.due && now.accepting && !fate.Refused?
                then
                  && |next.commits| == |now.commits| + 1 && next.commits[..|now.commits|] == now.commits
                  && next.accepting == fate.Applied? && Succeeds(now, Committed(fh, fate))
                  && var c := next.commits[|now.commits|];
                     && c.fh == Some(fh)
                     && (if o.create && Size(s.base, s.pieces) == 0 then c.bytes == o.fallback
                         else (|c.bytes| == Size(s.base, s.pieces) &&
                               forall i: nat :: i < |c.bytes| ==> c.bytes[i] == ByteAt(s.base, s.pieces, i)))
                else next == now)
  {
    var fh, now, s := m.nextFh, Run(Open(m, o).0, events), StagedIn(m, o, events);
    RunStages(m, o, events);
    hide Run, StagedIn, Open;
    CommitStages(now, fh, o, s, fate);
    hide ValueOk, CommitHandle, ByteAt, Size;
  }

  // ---- openings ----

  /** An opening for reading always succeeds; one for writing exactly when the gate is open, the path takes writes
      and lines are not truncated. A handle number is used up either way, and no other handle changes. */
  lemma OpeningSucceedsExactly(m: Mount, o: Opening, fh: nat)
    requires m.nextFh !in m.handles
    ensures var (m', errno) := Open(m, o);
            && (errno == None <==>
                  (o.writable ==> m.accepting && o.found.Some? && !(o.truncate && o.mode.AppendLines?)))
            && m'.nextFh == m.nextFh + 1 && m'.commits == m.commits && m'.accepting == m.accepting
            && (m.nextFh in m'.handles <==> errno == None)
            && (fh != m.nextFh ==> (fh in m'.handles <==> fh in m.handles))
            && (fh != m.nextFh && fh in m.handles ==> m'.handles[fh] == m.handles[fh])
  {
  }

  /** An appending handle starts with nothing staged behind the lines found, a created one at the beginning, and
      a write before that point is refused without effect on what is staged. */
  lemma AppendStartsBehindFound(m: Mount, o: Opening, offset: int, data: Bytes)
    requires o.writable && o.mode.AppendLines? && Open(m, o).1 == None
    ensures var m', fh := Open(m, o).0, m.nextFh;
            var start := if o.create then 0 else |o.found.value|;
            && fh in m'.handles && m'.handles[fh].buffer == "" && m'.handles[fh].baseOffset == start
            && (Write(m', fh, offset, data).1 == None <==> offset >= start)
            && (offset < start ==> Write(m', fh, offset, data).0 == m')
            && (offset == start ==> Write(m', fh, offset, data).0.handles[fh].buffer == data)
  {
    PatchAtEnd("", data);
    hide Patched;
  }

  /** Which write is refused for which reason, and that a refused write stages nothing. */
  lemma WriteRefusals(m: Mount, fh: nat, offset: int, data: Bytes)
    ensures var (m', errno) := Write(m, fh, offset, data);
            var known := fh in m.handles;
            && (errno == Some(EROFS) <==> offset >= 0 && known && !m.accepting)
            && (errno == Some(EBADF) <==> offset >= 0 && (!known || (m.accepting && !m.handles[fh].writable)))
            && (errno == Some(EINVAL) <==>
                  offset < 0 || (known && m.accepting && m.handles[fh].writable &&
                                 m.handles[fh].mode.AppendLines? && offset < m.handles[fh].baseOffset))
            && errno != Some(EIO)
            && (errno.Some? && known ==>
                  m'.handles[fh].buffer == m.handles[fh].buffer && m'.handles[fh].dirty == m.handles[fh].dirty)
  {
    hide Patched;
  }

  /** The same for truncations, which lines never allow, and for commits, which succeed when nothing is due. */
  lemma OtherRefusals(m: Mount, fh: nat, fate: Fate)
    ensures var errno, known := Truncate(m, fh).1, fh in m.handles;
            && (errno == Some(EROFS) <==> known && (m.handles[fh].mode.AppendLines? || !m.accepting))
            && (errno == Some(EBADF) <==>
                  !known || (!m.handles[fh].mode.AppendLines? && m.accepting && !m.handles[fh].writable))
            && errno != Some(EIO) && errno != Some(EINVAL)
    ensures var (m', errno) := CommitHandle(m, fh, fate);
            var due := fh in m.handles && NeedsCommit(m.handles[fh]);
            && (errno == Some(EROFS) <==> due && !m.accepting)
            && (errno == Some(EIO) <==> due && m.accepting && fate.Refused?)
            && errno != Some(EBADF) && errno != Some(EINVAL)
            && (errno.Some? || !due ==> m' == m)
  {
  }

  // ---- a retried commit keeps its seed ----

  /** The event commits the handle. */
  predicate Commits(m: Mount, ev: Event, fh: nat) {
    ev.Committed? && ev.fh == fh && |Step(m, ev).commits| > |m.commits|
  }

  predicate CommitsNothing(m: Mount, events: seq<Event>, fh: nat) {
    forall n :: 0 <= n < |events| ==> !Commits(Run(m, events[..n]), events[n], fh)
  }

  lemma StepKeepsSeed(m: Mount, ev: Event, fh: nat)
    requires fh in m.handles && fh < m.nextFh && !m.handles[fh].committed
    requires !(ev.Released? && ev.fh == fh) && !Commits(m, ev, fh)
    ensures var m' := Step(m, ev);
            fh in m'.handles && fh < m'.nextFh && !m'.handles[fh].committed && m'.handles[fh].seed == m.handles[fh].seed
  {
    hide Patched;
  }

  /** A handle whose commit has not gone through keeps its seed, however often it is written to, truncated and
      committed in vain, so that every retry of a commit has the same idempotency key. */
  lemma {:induction false} RetriesKeepTheSeed(m: Mount, events: seq<Event>, fh: nat)
    requires fh in m.handles && fh < m.nextFh && !m.handles[fh].committed
    requires NotReleased(events, fh) && CommitsNothing(m, events, fh)
    ensures var end := Run(m, events);
            && fh in end.handles && fh < end.nextFh && !end.handles[fh].committed
            && end.handles[fh].seed == m.handles[fh].seed
  {
    if events != [] {
      var n := |events| - 1;
      var front := events[..n];
      hide Commits, Step;
      assert forall i :: 0 <= i < n ==> front[i] == events[i] && front[..i] == events[..i];
      RetriesKeepTheSeed(m, front, fh);
      assert !Commits(Run(m, front), events[n], fh);
      StepKeepsSeed(Run(m, front), events[n], fh);
    }
  }

  // ---- a closed gate ----

  predicate LeavesGate(events: seq<Event>) {
    forall n :: 0 <= n < |events| ==> !events[n].Gate?
  }

  /** While the gate is closed nothing is committed, nothing is staged and no writable handle is opened. */
  lemma {:induction false} ClosedGateChangesNothing(m: Mount, events: seq<Event>, fh: nat)
    requires !m.accepting && LeavesGate(events) && forall f :: f in m.handles ==> f < m.nextFh
    ensures var end := Run(m, events);
            && !end.accepting && end.commits == m.commits && m.nextFh <= end.nextFh
            && (fh in m.handles && fh in end.handles ==>
                  end.handles[fh].buffer == m.handles[fh].buffer && end.handles[fh].writable == m.handles[fh].writable)
            && (fh !in m.handles && fh in end.handles ==> m.nextFh <= fh && !end.handles[fh].writable)
            && (fh in end.handles ==> fh < end.nextFh)
  {
    if events != [] {
      var n := |events| - 1;
      var front := events[..n];
      assert forall i :: 0 <= i < n ==> front[i] == events[i];
      ClosedGateChangesNothing(m, front, fh);
      ClosedStep(Run(m, front), events[n], fh);
      hide Step;
    }
  }

  lemma ClosedStep(m: Mount, ev: Event, fh: nat)
    requires !m.accepting && !ev.Gate? && (fh in m.handles ==> fh < m.nextFh)
    ensures var m' := Step(m, ev);
            && !m'.accepting && m'.commits == m.commits && m.nextFh <= m'.nextFh
            && (fh in m.handles && fh in m'.handles ==>
                  m'.handles[fh].buffer == m.handles[fh].buffer && m'.handles[fh].writable == m.handles[fh].writable)
            && (fh !in m.handles && fh in m'.handles ==> m.nextFh <= fh && !m'.handles[fh].writable)
            && (fh in m'.handles ==> fh < m'.nextFh)
  {
    hide Patched;
  }
}
