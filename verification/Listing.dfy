/** Immediate children of a key prefix, as the memory adapter (storage/memory.rs) and the NATS adapter
    (storage/nats/mod.rs) compute them, and the classification of a dynamic path (fs/runtime.rs). */
module Listing {
  import opened Text
  import opened Paths

  datatype Kind = Directory | File
  datatype DirEntry = DirEntry(name: string, kind: Kind)

  // ---- the order of names ----

  predicate Below(a: string, b: string) {
    b != "" && (a == "" || a[0] < b[0] || (a[0] == b[0] && Below(a[1..], b[1..])))
  }

  lemma {:induction false} BelowTotal(a: string, b: string)
    requires a != b
    ensures Below(a, b) || Below(b, a)
  {
    if a != "" && b != "" && a[0] == b[0] {
      assert a == [a[0]] + a[1..] && b == [b[0]] + b[1..];
      BelowTotal(a[1..], b[1..]);
    }
  }

  lemma {:induction false} BelowTransitive(a: string, b: string, c: string)
    requires Below(a, b) && Below(b, c)
    ensures Below(a, c)
  {
    if a != "" && a[0] == b[0] == c[0] {
      BelowTransitive(a[1..], b[1..], c[1..]);
    }
  }

  lemma {:induction false} BelowIrreflexive(a: string)
    ensures !Below(a, a)
  {
    if a != "" {
      BelowIrreflexive(a[1..]);
    }
  }

  predicate SortedByName(entries: seq<DirEntry>) {
    forall i, j :: 0 <= i < j < |entries| ==> Below(entries[i].name, entries[j].name)
  }

  // ---- what one key contributes ----

  /** `split_once('/')` on a non-empty remainder. */
  function FirstPart(remainder: string): DirEntry {
    var parts := Split(remainder, '/');
    DirEntry(parts[0], if |parts| > 1 then Directory else File)
  }

  function Remainder(prefix: string, key: string): Option<string> {
    if prefix == "" then Some(key)
    else if StartsWith(key, prefix + "/") then Some(key[|prefix| + 1..])
    else None
  }

  /** The child of a normalized prefix that a key stands for. */
  function Child(prefix: string, key: string): Option<DirEntry> {
    var remainder := Remainder(prefix, key);
    if remainder == None || remainder.value == "" then None else Some(FirstPart(remainder.value))
  }

  function Normalized(prefix: string): string {
    TrimRight(TrimLeft(prefix))
  }

  // ---- the set specification ----

  predicate Gives(keys: seq<string>, prefix: string, e: DirEntry) {
    exists i :: 0 <= i < |keys| && Child(prefix, keys[i]) == Some(e)
  }

  /** A name is a file if some key ends there, else a directory if some key goes through it. */
  predicate IsChild(keys: seq<string>, prefix: string, e: DirEntry) {
    Gives(keys, prefix, e) && (e.kind.Directory? ==> !Gives(keys, prefix, DirEntry(e.name, File)))
  }

  ghost predicate IsListing(keys: seq<string>, prefix: string, entries: seq<DirEntry>) {
    SortedByName(entries) && forall e :: e in entries <==> IsChild(keys, prefix, e)
  }

  predicate NoRepeats(entries: seq<DirEntry>) {
    forall i, j :: 0 <= i < j < |entries| ==> entries[i].name != entries[j].name
  }

  ghost predicate Holds(keys: seq<string>, prefix: string, entries: seq<DirEntry>) {
    NoRepeats(entries) && forall e :: e in entries <==> IsChild(keys, prefix, e)
  }

  // ---- merging ----

  function IndexOf(entries: seq<DirEntry>, name: string): (i: nat)
    ensures i <= |entries| && (i < |entries| ==> entries[i].name == name)
    ensures forall j :: 0 <= j < i ==> entries[j].name != name
  {
    if entries == [] || entries[0].name == name then 0 else 1 + IndexOf(entries[1..], name)
  }

  /** `merge_child_entry`: a file overrides a directory of the same name. */
  function Merge(entries: seq<DirEntry>, e: DirEntry): seq<DirEntry> {
    var i := IndexOf(entries, e.name);
    if i == |entries| then entries + [e]
    else if e.kind.File? then entries[i := e]
    else entries
  }

  lemma MergeMembers(entries: seq<DirEntry>, e: DirEntry, x: DirEntry)
    requires NoRepeats(entries)
    ensures NoRepeats(Merge(entries, e))
    ensures x in Merge(entries, e) <==>
            if x.name != e.name then x in entries
            else x.kind == (if e.kind.File? || DirEntry(e.name, File) in entries then File else Directory)
  {
    var i := IndexOf(entries, e.name);
    if i == |entries| {
      assert forall y :: y in entries ==> y.name != e.name;
    } else {
      assert entries[i] == DirEntry(e.name, entries[i].kind);
      assert forall j :: 0 <= j < |entries| && j != i ==> entries[j].name != e.name;
      if x.name != e.name && x in entries {
        var j :| 0 <= j < |entries| && entries[j] == x;
        assert Merge(entries, e)[j] == x;
      }
      var after := Merge(entries, e);
      assert after[i] in after;
      assert forall j :: 0 <= j < |after| && j != i ==> after[j] == entries[j];
      assert x.name == e.name ==> (x in after <==> x == after[i]);
      assert DirEntry(e.name, File) in entries <==> entries[i].kind.File?;
    }
  }

  lemma GivesOneMore(keys: seq<string>, n: nat, prefix: string, e: DirEntry)
    requires n < |keys|
    ensures Gives(keys[..n + 1], prefix, e) <==> Gives(keys[..n], prefix, e) || Child(prefix, keys[n]) == Some(e)
  {
    assert forall i :: 0 <= i < n ==> keys[..n + 1][i] == keys[..n][i] == keys[i];
    assert keys[..n + 1][n] == keys[n];
    if i :| 0 <= i < n && Child(prefix, keys[..n][i]) == Some(e) {
      assert Child(prefix, keys[..n + 1][i]) == Some(e);
    }
  }

  lemma MergeHolds(keys: seq<string>, n: nat, prefix: string, entries: seq<DirEntry>)
    requires n < |keys| && Holds(keys[..n], prefix, entries)
    ensures var c := Child(prefix, keys[n]);
            Holds(keys[..n + 1], prefix, if c.Some? then Merge(entries, c.value) else entries)
  {
    hide Child;
    var c := Child(prefix, keys[n]);
    var after := if c.Some? then Merge(entries, c.value) else entries;
    if c.Some? {
      MergeMembers(entries, c.value, c.value);
    }
    forall x
      ensures x in after <==> IsChild(keys[..n + 1], prefix, x)
    {
      GivesOneMore(keys, n, prefix, x);
      GivesOneMore(keys, n, prefix, DirEntry(x.name, File));
      GivesOneMore(keys, n, prefix, DirEntry(x.name, Directory));
      if c.Some? {
        MergeMembers(entries, c.value, x);
      }
      hide Gives, Merge, NoRepeats;
      assert IsChild(keys[..n], prefix, DirEntry(x.name, File)) <==> DirEntry(x.name, File) in entries;
      assert IsChild(keys[..n], prefix, DirEntry(x.name, Directory)) <==> DirEntry(x.name, Directory) in entries;
    }
  }

  // ---- sorting ----

  function InsertByName(sorted: seq<DirEntry>, e: DirEntry): seq<DirEntry> {
    if sorted == [] then [e]
    else if Below(sorted[0].name, e.name) then [sorted[0]] + InsertByName(sorted[1..], e)
    else [e] + sorted
  }

  /** `sort_by` on names. */
  function SortByName(entries: seq<DirEntry>): seq<DirEntry> {
    if entries == [] then [] else InsertByName(SortByName(entries[1..]), entries[0])
  }

  lemma {:induction false} InsertByNameMembers(sorted: seq<DirEntry>, e: DirEntry, x: DirEntry)
    ensures x in InsertByName(sorted, e) <==> x in sorted || x == e
  {
    if sorted != [] && Below(sorted[0].name, e.name) {
      InsertByNameMembers(sorted[1..], e, x);
      assert x in sorted <==> x == sorted[0] || x in sorted[1..];
    }
  }

  lemma {:induction false} InsertByNameSorts(sorted: seq<DirEntry>, e: DirEntry)
    requires SortedByName(sorted) && forall x :: x in sorted ==> x.name != e.name
    ensures SortedByName(InsertByName(sorted, e))
  {
    var after := InsertByName(sorted, e);
    if sorted == [] {
    } else if Below(sorted[0].name, e.name) {
      InsertByNameSorts(sorted[1..], e);
      var rest := InsertByName(sorted[1..], e);
      forall j | 0 <= j < |rest|
        ensures Below(sorted[0].name, rest[j].name)
      {
        InsertByNameMembers(sorted[1..], e, rest[j]);
      }
    } else {
      forall j | 0 <= j < |sorted|
        ensures Below(e.name, sorted[j].name)
      {
        assert sorted[0] in sorted;
        BelowTotal(sorted[0].name, e.name);
        if j > 0 {
          BelowTransitive(e.name, sorted[0].name, sorted[j].name);
        }
      }
    }
  }

  lemma {:induction false} SortMembers(entries: seq<DirEntry>, x: DirEntry)
    ensures x in SortByName(entries) <==> x in entries
  {
    if entries != [] {
      SortMembers(entries[1..], x);
      InsertByNameMembers(SortByName(entries[1..]), entries[0], x);
      assert x in entries <==> x == entries[0] || x in entries[1..];
    }
  }

  lemma {:induction false} SortSorts(entries: seq<DirEntry>)
    requires NoRepeats(entries)
    ensures SortedByName(SortByName(entries))
  {
    if entries != [] {
      SortSorts(entries[1..]);
      forall x | x in SortByName(entries[1..])
        ensures x.name != entries[0].name
      {
        SortMembers(entries[1..], x);
        var j :| 0 <= j < |entries[1..]| && entries[1..][j] == x;
        assert entries[j + 1] == x;
      }
      InsertByNameSorts(SortByName(entries[1..]), entries[0]);
    }
  }

  /** A listing is determined by its members. */
  lemma {:induction false} SortedUnique(a: seq<DirEntry>, b: seq<DirEntry>)
    requires SortedByName(a) && SortedByName(b) && forall e :: e in a <==> e in b
    ensures a == b
  {
    if a == [] {
      HasMember(b);
    } else {
      assert a[0] in a;
      assert b != [];
      assert b[0] in b;
      HeadsAgree(a, b);
      forall e
        ensures e in a[1..] <==> e in b[1..]
      {
        TailMember(a, e);
        TailMember(b, e);
      }
      SortedUnique(a[1..], b[1..]);
      assert a == [a[0]] + a[1..] && b == [b[0]] + b[1..];
    }
  }

  lemma HasMember(a: seq<DirEntry>)
    ensures a == [] || a[0] in a
  {
  }

  lemma TailMember(a: seq<DirEntry>, e: DirEntry)
    requires a != [] && SortedByName(a)
    ensures e in a[1..] <==> e in a && e != a[0]
  {
    BelowIrreflexive(a[0].name);
    assert forall i :: 1 <= i < |a| ==> Below(a[0].name, a[i].name);
    assert e in a <==> e == a[0] || e in a[1..];
  }

  lemma HeadsAgree(a: seq<DirEntry>, b: seq<DirEntry>)
    requires a != [] && b != [] && SortedByName(a) && SortedByName(b) && forall e :: e in a <==> e in b
    ensures a[0] == b[0]
  {
    assert a[0] in b && b[0] in a;
    var i :| 0 <= i < |b| && b[i] == a[0];
    var j :| 0 <= j < |a| && a[j] == b[0];
    if i > 0 && j > 0 {
      BelowTransitive(a[0].name, b[0].name, a[0].name);
      BelowIrreflexive(a[0].name);
    }
  }

  function MergeChildren(keys: seq<string>, prefix: string): seq<DirEntry> {
    if keys == [] then []
    else
      var before := MergeChildren(keys[..|keys| - 1], prefix);
      var c := Child(prefix, keys[|keys| - 1]);
      if c.Some? then Merge(before, c.value) else before
  }

  /** The listing as a function, for callers that are functions. */
  function ImmediateChildren(keys: seq<string>, prefix: string): seq<DirEntry> {
    SortByName(MergeChildren(keys, prefix))
  }

  lemma {:induction false} MergeChildrenHolds(keys: seq<string>, prefix: string)
    ensures Holds(keys, prefix, MergeChildren(keys, prefix))
  {
    if keys != [] {
      var n := |keys| - 1;
      MergeChildrenHolds(keys[..n], prefix);
      MergeHolds(keys, n, prefix, MergeChildren(keys[..n], prefix));
      hide Holds;
      assert keys[..n + 1] == keys;
    }
  }

  lemma ImmediateChildrenIsListing(keys: seq<string>, prefix: string)
    ensures IsListing(keys, prefix, ImmediateChildren(keys, prefix))
  {
    MergeChildrenHolds(keys, prefix);
    SortedIsListing(keys, prefix, MergeChildren(keys, prefix));
  }

  // ---- the two implementations ----

  lemma SortedIsListing(keys: seq<string>, prefix: string, merged: seq<DirEntry>)
    requires Holds(keys, prefix, merged)
    ensures IsListing(keys, prefix, SortByName(merged))
  {
    SortSorts(merged);
    forall e
      ensures e in SortByName(merged) <==> e in merged
    {
      SortMembers(merged, e);
    }
  }

  /** What follows a name up to its first slash, as both adapters take it apart. */
  lemma PartsOf(rest: string)
    ensures FirstPart(rest) == if |Split(rest, '/')| > 1 then DirEntry(Split(rest, '/')[0], Directory)
            else DirEntry(rest, File)
  {
    JoinSplit(rest, '/');
  }

  /** `immediate_children` of the memory adapter. */
  method ImmediateChildrenMemory(keys: seq<string>, prefix: string) returns (entries: seq<DirEntry>)
    ensures IsListing(keys, Normalized(prefix), entries)
  {
    hide Holds, Merge, Split, Normalized, IsListing, FirstPart;
    var normalized := Normalized(prefix);
    var merged := [];
    assert Holds(keys[..0], normalized, merged) by { MergeChildrenHolds(keys[..0], normalized); }
    for n := 0 to |keys|
      invariant Holds(keys[..n], normalized, merged)
    {
      MergeHolds(keys, n, normalized, merged);
      var key := keys[n];
      var remainder: Option<string> := Some(key);
      if normalized != "" {
        remainder := if StartsWith(key, normalized + "/") then Some(key[|normalized| + 1..]) else None;
      }
      if remainder.Some? && remainder.value != "" {
        PartsOf(remainder.value);
        var parts := Split(remainder.value, '/');
        if |parts| > 1 {
          merged := Merge(merged, DirEntry(parts[0], Directory));
        } else {
          merged := Merge(merged, DirEntry(remainder.value, File));
        }
      }
    }
    assert keys[..|keys|] == keys;
    entries := SortByName(merged);
    SortedIsListing(keys, normalized, merged);
  }

  /** `immediate_children` of the NATS adapter: a possibly empty prefix with its slash. */
  method ImmediateChildrenNats(keys: seq<string>, prefix: string) returns (entries: seq<DirEntry>)
    ensures IsListing(keys, Normalized(prefix), entries)
  {
    hide Holds, Merge, Split, Normalized, IsListing, FirstPart;
    var normalized := Normalized(prefix);
    var withSlash := if normalized == "" then "" else normalized + "/";
    var merged := [];
    assert Holds(keys[..0], normalized, merged) by { MergeChildrenHolds(keys[..0], normalized); }
    for n := 0 to |keys|
      invariant Holds(keys[..n], normalized, merged)
    {
      MergeHolds(keys, n, normalized, merged);
      if !StartsWith(keys[n], withSlash) {
        continue;
      }
      var rest := keys[n][|withSlash|..];
      if rest == "" {
        continue;
      }
      PartsOf(rest);
      var parts := Split(rest, '/');
      var e := if |parts| > 1 then DirEntry(parts[0], Directory) else DirEntry(rest, File);
      merged := Merge(merged, e);
    }
    assert keys[..|keys|] == keys;
    entries := SortByName(merged);
    SortedIsListing(keys, normalized, merged);
  }

  /** Both adapters return the same sorted listing, whatever order the keys come in. */
  lemma ListingIsUnique(keys: seq<string>, others: seq<string>, prefix: string, a: seq<DirEntry>, b: seq<DirEntry>)
    requires forall k :: k in keys <==> k in others
    requires IsListing(keys, prefix, a) && IsListing(others, prefix, b)
    ensures a == b
  {
    forall e
      ensures Gives(keys, prefix, e) <==> Gives(others, prefix, e)
    {
      GivesByMembers(keys, others, prefix, e);
      GivesByMembers(others, keys, prefix, e);
    }
    SortedUnique(a, b);
  }

  lemma GivesByMembers(keys: seq<string>, others: seq<string>, prefix: string, e: DirEntry)
    requires forall k :: k in keys ==> k in others
    ensures Gives(keys, prefix, e) ==> Gives(others, prefix, e)
  {
    if Gives(keys, prefix, e) {
      var i :| 0 <= i < |keys| && Child(prefix, keys[i]) == Some(e);
      assert keys[i] in others;
      var j :| 0 <= j < |others| && others[j] == keys[i];
    }
  }

  // ---- agreement with the classification of a path ----

  /** No leading, trailing or doubled slash. */
  predicate NoEmptyParts(s: string) {
    forall i :: 0 <= i < |Split(s, '/')| ==> Split(s, '/')[i] != ""
  }

  datatype DynamicKind = FileHere | DirectoryHere | Missing

  /** `classify_kv_dynamic_path` and `classify_object_dynamic_path`: an exact key is a file, otherwise a
      non-empty listing makes a directory. */
  function Classify(keys: seq<string>, path: string, listing: seq<DirEntry>): DynamicKind {
    if path in keys then FileHere else if listing == [] then Missing else DirectoryHere
  }

  function Under(prefix: string, name: string): string {
    if prefix == "" then name else prefix + "/" + name
  }

  lemma TrimSolid(s: string)
    requires s != "" && s[0] != '/' && s[|s| - 1] != '/'
    ensures Normalized(s) == s
  {
    assert TrimLeft(s) == s;
    assert TrimRight(s) == s;
  }

  /** A key below a child has the child's path, a slash and a rest; a key at the child is its path. */
  lemma ChildShape(prefix: string, key: string)
    requires Child(prefix, key).Some? && NoEmptyParts(key)
    ensures var e := Child(prefix, key).value;
            && e.name != "" && '/' !in e.name
            && (e.kind.File? ==> key == Under(prefix, e.name))
            && (e.kind.Directory? ==>
                  StartsWith(key, Under(prefix, e.name) + "/") && |key| > |Under(prefix, e.name)| + 1)
  {
    var rest := Remainder(prefix, key).value;
    var parts := Split(rest, '/');
    JoinSplit(rest, '/');
    if prefix != "" {
      assert key == prefix + ['/'] + rest;
      SplitAppend(prefix, rest, '/');
      assert Split(key, '/')[|Split(prefix, '/')|..] == parts;
    }
    assert NoEmptyParts(rest) by {
      if prefix != "" {
        assert forall i :: 0 <= i < |parts| ==> parts[i] == Split(key, '/')[|Split(prefix, '/')| + i];
      }
    }
    if |parts| > 1 {
      var tail := Join(parts[1..], '/');
      assert rest == parts[0] + ['/'] + tail;
      assert parts[1] != "";
      assert tail != "";
    }
  }

  lemma ExactKeyIsFile(prefix: string, name: string)
    requires name != "" && '/' !in name
    ensures Child(prefix, Under(prefix, name)) == Some(DirEntry(name, File))
  {
    SplitSolid(name, '/');
    if prefix != "" {
      assert Under(prefix, name)[..|prefix| + 1] == prefix + "/";
      assert Under(prefix, name)[|prefix| + 1..] == name;
    }
  }

  /** Every listed child has the kind that classifying its path gives. */
  lemma ListingAgreesWithClassification(keys: seq<string>, prefix: string, entries: seq<DirEntry>, e: DirEntry,
                                        below: seq<DirEntry>)
    requires forall k :: k in keys ==> NoEmptyParts(k)
    requires prefix == "" || (prefix[0] != '/' && prefix[|prefix| - 1] != '/')
    requires IsListing(keys, prefix, entries) && e in entries
    requires IsListing(keys, Normalized(Under(prefix, e.name)), below)
    ensures Classify(keys, Under(prefix, e.name), below) == if e.kind.File? then FileHere else DirectoryHere
  {
    var path := Under(prefix, e.name);
    assert IsChild(keys, prefix, e);
    var i :| 0 <= i < |keys| && Child(prefix, keys[i]) == Some(e);
    assert keys[i] in keys;
    ChildShape(prefix, keys[i]);
    if e.kind.Directory? {
      ExactKeyIsFile(prefix, e.name);
      assert path !in keys;
      TrimSolid(path);
      var child := Child(path, keys[i]);
      assert child.Some?;
      assert Gives(keys, path, child.value);
      if !IsChild(keys, path, child.value) {
        assert IsChild(keys, path, DirEntry(child.value.name, File));
      }
      assert below != [];
    }
  }
}
