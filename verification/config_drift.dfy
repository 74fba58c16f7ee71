/**
 Model of deepDiff in src/audit/drift_detector.ts and of the loop of rollback in
 src/audit/config_audit_service.ts.

 Rolling every reported difference back, in whatever order, gives a tree that
 serialises as the baseline; keys the baseline lacks stay behind with the value
 undefined, and are reported again by every later check.
 */
module ConfigDrift {
  import opened Common
  import opened ConfigTree

  // A difference: the keys that lead to it, and the two values (undefined when missing).
  datatype Entry = Entry(path: seq<string>, baseline: Json, live: Json)

  // The same with the dotted path of the report.
  datatype RawDiff = RawDiff(path: string, baselineValue: Json, liveValue: Json)

  predicate BothObjects(b: Json, l: Json, k: string)
    requires b.Obj? && l.Obj?
  {
    b.At(k).Obj? && l.At(k).Obj?
  }

  predicate DiffersAt(b: Json, l: Json, k: string)
    requires b.Obj? && l.Obj?
  {
    (k in b.fields || k in l.fields) && !(k in b.fields && k in l.fields && b.fields[k] == l.fields[k])
  }

  /** What counts as a difference between two trees, path by path. */
  predicate Reported(b: Json, l: Json, e: Entry)
    requires b.Obj? && l.Obj?
    decreases |e.path|
  {
    && e.path != []
    && var k := e.path[0];
       if BothObjects(b, l, k) then Reported(b.At(k), l.At(k), e.(path := e.path[1..]))
       else |e.path| == 1 && DiffersAt(b, l, k) && e.baseline == b.At(k) && e.live == l.At(k)
  }

  // ---------------------------------------------------------------- the loop of deepDiff

  function Extend(prefix: string, key: string): string {
    if prefix == "" then key else prefix + "." + key
  }

  function FullPath(prefix: string, keys: seq<string>): string
    decreases |keys|
  {
    if keys == [] then prefix else FullPath(Extend(prefix, keys[0]), keys[1..])
  }

  function Raw(prefix: string, e: Entry): RawDiff {
    RawDiff(FullPath(prefix, e.path), e.baseline, e.live)
  }

  function Below(k: string, e: Entry): Entry {
    e.(path := [k] + e.path)
  }

  // The reported differences whose path starts with one of the keys.
  ghost predicate ListsExactly(b: Json, l: Json, keys: set<string>, entries: seq<Entry>)
    requires b.Obj? && l.Obj?
  {
    forall e {:trigger Reported(b, l, e)} {:trigger e in entries} ::
      e in entries <==> Reported(b, l, e) && e.path[0] in keys
  }

  ghost predicate Describes(prefix: string, entries: seq<Entry>, diffs: seq<RawDiff>) {
    |diffs| == |entries| && forall i {:trigger diffs[i]} :: 0 <= i < |diffs| ==> diffs[i] == Raw(prefix, entries[i])
  }

  /** The lines are those of the differences under a prefix, in any order. */
  ghost predicate IsReport(b: Json, l: Json, prefix: string, diffs: seq<RawDiff>)
    requires b.Obj? && l.Obj?
  {
    && (forall d :: d in diffs ==> exists e :: Reported(b, l, e) && d == Raw(prefix, e))
    && (forall e {:trigger Reported(b, l, e)} :: Reported(b, l, e) ==> Raw(prefix, e) in diffs)
  }

  method DeepDiff(b: Json, l: Json, prefix: string) returns (diffs: seq<RawDiff>)
    requires b.Obj? && l.Obj?
    ensures IsReport(b, l, prefix, diffs)
  {
    ghost var entries;
    diffs, entries := DiffObjects(b, l, prefix);
    ListIsReport(b, l, prefix, diffs, entries);
  }

  lemma ListIsReport(b: Json, l: Json, prefix: string, diffs: seq<RawDiff>, entries: seq<Entry>)
    requires b.Obj? && l.Obj? && Describes(prefix, entries, diffs)
    requires forall e :: e in entries <==> Reported(b, l, e)
    ensures IsReport(b, l, prefix, diffs)
  {
    forall d | d in diffs ensures exists e :: Reported(b, l, e) && d == Raw(prefix, e) {
      var i :| 0 <= i < |diffs| && diffs[i] == d;
      assert entries[i] in entries;
    }
    forall e | Reported(b, l, e) ensures Raw(prefix, e) in diffs {
      var i :| 0 <= i < |entries| && entries[i] == e;
      assert diffs[i] == Raw(prefix, e);
    }
  }

  // The loop over the keys of both objects, in any order; entries are the reported differences themselves.
  method DiffObjects(b: Json, l: Json, prefix: string) returns (diffs: seq<RawDiff>, ghost entries: seq<Entry>)
    requires b.Obj? && l.Obj?
    ensures Describes(prefix, entries, diffs)
    ensures forall e :: e in entries <==> Reported(b, l, e)
    decreases b, 1
  {
    diffs, entries := [], [];
    var allKeys := b.fields.Keys + l.fields.Keys;
    var keys := allKeys;
    while keys != {}
      invariant keys <= allKeys
      invariant Describes(prefix, entries, diffs)
      invariant ListsExactly(b, l, allKeys - keys, entries)
      decreases |keys|
    {
      var key :| key in keys;
      var more, moreEntries := DiffKey(b, l, key, prefix);
      OneMoreKey(b, l, allKeys, keys, key, entries, moreEntries);
      DescribesBoth(prefix, entries, diffs, moreEntries, more);
      diffs, entries := diffs + more, entries + moreEntries;
      keys := keys - {key};
    }
    forall e ensures e in entries <==> Reported(b, l, e) {
      if Reported(b, l, e) { ReportedKey(b, l, e); }
    }
  }

  // One turn of the loop: what a single key contributes.
  method DiffKey(b: Json, l: Json, key: string, prefix: string) returns (diffs: seq<RawDiff>, ghost entries: seq<Entry>)
    requires b.Obj? && l.Obj? && (key in b.fields || key in l.fields)
    ensures Describes(prefix, entries, diffs)
    ensures ListsExactly(b, l, {key}, entries)
    decreases b, 0
  {
    var fullPath := Extend(prefix, key);
    if key !in b.fields {
      diffs, entries := OneDiff(b, l, key, fullPath, prefix);
    } else if key !in l.fields {
      diffs, entries := OneDiff(b, l, key, fullPath, prefix);
    } else if b.fields[key].Obj? && l.fields[key].Obj? {
      ghost var below;
      diffs, below := DiffObjects(b.fields[key], l.fields[key], fullPath);
      entries := seq(|below|, i requires 0 <= i < |below| => Below(key, below[i]));
      EntriesBelow(b, l, key, below, entries);
      forall i | 0 <= i < |diffs| ensures diffs[i] == Raw(prefix, entries[i]) {
        assert entries[i].path[1..] == below[i].path;
      }
    } else if b.fields[key] != l.fields[key] {
      diffs, entries := OneDiff(b, l, key, fullPath, prefix);
    } else {
      diffs, entries := [], [];
    }
  }

  method OneDiff(b: Json, l: Json, key: string, fullPath: string, ghost prefix: string)
    returns (diffs: seq<RawDiff>, ghost entries: seq<Entry>)
    requires b.Obj? && l.Obj? && DiffersAt(b, l, key) && !BothObjects(b, l, key) && fullPath == Extend(prefix, key)
    ensures Describes(prefix, entries, diffs) && ListsExactly(b, l, {key}, entries)
  {
    diffs := [RawDiff(fullPath, b.At(key), l.At(key))];
    entries := [Entry([key], b.At(key), l.At(key))];
    assert [key][1..] == [] && FullPath(fullPath, []) == fullPath;
    assert FullPath(prefix, [key]) == FullPath(fullPath, [key][1..]);
    forall e ensures e in entries <==> Reported(b, l, e) && e.path[0] in {key} {
      if Reported(b, l, e) && e.path[0] == key {
        assert e.path == [key];
      }
    }
  }

  lemma ReportedKey(b: Json, l: Json, e: Entry)
    requires b.Obj? && l.Obj? && Reported(b, l, e)
    ensures e.path[0] in b.fields.Keys + l.fields.Keys
  {
  }

  lemma EntriesBelow(b: Json, l: Json, key: string, below: seq<Entry>, entries: seq<Entry>)
    requires b.Obj? && l.Obj? && BothObjects(b, l, key)
    requires forall e :: e in below <==> Reported(b.At(key), l.At(key), e)
    requires |entries| == |below| && forall i :: 0 <= i < |below| ==> entries[i] == Below(key, below[i])
    ensures ListsExactly(b, l, {key}, entries)
  {
    forall e ensures e in entries <==> Reported(b, l, e) && e.path[0] in {key} {
      if e in entries {
        var i :| 0 <= i < |entries| && entries[i] == e;
        assert below[i] in below && e.path[1..] == below[i].path && e.(path := e.path[1..]) == below[i];
      }
      if Reported(b, l, e) && e.path[0] == key {
        var shorter := e.(path := e.path[1..]);
        assert shorter in below;
        var i :| 0 <= i < |below| && below[i] == shorter;
        assert entries[i] == Below(key, shorter) == e;
      }
    }
  }

  lemma OneMoreKey(b: Json, l: Json, all: set<string>, keys: set<string>, key: string, entries: seq<Entry>, more: seq<Entry>)
    requires b.Obj? && l.Obj? && key in keys && keys <= all
    requires ListsExactly(b, l, all - keys, entries) && ListsExactly(b, l, {key}, more)
    ensures ListsExactly(b, l, all - (keys - {key}), entries + more)
  {
    forall e ensures e in entries + more <==> Reported(b, l, e) && e.path[0] in all - (keys - {key}) {
      assert e in entries + more <==> e in entries || e in more;
    }
  }

  lemma DescribesBoth(prefix: string, e1: seq<Entry>, d1: seq<RawDiff>, e2: seq<Entry>, d2: seq<RawDiff>)
    requires Describes(prefix, e1, d1) && Describes(prefix, e2, d2)
    ensures Describes(prefix, e1 + e2, d1 + d2)
  {
  }

  // ---------------------------------------------------------------- laws of the diff

  ghost predicate NothingReported(b: Json, l: Json)
    requires b.Obj? && l.Obj?
  {
    forall e :: !Reported(b, l, e)
  }

  /** Nothing is reported exactly when the trees are equal. */
  lemma {:induction false} NothingReportedIffEqual(b: Json, l: Json)
    requires b.Obj? && l.Obj?
    ensures NothingReported(b, l) <==> b == l
    decreases b
  {
    if b == l {
      forall e ensures !Reported(b, l, e) { NothingReportedAgainstItself(b, e); }
    }
    if NothingReported(b, l) {
      forall k ensures !DiffersAt(b, l, k) {
        if DiffersAt(b, l, k) {
          DifferenceIsReported(b, l, k);
        }
      }
      assert b.fields.Keys == l.fields.Keys by {
        assert forall k :: k in b.fields <==> k in l.fields by {
          forall k ensures k in b.fields <==> k in l.fields { assert !DiffersAt(b, l, k); }
        }
      }
      assert b.fields == l.fields by {
        forall k | k in b.fields ensures b.fields[k] == l.fields[k] { assert !DiffersAt(b, l, k); }
      }
    }
  }

  lemma {:induction false} DifferenceIsReported(b: Json, l: Json, k: string)
    requires b.Obj? && l.Obj? && DiffersAt(b, l, k)
    ensures !NothingReported(b, l)
    decreases b, 0
  {
    if BothObjects(b, l, k) {
      NothingReportedIffEqual(b.At(k), l.At(k));
      var e :| Reported(b.At(k), l.At(k), e);
      assert Below(k, e).path[1..] == e.path && Below(k, e).(path := e.path) == e;
      assert Reported(b, l, Below(k, e));
    } else {
      assert Reported(b, l, Entry([k], b.At(k), l.At(k)));
    }
  }

  lemma {:induction false} NothingReportedAgainstItself(b: Json, e: Entry)
    requires b.Obj?
    ensures !Reported(b, b, e)
    decreases |e.path|
  {
    if e.path != [] && b.At(e.path[0]).Obj? {
      NothingReportedAgainstItself(b.At(e.path[0]), e.(path := e.path[1..]));
    }
  }

  /** Reported paths are never prefixes of one another, and each is reported once. */
  lemma {:induction false} PathsNeverNest(b: Json, l: Json, e: Entry, f: Entry)
    requires b.Obj? && l.Obj? && Reported(b, l, e) && Reported(b, l, f) && e.path <= f.path
    ensures e == f
    decreases |e.path|
  {
    var k := e.path[0];
    assert f.path[0] == k;
    if BothObjects(b, l, k) {
      PathsNeverNest(b.At(k), l.At(k), e.(path := e.path[1..]), f.(path := f.path[1..]));
      assert e.path == [k] + e.path[1..] && f.path == [k] + f.path[1..];
    }
  }

  // ---------------------------------------------------------------- half-way trees

  function Under(paths: set<seq<string>>, k: string): set<seq<string>> {
    set p | p in paths && p != [] && p[0] == k :: p[1..]
  }

  // The live tree after the entries with the given paths have been rolled back.
  function Mixed(b: Json, l: Json, paths: set<seq<string>>): (t: Json)
    requires b.Obj? && l.Obj?
    ensures t.Obj?
    decreases b, 1
  {
    Obj(map k | k in MixedKeys(b, l, paths) :: MixedAt(b, l, paths, k))
  }

  function MixedKeys(b: Json, l: Json, paths: set<seq<string>>): set<string>
    requires b.Obj? && l.Obj?
  {
    l.fields.Keys + set k | k in b.fields && [k] in paths
  }

  function MixedAt(b: Json, l: Json, paths: set<seq<string>>, k: string): Json
    requires b.Obj? && l.Obj?
    decreases b, 0
  {
    if BothObjects(b, l, k) then Mixed(b.fields[k], l.fields[k], Under(paths, k))
    else if [k] in paths then b.At(k)
    else l.At(k)
  }

  lemma MixedReads(b: Json, l: Json, paths: set<seq<string>>, k: string)
    requires b.Obj? && l.Obj?
    ensures k in Mixed(b, l, paths).fields <==> k in MixedKeys(b, l, paths)
    ensures k in MixedKeys(b, l, paths) ==> Mixed(b, l, paths).fields[k] == MixedAt(b, l, paths, k)
    ensures Mixed(b, l, paths).At(k) == if k in MixedKeys(b, l, paths) then MixedAt(b, l, paths, k) else Undefined
  {
  }

  lemma MixedByKey(b: Json, l: Json, paths: set<seq<string>>, fields: map<string, Json>)
    requires b.Obj? && l.Obj? && fields.Keys == MixedKeys(b, l, paths)
    requires forall k :: k in fields ==> fields[k] == MixedAt(b, l, paths, k)
    ensures Obj(fields) == Mixed(b, l, paths)
  {
    assert fields == Mixed(b, l, paths).fields;
  }

  lemma {:induction false} MixedOfNothing(b: Json, l: Json)
    requires b.Obj? && l.Obj?
    ensures Mixed(b, l, {}) == l
    decreases b
  {
    forall k | k in l.fields ensures MixedAt(b, l, {}, k) == l.fields[k] {
      if BothObjects(b, l, k) {
        assert Under({}, k) == {};
        MixedOfNothing(b.At(k), l.At(k));
      }
    }
    assert MixedKeys(b, l, {}) == l.fields.Keys;
    assert Mixed(b, l, {}).fields == l.fields;
  }

  // Rolling one entry back moves from one half-way tree to the next.
  lemma {:induction false} RollOneBack(b: Json, l: Json, paths: set<seq<string>>, e: Entry)
    requires b.Obj? && l.Obj? && Reported(b, l, e)
    ensures SetIn(Mixed(b, l, paths), e.path, e.baseline) == Some(Mixed(b, l, paths + {e.path}))
    decreases |e.path|
  {
    var k, after := e.path[0], paths + {e.path};
    var t := Mixed(b, l, paths);
    assert e.path == [k] + e.path[1..];
    OtherKeysStay(b, l, paths, e.path);
    MixedReads(b, l, paths, k);
    if BothObjects(b, l, k) {
      RollOneBack(b.At(k), l.At(k), Under(paths, k), e.(path := e.path[1..]));
      UnderOneMore(paths, e.path);
      assert k in MixedKeys(b, l, paths) && b.At(k) == b.fields[k] && l.At(k) == l.fields[k];
      hide Mixed;
      assert t.At(k) == Mixed(b.At(k), l.At(k), Under(paths, k));
      assert SetIn(t.At(k), e.path[1..], e.baseline) == Some(MixedAt(b, l, after, k));
    } else {
      assert e.path == [k] && [k] in after;
    }
    MixedAfterWrite(b, l, paths, e.path);
  }

  lemma MixedAfterWrite(b: Json, l: Json, paths: set<seq<string>>, path: seq<string>)
    requires b.Obj? && l.Obj? && path != []
    requires BothObjects(b, l, path[0]) || (|path| == 1 && DiffersAt(b, l, path[0]))
    ensures Mixed(b, l, paths).With(path[0], MixedAt(b, l, paths + {path}, path[0])) == Mixed(b, l, paths + {path})
  {
    OtherKeysStay(b, l, paths, path);
    var fields := Mixed(b, l, paths).With(path[0], MixedAt(b, l, paths + {path}, path[0])).fields;
    forall k | k in fields ensures fields[k] == MixedAt(b, l, paths + {path}, k) {
      MixedReads(b, l, paths, k);
    }
    assert fields.Keys == MixedKeys(b, l, paths) + {path[0]};
    MixedByKey(b, l, paths + {path}, fields);
  }

  lemma UnderOneMore(paths: set<seq<string>>, path: seq<string>)
    requires path != []
    ensures Under(paths + {path}, path[0]) == Under(paths, path[0]) + {path[1..]}
    ensures forall k :: k != path[0] ==> Under(paths + {path}, k) == Under(paths, k)
  {
    var after := paths + {path};
    forall q ensures q in Under(after, path[0]) <==> q in Under(paths, path[0]) + {path[1..]} {
      if q in Under(paths, path[0]) + {path[1..]} {
        if q == path[1..] { assert path in after; }
      }
    }
  }

  lemma OtherKeysStay(b: Json, l: Json, paths: set<seq<string>>, path: seq<string>)
    requires b.Obj? && l.Obj? && path != []
    requires BothObjects(b, l, path[0]) || (|path| == 1 && DiffersAt(b, l, path[0]))
    ensures MixedKeys(b, l, paths + {path}) == MixedKeys(b, l, paths) + {path[0]}
    ensures forall k :: k != path[0] ==> MixedAt(b, l, paths + {path}, k) == MixedAt(b, l, paths, k)
  {
    UnderOneMore(paths, path);
    var k := path[0];
    assert path == [k] + path[1..];
    forall j ensures j in MixedKeys(b, l, paths + {path}) <==> j in MixedKeys(b, l, paths) + {k} {
      assert [j] == path ==> j == k;
      assert |path| == 1 ==> path == [k];
    }
  }

  // ---------------------------------------------------------------- rolling everything back

  // What is left of a tree when it is serialised: keys with the value undefined disappear.
  function Serialised(t: Json): (r: Json) {
    if t.Obj? then Obj(map k | k in t.fields && t.fields[k] != Undefined :: Serialised(t.fields[k])) else t
  }

  /** No key holds undefined: the case of every parsed baseline. */
  predicate Clean(t: Json) {
    t.Obj? ==> forall k :: k in t.fields ==> t.fields[k] != Undefined && Clean(t.fields[k])
  }

  lemma {:induction false} CleanStays(t: Json)
    ensures Clean(t) ==> Serialised(t) == t
  {
    if t.Obj? && Clean(t) {
      forall k | k in t.fields ensures Serialised(t.fields[k]) == t.fields[k] {
        CleanStays(t.fields[k]);
      }
      assert Serialised(t).fields == t.fields;
    }
  }

  /** Reading commutes with serialising: equal serialised forms read alike at every path. */
  lemma {:induction false} SerialisedReads(t: Json, keys: seq<string>)
    ensures Serialised(GetIn(t, keys)) == GetIn(Serialised(t), keys)
    decreases |keys|
  {
    if keys != [] && t.Obj? {
      SerialisedReads(t.At(keys[0]), keys[1..]);
      if t.At(keys[0]) == Undefined {
        assert Serialised(t).At(keys[0]) == Undefined;
        assert GetIn(Undefined, keys[1..]) == Undefined;
      }
    }
  }

  ghost predicate CoversAll(b: Json, l: Json, paths: set<seq<string>>)
    requires b.Obj? && l.Obj?
  {
    forall e {:trigger Reported(b, l, e)} :: Reported(b, l, e) ==> e.path in paths
  }

  lemma CoversBelow(b: Json, l: Json, paths: set<seq<string>>, k: string)
    requires b.Obj? && l.Obj? && CoversAll(b, l, paths) && BothObjects(b, l, k)
    ensures CoversAll(b.At(k), l.At(k), Under(paths, k))
  {
    forall e | Reported(b.At(k), l.At(k), e) ensures e.path in Under(paths, k) {
      assert Below(k, e).path[1..] == e.path && Below(k, e).(path := e.path) == e;
      assert Reported(b, l, Below(k, e));
    }
  }

  lemma CoveredKey(b: Json, l: Json, paths: set<seq<string>>, k: string)
    requires b.Obj? && l.Obj? && CoversAll(b, l, paths) && !BothObjects(b, l, k)
    ensures DiffersAt(b, l, k) ==> [k] in paths
    ensures k in MixedKeys(b, l, paths) ==> MixedAt(b, l, paths, k) == b.At(k)
  {
    if DiffersAt(b, l, k) {
      assert Reported(b, l, Entry([k], b.At(k), l.At(k)));
    }
  }

  lemma {:induction false} AllRolledBack(b: Json, l: Json, paths: set<seq<string>>)
    requires b.Obj? && l.Obj? && CoversAll(b, l, paths)
    ensures Serialised(Mixed(b, l, paths)) == Serialised(b)
    decreases b
  {
    var t := Mixed(b, l, paths);
    forall k ensures Serialised(t.At(k)) == Serialised(b.At(k)) && (k in t.fields || k !in b.fields) {
      MixedReads(b, l, paths, k);
      if BothObjects(b, l, k) {
        CoversBelow(b, l, paths, k);
        AllRolledBack(b.At(k), l.At(k), Under(paths, k));
      } else {
        CoveredKey(b, l, paths, k);
      }
    }
    SerialisedByKey(t, b);
  }

  lemma SerialisedByKey(t: Json, b: Json)
    requires t.Obj? && b.Obj? && forall k :: Serialised(t.At(k)) == Serialised(b.At(k))
    ensures Serialised(t) == Serialised(b)
  {
    hide Serialised;
    SerialisedAt(t, "");
    SerialisedAt(b, "");
    forall k ensures SameKey(Serialised(t), Serialised(b), k) {
      assert Serialised(t.At(k)) == Serialised(b.At(k));
      SerialisedAt(t, k);
      SerialisedAt(b, k);
    }
    EqualByKey(Serialised(t), Serialised(b));
  }

  predicate SameKey(x: Json, y: Json, k: string)
    requires x.Obj? && y.Obj?
  {
    x.At(k) == y.At(k) && (k in x.fields <==> k in y.fields)
  }

  lemma EqualByKey(x: Json, y: Json)
    requires x.Obj? && y.Obj? && forall k :: SameKey(x, y, k)
    ensures x == y
  {
    forall k ensures (k in x.fields <==> k in y.fields) && (k in x.fields ==> x.fields[k] == y.fields[k]) {
      assert SameKey(x, y, k);
    }
    assert x.fields == y.fields;
  }

  lemma SerialisedAt(t: Json, k: string)
    requires t.Obj?
    ensures Serialised(t).Obj? && Serialised(t).At(k) == Serialised(t.At(k))
    ensures k in Serialised(t).fields <==> Serialised(t.At(k)) != Undefined
  {
    OnlyUndefinedVanishes(t.At(k));
  }

  lemma OnlyUndefinedVanishes(t: Json)
    ensures Serialised(t) == Undefined <==> t == Undefined
  {
  }

  // ---------------------------------------------------------------- the loop of rollback

  datatype Outcome = Outcome(tree: Json, restored: seq<string>, skipped: seq<string>)

  function RollOne(o: Outcome, d: RawDiff): Outcome {
    match SetIn(o.tree, Split(d.path), d.baselineValue)
    case Some(tree) => Outcome(tree, o.restored + [d.path], o.skipped)
    case None => o.(skipped := o.skipped + [d.path])
  }

  function RollAll(o: Outcome, drifted: seq<RawDiff>): Outcome {
    if drifted == [] then o else RollOne(RollAll(o, drifted[..|drifted| - 1]), drifted[|drifted| - 1])
  }

  function Paths(drifted: seq<RawDiff>): (r: seq<string>)
    ensures |r| == |drifted|
  {
    seq(|drifted|, i requires 0 <= i < |drifted| => drifted[i].path)
  }

  method Rollback(live: Json, drifted: seq<RawDiff>, dryRun: bool) returns (o: Outcome)
    ensures o == if dryRun then Outcome(live, Paths(drifted), []) else RollAll(Outcome(live, [], []), drifted)
  {
    if dryRun {
      return Outcome(live, Paths(drifted), []);
    }
    var tree, restored, skipped := live, [], [];
    for i := 0 to |drifted|
      invariant Outcome(tree, restored, skipped) == RollAll(Outcome(live, [], []), drifted[..i])
    {
      assert drifted[..i + 1][..i] == drifted[..i];
      match SetIn(tree, Split(drifted[i].path), drifted[i].baselineValue)
      case Some(changed) =>
        tree, restored := changed, restored + [drifted[i].path];
      case None =>
        skipped := skipped + [drifted[i].path];
    }
    assert drifted[..|drifted|] == drifted;
    return Outcome(tree, restored, skipped);
  }

  // ---------------------------------------------------------------- dotted paths of good keys

  predicate GoodKey(k: string) {
    k != "" && DotFree(k)
  }

  /** Every key of the tree is non-empty and free of dots. */
  predicate GoodKeys(t: Json) {
    t.Obj? ==> forall k :: k in t.fields ==> GoodKey(k) && GoodKeys(t.fields[k])
  }

  lemma {:induction false} ReportedKeysAreGood(b: Json, l: Json, e: Entry)
    requires b.Obj? && l.Obj? && GoodKeys(b) && GoodKeys(l) && Reported(b, l, e)
    ensures forall i :: 0 <= i < |e.path| ==> GoodKey(e.path[i])
    decreases |e.path|
  {
    var k := e.path[0];
    if BothObjects(b, l, k) {
      ReportedKeysAreGood(b.At(k), l.At(k), e.(path := e.path[1..]));
      assert forall i :: 0 < i < |e.path| ==> e.path[i] == e.path[1..][i - 1];
    }
  }

  lemma {:induction false} FullPathIsJoin(prefix: string, keys: seq<string>)
    requires keys != [] && forall i :: 0 <= i < |keys| ==> GoodKey(keys[i])
    ensures FullPath(prefix, keys) == if prefix == "" then Join(keys) else prefix + "." + Join(keys)
    decreases |keys|
  {
    if |keys| == 1 {
      assert FullPath(Extend(prefix, keys[0]), keys[1..]) == Extend(prefix, keys[0]);
    } else {
      FullPathIsJoin(Extend(prefix, keys[0]), keys[1..]);
      assert prefix + "." + keys[0] + "." + Join(keys[1..]) == prefix + "." + (keys[0] + "." + Join(keys[1..]));
    }
  }

  // The entry behind a line of the report.
  function EntryOf(d: RawDiff): Entry {
    Entry(Split(d.path), d.baselineValue, d.liveValue)
  }

  lemma ReportKeepsPaths(b: Json, l: Json, e: Entry)
    requires b.Obj? && l.Obj? && GoodKeys(b) && GoodKeys(l) && Reported(b, l, e)
    ensures EntryOf(Raw("", e)) == e
  {
    ReportedKeysAreGood(b, l, e);
    FullPathIsJoin("", e.path);
    SplitUndoesJoin(e.path);
  }

  function PathSet(drifted: seq<RawDiff>): set<seq<string>> {
    set d | d in drifted :: Split(d.path)
  }

  lemma {:induction false} RollAllBack(b: Json, l: Json, drifted: seq<RawDiff>)
    requires b.Obj? && l.Obj? && forall d :: d in drifted ==> Reported(b, l, EntryOf(d))
    ensures RollAll(Outcome(l, [], []), drifted) == Outcome(Mixed(b, l, PathSet(drifted)), Paths(drifted), [])
  {
    hide Reported;
    hide Split;
    hide Mixed;
    hide SetIn;
    if drifted == [] {
      MixedOfNothing(b, l);
      assert PathSet(drifted) == {};
    } else {
      var front, d := drifted[..|drifted| - 1], drifted[|drifted| - 1];
      RollAllBack(b, l, front);
      assert d in drifted;
      RollOneBack(b, l, PathSet(front), EntryOf(d));
      assert drifted == front + [d];
      assert PathSet(drifted) == PathSet(front) + {Split(d.path)};
      assert Paths(drifted) == Paths(front) + [d.path];
    }
  }

  lemma ReportCovers(b: Json, l: Json, drifted: seq<RawDiff>)
    requires b.Obj? && l.Obj? && GoodKeys(b) && GoodKeys(l) && IsReport(b, l, "", drifted)
    ensures CoversAll(b, l, PathSet(drifted))
    ensures forall d :: d in drifted ==> Reported(b, l, EntryOf(d))
  {
    hide Reported;
    hide Split;
    hide FullPath;
    hide GoodKeys;
    forall e | Reported(b, l, e) ensures e.path in PathSet(drifted) {
      ReportKeepsPaths(b, l, e);
      assert Raw("", e) in drifted && Split(Raw("", e).path) == e.path;
    }
    forall d | d in drifted ensures Reported(b, l, EntryOf(d)) {
      var e :| Reported(b, l, e) && d == Raw("", e);
      ReportKeepsPaths(b, l, e);
    }
  }

  /**
   Rolling back every line of the report, in any order, skips nothing and gives a
   tree that serialises as the baseline, so that every path reads as in the baseline.
   */
  lemma RollbackRestoresBaseline(b: Json, l: Json, drifted: seq<RawDiff>, keys: seq<string>)
    requires b.Obj? && l.Obj? && GoodKeys(b) && GoodKeys(l) && IsReport(b, l, "", drifted)
    ensures var o := RollAll(Outcome(l, [], []), drifted);
            && o.skipped == [] && o.restored == Paths(drifted)
            && Serialised(o.tree) == Serialised(b)
            && Serialised(GetIn(o.tree, keys)) == Serialised(GetIn(b, keys))
  {
    ReportCovers(b, l, drifted);
    RollAllBack(b, l, drifted);
    AllRolledBack(b, l, PathSet(drifted));
    SerialisedReads(Mixed(b, l, PathSet(drifted)), keys);
    SerialisedReads(b, keys);
  }

  // ---------------------------------------------------------------- what a second check reports

  /** The path leads through objects of both trees to a key that only the live tree has. */
  predicate Added(b: Json, l: Json, path: seq<string>)
    requires b.Obj? && l.Obj?
    decreases |path|
  {
    && path != []
    && var k := path[0];
       if BothObjects(b, l, k) then Added(b.At(k), l.At(k), path[1..])
       else |path| == 1 && k !in b.fields && k in l.fields
  }

  lemma {:induction false} AddedIffNoBaseline(b: Json, l: Json, e: Entry)
    requires b.Obj? && l.Obj? && Clean(b) && Reported(b, l, e)
    ensures Added(b, l, e.path) <==> e.baseline == Undefined
    decreases |e.path|
  {
    if BothObjects(b, l, e.path[0]) {
      AddedIffNoBaseline(b.At(e.path[0]), l.At(e.path[0]), e.(path := e.path[1..]));
    }
  }

  lemma {:induction false} AddedIsReported(b: Json, l: Json, path: seq<string>)
    requires b.Obj? && l.Obj? && Added(b, l, path)
    ensures Reported(b, l, Entry(path, Undefined, GetIn(l, path)))
    decreases |path|
  {
    if BothObjects(b, l, path[0]) {
      AddedIsReported(b.At(path[0]), l.At(path[0]), path[1..]);
    } else {
      assert GetIn(l.At(path[0]), path[1..]) == l.At(path[0]);
    }
  }

  /** After a rollback, the next check reports exactly the added keys, with both values undefined. */
  lemma {:induction false} SecondCheck(b: Json, l: Json, paths: set<seq<string>>, e: Entry)
    requires b.Obj? && l.Obj? && Clean(b) && CoversAll(b, l, paths)
    ensures Reported(b, Mixed(b, l, paths), e)
            <==> e.baseline == Undefined && e.live == Undefined && Added(b, l, e.path)
    decreases |e.path|
  {
    if e.path != [] {
      var k, t := e.path[0], Mixed(b, l, paths);
      MixedReads(b, l, paths, k);
      if BothObjects(b, l, k) {
        CoversBelow(b, l, paths, k);
        SecondCheck(b.At(k), l.At(k), Under(paths, k), e.(path := e.path[1..]));
        assert t.At(k) == Mixed(b.At(k), l.At(k), Under(paths, k));
      } else {
        CoveredKey(b, l, paths, k);
        if k in b.fields {
          assert t.At(k) == b.At(k) && k in t.fields;
          if b.At(k).Obj? { NothingReportedAgainstItself(b.At(k), e.(path := e.path[1..])); }
        }
      }
    }
  }

  ghost predicate NothingAdded(b: Json, l: Json)
    requires b.Obj? && l.Obj?
  {
    forall path :: !Added(b, l, path)
  }

  /** A check of this tree reports the added keys, with both values undefined, and nothing else. */
  ghost predicate ReportsAddedKeys(b: Json, l: Json, t: Json)
    requires b.Obj? && l.Obj?
  {
    && t.Obj?
    && forall e {:trigger Reported(b, t, e)} ::
         (Reported(b, t, e) <==> e.baseline == Undefined && e.live == Undefined && Added(b, l, e.path))
  }

  ghost predicate AllHaveBaseline(drifted: seq<RawDiff>) {
    forall d :: d in drifted ==> d.baselineValue != Undefined
  }

  ghost predicate AllReported(b: Json, l: Json, drifted: seq<RawDiff>)
    requires b.Obj? && l.Obj?
  {
    forall d :: d in drifted ==> Reported(b, l, EntryOf(d))
  }

  /**
   The rolled-back tree is the baseline itself exactly when every line of the
   report has a baseline value; otherwise each added key stays behind and is
   reported by every later check.
   */
  lemma RollbackIsExactIff(b: Json, l: Json, drifted: seq<RawDiff>)
    requires b.Obj? && l.Obj? && GoodKeys(b) && GoodKeys(l) && Clean(b) && IsReport(b, l, "", drifted)
    ensures RollAll(Outcome(l, [], []), drifted).tree == b <==> AllHaveBaseline(drifted)
    ensures ReportsAddedKeys(b, l, RollAll(Outcome(l, [], []), drifted).tree)
  {
    ReportCovers(b, l, drifted);
    RollAllBack(b, l, drifted);
    assert AllReported(b, l, drifted);
    MixedIsExactIff(b, l, drifted);
  }

  lemma MixedIsExactIff(b: Json, l: Json, drifted: seq<RawDiff>)
    requires b.Obj? && l.Obj? && Clean(b) && IsReport(b, l, "", drifted) && CoversAll(b, l, PathSet(drifted))
    requires AllReported(b, l, drifted)
    ensures Mixed(b, l, PathSet(drifted)) == b <==> AllHaveBaseline(drifted)
    ensures ReportsAddedKeys(b, l, Mixed(b, l, PathSet(drifted)))
  {
    hide *;
    var t := Mixed(b, l, PathSet(drifted));
    LaterChecks(b, l, PathSet(drifted));
    NothingReportedIffEqual(b, t);
    NothingAddedIff(b, l, drifted);
    SomethingReportedIff(b, l, t);
  }

  lemma LaterChecks(b: Json, l: Json, paths: set<seq<string>>)
    requires b.Obj? && l.Obj? && Clean(b) && CoversAll(b, l, paths)
    ensures ReportsAddedKeys(b, l, Mixed(b, l, paths))
  {
    hide Reported;
    hide Added;
    hide Mixed;
    hide Clean;
    hide CoversAll;
    var t := Mixed(b, l, paths);
    forall e ensures Reported(b, t, e) <==> e.baseline == Undefined && e.live == Undefined && Added(b, l, e.path) {
      SecondCheck(b, l, paths, e);
    }
  }

  lemma SomethingReportedIff(b: Json, l: Json, t: Json)
    requires b.Obj? && l.Obj? && t.Obj? && ReportsAddedKeys(b, l, t)
    ensures NothingReported(b, t) <==> NothingAdded(b, l)
  {
    hide Reported;
    hide Added;
    if NothingReported(b, t) {
      forall path ensures !Added(b, l, path) { assert !Reported(b, t, Entry(path, Undefined, Undefined)); }
    }
  }

  lemma NothingAddedIff(b: Json, l: Json, drifted: seq<RawDiff>)
    requires b.Obj? && l.Obj? && Clean(b) && IsReport(b, l, "", drifted) && AllReported(b, l, drifted)
    ensures NothingAdded(b, l) <==> AllHaveBaseline(drifted)
  {
    hide Reported;
    hide Added;
    hide Split;
    hide Clean;
    if !NothingAdded(b, l) {
      var path :| Added(b, l, path);
      AddedIsReported(b, l, path);
      var d := Raw("", Entry(path, Undefined, GetIn(l, path)));
      assert d in drifted && d.baselineValue == Undefined;
    }
    if NothingAdded(b, l) {
      forall d | d in drifted ensures d.baselineValue != Undefined {
        AddedIffNoBaseline(b, l, EntryOf(d));
      }
    }
  }

  /** A concrete case: one added key, rolled back, is still reported. */
  lemma AddedKeyStaysReported()
    ensures var b, l := Obj(map[]), Obj(map["a" := Null]);
            var drifted := [RawDiff("a", Undefined, Null)];
            && IsReport(b, l, "", drifted)
            && RollAll(Outcome(l, [], []), drifted).tree == Obj(map["a" := Undefined])
            && Reported(b, Obj(map["a" := Undefined]), Entry(["a"], Undefined, Undefined))
  {
    var b, l := Obj(map[]), Obj(map["a" := Null]);
    var drifted := [RawDiff("a", Undefined, Null)];
    var e := Entry(["a"], Undefined, Null);
    assert Reported(b, l, e);
    assert FullPath("", ["a"]) == FullPath("a", ["a"][1..]) == "a";
    assert Raw("", e) == drifted[0];
    forall f | Reported(b, l, f) ensures f == e { assert f.path == ["a"]; }
    SplitOfKey("a");
    assert drifted[..0] == [];
    assert Obj(map["a" := Null]).With("a", Undefined).fields == map["a" := Undefined];
  }
}
