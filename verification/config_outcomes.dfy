/**
 When the operations on configuration trees succeed, and what merging, filling in and
 validating mean at every path of a tree.
 */
module ConfigOutcomes {
  import opened Common
  import opened ConfigTree
  import opened ConfigValidator
  import opened ConfigManager
  import D = ConfigDrift

  // ---------------------------------------------------------------- writing and deleting

  // A parent that setIn walks through, or makes.
  predicate Passable(value: Json) {
    value.Obj? || value == Undefined || value == Null
  }

  ghost predicate Settable(tree: Json, keys: seq<string>) {
    tree.Obj? && forall i :: 0 < i < |keys| ==> Passable(GetIn(tree, keys[..i]))
  }

  lemma {:induction false} ReadsBelowNothing(value: Json, keys: seq<string>)
    requires !value.Obj? && keys != []
    ensures GetIn(value, keys) == Undefined
  {
  }

  lemma SettableBelow(tree: Json, keys: seq<string>)
    requires tree.Obj? && |keys| > 1
    ensures var child := tree.At(keys[0]);
            var parent := if child == Undefined || child == Null then Obj(map[]) else child;
            Settable(tree, keys) <==> Settable(parent, keys[1..])
  {
    var child, rest := tree.At(keys[0]), keys[1..];
    var parent := if child == Undefined || child == Null then Obj(map[]) else child;
    assert keys[..1] == [keys[0]] && GetIn(tree, keys[..1]) == child;
    forall i | 0 < i < |keys| ensures GetIn(tree, keys[..i]) == GetIn(child, rest[..i - 1]) {
      assert keys[..i][0] == keys[0] && keys[..i][1..] == rest[..i - 1];
    }
    forall i | 0 < i < |rest|
      ensures Passable(child) ==> (Passable(GetIn(parent, rest[..i])) <==> Passable(GetIn(tree, keys[..i + 1])))
    {
      assert rest[..i] != [];
      if !child.Obj? {
        ReadsBelowNothing(child, rest[..i]);
        if child == Undefined || child == Null { ReadsNothing(map[], rest[..i]); }
      }
    }
    if Settable(tree, keys) { assert Passable(GetIn(tree, keys[..1])); }
    if Settable(parent, rest) {
      forall i | 0 < i < |keys| ensures Passable(GetIn(tree, keys[..i])) {
        if i > 1 { assert Passable(GetIn(parent, rest[..i - 1])); }
      }
    }
  }

  /** A write fails exactly when a parent along its path is something other than an object, null or missing. */
  lemma {:induction false} SetInIff(tree: Json, keys: seq<string>, value: Json)
    requires keys != []
    ensures SetIn(tree, keys, value).Some? <==> Settable(tree, keys)
    decreases |keys|
  {
    if tree.Obj? && |keys| > 1 {
      var child := tree.At(keys[0]);
      SettableBelow(tree, keys);
      SetInIff(if child == Undefined || child == Null then Obj(map[]) else child, keys[1..], value);
    }
  }

  /** A deletion answers false exactly for an empty last key or without a parent object; it removes the key. */
  lemma {:induction false} DeleteInIff(tree: Json, keys: seq<string>)
    requires keys != []
    ensures DeleteIn(tree, keys).Some? <==> keys[|keys| - 1] != "" && GetIn(tree, keys[..|keys| - 1]).Obj?
    ensures DeleteIn(tree, keys).Some? ==>
              GetIn(DeleteIn(tree, keys).value, keys[..|keys| - 1])
              == Obj(GetIn(tree, keys[..|keys| - 1]).fields - {keys[|keys| - 1]})
    decreases |keys|
  {
    var init := keys[..|keys| - 1];
    if |keys| > 1 {
      assert init[0] == keys[0] && init[1..] == keys[1..][..|keys| - 2];
      if tree.Obj? {
        DeleteInIff(tree.At(keys[0]), keys[1..]);
      } else {
        ReadsBelowNothing(tree, init);
      }
    }
  }

  // ---------------------------------------------------------------- merging

  /** Key by key: what the later object mentions, merged where both have objects, and the rest of the earlier one. */
  lemma MergeKeys(dest: Json, source: Json, k: string)
    requires dest.Obj? && source.Obj?
    ensures k in Merge(dest, source).fields <==> k in dest.fields || k in source.fields
    ensures k in source.fields && !(source.fields[k].Obj? && dest.At(k).Obj?) ==> Merge(dest, source).fields[k] == source.fields[k]
    ensures k in dest.fields && k !in source.fields ==> Merge(dest, source).fields[k] == dest.fields[k]
    ensures k in source.fields && source.fields[k].Obj? && dest.At(k).Obj? ==>
              Merge(dest, source).fields[k] == Merge(dest.fields[k], source.fields[k])
  {
  }

  /**
   The last source wins over all before it: what it sets to something other than an
   object is read, top-level keys it lacks read as before, and a source that is no
   object is skipped.
   */
  lemma LastSourceWins(sources: seq<Json>, last: Json, keys: seq<string>)
    requires keys != []
    ensures !last.Obj? ==> MergeAll(sources + [last]) == MergeAll(sources)
    ensures GetIn(last, keys) != Undefined && !GetIn(last, keys).Obj? ==>
              GetIn(MergeAll(sources + [last]), keys) == GetIn(last, keys)
    ensures last.Obj? && keys[0] !in last.fields ==>
              GetIn(MergeAll(sources + [last]), keys) == GetIn(MergeAll(sources), keys)
  {
    assert (sources + [last])[..|sources|] == sources;
    if last.Obj? {
      LaterSourceWins(MergeAll(sources), last, keys);
      MergeKeys(MergeAll(sources), last, keys[0]);
    }
    hide MergeAll;
    hide Merge;
  }

  lemma ObjectOnTheWay(tree: Json, keys: seq<string>)
    requires keys != [] && GetIn(tree, keys).Obj?
    ensures tree.Obj? && tree.At(keys[0]).Obj?
  {
  }

  /** Merging is the same at every depth: where both trees have an object, the result has their merge. */
  lemma {:induction false} MergeAtDepth(dest: Json, source: Json, keys: seq<string>)
    requires dest.Obj? && source.Obj? && GetIn(dest, keys).Obj? && GetIn(source, keys).Obj?
    ensures GetIn(Merge(dest, source), keys) == Merge(GetIn(dest, keys), GetIn(source, keys))
    decreases |keys|
  {
    if keys != [] {
      var k := keys[0];
      ObjectOnTheWay(dest, keys);
      ObjectOnTheWay(source, keys);
      MergeKeys(dest, source, k);
      MergeAtDepth(dest.At(k), source.At(k), keys[1..]);
    }
  }

  lemma {:induction false} GetInJoined(tree: Json, front: seq<string>, rest: seq<string>)
    ensures GetIn(tree, front + rest) == GetIn(GetIn(tree, front), rest)
    decreases |front|
  {
    if front == [] {
      assert front + rest == rest;
    } else {
      assert (front + rest)[1..] == front[1..] + rest;
      if tree.Obj? {
        GetInJoined(tree.At(front[0]), front[1..], rest);
      } else {
        assert GetIn(tree, front) == Undefined && GetIn(tree, front + rest) == Undefined;
      }
    }
  }

  /** At any depth, what the later source does not mention is kept. */
  lemma MergeKeepsUnmentioned(dest: Json, source: Json, front: seq<string>, k: string, rest: seq<string>)
    requires dest.Obj? && source.Obj? && GetIn(dest, front).Obj? && GetIn(source, front).Obj?
    requires k !in GetIn(source, front).fields
    ensures GetIn(Merge(dest, source), front + ([k] + rest)) == GetIn(dest, front + ([k] + rest))
  {
    MergeAtDepth(dest, source, front);
    GetInJoined(Merge(dest, source), front, [k] + rest);
    GetInJoined(dest, front, [k] + rest);
    MergeKeys(GetIn(dest, front), GetIn(source, front), k);
    assert ([k] + rest)[1..] == rest;
  }

  // ---------------------------------------------------------------- filling in defaults

  // The schema of a path of declared properties with object values on the way.
  ghost function DeclaredAt(s: Schema, data: Json, keys: seq<string>): Option<Schema>
    decreases |keys|
  {
    if keys == [] then Some(s)
    else if !data.Obj? || !s.Names(keys[0]) then None
    else
      var i :| 0 <= i < |s.Props()| && s.Props()[i].name == keys[0];
      var p := s.Props()[i].schema;
      if |keys| == 1 then Some(p) else if p.kind.ObjectKind? then DeclaredAt(p, data.At(keys[0]), keys[1..]) else None
  }

  /**
   At any depth: a declared property that is missing in a supplied object reads as its
   default afterwards, unless the default is an object, which is filled in itself.
   */
  lemma {:induction false} FillSuppliesDefaults(s: Schema, data: Json, keys: seq<string>)
    requires WellFormed(s) && data.Obj? && keys != [] && DeclaredAt(s, data, keys).Some?
    requires GetIn(data, keys) == Undefined && GetIn(data, keys[..|keys| - 1]).Obj?
    ensures var p := DeclaredAt(s, data, keys).value;
            && (!p.defaultValue.Obj? ==> GetIn(Fill(s, data), keys) == p.defaultValue)
            && (p.defaultValue.Obj? && !p.kind.ObjectKind? ==> GetIn(Fill(s, data), keys) == p.defaultValue)
            && (p.defaultValue.Obj? && p.kind.ObjectKind? ==> GetIn(Fill(s, data), keys) == Fill(p, p.defaultValue))
    decreases |keys|
  {
    var key, rest := keys[0], keys[1..];
    var i :| 0 <= i < |s.Props()| && s.Props()[i].name == key && (|keys| == 1 ==> DeclaredAt(s, data, keys) == Some(s.Props()[i].schema))
             && (|keys| > 1 ==> s.Props()[i].schema.kind.ObjectKind? && DeclaredAt(s, data, keys) == DeclaredAt(s.Props()[i].schema, data.At(key), rest));
    var p := s.Props()[i].schema;
    assert WellFormed(p);
    FillReads(s, data, key);
    if |keys| == 1 {
      assert data.At(key) == Undefined;
    } else {
      assert keys[..|keys| - 1][0] == key && keys[..|keys| - 1][1..] == rest[..|rest| - 1];
      ObjectOnTheWay(data, keys[..|keys| - 1]);
      FillSuppliesDefaults(p, data.At(key), rest);
    }
  }

  // ---------------------------------------------------------------- what is valid

  predicate IsInteger(value: Json, n: int) {
    value == Num(n as real)
  }

  // The conditions one schema puts on the value at its own place.
  ghost predicate MeetsOwn(s: Schema, value: Json) {
    && (s.kind.ObjectKind? ==> value.Obj?)
    && (s.kind.ArrayKind? ==> value.Arr? && s.itemErrors(value.serialised) == [])
    && (s.kind.StringKind? ==> value.Str? && s.textOk(value.text))
    && (s.kind.IntegerKind? ==> exists n :: IsInteger(value, n))
    && (s.kind.NumberKind? ==> value.Num?)
    && (s.kind.BooleanKind? ==> value.Bool?)
    && (value.Num? && (s.kind.IntegerKind? || s.kind.NumberKind?) && s.minimum.Some? ==> !(value.number < s.minimum.value))
    && (value.Num? && (s.kind.IntegerKind? || s.kind.NumberKind?) && s.maximum.Some? ==> !(value.number > s.maximum.value))
    && (s.allowed.Some? ==> !value.Obj? && !value.Arr? && exists i :: 0 <= i < |s.allowed.value| && s.allowed.value[i] == value)
    && (s.kind.ObjectKind? && s.hasProperties && value.Obj? ==>
          forall i :: 0 <= i < |s.required| ==> s.required[i] in value.fields && value.fields[s.required[i]] != Undefined)
  }

  // The schema that checks the value under a key of an object, if any does.
  ghost function SchemaUnder(s: Schema, value: Json, key: string): Option<Schema>
    requires value.Obj?
  {
    if !(s.kind.ObjectKind? && s.hasProperties) || key !in value.fields then None
    else if s.Names(key) then
      if value.fields[key] == Undefined then None
      else
        var i :| 0 <= i < |s.Props()| && s.Props()[i].name == key;
        Some(s.Props()[i].schema)
    else if s.extra.ExtraSchema? then Some(s.extra.schema)
    else None
  }

  // The conditions hold at the place a path leads to, if a schema checks it.
  ghost predicate MeetsAt(s: Schema, value: Json, keys: seq<string>)
    decreases |keys|
  {
    if keys == [] then MeetsOwn(s, value)
    else value.Obj? && SchemaUnder(s, value, keys[0]).Some? ==>
           MeetsAt(SchemaUnder(s, value, keys[0]).value, value.fields[keys[0]], keys[1..])
  }

  ghost predicate MeetsEverywhere(s: Schema, value: Json) {
    forall keys :: MeetsAt(s, value, keys)
  }

  lemma OwnConditions(s: Schema, value: Json)
    ensures MeetsOwn(s, value)
       <==> TypeOk(s, value) && Allowed(s, value)
            && (s.kind.ObjectKind? && s.hasProperties && value.Obj? ==>
                  forall i :: 0 <= i < |s.required| ==> value.At(s.required[i]) != Undefined)
  {
    if value.Num? {
      assert IsInteger(value, value.number.Floor) <==> value.number.Floor as real == value.number;
    }
  }

  ghost predicate ChildrenConform(s: Schema, value: Json)
    requires value.Obj?
  {
    forall key {:trigger SchemaUnder(s, value, key)} :: SchemaUnder(s, value, key).Some? ==>
      Conforms(SchemaUnder(s, value, key).value, value.fields[key])
  }

  lemma ConformsStep(s: Schema, value: Json)
    requires WellFormed(s)
    ensures Conforms(s, value) <==> MeetsOwn(s, value) && (value.Obj? ==> ChildrenConform(s, value))
  {
    OwnConditions(s, value);
    if s.kind.ObjectKind? && s.hasProperties && value.Obj? {
      ChildrenStep(s, value);
    } else if value.Obj? {
      assert ChildrenConform(s, value);
    }
  }

  lemma ChildrenStep(s: Schema, value: Json)
    requires WellFormed(s) && s.kind.ObjectKind? && s.hasProperties && value.Obj?
    ensures ChildrenConform(s, value)
       <==> && (forall i :: 0 <= i < |s.Props()| ==> PropertyOk(s.Props()[i], value))
            && (s.extra.ExtraSchema? ==>
                  forall key :: key in value.fields && !s.Names(key) ==> Conforms(s.extra.schema, value.fields[key]))
  {
    hide Conforms;
    if ChildrenConform(s, value) {
      forall i | 0 <= i < |s.Props()| ensures PropertyOk(s.Props()[i], value) {
        var key := s.Props()[i].name;
        if value.At(key) != Undefined { assert SchemaUnder(s, value, key) == Some(s.Props()[i].schema); }
      }
      if s.extra.ExtraSchema? {
        forall key | key in value.fields && !s.Names(key) ensures Conforms(s.extra.schema, value.fields[key]) {
          assert SchemaUnder(s, value, key) == Some(s.extra.schema);
        }
      }
    } else {
      var key :| SchemaUnder(s, value, key).Some? && !Conforms(SchemaUnder(s, value, key).value, value.fields[key]);
      if s.Names(key) {
        var i :| 0 <= i < |s.Props()| && s.Props()[i].name == key && SchemaUnder(s, value, key) == Some(s.Props()[i].schema);
        assert !PropertyOk(s.Props()[i], value);
      }
    }
  }

  lemma SchemaUnderIsWellFormed(s: Schema, value: Json, key: string)
    requires WellFormed(s) && value.Obj? && SchemaUnder(s, value, key).Some?
    ensures WellFormed(SchemaUnder(s, value, key).value) && key in value.fields
    ensures SchemaUnder(s, value, key).value < s
  {
    if s.Names(key) {
      var i :| 0 <= i < |s.Props()| && s.Props()[i].name == key && SchemaUnder(s, value, key) == Some(s.Props()[i].schema);
      assert s.Props()[i] in s.properties;
    }
  }

  lemma {:induction false} ConformingMeets(s: Schema, value: Json, keys: seq<string>)
    requires WellFormed(s) && Conforms(s, value)
    ensures MeetsAt(s, value, keys)
    decreases |keys|
  {
    ConformsStep(s, value);
    if keys != [] && value.Obj? && SchemaUnder(s, value, keys[0]).Some? {
      SchemaUnderIsWellFormed(s, value, keys[0]);
      ConformingMeets(SchemaUnder(s, value, keys[0]).value, value.fields[keys[0]], keys[1..]);
    }
  }

  // Where a value that does not conform breaks a condition.
  lemma {:induction false} FaultAt(s: Schema, value: Json) returns (keys: seq<string>)
    requires WellFormed(s) && !Conforms(s, value)
    ensures !MeetsAt(s, value, keys)
    decreases s
  {
    ConformsStep(s, value);
    if !MeetsOwn(s, value) {
      keys := [];
    } else {
      var key :| SchemaUnder(s, value, key).Some? && !Conforms(SchemaUnder(s, value, key).value, value.fields[key]);
      SchemaUnderIsWellFormed(s, value, key);
      var below := FaultAt(SchemaUnder(s, value, key).value, value.fields[key]);
      keys := [key] + below;
      assert keys[1..] == below;
    }
  }

  /** A value conforms exactly when every place in it that a schema checks meets that schema's own conditions. */
  lemma ConformsIffEveryPlaceMeets(s: Schema, value: Json)
    requires WellFormed(s)
    ensures Conforms(s, value) <==> MeetsEverywhere(s, value)
  {
    if Conforms(s, value) {
      forall keys ensures MeetsAt(s, value, keys) { ConformingMeets(s, value, keys); }
    } else {
      var keys := FaultAt(s, value);
    }
  }

  // ---------------------------------------------------------------- changes of the held configuration

  // The tree, with its defaults, has nothing wrong anywhere.
  ghost predicate IsAcceptable(s: Schema, tree: Json) {
    tree.Obj? && MeetsEverywhere(s, Fill(s, tree))
  }

  lemma AcceptIff(s: Schema, tree: Json)
    requires WellFormed(s)
    ensures Accept(s, tree).Some? <==> IsAcceptable(s, tree)
    ensures Accept(s, tree).Some? ==> Accept(s, tree).value == Fill(s, tree)
  {
    hide MeetsEverywhere;
    hide Conforms;
    if tree.Obj? { ConformsIffEveryPlaceMeets(s, Fill(s, tree)); }
  }

  /** A reload replaces the configuration exactly when the merged sources are acceptable, by them with their defaults. */
  lemma ReloadIff(s: Schema, config: Json, sources: seq<Json>)
    requires WellFormed(s)
    ensures var (after, outcome) := Reloaded(s, config, sources);
            && (outcome.Replaced? <==> IsAcceptable(s, MergeAll(sources)))
            && (outcome.Replaced? ==> after == Fill(s, MergeAll(sources)))
            && (!outcome.Replaced? ==> outcome.Thrown? && after == config)
  {
    AcceptIff(s, MergeAll(sources));
  }

  /** An update does so exactly when its path can be set and the tree with the new value is acceptable. */
  lemma UpdateIff(s: Schema, config: Json, path: string, value: Json)
    requires WellFormed(s)
    ensures var (after, outcome), changed := Updated(s, config, path, value), SetIn(config, Split(path), value);
            && (outcome.Replaced? <==> Settable(config, Split(path)) && changed.Some? && IsAcceptable(s, changed.value))
            && (Settable(config, Split(path)) ==> changed.Some?)
            && (outcome.Replaced? ==> after == Fill(s, changed.value))
            && (!outcome.Replaced? ==> outcome.Thrown? && after == config)
  {
    SetInIff(config, Split(path), value);
    hide Fill;
    hide Split;
    hide IsAcceptable;
    hide Accept;
    hide SetIn;
    if SetIn(config, Split(path), value).Some? { AcceptIff(s, SetIn(config, Split(path), value).value); }
  }

  /** A deletion answers false without a parent object, and otherwise replaces exactly when the rest is acceptable. */
  lemma DeleteIff(s: Schema, config: Json, path: string)
    requires WellFormed(s)
    ensures var (after, outcome), changed := Deleted(s, config, path), DeleteIn(config, Split(path));
            && (outcome.NothingDeleted? <==> Split(path)[|Split(path)| - 1] == "" || !GetIn(config, Split(path)[..|Split(path)| - 1]).Obj?)
            && (!outcome.NothingDeleted? ==> changed.Some?)
            && (outcome.Replaced? <==> changed.Some? && IsAcceptable(s, changed.value))
            && (outcome.Replaced? ==> after == Fill(s, changed.value))
            && (!outcome.Replaced? ==> after == config)
  {
    DeleteInIff(config, Split(path));
    hide Fill;
    hide Split;
    hide IsAcceptable;
    hide Accept;
    hide GetIn;
    hide DeleteIn;
    if DeleteIn(config, Split(path)).Some? { AcceptIff(s, DeleteIn(config, Split(path)).value); }
  }

  // ---------------------------------------------------------------- rolling lines back

  /**
   Rolling one more line back restores it exactly when its path can be set in the tree
   the lines before have left, and then the path reads as the baseline value; otherwise
   the line is skipped and the tree stays.
   */
  lemma OneMoreLine(o: D.Outcome, lines: seq<D.RawDiff>, line: D.RawDiff)
    ensures var before, after := D.RollAll(o, lines), D.RollAll(o, lines + [line]);
            && (if Settable(before.tree, Split(line.path))
                then after.restored == before.restored + [line.path] && after.skipped == before.skipped
                     && GetIn(after.tree, Split(line.path)) == line.baselineValue
                else after.restored == before.restored && after.skipped == before.skipped + [line.path]
                     && after.tree == before.tree)
  {
    assert (lines + [line])[..|lines|] == lines;
    var before := D.RollAll(o, lines);
    SetInIff(before.tree, Split(line.path), line.baselineValue);
    if Settable(before.tree, Split(line.path)) {
      SetInReads(before.tree, Split(line.path), line.baselineValue, []);
    }
    hide Settable;
    hide SetIn;
    hide GetIn;
    hide Split;
  }

  /** Every line, whatever its path, is listed exactly once: as restored or as skipped. */
  lemma {:induction false} EveryLineIsListed(tree: Json, lines: seq<D.RawDiff>)
    ensures var o := D.RollAll(D.Outcome(tree, [], []), lines);
            multiset(o.restored) + multiset(o.skipped) == multiset(D.Paths(lines))
  {
    if lines != [] {
      var front, last := lines[..|lines| - 1], lines[|lines| - 1];
      EveryLineIsListed(tree, front);
      assert D.Paths(lines) == D.Paths(front) + [last.path];
    }
  }
}
