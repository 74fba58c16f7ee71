/**
 Model of the path operations in src/config/utils.ts on configuration trees.

 A tree is a value here: operations that change an object in place return the
 changed tree, and None where the original throws. Arrays are opaque leaves,
 identified with their serialised form.
 */
module ConfigTree {
  import opened Common

  datatype Json =
    | Undefined
    | Null
    | Bool(on: bool)
    | Num(number: real)
    | Str(text: string)
    | Arr(serialised: string)
    | Obj(fields: map<string, Json>)
  {
    // Reading a property: undefined when the object lacks it.
    function At(key: string): Json
      requires Obj?
    {
      if key in fields then fields[key] else Undefined
    }

    function With(key: string, value: Json): (r: Json)
      requires Obj?
      ensures r.Obj? && r.At(key) == value
    {
      Obj(fields[key := value])
    }
  }

  // ---------------------------------------------------------------- dotted paths

  predicate DotFree(key: string) {
    '.' !in key
  }

  // path.split('.')
  function Split(path: string): (keys: seq<string>)
    ensures keys != [] && forall i :: 0 <= i < |keys| ==> DotFree(keys[i])
  {
    if path == "" then [""]
    else
      var rest := Split(path[1..]);
      if path[0] == '.' then [""] + rest else [[path[0]] + rest[0]] + rest[1..]
  }

  function Join(keys: seq<string>): string
    requires keys != []
  {
    if |keys| == 1 then keys[0] else keys[0] + "." + Join(keys[1..])
  }

  lemma {:induction false} SplitAfterKey(key: string, rest: string)
    requires DotFree(key)
    ensures Split(key + "." + rest) == [key] + Split(rest)
  {
    var path := key + "." + rest;
    if key == "" {
      assert path[1..] == rest;
    } else {
      SplitAfterKey(key[1..], rest);
      assert path[1..] == key[1..] + "." + rest;
      assert [path[0]] + key[1..] == key;
    }
  }

  lemma {:induction false} SplitOfKey(key: string)
    requires DotFree(key)
    ensures Split(key) == [key]
  {
    if key != "" {
      SplitOfKey(key[1..]);
      assert [key[0]] + key[1..] == key;
    }
  }

  /** Splitting undoes joining for dot-free keys. */
  lemma {:induction false} SplitUndoesJoin(keys: seq<string>)
    requires keys != [] && forall i :: 0 <= i < |keys| ==> DotFree(keys[i])
    ensures Split(Join(keys)) == keys
  {
    if |keys| == 1 {
      SplitOfKey(keys[0]);
    } else {
      SplitUndoesJoin(keys[1..]);
      SplitAfterKey(keys[0], Join(keys[1..]));
    }
  }

  // ---------------------------------------------------------------- reading

  function GetIn(tree: Json, keys: seq<string>): Json
    decreases |keys|
  {
    if keys == [] then tree
    else if !tree.Obj? then Undefined
    else GetIn(tree.At(keys[0]), keys[1..])
  }

  method GetInLoop(tree: Json, keys: seq<string>, defaultValue: Json) returns (value: Json)
    ensures value == if GetIn(tree, keys) == Undefined then defaultValue else GetIn(tree, keys)
  {
    var current := tree;
    for i := 0 to |keys|
      invariant GetIn(current, keys[i..]) == GetIn(tree, keys)
    {
      if !current.Obj? {
        return defaultValue;
      }
      current := current.At(keys[i]);
    }
    return if current != Undefined then current else defaultValue;
  }

  // ---------------------------------------------------------------- writing

  // Missing and null parents are created; a parent that is neither is an error.
  function SetIn(tree: Json, keys: seq<string>, value: Json): (r: Option<Json>)
    requires keys != []
    ensures r.Some? ==> r.value.Obj?
    decreases |keys|
  {
    if !tree.Obj? then None
    else if |keys| == 1 then Some(tree.With(keys[0], value))
    else
      var child := tree.At(keys[0]);
      var parent := if child == Undefined || child == Null then Obj(map[]) else child;
      match SetIn(parent, keys[1..], value)
      case None => None
      case Some(changed) => Some(tree.With(keys[0], changed))
  }

  /** A write is read back at its path, and disturbs no path that diverges from it. */
  lemma {:induction false} SetInReads(tree: Json, keys: seq<string>, value: Json, other: seq<string>)
    requires keys != [] && SetIn(tree, keys, value).Some?
    ensures GetIn(SetIn(tree, keys, value).value, keys) == value
    ensures !(keys <= other) && !(other <= keys) ==>
              GetIn(SetIn(tree, keys, value).value, other) == GetIn(tree, other)
    decreases |keys|
  {
    var changed := SetIn(tree, keys, value).value;
    assert keys == [keys[0]] + keys[1..];
    if |keys| > 1 {
      var child := tree.At(keys[0]);
      var parent := if child == Undefined || child == Null then Obj(map[]) else child;
      var rest := if other == [] then [] else other[1..];
      SetInReads(parent, keys[1..], value, rest);
      if other != [] && other[0] == keys[0] && !(keys <= other) && !(other <= keys) {
        assert other == [other[0]] + rest;
        assert !(keys[1..] <= rest) && !(rest <= keys[1..]);
        assert GetIn(parent, rest) == GetIn(child, rest) by {
          assert rest != [];
          if child == Undefined || child == Null {
            ReadsNothing(map[], rest);
          }
        }
      }
    }
  }

  lemma ReadsNothing(fields: map<string, Json>, keys: seq<string>)
    requires keys != [] && keys[0] !in fields
    ensures GetIn(Obj(fields), keys) == Undefined
  {
    if |keys| > 1 {
      assert GetIn(Undefined, keys[1..]) == Undefined;
    }
  }

  // False in the original (None here) when the last key is empty or the parent is no object.
  function DeleteIn(tree: Json, keys: seq<string>): (r: Option<Json>)
    requires keys != []
    decreases |keys|
  {
    if keys[|keys| - 1] == "" || !tree.Obj? then None
    else if |keys| == 1 then Some(Obj(tree.fields - {keys[0]}))
    else
      match DeleteIn(tree.At(keys[0]), keys[1..])
      case None => None
      case Some(changed) => Some(tree.With(keys[0], changed))
  }

  /** A deleted path reads as undefined, and paths that diverge from it are not disturbed. */
  lemma {:induction false} DeleteInReads(tree: Json, keys: seq<string>, other: seq<string>)
    requires keys != [] && DeleteIn(tree, keys).Some?
    ensures GetIn(DeleteIn(tree, keys).value, keys) == Undefined
    ensures !(keys <= other) && !(other <= keys) ==>
              GetIn(DeleteIn(tree, keys).value, other) == GetIn(tree, other)
    decreases |keys|
  {
    assert keys == [keys[0]] + keys[1..];
    if |keys| > 1 {
      var rest := if other == [] then [] else other[1..];
      DeleteInReads(tree.At(keys[0]), keys[1..], rest);
      if other != [] && other[0] == keys[0] && !(keys <= other) && !(other <= keys) {
        assert other == [other[0]] + rest;
        assert !(keys[1..] <= rest) && !(rest <= keys[1..]);
      }
    }
  }

  // ---------------------------------------------------------------- merging

  // One source merged over what came before: objects merge key by key, anything else replaces.
  function Merge(dest: Json, source: Json): (r: Json)
    requires dest.Obj? && source.Obj?
    ensures r.Obj?
    decreases source, 1
  {
    Obj(map k | k in dest.fields.Keys + source.fields.Keys ::
      if k in source.fields then MergedAt(dest, source, k) else dest.fields[k])
  }

  function MergedAt(dest: Json, source: Json, k: string): Json
    requires dest.Obj? && source.Obj? && k in source.fields
    decreases source, 0
  {
    if dest.At(k).Obj? && source.fields[k].Obj? then Merge(dest.At(k), source.fields[k]) else source.fields[k]
  }

  // deepMerge(...sources): sources that are not objects are skipped.
  function MergeAll(sources: seq<Json>): (r: Json)
    ensures r.Obj?
  {
    if sources == [] then Obj(map[])
    else
      var before, last := MergeAll(sources[..|sources| - 1]), sources[|sources| - 1];
      if last.Obj? then Merge(before, last) else before
  }

  method DeepMerge(sources: seq<Json>) returns (result: Json)
    ensures result == MergeAll(sources)
  {
    result := Obj(map[]);
    for i := 0 to |sources|
      invariant result == MergeAll(sources[..i])
    {
      assert sources[..i + 1][..i] == sources[..i];
      if sources[i].Obj? {
        result := MergeSource(result, sources[i]);
      }
    }
    assert sources[..|sources|] == sources;
  }

  // The inner loop over the keys of one source, in any order.
  method MergeSource(dest: Json, source: Json) returns (result: Json)
    requires dest.Obj? && source.Obj?
    ensures result == Merge(dest, source)
    decreases source, 1
  {
    hide Merge;
    hide MergedAt;
    hide MergedSoFar;
    var fields, keys := dest.fields, source.fields.Keys;
    NothingMerged(dest, source);
    while keys != {}
      invariant keys <= source.fields.Keys
      invariant MergedSoFar(dest, source, fields, source.fields.Keys - keys)
      decreases |keys|
    {
      var key :| key in keys;
      var value := MergeValue(dest, source, key);
      OneMoreMerged(dest, source, fields, keys, key);
      fields := fields[key := value];
      keys := keys - {key};
    }
    assert source.fields.Keys - {} == source.fields.Keys;
    MergedByKey(dest, source, fields);
    return Obj(fields);
  }

  method MergeValue(dest: Json, source: Json, key: string) returns (value: Json)
    requires dest.Obj? && source.Obj? && key in source.fields
    ensures value == MergedAt(dest, source, key)
    decreases source, 0
  {
    if dest.At(key).Obj? && source.fields[key].Obj? {
      value := MergeSource(dest.At(key), source.fields[key]);
    } else {
      value := source.fields[key];
    }
  }

  ghost predicate MergedSoFar(dest: Json, source: Json, fields: map<string, Json>, done: set<string>)
    requires dest.Obj? && source.Obj? && done <= source.fields.Keys
  {
    && fields.Keys == dest.fields.Keys + done
    && forall k {:trigger fields[k]} :: k in fields ==>
         fields[k] == if k in done then MergedAt(dest, source, k) else dest.fields[k]
  }

  lemma NothingMerged(dest: Json, source: Json)
    requires dest.Obj? && source.Obj?
    ensures MergedSoFar(dest, source, dest.fields, source.fields.Keys - source.fields.Keys)
  {
  }

  lemma OneMoreMerged(dest: Json, source: Json, fields: map<string, Json>, keys: set<string>, key: string)
    requires dest.Obj? && source.Obj? && key in keys && keys <= source.fields.Keys
    requires MergedSoFar(dest, source, fields, source.fields.Keys - keys)
    ensures MergedSoFar(dest, source, fields[key := MergedAt(dest, source, key)], source.fields.Keys - (keys - {key}))
  {
    hide MergedAt;
  }

  lemma MergedByKey(dest: Json, source: Json, fields: map<string, Json>)
    requires dest.Obj? && source.Obj? && MergedSoFar(dest, source, fields, source.fields.Keys)
    ensures Obj(fields) == Merge(dest, source)
  {
    assert fields == Merge(dest, source).fields;
  }

  lemma MergeIntoNothing(source: Json)
    requires source.Obj?
    ensures Merge(Obj(map[]), source) == source && MergeAll([source]) == source
  {
    assert Merge(Obj(map[]), source).fields == source.fields;
    assert [source][..0] == [];
  }

  /** What a source sets to something other than an object wins; what it does not mention is kept. */
  lemma {:induction false} LaterSourceWins(dest: Json, source: Json, keys: seq<string>)
    requires dest.Obj? && source.Obj?
    ensures GetIn(source, keys) != Undefined && !GetIn(source, keys).Obj? ==>
              GetIn(Merge(dest, source), keys) == GetIn(source, keys)
    ensures keys != [] && keys[0] !in source.fields ==> GetIn(Merge(dest, source), keys) == GetIn(dest, keys)
    decreases |keys|
  {
    if keys != [] {
      var k, rest := keys[0], keys[1..];
      if k in source.fields && source.fields[k].Obj? && k in dest.fields && dest.fields[k].Obj? {
        LaterSourceWins(dest.fields[k], source.fields[k], rest);
      }
      assert Merge(dest, source).At(k) == if k in source.fields then MergedAt(dest, source, k) else dest.At(k);
    }
  }
}
