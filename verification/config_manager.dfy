/**
 Model of reload, update and delete in src/config/manager.ts: the held
 configuration is replaced only by a tree that the validator accepts.
 */
module ConfigManager {
  import opened Common
  import opened ConfigTree
  import opened ConfigValidator

  // What a call gives its caller: it throws, or delete's answer, or a new configuration.
  datatype Outcome = Thrown | NothingDeleted | Replaced

  function Reloaded(s: Schema, config: Json, sources: seq<Json>): (Json, Outcome) {
    match Accept(s, MergeAll(sources))
    case Some(accepted) => (accepted, Replaced)
    case None => (config, Thrown)
  }

  function Updated(s: Schema, config: Json, path: string, value: Json): (Json, Outcome) {
    match SetIn(config, Split(path), value)
    case None => (config, Thrown)
    case Some(changed) =>
      match Accept(s, changed)
      case Some(accepted) => (accepted, Replaced)
      case None => (config, Thrown)
  }

  function Deleted(s: Schema, config: Json, path: string): (Json, Outcome) {
    match DeleteIn(config, Split(path))
    case None => (config, NothingDeleted)
    case Some(changed) =>
      match Accept(s, changed)
      case Some(accepted) => (accepted, Replaced)
      case None => (config, Thrown)
  }

  /** Null before the first load; afterwards a tree that validates to itself without errors. */
  predicate Held(s: Schema, config: Json) {
    config == Null || Accept(s, config) == Some(config)
  }

  function Dropped(ids: seq<string>, id: string): (r: seq<string>)
    ensures id !in r && forall other :: other != id ==> (other in r <==> other in ids)
  {
    if ids == [] then [] else (if ids[0] == id then [] else [ids[0]]) + Dropped(ids[1..], id)
  }

  class ConfigManager {
    const schema: Schema
    var config: Json
    // The ids of the callbacks in the order of their map, and the ids notified so far.
    var changeCallbacks: seq<string>
    var notified: seq<string>

    ghost predicate Valid()
      reads this
    {
      WellFormed(schema) && Held(schema, config)
    }

    constructor (s: Schema)
      requires WellFormed(s)
      ensures Valid() && schema == s && config == Null && changeCallbacks == [] && notified == []
    {
      schema := s;
      config := Null;
      changeCallbacks := [];
      notified := [];
    }

    // Setting a known id keeps its place among the callbacks.
    method OnChange(id: string)
      modifies this`changeCallbacks
      ensures changeCallbacks == if id in old(changeCallbacks) then old(changeCallbacks) else old(changeCallbacks) + [id]
    {
      if id !in changeCallbacks {
        changeCallbacks := changeCallbacks + [id];
      }
    }

    method OffChange(id: string)
      modifies this`changeCallbacks
      ensures changeCallbacks == Dropped(old(changeCallbacks), id)
    {
      changeCallbacks := Dropped(changeCallbacks, id);
    }

    // Every callback runs, whether or not another one throws.
    method Replace(newConfig: Json)
      modifies this`config, this`notified
      ensures config == newConfig && notified == old(notified) + changeCallbacks
    {
      config := newConfig;
      for i := 0 to |changeCallbacks|
        invariant config == newConfig && notified == old(notified) + changeCallbacks[..i]
      {
        notified := notified + [changeCallbacks[i]];
      }
      assert changeCallbacks[..|changeCallbacks|] == changeCallbacks;
    }

    method Reload(sources: seq<Json>) returns (outcome: Outcome)
      requires Valid()
      modifies this`config, this`notified
      ensures Valid()
      ensures (config, outcome) == Reloaded(schema, old(config), sources)
      ensures notified == if outcome.Replaced? then old(notified) + changeCallbacks else old(notified)
    {
      var merged := DeepMerge(sources);
      var result := Validate(schema, merged);
      if !result.valid {
        return Thrown;
      }
      AcceptedIsStable(schema, merged);
      Replace(result.data);
      return Replaced;
    }

    method Update(path: string, value: Json) returns (outcome: Outcome)
      requires Valid()
      modifies this`config, this`notified
      ensures Valid()
      ensures (config, outcome) == Updated(schema, old(config), path, value)
      ensures notified == if outcome.Replaced? then old(notified) + changeCallbacks else old(notified)
    {
      var newConfig := SetIn(config, Split(path), value);
      if newConfig.None? {
        return Thrown;
      }
      var result := Validate(schema, newConfig.value);
      if !result.valid {
        return Thrown;
      }
      AcceptedIsStable(schema, newConfig.value);
      Replace(result.data);
      return Replaced;
    }

    method Delete(path: string) returns (outcome: Outcome)
      requires Valid()
      modifies this`config, this`notified
      ensures Valid()
      ensures (config, outcome) == Deleted(schema, old(config), path)
      ensures notified == if outcome.Replaced? then old(notified) + changeCallbacks else old(notified)
    {
      var newConfig := DeleteIn(config, Split(path));
      if newConfig.None? {
        return NothingDeleted;
      }
      var result := Validate(schema, newConfig.value);
      if !result.valid {
        return Thrown;
      }
      AcceptedIsStable(schema, newConfig.value);
      Replace(result.data);
      return Replaced;
    }
  }

  // ---------------------------------------------------------------- any sequence of changes

  datatype Change =
    | Reload(sources: seq<Json>)
    | Update(path: string, value: Json)
    | Delete(path: string)

  function Apply(s: Schema, config: Json, change: Change): (Json, Outcome) {
    match change
    case Reload(sources) => Reloaded(s, config, sources)
    case Update(path, value) => Updated(s, config, path, value)
    case Delete(path) => Deleted(s, config, path)
  }

  function Run(s: Schema, config: Json, changes: seq<Change>): Json
    decreases |changes|
  {
    if changes == [] then config else Run(s, Apply(s, config, changes[0]).0, changes[1..])
  }

  /** A change that is rejected leaves the configuration as it was, and one that is not leaves an accepted tree. */
  lemma ApplyHolds(s: Schema, config: Json, change: Change)
    requires WellFormed(s) && Held(s, config)
    ensures var (after, outcome) := Apply(s, config, change);
            Held(s, after) && (!outcome.Replaced? ==> after == config) && (outcome.Replaced? ==> after != Null)
  {
    match change
    case Reload(sources) =>
      if Accept(s, MergeAll(sources)).Some? { AcceptedIsStable(s, MergeAll(sources)); }
    case Update(path, value) =>
      var changed := SetIn(config, Split(path), value);
      if changed.Some? && Accept(s, changed.value).Some? { AcceptedIsStable(s, changed.value); }
    case Delete(path) =>
      var changed := DeleteIn(config, Split(path));
      if changed.Some? && Accept(s, changed.value).Some? { AcceptedIsStable(s, changed.value); }
  }

  /** After any sequence of changes, the held configuration validates to itself. */
  lemma {:induction false} RunHolds(s: Schema, config: Json, changes: seq<Change>)
    requires WellFormed(s) && Held(s, config)
    ensures Held(s, Run(s, config, changes))
    decreases |changes|
  {
    if changes != [] {
      ApplyHolds(s, config, changes[0]);
      RunHolds(s, Apply(s, config, changes[0]).0, changes[1..]);
    }
  }

  /** A successful update is read back, and no value at a diverging path is changed. */
  lemma UpdateReads(s: Schema, config: Json, path: string, value: Json, other: seq<string>)
    requires WellFormed(s) && Updated(s, config, path, value).1.Replaced?
    ensures value != Undefined && !value.Obj? ==> GetIn(Updated(s, config, path, value).0, Split(path)) == value
    ensures !(Split(path) <= other) && !(other <= Split(path)) && GetIn(config, other) != Undefined
            && !GetIn(config, other).Obj? ==>
              GetIn(Updated(s, config, path, value).0, other) == GetIn(config, other)
  {
    var keys := Split(path);
    var changed := SetIn(config, keys, value).value;
    SetInReads(config, keys, value, other);
    if value != Undefined && !value.Obj? {
      FillKeepsSupplied(s, changed, keys);
    }
    if GetIn(changed, other) != Undefined && !GetIn(changed, other).Obj? {
      FillKeepsSupplied(s, changed, other);
    }
  }

  /** Deleting a top-level property that has a default does not remove it: it reads as its filled-in default. */
  lemma DeleteRestoresDefault(s: Schema, config: Json, key: string, i: nat)
    requires WellFormed(s) && DotFree(key) && Deleted(s, config, key).1.Replaced?
    requires i < |s.Props()| && s.Props()[i].name == key
    ensures Deleted(s, config, key).0.At(key) == FillKey(s.Props()[i].schema, Undefined)
    ensures Deleted(s, config, key).0.At(key) == Undefined <==> s.Props()[i].schema.defaultValue == Undefined
  {
    SplitOfKey(key);
    var changed := DeleteIn(config, [key]).value;
    assert changed.At(key) == Undefined;
    FillReads(s, changed, key);
  }
}
