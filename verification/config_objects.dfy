/**
 setIn and deleteIn of src/config/utils.ts as they work: on objects in the heap,
 changed in place. The values of config_tree.dfy are what the objects stand for.
 */
module ConfigObjects {
  import opened Common
  import T = ConfigTree

  // A property holds an object or anything else.
  datatype Value = Plain(json: T.Json) | Ref(node: Node)

  // The objects that make up a value, and the tree it stands for.
  ghost function Parts(value: Value): set<Node>
    reads if value.Ref? then {value.node} else {}
  {
    if value.Ref? then value.node.Repr else {}
  }

  ghost function Read(value: Value): T.Json
    requires value.Ref? ==> value.node.Valid()
    reads if value.Ref? then {value.node} + value.node.Repr else {}
  {
    if value.Ref? then value.node.View() else value.json
  }

  lemma SameButOne(before: T.Json, after: T.Json, key: string, value: T.Json)
    requires before.Obj? && after.Obj? && after.fields.Keys == before.fields.Keys + {key} && after.fields[key] == value
    requires forall k :: k in before.fields && k != key ==> after.fields[k] == before.fields[k]
    ensures after == before.With(key, value)
  {
    assert after.fields == before.With(key, value).fields;
  }

  lemma WalkStep(tree: T.Json, keys: seq<string>, value: T.Json)
    requires tree.Obj? && |keys| > 1
    ensures var child := tree.At(keys[0]);
            var parent := if child == T.Undefined || child == T.Null then T.Obj(map[]) else child;
            var below := T.SetIn(parent, keys[1..], value);
            T.SetIn(tree, keys, value) == if below.Some? then Some(tree.With(keys[0], below.value)) else None
  {
  }

  // Nothing stands in the way inside an empty object.
  lemma {:induction false} EmptyAccepts(keys: seq<string>, value: T.Json)
    requires keys != []
    ensures T.SetIn(T.Obj(map[]), keys, value).Some?
    decreases |keys|
  {
    if |keys| > 1 {
      EmptyAccepts(keys[1..], value);
    }
  }

  lemma WithTwice(tree: T.Json, key: string, first: T.Json, second: T.Json)
    requires tree.Obj?
    ensures tree.With(key, first).With(key, second) == tree.With(key, second)
  {
    assert tree.With(key, first).With(key, second).fields == tree.With(key, second).fields;
  }

  /** A plain object that shares no part with its siblings. */
  class Node {
    var fields: map<string, Value>
    ghost var Repr: set<Node>

    // The part of Valid that looks at one property.
    ghost predicate ChildOk(k: string)
      reads this
    {
      k in fields ==>
        match fields[k]
        case Plain(json) => !json.Obj?
        case Ref(c) => c in Repr && c != this
    }

    ghost predicate Valid()
      reads this, Repr
      decreases Repr
    {
      && this in Repr
      && (forall k {:trigger fields[k]} :: k in fields ==> ChildOk(k))
      && (forall k {:trigger fields[k]} :: k in fields && fields[k].Ref? ==>
            fields[k].node.Repr < Repr && this !in fields[k].node.Repr && fields[k].node.Valid())
      && (forall j, k {:trigger fields[j], fields[k]} :: j in fields && k in fields && j != k && fields[j].Ref? && fields[k].Ref? ==>
            fields[j].node.Repr !! fields[k].node.Repr)
    }

    ghost function View(): (r: T.Json)
      requires Valid()
      reads this, Repr
      ensures r.Obj?
      decreases Repr
    {
      T.Obj(map k | k in fields :: if fields[k].Ref? then fields[k].node.View() else fields[k].json)
    }

    constructor ()
      ensures Valid() && fresh(Repr) && View() == T.Obj(map[])
    {
      fields := map[];
      Repr := {this};
      new;
      assert View().fields == map[];
    }

    // An object to be attached shares nothing with this one; anything else is no object.
    ghost predicate CanTake(value: Value)
      reads this, Repr, if value.Ref? then {value.node} + value.node.Repr else {}
      requires Valid()
    {
      match value
      case Plain(json) => !json.Obj?
      case Ref(v) => v.Valid() && v.Repr !! Repr
    }

    // The code's assignment current[key] = value.
    method Assign(key: string, value: Value)
      requires Valid() && CanTake(value)
      modifies this
      ensures Valid() && Repr == old(Repr) + Parts(value)
      ensures View() == old(View()).With(key, Read(value)) && Read(value) == old(Read(value))
      ensures fields == old(fields)[key := value]
    {
      fields := fields[key := value];
      if value.Ref? { Repr := Repr + value.node.Repr; }
      forall k | k in fields && k != key && fields[k].Ref?
        ensures fields[k].node.Valid() && fields[k].node.View() == old(fields[k].node.View())
      {
        assert old(ChildOk(k));
      }
      SameButOne(old(View()), View(), key, Read(value));
    }

    // A missing, undefined or null parent becomes an empty object.
    method MakeParent(key: string, ghost value: Value)
      requires Valid() && CanTake(value)
      modifies this
      ensures Valid() && CanTake(value) && fresh(Repr - old(Repr)) && key in fields
      ensures Parts(value) == old(Parts(value)) && Read(value) == old(Read(value))
      ensures var child := old(View()).At(key);
              if child == T.Undefined || child == T.Null
              then View() == old(View()).With(key, T.Obj(map[])) && fields[key].Ref?
              else View() == old(View()) && fields == old(fields)
    {
      if key !in fields || fields[key] == Plain(T.Undefined) || fields[key] == Plain(T.Null) {
        var child := new Node();
        Assign(key, Ref(child));
      }
    }

    // The walk of setIn, one object at a time; false stands for the TypeError.
    method SetIn(keys: seq<string>, value: Value) returns (ok: bool)
      requires Valid() && CanTake(value) && keys != []
      modifies Repr
      ensures Valid() && fresh(Repr - old(Repr) - old(Parts(value)))
      ensures ok <==> T.SetIn(old(View()), keys, old(Read(value))).Some?
      ensures View() == if ok then T.SetIn(old(View()), keys, old(Read(value))).value else old(View())
      decreases |keys|, 1
    {
      var key := keys[0];
      if |keys| == 1 {
        Assign(key, value);
        return true;
      }
      hide T.SetIn;
      ghost var before, read := View(), Read(value);
      WalkStep(before, keys, read);
      MakeParent(key, value);
      EmptyAccepts(keys[1..], read);
      WithTwice(before, key, T.Obj(map[]), T.SetIn(T.Obj(map[]), keys[1..], read).value);
      if fields[key].Plain? {
        return false;
      }
      ok := Descend(key, keys[1..], value);
    }

    // The walk goes on in a child; the parent only learns which objects are now its parts.
    method Descend(key: string, rest: seq<string>, value: Value) returns (ok: bool)
      requires Valid() && CanTake(value) && rest != [] && key in fields && fields[key].Ref?
      modifies Repr
      ensures Valid() && fresh(Repr - old(Repr) - old(Parts(value)))
      ensures ok <==> T.SetIn(old(View()).At(key), rest, old(Read(value))).Some?
      ensures View() == if ok then old(View()).With(key, T.SetIn(old(View()).At(key), rest, old(Read(value))).value)
                        else old(View())
      decreases |rest|, 2
    {
      var child := fields[key].node;
      ghost var before := View();
      ok := child.SetIn(rest, value);
      Repr := Repr + child.Repr;
      forall k | k in fields && k != key && fields[k].Ref?
        ensures fields[k].node.Valid() && fields[k].node.View() == old(fields[k].node.View())
                && fields[k].node.Repr == old(fields[k].node.Repr)
      {
        assert old(ChildOk(k));
      }
      SameButOne(before, View(), key, child.View());
      if !ok { SameButOne(before, before, key, before.At(key)); }
    }

    // delete current[key]
    method Remove(key: string)
      requires Valid()
      modifies this`fields
      ensures Valid() && Repr == old(Repr)
      ensures View() == T.Obj(old(View()).fields - {key})
    {
      fields := fields - {key};
      forall k | k in fields && fields[k].Ref?
        ensures fields[k].node.Valid() && fields[k].node.View() == old(fields[k].node.View())
      {
        assert old(ChildOk(k));
      }
      assert View().fields == old(View()).fields - {key};
    }

    // The walk of deleteIn; false when the last key is empty or there is no object to delete from.
    method DeleteIn(keys: seq<string>) returns (ok: bool)
      requires Valid() && keys != []
      modifies Repr
      ensures Valid() && Repr == old(Repr)
      ensures ok <==> T.DeleteIn(old(View()), keys).Some?
      ensures View() == if ok then T.DeleteIn(old(View()), keys).value else old(View())
      decreases |keys|
    {
      var key := keys[0];
      if keys[|keys| - 1] == "" {
        return false;
      }
      if |keys| == 1 {
        Remove(key);
        return true;
      }
      if key !in fields || fields[key].Plain? {
        return false;
      }
      var child := fields[key].node;
      ghost var before := View();
      ok := child.DeleteIn(keys[1..]);
      forall k | k in fields && k != key && fields[k].Ref?
        ensures fields[k].node.Valid() && fields[k].node.View() == old(fields[k].node.View())
                && fields[k].node.Repr == old(fields[k].node.Repr)
      {
        assert old(ChildOk(k));
      }
      SameButOne(before, View(), key, child.View());
      if !ok { SameButOne(before, before, key, before.At(key)); }
    }
  }

  // deepClone of a plain object: the copy stands for the same tree and shares nothing with the original.
  method DeepClone(n: Node) returns (c: Node)
    requires n.Valid()
    ensures c.Valid() && fresh(c.Repr) && c.View() == n.View()
    decreases n.Repr, 3
  {
    c := new Node();
    ghost var original := n.View();
    assert original.fields.Keys == n.fields.Keys && Copied(c.View(), original, {});
    hide *;
    CopyAll(n, c, original);
    AllCopied(c.View(), original);
  }

  // The loop of deepClone, over a copy that is still empty.
  method CopyAll(n: Node, c: Node, ghost original: T.Json)
    requires n.Valid() && n.View() == original && original.Obj? && original.fields.Keys == n.fields.Keys
    requires c.Valid() && c.Repr !! n.Repr && Copied(c.View(), original, {})
    modifies c
    ensures c.Valid() && fresh(c.Repr - old(c.Repr)) && Copied(c.View(), original, original.fields.Keys)
    decreases n.Repr, 2
  {
    hide *;
    var allKeys := n.fields.Keys;
    var keys := allKeys;
    assert allKeys - keys == {};
    while keys != {}
      invariant keys <= allKeys
      invariant n.Valid() && n.View() == original && n.fields.Keys == allKeys
      invariant c.Valid() && c.Repr !! n.Repr && fresh(c.Repr - old(c.Repr))
      invariant Copied(c.View(), original, allKeys - keys)
      decreases |keys|
    {
      var key :| key in keys;
      OneMoreCopied(c.View(), original, keys, key);
      CopyProperty(n, c, key);
      keys := keys - {key};
    }
    assert allKeys - keys == allKeys;
  }

  lemma AllCopied(copy: T.Json, original: T.Json)
    requires original.Obj? && Copied(copy, original, original.fields.Keys)
    ensures copy == original
  {
    assert copy.fields == original.fields;
  }

  method CopyProperty(n: Node, c: Node, key: string)
    requires n.Valid() && key in n.fields && c.Valid() && c.Repr !! n.Repr
    modifies c
    ensures n.Valid() && n.View() == old(n.View()) && n.Repr == old(n.Repr) && n.fields == old(n.fields)
    ensures c.Valid() && c.Repr !! n.Repr && fresh(c.Repr - old(c.Repr))
    ensures c.View() == old(c.View()).With(key, n.View().fields[key])
    decreases n.Repr, 1
  {
    var value := CloneValue(n, key);
    c.Assign(key, value);
  }

  method CloneValue(n: Node, key: string) returns (value: Value)
    requires n.Valid() && key in n.fields
    ensures value.Plain? ==> !value.json.Obj?
    ensures value.Ref? ==> value.node.Valid() && fresh(value.node.Repr)
    ensures Read(value) == n.View().fields[key]
    decreases n.Repr, 0
  {
    assert n.ChildOk(key);
    value := n.fields[key];
    if value.Ref? {
      var child := DeepClone(value.node);
      value := Ref(child);
    }
  }

  predicate Copied(copy: T.Json, original: T.Json, keys: set<string>) {
    copy.Obj? && original.Obj? && copy.fields.Keys == keys && keys <= original.fields.Keys
    && forall k :: k in keys ==> copy.fields[k] == original.fields[k]
  }

  lemma OneMoreCopied(copy: T.Json, original: T.Json, keys: set<string>, key: string)
    requires original.Obj? && keys <= original.fields.Keys && key in keys
    requires Copied(copy, original, original.fields.Keys - keys)
    ensures Copied(copy.With(key, original.fields[key]), original, original.fields.Keys - (keys - {key}))
  {
  }
}
