/**
 Model of src/config/validator.ts: filling in defaults and checking a tree
 against a schema. Text rules (patterns, URIs, host names) and the items of
 arrays are opaque functions of the schema.
 */
module ConfigValidator {
  import opened Common
  import opened ConfigTree

  datatype Kind = AnyKind | ObjectKind | ArrayKind | StringKind | IntegerKind | NumberKind | BooleanKind

  datatype Property = Property(name: string, schema: Schema)

  datatype Extra = AnyExtra | NoExtra | ExtraSchema(schema: Schema)

  datatype Schema = Schema(
    kind: Kind,
    hasProperties: bool,
    properties: seq<Property>,
    required: seq<string>,
    extra: Extra,
    defaultValue: Json,
    allowed: Option<seq<Json>>,
    minimum: Option<real>,
    maximum: Option<real>,
    textOk: string -> bool,
    itemErrors: string -> seq<string>)
  {
    function Props(): seq<Property> {
      if hasProperties then properties else []
    }

    predicate Names(key: string) {
      exists i :: 0 <= i < |Props()| && Props()[i].name == key
    }
  }

  /** Property names are keys of one object: no name twice, at any depth. */
  predicate WellFormed(s: Schema)
    decreases s
  {
    && (forall i, j :: 0 <= i < j < |s.Props()| ==> s.Props()[i].name != s.Props()[j].name)
    && (forall i :: 0 <= i < |s.Props()| ==> WellFormed(s.Props()[i].schema))
    && (s.extra.ExtraSchema? ==> WellFormed(s.extra.schema))
  }

  // ---------------------------------------------------------------- defaults

  // What a property's value becomes: its default when missing, filled in below when an object.
  function FillKey(s: Schema, value: Json): (r: Json)
    ensures value != Undefined && !value.Obj? ==> r == value
    ensures value.Obj? ==> r.Obj?
    ensures r == Undefined <==> value == Undefined && s.defaultValue == Undefined
    decreases s, 1, 0
  {
    var present := if value == Undefined then s.defaultValue else value;
    if s.kind.ObjectKind? && present.Obj? then Fill(s, present) else present
  }

  function Fill(s: Schema, data: Json): (r: Json)
    requires data.Obj?
    ensures r.Obj?
    decreases s, 0, |s.Props()| + 1
  {
    FillFirst(s, data, |s.Props()|)
  }

  // After the first n properties.
  function FillFirst(s: Schema, data: Json, n: nat): (r: Json)
    requires data.Obj? && n <= |s.Props()|
    ensures r.Obj?
    decreases s, 0, n
  {
    if n == 0 then data
    else
      var before, p := FillFirst(s, data, n - 1), s.Props()[n - 1];
      var value := FillKey(p.schema, before.At(p.name));
      if value == Undefined then before else before.With(p.name, value)
  }

  method ApplyDefaults(s: Schema, data: Json) returns (filled: Json)
    ensures filled == if data.Obj? then Fill(s, data) else data
    decreases s
  {
    if !s.hasProperties || !data.Obj? {
      return data;
    }
    filled := data;
    for i := 0 to |s.Props()|
      invariant filled == FillFirst(s, data, i)
    {
      var p := s.Props()[i];
      var value := filled.At(p.name);
      if value == Undefined && p.schema.defaultValue != Undefined {
        value := p.schema.defaultValue;
      }
      if value != Undefined && p.schema.kind.ObjectKind? {
        value := ApplyDefaults(p.schema, value);
      }
      if value != Undefined {
        filled := filled.With(p.name, value);
      }
    }
  }

  ghost predicate ReadsFilled(s: Schema, data: Json, filled: Json, i: nat)
    requires data.Obj? && filled.Obj? && i < |s.Props()|
  {
    var key, value := s.Props()[i].name, FillKey(s.Props()[i].schema, data.At(s.Props()[i].name));
    filled.At(key) == value && (key in filled.fields <==> key in data.fields || value != Undefined)
  }

  predicate SameAt(data: Json, filled: Json, key: string)
    requires data.Obj? && filled.Obj?
  {
    filled.At(key) == data.At(key) && (key in filled.fields <==> key in data.fields)
  }

  // After the first n properties, those are filled in, and no other key has changed.
  lemma {:induction false} FillFirstReads(s: Schema, data: Json, n: nat)
    requires WellFormed(s) && data.Obj? && n <= |s.Props()|
    ensures forall i {:trigger s.Props()[i]} :: 0 <= i < n ==> ReadsFilled(s, data, FillFirst(s, data, n), i)
    ensures forall key {:trigger SameAt(data, FillFirst(s, data, n), key)} ::
              (forall i :: 0 <= i < n ==> s.Props()[i].name != key) ==> SameAt(data, FillFirst(s, data, n), key)
  {
    hide FillKey;
    if n > 0 {
      FillFirstReads(s, data, n - 1);
      var before, after, p := FillFirst(s, data, n - 1), FillFirst(s, data, n), s.Props()[n - 1];
      assert SameAt(data, before, p.name);
      forall i | 0 <= i < n ensures ReadsFilled(s, data, after, i) {
        if i < n - 1 {
          assert s.Props()[i].name != p.name && ReadsFilled(s, data, before, i);
        }
      }
      forall key | forall i :: 0 <= i < n ==> s.Props()[i].name != key ensures SameAt(data, after, key) {
        assert p.name != key && SameAt(data, before, key);
      }
    }
  }

  lemma FillReads(s: Schema, data: Json, key: string)
    requires WellFormed(s) && data.Obj?
    ensures !s.Names(key) ==> Fill(s, data).At(key) == data.At(key) && (key in Fill(s, data).fields <==> key in data.fields)
    ensures forall i :: 0 <= i < |s.Props()| && s.Props()[i].name == key ==>
              var filled := FillKey(s.Props()[i].schema, data.At(key));
              Fill(s, data).At(key) == filled
              && (key in Fill(s, data).fields <==> key in data.fields || filled != Undefined)
  {
    hide FillKey;
    FillFirstReads(s, data, |s.Props()|);
    if !s.Names(key) {
      assert SameAt(data, FillFirst(s, data, |s.Props()|), key);
    }
    forall i | 0 <= i < |s.Props()| && s.Props()[i].name == key
      ensures ReadsFilled(s, data, FillFirst(s, data, |s.Props()|), i)
    {
    }
  }

  lemma {:induction false} FillKeyTwice(s: Schema, value: Json)
    requires WellFormed(s)
    ensures FillKey(s, FillKey(s, value)) == FillKey(s, value)
    decreases s, 1
  {
    var present := if value == Undefined then s.defaultValue else value;
    if s.kind.ObjectKind? && present.Obj? {
      FillTwice(s, present);
    }
  }

  /** Filling in defaults a second time changes nothing. */
  lemma {:induction false} FillTwice(s: Schema, data: Json)
    requires WellFormed(s) && data.Obj?
    ensures Fill(s, Fill(s, data)) == Fill(s, data)
    decreases s, 0
  {
    var once := Fill(s, data);
    var twice := Fill(s, once);
    forall key ensures twice.At(key) == once.At(key) && (key in twice.fields <==> key in once.fields) {
      FillReads(s, data, key);
      FillReads(s, once, key);
      if s.Names(key) {
        var i :| 0 <= i < |s.Props()| && s.Props()[i].name == key;
        assert WellFormed(s.Props()[i].schema);
        FillKeyTwice(s.Props()[i].schema, data.At(key));
      }
    }
    assert twice.fields == once.fields by {
      forall key | key in once.fields ensures key in twice.fields && twice.fields[key] == once.fields[key] {
        assert twice.At(key) == once.At(key);
      }
      assert forall key :: key in twice.fields ==> key in once.fields;
    }
  }

  /** What is supplied at a path, and is no object, is never changed. */
  lemma {:induction false} FillKeepsSupplied(s: Schema, data: Json, keys: seq<string>)
    requires WellFormed(s) && data.Obj?
    requires GetIn(data, keys) != Undefined && !GetIn(data, keys).Obj?
    ensures GetIn(Fill(s, data), keys) == GetIn(data, keys)
    decreases |keys|
  {
    var key := keys[0];
    FillReads(s, data, key);
    if s.Names(key) {
      var i :| 0 <= i < |s.Props()| && s.Props()[i].name == key;
      var p, value := s.Props()[i].schema, data.At(key);
      assert WellFormed(p);
      if value.Obj? && p.kind.ObjectKind? {
        FillKeepsSupplied(p, value, keys[1..]);
      }
    }
  }

  // ---------------------------------------------------------------- what a valid value is

  predicate TypeOk(s: Schema, value: Json) {
    match s.kind
    case AnyKind => true
    case ObjectKind => value.Obj?
    case ArrayKind => value.Arr? && s.itemErrors(value.serialised) == []
    case StringKind => value.Str? && s.textOk(value.text)
    case IntegerKind => value.Num? && value.number.Floor as real == value.number && InRange(s, value.number)
    case NumberKind => value.Num? && InRange(s, value.number)
    case BooleanKind => value.Bool?
  }

  predicate InRange(s: Schema, n: real) {
    (s.minimum.Some? ==> s.minimum.value <= n) && (s.maximum.Some? ==> n <= s.maximum.value)
  }

  // enum.includes compares objects and arrays by identity.
  predicate Allowed(s: Schema, value: Json) {
    s.allowed.Some? ==> !value.Obj? && !value.Arr? && value in s.allowed.value
  }

  predicate Conforms(s: Schema, value: Json)
    decreases s
  {
    && TypeOk(s, value)
    && Allowed(s, value)
    && (s.kind.ObjectKind? && s.hasProperties && value.Obj? ==>
          && (forall i :: 0 <= i < |s.Props()| ==> PropertyOk(s.Props()[i], value))
          && (forall i :: 0 <= i < |s.required| ==> value.At(s.required[i]) != Undefined)
          && (s.extra.ExtraSchema? ==>
                forall key :: key in value.fields && !s.Names(key) ==> Conforms(s.extra.schema, value.fields[key])))
  }

  predicate PropertyOk(p: Property, value: Json)
    requires value.Obj?
    decreases p
  {
    value.At(p.name) != Undefined ==> Conforms(p.schema, value.At(p.name))
  }

  // ---------------------------------------------------------------- the checks of the code

  datatype Reason = WrongType | BadText | TooSmall | TooLarge | BadItem | NotInEnum | Missing

  datatype ConfigError = ConfigError(path: string, reason: Reason)

  function Extend(path: string, key: string): string {
    if path == "" then key else path + "." + key
  }

  predicate HasPath(errors: seq<ConfigError>, path: string) {
    exists i :: 0 <= i < |errors| && errors[i].path == path
  }

  // Errors are only added, and one is added unless everything is in order.
  ghost predicate Added(ok: bool, before: seq<ConfigError>, after: seq<ConfigError>) {
    before <= after && (ok <==> after == before)
  }

  // Something at the path, or below it, has been found wrong before.
  ghost predicate AlreadyAt(errors: seq<ConfigError>, path: string) {
    exists i :: 0 <= i < |errors| && path <= errors[i].path
  }

  // The same for a value, whose checks stop early once its path or one below it is among the errors.
  ghost predicate Judged(ok: bool, before: seq<ConfigError>, after: seq<ConfigError>, path: string) {
    && before <= after
    && (ok ==> after == before)
    && (after == before ==> ok || AlreadyAt(before, path))
  }

  lemma BelowThePath(errors: seq<ConfigError>, path: string, key: string)
    ensures AlreadyAt(errors, Extend(path, key)) ==> AlreadyAt(errors, path)
  {
    assert path <= Extend(path, key);
    if AlreadyAt(errors, Extend(path, key)) {
      var i :| 0 <= i < |errors| && Extend(path, key) <= errors[i].path;
      assert path <= errors[i].path;
    }
  }

  // One check after another.
  lemma JudgedInTurn(ok1: bool, ok2: bool, before: seq<ConfigError>, mid: seq<ConfigError>, after: seq<ConfigError>,
                     path: string, key: string)
    requires Judged(ok1, before, mid, path) && Judged(ok2, mid, after, Extend(path, key))
    ensures Judged(ok1 && ok2, before, after, path)
  {
    BelowThePath(mid, path, key);
  }

  // ---- what each error means

  // The value itself breaks the rule the reason names.
  predicate TypeFault(s: Schema, value: Json, path: string, e: ConfigError) {
    match e.reason
    case WrongType =>
      e.path == path
      && (match s.kind
          case AnyKind => false
          case ObjectKind => !value.Obj?
          case ArrayKind => !value.Arr?
          case StringKind => !value.Str?
          case IntegerKind => !value.Num? || value.number.Floor as real != value.number
          case NumberKind => !value.Num?
          case BooleanKind => !value.Bool?)
    case BadText => e.path == path && s.kind.StringKind? && value.Str? && !s.textOk(value.text)
    case TooSmall =>
      e.path == path && (s.kind.IntegerKind? || s.kind.NumberKind?) && value.Num?
      && s.minimum.Some? && value.number < s.minimum.value
    case TooLarge =>
      e.path == path && (s.kind.IntegerKind? || s.kind.NumberKind?) && value.Num?
      && s.maximum.Some? && value.number > s.maximum.value
    case BadItem =>
      s.kind.ArrayKind? && value.Arr?
      && exists i :: 0 <= i < |s.itemErrors(value.serialised)| && e.path == path + s.itemErrors(value.serialised)[i]
    case _ => false
  }

  // The value, or something below it, breaks the rule the reason names at the path of the error.
  ghost predicate Fault(s: Schema, value: Json, path: string, e: ConfigError)
    decreases s, 1
  {
    || TypeFault(s, value, path, e)
    || (e == ConfigError(path, NotInEnum) && !Allowed(s, value))
    || (s.kind.ObjectKind? && s.hasProperties && value.Obj?
        && (PropertyFault(s, value, path, e) || MissingFault(s, value, path, e) || ExtraFault(s, value, path, e)))
  }

  ghost predicate PropertyFault(s: Schema, value: Json, path: string, e: ConfigError)
    requires value.Obj?
    decreases s, 0
  {
    exists i :: 0 <= i < |s.Props()| && FaultAt(s, i, value, path, e)
  }

  ghost predicate FaultAt(s: Schema, i: nat, value: Json, path: string, e: ConfigError)
    requires value.Obj? && i < |s.Props()|
    decreases s, 0, 0
  {
    var p := s.Props()[i];
    value.At(p.name) != Undefined && Fault(p.schema, value.At(p.name), Extend(path, p.name), e)
  }

  ghost predicate MissingFault(s: Schema, value: Json, path: string, e: ConfigError)
    requires value.Obj?
  {
    exists i :: 0 <= i < |s.required| && value.At(s.required[i]) == Undefined && e == ConfigError(Extend(path, s.required[i]), Missing)
  }

  ghost predicate ExtraFault(s: Schema, value: Json, path: string, e: ConfigError)
    requires value.Obj?
    decreases s, 0
  {
    s.extra.ExtraSchema?
    && exists key :: key in value.fields && !s.Names(key) && Fault(s.extra.schema, value.fields[key], Extend(path, key), e)
  }

  function NumberErrors(s: Schema, n: real, path: string): seq<ConfigError> {
    if s.minimum.Some? && n < s.minimum.value then [ConfigError(path, TooSmall)]
    else if s.maximum.Some? && n > s.maximum.value then [ConfigError(path, TooLarge)]
    else []
  }

  method ValidateType(s: Schema, value: Json, path: string, errors: seq<ConfigError>) returns (out: seq<ConfigError>)
    ensures Added(TypeOk(s, value), errors, out)
    ensures forall e :: e in out ==> e in errors || TypeFault(s, value, path, e)
  {
    out := errors;
    match s.kind
    case AnyKind =>
    case ObjectKind =>
      if !value.Obj? { out := out + [ConfigError(path, WrongType)]; }
    case ArrayKind =>
      if !value.Arr? {
        out := out + [ConfigError(path, WrongType)];
      } else {
        var items := s.itemErrors(value.serialised);
        for i := 0 to |items|
          invariant errors <= out && (|out| == |errors| <==> i == 0) && (i == 0 ==> out == errors)
          invariant forall e :: e in out ==> e in errors || TypeFault(s, value, path, e)
        {
          out := out + [ConfigError(path + items[i], BadItem)];
        }
      }
    case StringKind =>
      if !value.Str? {
        out := out + [ConfigError(path, WrongType)];
      } else if !s.textOk(value.text) {
        out := out + [ConfigError(path, BadText)];
      }
    case BooleanKind =>
      if !value.Bool? { out := out + [ConfigError(path, WrongType)]; }
    case _ =>
      if !value.Num? || (s.kind.IntegerKind? && value.number.Floor as real != value.number) {
        out := out + [ConfigError(path, WrongType)];
      } else {
        out := out + NumberErrors(s, value.number, path);
      }
  }

  method ValidateValue(s: Schema, value: Json, path: string, errors: seq<ConfigError>) returns (out: seq<ConfigError>)
    ensures Judged(Conforms(s, value), errors, out, path)
    ensures forall e :: e in out ==> e in errors || Fault(s, value, path, e)
    decreases s, 1
  {
    out := ValidateType(s, value, path, errors);
    if HasPath(out, path) {
      return;
    }
    if !Allowed(s, value) {
      out := out + [ConfigError(path, NotInEnum)];
    }
    if s.kind.ObjectKind? && s.hasProperties && value.Obj? {
      out := ValidateProperties(s, value, path, out);
      out := CheckRequired(s, value, path, out);
      if s.extra.ExtraSchema? {
        out := ValidateExtras(s, value, path, out);
      }
    }
  }

  predicate PropertiesOk(s: Schema, value: Json, n: nat)
    requires value.Obj? && n <= |s.Props()|
  {
    forall i :: 0 <= i < n ==> PropertyOk(s.Props()[i], value)
  }

  lemma OneMoreProperty(s: Schema, value: Json, n: nat)
    requires value.Obj? && n < |s.Props()|
    ensures PropertiesOk(s, value, n + 1)
            <==> PropertiesOk(s, value, n)
                 && (value.At(s.Props()[n].name) != Undefined ==> Conforms(s.Props()[n].schema, value.At(s.Props()[n].name)))
  {
    hide Conforms;
    assert PropertiesOk(s, value, n + 1) <==> PropertiesOk(s, value, n) && PropertyOk(s.Props()[n], value);
  }

  method ValidateProperties(s: Schema, value: Json, path: string, errors: seq<ConfigError>) returns (out: seq<ConfigError>)
    requires value.Obj?
    ensures Judged(PropertiesOk(s, value, |s.Props()|), errors, out, path)
    ensures forall e :: e in out ==> e in errors || PropertyFault(s, value, path, e)
    decreases s, 0
  {
    out := errors;
    for i := 0 to |s.Props()|
      invariant Judged(PropertiesOk(s, value, i), errors, out, path)
      invariant forall e :: e in out ==> e in errors || PropertyFault(s, value, path, e)
    {
      var p := s.Props()[i];
      OneMoreProperty(s, value, i);
      if value.At(p.name) != Undefined {
        ghost var mid := out;
        out := ValidateValue(p.schema, value.At(p.name), Extend(path, p.name), out);
        forall e | e in out && e !in mid ensures PropertyFault(s, value, path, e) { assert FaultAt(s, i, value, path, e); }
        JudgedInTurn(PropertiesOk(s, value, i), Conforms(p.schema, value.At(p.name)), errors, mid, out, path, p.name);
      }
    }
  }

  method CheckRequired(s: Schema, value: Json, path: string, errors: seq<ConfigError>) returns (out: seq<ConfigError>)
    requires value.Obj?
    ensures Added(forall i :: 0 <= i < |s.required| ==> value.At(s.required[i]) != Undefined, errors, out)
    ensures forall e :: e in out ==> e in errors || MissingFault(s, value, path, e)
  {
    out := errors;
    for i := 0 to |s.required|
      invariant forall e :: e in out ==> e in errors || MissingFault(s, value, path, e)
      invariant Added(forall j :: 0 <= j < i ==> value.At(s.required[j]) != Undefined, errors, out)
    {
      if value.At(s.required[i]) == Undefined {
        out := out + [ConfigError(Extend(path, s.required[i]), Missing)];
      }
    }
  }

  predicate ExtrasOk(s: Schema, value: Json, keys: set<string>)
    requires value.Obj? && s.extra.ExtraSchema? && keys <= value.fields.Keys
  {
    forall key :: key in keys && !s.Names(key) ==> Conforms(s.extra.schema, value.fields[key])
  }

  method ValidateExtras(s: Schema, value: Json, path: string, errors: seq<ConfigError>) returns (out: seq<ConfigError>)
    requires value.Obj? && s.extra.ExtraSchema?
    ensures Judged(ExtrasOk(s, value, value.fields.Keys), errors, out, path)
    ensures forall e :: e in out ==> e in errors || ExtraFault(s, value, path, e)
    decreases s, 0
  {
    out := errors;
    var keys := value.fields.Keys;
    while keys != {}
      invariant keys <= value.fields.Keys
      invariant Judged(ExtrasOk(s, value, value.fields.Keys - keys), errors, out, path)
      invariant forall e :: e in out ==> e in errors || ExtraFault(s, value, path, e)
      decreases |keys|
    {
      var key :| key in keys;
      if !s.Names(key) {
        ghost var mid := out;
        out := ValidateValue(s.extra.schema, value.fields[key], Extend(path, key), out);
        JudgedInTurn(ExtrasOk(s, value, value.fields.Keys - keys), Conforms(s.extra.schema, value.fields[key]),
                     errors, mid, out, path, key);
      }
      OneMoreExtra(s, value, keys, key);
      keys := keys - {key};
    }
    assert value.fields.Keys - {} == value.fields.Keys;
  }

  lemma OneMoreExtra(s: Schema, value: Json, keys: set<string>, key: string)
    requires value.Obj? && s.extra.ExtraSchema? && key in keys && keys <= value.fields.Keys
    ensures ExtrasOk(s, value, value.fields.Keys - (keys - {key}))
            <==> ExtrasOk(s, value, value.fields.Keys - keys)
                 && (!s.Names(key) ==> Conforms(s.extra.schema, value.fields[key]))
  {
    hide Conforms;
    assert value.fields.Keys - (keys - {key}) == (value.fields.Keys - keys) + {key};
  }

  // ---------------------------------------------------------------- validate

  // The tree that validation accepts: the data with its defaults filled in.
  function Accept(s: Schema, data: Json): Option<Json> {
    if data.Obj? && Conforms(s, Fill(s, data)) then Some(Fill(s, data)) else None
  }

  datatype ValidationResult = ValidationResult(valid: bool, errors: seq<ConfigError>, data: Json)

  method Validate(s: Schema, data: Json) returns (r: ValidationResult)
    ensures r.valid <==> Accept(s, data).Some?
    ensures r.valid <==> r.errors == []
    ensures data.Obj? ==> forall e :: e in r.errors ==> Fault(s, r.data, "", e)
    ensures !data.Obj? ==> r.errors == [ConfigError("", WrongType)]
    ensures r.data == if data.Obj? then Fill(s, data) else Obj(map[])
  {
    if !data.Obj? {
      return ValidationResult(false, [ConfigError("", WrongType)], Obj(map[]));
    }
    var normalized := DeepMerge([Obj(map[]), data]);
    MergeOverNothing(data);
    normalized := ApplyDefaults(s, normalized);
    var errors := ValidateValue(s, normalized, "", []);
    return ValidationResult(|errors| == 0, errors, normalized);
  }

  lemma MergeOverNothing(data: Json)
    requires data.Obj?
    ensures MergeAll([Obj(map[]), data]) == data
  {
    var nothing: Json := Obj(map[]);
    MergeIntoNothing(data);
    MergeIntoNothing(nothing);
    assert [nothing, data][..1] == [nothing];
  }

  /** Accepted data validates to itself. */
  lemma AcceptedIsStable(s: Schema, data: Json)
    requires WellFormed(s) && Accept(s, data).Some?
    ensures Accept(s, Accept(s, data).value) == Accept(s, data)
  {
    FillTwice(s, data);
  }
}
