/** The validator of submitted results: what it reports, in order, and when it is silent. */
module ResultSchema {
  import opened Options
  import opened JsonPaths

  datatype Property = Property(name: string, schema: Schema)

  /** A schema as the validator reads it. `Any` is anything but a JSON object, and accepts everything;
      `typeName` is trimmed, and empty when there is none; a missing `items` reads as `Any`. */
  datatype Schema =
    | Any
    | Schema(
        typeName: string,
        enum: Option<seq<Value>>,
        properties: seq<Property>,
        required: seq<string>,
        closed: bool,
        items: Schema)

  datatype Issue =
    | Missing(path: string)
    | Extra(path: string)
    | BadType(path: string, expected: string, got: string)
    | BadEnum(path: string, allowed: seq<Value>)

  // ----- Lookup -----

  function Lookup(fields: seq<Field>, name: string): (r: Option<Value>)
    ensures r.Some? ==> (fields decreases to r.value)
  {
    if fields == [] then None
    else if fields[0].name == name then Some(fields[0].value)
    else Lookup(fields[1..], name)
  }

  function FindProperty(props: seq<Property>, name: string): (r: Option<Schema>)
    ensures r.Some? ==> (props decreases to r.value)
  {
    if props == [] then None
    else if props[0].name == name then Some(props[0].schema)
    else FindProperty(props[1..], name)
  }

  // ----- Types and enums -----

  function TypeName(v: Value): string {
    match v
    case Null => "null"
    case Bool(_) => "boolean"
    case Obj(_) => "object"
    case Arr(_) => "array"
    case Str(_) => "string"
    case Int(_) => "integer"
    case Float(_) => "number"
  }

  /** An unknown type name is matched by every value. */
  predicate MatchesType(v: Value, typeName: string) {
    if typeName == "object" then v.Obj?
    else if typeName == "array" then v.Arr?
    else if typeName == "string" then v.Str?
    else if typeName == "boolean" then v.Bool?
    else if typeName == "integer" then v.Int?
    else if typeName == "number" then v.Int? || v.Float?
    else true
  }

  function AsNumber(v: Value): Option<real> {
    match v
    case Bool(b) => Some(if b then 1.0 else 0.0)
    case Int(i) => Some(i as real)
    case Float(r) => Some(r)
    case _ => None
  }

  /** Python's `==`: booleans and numbers compare by value, objects without regard to order. */
  predicate PythonEqual(a: Value, b: Value)
    decreases a
  {
    if AsNumber(a).Some? || AsNumber(b).Some? then AsNumber(a) == AsNumber(b)
    else
      match (a, b)
      case (Null, Null) => true
      case (Str(s), Str(t)) => s == t
      case (Arr(xs), Arr(ys)) => |xs| == |ys| && forall i :: 0 <= i < |xs| ==> PythonEqual(xs[i], ys[i])
      case (Obj(xs), Obj(ys)) =>
        |xs| == |ys| && forall i :: 0 <= i < |xs| ==>
          Lookup(ys, xs[i].name).Some? && PythonEqual(xs[i].value, Lookup(ys, xs[i].name).value)
      case _ => false
  }

  predicate InEnum(v: Value, allowed: seq<Value>) {
    exists i :: 0 <= i < |allowed| && PythonEqual(v, allowed[i])
  }

  // ----- The issues, in the validator's order -----

  function MissingIssues(fields: seq<Field>, required: seq<string>, path: string): seq<Issue> {
    if required == [] then []
    else
      MissingIssues(fields, required[..|required| - 1], path) +
      if Lookup(fields, required[|required| - 1]).Some? then []
      else [Missing(path + PrintStep(Key(required[|required| - 1])))]
  }

  function ExtraNames(fields: seq<Field>, props: seq<Property>): seq<string> {
    if fields == [] then []
    else
      ExtraNames(fields[..|fields| - 1], props) +
      if FindProperty(props, fields[|fields| - 1].name).Some? then [] else [fields[|fields| - 1].name]
  }

  /** Code-point order of strings. */
  predicate Precedes(s: string, t: string) {
    if s == "" then true
    else if t == "" then false
    else if s[0] != t[0] then s[0] < t[0]
    else Precedes(s[1..], t[1..])
  }

  function Insert(name: string, names: seq<string>): (r: seq<string>)
    ensures multiset(r) == multiset(names) + multiset{name}
  {
    if names == [] || Precedes(name, names[0]) then [name] + names
    else
      var r := [names[0]] + Insert(name, names[1..]);
      assert names == [names[0]] + names[1..];
      r
  }

  function Sorted(names: seq<string>): (r: seq<string>)
    ensures multiset(r) == multiset(names)
  {
    if names == [] then []
    else
      assert names == [names[0]] + names[1..];
      Insert(names[0], Sorted(names[1..]))
  }

  function ExtraIssues(names: seq<string>, path: string): seq<Issue> {
    if names == [] then []
    else ExtraIssues(names[..|names| - 1], path) + [Extra(path + PrintStep(Key(names[|names| - 1])))]
  }

  function PropertyIssues(fields: seq<Field>, props: seq<Property>, path: string): seq<Issue>
    decreases fields, |props|
  {
    if props == [] then []
    else
      var last := props[|props| - 1];
      var v := Lookup(fields, last.name);
      PropertyIssues(fields, props[..|props| - 1], path) +
      if v.Some? then Issues(v.value, last.schema, path + PrintStep(Key(last.name))) else []
  }

  function ObjectIssues(fields: seq<Field>, s: Schema, path: string): seq<Issue>
    requires s.Schema?
    decreases fields, |s.properties| + 1
  {
    MissingIssues(fields, s.required, path) +
    (if s.closed then ExtraIssues(Sorted(ExtraNames(fields, s.properties)), path) else []) +
    PropertyIssues(fields, s.properties, path)
  }

  function ArrayIssues(items: seq<Value>, s: Schema, path: string): seq<Issue>
    decreases items, 0
  {
    if items == [] then []
    else
      ArrayIssues(items[..|items| - 1], s, path) +
      Issues(items[|items| - 1], s, path + PrintStep(At(|items| - 1)))
  }

  function EnumIssues(v: Value, s: Schema, path: string): seq<Issue>
    requires s.Schema?
  {
    if s.enum.Some? && !InEnum(v, s.enum.value) then [BadEnum(path, s.enum.value)] else []
  }

  function Issues(v: Value, s: Schema, path: string): seq<Issue>
    decreases v, 0
  {
    if s.Any? then []
    else if s.typeName != "" && !MatchesType(v, s.typeName) then [BadType(path, s.typeName, TypeName(v))]
    else
      EnumIssues(v, s, path) +
      if s.typeName == "object" && v.Obj? then ObjectIssues(v.fields, s, path)
      else if s.typeName == "array" && v.Arr? then ArrayIssues(v.items, s.items, path)
      else []
  }

  // ----- The validator's loops -----

  method CollectPropertyIssues(fields: seq<Field>, props: seq<Property>, path: string) returns (issues: seq<Issue>)
    ensures issues == PropertyIssues(fields, props, path)
    decreases fields, 1
  {
    issues := [];
    for i := 0 to |props|
      invariant issues == PropertyIssues(fields, props[..i], path)
    {
      assert props[..i + 1][..i] == props[..i];
      var v := Lookup(fields, props[i].name);
      if v.Some? {
        var more := Validate(v.value, props[i].schema, path + PrintStep(Key(props[i].name)));
        issues := issues + more;
      }
    }
    assert props[..|props|] == props;
  }

  method CollectObjectIssues(fields: seq<Field>, s: Schema, path: string) returns (issues: seq<Issue>)
    requires s.Schema?
    ensures issues == ObjectIssues(fields, s, path)
    decreases fields, 2
  {
    issues := MissingIssues(fields, s.required, path);
    var extra := if s.closed then ExtraIssues(Sorted(ExtraNames(fields, s.properties)), path) else [];
    issues := issues + extra;
    var more := CollectPropertyIssues(fields, s.properties, path);
    issues := issues + more;
  }

  method CollectArrayIssues(items: seq<Value>, s: Schema, path: string) returns (issues: seq<Issue>)
    ensures issues == ArrayIssues(items, s, path)
    decreases items, 1
  {
    issues := [];
    for i := 0 to |items|
      invariant issues == ArrayIssues(items[..i], s, path)
    {
      assert items[..i + 1][..i] == items[..i];
      var more := Validate(items[i], s, path + PrintStep(At(i)));
      issues := issues + more;
    }
    assert items[..|items|] == items;
  }

  method Validate(v: Value, s: Schema, path: string) returns (issues: seq<Issue>)
    ensures issues == Issues(v, s, path)
    decreases v, 0
  {
    if s.Any? {
      return [];
    }
    if s.typeName != "" && !MatchesType(v, s.typeName) {
      return [BadType(path, s.typeName, TypeName(v))];
    }
    issues := EnumIssues(v, s, path);
    if s.typeName == "object" && v.Obj? {
      var more := CollectObjectIssues(v.fields, s, path);
      issues := issues + more;
    } else if s.typeName == "array" && v.Arr? {
      var more := CollectArrayIssues(v.items, s.items, path);
      issues := issues + more;
    }
  }
}
