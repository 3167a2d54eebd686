/** Which values an enum allows and a type name takes, said without the validator's own comparisons. */
module EnumRules {
  import opened Options
  import opened JsonPaths
  import opened ResultSchema
  import opened ResultScaffold

  // ----- Type names -----

  lemma TypeNames(v: Value)
    ensures TypeName(v) == "null" <==> v.Null?
    ensures TypeName(v) == "boolean" <==> v.Bool?
    ensures TypeName(v) == "integer" <==> v.Int?
    ensures TypeName(v) == "number" <==> v.Float?
    ensures TypeName(v) == "string" <==> v.Str?
    ensures TypeName(v) == "array" <==> v.Arr?
    ensures TypeName(v) == "object" <==> v.Obj?
  {
    assert |"null"| == 4 && |"boolean"| == 7 && |"integer"| == 7 && |"number"| == 6;
    assert |"string"| == 6 && |"array"| == 5 && |"object"| == 6;
    assert "boolean"[0] == 'b' && "integer"[0] == 'i';
    assert "number"[0] == 'n' && "string"[0] == 's' && "object"[0] == 'o';
  }

  /** A known type name takes exactly the values of that name, `number` the integers too; any other name, `null`
      among them, takes everything. */
  lemma MatchesWhen(v: Value, typeName: string)
    ensures MatchesType(v, typeName) <==>
      || TypeName(v) == typeName
      || (typeName == "number" && TypeName(v) == "integer")
      || typeName !in {"object", "array", "string", "boolean", "integer", "number"}
  {
    TypeNames(v);
    assert |"null"| == 4 && |"boolean"| == 7 && |"integer"| == 7 && |"number"| == 6;
    assert |"string"| == 6 && |"array"| == 5 && |"object"| == 6;
    assert "boolean"[0] == 'b' && "integer"[0] == 'i';
    assert "number"[0] == 'n' && "string"[0] == 's' && "object"[0] == 'o';
  }

  // ----- Equality -----

  /** v is a boolean or a number, and worth x. */
  ghost predicate Worth(v: Value, x: real) {
    || (v == Bool(true) && x == 1.0)
    || (v == Bool(false) && x == 0.0)
    || (v.Int? && x == v.i as real)
    || v == Float(x)
  }

  ghost function NamesIn(fields: seq<Field>): set<string> {
    set i | 0 <= i < |fields| :: fields[i].name
  }

  /** Two values an enum does not tell apart. */
  ghost predicate Alike(a: Value, b: Value)
    decreases a
  {
    || a == Null == b
    || (a.Str? && a == b)
    || (exists x :: Worth(a, x) && Worth(b, x))
    || (a.Arr? && b.Arr? && |a.items| == |b.items|
        && forall i :: 0 <= i < |a.items| ==> Alike(a.items[i], b.items[i]))
    || (a.Obj? && b.Obj? && NamesIn(a.fields) == NamesIn(b.fields)
        && forall i, j :: 0 <= i < |a.fields| && 0 <= j < |b.fields| && a.fields[i].name == b.fields[j].name ==>
            Alike(a.fields[i].value, b.fields[j].value))
  }

  lemma WorthIs(v: Value, x: real)
    ensures Worth(v, x) <==> AsNumber(v) == Some(x)
  {
  }

  ghost predicate Apart(fields: seq<Field>) {
    forall i, j :: 0 <= i < j < |fields| ==> fields[i].name != fields[j].name
  }

  lemma {:induction false} NamesCount(fields: seq<Field>)
    requires Apart(fields)
    ensures |NamesIn(fields)| == |fields|
  {
    if fields == [] {
      assert NamesIn(fields) == {};
    } else {
      var rest, last := fields[..|fields| - 1], fields[|fields| - 1].name;
      NamesCount(rest);
      assert NamesIn(fields) == NamesIn(rest) + {last};
    }
  }

  lemma {:induction false} LookupFinds(fields: seq<Field>, name: string)
    ensures Lookup(fields, name).Some? <==> name in NamesIn(fields)
  {
    if fields != [] {
      LookupFinds(fields[1..], name);
      assert NamesIn(fields) == {fields[0].name} + NamesIn(fields[1..]) by {
        assert fields == [fields[0]] + fields[1..];
      }
    }
  }

  lemma SameNames(xs: seq<Field>, ys: seq<Field>)
    requires Apart(xs) && Apart(ys)
    ensures NamesIn(xs) == NamesIn(ys) <==> |xs| == |ys| && NamesIn(xs) <= NamesIn(ys)
  {
    NamesCount(xs);
    NamesCount(ys);
    if |xs| == |ys| && NamesIn(xs) <= NamesIn(ys) {
      assert NamesIn(ys) == NamesIn(xs) + (NamesIn(ys) - NamesIn(xs));
    }
  }

  /** The comparison used for enums is that relation, for JSON values. */
  lemma {:induction false} EqualIsAlike(a: Value, b: Value)
    requires DistinctFields(a) && DistinctFields(b)
    ensures PythonEqual(a, b) <==> Alike(a, b)
    decreases a
  {
    NumbersAlike(a, b);
    match (a, b)
    case (Arr(xs), Arr(ys)) =>
      forall i | 0 <= i < |xs| && |xs| == |ys| ensures PythonEqual(xs[i], ys[i]) <==> Alike(xs[i], ys[i]) {
        EqualIsAlike(xs[i], ys[i]);
      }
    case (Obj(xs), Obj(ys)) =>
      forall i, j | 0 <= i < |xs| && 0 <= j < |ys|
        ensures PythonEqual(xs[i].value, ys[j].value) <==> Alike(xs[i].value, ys[j].value)
      {
        EqualIsAlike(xs[i].value, ys[j].value);
      }
      ObjectsAlike(xs, ys);
    case _ =>
  }

  lemma NumbersAlike(a: Value, b: Value)
    ensures (exists x :: Worth(a, x) && Worth(b, x)) <==> AsNumber(a).Some? && AsNumber(a) == AsNumber(b)
  {
    forall x ensures Worth(a, x) <==> AsNumber(a) == Some(x)
      ensures Worth(b, x) <==> AsNumber(b) == Some(x)
    {
      WorthIs(a, x);
      WorthIs(b, x);
    }
    if AsNumber(a).Some? && AsNumber(a) == AsNumber(b) {
      assert Worth(a, AsNumber(a).value) && Worth(b, AsNumber(a).value);
    }
  }

  lemma ObjectsAlike(xs: seq<Field>, ys: seq<Field>)
    requires Apart(xs) && Apart(ys)
    requires forall i, j :: 0 <= i < |xs| && 0 <= j < |ys| ==>
      (PythonEqual(xs[i].value, ys[j].value) <==> Alike(xs[i].value, ys[j].value))
    ensures PythonEqual(Obj(xs), Obj(ys)) <==> Alike(Obj(xs), Obj(ys))
  {
    SameNames(xs, ys);
    forall i | 0 <= i < |xs| ensures Lookup(ys, xs[i].name).Some? <==> xs[i].name in NamesIn(ys) {
      LookupFinds(ys, xs[i].name);
    }
    forall j | 0 <= j < |ys| ensures Lookup(ys, ys[j].name) == Some(ys[j].value) {
      LookupAt(ys, j);
    }
  }

  // ----- Enums -----

  /** A string or null is allowed exactly when it is listed. */
  lemma TextAllowed(v: Value, allowed: seq<Value>)
    requires v.Str? || v.Null?
    ensures InEnum(v, allowed) <==> v in allowed
  {
  }

  /** A boolean or number is allowed exactly when a boolean or number worth as much is listed. */
  lemma NumberAllowed(v: Value, allowed: seq<Value>, x: real)
    requires Worth(v, x)
    ensures InEnum(v, allowed) <==> exists i :: 0 <= i < |allowed| && Worth(allowed[i], x)
  {
    WorthIs(v, x);
    forall i | 0 <= i < |allowed| ensures Worth(allowed[i], x) <==> PythonEqual(v, allowed[i]) {
      WorthIs(allowed[i], x);
    }
  }

  /** The validator complains about an enum exactly when the type is right and nothing listed is like the value. */
  lemma EnumRejects(v: Value, s: Schema, path: string, allowed: seq<Value>)
    requires s.Schema? && s.enum == Some(allowed)
    requires DistinctFields(v) && forall i :: 0 <= i < |allowed| ==> DistinctFields(allowed[i])
    ensures EnumIssues(v, s, path) == [BadEnum(path, allowed)] <==>
      forall i :: 0 <= i < |allowed| ==> !Alike(v, allowed[i])
    ensures s.typeName == "" || MatchesType(v, s.typeName) ==>
      EnumIssues(v, s, path) <= Issues(v, s, path)
  {
    hide PythonEqual, Alike;
    forall i | 0 <= i < |allowed| ensures PythonEqual(v, allowed[i]) <==> Alike(v, allowed[i]) {
      EqualIsAlike(v, allowed[i]);
    }
  }
}
