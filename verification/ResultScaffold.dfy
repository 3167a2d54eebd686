/** The scaffold a result template is filled from, its nulls, and what filling them achieves. */
module ResultScaffold {
  import opened Options
  import opened JsonPaths
  import opened ResultSchema
  import opened IssuePlaces

  // ----- The scaffold -----

  /** The names in order of first appearance. */
  function Dedupe(names: seq<string>): (r: seq<string>)
    ensures forall n :: n in r <==> n in names
    ensures forall i, j :: 0 <= i < j < |r| ==> r[i] != r[j]
  {
    if names == [] then []
    else
      var rest, last := Dedupe(names[..|names| - 1]), names[|names| - 1];
      if last in rest then rest else rest + [last]
  }

  /** Names are kept where they appear first. */
  lemma {:induction false} DedupeFirsts(names: seq<string>) returns (at: seq<nat>)
    ensures |at| == |Dedupe(names)|
    ensures forall i :: 0 <= i < |at| ==> at[i] < |names| && names[at[i]] == Dedupe(names)[i]
    ensures forall i :: 0 <= i < |at| ==> names[at[i]] !in names[..at[i]]
    ensures forall i, j :: 0 <= i < j < |at| ==> at[i] < at[j]
  {
    at := [];
    if names != [] {
      var n := |names| - 1;
      at := DedupeFirsts(names[..n]);
      forall i | 0 <= i < |at| ensures names[..at[i]] == names[..n][..at[i]] {
      }
      if names[n] !in names[..n] {
        at := at + [n];
      }
    }
  }

  function PropertyNames(props: seq<Property>): (r: seq<string>)
    ensures |r| == |props| && forall i :: 0 <= i < |r| ==> r[i] == props[i].name
  {
    seq(|props|, i requires 0 <= i < |props| => props[i].name)
  }

  /** Required names first, then the other properties. */
  function FieldNames(s: Schema): seq<string>
    requires s.Schema?
  {
    Dedupe(s.required + PropertyNames(s.properties))
  }

  function Scaffold(s: Schema): Value
    decreases s, 1
  {
    if s.Any? then Null
    else if s.typeName == "object" then Obj(ScaffoldFields(s, FieldNames(s)))
    else if s.typeName == "array" then Arr([Scaffold(s.items)])
    else Null
  }

  function PropertySchema(s: Schema, name: string): (r: Schema)
    requires s.Schema?
    ensures r.Any? || r < s
  {
    var p := FindProperty(s.properties, name);
    if p.Some? then p.value else Any
  }

  function ScaffoldFields(s: Schema, names: seq<string>): (r: seq<Field>)
    requires s.Schema?
    ensures |r| == |names|
    ensures forall i :: 0 <= i < |r| ==> r[i].name == names[i]
    decreases s, 0, |names|
  {
    if names == [] then []
    else
      var last := names[|names| - 1];
      var p := PropertySchema(s, last);
      ScaffoldFields(s, names[..|names| - 1]) + [Field(last, if p.Any? then Null else Scaffold(p))]
  }

  /** A scaffold's fields are the required names and then the other properties, each where it appears first. */
  lemma ScaffoldOrder(s: Schema, i: nat, j: nat) returns (a: nat, b: nat)
    requires s.Schema? && s.typeName == "object" && i < j < |Scaffold(s).fields|
    ensures var fields, all := Scaffold(s).fields, s.required + PropertyNames(s.properties);
      && a < b < |all| && fields[i].name == all[a] && fields[j].name == all[b]
      && all[a] !in all[..a] && all[b] !in all[..b]
  {
    var at := DedupeFirsts(s.required + PropertyNames(s.properties));
    a, b := at[i], at[j];
  }

  // ----- The nulls of a value -----

  function Prefixed(step: Step, paths: seq<seq<Step>>): (r: seq<seq<Step>>)
    ensures |r| == |paths| && forall i :: 0 <= i < |r| ==> r[i] == [step] + paths[i]
  {
    seq(|paths|, i requires 0 <= i < |paths| => [step] + paths[i])
  }

  function Nulls(v: Value): seq<seq<Step>>
    decreases v, 0
  {
    match v
    case Null => [[]]
    case Obj(fields) => FieldNulls(fields)
    case Arr(items) => ItemNulls(items)
    case _ => []
  }

  function FieldNulls(fields: seq<Field>): seq<seq<Step>>
    decreases fields, 0
  {
    if fields == [] then []
    else
      var last := fields[|fields| - 1];
      FieldNulls(fields[..|fields| - 1]) + Prefixed(Key(last.name), Nulls(last.value))
  }

  function ItemNulls(items: seq<Value>): seq<seq<Step>>
    decreases items, 0
  {
    if items == [] then []
    else ItemNulls(items[..|items| - 1]) + Prefixed(At(|items| - 1), Nulls(items[|items| - 1]))
  }

  /** Paths as the collector prints them below `path`. */
  function Printed(path: string, nulls: seq<seq<Step>>): (r: seq<string>)
    ensures |r| == |nulls| && forall i :: 0 <= i < |r| ==> r[i] == path + PrintSteps(nulls[i])
  {
    seq(|nulls|, i requires 0 <= i < |nulls| => path + PrintSteps(nulls[i]))
  }

  lemma PrintedPrefixed(path: string, step: Step, nulls: seq<seq<Step>>)
    ensures Printed(path, Prefixed(step, nulls)) == Printed(path + PrintStep(step), nulls)
  {
    forall i | 0 <= i < |nulls|
      ensures path + PrintSteps([step] + nulls[i]) == path + PrintStep(step) + PrintSteps(nulls[i])
    {
      PrintFirst(step, nulls[i]);
      Associate(path, PrintStep(step), PrintSteps(nulls[i]));
    }
  }

  lemma PrintedMore(path: string, done: seq<seq<Step>>, step: Step, nulls: seq<seq<Step>>)
    ensures Printed(path, done + Prefixed(step, nulls)) == Printed(path, done) + Printed(path + PrintStep(step), nulls)
  {
    PrintedPrefixed(path, step, nulls);
  }

  lemma FieldNullsNone(path: string)
    ensures Printed(path, FieldNulls([])) == [] && Printed(path, ItemNulls([])) == []
  {
  }

  lemma FieldNullsNext(fields: seq<Field>, i: nat, path: string)
    requires i < |fields|
    ensures Printed(path, FieldNulls(fields[..i + 1])) ==
      Printed(path, FieldNulls(fields[..i])) + Printed(path + PrintStep(Key(fields[i].name)), Nulls(fields[i].value))
  {
    hide Nulls, PrintStep;
    assert fields[..i + 1][..i] == fields[..i];
    PrintedMore(path, FieldNulls(fields[..i]), Key(fields[i].name), Nulls(fields[i].value));
  }

  lemma ItemNullsNext(items: seq<Value>, i: nat, path: string)
    requires i < |items|
    ensures Printed(path, ItemNulls(items[..i + 1])) ==
      Printed(path, ItemNulls(items[..i])) + Printed(path + PrintStep(At(i)), Nulls(items[i]))
  {
    hide Nulls, PrintStep;
    assert items[..i + 1][..i] == items[..i];
    PrintedMore(path, ItemNulls(items[..i]), At(i), Nulls(items[i]));
  }

  /** Appends the printed paths of all nulls of the value to the list it is given. */
  method CollectNullPaths(v: Value, path: string, paths: seq<string>) returns (r: seq<string>)
    ensures r == paths + Printed(path, Nulls(v))
    decreases v, 0
  {
    match v {
      case Null =>
        assert PrintSteps([]) == "" && path + "" == path;
        r := paths + [path];
      case Obj(fields) => r := CollectFieldNullPaths(fields, path, paths);
      case Arr(items) => r := CollectItemNullPaths(items, path, paths);
      case _ => r := paths;
    }
  }

  method CollectFieldNullPaths(fields: seq<Field>, path: string, paths: seq<string>) returns (r: seq<string>)
    ensures r == paths + Printed(path, FieldNulls(fields))
    decreases fields, 1
  {
    hide Nulls, FieldNulls, Printed, PrintStep;
    r := paths;
    FieldNullsNone(path);
    for i := 0 to |fields|
      invariant r == paths + Printed(path, FieldNulls(fields[..i]))
    {
      r := CollectNullPaths(fields[i].value, path + PrintStep(Key(fields[i].name)), r);
      FieldNullsNext(fields, i, path);
    }
    assert fields[..|fields|] == fields;
  }

  method CollectItemNullPaths(items: seq<Value>, path: string, paths: seq<string>) returns (r: seq<string>)
    ensures r == paths + Printed(path, ItemNulls(items))
    decreases items, 1
  {
    hide Nulls, ItemNulls, Printed, PrintStep;
    r := paths;
    FieldNullsNone(path);
    for i := 0 to |items|
      invariant r == paths + Printed(path, ItemNulls(items[..i]))
    {
      r := CollectNullPaths(items[i], path + PrintStep(At(i)), r);
      ItemNullsNext(items, i, path);
    }
    assert items[..|items|] == items;
  }

  /** Field names are pairwise different at every depth, as the keys of a dictionary are. */
  ghost predicate DistinctFields(v: Value) {
    match v
    case Obj(fields) =>
      && (forall i, j :: 0 <= i < j < |fields| ==> fields[i].name != fields[j].name)
      && (forall i :: 0 <= i < |fields| ==> DistinctFields(fields[i].value))
    case Arr(items) => forall i :: 0 <= i < |items| ==> DistinctFields(items[i])
    case _ => true
  }

  lemma {:induction false} LookupAt(fields: seq<Field>, i: nat)
    requires i < |fields| && forall j, k :: 0 <= j < k < |fields| ==> fields[j].name != fields[k].name
    ensures Lookup(fields, fields[i].name) == Some(fields[i].value)
  {
    if i > 0 {
      LookupAt(fields[1..], i - 1);
    }
  }

  /** A value equals itself, so a value listed in an enum is accepted by it. */
  lemma {:induction false} SelfEqual(v: Value)
    requires DistinctFields(v)
    ensures PythonEqual(v, v)
    decreases v
  {
    match v
    case Obj(fields) =>
      forall i | 0 <= i < |fields|
        ensures Lookup(fields, fields[i].name).Some? &&
            PythonEqual(fields[i].value, Lookup(fields, fields[i].name).value)
      {
        LookupAt(fields, i);
        SelfEqual(fields[i].value);
      }
    case Arr(items) =>
      forall i | 0 <= i < |items| ensures PythonEqual(items[i], items[i]) {
        SelfEqual(items[i]);
      }
    case _ =>
  }

  lemma ListedIsAllowed(v: Value, allowed: seq<Value>)
    requires DistinctFields(v) && v in allowed
    ensures InEnum(v, allowed)
  {
    SelfEqual(v);
  }

  lemma {:induction false} FieldNullsMember(fields: seq<Field>, p: seq<Step>)
    ensures p in FieldNulls(fields) <==>
      p != [] && exists i :: 0 <= i < |fields| && p[0] == Key(fields[i].name) && p[1..] in Nulls(fields[i].value)
  {
    if fields != [] {
      var rest, last := fields[..|fields| - 1], fields[|fields| - 1];
      FieldNullsMember(rest, p);
      PrefixedMember(Key(last.name), Nulls(last.value), p);
      assert forall i :: 0 <= i < |fields| ==> i == |fields| - 1 || fields[i] == rest[i];
    }
  }

  lemma {:induction false} ItemNullsMember(items: seq<Value>, p: seq<Step>)
    ensures p in ItemNulls(items) <==>
      p != [] && exists i :: 0 <= i < |items| && p[0] == At(i) && p[1..] in Nulls(items[i])
  {
    if items != [] {
      var rest, n := items[..|items| - 1], |items| - 1;
      ItemNullsMember(rest, p);
      PrefixedMember(At(n), Nulls(items[n]), p);
      assert forall i :: 0 <= i < |items| ==> i == n || items[i] == rest[i];
    }
  }

  lemma PrefixedMember(step: Step, paths: seq<seq<Step>>, p: seq<Step>)
    ensures p in Prefixed(step, paths) <==> p != [] && p[0] == step && p[1..] in paths
  {
    if p != [] && p[0] == step && p[1..] in paths {
      var i :| 0 <= i < |paths| && paths[i] == p[1..];
      assert Prefixed(step, paths)[i] == p;
    }
  }

  /** The collector's list holds a path exactly when the value has a null there. */
  lemma {:induction false} NullsAreNulls(v: Value, p: seq<Step>)
    requires DistinctFields(v)
    ensures p in Nulls(v) <==> ValueAt(v, p) == Some(Null)
    decreases v
  {
    match v
    case Obj(fields) =>
      FieldNullsMember(fields, p);
      if p != [] && p[0].Key? && Lookup(fields, p[0].name).Some? {
        var i := LookupNamed(fields, p[0].name);
        NullsAreNulls(fields[i].value, p[1..]);
        forall j | 0 <= j < |fields| && fields[j].name == p[0].name ensures j == i {
        }
      } else if p != [] && p[0].Key? {
        forall j | 0 <= j < |fields| && fields[j].name == p[0].name ensures false {
          LookupAt(fields, j);
        }
      }
    case Arr(items) =>
      ItemNullsMember(items, p);
      if p != [] && p[0].At? && p[0].index < |items| {
        NullsAreNulls(items[p[0].index], p[1..]);
      }
    case _ =>
      assert p in Nulls(v) ==> v.Null? && p == [];
  }

  ghost predicate NoRepeats(paths: seq<seq<Step>>) {
    forall i, j :: 0 <= i < j < |paths| ==> paths[i] != paths[j]
  }

  lemma ConcatNoRepeats(a: seq<seq<Step>>, b: seq<seq<Step>>)
    requires NoRepeats(a) && NoRepeats(b) && forall p :: p in a ==> p !in b
    ensures NoRepeats(a + b)
  {
    forall i, j | 0 <= i < j < |a + b| ensures (a + b)[i] != (a + b)[j] {
      if i < |a| <= j {
        assert a[i] in a && b[j - |a|] in b;
      }
    }
  }

  lemma PrefixedNoRepeats(step: Step, paths: seq<seq<Step>>)
    requires NoRepeats(paths)
    ensures NoRepeats(Prefixed(step, paths))
  {
    forall i, j | 0 <= i < j < |paths| ensures [step] + paths[i] != [step] + paths[j] {
      assert ([step] + paths[i])[1..] == paths[i] && ([step] + paths[j])[1..] == paths[j];
    }
  }

  lemma {:induction false} FieldNullsOnce(fields: seq<Field>)
    requires forall i, j :: 0 <= i < j < |fields| ==> fields[i].name != fields[j].name
    requires forall i :: 0 <= i < |fields| ==> DistinctFields(fields[i].value)
    ensures NoRepeats(FieldNulls(fields))
    decreases fields, 0
  {
    if fields != [] {
      var rest, last := fields[..|fields| - 1], fields[|fields| - 1];
      FieldNullsOnce(rest);
      NullsOnce(last.value);
      PrefixedNoRepeats(Key(last.name), Nulls(last.value));
      forall p | p in FieldNulls(rest) ensures p !in Prefixed(Key(last.name), Nulls(last.value)) {
        FieldNullsMember(rest, p);
        PrefixedMember(Key(last.name), Nulls(last.value), p);
      }
      ConcatNoRepeats(FieldNulls(rest), Prefixed(Key(last.name), Nulls(last.value)));
    }
  }

  lemma {:induction false} ItemNullsOnce(items: seq<Value>)
    requires forall i :: 0 <= i < |items| ==> DistinctFields(items[i])
    ensures NoRepeats(ItemNulls(items))
    decreases items, 0
  {
    if items != [] {
      var rest, n := items[..|items| - 1], |items| - 1;
      ItemNullsOnce(rest);
      NullsOnce(items[n]);
      PrefixedNoRepeats(At(n), Nulls(items[n]));
      forall p | p in ItemNulls(rest) ensures p !in Prefixed(At(n), Nulls(items[n])) {
        ItemNullsMember(rest, p);
        PrefixedMember(At(n), Nulls(items[n]), p);
      }
      ConcatNoRepeats(ItemNulls(rest), Prefixed(At(n), Nulls(items[n])));
    }
  }

  /** Each null is listed once. */
  lemma {:induction false} NullsOnce(v: Value)
    requires DistinctFields(v)
    ensures NoRepeats(Nulls(v))
    decreases v, 0
  {
    match v
    case Obj(fields) => FieldNullsOnce(fields);
    case Arr(items) => ItemNullsOnce(items);
    case _ =>
  }
}
