/** What the validator's issues mean: none exactly for conforming results, and extra names in order. */
module ResultIssues {
  import opened Options
  import opened JsonPaths
  import opened ResultSchema

  // ----- Silence means conformance -----

  /** A result conforms to a schema, said without reports or order. */
  ghost predicate Conforms(v: Value, s: Schema)
    decreases v, 1
  {
    s.Any? ||
    (&& (s.typeName == "" || MatchesType(v, s.typeName))
     && (s.enum.Some? ==> InEnum(v, s.enum.value))
     && (s.typeName == "object" && v.Obj? ==> ObjectConforms(v.fields, s))
     && (s.typeName == "array" && v.Arr? ==> forall i :: 0 <= i < |v.items| ==> Conforms(v.items[i], s.items)))
  }

  ghost predicate ObjectConforms(fields: seq<Field>, s: Schema)
    requires s.Schema?
    decreases fields, 0
  {
    && (forall i :: 0 <= i < |s.required| ==> Lookup(fields, s.required[i]).Some?)
    && (s.closed ==> forall i :: 0 <= i < |fields| ==> FindProperty(s.properties, fields[i].name).Some?)
    && (forall i :: 0 <= i < |s.properties| ==>
          var w := Lookup(fields, s.properties[i].name);
          w.Some? ==> Conforms(w.value, s.properties[i].schema))
  }

  lemma {:induction false} MissingSource(fields: seq<Field>, required: seq<string>, path: string, issue: Issue)
    returns (name: string)
    requires issue in MissingIssues(fields, required, path)
    ensures name in required && Lookup(fields, name).None? && issue == Missing(path + PrintStep(Key(name)))
  {
    var rest := required[..|required| - 1];
    if issue in MissingIssues(fields, rest, path) {
      name := MissingSource(fields, rest, path, issue);
    } else {
      name := required[|required| - 1];
    }
  }

  lemma {:induction false} ExtraNamesMember(fields: seq<Field>, props: seq<Property>, name: string)
    ensures name in ExtraNames(fields, props) <==>
      exists i :: 0 <= i < |fields| && fields[i].name == name && FindProperty(props, name).None?
  {
    if fields != [] {
      ExtraNamesMember(fields[..|fields| - 1], props, name);
    }
  }

  lemma SortedMember(names: seq<string>, name: string)
    ensures name in Sorted(names) <==> name in names
  {
    assert name in multiset(Sorted(names)) <==> name in multiset(names);
  }

  lemma {:induction false} ExtraSource(names: seq<string>, path: string, issue: Issue) returns (name: string)
    requires issue in ExtraIssues(names, path)
    ensures name in names && issue == Extra(path + PrintStep(Key(name)))
  {
    var rest := names[..|names| - 1];
    if issue in ExtraIssues(rest, path) {
      name := ExtraSource(rest, path, issue);
    } else {
      name := names[|names| - 1];
    }
  }

  // ----- The order of extra names -----

  lemma {:induction false} PrecedesTotal(s: string, t: string)
    ensures Precedes(s, t) || Precedes(t, s)
  {
    if s != "" && t != "" && s[0] == t[0] {
      PrecedesTotal(s[1..], t[1..]);
    }
  }

  lemma {:induction false} PrecedesTrans(s: string, t: string, u: string)
    requires Precedes(s, t) && Precedes(t, u)
    ensures Precedes(s, u)
  {
    if s != "" && t != "" && u != "" && s[0] == t[0] == u[0] {
      PrecedesTrans(s[1..], t[1..], u[1..]);
    }
  }

  ghost predicate InOrder(names: seq<string>) {
    forall i, j :: 0 <= i < j < |names| ==> Precedes(names[i], names[j])
  }

  lemma {:induction false} InsertInOrder(name: string, names: seq<string>)
    requires InOrder(names)
    ensures InOrder(Insert(name, names))
  {
    hide Precedes;
    if names != [] {
      var first := names[0];
      PrecedesTotal(name, first);
      if Precedes(name, first) {
        forall j | 0 < j < |names| ensures Precedes(name, names[j]) {
          PrecedesTrans(name, first, names[j]);
        }
      } else {
        InsertInOrder(name, names[1..]);
        var rest := Insert(name, names[1..]);
        forall n | n in rest ensures Precedes(first, n) {
          assert n in multiset(rest);
          assert n == name || n in names[1..];
        }
      }
    }
  }

  lemma {:induction false} SortedInOrder(names: seq<string>)
    ensures InOrder(Sorted(names))
  {
    if names != [] {
      SortedInOrder(names[1..]);
      InsertInOrder(names[0], Sorted(names[1..]));
    }
  }

  lemma {:induction false} ExtraIssuesAre(names: seq<string>, path: string)
    ensures |ExtraIssues(names, path)| == |names|
    ensures forall k :: 0 <= k < |names| ==> ExtraIssues(names, path)[k] == Extra(path + PrintStep(Key(names[k])))
  {
    hide PrintStep;
    if names != [] {
      ExtraIssuesAre(names[..|names| - 1], path);
    }
  }

  /** The names a closed object may not have are each reported once per occurrence, in code-point order. */
  lemma ExtrasReported(fields: seq<Field>, props: seq<Property>, path: string) returns (names: seq<string>)
    ensures InOrder(names) && multiset(names) == multiset(ExtraNames(fields, props))
    ensures forall n :: n in names <==>
      exists i :: 0 <= i < |fields| && fields[i].name == n && FindProperty(props, n).None?
    ensures var issues := ExtraIssues(Sorted(ExtraNames(fields, props)), path);
      |issues| == |names| && forall k :: 0 <= k < |names| ==> issues[k] == Extra(path + PrintStep(Key(names[k])))
  {
    hide Sorted, ExtraNames, ExtraIssues, FindProperty;
    names := Sorted(ExtraNames(fields, props));
    SortedInOrder(ExtraNames(fields, props));
    ExtraIssuesAre(names, path);
    forall n: string
      ensures n in names <==> exists i :: 0 <= i < |fields| && fields[i].name == n && FindProperty(props, n).None?
    {
      SortedMember(ExtraNames(fields, props), n);
      ExtraNamesMember(fields, props, n);
    }
  }

  function PropertyPart(fields: seq<Field>, p: Property, path: string): seq<Issue> {
    var w := Lookup(fields, p.name);
    if w.Some? then Issues(w.value, p.schema, path + PrintStep(Key(p.name))) else []
  }

  lemma {:induction false} PropertySource(fields: seq<Field>, props: seq<Property>, path: string, issue: Issue)
    returns (i: nat)
    requires issue in PropertyIssues(fields, props, path)
    ensures i < |props| && issue in PropertyPart(fields, props[i], path)
  {
    hide Issues, Lookup, PrintStep;
    var rest := props[..|props| - 1];
    if issue in PropertyIssues(fields, rest, path) {
      i := PropertySource(fields, rest, path, issue);
    } else {
      i := |props| - 1;
    }
  }

  lemma {:induction false} PropertyHas(fields: seq<Field>, props: seq<Property>, path: string, i: nat, issue: Issue)
    requires i < |props| && issue in PropertyPart(fields, props[i], path)
    ensures issue in PropertyIssues(fields, props, path)
  {
    if i < |props| - 1 {
      PropertyHas(fields, props[..|props| - 1], path, i, issue);
    }
  }

  lemma {:induction false} ItemSource(items: seq<Value>, s: Schema, path: string, issue: Issue) returns (i: nat)
    requires issue in ArrayIssues(items, s, path)
    ensures i < |items| && issue in Issues(items[i], s, path + PrintStep(At(i)))
  {
    var rest := items[..|items| - 1];
    if issue in ArrayIssues(rest, s, path) {
      i := ItemSource(rest, s, path, issue);
    } else {
      i := |items| - 1;
    }
  }

  lemma {:induction false} ItemHas(items: seq<Value>, s: Schema, path: string, i: nat, issue: Issue)
    requires i < |items| && issue in Issues(items[i], s, path + PrintStep(At(i)))
    ensures issue in ArrayIssues(items, s, path)
  {
    if i < |items| - 1 {
      ItemHas(items[..|items| - 1], s, path, i, issue);
    }
  }

  lemma {:induction false} MissingSilent(fields: seq<Field>, required: seq<string>, path: string)
    ensures MissingIssues(fields, required, path) == [] <==>
      forall i :: 0 <= i < |required| ==> Lookup(fields, required[i]).Some?
  {
    if required != [] {
      MissingSilent(fields, required[..|required| - 1], path);
    }
  }

  lemma ExtraSilent(fields: seq<Field>, props: seq<Property>, path: string)
    ensures ExtraIssues(Sorted(ExtraNames(fields, props)), path) == [] <==>
      forall i :: 0 <= i < |fields| ==> FindProperty(props, fields[i].name).Some?
  {
    var names := ExtraNames(fields, props);
    if i :| 0 <= i < |fields| && FindProperty(props, fields[i].name).None? {
      ExtraNamesMember(fields, props, fields[i].name);
      SortedMember(names, fields[i].name);
    }
    if Sorted(names) != [] {
      SortedMember(names, Sorted(names)[0]);
      ExtraNamesMember(fields, props, Sorted(names)[0]);
    }
  }

  lemma {:induction false} PropertiesSilent(fields: seq<Field>, props: seq<Property>, path: string)
    ensures PropertyIssues(fields, props, path) == [] <==>
      forall i :: 0 <= i < |props| ==>
        var w := Lookup(fields, props[i].name);
        w.Some? ==> Conforms(w.value, props[i].schema)
    decreases fields, |props|
  {
    if props != [] {
      var last := props[|props| - 1];
      PropertiesSilent(fields, props[..|props| - 1], path);
      var w := Lookup(fields, last.name);
      if w.Some? {
        SilentIffConforms(w.value, last.schema, path + PrintStep(Key(last.name)));
      }
      assert forall i :: 0 <= i < |props| ==> i == |props| - 1 || props[i] == props[..|props| - 1][i];
    }
  }

  lemma {:induction false} ItemsSilent(items: seq<Value>, s: Schema, path: string)
    ensures ArrayIssues(items, s, path) == [] <==> forall i :: 0 <= i < |items| ==> Conforms(items[i], s)
    decreases items, 0
  {
    hide Issues, Conforms, PrintStep;
    if items != [] {
      var rest, n := items[..|items| - 1], |items| - 1;
      ItemsSilent(rest, s, path);
      SilentIffConforms(items[n], s, path + PrintStep(At(n)));
      assert forall i :: 0 <= i < n ==> items[i] == rest[i];
    }
  }

  lemma {:induction false} ObjectSilent(fields: seq<Field>, s: Schema, path: string)
    requires s.Schema?
    ensures ObjectIssues(fields, s, path) == [] <==> ObjectConforms(fields, s)
    decreases fields, |s.properties| + 1
  {
    hide Lookup, FindProperty, Sorted, ExtraNames, Conforms;
    MissingSilent(fields, s.required, path);
    ExtraSilent(fields, s.properties, path);
    PropertiesSilent(fields, s.properties, path);
  }

  /** The validator reports nothing exactly for the results that conform. */
  lemma {:induction false} SilentIffConforms(v: Value, s: Schema, path: string)
    ensures Issues(v, s, path) == [] <==> Conforms(v, s)
    decreases v, 0
  {
    hide ObjectIssues, ObjectConforms, ArrayIssues, MatchesType, InEnum;
    if s.Schema? && (s.typeName == "" || MatchesType(v, s.typeName)) {
      if s.typeName == "object" && v.Obj? {
        ObjectSilent(v.fields, s, path);
      } else if s.typeName == "array" && v.Arr? {
        ItemsSilent(v.items, s.items, path);
      }
    }
  }
}
