/** The order in which the validator reports, and that it reports nothing twice. */
module IssueOrder {
  import opened Options
  import opened JsonPaths
  import opened ResultSchema
  import opened ResultIssues

  /** cuts divide a sequence into as many parts as there are, one after the other. */
  ghost predicate Divides<T>(cuts: seq<nat>, whole: seq<T>, parts: seq<seq<T>>) {
    && |cuts| == |parts| + 1 && cuts[0] == 0 && cuts[|parts|] == |whole|
    && (forall i, j :: 0 <= i <= j < |cuts| ==> cuts[i] <= cuts[j] <= |whole|)
    && (forall i :: 0 <= i < |parts| ==> whole[cuts[i]..cuts[i + 1]] == parts[i])
  }

  lemma DividesNext<T>(cuts: seq<nat>, whole: seq<T>, parts: seq<seq<T>>, more: seq<T>)
    requires Divides(cuts, whole, parts)
    ensures Divides(cuts + [|whole + more|], whole + more, parts + [more])
  {
    var all, next, last := whole + more, cuts + [|whole + more|], |parts|;
    forall i | 0 <= i < |parts| + 1 ensures all[next[i]..next[i + 1]] == (parts + [more])[i] {
      if i < last {
        assert all[next[i]..next[i + 1]] == whole[cuts[i]..cuts[i + 1]];
      }
    }
  }

  // ----- Missing fields -----

  /** Issue i is about the required name at position at[i], and exactly the missing names have an issue. */
  ghost predicate MissingAt(issues: seq<Issue>, fields: seq<Field>, required: seq<string>, path: string, at: seq<nat>) {
    && |at| == |issues|
    && (forall i :: 0 <= i < |at| ==>
          at[i] < |required| && issues[i] == Missing(path + PrintStep(Key(required[at[i]]))))
    && (forall i, j :: 0 <= i < j < |at| ==> at[i] < at[j])
    && (forall k: nat :: k < |required| ==> (k in at <==> Lookup(fields, required[k]).None?))
  }

  lemma MissingKept(issues: seq<Issue>, fields: seq<Field>, required: seq<string>, path: string, at: seq<nat>)
    requires required != [] && Lookup(fields, required[|required| - 1]).Some?
    requires MissingAt(issues, fields, required[..|required| - 1], path, at)
    ensures MissingAt(issues, fields, required, path, at)
  {
    hide PrintStep, Lookup;
  }

  lemma MissingNext(issues: seq<Issue>, fields: seq<Field>, required: seq<string>, path: string, at: seq<nat>)
    requires required != [] && Lookup(fields, required[|required| - 1]).None?
    requires MissingAt(issues, fields, required[..|required| - 1], path, at)
    ensures var n := |required| - 1;
      MissingAt(issues + [Missing(path + PrintStep(Key(required[n])))], fields, required, path, at + [n])
  {
    hide PrintStep, Lookup;
  }

  /** Missing fields are reported in the order the schema requires them, one issue for each mention. */
  lemma {:induction false} MissingOrder(fields: seq<Field>, required: seq<string>, path: string) returns (at: seq<nat>)
    ensures MissingAt(MissingIssues(fields, required, path), fields, required, path, at)
  {
    hide PrintStep, Lookup, MissingAt;
    if required == [] {
      at := [];
      NothingMissing(fields, path);
    } else {
      var n := |required| - 1;
      at := MissingOrder(fields, required[..n], path);
      var before := MissingIssues(fields, required[..n], path);
      if Lookup(fields, required[n]).None? {
        MissingNext(before, fields, required, path, at);
        at := at + [n];
      } else {
        MissingKept(before, fields, required, path, at);
        assert before + [] == before;
      }
    }
  }

  lemma NothingMissing(fields: seq<Field>, path: string)
    ensures MissingAt([], fields, [], path, [])
  {
  }

  // ----- Properties and items -----

  function PropertyParts(fields: seq<Field>, props: seq<Property>, path: string): (r: seq<seq<Issue>>)
    ensures |r| == |props| && forall i :: 0 <= i < |r| ==> r[i] == PropertyPart(fields, props[i], path)
  {
    seq(|props|, i requires 0 <= i < |props| => PropertyPart(fields, props[i], path))
  }

  function ItemParts(items: seq<Value>, s: Schema, path: string): (r: seq<seq<Issue>>)
    ensures |r| == |items| && forall i :: 0 <= i < |r| ==> r[i] == Issues(items[i], s, path + PrintStep(At(i)))
  {
    seq(|items|, i requires 0 <= i < |items| => Issues(items[i], s, path + PrintStep(At(i))))
  }

  /** The issues of the properties follow one another in the order of the schema. */
  lemma {:induction false} PropertyOrder(fields: seq<Field>, props: seq<Property>, path: string)
    returns (cuts: seq<nat>)
    ensures Divides(cuts, PropertyIssues(fields, props, path), PropertyParts(fields, props, path))
  {
    hide Divides, PropertyPart;
    if props == [] {
      cuts := [0];
      DividesNone<Issue>();
    } else {
      var n := |props| - 1;
      var before, part := PropertyIssues(fields, props[..n], path), PropertyPart(fields, props[n], path);
      cuts := PropertyOrder(fields, props[..n], path);
      DividesNext(cuts, before, PropertyParts(fields, props[..n], path), part);
      cuts := cuts + [|before + part|];
      PropertyLast(fields, props, path);
      assert PropertyParts(fields, props[..n], path) + [part] == PropertyParts(fields, props, path);
    }
  }

  lemma PropertyLast(fields: seq<Field>, props: seq<Property>, path: string)
    requires props != []
    ensures var n := |props| - 1;
      PropertyIssues(fields, props, path) ==
        PropertyIssues(fields, props[..n], path) + PropertyPart(fields, props[n], path)
  {
  }

  lemma DividesNone<T>()
    ensures Divides<T>([0], [], [])
  {
  }

  /** The issues of the items follow one another in the order of the array. */
  lemma {:induction false} ItemOrder(items: seq<Value>, s: Schema, path: string) returns (cuts: seq<nat>)
    ensures Divides(cuts, ArrayIssues(items, s, path), ItemParts(items, s, path))
  {
    hide Divides, Issues, PrintStep;
    if items == [] {
      cuts := [0];
      DividesNone<Issue>();
    } else {
      var n := |items| - 1;
      var before, part := ArrayIssues(items[..n], s, path), Issues(items[n], s, path + PrintStep(At(n)));
      cuts := ItemOrder(items[..n], s, path);
      DividesNext(cuts, before, ItemParts(items[..n], s, path), part);
      cuts := cuts + [|before + part|];
      assert ItemParts(items[..n], s, path) + [part] == ItemParts(items, s, path);
    }
  }

  function Extras(names: seq<string>, path: string): seq<Issue> {
    seq(|names|, k requires 0 <= k < |names| => Extra(path + PrintStep(Key(names[k]))))
  }

  /** An object's issues are an enum issue if any, then missing fields, then extra ones in code-point order if the
      object is closed, then those of the properties. */
  lemma ObjectOrder(v: Value, s: Schema, path: string) returns (names: seq<string>)
    requires s.Schema? && s.typeName == "object" && v.Obj?
    ensures InOrder(names)
    ensures forall n :: n in names <==>
      s.closed && exists i :: 0 <= i < |v.fields| && v.fields[i].name == n && FindProperty(s.properties, n).None?
    ensures Issues(v, s, path) ==
      (if s.enum.Some? && !InEnum(v, s.enum.value) then [BadEnum(path, s.enum.value)] else []) +
      MissingIssues(v.fields, s.required, path) +
      Extras(names, path) +
      PropertyIssues(v.fields, s.properties, path)
  {
    names := ExtraOrder(v.fields, s, path);
    IssuesOfObject(v, s, path);
    hide Issues, ObjectIssues, MissingIssues, PropertyIssues, ExtraIssues, Sorted, ExtraNames, Extras, InEnum, InOrder,
      FindProperty;
    Joined(EnumIssues(v, s, path), MissingIssues(v.fields, s.required, path), Extras(names, path),
      PropertyIssues(v.fields, s.properties, path));
  }

  lemma Joined(a: seq<Issue>, b: seq<Issue>, c: seq<Issue>, d: seq<Issue>)
    ensures a + (b + c + d) == a + b + c + d
  {
  }

  lemma IssuesOfObject(v: Value, s: Schema, path: string)
    requires s.Schema? && s.typeName == "object" && v.Obj?
    ensures Issues(v, s, path) == EnumIssues(v, s, path) + (
      MissingIssues(v.fields, s.required, path) +
      (if s.closed then ExtraIssues(Sorted(ExtraNames(v.fields, s.properties)), path) else []) +
      PropertyIssues(v.fields, s.properties, path))
  {
    hide EnumIssues, MissingIssues, PropertyIssues, ExtraIssues, Sorted, ExtraNames;
    assert MatchesType(v, s.typeName);
  }

  lemma ExtraOrder(fields: seq<Field>, s: Schema, path: string) returns (names: seq<string>)
    requires s.Schema?
    ensures InOrder(names)
    ensures forall n :: n in names <==>
      s.closed && exists i :: 0 <= i < |fields| && fields[i].name == n && FindProperty(s.properties, n).None?
    ensures (if s.closed then ExtraIssues(Sorted(ExtraNames(fields, s.properties)), path) else []) ==
      Extras(names, path)
  {
    hide ExtraIssues, Sorted, ExtraNames, FindProperty, PrintStep;
    if s.closed {
      names := ExtrasReported(fields, s.properties, path);
    } else {
      names := [];
    }
  }
}
