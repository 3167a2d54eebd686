/** Where the validator's issues sit: exactly at the places it reaches where a value fails its schema node. */
module IssuePlaces {
  import opened Options
  import opened JsonPaths
  import opened ResultSchema
  import opened ResultIssues

  // ----- Where an issue sits -----

  function ValueAt(v: Value, steps: seq<Step>): Option<Value>
    decreases |steps|
  {
    if steps == [] then Some(v)
    else
      match steps[0]
      case Key(name) =>
        if v.Obj? && Lookup(v.fields, name).Some? then ValueAt(Lookup(v.fields, name).value, steps[1..]) else None
      case At(i) =>
        if v.Arr? && i < |v.items| then ValueAt(v.items[i], steps[1..]) else None
  }

  const EMPTY := Schema("", None, [], [], false, Any)

  /** One step of the lookup of the repair hints: an index takes `items` whatever the type says. */
  function Below(s: Schema, step: Step): Schema {
    if s.Any? then Any
    else
      match step
      case At(_) => s.items
      case Key(name) =>
        match FindProperty(s.properties, name)
        case Some(p) => p
        case None => Any
  }

  function Descend(s: Schema, steps: seq<Step>): Schema
    decreases |steps|
  {
    if steps == [] then s else Descend(Below(s, steps[0]), steps[1..])
  }

  /** The schema node found along the steps; anything that is no object reads as the empty schema. */
  function NodeAt(s: Schema, steps: seq<Step>): Schema {
    if Descend(s, steps).Any? then EMPTY else Descend(s, steps)
  }

  lemma {:induction false} DescendAny(steps: seq<Step>)
    ensures Descend(Any, steps) == Any
    decreases |steps|
  {
    if steps != [] {
      DescendAny(steps[1..]);
    }
  }

  method SchemaNodeAtPath(s: Schema, path: string) returns (node: Schema)
    ensures node == NodeAt(s, Segments(path))
  {
    var segments := PathSegments(path);
    node := s;
    for i := 0 to |segments|
      invariant Descend(node, segments[i..]) == Descend(s, segments)
    {
      if node.Any? {
        DescendAny(segments[i..]);
        return EMPTY;
      }
      assert segments[i..][1..] == segments[i + 1..];
      node := Below(node, segments[i]);
    }
    if node.Any? {
      node := EMPTY;
    }
  }

  /** Property names are pairwise different, as the keys of a JSON object are, at every depth. */
  ghost predicate DistinctProperties(s: Schema) {
    s.Any? ||
    (&& (forall i, j :: 0 <= i < j < |s.properties| ==> s.properties[i].name != s.properties[j].name)
     && (forall i :: 0 <= i < |s.properties| ==> DistinctProperties(s.properties[i].schema))
     && DistinctProperties(s.items))
  }

  ghost predicate GoodProperties(s: Schema) {
    s.Any? ||
    (&& (forall i :: 0 <= i < |s.properties| ==>
           GoodName(s.properties[i].name) && GoodProperties(s.properties[i].schema))
     && GoodProperties(s.items))
  }

  lemma {:induction false} FindDistinct(props: seq<Property>, i: nat)
    requires i < |props| && forall j, k :: 0 <= j < k < |props| ==> props[j].name != props[k].name
    ensures FindProperty(props, props[i].name) == Some(props[i].schema)
  {
    if i > 0 {
      FindDistinct(props[1..], i - 1);
    }
  }

  /** The validator walks down these steps: typed objects through declared properties that are present, typed arrays
      through items. */
  ghost predicate Enters(v: Value, s: Schema, steps: seq<Step>)
    decreases |steps|
  {
    steps == [] ||
    (s.Schema? &&
     match steps[0]
     case Key(name) =>
       && s.typeName == "object" && v.Obj?
       && FindProperty(s.properties, name).Some? && Lookup(v.fields, name).Some?
       && Enters(Lookup(v.fields, name).value, FindProperty(s.properties, name).value, steps[1..])
     case At(i) =>
       s.typeName == "array" && v.Arr? && i < |v.items| && Enters(v.items[i], s.items, steps[1..]))
  }

  /** What is wrong with the value itself, by the schema node it is held against. */
  ghost predicate Here(issue: Issue, v: Value, s: Schema, path: string) {
    s.Schema? &&
    match issue
    case BadType(p, expected, got) =>
      && p == path && expected == s.typeName && got == TypeName(v)
      && s.typeName != "" && !MatchesType(v, s.typeName)
    case BadEnum(p, allowed) =>
      && p == path && s.enum == Some(allowed) && !InEnum(v, allowed)
      && (s.typeName == "" || MatchesType(v, s.typeName))
    case Missing(p) =>
      && s.typeName == "object" && v.Obj?
      && exists name :: name in s.required && Lookup(v.fields, name).None? && p == path + PrintStep(Key(name))
    case Extra(p) =>
      && s.typeName == "object" && v.Obj? && s.closed
      && exists name :: Lookup(v.fields, name).Some? && FindProperty(s.properties, name).None? &&
          p == path + PrintStep(Key(name))
  }

  /** The validator reaches `steps`, and the value there fails the schema node there in the way the issue says. */
  ghost predicate Complains(issue: Issue, v: Value, s: Schema, prefix: seq<Step>, steps: seq<Step>) {
    && Enters(v, s, steps)
    && ValueAt(v, steps).Some? && Here(issue, ValueAt(v, steps).value, NodeAt(s, steps), Print(prefix + steps))
  }

  lemma ComplainsBelow(issue: Issue, v: Value, w: Value, s: Schema, prefix: seq<Step>, step: Step, steps: seq<Step>)
    requires Complains(issue, w, Below(s, step), prefix + [step], steps)
    requires s.Schema? && ValueAt(v, [step]) == Some(w) && Enters(v, s, [step])
    ensures Complains(issue, v, s, prefix, [step] + steps)
  {
    hide ValueAt, NodeAt, Here;
    StepFirst(v, w, s, step, steps);
    assert prefix + [step] + steps == prefix + ([step] + steps);
    assert ([step] + steps)[1..] == steps;
    assert ValueAt(v, [step]) == Some(if step.Key? then Lookup(v.fields, step.name).value else v.items[step.index]) by {
      StepValue(v, s, step);
    }
  }

  lemma StepValue(v: Value, s: Schema, step: Step)
    requires s.Schema? && Enters(v, s, [step])
    ensures ValueAt(v, [step]) == Some(if step.Key? then Lookup(v.fields, step.name).value else v.items[step.index])
  {
    assert [step][1..] == [];
  }

  lemma StepFirst(v: Value, w: Value, s: Schema, step: Step, steps: seq<Step>)
    requires ValueAt(v, [step]) == Some(w)
    ensures ValueAt(v, [step] + steps) == ValueAt(w, steps) &&
        NodeAt(s, [step] + steps) == NodeAt(Below(s, step), steps)
  {
    assert ([step] + steps)[1..] == steps && [step][1..] == [];
  }

  lemma LookupSome(fields: seq<Field>, i: nat)
    requires i < |fields|
    ensures Lookup(fields, fields[i].name).Some?
  {
    if i > 0 && fields[0].name != fields[i].name {
      LookupSome(fields[1..], i - 1);
    }
  }

  lemma ComplainsHere(issue: Issue, v: Value, s: Schema, prefix: seq<Step>)
    requires Here(issue, v, s, Print(prefix))
    ensures Complains(issue, v, s, prefix, [])
  {
    assert prefix + [] == prefix;
  }

  lemma LocateHere(v: Value, s: Schema, path: string, issue: Issue)
    requires s.Schema? && v.Obj? && s.typeName == "object"
    requires issue in MissingIssues(v.fields, s.required, path) ||
      (s.closed && issue in ExtraIssues(Sorted(ExtraNames(v.fields, s.properties)), path))
    ensures Here(issue, v, s, path)
  {
    hide Lookup, FindProperty, MissingIssues, ExtraIssues, Sorted, ExtraNames, PrintStep;
    if issue in MissingIssues(v.fields, s.required, path) {
      var name := MissingSource(v.fields, s.required, path, issue);
    } else {
      var names := ExtraNames(v.fields, s.properties);
      var name := ExtraSource(Sorted(names), path, issue);
      SortedMember(names, name);
      ExtraNamesMember(v.fields, s.properties, name);
      var j :| 0 <= j < |v.fields| && v.fields[j].name == name;
      LookupSome(v.fields, j);
    }
  }

  /** Each issue names a place the validator reaches, where the value fails the schema node the hints look up. */
  lemma {:induction false} Locate(v: Value, s: Schema, prefix: seq<Step>, issue: Issue) returns (steps: seq<Step>)
    requires DistinctProperties(s) && issue in Issues(v, s, Print(prefix))
    ensures Complains(issue, v, s, prefix, steps)
    ensures GoodProperties(s) ==> forall i :: 0 <= i < |steps| ==> GoodStep(steps[i])
    decreases v, 1
  {
    hide PropertyIssues, ArrayIssues, MissingIssues, ExtraIssues, DistinctProperties, GoodProperties, Complains, Print;
    steps := [];
    if s.typeName == "object" && v.Obj? && issue in PropertyIssues(v.fields, s.properties, Print(prefix)) {
      steps := LocateInProperty(v, s, prefix, issue);
    } else if s.typeName == "array" && v.Arr? && issue in ArrayIssues(v.items, s.items, Print(prefix)) {
      steps := LocateInItem(v, s, prefix, issue);
    } else {
      LocateTop(v, s, Print(prefix), issue);
      ComplainsHere(issue, v, s, prefix);
    }
  }

  lemma LocateTop(v: Value, s: Schema, path: string, issue: Issue)
    requires issue in Issues(v, s, path)
    requires s.Schema? && s.typeName == "object" && v.Obj? ==> issue !in PropertyIssues(v.fields, s.properties, path)
    requires s.Schema? && s.typeName == "array" && v.Arr? ==> issue !in ArrayIssues(v.items, s.items, path)
    ensures Here(issue, v, s, path)
  {
    hide PropertyIssues, ArrayIssues, MissingIssues, ExtraIssues, Sorted, ExtraNames;
    if (s.typeName == "" || MatchesType(v, s.typeName)) && issue !in EnumIssues(v, s, path) {
      LocateHere(v, s, path, issue);
    }
  }

  lemma {:induction false} LocateInProperty(v: Value, s: Schema, prefix: seq<Step>, issue: Issue)
    returns (steps: seq<Step>)
    requires DistinctProperties(s) && s.Schema? && v.Obj? && s.typeName == "object"
    requires issue in PropertyIssues(v.fields, s.properties, Print(prefix))
    ensures Complains(issue, v, s, prefix, steps)
    ensures GoodProperties(s) ==> forall i :: 0 <= i < |steps| ==> GoodStep(steps[i])
    decreases v, 0
  {
    hide Complains, Issues, PropertyIssues;
    var i := PropertySource(v.fields, s.properties, Print(prefix), issue);
    var step := Key(s.properties[i].name);
    PrintExtend(prefix, step);
    FindDistinct(s.properties, i);
    var w := Lookup(v.fields, step.name).value;
    var rest := Locate(w, s.properties[i].schema, prefix + [step], issue);
    EnterStep(v, s, step);
    ComplainsBelow(issue, v, w, s, prefix, step, rest);
    steps := [step] + rest;
  }

  lemma EnterStep(v: Value, s: Schema, step: Step)
    requires s.Schema?
    requires step.Key? ==>
      s.typeName == "object" && v.Obj? && FindProperty(s.properties, step.name).Some? &&
        Lookup(v.fields, step.name).Some?
    requires step.At? ==> s.typeName == "array" && v.Arr? && step.index < |v.items|
    ensures Enters(v, s, [step])
    ensures ValueAt(v, [step]) == Some(if step.Key? then Lookup(v.fields, step.name).value else v.items[step.index])
  {
    assert [step][1..] == [];
  }

  lemma {:induction false} LocateInItem(v: Value, s: Schema, prefix: seq<Step>, issue: Issue) returns (steps: seq<Step>)
    requires DistinctProperties(s) && s.Schema? && v.Arr? && s.typeName == "array"
    requires issue in ArrayIssues(v.items, s.items, Print(prefix))
    ensures Complains(issue, v, s, prefix, steps)
    ensures GoodProperties(s) ==> forall i :: 0 <= i < |steps| ==> GoodStep(steps[i])
    decreases v, 0
  {
    hide Complains, Issues, ArrayIssues;
    var i := ItemSource(v.items, s.items, Print(prefix), issue);
    var step := At(i);
    PrintExtend(prefix, step);
    var rest := Locate(v.items[i], s.items, prefix + [step], issue);
    EnterStep(v, s, step);
    ComplainsBelow(issue, v, v.items[i], s, prefix, step, rest);
    steps := [step] + rest;
  }

  // ----- Nothing goes unreported -----

  lemma {:induction false} MissingHas(fields: seq<Field>, required: seq<string>, path: string, name: string)
    requires name in required && Lookup(fields, name).None?
    ensures Missing(path + PrintStep(Key(name))) in MissingIssues(fields, required, path)
  {
    var n := |required| - 1;
    if required[n] != name {
      assert required == required[..n] + [required[n]];
      MissingHas(fields, required[..n], path, name);
    }
  }

  lemma {:induction false} LookupNamed(fields: seq<Field>, name: string) returns (i: nat)
    requires Lookup(fields, name).Some?
    ensures i < |fields| && fields[i].name == name && Lookup(fields, name) == Some(fields[i].value)
  {
    if fields[0].name == name {
      i := 0;
    } else {
      i := LookupNamed(fields[1..], name);
      i := i + 1;
    }
  }

  lemma ExtraHas(fields: seq<Field>, props: seq<Property>, path: string, name: string)
    requires Lookup(fields, name).Some? && FindProperty(props, name).None?
    ensures Extra(path + PrintStep(Key(name))) in ExtraIssues(Sorted(ExtraNames(fields, props)), path)
  {
    hide Lookup, FindProperty, ExtraIssues, Sorted, ExtraNames, PrintStep;
    var i := LookupNamed(fields, name);
    var names := Sorted(ExtraNames(fields, props));
    ExtraNamesMember(fields, props, name);
    SortedMember(ExtraNames(fields, props), name);
    ExtraIssuesAre(names, path);
    var k :| 0 <= k < |names| && names[k] == name;
    assert ExtraIssues(names, path)[k] == Extra(path + PrintStep(Key(name)));
  }

  lemma HereReported(v: Value, s: Schema, path: string, issue: Issue)
    requires Here(issue, v, s, path)
    ensures issue in Issues(v, s, path)
  {
    hide PropertyIssues, ArrayIssues, MissingIssues, ExtraIssues, Sorted, ExtraNames, Lookup, FindProperty;
    match issue
    case Missing(p) =>
      var name :| name in s.required && Lookup(v.fields, name).None? && p == path + PrintStep(Key(name));
      MissingHas(v.fields, s.required, path, name);
    case Extra(p) =>
      var name :| Lookup(v.fields, name).Some? && FindProperty(s.properties, name).None? &&
        p == path + PrintStep(Key(name));
      ExtraHas(v.fields, s.properties, path, name);
    case _ =>
  }

  lemma {:induction false} FindFrom(props: seq<Property>, name: string)
    ensures FindProperty(props, name).Some? <==> exists j :: 0 <= j < |props| && props[j].name == name
    ensures FindProperty(props, name).Some? ==>
      exists j :: 0 <= j < |props| && props[j].name == name && props[j].schema == FindProperty(props, name).value
  {
    if props != [] {
      FindFrom(props[1..], name);
      assert forall j :: 1 <= j < |props| ==> props[j] == props[1..][j - 1];
    }
  }

  lemma InObject(v: Value, s: Schema, path: string, issue: Issue)
    requires s.Schema? && s.typeName == "object" && v.Obj? && issue in PropertyIssues(v.fields, s.properties, path)
    ensures issue in Issues(v, s, path)
  {
    hide PropertyIssues, MissingIssues, ExtraIssues;
  }

  lemma InArray(v: Value, s: Schema, path: string, issue: Issue)
    requires s.Schema? && s.typeName == "array" && v.Arr? && issue in ArrayIssues(v.items, s.items, path)
    ensures issue in Issues(v, s, path)
  {
    hide ArrayIssues;
  }

  lemma TopHere(v: Value, s: Schema, path: string, issue: Issue)
    requires Here(issue, v, NodeAt(s, []), path)
    ensures Here(issue, v, s, path)
  {
  }

  /** Whatever is wrong at a place the validator reaches is reported. */
  lemma {:induction false} Reported(v: Value, s: Schema, prefix: seq<Step>, steps: seq<Step>, issue: Issue)
    requires Complains(issue, v, s, prefix, steps)
    ensures issue in Issues(v, s, Print(prefix))
    decreases |steps|
  {
    hide Here, Issues, PropertyIssues, ArrayIssues, FindProperty, Lookup;
    if steps == [] {
      assert prefix + [] == prefix;
      TopHere(v, s, Print(prefix), issue);
      HereReported(v, s, Print(prefix), issue);
    } else {
      var step, rest := steps[0], steps[1..];
      assert steps == [step] + rest && prefix + [step] + rest == prefix + steps;
      PrintExtend(prefix, step);
      EnterStep(v, s, step);
      match step
      case Key(name) =>
        var w := Lookup(v.fields, name).value;
        FindFrom(s.properties, name);
        var j :| 0 <= j < |s.properties| && s.properties[j].name == name &&
          s.properties[j].schema == FindProperty(s.properties, name).value;
        StepFirst(v, w, s, step, rest);
        Reported(w, s.properties[j].schema, prefix + [step], rest, issue);
        PropertyHas(v.fields, s.properties, Print(prefix), j, issue);
        InObject(v, s, Print(prefix), issue);
      case At(i) =>
        StepFirst(v, v.items[i], s, step, rest);
        Reported(v.items[i], s.items, prefix + [step], rest, issue);
        ItemHas(v.items, s.items, Print(prefix), i, issue);
        InArray(v, s, Print(prefix), issue);
    }
  }

  /** The issues are exactly the complaints at the places the validator reaches. */
  lemma IssuesAreComplaints(v: Value, s: Schema, issue: Issue)
    requires DistinctProperties(s)
    ensures issue in Issues(v, s, "$") <==> exists steps :: Complains(issue, v, s, [], steps)
  {
    hide Complains, Issues;
    assert Print([]) == "$";
    if issue in Issues(v, s, "$") {
      var steps := Locate(v, s, [], issue);
    }
    if steps :| Complains(issue, v, s, [], steps) {
      Reported(v, s, [], steps, issue);
    }
  }

  /** For type and enum issues, reading the printed path back finds the value that was rejected and
      the schema node that rejected it. */
  lemma IssueReadBack(v: Value, s: Schema, issue: Issue)
    requires DistinctProperties(s) && GoodProperties(s)
    requires issue in Issues(v, s, "$") && (issue.BadType? || issue.BadEnum?)
    ensures Complains(issue, v, s, [], Segments(issue.path))
    ensures issue.path == Print(Segments(issue.path))
  {
    assert Print([]) == "$";
    var steps := Locate(v, s, [], issue);
    assert [] + steps == steps;
    PathReadBack(steps);
  }
}
