/** What filling the nulls of a scaffold achieves, and what the validator says before they are filled. */
module ScaffoldFill {
  import opened Options
  import opened JsonPaths
  import opened ResultSchema
  import opened ResultIssues
  import opened IssuePlaces
  import opened ResultScaffold

  // ----- The scaffold of an object, field by field -----

  lemma {:induction false} ScaffoldField(s: Schema, names: seq<string>, i: nat)
    requires s.Schema? && i < |names|
    ensures ScaffoldFields(s, names)[i] == Field(names[i], Scaffold(PropertySchema(s, names[i])))
  {
    if i < |names| - 1 {
      ScaffoldField(s, names[..|names| - 1], i);
    }
  }

  /** A property has a field of its own in the scaffold, with the scaffold of its own schema. */
  lemma PropertyField(s: Schema, j: nat) returns (i: nat)
    requires s.Schema? && DistinctProperties(s) && j < |s.properties|
    ensures i < |FieldNames(s)| && FieldNames(s)[i] == s.properties[j].name
    ensures FieldSchema(s, i) == s.properties[j].schema
  {
    FindDistinct(s.properties, j);
    assert PropertyNames(s.properties)[j] == s.properties[j].name;
    assert s.properties[j].name in FieldNames(s);
    i :| 0 <= i < |FieldNames(s)| && FieldNames(s)[i] == s.properties[j].name;
  }

  lemma {:induction false} ScaffoldDistinct(s: Schema)
    ensures DistinctFields(Scaffold(s))
  {
    if s.Schema? && s.typeName == "object" {
      var names := FieldNames(s);
      forall i | 0 <= i < |names| ensures DistinctFields(ScaffoldFields(s, names)[i].value) {
        ScaffoldField(s, names, i);
        if PropertySchema(s, names[i]).Schema? {
          ScaffoldDistinct(PropertySchema(s, names[i]));
        }
      }
    } else if s.Schema? && s.typeName == "array" {
      ScaffoldDistinct(s.items);
    }
  }

  // ----- Filling -----

  type Answers = map<seq<Step>, Value>

  /** The value with the answer for each path in place of the null there. */
  function Fill(v: Value, answers: Answers, at: seq<Step>): Value
    decreases v, 0
  {
    match v
    case Null => if at in answers then answers[at] else Null
    case Obj(fields) => Obj(FillFields(fields, answers, at))
    case Arr(items) => Arr(FillItems(items, answers, at))
    case _ => v
  }

  function FillFields(fields: seq<Field>, answers: Answers, at: seq<Step>): (r: seq<Field>)
    ensures |r| == |fields|
    ensures forall i :: 0 <= i < |r| ==>
      r[i] == Field(fields[i].name, Fill(fields[i].value, answers, at + [Key(fields[i].name)]))
    decreases fields
  {
    seq(|fields|, i requires 0 <= i < |fields| =>
      Field(fields[i].name, Fill(fields[i].value, answers, at + [Key(fields[i].name)])))
  }

  function FillItems(items: seq<Value>, answers: Answers, at: seq<Step>): (r: seq<Value>)
    ensures |r| == |items|
    ensures forall i :: 0 <= i < |r| ==> r[i] == Fill(items[i], answers, at + [At(i)])
    decreases items
  {
    seq(|items|, i requires 0 <= i < |items| => Fill(items[i], answers, at + [At(i)]))
  }

  /** No object or array the scaffold opens has an enum. */
  ghost predicate EnumsOnLeaves(s: Schema) {
    s.Any? ||
    (&& (s.typeName == "object" ==>
           s.enum.None? && forall i :: 0 <= i < |s.properties| ==> EnumsOnLeaves(s.properties[i].schema))
     && (s.typeName == "array" ==> s.enum.None? && EnumsOnLeaves(s.items)))
  }

  /** Every closed object the scaffold opens declares the names it requires. */
  ghost predicate RequiredDeclared(s: Schema) {
    s.Any? ||
    (&& (s.typeName == "object" ==>
           && DeclaresRequired(s)
           && forall i :: 0 <= i < |s.properties| ==> RequiredDeclared(s.properties[i].schema))
     && (s.typeName == "array" ==> RequiredDeclared(s.items)))
  }

  ghost predicate DeclaresRequired(s: Schema)
    requires s.Schema?
  {
    s.closed ==> forall i :: 0 <= i < |s.required| ==> FindProperty(s.properties, s.required[i]).Some?
  }

  /** Each null of the scaffold has an answer its own leaf schema accepts. */
  ghost predicate Answered(s: Schema, answers: Answers, at: seq<Step>) {
    forall p :: p in Nulls(Scaffold(s)) ==> Accepted(s, answers, at, p)
  }

  ghost predicate Accepted(s: Schema, answers: Answers, at: seq<Step>, p: seq<Step>) {
    at + p in answers && Conforms(answers[at + p], NodeAt(s, p))
  }

  ghost predicate Covers(s: Schema, answers: Answers, at: seq<Step>) {
    forall p :: p in Nulls(Scaffold(s)) ==> at + p in answers
  }

  // ----- One level of an object -----

  lemma NodeBelow(s: Schema, step: Step, p: seq<Step>)
    ensures NodeAt(s, [step] + p) == NodeAt(Below(s, step), p)
  {
    assert ([step] + p)[1..] == p;
  }

  /** The schema, and the place, of the i-th field of the scaffold of an object. */
  function FieldSchema(s: Schema, i: nat): (r: Schema)
    requires s.Schema? && i < |FieldNames(s)|
    ensures r.Any? || r < s
  {
    PropertySchema(s, FieldNames(s)[i])
  }

  function FieldStep(s: Schema, i: nat): Step
    requires s.Schema? && i < |FieldNames(s)|
  {
    Key(FieldNames(s)[i])
  }

  lemma FieldNode(s: Schema, i: nat, p: seq<Step>)
    requires s.Schema? && i < |FieldNames(s)|
    ensures NodeAt(s, [FieldStep(s, i)] + p) == NodeAt(FieldSchema(s, i), p)
  {
    NodeBelow(s, FieldStep(s, i), p);
  }

  lemma FieldNull(s: Schema, i: nat, p: seq<Step>)
    requires s.Schema? && s.typeName == "object" && i < |FieldNames(s)| && p in Nulls(Scaffold(FieldSchema(s, i)))
    ensures [FieldStep(s, i)] + p in Nulls(Scaffold(s))
  {
    hide FieldNulls, FieldNames;
    var names := FieldNames(s);
    var q := [FieldStep(s, i)] + p;
    ScaffoldField(s, names, i);
    FieldNullsMember(ScaffoldFields(s, names), q);
    assert q[1..] == p;
  }

  lemma NullField(s: Schema, q: seq<Step>) returns (i: nat, p: seq<Step>)
    requires s.Schema? && s.typeName == "object" && q in Nulls(Scaffold(s))
    ensures i < |FieldNames(s)| && q == [FieldStep(s, i)] + p && p in Nulls(Scaffold(FieldSchema(s, i)))
  {
    hide FieldNulls, FieldNames, PropertySchema, ScaffoldFields;
    var names := FieldNames(s);
    var fields := ScaffoldFields(s, names);
    assert q in FieldNulls(fields);
    FieldNullsMember(fields, q);
    i :| 0 <= i < |fields| && q[0] == Key(fields[i].name) && q[1..] in Nulls(fields[i].value);
    p := q[1..];
    ScaffoldField(s, names, i);
    assert q == [q[0]] + p;
  }

  lemma ItemNull(s: Schema, p: seq<Step>)
    requires s.Schema? && s.typeName == "array"
    ensures [At(0)] + p in Nulls(Scaffold(s)) <==> p in Nulls(Scaffold(s.items))
    ensures NodeAt(s, [At(0)] + p) == NodeAt(s.items, p)
  {
    var q := [At(0)] + p;
    ItemNullsMember([Scaffold(s.items)], q);
    assert q[1..] == p;
    NodeBelow(s, At(0), p);
  }

  lemma NullItem(s: Schema, q: seq<Step>) returns (p: seq<Step>)
    requires s.Schema? && s.typeName == "array" && q in Nulls(Scaffold(s))
    ensures q == [At(0)] + p && p in Nulls(Scaffold(s.items))
  {
    ItemNullsMember([Scaffold(s.items)], q);
    p := q[1..];
    assert q == [q[0]] + p;
  }

  // ----- Filling, one level at a time -----

  function FilledField(s: Schema, answers: Answers, at: seq<Step>, i: nat): Value
    requires s.Schema? && i < |FieldNames(s)|
  {
    Fill(Scaffold(FieldSchema(s, i)), answers, at + [FieldStep(s, i)])
  }

  lemma FilledFieldAt(s: Schema, answers: Answers, at: seq<Step>, i: nat)
    requires s.Schema? && s.typeName == "object" && i < |FieldNames(s)|
    ensures var g := Fill(Scaffold(s), answers, at);
      && g.Obj? && |g.fields| == |FieldNames(s)|
      && g.fields[i] == Field(FieldNames(s)[i], FilledField(s, answers, at, i))
  {
    ScaffoldField(s, FieldNames(s), i);
  }

  lemma AnsweredFields(s: Schema, answers: Answers, at: seq<Step>)
    requires s.Schema? && s.typeName == "object"
    ensures Answered(s, answers, at) <==>
      forall i :: 0 <= i < |FieldNames(s)| ==> Answered(FieldSchema(s, i), answers, at + [FieldStep(s, i)])
  {
    hide Scaffold, Nulls, Conforms, FieldNames, FieldSchema, NodeAt;
    if Answered(s, answers, at) {
      forall i, p | 0 <= i < |FieldNames(s)| && p in Nulls(Scaffold(FieldSchema(s, i)))
        ensures Accepted(FieldSchema(s, i), answers, at + [FieldStep(s, i)], p)
      {
        FieldNull(s, i, p);
        FieldNode(s, i, p);
        assert at + [FieldStep(s, i)] + p == at + ([FieldStep(s, i)] + p);
        assert Accepted(s, answers, at, [FieldStep(s, i)] + p);
      }
    }
    if forall i :: 0 <= i < |FieldNames(s)| ==> Answered(FieldSchema(s, i), answers, at + [FieldStep(s, i)]) {
      forall q | q in Nulls(Scaffold(s)) ensures Accepted(s, answers, at, q) {
        var i, p := NullField(s, q);
        FieldNode(s, i, p);
        assert at + [FieldStep(s, i)] + p == at + q;
        assert Accepted(FieldSchema(s, i), answers, at + [FieldStep(s, i)], p);
      }
    }
  }

  lemma CoversField(s: Schema, answers: Answers, at: seq<Step>, i: nat)
    requires s.Schema? && s.typeName == "object" && i < |FieldNames(s)| && Covers(s, answers, at)
    ensures Covers(FieldSchema(s, i), answers, at + [FieldStep(s, i)])
  {
    hide Scaffold, Nulls, FieldNames, FieldSchema;
    forall p | p in Nulls(Scaffold(FieldSchema(s, i))) ensures at + [FieldStep(s, i)] + p in answers {
      FieldNull(s, i, p);
      assert at + [FieldStep(s, i)] + p == at + ([FieldStep(s, i)] + p);
    }
  }

  lemma RequiredFields(s: Schema)
    requires s.Schema? && s.typeName == "object" && DistinctProperties(s)
    ensures RequiredDeclared(s) <==>
      DeclaresRequired(s) && forall i :: 0 <= i < |FieldNames(s)| ==> RequiredDeclared(FieldSchema(s, i))
  {
    hide FieldNames, DeclaresRequired, FieldSchema;
    if RequiredDeclared(s) {
      forall i | 0 <= i < |FieldNames(s)| ensures RequiredDeclared(FieldSchema(s, i)) {
        if FieldSchema(s, i).Schema? {
          FieldSource(s, i);
        }
      }
    }
    if DeclaresRequired(s) && forall i :: 0 <= i < |FieldNames(s)| ==> RequiredDeclared(FieldSchema(s, i)) {
      forall j | 0 <= j < |s.properties| ensures RequiredDeclared(s.properties[j].schema) {
        var i := PropertyField(s, j);
      }
    }
  }

  lemma LookupFilled(s: Schema, answers: Answers, at: seq<Step>, i: nat)
    requires s.Schema? && s.typeName == "object" && i < |FieldNames(s)|
    ensures var g := Fill(Scaffold(s), answers, at);
      g.Obj? && Lookup(g.fields, FieldNames(s)[i]) == Some(FilledField(s, answers, at, i))
  {
    hide Scaffold, Fill, Lookup, FilledField;
    var g := Fill(Scaffold(s), answers, at);
    forall j | 0 <= j < |FieldNames(s)|
      ensures g.Obj? && |g.fields| == |FieldNames(s)| && g.fields[j].name == FieldNames(s)[j]
    {
      FilledFieldAt(s, answers, at, j);
    }
    FilledFieldAt(s, answers, at, i);
    LookupAt(g.fields, i);
  }

  lemma FieldNamesAre(s: Schema, name: string)
    requires s.Schema?
    ensures name in FieldNames(s) <==> name in s.required || FindProperty(s.properties, name).Some?
  {
    hide FindProperty;
    FindFrom(s.properties, name);
    var names := PropertyNames(s.properties);
    assert name in FieldNames(s) <==> name in s.required + names;
    if j :| 0 <= j < |s.properties| && s.properties[j].name == name {
      assert names[j] == name;
    }
  }

  /** A filled object lacks no required name, and has a name that is not declared only if that name is required. */
  lemma RequiredFilled(s: Schema, answers: Answers, at: seq<Step>)
    requires s.Schema? && s.typeName == "object"
    ensures var g := Fill(Scaffold(s), answers, at);
      && g.Obj?
      && (forall k :: 0 <= k < |s.required| ==> Lookup(g.fields, s.required[k]).Some?)
      && ((s.closed ==> forall i :: 0 <= i < |g.fields| ==> FindProperty(s.properties, g.fields[i].name).Some?)
          <==> DeclaresRequired(s))
  {
    hide Lookup, FilledField, FindProperty, FieldNames, Dedupe, PropertyNames;
    var g := Fill(Scaffold(s), answers, at);
    var names := FieldNames(s);
    assert g.Obj? && |g.fields| == |names| && forall i :: 0 <= i < |names| ==> g.fields[i].name == names[i];
    forall k | 0 <= k < |s.required|
      ensures Lookup(g.fields, s.required[k]).Some?
      ensures exists i :: 0 <= i < |names| && names[i] == s.required[k]
    {
      FieldNamesAre(s, s.required[k]);
      var i :| 0 <= i < |names| && names[i] == s.required[k];
      LookupFilled(s, answers, at, i);
    }
    forall i | 0 <= i < |names| ensures names[i] in s.required || FindProperty(s.properties, names[i]).Some? {
      FieldNamesAre(s, names[i]);
    }
  }

  lemma ConformsFields(s: Schema, answers: Answers, at: seq<Step>)
    requires s.Schema? && s.typeName == "object" && s.enum.None? && DistinctProperties(s)
    ensures Conforms(Fill(Scaffold(s), answers, at), s) <==>
      && DeclaresRequired(s)
      && forall i :: 0 <= i < |FieldNames(s)| ==> Conforms(FilledField(s, answers, at, i), FieldSchema(s, i))
  {
    hide Scaffold, Fill, Lookup, FilledField, DeclaresRequired, FieldNames, FieldSchema;
    var g := Fill(Scaffold(s), answers, at);
    RequiredFilled(s, answers, at);
    forall j | 0 <= j < |s.properties|
      ensures exists i ::
        && 0 <= i < |FieldNames(s)| && FieldSchema(s, i) == s.properties[j].schema
        && Lookup(g.fields, s.properties[j].name) == Some(FilledField(s, answers, at, i))
    {
      var i := PropertyField(s, j);
      LookupFilled(s, answers, at, i);
    }
    forall i | 0 <= i < |FieldNames(s)| && FieldSchema(s, i).Schema?
      ensures exists j ::
        && 0 <= j < |s.properties| && FieldSchema(s, i) == s.properties[j].schema
        && Lookup(g.fields, s.properties[j].name) == Some(FilledField(s, answers, at, i))
    {
      FieldSource(s, i);
      LookupFilled(s, answers, at, i);
    }
  }

  lemma FieldSource(s: Schema, i: nat)
    requires s.Schema? && i < |FieldNames(s)| && FieldSchema(s, i).Schema?
    ensures exists j ::
      && 0 <= j < |s.properties|
      && FieldSchema(s, i) == s.properties[j].schema && s.properties[j].name == FieldNames(s)[i]
  {
    FindFrom(s.properties, FieldNames(s)[i]);
  }

  /** A filled scaffold is accepted exactly when each answer is accepted by the leaf it fills and every
      closed object declares the names it requires. */
  lemma {:induction false} FillConforms(s: Schema, answers: Answers, at: seq<Step>)
    requires EnumsOnLeaves(s) && DistinctProperties(s) && Covers(s, answers, at)
    ensures Conforms(Fill(Scaffold(s), answers, at), s) <==> RequiredDeclared(s) && Answered(s, answers, at)
    decreases s
  {
    if s.Schema? && s.typeName == "object" {
      FillObject(s, answers, at);
    } else if s.Schema? && s.typeName == "array" {
      FillArray(s, answers, at);
    } else {
      FillLeaf(s, answers, at);
    }
  }

  lemma FillLeaf(s: Schema, answers: Answers, at: seq<Step>)
    requires s.Schema? ==> s.typeName != "object" && s.typeName != "array"
    requires Covers(s, answers, at)
    ensures Conforms(Fill(Scaffold(s), answers, at), s) <==> RequiredDeclared(s) && Answered(s, answers, at)
  {
    assert [] in Nulls(Scaffold(s)) && forall p :: p in Nulls(Scaffold(s)) ==> p == [];
    assert at + [] == at;
    assert Accepted(s, answers, at, []) <==> Conforms(answers[at], s);
  }

  lemma {:induction false} FillObject(s: Schema, answers: Answers, at: seq<Step>)
    requires s.Schema? && s.typeName == "object"
    requires EnumsOnLeaves(s) && DistinctProperties(s) && Covers(s, answers, at)
    ensures Conforms(Fill(Scaffold(s), answers, at), s) <==> RequiredDeclared(s) && Answered(s, answers, at)
    decreases s, 0
  {
    hide Scaffold, Fill, Conforms, FieldNames, Answered, Covers, DeclaresRequired, RequiredDeclared;
    ConformsFields(s, answers, at);
    RequiredFields(s);
    AnsweredFields(s, answers, at);
    forall i | 0 <= i < |FieldNames(s)|
      ensures Conforms(FilledField(s, answers, at, i), FieldSchema(s, i)) <==>
        RequiredDeclared(FieldSchema(s, i)) && Answered(FieldSchema(s, i), answers, at + [FieldStep(s, i)])
    {
      CoversField(s, answers, at, i);
      FieldSchemaFit(s, i);
      if FieldSchema(s, i).Any? {
        FillLeaf(Any, answers, at + [FieldStep(s, i)]);
      } else {
        FillConforms(FieldSchema(s, i), answers, at + [FieldStep(s, i)]);
      }
    }
  }

  lemma FieldSchemaFit(s: Schema, i: nat)
    requires s.Schema? && s.typeName == "object" && i < |FieldNames(s)| && EnumsOnLeaves(s) && DistinctProperties(s)
    ensures EnumsOnLeaves(FieldSchema(s, i)) && DistinctProperties(FieldSchema(s, i))
    ensures FieldSchema(s, i).Any? || FieldSchema(s, i) < s
  {
    if FieldSchema(s, i).Schema? {
      FieldSource(s, i);
    }
  }

  lemma {:induction false} FillArray(s: Schema, answers: Answers, at: seq<Step>)
    requires s.Schema? && s.typeName == "array"
    requires EnumsOnLeaves(s) && DistinctProperties(s) && Covers(s, answers, at)
    ensures Conforms(Fill(Scaffold(s), answers, at), s) <==> RequiredDeclared(s) && Answered(s, answers, at)
    decreases s, 0
  {
    var below := at + [At(0)];
    forall p | p in Nulls(Scaffold(s.items)) 
      ensures [At(0)] + p in Nulls(Scaffold(s))
      ensures below + p in answers && (Accepted(s.items, answers, below, p) <==> Accepted(s, answers, at, [At(0)] + p))
    {
      ItemNull(s, p);
      assert below + p == at + ([At(0)] + p);
    }
    FillConforms(s.items, answers, below);
    assert Answered(s, answers, at) <==> Answered(s.items, answers, below) by {
      forall q | q in Nulls(Scaffold(s)) ensures exists p :: p in Nulls(Scaffold(s.items)) && q == [At(0)] + p {
        var p := NullItem(s, q);
      }
    }
  }

  /** Filling every null of a scaffold leaves nothing to report exactly when the leaf at each null accepts
      its answer and every closed object declares the names it requires. */
  lemma FilledScaffoldAccepted(s: Schema, answers: Answers)
    requires EnumsOnLeaves(s) && DistinctProperties(s)
    requires forall p :: p in Nulls(Scaffold(s)) ==> p in answers
    ensures Issues(Fill(Scaffold(s), answers, []), s, "$") == [] <==>
      && RequiredDeclared(s)
      && forall p :: p in Nulls(Scaffold(s)) ==> Issues(answers[p], NodeAt(s, p), Print(p)) == []
  {
    hide Scaffold, Nulls, Fill, Conforms, Issues, NodeAt;
    assert forall p: seq<Step> {:trigger [] + p} :: [] + p == p;
    FillConforms(s, answers, []);
    SilentIffConforms(Fill(Scaffold(s), answers, []), s, "$");
    forall p | p in Nulls(Scaffold(s))
      ensures Accepted(s, answers, [], p) <==> Issues(answers[p], NodeAt(s, p), Print(p)) == []
    {
      SilentIffConforms(answers[p], NodeAt(s, p), Print(p));
    }
  }

  // ----- Before filling -----

  lemma ScaffoldLookup(s: Schema, i: nat)
    requires s.Schema? && s.typeName == "object" && i < |FieldNames(s)|
    ensures Scaffold(s).Obj? && Lookup(Scaffold(s).fields, FieldNames(s)[i]) == Some(Scaffold(FieldSchema(s, i)))
  {
    hide Lookup;
    ScaffoldField(s, FieldNames(s), i);
    LookupAt(Scaffold(s).fields, i);
  }

  lemma PropertyLookup(s: Schema, j: nat) returns (i: nat)
    requires s.Schema? && s.typeName == "object" && DistinctProperties(s) && j < |s.properties|
    ensures i < |FieldNames(s)| && FieldStep(s, i) == Key(s.properties[j].name) &&
        FieldSchema(s, i) == s.properties[j].schema
    ensures Scaffold(s).Obj?
    ensures Lookup(Scaffold(s).fields, s.properties[j].name) == Some(Scaffold(s.properties[j].schema))
  {
    hide Scaffold, Lookup, FieldSchema;
    i := PropertyField(s, j);
    ScaffoldLookup(s, i);
  }

  /** Whatever the leaf at a null has against null is reported for the unfilled scaffold. */
  lemma {:induction false} NullIssueReported(s: Schema, prefix: seq<Step>, p: seq<Step>, issue: Issue)
    requires DistinctProperties(s) && p in Nulls(Scaffold(s))
    requires issue in Issues(Null, NodeAt(s, p), Print(prefix + p))
    ensures issue in Issues(Scaffold(s), s, Print(prefix))
    decreases s, 1
  {
    hide FieldNames, Nulls, Issues, NodeAt, Scaffold;
    if s.Schema? && s.typeName == "object" {
      NullIssueInField(s, prefix, p, issue);
    } else if s.Schema? && s.typeName == "array" {
      NullIssueInItem(s, prefix, p, issue);
    } else {
      LeafNull(s, p);
      LeafIssues(s, Print(prefix));
      assert prefix + p == prefix;
    }
  }

  lemma LeafIssues(s: Schema, path: string)
    requires s.Schema? ==> s.typeName != "object" && s.typeName != "array"
    ensures Issues(Null, NodeAt(s, []), path) == Issues(Scaffold(s), s, path)
  {
  }

  lemma {:induction false} NullIssueInItem(s: Schema, prefix: seq<Step>, p: seq<Step>, issue: Issue)
    requires s.Schema? && s.typeName == "array" && DistinctProperties(s) && p in Nulls(Scaffold(s))
    requires issue in Issues(Null, NodeAt(s, p), Print(prefix + p))
    ensures issue in Issues(Scaffold(s), s, Print(prefix))
    decreases s, 0
  {
    hide Nulls, Issues, NodeAt, ArrayIssues;
    var q := NullItem(s, p);
    ItemNull(s, q);
    PrintExtend(prefix, At(0));
    assert prefix + [At(0)] + q == prefix + p;
    NullIssueReported(s.items, prefix + [At(0)], q, issue);
    ItemHas([Scaffold(s.items)], s.items, Print(prefix), 0, issue);
    InArray(Scaffold(s), s, Print(prefix), issue);
  }

  lemma LeafNull(s: Schema, p: seq<Step>)
    requires s.Schema? ==> s.typeName != "object" && s.typeName != "array"
    ensures p in Nulls(Scaffold(s)) <==> p == []
  {
  }

  lemma {:induction false} NullIssueInField(s: Schema, prefix: seq<Step>, p: seq<Step>, issue: Issue)
    requires s.Schema? && s.typeName == "object" && DistinctProperties(s) && p in Nulls(Scaffold(s))
    requires issue in Issues(Null, NodeAt(s, p), Print(prefix + p))
    ensures issue in Issues(Scaffold(s), s, Print(prefix))
    decreases s, 0
  {
    hide FieldNames, Nulls, PropertyIssues, Scaffold, NodeAt, FieldSchema, Issues, Print, PrintStep, Lookup;
    var i, q := NullField(s, p);
    FieldNode(s, i, q);
    if FieldSchema(s, i).Any? {
      AnySilent(q, Print(prefix + p));
    } else {
      var j := FieldDeclared(s, i);
      var step := FieldStep(s, i);
      var _ := PropertyLookup(s, j);
      PrintExtend(prefix, step);
      assert prefix + [step] + q == prefix + p;
      NullIssueReported(FieldSchema(s, i), prefix + [step], q, issue);
      PropertyHas(Scaffold(s).fields, s.properties, Print(prefix), j, issue);
      InObject(Scaffold(s), s, Print(prefix), issue);
    }
  }

  lemma AnySilent(q: seq<Step>, path: string)
    ensures Issues(Null, NodeAt(Any, q), path) == []
  {
    DescendAny(q);
  }

  lemma ObjectTyped(s: Schema)
    requires s.Schema? && s.typeName == "object"
    ensures Scaffold(s).Obj?
  {
  }

  lemma FieldDeclared(s: Schema, i: nat) returns (j: nat)
    requires s.Schema? && i < |FieldNames(s)| && FieldSchema(s, i).Schema?
    ensures j < |s.properties| && FieldSchema(s, i) == s.properties[j].schema &&
        Key(s.properties[j].name) == FieldStep(s, i)
    ensures FieldSchema(s, i) < s
  {
    FieldSource(s, i);
    j :| 0 <= j < |s.properties| && FieldSchema(s, i) == s.properties[j].schema &&
      s.properties[j].name == FieldNames(s)[i];
  }

  /** Every issue of an unfilled scaffold sits at one of its nulls, and is what the leaf there has against null. */
  lemma {:induction false} ScaffoldIssueAtNull(s: Schema, prefix: seq<Step>, issue: Issue) returns (p: seq<Step>)
    requires EnumsOnLeaves(s) && DistinctProperties(s) && issue in Issues(Scaffold(s), s, Print(prefix))
    ensures p in Nulls(Scaffold(s)) && issue.path == Print(prefix + p)
    ensures RequiredDeclared(s) ==> issue in Issues(Null, NodeAt(s, p), Print(prefix + p))
    decreases s, 2
  {
    hide FieldNames, PropertyIssues, ArrayIssues, MissingIssues, ExtraIssues;
    if s.typeName == "object" {
      ObjectTyped(s);
      p := ObjectIssueAtNull(s, prefix, issue);
    } else if s.typeName == "array" {
      p := ItemIssueAtNull(s, prefix, issue);
    } else {
      p := [];
      LeafNull(s, p);
      assert prefix + p == prefix;
    }
  }

  lemma {:induction false} ItemIssueAtNull(s: Schema, prefix: seq<Step>, issue: Issue) returns (p: seq<Step>)
    requires s.Schema? && s.typeName == "array"
    requires EnumsOnLeaves(s) && DistinctProperties(s)
    requires issue in ArrayIssues([Scaffold(s.items)], s.items, Print(prefix))
    ensures p in Nulls(Scaffold(s)) && issue.path == Print(prefix + p)
    ensures RequiredDeclared(s) ==> issue in Issues(Null, NodeAt(s, p), Print(prefix + p))
    decreases s, 0
  {
    hide Scaffold, Nulls, NodeAt, Issues, ArrayIssues;
    var i := ItemSource([Scaffold(s.items)], s.items, Print(prefix), issue);
    PrintExtend(prefix, At(0));
    var q := ScaffoldIssueAtNull(s.items, prefix + [At(0)], issue);
    p := [At(0)] + q;
    ItemNull(s, q);
    assert prefix + [At(0)] + q == prefix + p;
  }

  lemma {:induction false} ObjectIssueAtNull(s: Schema, prefix: seq<Step>, issue: Issue) returns (p: seq<Step>)
    requires s.Schema? && s.typeName == "object" && Scaffold(s).Obj?
    requires EnumsOnLeaves(s) && DistinctProperties(s)
    requires issue in ObjectIssues(Scaffold(s).fields, s, Print(prefix))
    ensures p in Nulls(Scaffold(s)) && issue.path == Print(prefix + p)
    ensures RequiredDeclared(s) ==> issue in Issues(Null, NodeAt(s, p), Print(prefix + p))
    decreases s, 1
  {
    hide PropertyIssues, MissingIssues, ExtraIssues, ExtraNames, Scaffold, Nulls, NodeAt, Issues, EnumsOnLeaves,
      DistinctProperties, RequiredDeclared;
    NothingMissing(s, Print(prefix), issue);
    if issue in PropertyIssues(Scaffold(s).fields, s.properties, Print(prefix)) {
      p := PropertyIssueAtNull(s, prefix, issue);
    } else {
      p := ExtraAtNull(s, prefix, issue);
    }
  }

  lemma {:induction false} PropertyIssueAtNull(s: Schema, prefix: seq<Step>, issue: Issue) returns (p: seq<Step>)
    requires s.Schema? && s.typeName == "object" && Scaffold(s).Obj?
    requires EnumsOnLeaves(s) && DistinctProperties(s)
    requires issue in PropertyIssues(Scaffold(s).fields, s.properties, Print(prefix))
    ensures p in Nulls(Scaffold(s)) && issue.path == Print(prefix + p)
    ensures RequiredDeclared(s) ==> issue in Issues(Null, NodeAt(s, p), Print(prefix + p))
    decreases s, 0
  {
    hide FieldNames, PropertyIssues, Scaffold, Nulls, NodeAt, FieldSchema, Issues;
    var j := PropertySource(Scaffold(s).fields, s.properties, Print(prefix), issue);
    var i := PropertyLookup(s, j);
    var step := FieldStep(s, i);
    PrintExtend(prefix, step);
    var q := ScaffoldIssueAtNull(s.properties[j].schema, prefix + [step], issue);
    p := [step] + q;
    FieldNull(s, i, q);
    FieldNode(s, i, q);
    assert prefix + [step] + q == prefix + p;
  }

  lemma NothingMissing(s: Schema, path: string, issue: Issue)
    requires s.Schema? && s.typeName == "object" && Scaffold(s).Obj?
    ensures issue !in MissingIssues(Scaffold(s).fields, s.required, path)
  {
    hide FieldNames, MissingIssues, Scaffold, FieldSchema, Lookup;
    if issue in MissingIssues(Scaffold(s).fields, s.required, path) {
      var name := MissingSource(Scaffold(s).fields, s.required, path, issue);
      FieldNamesAre(s, name);
      var i :| 0 <= i < |FieldNames(s)| && FieldNames(s)[i] == name;
      ScaffoldLookup(s, i);
    }
  }

  lemma ExtraAtNull(s: Schema, prefix: seq<Step>, issue: Issue) returns (p: seq<Step>)
    requires s.Schema? && s.typeName == "object" && Scaffold(s).Obj? && s.closed
    requires issue in ExtraIssues(Sorted(ExtraNames(Scaffold(s).fields, s.properties)), Print(prefix))
    ensures p in Nulls(Scaffold(s)) && issue.path == Print(prefix + p) && !RequiredDeclared(s)
  {
    hide FieldNames, ExtraIssues, ExtraNames, Sorted, Nulls, FindProperty;
    var fields := Scaffold(s).fields;
    var names := ExtraNames(fields, s.properties);
    var name := ExtraSource(Sorted(names), Print(prefix), issue);
    SortedMember(names, name);
    ExtraNamesMember(fields, s.properties, name);
    var i :| 0 <= i < |fields| && fields[i].name == name && FindProperty(s.properties, name).None?;
    FieldNamesAre(s, name);
    p := [Key(name)];
    LeafNull(Any, []);
    FieldNull(s, i, []);
    assert p == [FieldStep(s, i)] + [];
    PrintExtend(prefix, Key(name));
  }

  /** A null at a leaf with one of the four scalar types is reported as a type issue. */
  lemma ScalarNullReported(s: Schema, p: seq<Step>)
    requires DistinctProperties(s) && p in Nulls(Scaffold(s))
    requires NodeAt(s, p).typeName in {"string", "boolean", "integer", "number"}
    ensures BadType(Print(p), NodeAt(s, p).typeName, "null") in Issues(Scaffold(s), s, "$")
  {
    hide Scaffold, Nulls, Descend, PrintSteps;
    assert [] + p == p;
    PrintRoot();
    NullIssueReported(s, [], p, BadType(Print(p), NodeAt(s, p).typeName, "null"));
  }

  lemma PrintRoot()
    ensures Print([]) == "$"
  {
  }

  /** The unfilled scaffold draws exactly the complaints its leaves have against null. */
  lemma ScaffoldIssuesAre(s: Schema, issue: Issue)
    requires EnumsOnLeaves(s) && DistinctProperties(s) && RequiredDeclared(s)
    ensures issue in Issues(Scaffold(s), s, "$") <==>
      exists p :: p in Nulls(Scaffold(s)) && issue in Issues(Null, NodeAt(s, p), Print(p))
  {
    hide Scaffold, Nulls, NodeAt, Issues, RequiredDeclared, EnumsOnLeaves;
    PrintRoot();
    assert forall p: seq<Step> {:trigger [] + p} :: [] + p == p;
    if issue in Issues(Scaffold(s), s, "$") {
      var p := ScaffoldIssueAtNull(s, [], issue);
      assert [] + p == p;
    }
    if p :| p in Nulls(Scaffold(s)) && issue in Issues(Null, NodeAt(s, p), Print(p)) {
      assert [] + p == p;
      NullIssueReported(s, [], p, issue);
    }
  }
}
