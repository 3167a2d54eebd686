/** When the printed paths of a value's nulls tell the nulls apart. */
module PrintedNulls {
  import opened Options
  import opened JsonPaths
  import opened ResultSchema
  import opened IssuePlaces
  import opened ResultScaffold

  // ----- Names that can be mistaken for a path -----

  /** The name ends in the text of further steps, as in "a.b" or "a[0]". */
  ghost predicate Splits(name: string) {
    exists a: string, steps: seq<Step> :: SplitsInto(name, a, steps)
  }

  predicate SplitsInto(name: string, a: string, steps: seq<Step>) {
    steps != [] && name == a + PrintSteps(steps)
  }

  lemma {:induction false} PrintedStart(steps: seq<Step>)
    requires steps != []
    ensures PrintSteps(steps) != "" && PrintSteps(steps)[0] in {'.', '['}
  {
  }

  lemma PrintedSeparates(steps: seq<Step>)
    ensures Separates(PrintSteps(steps))
  {
    if steps != [] {
      PrintedStart(steps);
    }
  }

  lemma OneStep(step: Step)
    ensures PrintSteps([step]) == PrintStep(step)
  {
    assert [step][1..] == [] && PrintStep(step) + "" == PrintStep(step);
  }

  ghost predicate EndsInIndex(name: string) {
    exists a: string, i: nat :: IsIndexed(name, a, i)
  }

  predicate IsIndexed(name: string, a: string, i: nat) {
    name == a + PrintStep(At(i))
  }

  lemma DottedSplits(name: string, k: nat)
    requires k < |name| && name[k] == '.'
    ensures Splits(name)
  {
    var steps := [Key(name[k + 1..])];
    OneStep(steps[0]);
    assert name == name[..k] + ("." + name[k + 1..]);
    assert SplitsInto(name, name[..k], steps);
  }

  lemma SplitMarks(name: string, a: string, steps: seq<Step>)
    requires SplitsInto(name, a, steps)
    ensures (exists k :: 0 <= k < |name| && name[k] == '.') || EndsInIndex(name)
  {
    hide PrintSteps;
    var init, last := steps[..|steps| - 1], steps[|steps| - 1];
    assert steps == init + [last];
    PrintStepsAppend(init, [last]);
    OneStep(last);
    var before := a + PrintSteps(init);
    assert name == before + PrintStep(last);
    if last.Key? {
      assert name[|before|] == '.';
    } else {
      assert IsIndexed(name, before, last.index);
    }
  }

  /** A name splits exactly when it has a dot in it or ends in an index in brackets. */
  lemma SplitsWhen(name: string)
    ensures Splits(name) <==> (exists k :: 0 <= k < |name| && name[k] == '.') || EndsInIndex(name)
  {
    if a: string, steps: seq<Step> :| SplitsInto(name, a, steps) {
      SplitMarks(name, a, steps);
    }
    if k :| 0 <= k < |name| && name[k] == '.' {
      DottedSplits(name, k);
    }
    if a: string, i: nat :| IsIndexed(name, a, i) {
      OneStep(At(i));
      assert SplitsInto(name, a, [At(i)]);
    }
  }

  lemma CutShort(r: string, y: string, text: string, rest: string)
    requires r + y == text + rest && |r| < |text|
    ensures y != "" && y[0] == text[|r|]
  {
    assert (r + y)[|r|] == (text + rest)[|r|];
  }

  /** No step begins inside a printed index. */
  lemma InsideIndex(i: nat, k: nat)
    requires 0 < k < |PrintStep(At(i))|
    ensures PrintStep(At(i))[k] !in {'.', '['}
  {
    DecimalRoundTrip(i);
    var digits := ToDecimal(i);
    assert k <= |digits| ==> PrintStep(At(i))[k] == digits[k - 1];
  }

  lemma CutLong(r: string, y: string, text: string, rest: string)
    requires r + y == text + rest && |text| <= |r|
    ensures r == text + r[|text|..] && r[|text|..] + y == rest
  {
    assert r[..|text|] == (text + rest)[..|text|] == text;
    assert r[|text|..] + y == (r + y)[|text|..] == (text + rest)[|text|..] == rest;
  }

  lemma DotStep(r: string)
    requires r != "" && r[0] == '.'
    ensures PrintSteps([Key(r[1..])]) == r
  {
    OneStep(Key(r[1..]));
  }

  lemma FirstMark(step: Step, rest: seq<Step>)
    ensures PrintSteps([step] + rest) == PrintStep(step) + PrintSteps(rest)
    ensures PrintStep(step) != "" && PrintStep(step)[0] == if step.Key? then '.' else '['
  {
    PrintFirst(step, rest);
  }

  /** When a printed path is cut at a place where a step could begin, the part before is a printed path itself. */
  lemma {:induction false} CutPath(r: string, y: string, steps: seq<Step>) returns (cut: seq<Step>)
    requires r != "" && r + y == PrintSteps(steps) && Separates(y)
    ensures cut != [] && PrintSteps(cut) == r
    decreases |steps|
  {
    if steps == [] {
      assert false;
    } else {
      hide PrintSteps, PrintStep;
      var first, rest := steps[0], steps[1..];
      var text := PrintStep(first);
      assert steps == [first] + rest;
      FirstMark(first, rest);
      assert r[0] == (r + y)[0] == (text + PrintSteps(rest))[0] == text[0];
      if first.Key? {
        cut := [Key(r[1..])];
        DotStep(r);
      } else if |r| < |text| {
        CutShort(r, y, text, PrintSteps(rest));
        InsideIndex(first.index, |r|);
        assert false;
      } else {
        CutLong(r, y, text, PrintSteps(rest));
        if |r| == |text| {
          cut := [first];
          OneStep(first);
        } else {
          cut := CutPath(r[|text|..], y, rest);
          PrintFirst(first, cut);
          cut := [first] + cut;
        }
      }
    }
  }

  lemma LongerName(n: string, m: string, x: string, y: string)
    requires |n| < |m| && "." + n + x == "." + m + y
    ensures m == n + m[|n|..] && m[|n|..] + y == x
  {
    var whole := "." + n + x;
    assert n == whole[1..1 + |n|] == m[..|n|];
    assert m[|n|..] + y == whole[1 + |n|..] == x;
  }

  /** If two steps to names of different length print alike with what follows them, the longer name splits. */
  lemma LongerSplits(n: string, m: string, p: seq<Step>, q: seq<Step>)
    requires |n| < |m| && PrintStep(Key(n)) + PrintSteps(p) == PrintStep(Key(m)) + PrintSteps(q)
    ensures Splits(m)
  {
    hide PrintSteps;
    LongerName(n, m, PrintSteps(p), PrintSteps(q));
    PrintedSeparates(q);
    var cut := CutPath(m[|n|..], PrintSteps(q), p);
    assert SplitsInto(m, n, cut);
  }

  // ----- Values without such names -----

  ghost predicate Unsplit(v: Value) {
    match v
    case Obj(fields) => forall i :: 0 <= i < |fields| ==> !Splits(fields[i].name) && Unsplit(fields[i].value)
    case Arr(items) => forall i :: 0 <= i < |items| ==> Unsplit(items[i])
    case _ => true
  }

  lemma SameFirst(s: Step, p: seq<Step>, q: seq<Step>)
    requires PrintStep(s) + PrintSteps(p) == PrintStep(s) + PrintSteps(q)
    ensures PrintSteps(p) == PrintSteps(q)
  {
    var n := |PrintStep(s)|;
    assert PrintSteps(p) == (PrintStep(s) + PrintSteps(p))[n..];
    assert PrintSteps(q) == (PrintStep(s) + PrintSteps(q))[n..];
  }

  lemma SameIndex(i: nat, j: nat, x: string, y: string)
    requires PrintStep(At(i)) + x == PrintStep(At(j)) + y
    ensures i == j
  {
    IndexReadBack(i, x);
    IndexReadBack(j, y);
    assert ([At(i)] + Segments(x))[0] == At(i) && ([At(j)] + Segments(y))[0] == At(j);
  }

  lemma {:induction false} FieldNullsApart(fields: seq<Field>, p: seq<Step>, q: seq<Step>)
    requires DistinctFields(Obj(fields)) && Unsplit(Obj(fields))
    requires p in FieldNulls(fields) && q in FieldNulls(fields) && PrintSteps(p) == PrintSteps(q)
    ensures p == q
    decreases fields, 0
  {
    hide FieldNulls, Nulls, PrintSteps, PrintStep, Splits;
    FieldNullsMember(fields, p);
    FieldNullsMember(fields, q);
    var i :| 0 <= i < |fields| && p[0] == Key(fields[i].name) && p[1..] in Nulls(fields[i].value);
    var j :| 0 <= j < |fields| && q[0] == Key(fields[j].name) && q[1..] in Nulls(fields[j].value);
    assert p == [p[0]] + p[1..] && q == [q[0]] + q[1..];
    PrintFirst(p[0], p[1..]);
    PrintFirst(q[0], q[1..]);
    NamesApart(fields[i].name, fields[j].name, p[1..], q[1..]);
    assert i == j;
    SameFirst(p[0], p[1..], q[1..]);
    NullsApart(fields[i].value, p[1..], q[1..]);
  }

  lemma NamesApart(n: string, m: string, p: seq<Step>, q: seq<Step>)
    requires PrintStep(Key(n)) + PrintSteps(p) == PrintStep(Key(m)) + PrintSteps(q)
    requires !Splits(n) && !Splits(m)
    ensures n == m
  {
    hide Splits;
    if |n| < |m| {
      LongerSplits(n, m, p, q);
    } else if |m| < |n| {
      LongerSplits(m, n, q, p);
    } else {
      var whole := "." + n + PrintSteps(p);
      assert whole == "." + m + PrintSteps(q);
      assert n == whole[1..1 + |n|] == m;
    }
  }

  lemma {:induction false} ItemNullsApart(items: seq<Value>, p: seq<Step>, q: seq<Step>)
    requires DistinctFields(Arr(items)) && Unsplit(Arr(items))
    requires p in ItemNulls(items) && q in ItemNulls(items) && PrintSteps(p) == PrintSteps(q)
    ensures p == q
    decreases items, 0
  {
    hide ItemNulls, Nulls, PrintSteps, PrintStep;
    ItemNullsMember(items, p);
    ItemNullsMember(items, q);
    var i :| 0 <= i < |items| && p[0] == At(i) && p[1..] in Nulls(items[i]);
    var j :| 0 <= j < |items| && q[0] == At(j) && q[1..] in Nulls(items[j]);
    assert p == [p[0]] + p[1..] && q == [q[0]] + q[1..];
    PrintFirst(p[0], p[1..]);
    PrintFirst(q[0], q[1..]);
    SameIndex(i, j, PrintSteps(p[1..]), PrintSteps(q[1..]));
    SameFirst(p[0], p[1..], q[1..]);
    NullsApart(items[i], p[1..], q[1..]);
  }

  lemma {:induction false} NullsApart(v: Value, p: seq<Step>, q: seq<Step>)
    requires DistinctFields(v) && Unsplit(v)
    requires p in Nulls(v) && q in Nulls(v) && PrintSteps(p) == PrintSteps(q)
    ensures p == q
    decreases v, 0
  {
    match v
    case Obj(fields) => FieldNullsApart(fields, p, q);
    case Arr(items) => ItemNullsApart(items, p, q);
    case _ =>
  }

  /** In a value without splitting names no two nulls are listed under one printed path. */
  lemma PrintedOnce(v: Value)
    requires DistinctFields(v) && Unsplit(v)
    ensures var paths := Printed("$", Nulls(v)); forall i, j :: 0 <= i < j < |paths| ==> paths[i] != paths[j]
  {
    hide Nulls, PrintSteps, Unsplit;
    NullsOnce(v);
    var nulls := Nulls(v);
    forall i, j | 0 <= i < j < |nulls| ensures "$" + PrintSteps(nulls[i]) != "$" + PrintSteps(nulls[j]) {
      if "$" + PrintSteps(nulls[i]) == "$" + PrintSteps(nulls[j]) {
        assert PrintSteps(nulls[i]) == ("$" + PrintSteps(nulls[i]))[1..];
        assert PrintSteps(nulls[j]) == ("$" + PrintSteps(nulls[j]))[1..];
        NullsApart(v, nulls[i], nulls[j]);
      }
    }
  }

  // ----- Every such name can do harm -----

  /** A value whose only null is at the end of the steps. */
  function NullAt(steps: seq<Step>): (v: Value)
    decreases |steps|
  {
    if steps == [] then Null
    else
      match steps[0]
      case Key(name) => Obj([Field(name, NullAt(steps[1..]))])
      case At(i) => Arr(seq(i, k => Bool(false)) + [NullAt(steps[1..])])
  }

  lemma {:induction false} NullAtFacts(steps: seq<Step>)
    ensures DistinctFields(NullAt(steps)) && ValueAt(NullAt(steps), steps) == Some(Null)
    decreases |steps|
  {
    if steps != [] {
      NullAtFacts(steps[1..]);
      match steps[0]
      case Key(_) =>
      case At(i) =>
        var items := NullAt(steps).items;
        forall k | 0 <= k < |items| ensures DistinctFields(items[k]) {
        }
    }
  }

  /** The name beside the shorter name it starts with, and a null under each. */
  function Twins(name: string, a: string, steps: seq<Step>): Value {
    Obj([Field(name, Null), Field(a, NullAt(steps))])
  }

  /** Every splitting name occurs in a value where two nulls share a printed path. */
  lemma SplitNamesCollide(name: string) returns (v: Value, p: seq<Step>, q: seq<Step>)
    requires Splits(name)
    ensures v.Obj? && |v.fields| == 2 && v.fields[0].name == name && DistinctFields(v)
    ensures p in Nulls(v) && q in Nulls(v) && p != q && Print(p) == Print(q)
  {
    hide PrintSteps, NullAt, Nulls, Print, ValueAt;
    var a, steps :| SplitsInto(name, a, steps);
    PrintedStart(steps);
    NullAtFacts(steps);
    v, p, q := Twins(name, a, steps), [Key(name)], [Key(a)] + steps;
    TwinPaths(name, a, steps);
    NullsAreNulls(v, p);
    NullsAreNulls(v, q);
    TwinsPrintAlike(name, a, steps);
    assert p[0] != q[0];
  }

  lemma TwinsPrintAlike(name: string, a: string, steps: seq<Step>)
    requires name == a + PrintSteps(steps)
    ensures Print([Key(name)]) == Print([Key(a)] + steps)
  {
    hide PrintSteps;
    OneStep(Key(name));
    PrintFirst(Key(a), steps);
    assert "." + a + PrintSteps(steps) == "." + (a + PrintSteps(steps));
  }

  lemma TwinPaths(name: string, a: string, steps: seq<Step>)
    requires name != a && DistinctFields(NullAt(steps)) && ValueAt(NullAt(steps), steps) == Some(Null)
    ensures DistinctFields(Twins(name, a, steps))
    ensures ValueAt(Twins(name, a, steps), [Key(name)]) == Some(Null)
    ensures ValueAt(Twins(name, a, steps), [Key(a)] + steps) == Some(Null)
  {
    hide NullAt;
    var v := Twins(name, a, steps);
    LookupAt(v.fields, 0);
    LookupAt(v.fields, 1);
    assert ([Key(a)] + steps)[1..] == steps && [Key(name)][1..] == [];
  }

  /** Such as a name with a dot in it. */
  lemma PrintedTwice()
    ensures var v := Obj([Field("a.b", Null), Field("a", Obj([Field("b", Null)]))]);
      var p, q := [Key("a.b")], [Key("a"), Key("b")];
      DistinctFields(v) && p in Nulls(v) && q in Nulls(v) && p != q && Print(p) == Print(q)
  {
    hide Nulls, PrintSteps, ValueAt;
    var steps := [Key("b")];
    OneStep(steps[0]);
    assert "a" + ".b" == "a.b" && |"a"| != |"a.b"|;
    NullAtFacts(steps);
    TwinPaths("a.b", "a", steps);
    TwinsPrintAlike("a.b", "a", steps);
    var v := Twins("a.b", "a", steps);
    assert steps[1..] == [] && [Key("a")] + steps == [Key("a"), Key("b")];
    assert v == Obj([Field("a.b", Null), Field("a", Obj([Field("b", Null)]))]);
    NullsAreNulls(v, [Key("a.b")]);
    NullsAreNulls(v, [Key("a"), Key("b")]);
  }
}
