/** Paths into JSON values: how the validator prints them and how the repair hints read them back. */
module JsonPaths {

  /** A JSON value; an object lists its fields in insertion order, each name once. */
  datatype Value =
    | Null
    | Bool(b: bool)
    | Int(i: int)
    | Float(r: real)
    | Str(s: string)
    | Arr(items: seq<Value>)
    | Obj(fields: seq<Field>)

  datatype Field = Field(name: string, value: Value)

  datatype Step = Key(name: string) | At(index: nat)

  // ----- Decimal numerals -----

  predicate IsDigit(c: char) { '0' <= c <= '9' }

  function Digit(d: nat): char
    requires d < 10
  {
    "0123456789"[d]
  }

  function ToDecimal(n: nat): string {
    if n < 10 then [Digit(n)] else ToDecimal(n / 10) + [Digit(n % 10)]
  }

  function DigitValue(c: char): nat
    requires IsDigit(c)
  {
    c as int - '0' as int
  }

  predicate AllDigits(s: string) {
    forall i :: 0 <= i < |s| ==> IsDigit(s[i])
  }

  function FromDecimal(s: string): nat
    requires AllDigits(s)
  {
    if s == "" then 0 else 10 * FromDecimal(s[..|s| - 1]) + DigitValue(s[|s| - 1])
  }

  lemma {:induction false} DecimalRoundTrip(n: nat)
    ensures ToDecimal(n) != "" && AllDigits(ToDecimal(n)) && FromDecimal(ToDecimal(n)) == n
  {
    if n >= 10 {
      DecimalRoundTrip(n / 10);
      assert ToDecimal(n)[..|ToDecimal(n)| - 1] == ToDecimal(n / 10);
    } else {
      assert [Digit(n)][..0] == "";
    }
  }

  // ----- Printing -----

  predicate IsNameChar(c: char) {
    'A' <= c <= 'Z' || 'a' <= c <= 'z' || IsDigit(c) || c == '_' || c == '-'
  }

  predicate GoodName(name: string) {
    name != "" && forall i :: 0 <= i < |name| ==> IsNameChar(name[i])
  }

  predicate GoodStep(step: Step) {
    step.Key? ==> GoodName(step.name)
  }

  function PrintStep(step: Step): string {
    match step
    case Key(name) => "." + name
    case At(index) => "[" + ToDecimal(index) + "]"
  }

  function PrintSteps(steps: seq<Step>): string {
    if steps == [] then "" else PrintStep(steps[0]) + PrintSteps(steps[1..])
  }

  /** The validator starts from `$`. */
  function Print(steps: seq<Step>): string {
    "$" + PrintSteps(steps)
  }

  lemma Associate(a: string, b: string, c: string)
    ensures (a + b) + c == a + (b + c)
  {
  }

  lemma PrintFirst(step: Step, rest: seq<Step>)
    ensures PrintSteps([step] + rest) == PrintStep(step) + PrintSteps(rest)
  {
    assert ([step] + rest)[1..] == rest;
  }

  lemma {:induction false} PrintStepsAppend(a: seq<Step>, b: seq<Step>)
    ensures PrintSteps(a + b) == PrintSteps(a) + PrintSteps(b)
  {
    if a == [] {
      assert a + b == b;
    } else {
      var first, rest := a[0], a[1..];
      calc {
        PrintSteps(a + b);
      == { assert a + b == [first] + (rest + b); PrintFirst(first, rest + b); }
        PrintStep(first) + PrintSteps(rest + b);
      == { PrintStepsAppend(rest, b); }
        PrintStep(first) + (PrintSteps(rest) + PrintSteps(b));
      == { Associate(PrintStep(first), PrintSteps(rest), PrintSteps(b)); }
        (PrintStep(first) + PrintSteps(rest)) + PrintSteps(b);
      == { assert a == [first] + rest; }
        PrintSteps(a) + PrintSteps(b);
      }
    }
  }

  lemma PrintExtend(steps: seq<Step>, step: Step)
    ensures Print(steps + [step]) == Print(steps) + PrintStep(step)
  {
    PrintStepsAppend(steps, [step]);
    assert [step][1..] == [];
    assert PrintStep(step) + "" == PrintStep(step);
    Associate("$", PrintSteps(steps), PrintStep(step));
  }

  // ----- Reading back -----

  /** The length of the longest prefix of name characters. */
  function NameRun(s: string): (n: nat)
    ensures n <= |s|
  {
    if s != "" && IsNameChar(s[0]) then 1 + NameRun(s[1..]) else 0
  }

  function DigitRun(s: string): (n: nat)
    ensures n <= |s|
  {
    if s != "" && IsDigit(s[0]) then 1 + DigitRun(s[1..]) else 0
  }

  lemma {:induction false} NameRunIs(name: string, rest: string)
    requires forall i :: 0 <= i < |name| ==> IsNameChar(name[i])
    requires rest == "" || !IsNameChar(rest[0])
    ensures NameRun(name + rest) == |name|
  {
    if name == "" {
      assert name + rest == rest;
    } else {
      NameRunIs(name[1..], rest);
      assert (name + rest)[1..] == name[1..] + rest;
    }
  }

  lemma {:induction false} DigitRunIs(digits: string, rest: string)
    requires AllDigits(digits) && (rest == "" || !IsDigit(rest[0]))
    ensures DigitRun(digits + rest) == |digits|
  {
    if digits == "" {
      assert digits + rest == rest;
    } else {
      DigitRunIs(digits[1..], rest);
      assert (digits + rest)[1..] == digits[1..] + rest;
    }
  }

  lemma {:induction false} RunFacts(s: string)
    ensures forall i :: 0 <= i < NameRun(s) ==> IsNameChar(s[i])
    ensures AllDigits(s[..DigitRun(s)])
  {
    if s != "" {
      RunFacts(s[1..]);
      assert forall i :: 1 <= i < |s| ==> s[i] == s[1..][i - 1];
      if IsDigit(s[0]) {
        assert s[..DigitRun(s)] == [s[0]] + s[1..][..DigitRun(s[1..])];
      }
    }
  }

  datatype Match = NoMatch | Matched(step: Step, length: nat)

  /** What the pattern matches at the start of s: a dot and a name, or an index in brackets. */
  function MatchAt(s: string): (m: Match)
    ensures m.Matched? ==> 0 < m.length <= |s|
  {
    if s != "" && s[0] == '.' && NameRun(s[1..]) > 0 then
      var n := NameRun(s[1..]);
      Matched(Key(s[1..1 + n]), 1 + n)
    else if s != "" && s[0] == '[' && 0 < DigitRun(s[1..]) < |s| - 1 && s[1 + DigitRun(s[1..])] == ']' then
      var n := DigitRun(s[1..]);
      RunFacts(s[1..]);
      assert s[1..1 + n] == s[1..][..n];
      Matched(At(FromDecimal(s[1..1 + n])), n + 2)
    else NoMatch
  }

  /** All matches from left to right; text between matches is skipped. */
  function Segments(s: string): seq<Step>
    decreases |s|
  {
    if s == "" then []
    else
      match MatchAt(s)
      case NoMatch => Segments(s[1..])
      case Matched(step, length) => [step] + Segments(s[length..])
  }

  method PathSegments(path: string) returns (segments: seq<Step>)
    ensures segments == Segments(path)
  {
    segments := [];
    var i := 0;
    while i < |path|
      invariant i <= |path| && segments + Segments(path[i..]) == Segments(path)
      decreases |path| - i
    {
      match MatchAt(path[i..]) {
        case NoMatch =>
          assert path[i..][1..] == path[i + 1..];
          i := i + 1;
        case Matched(step, length) =>
          assert path[i..][length..] == path[i + length..];
          segments := segments + [step];
          i := i + length;
      }
    }
    assert path[|path|..] == "";
  }

  predicate Separates(rest: string) {
    rest == "" || rest[0] == '.' || rest[0] == '['
  }

  lemma KeyReadBack(name: string, rest: string)
    requires GoodName(name) && Separates(rest)
    ensures Segments(PrintStep(Key(name)) + rest) == [Key(name)] + Segments(rest)
  {
    var s := PrintStep(Key(name)) + rest;
    assert s[1..] == name + rest;
    NameRunIs(name, rest);
    assert s[1..1 + |name|] == name && s[1 + |name|..] == rest;
    assert MatchAt(s) == Matched(Key(name), 1 + |name|);
  }

  lemma IndexReadBack(index: nat, rest: string)
    ensures Segments(PrintStep(At(index)) + rest) == [At(index)] + Segments(rest)
  {
    var digits := ToDecimal(index);
    DecimalRoundTrip(index);
    var s := PrintStep(At(index)) + rest;
    assert s[1..] == digits + ("]" + rest);
    DigitRunIs(digits, "]" + rest);
    assert s[1..1 + |digits|] == digits && s[|digits| + 2..] == rest;
    assert MatchAt(s) == Matched(At(index), |digits| + 2);
  }

  lemma {:induction false} StepsReadBack(steps: seq<Step>)
    requires forall i :: 0 <= i < |steps| ==> GoodStep(steps[i])
    ensures Segments(PrintSteps(steps)) == steps && Separates(PrintSteps(steps))
  {
    if steps != [] {
      StepsReadBack(steps[1..]);
      var rest := PrintSteps(steps[1..]);
      match steps[0]
      case Key(name) => KeyReadBack(name, rest);
      case At(index) => IndexReadBack(index, rest);
    }
  }

  lemma {:induction false} SegmentsAreGood(s: string)
    ensures forall i :: 0 <= i < |Segments(s)| ==> GoodStep(Segments(s)[i])
    decreases |s|
  {
    if s != "" {
      match MatchAt(s)
      case NoMatch => SegmentsAreGood(s[1..]);
      case Matched(step, length) =>
        SegmentsAreGood(s[length..]);
        RunFacts(s[1..]);
        assert forall i :: 1 <= i < |s| ==> s[i] == s[1..][i - 1];
    }
  }

  /** A printed path reads back to its steps exactly when every field name in it is a non-empty run of
      letters, digits, underscores and hyphens. */
  lemma PathReadBack(steps: seq<Step>)
    ensures Segments(Print(steps)) == steps <==> forall i :: 0 <= i < |steps| ==> GoodStep(steps[i])
  {
    var s := Print(steps);
    assert MatchAt(s) == NoMatch && s[1..] == PrintSteps(steps);
    SegmentsAreGood(PrintSteps(steps));
    if forall i :: 0 <= i < |steps| ==> GoodStep(steps[i]) {
      StepsReadBack(steps);
    }
  }
}
