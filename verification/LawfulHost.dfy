/** A host that keeps the laws asked of the library functions: they can be met. */
module LawfulHost {
  import opened Options
  import opened PyText
  import opened HostConfig
  import opened AdapterFiles
  import opened AdapterLifecycle
  import opened AdapterUninstall

  // ----- A text for every JSON value -----

  function NatText(n: nat): string {
    if n == 0 then "." else "1" + NatText(n - 1)
  }

  function IntText(i: int): string {
    if i < 0 then "-" + NatText(-i) else "+" + NatText(i)
  }

  function StringText(s: string): string {
    if s == "" then "." else "c" + [s[0]] + StringText(s[1..])
  }

  function BoolText(b: bool): string {
    if b then "t" else "f"
  }

  function DoubleText(x: Double): string {
    match x
    case Finite(negative, mantissa, exponent) => "f" + BoolText(negative) + NatText(mantissa) + IntText(exponent)
    case Infinite(negative) => "i" + BoolText(negative)
  }

  ghost function JsonText(v: Json): string
    decreases v, 0
  {
    match v
    case Null => "n"
    case Bool(b) => "b" + BoolText(b)
    case Int(i) => "i" + IntText(i)
    case Float(x) => "d" + DoubleText(x)
    case Str(s) => "s" + StringText(s)
    case List(items) => "l" + ItemsText(items)
    case Obj(fields) => "o" + FieldsText(v, fields.Keys)
  }

  ghost function ItemsText(items: seq<Json>): string
    decreases items, 0
  {
    if items == [] then "." else "," + JsonText(items[0]) + ItemsText(items[1..])
  }

  ghost function AnyName(names: set<string>): (name: string)
    requires names != {}
    ensures name in names
  {
    var name :| name in names;
    name
  }

  /** The fields with the given names, one after the other. */
  ghost function FieldsText(v: Json, names: set<string>): string
    requires v.Obj? && names <= v.fields.Keys
    decreases v, 0, |names|
  {
    if names == {} then "."
    else
      var name := AnyName(names);
      "," + StringText(name) + JsonText(v.fields[name]) + FieldsText(v, names - {name})
  }

  // ----- Each text tells where it ends -----

  lemma Peel(c: string, a: string, x: string, d: string, b: string, y: string)
    requires |c| == |d| && c + a + x == d + b + y
    ensures c == d && a + x == b + y
  {
    var whole := c + a + x;
    assert c == whole[..|c|] == d;
    assert a + x == whole[|c|..] == b + y;
  }

  lemma PeelAll(c: string, x: string, d: string, y: string)
    requires |c| == |d| && c + x == d + y
    ensures c == d && x == y
  {
    var whole := c + x;
    assert c == whole[..|c|] == d;
    assert x == whole[|c|..] == y;
  }

  lemma Regroup(a: string, b: string, x: string)
    ensures a + b + x == a + (b + x)
  {
  }

  /** The first characters of two texts that agree. */
  lemma SameStart(a: string, x: string, b: string, y: string)
    requires a + x == b + y && a != "" && b != ""
    ensures a[0] == b[0]
  {
    assert (a + x)[0] == (b + y)[0];
  }

  lemma {:induction false} NatEnds(n: nat, m: nat, x: string, y: string)
    requires NatText(n) + x == NatText(m) + y
    ensures n == m && x == y
  {
    SameStart(NatText(n), x, NatText(m), y);
    if n == 0 {
      PeelAll(".", x, ".", y);
    } else {
      Peel("1", NatText(n - 1), x, "1", NatText(m - 1), y);
      NatEnds(n - 1, m - 1, x, y);
    }
  }

  lemma IntEnds(i: int, j: int, x: string, y: string)
    requires IntText(i) + x == IntText(j) + y
    ensures i == j && x == y
  {
    hide NatText;
    SameStart(IntText(i), x, IntText(j), y);
    if i < 0 {
      Peel("-", NatText(-i), x, "-", NatText(-j), y);
      NatEnds(-i, -j, x, y);
    } else {
      Peel("+", NatText(i), x, "+", NatText(j), y);
      NatEnds(i, j, x, y);
    }
  }

  lemma {:induction false} StringEnds(s: string, t: string, x: string, y: string)
    requires StringText(s) + x == StringText(t) + y
    ensures s == t && x == y
  {
    SameStart(StringText(s), x, StringText(t), y);
    if s == "" {
      PeelAll(".", x, ".", y);
    } else {
      Peel("c" + [s[0]], StringText(s[1..]), x, "c" + [t[0]], StringText(t[1..]), y);
      StringEnds(s[1..], t[1..], x, y);
      assert ("c" + [s[0]])[1] == s[0] && ("c" + [t[0]])[1] == t[0];
      assert s == [s[0]] + s[1..] && t == [t[0]] + t[1..];
    }
  }

  lemma BoolEnds(a: bool, b: bool, x: string, y: string)
    requires BoolText(a) + x == BoolText(b) + y
    ensures a == b && x == y
  {
    PeelAll(BoolText(a), x, BoolText(b), y);
  }

  lemma DoubleEnds(a: Double, b: Double, x: string, y: string)
    requires DoubleText(a) + x == DoubleText(b) + y
    ensures a == b && x == y
  {
    hide NatText, IntText, BoolText;
    SameStart(DoubleText(a), x, DoubleText(b), y);
    if a.Infinite? {
      Peel("i", BoolText(a.negative), x, "i", BoolText(b.negative), y);
      BoolEnds(a.negative, b.negative, x, y);
    } else {
      var a', b' := NatText(a.mantissa) + (IntText(a.exponent) + x), NatText(b.mantissa) + (IntText(b.exponent) + y);
      Regroup("f" + BoolText(a.negative) + NatText(a.mantissa), IntText(a.exponent), x);
      Regroup("f" + BoolText(a.negative), NatText(a.mantissa), IntText(a.exponent) + x);
      Regroup("f" + BoolText(b.negative) + NatText(b.mantissa), IntText(b.exponent), y);
      Regroup("f" + BoolText(b.negative), NatText(b.mantissa), IntText(b.exponent) + y);
      Peel("f", BoolText(a.negative), a', "f", BoolText(b.negative), b');
      BoolEnds(a.negative, b.negative, a', b');
      NatEnds(a.mantissa, b.mantissa, IntText(a.exponent) + x, IntText(b.exponent) + y);
      IntEnds(a.exponent, b.exponent, x, y);
    }
  }

  lemma {:induction false} ItemsEnd(items: seq<Json>, others: seq<Json>, x: string, y: string)
    requires ItemsText(items) + x == ItemsText(others) + y
    ensures items == others && x == y
    decreases items, 0
  {
    hide JsonText;
    SameStart(ItemsText(items), x, ItemsText(others), y);
    if items == [] {
      PeelAll(".", x, ".", y);
    } else {
      var x', y' := ItemsText(items[1..]) + x, ItemsText(others[1..]) + y;
      Regroup("," + JsonText(items[0]), ItemsText(items[1..]), x);
      Regroup("," + JsonText(others[0]), ItemsText(others[1..]), y);
      Peel(",", JsonText(items[0]), x', ",", JsonText(others[0]), y');
      JsonEnds(items[0], others[0], x', y');
      ItemsEnd(items[1..], others[1..], x, y);
      assert items == [items[0]] + items[1..] && others == [others[0]] + others[1..];
    }
  }

  lemma {:induction false} FieldsEnd(v: Json, w: Json, names: set<string>, others: set<string>, x: string, y: string)
    requires v.Obj? && names <= v.fields.Keys && w.Obj? && others <= w.fields.Keys
    requires FieldsText(v, names) + x == FieldsText(w, others) + y
    ensures names == others && x == y && forall n :: n in names ==> v.fields[n] == w.fields[n]
    decreases v, 0, |names|
  {
    hide JsonText, StringText, AnyName;
    SameStart(FieldsText(v, names), x, FieldsText(w, others), y);
    if names == {} {
      PeelAll(".", x, ".", y);
    } else {
      var n, m := AnyName(names), AnyName(others);
      var x1, y1 := FieldsText(v, names - {n}) + x, FieldsText(w, others - {m}) + y;
      var x2, y2 := JsonText(v.fields[n]) + x1, JsonText(w.fields[m]) + y1;
      Regroup("," + StringText(n) + JsonText(v.fields[n]), FieldsText(v, names - {n}), x);
      Regroup("," + StringText(n), JsonText(v.fields[n]), x1);
      Regroup("," + StringText(m) + JsonText(w.fields[m]), FieldsText(w, others - {m}), y);
      Regroup("," + StringText(m), JsonText(w.fields[m]), y1);
      Peel(",", StringText(n), x2, ",", StringText(m), y2);
      StringEnds(n, m, x2, y2);
      JsonEnds(v.fields[n], w.fields[m], x1, y1);
      FieldsEnd(v, w, names - {n}, others - {n}, x, y);
      assert names == (names - {n}) + {n} && others == (others - {n}) + {n};
    }
  }

  lemma {:induction false} JsonEnds(v: Json, w: Json, x: string, y: string)
    requires JsonText(v) + x == JsonText(w) + y
    ensures v == w && x == y
    decreases v, 1
  {
    hide IntText, BoolText, DoubleText, StringText, ItemsText, FieldsText;
    SameStart(JsonText(v), x, JsonText(w), y);
    match v
    case Null => PeelAll("n", x, "n", y);
    case Bool(b) =>
      Peel("b", BoolText(b), x, "b", BoolText(w.b), y);
      BoolEnds(b, w.b, x, y);
    case Int(i) =>
      Peel("i", IntText(i), x, "i", IntText(w.i), y);
      IntEnds(i, w.i, x, y);
    case Float(d) =>
      Peel("d", DoubleText(d), x, "d", DoubleText(w.x), y);
      DoubleEnds(d, w.x, x, y);
    case Str(s) =>
      Peel("s", StringText(s), x, "s", StringText(w.s), y);
      StringEnds(s, w.s, x, y);
    case List(items) =>
      Peel("l", ItemsText(items), x, "l", ItemsText(w.items), y);
      ItemsEnd(items, w.items, x, y);
    case Obj(fields) =>
      Peel("o", FieldsText(v, fields.Keys), x, "o", FieldsText(w, w.fields.Keys), y);
      FieldsEnd(v, w, fields.Keys, w.fields.Keys, x, y);
      assert fields == w.fields;
  }

  // ----- The host -----

  ghost predicate IsTextOf(v: Json, text: string) {
    JsonText(v) == text
  }

  ghost function ReadText(text: string): Option<Json> {
    if exists v :: IsTextOf(v, text) then
      var v :| IsTextOf(v, text);
      Some(v)
    else None
  }

  lemma ReadBack(v: Json)
    ensures ReadText(JsonText(v)) == Some(v)
  {
    hide JsonText;
    assert IsTextOf(v, JsonText(v));
    forall w | IsTextOf(w, JsonText(v)) ensures w == v {
      JsonEnds(w, v, "", "");
    }
  }

  function Framed(text: string): string {
    "h" + text + "h"
  }

  function PlainText(v: Json): string {
    if v.Str? then v.s else ""
  }

  ghost function SomeHost(): Host {
    Host(text => ReadText(text), v => JsonText(v), text => Framed(text), v => PlainText(v))
  }

  /** The laws can be kept all at once. */
  lemma SomeHostIsLawful()
    ensures Lawful(SomeHost())
  {
    hide JsonText, ReadText;
    var h := SomeHost();
    forall v ensures h.parse(h.render(v)) == Some(v) {
      ReadBack(v);
    }
    forall t, u | h.sha(t) == h.sha(u) ensures t == u {
      assert t == Framed(t)[1..|t| + 1] && u == Framed(u)[1..|u| + 1];
    }
    forall t ensures h.sha(t) != "" && Strip(h.sha(t)) == h.sha(t) {
      StrippedIsFixed(Framed(t));
    }
  }

  /** An adapter for Claude Code with one file. */
  function SmallAdapter(): Adapter {
    Adapter("claude", ["skill.md"], map["skill.md" := "text"], "marker", {}, "manifest", "settings.json")
  }

  /** So the hypotheses of the install results are met: this adapter installs into an empty project. */
  lemma InstallIsPossible()
    ensures var a, h, fs: Files := SmallAdapter(), SomeHost(), map[];
      WellFormed(a) && Lawful(h) && IsClaude(a) && InstallOutcome(a, h, fs) == Done
  {
    hide SomeHost, Lawful, InstallOutcome, InstallFiles, UninstallFiles;
    StrippedIsFixed("skill.md");
    assert |"skill.md"| == 8 && |"manifest"| == 8 && "skill.md"[0] != "manifest"[0] && |"settings.json"| == 13;
    SomeHostIsLawful();
    FreshRoundTrip(SmallAdapter(), SomeHost(), map[], "now");
  }
}
