/** The import-cycle figures of the complexity budget, read off the strongly connected components. */
module ImportCycles {
  import opened Digraph
  import opened Tarjan

  datatype Statement = Docstring | ImportOrAssign | OtherStatement

  /** A source file: its module name, the modules it imports, its top-level statements. */
  datatype SourceFile = SourceFile(name: Node, targets: set<Node>, body: seq<Statement>)

  /** The graph after reading the files in order: a later file of the same name replaces an earlier
      one, and a module never targets itself. */
  function ImportGraph(files: seq<SourceFile>): Graph {
    if files == [] then map[]
    else
      var f := files[|files| - 1];
      ImportGraph(files[..|files| - 1])[f.name := f.targets - {f.name}]
  }

  predicate NoSelfEdges(g: Graph) {
    forall x :: x in g ==> x !in g[x]
  }

  /** A cycle: a walk of at least one edge back to its start. */
  ghost predicate Cycle(g: Graph, p: seq<Node>) {
    Walk(g, p) && |p| > 1 && p[0] == p[|p| - 1]
  }

  ghost predicate Acyclic(g: Graph) {
    forall p :: !Cycle(g, p)
  }

  ghost predicate MutualKeys(g: Graph, x: Node, y: Node) {
    x in g && y in g && Connects(g, x, y) && Connects(g, y, x)
  }

  /** All the modules that import x and are imported by x, directly or not. */
  ghost function ClassOf(g: Graph, x: Node): set<Node> {
    set y | y in g && MutualKeys(g, x, y)
  }

  /** The classes of more than one module. */
  ghost function CycleClasses(g: Graph): set<set<Node>> {
    set x | x in g && |ClassOf(g, x)| > 1 :: ClassOf(g, x)
  }

  function Nodes(c: seq<Node>): set<Node> {
    set x | x in c
  }

  lemma {:induction false} NodesSize(c: seq<Node>)
    requires NoRepeats(c)
    ensures |Nodes(c)| == |c|
  {
    if c == [] {
      assert Nodes(c) == {};
    } else {
      var rest, last := c[..|c| - 1], c[|c| - 1];
      NodesSize(rest);
      assert c == rest + [last];
      assert Nodes(c) == Nodes(rest) + {last};
    }
  }

  lemma ComponentIsClass(g: Graph, comps: seq<seq<Node>>, k: nat, x: Node)
    requires IsDecomposition(g, comps) && In(comps, k, x)
    ensures Nodes(comps[k]) == ClassOf(g, x) && |comps[k]| == |ClassOf(g, x)|
  {
    forall y ensures y in comps[k] <==> y in ClassOf(g, x) {
      if y in comps[k] {
        assert In(comps, k, y);
        assert SameComponent(comps, x, y) && SameComponent(comps, y, x);
      }
      if y in ClassOf(g, x) {
        assert SameComponent(comps, x, y);
      }
    }
    NodesSize(comps[k]);
  }

  /** The components of more than one node. */
  function Cyclic(comps: seq<seq<Node>>): (r: seq<seq<Node>>) {
    if comps == [] then []
    else Cyclic(comps[..|comps| - 1]) + if |comps[|comps| - 1]| > 1 then [comps[|comps| - 1]] else []
  }

  function Largest(comps: seq<seq<Node>>): nat {
    if comps == [] then 0
    else
      var rest, size := Largest(comps[..|comps| - 1]), |comps[|comps| - 1]|;
      if size > rest then size else rest
  }

  ghost function ClassesUpTo(comps: seq<seq<Node>>): set<set<Node>> {
    set k | 0 <= k < |comps| && |comps[k]| > 1 :: Nodes(comps[k])
  }

  ghost predicate Apart(comps: seq<seq<Node>>) {
    && (forall k :: 0 <= k < |comps| ==> NoRepeats(comps[k]))
    && (forall j, k, x :: In(comps, j, x) && In(comps, k, x) ==> j == k)
  }

  lemma ApartInit(comps: seq<seq<Node>>)
    requires Apart(comps) && comps != []
    ensures Apart(comps[..|comps| - 1])
  {
    var rest := comps[..|comps| - 1];
    assert forall k, x :: In(rest, k, x) ==> In(comps, k, x);
  }

  lemma ClassesSplit(comps: seq<seq<Node>>)
    requires Apart(comps) && comps != []
    ensures var rest, last := comps[..|comps| - 1], comps[|comps| - 1];
      && ClassesUpTo(comps) == ClassesUpTo(rest) + (if |last| > 1 then {Nodes(last)} else {})
      && (|last| > 1 ==> Nodes(last) !in ClassesUpTo(rest) && |Nodes(last)| == |last|)
  {
    var n := |comps| - 1;
    var rest, last := comps[..n], comps[n];
    assert forall k :: 0 <= k < n ==> rest[k] == comps[k];
    NodesSize(last);
    if |last| > 1 && Nodes(last) in ClassesUpTo(rest) {
      var k :| 0 <= k < n && |rest[k]| > 1 && Nodes(rest[k]) == Nodes(last);
      assert last[0] in Nodes(rest[k]);
      assert In(comps, k, last[0]) && In(comps, n, last[0]);
    }
  }

  lemma {:induction false} CyclicCounts(comps: seq<seq<Node>>)
    requires Apart(comps)
    ensures |Cyclic(comps)| == |ClassesUpTo(comps)|
  {
    if comps != [] {
      ApartInit(comps);
      CyclicCounts(comps[..|comps| - 1]);
      ClassesSplit(comps);
    }
  }

  lemma LargestAppend(list: seq<seq<Node>>, c: seq<Node>)
    ensures Largest(list + [c]) == if |c| > Largest(list) then |c| else Largest(list)
  {
    assert (list + [c])[..|list|] == list;
  }

  lemma {:induction false} CyclicLargest(comps: seq<seq<Node>>)
    requires Apart(comps)
    ensures forall c :: c in ClassesUpTo(comps) ==> |c| <= Largest(Cyclic(comps))
    ensures Cyclic(comps) != [] ==> exists c :: c in ClassesUpTo(comps) && |c| == Largest(Cyclic(comps))
  {
    if comps != [] {
      var rest, last := comps[..|comps| - 1], comps[|comps| - 1];
      ApartInit(comps);
      CyclicLargest(rest);
      ClassesSplit(comps);
      if |last| > 1 {
        assert Cyclic(comps) == Cyclic(rest) + [last];
        LargestAppend(Cyclic(rest), last);
        if |last| > Largest(Cyclic(rest)) {
          assert Nodes(last) in ClassesUpTo(comps);
        } else {
          var c :| c in ClassesUpTo(rest) && |c| == Largest(Cyclic(rest));
          assert c in ClassesUpTo(comps);
        }
      } else {
        assert Cyclic(comps) == Cyclic(rest);
      }
    }
  }

  lemma ClassesAgree(g: Graph, comps: seq<seq<Node>>)
    requires IsDecomposition(g, comps)
    ensures ClassesUpTo(comps) == CycleClasses(g)
  {
    forall c | c in ClassesUpTo(comps) ensures c in CycleClasses(g) {
      var k :| 0 <= k < |comps| && |comps[k]| > 1 && Nodes(comps[k]) == c;
      var x := comps[k][0];
      assert In(comps, k, x);
      ComponentIsClass(g, comps, k, x);
    }
    forall c | c in CycleClasses(g) ensures c in ClassesUpTo(comps) {
      var x :| x in g && |ClassOf(g, x)| > 1 && c == ClassOf(g, x);
      assert SameComponent(comps, x, x);
      var k :| In(comps, k, x) && In(comps, k, x);
      ComponentIsClass(g, comps, k, x);
    }
  }

  lemma JoinWalks(g: Graph, p: seq<Node>, q: seq<Node>)
    requires Walk(g, p) && Walk(g, q) && p[|p| - 1] == q[0]
    ensures Walk(g, p + q[1..])
  {
    var r := p + q[1..];
    forall i | 0 <= i < |r| - 1 ensures Edge(g, r[i], r[i + 1]) {
      if i >= |p| - 1 {
        assert r[i] == q[i - (|p| - 1)] && r[i + 1] == q[i - (|p| - 1) + 1];
      }
    }
  }

  /** Two modules in one class lie on a cycle. */
  lemma ClassHasCycle(g: Graph, x: Node, y: Node)
    requires MutualKeys(g, x, y) && x != y
    ensures !Acyclic(g)
  {
    var p :| WalkFromTo(g, p, x, y);
    var q :| WalkFromTo(g, q, y, x);
    JoinWalks(g, p, q);
    assert Cycle(g, p + q[1..]);
  }

  /** A cycle without self-edges puts two modules in one class. */
  lemma CycleMakesClass(g: Graph, p: seq<Node>)
    requires NoSelfEdges(g) && Cycle(g, p)
    ensures MutualKeys(g, p[0], p[1]) && p[0] != p[1]
  {
    assert Edge(g, p[0], p[1]);
    assert WalkFromTo(g, [p[0], p[1]], p[0], p[1]);
    var q := p[1..];
    forall i | 0 <= i < |q| - 1 ensures Edge(g, q[i], q[i + 1]) {
      assert q[i] == p[i + 1] && q[i + 1] == p[i + 2];
    }
    assert WalkFromTo(g, q, p[1], p[0]);
  }

  lemma TwoMembers(s: set<Node>, x: Node)
    requires x in s
    ensures |s| > 1 <==> exists y :: y in s && y != x
  {
    var others := s - {x};
    assert s == others + {x};
    if |s| > 1 {
      assert others != {};
      var y :| y in others;
    } else {
      assert others == {};
    }
  }

  lemma ClassGivesCycle(g: Graph, x: Node)
    requires x in g && |ClassOf(g, x)| > 1
    ensures !Acyclic(g)
  {
    assert WalkFromTo(g, [x], x, x);
    TwoMembers(ClassOf(g, x), x);
    var y :| y in ClassOf(g, x) && y != x;
    ClassHasCycle(g, x, y);
  }

  lemma CycleGivesClass(g: Graph, p: seq<Node>)
    requires NoSelfEdges(g) && Cycle(g, p)
    ensures p[0] in g && |ClassOf(g, p[0])| > 1
  {
    CycleMakesClass(g, p);
    assert WalkFromTo(g, [p[0]], p[0], p[0]);
    assert p[1] in ClassOf(g, p[0]);
    TwoMembers(ClassOf(g, p[0]), p[0]);
  }

  /** The figure is zero exactly when the import graph has no cycle. */
  lemma NoCycleClasses(g: Graph)
    requires NoSelfEdges(g)
    ensures CycleClasses(g) == {} <==> Acyclic(g)
  {
    if c :| c in CycleClasses(g) {
      var x :| x in g && |ClassOf(g, x)| > 1 && c == ClassOf(g, x);
      ClassGivesCycle(g, x);
    }
    if p :| Cycle(g, p) {
      CycleGivesClass(g, p);
      assert ClassOf(g, p[0]) in CycleClasses(g);
    }
  }

  lemma {:induction false} ImportGraphKeys(files: seq<SourceFile>)
    ensures ImportGraph(files).Keys == set f | f in files :: f.name
    ensures NoSelfEdges(ImportGraph(files))
  {
    if files != [] {
      var rest, last := files[..|files| - 1], files[|files| - 1];
      ImportGraphKeys(rest);
      assert files == rest + [last];
    }
  }

  // ----- The same in terms of files -----

  /** File i is the last one named x. */
  ghost predicate LastNamed(files: seq<SourceFile>, x: Node, i: nat) {
    i < |files| && files[i].name == x && forall j :: i < j < |files| ==> files[j].name != x
  }

  ghost predicate Named(files: seq<SourceFile>, y: Node) {
    exists j :: 0 <= j < |files| && files[j].name == y
  }

  /** x and y are two modules, and the last file named x imports y. */
  ghost predicate Imports(files: seq<SourceFile>, x: Node, y: Node) {
    x != y && Named(files, y) && exists i: nat :: LastNamed(files, x, i) && y in files[i].targets
  }

  lemma {:induction false} TargetsAre(files: seq<SourceFile>, x: Node, y: Node)
    ensures x in ImportGraph(files) <==> Named(files, x)
    ensures x in ImportGraph(files) && y in ImportGraph(files)[x] <==>
      x != y && exists i: nat :: LastNamed(files, x, i) && y in files[i].targets
  {
    if files != [] {
      var n := |files| - 1;
      var rest := files[..n];
      TargetsAre(rest, x, y);
      if files[n].name == x {
        assert LastNamed(files, x, n);
      } else {
        forall i: nat ensures LastNamed(files, x, i) <==> LastNamed(rest, x, i) {
        }
      }
    }
  }

  /** The edges of the import graph are the imports of the last file of each name. */
  lemma EdgesAre(files: seq<SourceFile>, x: Node, y: Node)
    ensures Edge(ImportGraph(files), x, y) <==> Imports(files, x, y)
  {
    TargetsAre(files, x, y);
    TargetsAre(files, y, y);
  }

  /** A chain of modules, each of which imports the next. */
  ghost predicate Chain(files: seq<SourceFile>, p: seq<Node>) {
    |p| > 1 && forall i :: 0 <= i < |p| - 1 ==> Imports(files, p[i], p[i + 1])
  }

  ghost predicate ImportCycle(files: seq<SourceFile>, p: seq<Node>) {
    Chain(files, p) && p[0] == p[|p| - 1]
  }

  /** x imports y, directly or not. */
  ghost predicate Leads(files: seq<SourceFile>, x: Node, y: Node) {
    exists p :: Chain(files, p) && p[0] == x && p[|p| - 1] == y
  }

  /** Modules each of which imports every other, directly or not. */
  ghost predicate Tangle(files: seq<SourceFile>, s: set<Node>) {
    |s| > 1 && forall x, y :: x in s && y in s && x != y ==> Leads(files, x, y)
  }

  lemma ChainsAre(files: seq<SourceFile>, p: seq<Node>)
    ensures |p| > 1 && Walk(ImportGraph(files), p) <==> Chain(files, p)
  {
    hide Imports;
    var g := ImportGraph(files);
    forall i | 0 <= i < |p| - 1 ensures Edge(g, p[i], p[i + 1]) <==> Imports(files, p[i], p[i + 1]) {
      EdgesAre(files, p[i], p[i + 1]);
    }
    if Chain(files, p) {
      forall i | 0 <= i < |p| ensures p[i] in g {
        assert Edge(g, p[if i == 0 then 0 else i - 1], p[if i == 0 then 1 else i]);
      }
    }
  }

  lemma CyclesAre(files: seq<SourceFile>)
    ensures Acyclic(ImportGraph(files)) <==> forall p :: !ImportCycle(files, p)
  {
    hide Walk, Chain, ImportGraph;
    forall p ensures Cycle(ImportGraph(files), p) <==> ImportCycle(files, p) {
      ChainsAre(files, p);
    }
  }

  lemma ClassIsTangle(files: seq<SourceFile>, c: set<Node>)
    requires c in CycleClasses(ImportGraph(files))
    ensures Tangle(files, c)
  {
    hide Walk, Imports, ImportGraph;
    var g := ImportGraph(files);
    var z :| z in g && |ClassOf(g, z)| > 1 && c == ClassOf(g, z);
    forall x, y | x in c && y in c && x != y ensures Leads(files, x, y) {
      var p := ConnectedInClass(g, z, x, y);
      ChainsAre(files, p);
    }
  }

  lemma ConnectedInClass(g: Graph, z: Node, x: Node, y: Node) returns (p: seq<Node>)
    requires x in ClassOf(g, z) && y in ClassOf(g, z) && x != y
    ensures WalkFromTo(g, p, x, y) && |p| > 1
  {
    var q :| WalkFromTo(g, q, x, z);
    var r :| WalkFromTo(g, r, z, y);
    JoinWalks(g, q, r);
    p := q + r[1..];
  }

  lemma TangleInClass(files: seq<SourceFile>, s: set<Node>)
    requires Tangle(files, s)
    ensures exists c :: c in CycleClasses(ImportGraph(files)) && |s| <= |c|
  {
    var g := ImportGraph(files);
    var x :| x in s;
    hide Connects, ImportGraph, Leads;
    TwoMembers(s, x);
    forall y | y in s ensures y in ClassOf(g, x) {
      if y != x {
        TangleConnects(files, s, x, y);
        TangleConnects(files, s, y, x);
      } else {
        var z :| z in s && z != x;
        TangleConnects(files, s, x, z);
        Itself(g, x);
      }
    }
    Subsets(s, ClassOf(g, x));
    assert ClassOf(g, x) in CycleClasses(g);
  }

  lemma Itself(g: Graph, x: Node)
    requires x in g
    ensures Connects(g, x, x)
  {
    assert WalkFromTo(g, [x], x, x);
  }

  lemma TangleConnects(files: seq<SourceFile>, s: set<Node>, x: Node, y: Node)
    requires Tangle(files, s) && x in s && y in s && x != y
    ensures x in ImportGraph(files) && y in ImportGraph(files) && Connects(ImportGraph(files), x, y)
  {
    var p :| Chain(files, p) && p[0] == x && p[|p| - 1] == y;
    ChainsAre(files, p);
    assert WalkFromTo(ImportGraph(files), p, x, y);
  }

  lemma Subsets(part: set<Node>, all: set<Node>)
    requires part <= all
    ensures |part| <= |all|
  {
    assert all == part + (all - part);
  }

  // ----- The figures -----

  /** The top-level statements that are no docstrings. */
  function Code(body: seq<Statement>): (r: seq<Statement>)
    ensures forall s :: s in r <==> s in body && s != Docstring
  {
    if body == [] then []
    else
      assert body == [body[0]] + body[1..];
      (if body[0] == Docstring then [] else [body[0]]) + Code(body[1..])
  }

  predicate ImportDataOnly(f: SourceFile) {
    var code := Code(f.body);
    code != [] && forall i :: 0 <= i < |code| ==> code[i] == ImportOrAssign
  }

  /** The files with an import or assignment and, docstrings aside, nothing else. */
  ghost function DataOnlyFiles(files: seq<SourceFile>, n: nat): set<nat>
    requires n <= |files|
  {
    set i | 0 <= i < n && ImportOrAssign in files[i].body && OtherStatement !in files[i].body
  }

  lemma DataOnlyNext(files: seq<SourceFile>, n: nat)
    requires n < |files|
    ensures |DataOnlyFiles(files, n + 1)| == |DataOnlyFiles(files, n)| + if ImportDataOnly(files[n]) then 1 else 0
  {
    var code := Code(files[n].body);
    assert forall i :: 0 <= i < |code| ==> code[i] in code;
    assert ImportDataOnly(files[n]) <==> ImportOrAssign in files[n].body && OtherStatement !in files[n].body by {
      if ImportDataOnly(files[n]) {
        assert code[0] in code;
      }
    }
    assert DataOnlyFiles(files, n + 1) == DataOnlyFiles(files, n) + if ImportDataOnly(files[n]) then {n} else {};
  }

  lemma FiguresAre(files: seq<SourceFile>, cycles: nat, largest: nat)
    requires cycles == |CycleClasses(ImportGraph(files))|
    requires cycles > 0 ==> exists c :: c in CycleClasses(ImportGraph(files)) && |c| == largest
    requires forall c :: c in CycleClasses(ImportGraph(files)) ==> |c| <= largest
    ensures cycles == 0 <==> forall p :: !ImportCycle(files, p)
    ensures cycles > 0 ==> exists s :: Tangle(files, s) && |s| == largest
    ensures forall s :: Tangle(files, s) ==> |s| <= largest
  {
    hide Acyclic, ImportCycle, Tangle, CycleClasses, ImportGraph;
    ImportGraphKeys(files);
    NoCycleClasses(ImportGraph(files));
    CyclesAre(files);
    if c :| c in CycleClasses(ImportGraph(files)) && |c| == largest {
      ClassIsTangle(files, c);
    }
    forall s | Tangle(files, s) ensures |s| <= largest {
      TangleInClass(files, s);
    }
  }

  method SourceStructure(files: seq<SourceFile>)
    returns (importDataOnly: nat, cycles: nat, largest: nat, production: nat)
    ensures importDataOnly == |DataOnlyFiles(files, |files|)|
    ensures production == |set f | f in files :: f.name|
    ensures cycles == |CycleClasses(ImportGraph(files))|
    ensures cycles == 0 <==> forall p :: !ImportCycle(files, p)
    ensures cycles == 0 ==> largest == 0
    ensures cycles > 0 ==> exists s :: Tangle(files, s) && |s| == largest
    ensures forall s :: Tangle(files, s) ==> |s| <= largest
  {
    hide ImportCycle, Tangle;
    var graph: Graph := map[];
    importDataOnly := 0;
    for i := 0 to |files|
      invariant graph == ImportGraph(files[..i])
      invariant importDataOnly == |DataOnlyFiles(files, i)|
    {
      var f := files[i];
      assert files[..i + 1][..i] == files[..i];
      graph := graph[f.name := f.targets - {f.name}];
      DataOnlyNext(files, i);
      if ImportDataOnly(f) {
        importDataOnly := importDataOnly + 1;
      }
    }
    assert files[..|files|] == files;
    var components := StronglyConnectedComponents(graph);
    var cyclic := Cyclic(components);
    cycles, largest, production := |cyclic|, Largest(cyclic), |graph|;
    CyclicCounts(components);
    CyclicLargest(components);
    ClassesAgree(graph, components);
    ImportGraphKeys(files);
    FiguresAre(files, cycles, largest);
  }
}
