/** Finite directed graphs given by a map from each key to its set of targets.
    A target that is not itself a key is ignored, as the traversal ignores it. */
module Digraph {

  datatype Node = Node(name: string)
  type Graph = map<Node, set<Node>>

  predicate Edge(g: Graph, x: Node, y: Node) {
    x in g && y in g && y in g[x]
  }

  ghost predicate Walk(g: Graph, p: seq<Node>) {
    && p != []
    && (forall i :: 0 <= i < |p| ==> p[i] in g)
    && (forall i :: 0 <= i < |p| - 1 ==> Edge(g, p[i], p[i + 1]))
  }

  ghost predicate WalkFromTo(g: Graph, p: seq<Node>, x: Node, y: Node) {
    Walk(g, p) && p[0] == x && p[|p| - 1] == y
  }

  /** y can be reached from x along edges between keys. */
  ghost predicate Connects(g: Graph, x: Node, y: Node) {
    exists p :: WalkFromTo(g, p, x, y)
  }

  ghost predicate Closed(g: Graph, s: set<Node>) {
    forall x, y {:trigger Edge(g, x, y)} :: x in s && Edge(g, x, y) ==> y in s
  }

  /** Reachability without walks: y lies in every closed set that holds x. */
  ghost predicate Reach(g: Graph, x: Node, y: Node) {
    forall s {:trigger Closed(g, s)} :: Closed(g, s) && x in s ==> y in s
  }

  ghost predicate Mutual(g: Graph, x: Node, y: Node) {
    Reach(g, x, y) && Reach(g, y, x)
  }

  lemma WalkStays(g: Graph, s: set<Node>, p: seq<Node>)
    requires Walk(g, p) && Closed(g, s) && p[0] in s
    ensures forall i :: 0 <= i < |p| ==> p[i] in s
  {
    for i := 0 to |p| - 1
      invariant forall j :: 0 <= j <= i ==> p[j] in s
    {
      assert Edge(g, p[i], p[i + 1]);
    }
  }

  /** The two notions of reachability agree on the keys. */
  lemma ReachIsConnects(g: Graph, x: Node, y: Node)
    requires x in g
    ensures Reach(g, x, y) <==> Connects(g, x, y)
  {
    if Connects(g, x, y) {
      var p :| WalkFromTo(g, p, x, y);
      forall s | Closed(g, s) && x in s ensures y in s {
        WalkStays(g, s, p);
      }
    }
    var reached := set z | z in g && Connects(g, x, z);
    assert WalkFromTo(g, [x], x, x);
    forall u, v | u in reached && Edge(g, u, v) ensures v in reached {
      var p :| WalkFromTo(g, p, x, u);
      assert WalkFromTo(g, p + [v], x, v);
    }
    assert Closed(g, reached) && x in reached;
  }

  lemma ReachTrans(g: Graph, x: Node, y: Node, z: Node)
    requires Reach(g, x, y) && Reach(g, y, z)
    ensures Reach(g, x, z)
  {
  }
}
