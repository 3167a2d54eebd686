/** What the component search knows of each visited node, and what each of its steps keeps. */
module TarjanSearch {
  import opened Digraph

  /** Open: the visit is running. Waiting: it has returned, the node is still on the stack.
      Filed: the node left the stack in the component of that rank. */
  datatype Place = Open | Waiting | Filed(rank: nat)
  datatype Info = Info(index: nat, low: nat, place: Place)
  type Search = map<Node, Info>

  predicate OnStack(s: Search, x: Node) {
    x in s && !s[x].place.Filed?
  }

  predicate IsFiled(s: Search, x: Node) {
    x in s && s[x].place.Filed?
  }

  ghost predicate Numbered(g: Graph, s: Search) {
    forall n :: n in s ==> n in g && s[n].index < |s|
  }

  /** Only an open node may still have a target that was not visited. */
  ghost predicate Explored(g: Graph, s: Search) {
    forall x, y {:trigger Edge(g, x, y)} :: x in s && !s[x].place.Open? && Edge(g, x, y) ==> y in s
  }

  /** A node of the stack reaches every node above it. */
  ghost predicate Chain(g: Graph, s: Search) {
    forall x, y {:trigger Reach(g, x, y)} ::
      OnStack(s, x) && OnStack(s, y) && s[x].index <= s[y].index ==> Reach(g, x, y)
  }

  ghost predicate Leads(g: Graph, s: Search, x: Node, a: Node) {
    x in s && a in s && s[a].place.Open? && s[a].index <= s[x].index && Reach(g, x, a)
  }

  ghost predicate OpenReaches(g: Graph, s: Search, node: Node) {
    forall a :: a in s && s[a].place.Open? ==> Reach(g, a, node)
  }

  ghost predicate HasAnchor(g: Graph, s: Search, x: Node) {
    exists a :: Leads(g, s, x, a)
  }

  /** Each node of the stack reaches an open node that is not above it. */
  ghost predicate Anchored(g: Graph, s: Search) {
    forall x {:trigger HasAnchor(g, s, x)} :: OnStack(s, x) ==> HasAnchor(g, s, x)
  }

  /** Nodes of one component reach each other; an edge never leads to a later component. */
  ghost predicate Layered(g: Graph, s: Search) {
    && (forall x, y {:trigger Edge(g, x, y)} ::
          IsFiled(s, x) && Edge(g, x, y) ==> IsFiled(s, y) && s[y].place.rank <= s[x].place.rank)
    && (forall x, y {:trigger Reach(g, x, y)} ::
          IsFiled(s, x) && IsFiled(s, y) && s[x].place.rank == s[y].place.rank ==> Reach(g, x, y))
  }

  ghost predicate Inv(g: Graph, s: Search) {
    Numbered(g, s) && Explored(g, s) && Chain(g, s) && Anchored(g, s) && Layered(g, s)
  }

  /** Since s0 the search only added nodes; what it knew of older ones stands. */
  ghost predicate Grew(s0: Search, s: Search) {
    && (forall n :: n in s0 ==> n in s && s[n] == s0[n])
    && (forall n :: n in s && n !in s0 ==> |s0| <= s[n].index)
  }

  /** `node` reaches the node of the stack whose number is its low link. */
  ghost predicate Witness(g: Graph, s: Search, node: Node) {
    exists y :: OnStack(s, y) && node in s && s[y].index == s[node].low && Reach(g, node, y)
  }

  /** x has no edge to a node of s0's stack numbered below `low`. */
  ghost predicate Bounds(g: Graph, s0: Search, low: nat, x: Node) {
    forall y {:trigger Edge(g, x, y)} :: Edge(g, x, y) && OnStack(s0, y) ==> low <= s0[y].index
  }

  /** What a finished visit of `node`, begun in s0, leaves behind. */
  ghost predicate Visited(g: Graph, s0: Search, s: Search, node: Node) {
    && Grew(s0, s)
    && node in s && node !in s0 && s[node].low <= s[node].index
    && (forall n :: n in s && n !in s0 ==> !s[n].place.Open?)
    && (forall x {:trigger Bounds(g, s0, s[node].low, x)} ::
          OnStack(s, x) && x !in s0 ==> Bounds(g, s0, s[node].low, x))
    && (OnStack(s, node) ==> Witness(g, s, node))
    && (IsFiled(s, node) ==> s[node].low == s[node].index && forall n :: n in s && n !in s0 ==> IsFiled(s, n))
  }

  /** What the loop over the targets of `node` keeps: `todo` holds the targets not yet handled. */
  ghost predicate Scanning(g: Graph, s0: Search, s: Search, node: Node, todo: set<Node>) {
    && Grew(s0, s)
    && node in s && node !in s0 && s[node].place.Open?
    && s[node].low <= s[node].index == |s0|
    && (forall n :: n in s && n !in s0 && n != node ==> !s[n].place.Open?)
    && (forall x {:trigger Bounds(g, s0, s[node].low, x)} ::
          OnStack(s, x) && x !in s0 && x != node ==> Bounds(g, s0, s[node].low, x))
    && Witness(g, s, node)
    && TargetsSeen(g, s0, s, node, todo)
  }

  ghost predicate TargetsSeen(g: Graph, s0: Search, s: Search, node: Node, todo: set<Node>) {
    forall y {:trigger Edge(g, node, y)} ::
      Edge(g, node, y) && y !in todo ==> node in s && y in s && (OnStack(s0, y) ==> s[node].low <= s0[y].index)
  }

  function Min(a: nat, b: nat): nat { if b < a then b else a }

  // ----- Beginning a visit -----

  function Pushed(s: Search, node: Node): Search {
    s[node := Info(|s|, |s|, Open)]
  }

  lemma PushKeepsAnchors(g: Graph, s: Search, node: Node)
    requires Anchored(g, s) && node !in s
    ensures Anchored(g, Pushed(s, node))
  {
    var t := Pushed(s, node);
    forall x | OnStack(t, x) ensures HasAnchor(g, t, x) {
      if x == node {
        assert Leads(g, t, node, node);
      } else {
        assert HasAnchor(g, s, x);
        var a :| Leads(g, s, x, a);
        assert Leads(g, t, x, a);
      }
    }
  }

  lemma PushKeepsChain(g: Graph, s: Search, node: Node)
    requires Numbered(g, s) && Chain(g, s) && Anchored(g, s) && node !in s
    requires OpenReaches(g, s, node)
    ensures Chain(g, Pushed(s, node))
  {
    forall x | OnStack(s, x) ensures Reach(g, x, node) {
      assert HasAnchor(g, s, x);
      var a :| Leads(g, s, x, a);
    }
  }

  lemma PushKeepsInv(g: Graph, s: Search, node: Node)
    requires Inv(g, s) && node in g && node !in s
    requires OpenReaches(g, s, node)
    ensures Inv(g, Pushed(s, node))
  {
    PushKeepsAnchors(g, s, node);
    PushKeepsChain(g, s, node);
  }

  lemma ScanStarts(g: Graph, s0: Search, node: Node)
    requires Numbered(g, s0) && node in g && node !in s0
    ensures Scanning(g, s0, Pushed(s0, node), node, g[node])
  {
    assert Reach(g, node, node);
  }

  // ----- Handling one target -----

  /** The low link of `node` drops to `value` if that is smaller. */
  function Lowered(s: Search, node: Node, value: nat): Search
    requires node in s
  {
    s[node := s[node].(low := Min(s[node].low, value))]
  }

  lemma LowerKeepsAnchors(g: Graph, s: Search, node: Node, value: nat)
    requires Anchored(g, s) && node in s
    ensures Anchored(g, Lowered(s, node, value))
  {
    var t := Lowered(s, node, value);
    forall x | OnStack(t, x) ensures HasAnchor(g, t, x) {
      assert HasAnchor(g, s, x);
      var a :| Leads(g, s, x, a);
      assert Leads(g, t, x, a);
    }
  }

  lemma LowerKeepsInv(g: Graph, s: Search, node: Node, value: nat)
    requires Inv(g, s) && node in s
    ensures Inv(g, Lowered(s, node, value))
  {
    LowerKeepsAnchors(g, s, node, value);
  }

  /** A target that is no key, or was filed, changes nothing. */
  lemma ScanSkips(g: Graph, s0: Search, s: Search, node: Node, todo: set<Node>, target: Node)
    requires Scanning(g, s0, s, node, todo)
    requires target in g ==> IsFiled(s, target)
    ensures Scanning(g, s0, s, node, todo - {target})
  {
  }

  /** A target still on the stack lowers the low link to its number. */
  lemma ScanSeesStack(g: Graph, s0: Search, s: Search, node: Node, todo: set<Node>, target: Node)
    requires Scanning(g, s0, s, node, todo)
    requires Edge(g, node, target) && OnStack(s, target)
    ensures Scanning(g, s0, Lowered(s, node, s[target].index), node, todo - {target})
  {
    var t := Lowered(s, node, s[target].index);
    assert Witness(g, t, node) by {
      var y :| OnStack(s, y) && s[y].index == s[node].low && Reach(g, node, y);
      assert OnStack(t, y) && OnStack(t, target);
    }
    forall x | OnStack(t, x) && x !in s0 && x != node ensures Bounds(g, s0, t[node].low, x) {
      assert Bounds(g, s0, s[node].low, x);
    }
  }

  /** A target not yet visited is reached from every open node. */
  lemma OpenReach(g: Graph, s0: Search, s: Search, node: Node, todo: set<Node>, target: Node)
    requires Numbered(g, s0) && Chain(g, s) && Scanning(g, s0, s, node, todo) && Edge(g, node, target)
    ensures OpenReaches(g, s, target)
  {
    forall a | a in s && s[a].place.Open? ensures Reach(g, a, target) {
      assert Reach(g, a, node);
    }
  }

  lemma VisitWitness(g: Graph, s: Search, t: Search, node: Node, target: Node)
    requires Edge(g, node, target) && Witness(g, s, node) && Grew(s, t) && node in s && target in t
    requires t[target].low < s[node].low ==> Witness(g, t, target)
    ensures Witness(g, Lowered(t, node, t[target].low), node)
  {
    var u := Lowered(t, node, t[target].low);
    if t[target].low < s[node].low {
      var z :| OnStack(t, z) && t[z].index == t[target].low && Reach(g, target, z);
      assert OnStack(u, z) && Reach(g, node, z);
    } else {
      var y :| OnStack(s, y) && s[y].index == s[node].low && Reach(g, node, y);
      assert OnStack(u, y);
    }
  }

  lemma VisitBounds(g: Graph, s0: Search, s: Search, t: Search, node: Node, todo: set<Node>, target: Node, x: Node)
    requires Scanning(g, s0, s, node, todo) && Visited(g, s, t, target)
    requires OnStack(t, x) && x !in s0 && x != node
    ensures Bounds(g, s0, Min(s[node].low, t[target].low), x)
  {
    if x in s {
      assert Bounds(g, s0, s[node].low, x);
    } else {
      assert Bounds(g, s, t[target].low, x);
    }
  }

  /** A target that was just visited lowers the low link to its own. */
  lemma ScanSeesVisit(g: Graph, s0: Search, s: Search, t: Search, node: Node, todo: set<Node>, target: Node)
    requires Scanning(g, s0, s, node, todo) && Numbered(g, s) && |s0| < |s|
    requires Edge(g, node, target) && Visited(g, s, t, target)
    ensures node in t && target in t
    ensures Scanning(g, s0, Lowered(t, node, t[target].low), node, todo - {target})
  {
    var u := Lowered(t, node, t[target].low);
    VisitWitness(g, s, t, node, target);
    forall x | OnStack(u, x) && x !in s0 && x != node ensures Bounds(g, s0, u[node].low, x) {
      VisitBounds(g, s0, s, t, node, todo, target, x);
    }
  }

  // ----- Ending a visit -----

  lemma EndBounds(g: Graph, s0: Search, s: Search, node: Node)
    requires Scanning(g, s0, s, node, {})
    ensures Bounds(g, s0, s[node].low, node)
  {
  }

  /** The node stays on the stack because it reaches one below it. */
  function Retired(s: Search, node: Node): Search
    requires node in s
  {
    s[node := s[node].(place := Waiting)]
  }

  lemma RetireKeepsAnchors(g: Graph, s: Search, node: Node)
    requires Anchored(g, s) && Witness(g, s, node)
    requires node in s && s[node].place.Open? && s[node].low < s[node].index
    ensures Anchored(g, Retired(s, node))
  {
    var t := Retired(s, node);
    var y :| OnStack(s, y) && s[y].index == s[node].low && Reach(g, node, y);
    assert HasAnchor(g, s, y);
    var b :| Leads(g, s, y, b);
    ReachTrans(g, node, y, b);
    forall x | OnStack(t, x) ensures HasAnchor(g, t, x) {
      assert HasAnchor(g, s, x);
      var a :| Leads(g, s, x, a);
      if a == node {
        ReachTrans(g, x, node, b);
        assert Leads(g, t, x, b);
      } else {
        assert Leads(g, t, x, a);
      }
    }
  }

  lemma RetireKeepsInv(g: Graph, s0: Search, s: Search, node: Node)
    requires Inv(g, s) && node in s && s[node].low < s[node].index && s[node].place.Open?
    requires Witness(g, s, node) && TargetsSeen(g, s0, s, node, {})
    ensures Inv(g, Retired(s, node))
  {
    RetireKeepsAnchors(g, s, node);
  }

  lemma RetireVisits(g: Graph, s0: Search, s: Search, node: Node)
    requires Scanning(g, s0, s, node, {})
    ensures Visited(g, s0, Retired(s, node), node)
  {
    var t := Retired(s, node);
    EndBounds(g, s0, s, node);
    assert Witness(g, t, node) by {
      var y :| OnStack(s, y) && s[y].index == s[node].low && Reach(g, node, y);
      assert OnStack(t, y);
    }
    forall x | OnStack(t, x) && x !in s0 ensures Bounds(g, s0, t[node].low, x) {
      assert Bounds(g, s0, s[node].low, x);
    }
  }

  /** The part of the stack from `node` to the top leaves as the component of rank r. */
  function Closing(s0: Search, s: Search, r: nat): Search {
    map x | x in s :: if x !in s0 && OnStack(s, x) then s[x].(place := Filed(r)) else s[x]
  }

  /** An edge out of that part stays in it or leads to a component. */
  lemma SegmentEdge(g: Graph, s0: Search, s: Search, node: Node, x: Node, y: Node)
    requires Numbered(g, s0) && Explored(g, s) && Scanning(g, s0, s, node, {}) && s[node].low == s[node].index
    requires OnStack(s, x) && x !in s0 && Edge(g, x, y)
    ensures y in s && !OnStack(s0, y)
  {
    if x == node {
      EndBounds(g, s0, s, node);
    }
    assert Bounds(g, s0, s[node].low, x);
  }

  /** Every node of that part and `node` reach each other: the open node it leads to cannot be an
      older one, since no walk leaves the part except into a component. */
  lemma SegmentMutual(g: Graph, s0: Search, s: Search, node: Node, x: Node)
    requires Numbered(g, s0) && Inv(g, s) && Scanning(g, s0, s, node, {}) && s[node].low == s[node].index
    requires OnStack(s, x) && x !in s0
    ensures Mutual(g, x, node)
  {
    var inside := set z | z in s && !OnStack(s0, z);
    assert Closed(g, inside) by {
      forall u, v | u in inside && Edge(g, u, v) ensures v in inside {
        if OnStack(s, u) {
          SegmentEdge(g, s0, s, node, u, v);
        } else {
          assert IsFiled(s, u) && IsFiled(s, v);
        }
      }
    }
    assert HasAnchor(g, s, x);
    var a :| Leads(g, s, x, a);
    assert a in inside;
    assert a == node;
  }

  lemma CloseKeepsLayers(g: Graph, s0: Search, s: Search, node: Node, r: nat)
    requires Numbered(g, s0) && Inv(g, s) && Scanning(g, s0, s, node, {}) && s[node].low == s[node].index
    requires forall x :: IsFiled(s, x) ==> s[x].place.rank < r
    ensures Layered(g, Closing(s0, s, r))
  {
    var t := Closing(s0, s, r);
    forall x, y | IsFiled(t, x) && Edge(g, x, y) ensures IsFiled(t, y) && t[y].place.rank <= t[x].place.rank {
      if OnStack(s, x) {
        SegmentEdge(g, s0, s, node, x, y);
      } else {
        assert IsFiled(s, x) && IsFiled(s, y);
      }
    }
    forall x, y | IsFiled(t, x) && IsFiled(t, y) && t[x].place.rank == t[y].place.rank ensures Reach(g, x, y) {
      if OnStack(s, x) {
        SegmentMutual(g, s0, s, node, x);
        SegmentMutual(g, s0, s, node, y);
        ReachTrans(g, x, node, y);
      } else {
        assert IsFiled(s, x) && IsFiled(s, y);
      }
    }
  }

  lemma CloseKeepsAnchors(g: Graph, s0: Search, s: Search, node: Node, r: nat)
    requires Anchored(g, s) && Numbered(g, s0) && Grew(s0, s)
    requires forall a :: a in s && s[a].place.Open? && a !in s0 ==> |s0| <= s[a].index
    ensures Anchored(g, Closing(s0, s, r))
  {
    var t := Closing(s0, s, r);
    forall x | OnStack(t, x) ensures HasAnchor(g, t, x) {
      assert HasAnchor(g, s, x);
      var a :| Leads(g, s, x, a);
      assert Leads(g, t, x, a);
    }
  }

  lemma CloseKeepsInv(g: Graph, s0: Search, s: Search, node: Node, r: nat)
    requires Numbered(g, s0) && Inv(g, s) && Scanning(g, s0, s, node, {}) && s[node].low == s[node].index
    requires forall x :: IsFiled(s, x) ==> s[x].place.rank < r
    ensures Inv(g, Closing(s0, s, r))
  {
    var t := Closing(s0, s, r);
    assert t.Keys == s.Keys;
    CloseKeepsLayers(g, s0, s, node, r);
    CloseKeepsAnchors(g, s0, s, node, r);
    assert Chain(g, t) && Explored(g, t);
  }

  lemma CloseVisits(g: Graph, s0: Search, s: Search, node: Node, r: nat)
    requires Scanning(g, s0, s, node, {}) && s[node].low == s[node].index
    ensures Visited(g, s0, Closing(s0, s, r), node)
  {
  }

  /** A walk never leads to a later component. */
  lemma ReachLowersRank(g: Graph, s: Search, x: Node, y: Node)
    requires Layered(g, s) && IsFiled(s, x) && Reach(g, x, y)
    ensures IsFiled(s, y) && s[y].place.rank <= s[x].place.rank
  {
    var earlier := set z | z in s && IsFiled(s, z) && s[z].place.rank <= s[x].place.rank;
    assert Closed(g, earlier) && x in earlier;
  }

  /** When no visit is open, every visited node was filed. */
  lemma NothingLeft(g: Graph, s: Search)
    requires Anchored(g, s) && forall n :: n in s ==> !s[n].place.Open?
    ensures forall n :: n in s ==> IsFiled(s, n)
  {
    forall n | n in s ensures IsFiled(s, n) {
      if OnStack(s, n) {
        assert HasAnchor(g, s, n);
      }
    }
  }
}
