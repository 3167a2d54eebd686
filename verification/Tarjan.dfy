/** The search for strongly connected components, field by field as the traversal updates it. */
module Tarjan {
  import opened Digraph
  import opened TarjanSearch

  /** `list` holds each node of `nodes` once and nothing else. */
  ghost predicate Enumerates(list: seq<Node>, nodes: set<Node>) {
    if list == [] then nodes == {}
    else
      var last := list[|list| - 1];
      last in nodes && Enumerates(list[..|list| - 1], nodes - {last})
  }

  lemma EnumeratesPush(list: seq<Node>, nodes: set<Node>, node: Node)
    requires Enumerates(list, nodes) && node !in nodes
    ensures Enumerates(list + [node], nodes + {node})
  {
    assert (list + [node])[..|list|] == list;
    assert nodes + {node} - {node} == nodes;
  }

  lemma {:induction false} EnumeratesAt(list: seq<Node>, nodes: set<Node>, i: nat)
    requires Enumerates(list, nodes) && i < |list|
    ensures list[i] in nodes
  {
    if i < |list| - 1 {
      EnumeratesAt(list[..|list| - 1], nodes - {list[|list| - 1]}, i);
    }
  }

  lemma {:induction false} EnumeratesOnce(list: seq<Node>, a: set<Node>, b: set<Node>)
    requires Enumerates(list, a) && Enumerates(list, b)
    ensures a == b
  {
    if list != [] {
      var last := list[|list| - 1];
      EnumeratesOnce(list[..|list| - 1], a - {last}, b - {last});
      assert a == a - {last} + {last} && b == b - {last} + {last};
    }
  }

  /** The nodes of component k. */
  ghost function Ranked(s: Search, k: nat): set<Node> {
    set x | x in s && s[x].place == Filed(k)
  }

  /** The components list, in order, the nodes of rank 0, 1, 2 and so on. */
  ghost predicate Listed(comps: seq<seq<Node>>, s: Search) {
    && (forall x :: IsFiled(s, x) ==> s[x].place.rank < |comps|)
    && (forall k :: 0 <= k < |comps| ==> comps[k] != [] && Enumerates(comps[k], Ranked(s, k)))
  }

  lemma ListedSame(comps: seq<seq<Node>>, s: Search, t: Search)
    requires Listed(comps, s)
    requires forall x :: IsFiled(s, x) <==> IsFiled(t, x)
    requires forall x :: IsFiled(s, x) ==> x in t && s[x].place == t[x].place
    ensures Listed(comps, t)
  {
    forall k | 0 <= k < |comps| ensures Enumerates(comps[k], Ranked(t, k)) {
      forall x ensures x in Ranked(t, k) <==> x in Ranked(s, k) {
        assert IsFiled(s, x) <==> IsFiled(t, x);
      }
      assert Ranked(t, k) == Ranked(s, k);
    }
  }

  ghost function StackSet(s: Search): set<Node> {
    set x | x in s && OnStack(s, x)
  }

  lemma ClosingStack(s0: Search, s: Search, r: nat)
    requires Grew(s0, s)
    ensures StackSet(Closing(s0, s, r)) == StackSet(s0)
  {
  }

  lemma ListedAppend(comps: seq<seq<Node>>, s0: Search, s: Search, component: seq<Node>)
    requires Listed(comps, s) && component != [] && Grew(s0, s)
    requires Enumerates(component, StackSet(s) - StackSet(s0))
    ensures Listed(comps + [component], Closing(s0, s, |comps|))
  {
    var t := Closing(s0, s, |comps|);
    assert Ranked(t, |comps|) == StackSet(s) - StackSet(s0);
    forall k | 0 <= k < |comps| ensures Enumerates((comps + [component])[k], Ranked(t, k)) {
      assert Ranked(t, k) == Ranked(s, k);
    }
  }

  /** The two maps hold what `s` says of each visited node. */
  ghost predicate Mirrors(indices: map<Node, nat>, lowLinks: map<Node, nat>, s: Search) {
    && (forall n :: n in indices <==> n in s)
    && (forall n :: n in lowLinks <==> n in s)
    && (forall n :: n in s ==> indices[n] == s[n].index && lowLinks[n] == s[n].low)
  }

  /** The traversal's variables, read together. */
  datatype Fields = Fields(
    index: nat,
    indices: map<Node, nat>,
    lowLinks: map<Node, nat>,
    stack: seq<Node>,
    onStack: set<Node>,
    components: seq<seq<Node>>)

  ghost predicate Holds(f: Fields, s: Search) {
    && f.index == |s|
    && Mirrors(f.indices, f.lowLinks, s)
    && Enumerates(f.stack, f.onStack)
    && f.onStack == StackSet(s)
    && Listed(f.components, s)
  }

  lemma MirrorsPush(indices: map<Node, nat>, lowLinks: map<Node, nat>, s: Search, node: Node)
    requires Mirrors(indices, lowLinks, s) && node !in s
    ensures Mirrors(indices[node := |s|], lowLinks[node := |s|], Pushed(s, node))
  {
  }

  lemma FiledPush(comps: seq<seq<Node>>, s: Search, node: Node)
    requires Listed(comps, s) && node !in s
    ensures Listed(comps, Pushed(s, node)) && StackSet(Pushed(s, node)) == StackSet(s) + {node}
  {
    ListedSame(comps, s, Pushed(s, node));
  }

  lemma HoldsPush(f: Fields, s: Search, node: Node)
    requires Holds(f, s) && node !in s
    ensures Holds(Fields(f.index + 1, f.indices[node := f.index], f.lowLinks[node := f.index],
                         f.stack + [node], f.onStack + {node}, f.components),
                  Pushed(s, node))
  {
    EnumeratesPush(f.stack, f.onStack, node);
    MirrorsPush(f.indices, f.lowLinks, s, node);
    FiledPush(f.components, s, node);
  }

  lemma HoldsLower(f: Fields, s: Search, node: Node, value: nat)
    requires Holds(f, s) && node in s && node in f.lowLinks
    ensures Holds(f.(lowLinks := f.lowLinks[node := Min(f.lowLinks[node], value)]), Lowered(s, node, value))
  {
    var t := Lowered(s, node, value);
    ListedSame(f.components, s, t);
    assert StackSet(t) == StackSet(s);
    assert t.Keys == s.Keys;
  }

  lemma HoldsRetire(f: Fields, s: Search, node: Node)
    requires Holds(f, s) && node in s && s[node].place.Open?
    ensures Holds(f, Retired(s, node))
  {
    var t := Retired(s, node);
    ListedSame(f.components, s, t);
    assert StackSet(t) == StackSet(s);
    assert t.Keys == s.Keys;
  }

  lemma HoldsEmit(f: Fields, s0: Search, s: Search, stack: seq<Node>, component: seq<Node>)
    requires Holds(f, s) && Grew(s0, s) && component != []
    requires Enumerates(stack, StackSet(s0)) && Enumerates(component, f.onStack - StackSet(s0))
    ensures Holds(f.(stack := stack, onStack := StackSet(s0), components := f.components + [component]),
                  Closing(s0, s, |f.components|))
  {
    ListedAppend(f.components, s0, s, component);
    ClosingStack(s0, s, |f.components|);
    assert Closing(s0, s, |f.components|).Keys == s.Keys;
  }

  class Traversal {
    const graph: Graph
    var index: nat
    var indices: map<Node, nat>
    var lowLinks: map<Node, nat>
    var stack: seq<Node>
    var onStack: set<Node>
    var components: seq<seq<Node>>
    ghost var search: Search

    ghost function State(): Fields
      reads this
    {
      Fields(index, indices, lowLinks, stack, onStack, components)
    }

    ghost predicate Valid()
      reads this
    {
      Holds(State(), search) && Inv(graph, search)
    }

    constructor (graph: Graph)
      ensures Valid() && this.graph == graph
      ensures search == map[] && components == []
    {
      this.graph := graph;
      index, indices, lowLinks, stack, onStack, components := 0, map[], map[], [], {}, [];
      search := map[];
    }

    /** Visits `node` and, through its targets, everything it newly reaches. */
    method Visit(node: Node)
      requires Valid() && node in graph && node !in indices
      requires OpenReaches(graph, search, node)
      modifies this
      ensures Valid() && old(stack) <= stack
      ensures Visited(graph, old(search), search, node)
      decreases graph.Keys - search.Keys, 0
    {
      hide Explored, Chain, Anchored, Layered, Listed;
      ghost var before := search;
      Push(node);
      ScanStarts(graph, before, node);
      ScanTargets(node, before);
      assert stack[..|old(stack)|] == old(stack);
      if lowLinks[node] == indices[node] {
        Emit(node, before, old(stack));
      } else {
        Retire(node, before);
      }
    }

    /** Numbers `node` and puts it on the stack. */
    method Push(node: Node)
      requires Valid() && node in graph && node !in indices
      requires OpenReaches(graph, search, node)
      modifies this
      ensures Valid() && stack == old(stack) + [node] && search == Pushed(old(search), node)
    {
      hide Explored, Chain, Anchored, Layered, Listed;
      PushKeepsInv(graph, search, node);
      HoldsPush(State(), search, node);
      indices := indices[node := index];
      lowLinks := lowLinks[node := index];
      index := index + 1;
      stack := stack + [node];
      onStack := onStack + {node};
      search := Pushed(search, node);
    }

    /** Goes over the targets of `node`, in any order. */
    method ScanTargets(node: Node, ghost before: Search)
      requires Valid() && Numbered(graph, before) && node in graph
      requires Scanning(graph, before, search, node, graph[node])
      modifies this
      ensures Valid() && old(stack) <= stack
      ensures Scanning(graph, before, search, node, {})
      decreases graph.Keys - search.Keys, 2
    {
      hide Explored, Chain, Anchored, Layered, Listed, Enumerates, Mirrors, Witness, TargetsSeen, Bounds;
      var todo := graph[node];
      while todo != {}
        invariant Valid() && todo <= graph[node] && old(stack) <= stack
        invariant Scanning(graph, before, search, node, todo)
        invariant old(search).Keys <= search.Keys
        decreases todo
      {
        var target :| target in todo;
        Examine(node, target, before, todo);
        todo := todo - {target};
      }
    }

    /** Handles one target of `node`: visits it, or reads its number while it is on the stack. */
    method Examine(node: Node, target: Node, ghost before: Search, ghost todo: set<Node>)
      requires Valid() && Numbered(graph, before)
      requires node in graph && target in graph[node]
      requires Scanning(graph, before, search, node, todo)
      modifies this
      ensures Valid() && old(stack) <= stack && old(search).Keys <= search.Keys
      ensures Scanning(graph, before, search, node, todo - {target})
      decreases graph.Keys - search.Keys, 1
    {
      hide Explored, Chain, Anchored, Layered, Listed, Enumerates, Witness, TargetsSeen, Bounds, Reach;
      ghost var here := search;
      if target !in graph {
        ScanSkips(graph, before, here, node, todo, target);
      } else if target !in indices {
        OpenReach(graph, before, here, node, todo, target);
        Visit(target);
        ScanSeesVisit(graph, before, here, search, node, todo, target);
        Lower(node, lowLinks[target]);
      } else if target in onStack {
        ScanSeesStack(graph, before, here, node, todo, target);
        Lower(node, indices[target]);
      } else {
        ScanSkips(graph, before, here, node, todo, target);
      }
    }

    method Lower(node: Node, value: nat)
      requires Valid() && node in lowLinks && node in search
      modifies this`lowLinks, this`search
      ensures Valid() && search == Lowered(old(search), node, value)
    {
      LowerKeepsInv(graph, search, node, value);
      HoldsLower(State(), search, node, value);
      lowLinks := lowLinks[node := Min(lowLinks[node], value)];
      search := Lowered(search, node, value);
    }

    /** Leaves `node` on the stack, since it reaches an older node there. */
    ghost method Retire(node: Node, before: Search)
      requires Valid() && Scanning(graph, before, search, node, {})
      requires search[node].low != search[node].index
      modifies this`search
      ensures Valid() && Visited(graph, before, search, node) && stack == old(stack)
    {
      RetireKeepsInv(graph, before, search, node);
      RetireVisits(graph, before, search, node);
      HoldsRetire(State(), search, node);
      search := Retired(search, node);
    }

    /** Pops the part of the stack from `node` to the top and files it as the next component. */
    method Emit(node: Node, ghost before: Search, ghost below: seq<Node>)
      requires Valid() && Numbered(graph, before)
      requires |below| < |stack| && stack[|below|] == node && stack[..|below|] == below
      requires Enumerates(below, StackSet(before))
      requires Scanning(graph, before, search, node, {}) && search[node].low == search[node].index
      modifies this`stack, this`onStack, this`components, this`search
      ensures Valid() && Visited(graph, before, search, node) && stack == below
    {
      hide Explored, Chain, Anchored, Layered, Mirrors;
      CloseKeepsInv(graph, before, search, node, |components|);
      CloseVisits(graph, before, search, node, |components|);
      ghost var was := State();
      var component := PopComponent(node, |below|);
      EnumeratesOnce(below, onStack, StackSet(before));
      HoldsEmit(was, before, search, below, component);
      components := components + [component];
      search := Closing(before, search, |was.components|);
    }

    /** Pops the stack down to and including `node`. */
    method PopComponent(node: Node, ghost base: nat) returns (component: seq<Node>)
      requires Enumerates(stack, onStack) && base < |stack| && stack[base] == node
      modifies this`stack, this`onStack
      ensures stack == old(stack)[..base] && Enumerates(stack, onStack) && onStack <= old(onStack)
      ensures component != [] && Enumerates(component, old(onStack) - onStack)
    {
      component := [];
      ghost var k := |stack|;
      while true
        invariant base < k <= |old(stack)| && stack == old(stack)[..k]
        invariant Enumerates(stack, onStack) && onStack <= old(onStack) && stack[base] == node
        invariant Enumerates(component, old(onStack) - onStack)
        decreases k
      {
        var target := stack[|stack| - 1];
        ghost var gone := old(onStack) - onStack;
        EnumeratesPush(component, gone, target);
        stack := stack[..|stack| - 1];
        onStack := onStack - {target};
        component := component + [target];
        k := k - 1;
        assert old(onStack) - onStack == gone + {target};
        if base < k {
          EnumeratesAt(stack, onStack, base);
        }
        if target == node {
          break;
        }
      }
    }
  }

  // ----- What the whole search computes -----

  ghost predicate In(comps: seq<seq<Node>>, k: int, x: Node) {
    0 <= k < |comps| && x in comps[k]
  }

  predicate NoRepeats(c: seq<Node>) {
    forall i, j :: 0 <= i < j < |c| ==> c[i] != c[j]
  }

  ghost predicate SameComponent(comps: seq<seq<Node>>, x: Node, y: Node) {
    exists k :: In(comps, k, x) && In(comps, k, y)
  }

  /** The components partition the keys, each is a whole class of mutually connected nodes, and an
      edge between two of them leads to the one that comes first in the list. */
  ghost predicate IsDecomposition(g: Graph, comps: seq<seq<Node>>) {
    && (forall k :: 0 <= k < |comps| ==> comps[k] != [] && NoRepeats(comps[k]))
    && (forall k, x :: In(comps, k, x) ==> x in g)
    && (forall x :: x in g ==> SameComponent(comps, x, x))
    && (forall j, k, x :: In(comps, j, x) && In(comps, k, x) ==> j == k)
    && (forall x, y :: x in g && y in g ==> (SameComponent(comps, x, y) <==> Connects(g, x, y) && Connects(g, y, x)))
    && (forall j, k, x, y :: In(comps, j, x) && In(comps, k, y) && Edge(g, x, y) ==> k <= j)
  }

  lemma {:induction false} EnumeratesLists(list: seq<Node>, nodes: set<Node>)
    requires Enumerates(list, nodes)
    ensures NoRepeats(list) && forall x :: x in list <==> x in nodes
  {
    if list != [] {
      var rest, last := list[..|list| - 1], list[|list| - 1];
      EnumeratesLists(rest, nodes - {last});
      assert list == rest + [last];
    }
  }

  lemma ListedIn(comps: seq<seq<Node>>, s: Search)
    requires Listed(comps, s)
    ensures forall k, x :: In(comps, k, x) <==> IsFiled(s, x) && s[x].place.rank == k
    ensures forall k :: 0 <= k < |comps| ==> comps[k] != [] && NoRepeats(comps[k])
  {
    forall k | 0 <= k < |comps|
      ensures NoRepeats(comps[k]) && forall x :: x in comps[k] <==> IsFiled(s, x) && s[x].place.rank == k
    {
      EnumeratesLists(comps[k], Ranked(s, k));
    }
  }

  /** A search that filed every key has computed the decomposition. */
  lemma SearchDecomposes(g: Graph, comps: seq<seq<Node>>, s: Search)
    requires Layered(g, s) && Listed(comps, s)
    requires forall x :: IsFiled(s, x) <==> x in g
    ensures IsDecomposition(g, comps)
  {
    ListedIn(comps, s);
    forall x | x in g ensures SameComponent(comps, x, x) {
      assert In(comps, s[x].place.rank, x);
    }
    forall x, y | x in g && y in g
      ensures SameComponent(comps, x, y) <==> Connects(g, x, y) && Connects(g, y, x)
    {
      ReachIsConnects(g, x, y);
      ReachIsConnects(g, y, x);
      if Reach(g, x, y) && Reach(g, y, x) {
        ReachLowersRank(g, s, x, y);
        ReachLowersRank(g, s, y, x);
        assert In(comps, s[x].place.rank, x) && In(comps, s[x].place.rank, y);
      }
    }
  }

  method StronglyConnectedComponents(graph: Graph) returns (components: seq<seq<Node>>)
    ensures IsDecomposition(graph, components)
  {
    hide Explored, Chain, Layered, Listed, Enumerates;
    var t := new Traversal(graph);
    var todo := graph.Keys;
    while todo != {}
      invariant t.Valid() && t.graph == graph && fresh(t)
      invariant forall n :: n in t.search ==> !t.search[n].place.Open?
      invariant todo <= graph.Keys && graph.Keys - todo <= t.search.Keys
      decreases todo
    {
      var node :| node in todo;
      todo := todo - {node};
      if node !in t.indices {
        t.Visit(node);
      }
    }
    components := t.components;
    NothingLeft(graph, t.search);
    SearchDecomposes(graph, components, t.search);
  }
}
