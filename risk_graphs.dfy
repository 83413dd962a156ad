/**
 * The `RiskGraph` base class: a combined graph and its support and threat
 * subgraphs, kept in step by the methods that add and remove nodes and edges.
 */
module RiskGraphs {
  import opened Wrappers
  import opened MultiDiGraph

  /** A drawing layout: a point per node (never computed by the modelled code). */
  type Layout = map<NodeName, (real, real)>

  class RiskGraph<A> {
    var supportGraph: Graph<A>
    var threatGraph: Graph<A>
    var graph: Graph<A>
    var positions: Option<Layout>

    /** Each of the three graphs is well formed. */
    ghost predicate Valid()
      reads this
    {
      supportGraph.Valid() && threatGraph.Valid() && graph.Valid()
    }

    /**
     * The combined graph holds every support edge and every threat edge:
     * per directed pair, the support and threat copies together are at most
     * the combined copies.
     */
    ghost predicate Consistent()
      reads this
    {
      forall e :: supportGraph.Count(e) + threatGraph.Count(e) <= graph.Count(e)
    }

    constructor()
      ensures graph == Empty() && supportGraph == Empty() && threatGraph == Empty()
      ensures positions == None
      ensures Valid() && Consistent()
    {
      supportGraph, threatGraph, graph := Empty(), Empty(), Empty();
      positions := None;
    }

    method ClearGraphs()
      modifies this
      ensures graph == Empty() && supportGraph == Empty() && threatGraph == Empty()
      ensures positions == None
      ensures Valid() && Consistent()
    {
      supportGraph := Empty();
      threatGraph := Empty();
      graph := Empty();
      positions := None;
    }

    /** The same node, with the same attributes, goes into all three graphs. */
    method AddNode(name: NodeName, data: A)
      modifies this
      ensures graph == MultiDiGraph.AddNode(old(graph), name, data)
      ensures supportGraph == MultiDiGraph.AddNode(old(supportGraph), name, data)
      ensures threatGraph == MultiDiGraph.AddNode(old(threatGraph), name, data)
      ensures positions == old(positions)
      ensures old(Valid()) ==> Valid()
      ensures old(Consistent()) ==> Consistent()
    {
      ghost var g0, s0, t0 := graph, supportGraph, threatGraph;
      graph := MultiDiGraph.AddNode(graph, name, data);
      supportGraph := MultiDiGraph.AddNode(supportGraph, name, data);
      threatGraph := MultiDiGraph.AddNode(threatGraph, name, data);
      // Adding a node changes no edge, so no count changes.
      forall e
        ensures graph.Count(e) == g0.Count(e) && supportGraph.Count(e) == s0.Count(e) && threatGraph.Count(e) == t0.Count(e)
      {
        assert graph.edges == g0.edges && supportGraph.edges == s0.edges && threatGraph.edges == t0.edges;
      }
    }

    /**
     * One more supporting->supported edge in the combined and the support
     * graph; the threat graph is untouched. The edge weight is not modelled.
     */
    method AddSupport(supporting: NodeName, supported: NodeName, weight: real)
      modifies this
      ensures graph == AddEdge(old(graph), supporting, supported)
      ensures supportGraph == AddEdge(old(supportGraph), supporting, supported)
      ensures threatGraph == old(threatGraph) && positions == old(positions)
      ensures old(Valid()) ==> Valid()
      ensures old(Consistent()) ==> Consistent()
    {
      graph := AddEdge(graph, supporting, supported);
      supportGraph := AddEdge(supportGraph, supporting, supported);
    }

    /**
     * Removes one supporting->supported edge from the combined graph, then one
     * from the support graph. Each removal raises when its graph lacks the
     * edge; the second raise comes after the combined graph has lost its edge.
     */
    method RemoveSupport(supporting: NodeName, supported: NodeName) returns (outcome: Result<(), GraphError>)
      modifies this
      ensures outcome.Ok? <==> Edge(supporting, supported) in old(graph.edges) && Edge(supporting, supported) in old(supportGraph.edges)
      ensures Edge(supporting, supported) in old(graph.edges) ==> graph == RemoveEdge(old(graph), supporting, supported).value
      ensures Edge(supporting, supported) !in old(graph.edges) ==> graph == old(graph)
      ensures outcome.Ok? ==> supportGraph == RemoveEdge(old(supportGraph), supporting, supported).value
      ensures outcome.Err? ==> supportGraph == old(supportGraph)
      ensures threatGraph == old(threatGraph) && positions == old(positions)
      ensures old(Valid()) ==> Valid()
      ensures outcome.Ok? && old(Consistent()) ==> Consistent()
    {
      var g := RemoveEdge(graph, supporting, supported);
      if g.Err? {
        return Err(g.error);
      }
      graph := g.value;
      var s := RemoveEdge(supportGraph, supporting, supported);
      if s.Err? {
        return Err(s.error);
      }
      supportGraph := s.value;
      outcome := Ok(());
    }

    /**
     * One more threatening->threatened edge in the combined and the threat
     * graph; the support graph is untouched. The edge weight is not modelled.
     */
    method AddThreat(threatening: NodeName, threatened: NodeName, weight: real)
      modifies this
      ensures graph == AddEdge(old(graph), threatening, threatened)
      ensures threatGraph == AddEdge(old(threatGraph), threatening, threatened)
      ensures supportGraph == old(supportGraph) && positions == old(positions)
      ensures old(Valid()) ==> Valid()
      ensures old(Consistent()) ==> Consistent()
    {
      graph := AddEdge(graph, threatening, threatened);
      threatGraph := AddEdge(threatGraph, threatening, threatened);
    }

    /** As `RemoveSupport`, with the threat graph in place of the support graph. */
    method RemoveThreat(threatening: NodeName, threatened: NodeName) returns (outcome: Result<(), GraphError>)
      modifies this
      ensures outcome.Ok? <==> Edge(threatening, threatened) in old(graph.edges) && Edge(threatening, threatened) in old(threatGraph.edges)
      ensures Edge(threatening, threatened) in old(graph.edges) ==> graph == RemoveEdge(old(graph), threatening, threatened).value
      ensures Edge(threatening, threatened) !in old(graph.edges) ==> graph == old(graph)
      ensures outcome.Ok? ==> threatGraph == RemoveEdge(old(threatGraph), threatening, threatened).value
      ensures outcome.Err? ==> threatGraph == old(threatGraph)
      ensures supportGraph == old(supportGraph) && positions == old(positions)
      ensures old(Valid()) ==> Valid()
      ensures outcome.Ok? && old(Consistent()) ==> Consistent()
    {
      var g := RemoveEdge(graph, threatening, threatened);
      if g.Err? {
        return Err(g.error);
      }
      graph := g.value;
      var t := RemoveEdge(threatGraph, threatening, threatened);
      if t.Err? {
        return Err(t.error);
      }
      threatGraph := t.value;
      outcome := Ok(());
    }

    /**
     * Removes `node` from the combined, then the support, then the threat
     * graph; the first graph that lacks it raises and stops the removal.
     */
    method RemoveNode(node: NodeName) returns (outcome: Result<(), GraphError>)
      modifies this
      ensures outcome.Ok? <==> node in old(graph.nodes) && node in old(supportGraph.nodes) && node in old(threatGraph.nodes)
      ensures node in old(graph.nodes) ==> graph == MultiDiGraph.RemoveNode(old(graph), node).value
      ensures node !in old(graph.nodes) ==> graph == old(graph)
      ensures node in old(graph.nodes) && node in old(supportGraph.nodes) ==>
                supportGraph == MultiDiGraph.RemoveNode(old(supportGraph), node).value
      ensures !(node in old(graph.nodes) && node in old(supportGraph.nodes)) ==> supportGraph == old(supportGraph)
      ensures outcome.Ok? ==> threatGraph == MultiDiGraph.RemoveNode(old(threatGraph), node).value
      ensures outcome.Err? ==> threatGraph == old(threatGraph)
      ensures positions == old(positions)
      ensures old(Valid()) ==> Valid()
      ensures outcome.Ok? && old(Consistent()) ==> Consistent()
    {
      var g := MultiDiGraph.RemoveNode(graph, node);
      if g.Err? {
        return Err(g.error);
      }
      graph := g.value;
      var s := MultiDiGraph.RemoveNode(supportGraph, node);
      if s.Err? {
        return Err(s.error);
      }
      supportGraph := s.value;
      var t := MultiDiGraph.RemoveNode(threatGraph, node);
      if t.Err? {
        return Err(t.error);
      }
      threatGraph := t.value;
      outcome := Ok(());
    }

    /**
     * `RemoveSupport` that looks before it leaps: it raises, changing nothing,
     * unless both graphs hold the edge, so the graphs stay in step on every path.
     */
    method RemoveSupportChecked(supporting: NodeName, supported: NodeName) returns (outcome: Result<(), GraphError>)
      modifies this
      ensures outcome.Ok? <==> Edge(supporting, supported) in old(graph.edges) && Edge(supporting, supported) in old(supportGraph.edges)
      ensures outcome.Ok? ==> graph == RemoveEdge(old(graph), supporting, supported).value
      ensures outcome.Ok? ==> supportGraph == RemoveEdge(old(supportGraph), supporting, supported).value
      ensures outcome.Err? ==> graph == old(graph) && supportGraph == old(supportGraph)
      ensures threatGraph == old(threatGraph) && positions == old(positions)
      ensures old(Valid()) ==> Valid()
      ensures old(Consistent()) ==> Consistent()
    {
      var g := RemoveEdge(graph, supporting, supported);
      var s := RemoveEdge(supportGraph, supporting, supported);
      if g.Err? || s.Err? {
        return Err(NetworkXError);
      }
      graph, supportGraph := g.value, s.value;
      outcome := Ok(());
    }

    /** `RemoveThreat` with the same check first. */
    method RemoveThreatChecked(threatening: NodeName, threatened: NodeName) returns (outcome: Result<(), GraphError>)
      modifies this
      ensures outcome.Ok? <==> Edge(threatening, threatened) in old(graph.edges) && Edge(threatening, threatened) in old(threatGraph.edges)
      ensures outcome.Ok? ==> graph == RemoveEdge(old(graph), threatening, threatened).value
      ensures outcome.Ok? ==> threatGraph == RemoveEdge(old(threatGraph), threatening, threatened).value
      ensures outcome.Err? ==> graph == old(graph) && threatGraph == old(threatGraph)
      ensures supportGraph == old(supportGraph) && positions == old(positions)
      ensures old(Valid()) ==> Valid()
      ensures old(Consistent()) ==> Consistent()
    {
      var g := RemoveEdge(graph, threatening, threatened);
      var t := RemoveEdge(threatGraph, threatening, threatened);
      if g.Err? || t.Err? {
        return Err(NetworkXError);
      }
      graph, threatGraph := g.value, t.value;
      outcome := Ok(());
    }

    /**
     * `RemoveNode` that raises, changing nothing, only when the combined graph
     * lacks the node, and otherwise removes it from each graph that holds it,
     * so that no subgraph keeps an edge the combined graph has dropped.
     */
    method RemoveNodeChecked(node: NodeName) returns (outcome: Result<(), GraphError>)
      modifies this
      ensures outcome.Ok? <==> node in old(graph.nodes)
      ensures outcome.Err? ==> graph == old(graph) && supportGraph == old(supportGraph) && threatGraph == old(threatGraph)
      ensures outcome.Ok? ==> node !in graph.nodes && node !in supportGraph.nodes && node !in threatGraph.nodes
      ensures outcome.Ok? ==> graph == MultiDiGraph.RemoveNode(old(graph), node).value
      ensures outcome.Ok? ==> supportGraph == RemoveIfPresent(old(supportGraph), node)
                              && threatGraph == RemoveIfPresent(old(threatGraph), node)
      ensures positions == old(positions)
      ensures old(Valid()) ==> Valid()
      ensures old(Valid() && Consistent()) ==> Consistent()
    {
      var g := MultiDiGraph.RemoveNode(graph, node);
      if g.Err? {
        return Err(g.error);
      }
      graph := g.value;
      var s := MultiDiGraph.RemoveNode(supportGraph, node);
      if s.Ok? {
        supportGraph := s.value;
      }
      var t := MultiDiGraph.RemoveNode(threatGraph, node);
      if t.Ok? {
        threatGraph := t.value;
      }
      outcome := Ok(());
      if old(Valid() && Consistent()) {
        RemoveNodeEverywhere(old(graph), old(supportGraph), old(threatGraph), node);
      }
    }
  }

  /** `G` without `n` when `G` has it, else `G` unchanged. */
  function RemoveIfPresent<A>(g: Graph<A>, n: NodeName): Graph<A>
  {
    if n in g.nodes then MultiDiGraph.RemoveNode(g, n).value else g
  }

  /**
   * Removing a node from the combined graph and from each subgraph that has
   * it keeps every subgraph's edges within the combined graph's: a valid
   * subgraph without the node has no edge at it to keep.
   */
  lemma RemoveNodeEverywhere<A>(g: Graph<A>, s: Graph<A>, t: Graph<A>, n: NodeName)
    requires n in g.nodes && s.Valid() && t.Valid()
    requires forall e :: s.Count(e) + t.Count(e) <= g.Count(e)
    ensures forall e :: RemoveIfPresent(s, n).Count(e) + RemoveIfPresent(t, n).Count(e)
                        <= MultiDiGraph.RemoveNode(g, n).value.Count(e)
  {
    forall e
      ensures RemoveIfPresent(s, n).Count(e) + RemoveIfPresent(t, n).Count(e) <= MultiDiGraph.RemoveNode(g, n).value.Count(e)
    {
      if e.src == n || e.dst == n {
        if n !in s.nodes {
          assert e !in s.edges;
        }
        if n !in t.nodes {
          assert e !in t.edges;
        }
      }
    }
  }

  /**
   * `remove_support` on an edge that is only a threat: the combined graph loses
   * the edge, the support graph raises, and the threat graph keeps an edge the
   * combined graph no longer has.
   */
  method RemoveSupportOfThreatEdge()
  {
    var e := Edge("a", "b");
    var rg := new RiskGraph<int>();
    rg.AddThreat(e.src, e.dst, 1.0);
    assert multiset(rg.graph.edges) == multiset{e} == multiset(rg.threatGraph.edges);
    assert e !in rg.supportGraph.edges;
    var outcome := rg.RemoveSupport(e.src, e.dst);
    assert outcome.Err?;
    assert rg.threatGraph.Count(e) == 1 && rg.graph.Count(e) == 0;
    assert !rg.Consistent();
  }

  /**
   * `remove_threat` on an edge that is only a support: the combined graph loses
   * the edge, the threat graph raises, and the support graph keeps an edge the
   * combined graph no longer has.
   */
  method RemoveThreatOfSupportEdge()
  {
    var e := Edge("a", "b");
    var rg := new RiskGraph<int>();
    rg.AddSupport(e.src, e.dst, 1.0);
    assert multiset(rg.graph.edges) == multiset{e} == multiset(rg.supportGraph.edges);
    assert e !in rg.threatGraph.edges;
    var outcome := rg.RemoveThreat(e.src, e.dst);
    assert outcome.Err?;
    assert rg.supportGraph.Count(e) == 1 && rg.graph.Count(e) == 0;
    assert !rg.Consistent();
  }

  /**
   * `remove_node` on a node that only a threat edge introduced: the combined
   * graph drops the node and its edge, the support graph raises, and the
   * threat graph keeps the edge.
   */
  method RemoveNodeOfThreatOnlyNode()
  {
    var e := Edge("a", "b");
    var rg := new RiskGraph<int>();
    rg.AddThreat(e.src, e.dst, 1.0);
    assert multiset(rg.threatGraph.edges) == multiset{e};
    assert e.src in rg.graph.nodes && e.src !in rg.supportGraph.nodes;
    var outcome := rg.RemoveNode(e.src);
    assert outcome.Err?;
    assert rg.threatGraph.Count(e) == 1 && rg.graph.Count(e) == 0;
    assert !rg.Consistent();
  }
}
