/**
 * The part of a networkx MultiDiGraph that the risk graphs use, as a value:
 * a set of nodes, the attribute record of the nodes that were added with
 * attributes, and the parallel directed edges in insertion order.
 */
module MultiDiGraph {
  import opened Wrappers

  type NodeName = string

  datatype Edge = Edge(src: NodeName, dst: NodeName)

  /** The exception networkx raises for a missing node or edge. */
  datatype GraphError = NetworkXError

  datatype Graph<A> = Graph(nodes: set<NodeName>, attrs: map<NodeName, A>, edges: seq<Edge>)
  {
    /** Attributes belong to nodes, and every edge joins two nodes. */
    ghost predicate Valid()
    {
      && attrs.Keys <= nodes
      && forall e :: e in edges ==> e.src in nodes && e.dst in nodes
    }

    /** The number of parallel edges equal to `e`. */
    function Count(e: Edge): nat
    {
      multiset(edges)[e]
    }
  }

  function Empty<A>(): (g: Graph<A>)
    ensures g.Valid() && g.nodes == {} && g.attrs == map[] && g.edges == []
  {
    Graph({}, map[], [])
  }

  /** `G.add_node(n, **data)`: adds `n` if it is new and sets its attributes. */
  function AddNode<A>(g: Graph<A>, n: NodeName, data: A): (r: Graph<A>)
    ensures g.Valid() ==> r.Valid()
    ensures r.nodes == g.nodes + {n} && r.attrs == g.attrs[n := data] && r.edges == g.edges
  {
    Graph(g.nodes + {n}, g.attrs[n := data], g.edges)
  }

  /** `G.add_nodes_from(entries)`: `AddNode` for each entry, in order. */
  function AddNodesFrom<A>(g: Graph<A>, entries: seq<(NodeName, A)>): (r: Graph<A>)
    ensures g.Valid() ==> r.Valid()
    ensures r.nodes == g.nodes + set i | 0 <= i < |entries| :: entries[i].0
    ensures r.attrs.Keys == g.attrs.Keys + set i | 0 <= i < |entries| :: entries[i].0
    ensures forall n :: n in g.attrs && (forall i :: 0 <= i < |entries| ==> entries[i].0 != n) ==> r.attrs[n] == g.attrs[n]
    ensures forall i :: 0 <= i < |entries| && (forall j :: i < j < |entries| ==> entries[j].0 != entries[i].0) ==>
              r.attrs[entries[i].0] == entries[i].1
    ensures r.edges == g.edges
    decreases |entries|
  {
    if entries == [] then g
    else
      var last := entries[|entries| - 1];
      var prefix := entries[..|entries| - 1];
      assert entries == prefix + [last];
      assert forall i :: 0 <= i < |prefix| ==> prefix[i] == entries[i];
      assert (set i | 0 <= i < |entries| :: entries[i].0) == (set i | 0 <= i < |prefix| :: prefix[i].0) + {last.0};
      AddNode(AddNodesFrom(g, prefix), last.0, last.1)
  }

  /**
   * `G.add_edge(u, v)`: appends one more parallel edge u->v; an endpoint that
   * is not yet a node becomes one, without attributes.
   */
  function AddEdge<A>(g: Graph<A>, u: NodeName, v: NodeName): (r: Graph<A>)
    ensures g.Valid() ==> r.Valid()
    ensures r.nodes == g.nodes + {u, v} && r.attrs == g.attrs
    ensures multiset(r.edges) == multiset(g.edges) + multiset{Edge(u, v)}
  {
    Graph(g.nodes + {u, v}, g.attrs, g.edges + [Edge(u, v)])
  }

  /** The endpoints of a sequence of edges. */
  function Endpoints(es: seq<Edge>): set<NodeName>
  {
    (set i | 0 <= i < |es| :: es[i].src) + (set i | 0 <= i < |es| :: es[i].dst)
  }

  /** `AddEdge` for each edge of `es`, in order. */
  function AddEdges<A>(g: Graph<A>, es: seq<Edge>): (r: Graph<A>)
    ensures g.Valid() ==> r.Valid()
    ensures r.nodes == g.nodes + Endpoints(es) && r.attrs == g.attrs && r.edges == g.edges + es
    decreases |es|
  {
    if es == [] then g
    else
      var prefix := es[..|es| - 1];
      var last := es[|es| - 1];
      assert es == prefix + [last];
      assert Endpoints(es) == Endpoints(prefix) + {last.src, last.dst};
      var r := AddEdges(g, prefix);
      Graph(r.nodes + {last.src, last.dst}, r.attrs, r.edges + [last])
  }

  lemma {:induction false} AddEdgesAppend<A>(g: Graph<A>, a: seq<Edge>, b: seq<Edge>)
    ensures AddEdges(AddEdges(g, a), b) == AddEdges(g, a + b)
    decreases |b|
  {
    if b == [] {
      assert a + b == a;
    } else {
      var prefix, last := b[..|b| - 1], b[|b| - 1];
      AddEdgesAppend(g, a, prefix);
      assert (a + b)[..|a + b| - 1] == a + prefix;
      assert (a + b)[|a + b| - 1] == last;
      // Both sides add `last` to the same graph.
      var r := AddEdges(g, a + prefix);
      assert AddEdges(AddEdges(g, a), b) == Graph(r.nodes + {last.src, last.dst}, r.attrs, r.edges + [last]);
      assert AddEdges(g, a + b) == Graph(r.nodes + {last.src, last.dst}, r.attrs, r.edges + [last]);
    }
  }

  /** The sequence `es` without its last occurrence of `e`. */
  function RemoveLast(es: seq<Edge>, e: Edge): (r: seq<Edge>)
    requires e in es
    ensures multiset(r) == multiset(es) - multiset{e}
    ensures forall x :: x in r ==> x in es
    decreases |es|
  {
    var prefix := es[..|es| - 1];
    var last := es[|es| - 1];
    assert es == prefix + [last];
    if last == e then prefix else RemoveLast(prefix, e) + [last]
  }

  /**
   * `G.remove_edge(u, v)`: removes one parallel edge u->v (networkx drops the
   * most recently added key); raises NetworkXError when there is none.
   */
  function RemoveEdge<A>(g: Graph<A>, u: NodeName, v: NodeName): (r: Result<Graph<A>, GraphError>)
    ensures r.Ok? <==> Edge(u, v) in g.edges
    ensures r.Ok? ==> r.value.nodes == g.nodes && r.value.attrs == g.attrs
    ensures r.Ok? ==> multiset(r.value.edges) == multiset(g.edges) - multiset{Edge(u, v)}
    ensures r.Ok? && g.Valid() ==> r.value.Valid()
  {
    if Edge(u, v) !in g.edges then Err(NetworkXError)
    else
      Ok(Graph(g.nodes, g.attrs, RemoveLast(g.edges, Edge(u, v))))
  }

  /** The edges of `es` that neither start nor end at `n`, in order. */
  function WithoutNode(es: seq<Edge>, n: NodeName): (r: seq<Edge>)
    ensures forall e :: multiset(r)[e] == if e.src == n || e.dst == n then 0 else multiset(es)[e]
    ensures forall e :: e in r ==> e in es
    decreases |es|
  {
    if es == [] then []
    else
      var prefix := es[..|es| - 1];
      var last := es[|es| - 1];
      assert es == prefix + [last];
      var kept := WithoutNode(prefix, n);
      if last.src == n || last.dst == n then kept else kept + [last]
  }

  /**
   * `G.remove_node(n)`: removes `n`, its attributes and every edge into or out
   * of it; raises NetworkXError when `n` is not a node.
   */
  function RemoveNode<A>(g: Graph<A>, n: NodeName): (r: Result<Graph<A>, GraphError>)
    ensures r.Ok? <==> n in g.nodes
    ensures r.Ok? ==> r.value.nodes == g.nodes - {n} && r.value.attrs == g.attrs - {n}
    ensures r.Ok? ==> forall e :: r.value.Count(e) == if e.src == n || e.dst == n then 0 else g.Count(e)
    ensures r.Ok? && g.Valid() ==> r.value.Valid()
  {
    if n !in g.nodes then Err(NetworkXError)
    else Ok(Graph(g.nodes - {n}, g.attrs - {n}, WithoutNode(g.edges, n)))
  }
}
