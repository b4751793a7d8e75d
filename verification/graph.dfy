/** The accumulated output graph and its two mutation helpers.

    Nodes are stored by identity key, each with the first vertex object that
    was inserted for that key (a mapping keeps its first key object on
    re-insertion).  Edges are stored by ordered pair of keys, so there is at
    most one edge per ordered pair by construction. */
module Graphs {
  import opened Wrappers
  import opened Vertices

  /** The attributes of an edge: its label, and for assignment and argument
      edges also the variable name the label was built from. */
  datatype EdgeAttrs =
    | Plain(text: string)
    | Named(text: string, variableName: Option<string>)

  datatype Graph = Graph(nodes: map<VertexKey, DataVertex>, edges: map<(VertexKey, VertexKey), EdgeAttrs>)

  /** The graph a new builder starts from. */
  function EmptyGraph(): Graph
  {
    Graph(map[], map[])
  }

  /** Every stored node object carries the key it is stored under, and every
      edge joins two stored nodes. */
  predicate Valid(g: Graph)
  {
    && (forall k :: k in g.nodes ==> Key(g.nodes[k]) == k)
    && (forall e :: e in g.edges ==> e.0 in g.nodes && e.1 in g.nodes)
  }

  /** `h` keeps every node object and every edge of `g` unchanged. */
  predicate Extends(g: Graph, h: Graph)
  {
    && (forall k :: k in g.nodes ==> k in h.nodes && h.nodes[k] == g.nodes[k])
    && (forall e :: e in g.edges ==> e in h.edges && h.edges[e] == g.edges[e])
  }

  predicate HasEdge(g: Graph, u: DataVertex, v: DataVertex)
  {
    (Key(u), Key(v)) in g.edges
  }

  /** The node keys an edge set touches, at either end. */
  function EndpointKeys(es: set<(VertexKey, VertexKey)>): set<VertexKey>
  {
    (set e | e in es :: e.0) + (set e | e in es :: e.1)
  }

  lemma EndpointKeysUnion(a: set<(VertexKey, VertexKey)>, b: set<(VertexKey, VertexKey)>)
    ensures EndpointKeys(a + b) == EndpointKeys(a) + EndpointKeys(b)
  {
    forall k | k in EndpointKeys(a + b) ensures k in EndpointKeys(a) + EndpointKeys(b) {
      var e :| e in a + b && (k == e.0 || k == e.1);
      if e in a { assert k in EndpointKeys(a); } else { assert k in EndpointKeys(b); }
    }
  }

  lemma EndpointKeysSingleton(e: (VertexKey, VertexKey))
    ensures EndpointKeys({e}) == {e.0, e.1}
  {
    assert e in {e};
  }

  /** The nodes `r` adds to `g` are exactly the endpoints of the edges it
      adds. */
  predicate NodesFollowEdges(g: Graph, r: Graph)
  {
    r.nodes.Keys == g.nodes.Keys + EndpointKeys(r.edges.Keys - g.edges.Keys)
  }

  /** A growth by the edge keys `es` that adds exactly their endpoints as
      nodes adds no node off its new edges. */
  lemma GrowthFollowsEdges(g: Graph, r: Graph, es: set<(VertexKey, VertexKey)>)
    requires Valid(g)
    requires r.edges.Keys == g.edges.Keys + es
    requires r.nodes.Keys == g.nodes.Keys + EndpointKeys(es)
    ensures NodesFollowEdges(g, r)
  {
    OldEndpointsAreNodes(g, es);
    assert r.edges.Keys - g.edges.Keys == es - g.edges.Keys;
  }

  /** Growing `g` by the edge keys `a`, then by `b`, with exactly their
      endpoints as new nodes, is growing `g` by `a + b`. */
  lemma GrowthCompose(g: Graph, g1: Graph, r: Graph, a: set<(VertexKey, VertexKey)>, b: set<(VertexKey, VertexKey)>)
    requires g1.edges.Keys == g.edges.Keys + a
    requires Valid(g) ==> g1.nodes.Keys == g.nodes.Keys + EndpointKeys(a)
    requires Valid(g) ==> Valid(g1)
    requires r.edges.Keys == g1.edges.Keys + b
    requires Valid(g1) ==> r.nodes.Keys == g1.nodes.Keys + EndpointKeys(b)
    ensures r.edges.Keys == g.edges.Keys + a + b
    ensures Valid(g) ==> r.nodes.Keys == g.nodes.Keys + EndpointKeys(a + b)
    ensures Valid(g) ==> NodesFollowEdges(g, r)
  {
    EndpointKeysUnion(a, b);
    if Valid(g) {
      GrowthFollowsEdges(g, r, a + b);
    }
  }

  /** Leaving a graph unchanged adds no node. */
  lemma NodesFollowEdgesRefl(g: Graph)
    ensures NodesFollowEdges(g, g)
  {
    assert g.edges.Keys - g.edges.Keys == {};
  }

  /** Growth that follows the edges composes. */
  lemma NodesFollowEdgesTransitive(g: Graph, h: Graph, k: Graph)
    requires g.edges.Keys <= h.edges.Keys <= k.edges.Keys
    requires NodesFollowEdges(g, h) && NodesFollowEdges(h, k)
    ensures NodesFollowEdges(g, k)
  {
    EndpointKeysUnion(h.edges.Keys - g.edges.Keys, k.edges.Keys - h.edges.Keys);
    assert (h.edges.Keys - g.edges.Keys) + (k.edges.Keys - h.edges.Keys) == k.edges.Keys - g.edges.Keys;
  }

  /** In a valid graph the endpoints of its edges are already nodes, so a
      growth that only revisits old edges adds no node. */
  lemma OldEndpointsAreNodes(g: Graph, es: set<(VertexKey, VertexKey)>)
    requires Valid(g)
    ensures g.nodes.Keys + EndpointKeys(es) == g.nodes.Keys + EndpointKeys(es - g.edges.Keys)
  {
    EndpointKeysUnion(es - g.edges.Keys, es * g.edges.Keys);
    assert es == (es - g.edges.Keys) + (es * g.edges.Keys);
    forall k | k in EndpointKeys(es * g.edges.Keys) ensures k in g.nodes {
      var e :| e in es * g.edges.Keys && (k == e.0 || k == e.1);
    }
  }

  /** `_may_add_node`: insert the vertex if no equal vertex is present. */
  function MayAddNode(g: Graph, v: DataVertex): (r: Graph)
    ensures r.nodes.Keys == g.nodes.Keys + {Key(v)}
    ensures Key(v) !in g.nodes ==> r.nodes[Key(v)] == v
    ensures Extends(g, r)
    ensures r.edges == g.edges
    ensures Valid(g) ==> Valid(r)
  {
    if Key(v) in g.nodes then g else g.(nodes := g.nodes[Key(v) := v])
  }

  /** Node insertion is idempotent up to vertex equality: inserting a vertex
      equal to one already inserted changes nothing. */
  lemma MayAddNodeIdempotent(g: Graph, v: DataVertex, w: DataVertex)
    requires Eq(v, w)
    ensures MayAddNode(MayAddNode(g, v), w) == MayAddNode(g, v)
  {
    EqIffSameKey(v, w);
  }

  /** `_may_add_edge`: if an edge u->v already exists the graph is unchanged,
      whatever its label; otherwise both vertices are inserted and exactly one
      edge u->v with the given attributes is added. */
  function MayAddEdge(g: Graph, u: DataVertex, v: DataVertex, attrs: EdgeAttrs): (r: Graph)
    ensures HasEdge(g, u, v) ==> r == g
    ensures !HasEdge(g, u, v) ==> r.edges == g.edges[(Key(u), Key(v)) := attrs]
    ensures !HasEdge(g, u, v) ==> r.nodes.Keys == g.nodes.Keys + {Key(u), Key(v)}
    ensures Valid(g) ==> r.nodes.Keys == g.nodes.Keys + {Key(u), Key(v)}
    ensures !HasEdge(g, u, v) && Key(u) !in g.nodes ==> r.nodes[Key(u)] == u
    ensures !HasEdge(g, u, v) && Key(v) !in g.nodes && Key(v) != Key(u) ==> r.nodes[Key(v)] == v
    ensures HasEdge(r, u, v)
    ensures Extends(g, r)
    ensures Valid(g) ==> Valid(r)
  {
    if HasEdge(g, u, v) then g
    else
      var g1 := MayAddNode(MayAddNode(g, u), v);
      g1.(edges := g1.edges[(Key(u), Key(v)) := attrs])
  }

  /** First writer wins: once an edge u->v exists, adding an edge between
      vertices equal to u and v, with any label, leaves the graph unchanged. */
  lemma FirstWriterWins(g: Graph, u: DataVertex, v: DataVertex, a1: EdgeAttrs,
                        u': DataVertex, v': DataVertex, a2: EdgeAttrs)
    requires Eq(u, u') && Eq(v, v')
    ensures MayAddEdge(MayAddEdge(g, u, v, a1), u', v', a2) == MayAddEdge(g, u, v, a1)
    ensures MayAddEdge(MayAddEdge(g, u, v, a1), u', v', a2).edges[(Key(u), Key(v))]
         == if HasEdge(g, u, v) then g.edges[(Key(u), Key(v))] else a1
  {
    EqIffSameKey(u, u');
    EqIffSameKey(v, v');
  }

  /** `Extends` is a preorder. */
  lemma ExtendsTransitive(g: Graph, h: Graph, k: Graph)
    requires Extends(g, h) && Extends(h, k)
    ensures Extends(g, k)
  {
  }
}
