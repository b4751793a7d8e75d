/** The emission visitor: each resolved record becomes zero or more labelled
    edges of the accumulating graph, every one of them added through
    `MayAddEdge`, so the first edge written for an ordered pair is the one
    that stays.

    An exception raised while emitting (see `EmitError`) aborts the
    conversion, so a failing emission returns no graph. */
module NetworkXBuilder {
  import opened Wrappers
  import opened Vertices
  import opened Graphs
  import opened DataConstraints
  import T = TypeDB

  /** The exceptions emission can raise. */
  datatype EmitError =
      /** `get_label()` called on the `None` inside a concept-vertex role. */
    | RoleWithoutConcept
      /** A `None` endpoint handed to the graph as a node. */
    | NoneNode
      /** `as_variable()` on an endpoint that is not a variable. */
    | NotAVariable

  /** `"base!"` for an exact constraint, `"base"` otherwise. */
  function EdgeLabel(base: string, x: T.Exactness): (r: string)
    ensures x.Exact? <==> r == base + "!"
    ensures x.Subtypes? <==> r == base
  {
    assert |base + "!"| == |base| + 1;
    match x
    case Exact => base + "!"
    case Subtypes => base
  }

  /** `r` is `g` with the edge u->v written if it was missing: a present
      edge leaves the graph unchanged; otherwise the edge set grows by exactly
      that pair with `attrs`, the node set by exactly u and v, a new node
      stores the vertex object handed in (u first), and nothing else
      changes. */
  predicate AddsEdge(g: Graph, r: Graph, u: DataVertex, v: DataVertex, attrs: EdgeAttrs)
  {
    && (HasEdge(g, u, v) ==> r == g)
    && r.edges.Keys == g.edges.Keys + {(Key(u), Key(v))}
    && r.edges[(Key(u), Key(v))] == (if HasEdge(g, u, v) then g.edges[(Key(u), Key(v))] else attrs)
    && (!HasEdge(g, u, v) ==> r.nodes.Keys == g.nodes.Keys + {Key(u), Key(v)})
    && (!HasEdge(g, u, v) && Key(u) !in g.nodes ==> r.nodes[Key(u)] == u)
    && (!HasEdge(g, u, v) && Key(v) !in g.nodes && Key(v) != Key(u) ==> r.nodes[Key(v)] == v)
    && Extends(g, r)
  }

  /** In a valid graph, drawing one edge adds no node off that edge. */
  lemma AddsEdgeFollowsEdges(g: Graph, r: Graph, u: DataVertex, v: DataVertex, attrs: EdgeAttrs)
    requires Valid(g) && AddsEdge(g, r, u, v, attrs)
    ensures NodesFollowEdges(g, r)
  {
    EndpointKeysSingleton((Key(u), Key(v)));
    GrowthFollowsEdges(g, r, {(Key(u), Key(v))});
  }

  /** The shape shared by has, sub, owns, relates and plays: nothing when
      either endpoint is missing, otherwise one edge src->dst. */
  function AddRelational(g: Graph, src: Option<DataVertex>, dst: Option<DataVertex>, base: string, x: T.Exactness)
    : (r: Graph)
    ensures src.None? || dst.None? ==> r == g
    ensures src.Some? && dst.Some? ==> AddsEdge(g, r, src.value, dst.value, Plain(EdgeLabel(base, x)))
    ensures Valid(g) ==> Valid(r)
  {
    if src.None? || dst.None? then g else MayAddEdge(g, src.value, dst.value, Plain(EdgeLabel(base, x)))
  }

  /** `add_isa`: instance->type labelled `isa`/`isa!`, except when either
      endpoint is missing or the constraint names its type by a label. */
  function AddIsa(g: Graph, d: DataConstraint): (r: Graph)
    requires d.record.Isa? && d.constraint.Isa?
    ensures d.record.instance.None? || d.record.typ.None? || d.constraint.typ.LabelEndpoint? ==> r == g
    ensures d.record.instance.Some? && d.record.typ.Some? && !d.constraint.typ.LabelEndpoint? ==>
              AddsEdge(g, r, d.record.instance.value, d.record.typ.value, Plain(EdgeLabel("isa", d.record.exactness)))
    ensures Valid(g) ==> Valid(r)
  {
    if d.record.instance.None? || d.record.typ.None? || d.constraint.typ.LabelEndpoint? then g
    else MayAddEdge(g, d.record.instance.value, d.record.typ.value, Plain(EdgeLabel("isa", d.record.exactness)))
  }

  /** A relational emitter adds no node off the edge it draws. */
  lemma RelationalFollowsEdges(g: Graph, src: Option<DataVertex>, dst: Option<DataVertex>, base: string, x: T.Exactness)
    ensures Valid(g) ==> NodesFollowEdges(g, AddRelational(g, src, dst, base, x))
  {
    if src.None? || dst.None? {
      NodesFollowEdgesRefl(g);
    } else if Valid(g) {
      AddsEdgeFollowsEdges(g, AddRelational(g, src, dst, base, x), src.value, dst.value, Plain(EdgeLabel(base, x)));
    }
  }

  lemma IsaFollowsEdges(g: Graph, d: DataConstraint)
    requires d.record.Isa? && d.constraint.Isa?
    ensures Valid(g) ==> NodesFollowEdges(g, AddIsa(g, d))
  {
    if d.record.instance.None? || d.record.typ.None? || d.constraint.typ.LabelEndpoint? {
      NodesFollowEdgesRefl(g);
    } else if Valid(g) {
      AddsEdgeFollowsEdges(g, AddIsa(g, d), d.record.instance.value, d.record.typ.value,
                           Plain(EdgeLabel("isa", d.record.exactness)));
    }
  }

  /** `add_has`: owner->attribute labelled `has`/`has!`. */
  function AddHas(g: Graph, d: DataConstraint): (r: Graph)
    requires d.record.Has?
    ensures d.record.owner.None? || d.record.attribute.None? ==> r == g
    ensures d.record.owner.Some? && d.record.attribute.Some? ==>
              AddsEdge(g, r, d.record.owner.value, d.record.attribute.value, Plain(EdgeLabel("has", d.record.exactness)))
  {
    AddRelational(g, d.record.owner, d.record.attribute, "has", d.record.exactness)
  }

  /** `add_sub`: subtype->supertype labelled `sub`/`sub!`. */
  function AddSub(g: Graph, d: DataConstraint): (r: Graph)
    requires d.record.Sub?
    ensures d.record.subtype.None? || d.record.supertype.None? ==> r == g
    ensures d.record.subtype.Some? && d.record.supertype.Some? ==>
              AddsEdge(g, r, d.record.subtype.value, d.record.supertype.value, Plain(EdgeLabel("sub", d.record.exactness)))
  {
    AddRelational(g, d.record.subtype, d.record.supertype, "sub", d.record.exactness)
  }

  /** `add_owns`: owner->attribute type labelled `owns`/`owns!`. */
  function AddOwns(g: Graph, d: DataConstraint): (r: Graph)
    requires d.record.Owns?
    ensures d.record.owner.None? || d.record.attribute.None? ==> r == g
    ensures d.record.owner.Some? && d.record.attribute.Some? ==>
              AddsEdge(g, r, d.record.owner.value, d.record.attribute.value, Plain(EdgeLabel("owns", d.record.exactness)))
  {
    AddRelational(g, d.record.owner, d.record.attribute, "owns", d.record.exactness)
  }

  /** `add_relates`: relation->role labelled `relates`/`relates!`. */
  function AddRelates(g: Graph, d: DataConstraint): (r: Graph)
    requires d.record.Relates?
    ensures d.record.relation.None? || d.record.role.None? ==> r == g
    ensures d.record.relation.Some? && d.record.role.Some? ==>
              AddsEdge(g, r, d.record.relation.value, d.record.role.value, Plain(EdgeLabel("relates", d.record.exactness)))
  {
    AddRelational(g, d.record.relation, d.record.role, "relates", d.record.exactness)
  }

  /** `add_plays`: player->role labelled `plays`/`plays!`. */
  function AddPlays(g: Graph, d: DataConstraint): (r: Graph)
    requires d.record.Plays?
    ensures d.record.player.None? || d.record.role.None? ==> r == g
    ensures d.record.player.Some? && d.record.role.Some? ==>
              AddsEdge(g, r, d.record.player.value, d.record.role.value, Plain(EdgeLabel("plays", d.record.exactness)))
  {
    AddRelational(g, d.record.player, d.record.role, "plays", d.record.exactness)
  }

  /** The label of a links edge: the role concept's label, the named role's
      display name, or the text of `None` for any other role. */
  function RoleLabel(role: Option<DataVertex>, labelOf: T.Concept -> string): (r: Result<string, EmitError>)
    ensures r.Failure? <==> role == Some(ConceptVertex(None))
    ensures role.Some? && role.value.ConceptVertex? && role.value.concept.Some? ==>
              r == Success(labelOf(role.value.concept.value))
    ensures role.Some? && role.value.NamedRoleVertex? ==> r == Success(role.value.name)
    ensures role.None? || role.value.FunctionCallVertex? || role.value.ExpressionVertex? ==> r == Success("None")
  {
    match role
    case Some(ConceptVertex(c)) => if c.None? then Failure(RoleWithoutConcept) else Success(labelOf(c.value))
    case Some(NamedRoleVertex(_, n)) => Success(n)
    case _ => Success("None")
  }

  /** `add_links`: relation->player labelled by the role.  Only the relation
      and the player are checked for `None`. */
  function AddLinks(g: Graph, d: DataConstraint, labelOf: T.Concept -> string): (r: Result<Graph, EmitError>)
    requires d.record.Links?
    ensures d.record.relation.None? || d.record.player.None? ==> r == Success(g)
    ensures d.record.relation.Some? && d.record.player.Some? ==>
              (r.Failure? <==> d.record.role == Some(ConceptVertex(None)))
    ensures d.record.relation.Some? && d.record.player.Some? && r.Success? ==>
              AddsEdge(g, r.value, d.record.relation.value, d.record.player.value,
                       Plain(RoleLabel(d.record.role, labelOf).value))
    ensures r.Success? && Valid(g) ==> NodesFollowEdges(g, r.value)
  {
    if d.record.relation.None? || d.record.player.None? then
      NodesFollowEdgesRefl(g);
      Success(g)
    else
      var roleLabel :- RoleLabel(d.record.role, labelOf);
      var r := MayAddEdge(g, d.record.relation.value, d.record.player.value, Plain(roleLabel));
      if Valid(g) then
        AddsEdgeFollowsEdges(g, r, d.record.relation.value, d.record.player.value, Plain(roleLabel));
        Success(r)
      else Success(r)
  }

  /** Python's `zip`: pairs up to the shorter of the two lists. */
  function Zip<A, B>(xs: seq<A>, ys: seq<B>): (r: seq<(A, B)>)
    ensures |r| == if |xs| <= |ys| then |xs| else |ys|
    ensures forall i :: 0 <= i < |r| ==> r[i] == (xs[i], ys[i])
  {
    if xs == [] || ys == [] then [] else [(xs[0], ys[0])] + Zip(xs[1..], ys[1..])
  }

  /** The name `get_variable_name(v.as_variable())` yields for an endpoint. */
  function VariableNameOf(p: T.Pipeline, e: T.Endpoint): (r: Result<Option<string>, EmitError>)
    ensures r.Success? <==> e.VariableEndpoint?
    ensures r.Success? ==> r.value == T.VariableName(p, e.variable)
  {
    if e.VariableEndpoint? then Success(T.VariableName(p, e.variable)) else Failure(NotAVariable)
  }

  /** How an f-string shows an optional name. */
  function Show(name: Option<string>): (r: string)
    ensures name.Some? ==> r == name.value
    ensures name.None? ==> r == "None"
  {
    if name.Some? then name.value else "None"
  }

  /** Argument edges point into the synthesized vertex and are labelled
      `arg[...]`; assignment edges point out of it and are labelled
      `assign[...]`. */
  datatype Direction = Inward | Outward

  function SpokeAttrs(name: Option<string>, dir: Direction): (r: EdgeAttrs)
    ensures r.Named? && r.variableName == name
    ensures dir == Inward ==> r.text == "arg[" + Show(name) + "]"
    ensures dir == Outward ==> r.text == "assign[" + Show(name) + "]"
  {
    match dir
    case Inward => Named("arg[" + Show(name) + "]", name)
    case Outward => Named("assign[" + Show(name) + "]", name)
  }

  /** The ordered key pair of the edge between the hub and one spoke. */
  function SpokeKey(hub: DataVertex, v: DataVertex, dir: Direction): (VertexKey, VertexKey)
  {
    match dir
    case Inward => (Key(v), Key(hub))
    case Outward => (Key(hub), Key(v))
  }

  /** Every zipped pair can be drawn: its vertex resolved and its endpoint is
      a variable. */
  predicate SpokesOk(pairs: seq<(Option<DataVertex>, T.Endpoint)>)
  {
    forall i :: 0 <= i < |pairs| ==> pairs[i].0.Some? && pairs[i].1.VariableEndpoint?
  }

  /** The key pair of the edge asked for by the `i`th spoke. */
  function KeyAt(hub: DataVertex, pairs: seq<(Option<DataVertex>, T.Endpoint)>, dir: Direction, i: int)
    : (VertexKey, VertexKey)
    requires SpokesOk(pairs) && 0 <= i < |pairs|
  {
    SpokeKey(hub, pairs[i].0.value, dir)
  }

  /** The key pairs of all edges a drawable list of spokes asks for. */
  function SpokeKeys(hub: DataVertex, pairs: seq<(Option<DataVertex>, T.Endpoint)>, dir: Direction)
    : set<(VertexKey, VertexKey)>
    requires SpokesOk(pairs)
  {
    set i | 0 <= i < |pairs| :: KeyAt(hub, pairs, dir, i)
  }

  /** The `i`th spoke asks for an edge that is neither in `g` nor asked for by
      an earlier spoke. */
  predicate FreshAt(g: Graph, hub: DataVertex, pairs: seq<(Option<DataVertex>, T.Endpoint)>, dir: Direction, i: int)
    requires SpokesOk(pairs) && 0 <= i < |pairs|
  {
    && KeyAt(hub, pairs, dir, i) !in g.edges
    && forall j :: 0 <= j < i ==> KeyAt(hub, pairs, dir, j) != KeyAt(hub, pairs, dir, i)
  }

  /** Every edge of `r` first asked for by a spoke carries that spoke's
      attributes. */
  predicate FirstLabels(p: T.Pipeline, g: Graph, r: Graph, hub: DataVertex,
                        pairs: seq<(Option<DataVertex>, T.Endpoint)>, dir: Direction)
    requires SpokesOk(pairs)
  {
    forall i :: 0 <= i < |pairs| && FreshAt(g, hub, pairs, dir, i) ==>
      && KeyAt(hub, pairs, dir, i) in r.edges
      && r.edges[KeyAt(hub, pairs, dir, i)] == SpokeAttrs(T.VariableName(p, pairs[i].1.variable), dir)
  }

  /** One edge between the hub and `v`, pointing into the hub for `Inward`
      and out of it for `Outward`, added through `MayAddEdge`. */
  function AddSpoke(g: Graph, hub: DataVertex, v: DataVertex, attrs: EdgeAttrs, dir: Direction): (r: Graph)
    ensures SpokeKey(hub, v, dir) in g.edges ==> r == g
    ensures r.edges.Keys == g.edges.Keys + {SpokeKey(hub, v, dir)}
    ensures SpokeKey(hub, v, dir) !in g.edges ==> r.edges[SpokeKey(hub, v, dir)] == attrs
    ensures SpokeKey(hub, v, dir) !in g.edges ==> r.nodes.Keys == g.nodes.Keys + {Key(hub), Key(v)}
    ensures SpokeKey(hub, v, dir) !in g.edges && Key(hub) !in g.nodes && (dir == Outward || Key(v) != Key(hub)) ==>
              r.nodes[Key(hub)] == hub
    ensures SpokeKey(hub, v, dir) !in g.edges && Key(v) !in g.nodes && (dir == Inward || Key(v) != Key(hub)) ==>
              r.nodes[Key(v)] == v
    ensures Valid(g) ==> r.nodes.Keys == g.nodes.Keys + EndpointKeys({SpokeKey(hub, v, dir)})
    ensures Extends(g, r)
    ensures Valid(g) ==> Valid(r)
  {
    EndpointKeysSingleton(SpokeKey(hub, v, dir));
    match dir
    case Inward => MayAddEdge(g, v, hub, attrs)
    case Outward => MayAddEdge(g, hub, v, attrs)
  }

  /** One `for ... in zip(...)` loop: one edge per zipped pair, each through
      `MayAddEdge`, in list order.  The endpoint's variable name is looked up
      before the vertex reaches the graph.  It fails exactly when some pair
      cannot be drawn, and otherwise adds exactly the spokes' key pairs. */
  function AddSpokes(p: T.Pipeline, g: Graph, hub: DataVertex, pairs: seq<(Option<DataVertex>, T.Endpoint)>,
                     dir: Direction): (r: Result<Graph, EmitError>)
    ensures r.Success? <==> SpokesOk(pairs)
    ensures r.Success? ==> r.value.edges.Keys == g.edges.Keys + SpokeKeys(hub, pairs, dir)
    ensures r.Success? && Valid(g) ==> r.value.nodes.Keys == g.nodes.Keys + EndpointKeys(SpokeKeys(hub, pairs, dir))
    ensures r.Success? ==> Extends(g, r.value)
    ensures r.Success? && Valid(g) ==> Valid(r.value)
    decreases |pairs|
  {
    if pairs == [] then Success(g)
    else
      var name :- VariableNameOf(p, pairs[0].1);
      if pairs[0].0.None? then Failure(NoneNode)
      else
        var g1 := AddSpoke(g, hub, pairs[0].0.value, SpokeAttrs(name, dir), dir);
        var r := AddSpokes(p, g1, hub, pairs[1..], dir);
        SpokesOkCons(pairs);
        if r.Failure? then r
        else
          SpokesStep(g, g1, r.value, hub, pairs, dir);
          r
  }

  /** The induction step of `AddSpokes`: the first spoke grows `g` to `g1`,
      the rest grow `g1` to `r`. */
  lemma SpokesStep(g: Graph, g1: Graph, r: Graph, hub: DataVertex, pairs: seq<(Option<DataVertex>, T.Endpoint)>,
                   dir: Direction)
    requires pairs != [] && SpokesOk(pairs) && SpokesOk(pairs[1..])
    requires g1.edges.Keys == g.edges.Keys + {KeyAt(hub, pairs, dir, 0)}
    requires Valid(g) ==> g1.nodes.Keys == g.nodes.Keys + EndpointKeys({KeyAt(hub, pairs, dir, 0)})
    requires r.edges.Keys == g1.edges.Keys + SpokeKeys(hub, pairs[1..], dir)
    requires Valid(g1) ==> r.nodes.Keys == g1.nodes.Keys + EndpointKeys(SpokeKeys(hub, pairs[1..], dir))
    requires Valid(g) ==> Valid(g1)
    requires Extends(g, g1) && Extends(g1, r)
    ensures r.edges.Keys == g.edges.Keys + SpokeKeys(hub, pairs, dir)
    ensures Valid(g) ==> r.nodes.Keys == g.nodes.Keys + EndpointKeys(SpokeKeys(hub, pairs, dir))
    ensures Extends(g, r)
  {
    SpokeKeysCons(hub, pairs, dir);
    EndpointKeysUnion({KeyAt(hub, pairs, dir, 0)}, SpokeKeys(hub, pairs[1..], dir));
    ExtendsTransitive(g, g1, r);
  }

  /** The first spoke of a drawable list is drawn first, then the rest. */
  lemma AddSpokesCons(p: T.Pipeline, g: Graph, hub: DataVertex, pairs: seq<(Option<DataVertex>, T.Endpoint)>,
                      dir: Direction)
    requires pairs != [] && SpokesOk(pairs)
    ensures SpokesOk(pairs[1..])
    ensures AddSpokes(p, g, hub, pairs, dir)
         == AddSpokes(p, AddSpoke(g, hub, pairs[0].0.value, SpokeAttrs(T.VariableName(p, pairs[0].1.variable), dir), dir),
                      hub, pairs[1..], dir)
  {
    SpokesOkCons(pairs);
  }

  lemma SpokesOkCons(pairs: seq<(Option<DataVertex>, T.Endpoint)>)
    requires pairs != []
    ensures SpokesOk(pairs) <==> pairs[0].0.Some? && pairs[0].1.VariableEndpoint? && SpokesOk(pairs[1..])
  {
    var rest := pairs[1..];
    if pairs[0].0.Some? && pairs[0].1.VariableEndpoint? && SpokesOk(rest) {
      forall i | 0 <= i < |pairs| ensures pairs[i].0.Some? && pairs[i].1.VariableEndpoint? {
        if i > 0 { assert pairs[i] == rest[i - 1]; }
      }
    }
  }

  lemma SpokeKeysCons(hub: DataVertex, pairs: seq<(Option<DataVertex>, T.Endpoint)>, dir: Direction)
    requires pairs != [] && SpokesOk(pairs) && SpokesOk(pairs[1..])
    ensures SpokeKeys(hub, pairs, dir) == {KeyAt(hub, pairs, dir, 0)} + SpokeKeys(hub, pairs[1..], dir)
  {
    var rest := pairs[1..];
    forall k | k in SpokeKeys(hub, pairs, dir) ensures k in {KeyAt(hub, pairs, dir, 0)} + SpokeKeys(hub, rest, dir) {
      var i :| 0 <= i < |pairs| && k == KeyAt(hub, pairs, dir, i);
      if i > 0 { assert KeyAt(hub, pairs, dir, i) == KeyAt(hub, rest, dir, i - 1); }
    }
    forall k | k in SpokeKeys(hub, rest, dir) ensures k in SpokeKeys(hub, pairs, dir) {
      var i :| 0 <= i < |rest| && k == KeyAt(hub, rest, dir, i);
      assert KeyAt(hub, rest, dir, i) == KeyAt(hub, pairs, dir, i + 1);
    }
  }

  /** Along the list, first writer wins: every new edge carries the
      attributes of the first pair that asked for it. */
  lemma {:induction false} SpokesFirstLabels(p: T.Pipeline, g: Graph, hub: DataVertex,
                                             pairs: seq<(Option<DataVertex>, T.Endpoint)>, dir: Direction)
    requires AddSpokes(p, g, hub, pairs, dir).Success?
    ensures FirstLabels(p, g, AddSpokes(p, g, hub, pairs, dir).value, hub, pairs, dir)
    decreases |pairs|
  {
    if pairs != [] {
      AddSpokesCons(p, g, hub, pairs, dir);
      var g1 := AddSpoke(g, hub, pairs[0].0.value, SpokeAttrs(T.VariableName(p, pairs[0].1.variable), dir), dir);
      SpokesFirstLabels(p, g1, hub, pairs[1..], dir);
      FirstLabelsCons(p, g, g1, AddSpokes(p, g1, hub, pairs[1..], dir).value, hub, pairs, dir);
    }
  }

  /** First-writer-wins along the list: the first spoke's edge is written
      into `g1` unless present, and the remaining spokes write `r`. */
  lemma FirstLabelsCons(p: T.Pipeline, g: Graph, g1: Graph, r: Graph, hub: DataVertex,
                        pairs: seq<(Option<DataVertex>, T.Endpoint)>, dir: Direction)
    requires pairs != [] && SpokesOk(pairs) && SpokesOk(pairs[1..])
    requires g1.edges.Keys == g.edges.Keys + {KeyAt(hub, pairs, dir, 0)}
    requires KeyAt(hub, pairs, dir, 0) !in g.edges ==>
               g1.edges[KeyAt(hub, pairs, dir, 0)] == SpokeAttrs(T.VariableName(p, pairs[0].1.variable), dir)
    requires Extends(g1, r)
    requires FirstLabels(p, g1, r, hub, pairs[1..], dir)
    ensures FirstLabels(p, g, r, hub, pairs, dir)
  {
    var rest := pairs[1..];
    forall i | 0 <= i < |pairs| && FreshAt(g, hub, pairs, dir, i)
      ensures KeyAt(hub, pairs, dir, i) in r.edges
      ensures r.edges[KeyAt(hub, pairs, dir, i)] == SpokeAttrs(T.VariableName(p, pairs[i].1.variable), dir)
    {
      if i > 0 {
        assert pairs[i] == rest[i - 1];
        assert KeyAt(hub, pairs, dir, i) == KeyAt(hub, rest, dir, i - 1);
        forall j | 0 <= j < i - 1 ensures KeyAt(hub, rest, dir, j) != KeyAt(hub, rest, dir, i - 1) {
          assert KeyAt(hub, rest, dir, j) == KeyAt(hub, pairs, dir, j + 1);
        }
        assert FreshAt(g1, hub, rest, dir, i - 1);
      }
    }
  }

  /** A spoke list whose edges are all present already adds nothing. */
  lemma {:induction false} SpokesNoOp(p: T.Pipeline, h: Graph, hub: DataVertex,
                                      pairs: seq<(Option<DataVertex>, T.Endpoint)>, dir: Direction)
    requires SpokesOk(pairs)
    requires SpokeKeys(hub, pairs, dir) <= h.edges.Keys
    ensures AddSpokes(p, h, hub, pairs, dir) == Success(h)
    decreases |pairs|
  {
    if pairs != [] {
      AddSpokesCons(p, h, hub, pairs, dir);
      SpokeKeysCons(hub, pairs, dir);
      SpokesNoOp(p, h, hub, pairs[1..], dir);
    }
  }

  /** Spoke attributes that hold relative to `g1` also hold relative to a
      smaller `g`, when the extra edges are not among the spokes' own. */
  lemma FirstLabelsAcross(p: T.Pipeline, g: Graph, g1: Graph, r: Graph, hub: DataVertex,
                          pairs: seq<(Option<DataVertex>, T.Endpoint)>, dir: Direction)
    requires SpokesOk(pairs)
    requires g1.edges.Keys <= g.edges.Keys + (g1.edges.Keys - SpokeKeys(hub, pairs, dir))
    requires FirstLabels(p, g1, r, hub, pairs, dir)
    ensures FirstLabels(p, g, r, hub, pairs, dir)
  {
    forall i | 0 <= i < |pairs| && FreshAt(g, hub, pairs, dir, i)
      ensures FreshAt(g1, hub, pairs, dir, i)
    {
      assert KeyAt(hub, pairs, dir, i) in SpokeKeys(hub, pairs, dir);
    }
  }

  /** Every argument vertex is a component of the hub, so no argument edge
      has the key of an edge leaving the hub. */
  lemma InwardOutwardDisjoint(hub: DataVertex, ins: seq<(Option<DataVertex>, T.Endpoint)>,
                              outs: seq<(Option<DataVertex>, T.Endpoint)>)
    requires hub.FunctionCallVertex? || hub.ExpressionVertex?
    requires SpokesOk(ins) && SpokesOk(outs)
    requires forall i :: 0 <= i < |ins| ==> ins[i].0 in hub.arguments
    ensures SpokeKeys(hub, ins, Inward) !! SpokeKeys(hub, outs, Outward)
  {
    forall i | 0 <= i < |ins| ensures KeyAt(hub, ins, Inward, i) !in SpokeKeys(hub, outs, Outward) {
      ComponentKeyDiffers(hub, ins[i].0.value);
    }
  }

  /** The drawing of a synthesized vertex: the edges out of it, then the
      edges into it. */
  function AddHubSpokes(p: T.Pipeline, g: Graph, hub: DataVertex, outs: seq<(Option<DataVertex>, T.Endpoint)>,
                        ins: seq<(Option<DataVertex>, T.Endpoint)>): (r: Result<Graph, EmitError>)
    ensures r.Success? <==> SpokesOk(outs) && SpokesOk(ins)
    ensures r.Success? ==>
              r.value.edges.Keys == g.edges.Keys + SpokeKeys(hub, outs, Outward) + SpokeKeys(hub, ins, Inward)
    ensures r.Success? && Valid(g) ==>
              r.value.nodes.Keys == g.nodes.Keys + EndpointKeys(SpokeKeys(hub, outs, Outward) + SpokeKeys(hub, ins, Inward))
    ensures r.Success? ==> Extends(g, r.value)
    ensures r.Success? && Valid(g) ==> Valid(r.value)
    ensures r.Success? && Valid(g) ==> NodesFollowEdges(g, r.value)
  {
    var g1 :- AddSpokes(p, g, hub, outs, Outward);
    var r := AddSpokes(p, g1, hub, ins, Inward);
    if r.Failure? then r
    else
      HubSpokesStep(g, g1, r.value, hub, outs, ins);
      r
  }

  /** The outward loop grows `g` to `g1`, the inward loop `g1` to `r`. */
  lemma HubSpokesStep(g: Graph, g1: Graph, r: Graph, hub: DataVertex, outs: seq<(Option<DataVertex>, T.Endpoint)>,
                      ins: seq<(Option<DataVertex>, T.Endpoint)>)
    requires SpokesOk(outs) && SpokesOk(ins)
    requires g1.edges.Keys == g.edges.Keys + SpokeKeys(hub, outs, Outward)
    requires Valid(g) ==> g1.nodes.Keys == g.nodes.Keys + EndpointKeys(SpokeKeys(hub, outs, Outward))
    requires Valid(g) ==> Valid(g1)
    requires r.edges.Keys == g1.edges.Keys + SpokeKeys(hub, ins, Inward)
    requires Valid(g1) ==> r.nodes.Keys == g1.nodes.Keys + EndpointKeys(SpokeKeys(hub, ins, Inward))
    requires Extends(g, g1) && Extends(g1, r)
    ensures r.edges.Keys == g.edges.Keys + SpokeKeys(hub, outs, Outward) + SpokeKeys(hub, ins, Inward)
    ensures Valid(g) ==> r.nodes.Keys == g.nodes.Keys + EndpointKeys(SpokeKeys(hub, outs, Outward) + SpokeKeys(hub, ins, Inward))
    ensures Extends(g, r)
    ensures Valid(g) ==> NodesFollowEdges(g, r)
  {
    ExtendsTransitive(g, g1, r);
    GrowthCompose(g, g1, r, SpokeKeys(hub, outs, Outward), SpokeKeys(hub, ins, Inward));
  }

  /** Once a synthesized vertex has been drawn, drawing it again into that
      graph or any extension of it changes nothing. */
  lemma HubSpokesNoOpAfter(p: T.Pipeline, g: Graph, h: Graph, hub: DataVertex,
                           outs: seq<(Option<DataVertex>, T.Endpoint)>, ins: seq<(Option<DataVertex>, T.Endpoint)>)
    requires AddHubSpokes(p, g, hub, outs, ins).Success?
    requires Extends(AddHubSpokes(p, g, hub, outs, ins).value, h)
    ensures AddHubSpokes(p, h, hub, outs, ins) == Success(h)
  {
    SpokesNoOp(p, h, hub, outs, Outward);
    SpokesNoOp(p, h, hub, ins, Inward);
  }

  /** Every new edge of a synthesized vertex carries the `assign[...]` or
      `arg[...]` attributes of the first pair asking for it, when the
      argument vertices are the hub's components. */
  lemma HubSpokesLabels(p: T.Pipeline, g: Graph, hub: DataVertex, outs: seq<(Option<DataVertex>, T.Endpoint)>,
                        ins: seq<(Option<DataVertex>, T.Endpoint)>)
    requires hub.FunctionCallVertex? || hub.ExpressionVertex?
    requires forall i :: 0 <= i < |ins| ==> ins[i].0 in hub.arguments
    requires SpokesOk(outs) && SpokesOk(ins)
    ensures FirstLabels(p, g, AddHubSpokes(p, g, hub, outs, ins).value, hub, outs, Outward)
    ensures FirstLabels(p, g, AddHubSpokes(p, g, hub, outs, ins).value, hub, ins, Inward)
  {
    var g1 := AddSpokes(p, g, hub, outs, Outward).value;
    SpokesFirstLabels(p, g, hub, outs, Outward);
    SpokesFirstLabels(p, g1, hub, ins, Inward);
    InwardOutwardDisjoint(hub, ins, outs);
    FirstLabelsAcross(p, g, g1, AddHubSpokes(p, g, hub, outs, ins).value, hub, ins, Inward);
  }

  /** The zipped argument pairs of a call or expression record. */
  function ArgumentSpokes(d: DataConstraint): seq<(Option<DataVertex>, T.Endpoint)>
    requires (d.record.FunctionCall? || d.record.Expression?) && (d.constraint.FunctionCall? || d.constraint.Expression?)
  {
    Zip(d.record.arguments, d.constraint.arguments)
  }

  /** The pairs drawn out of a synthesized vertex: the zipped assignments of
      a call, or the single assigned endpoint of an expression. */
  function AssignmentSpokes(d: DataConstraint): seq<(Option<DataVertex>, T.Endpoint)>
    requires (d.record.FunctionCall? && d.constraint.FunctionCall?) || (d.record.Expression? && d.constraint.Expression?)
  {
    if d.record.FunctionCall? then Zip(d.record.assignments, d.constraint.assignments)
    else [(d.record.assignedTo, d.constraint.assignedTo)]
  }

  /** The synthesized vertex of a call or expression record. */
  function HubOf(d: DataConstraint): DataVertex
    requires d.record.FunctionCall? || d.record.Expression?
  {
    if d.record.FunctionCall? then d.record.callVertex else d.record.expressionVertex
  }

  /** The argument vertices of a consistent record are the components of its
      synthesized vertex. */
  lemma ArgumentsAreComponents(d: DataConstraint)
    requires Consistent(d) && (d.record.FunctionCall? || d.record.Expression?)
    ensures HubOf(d).FunctionCallVertex? || HubOf(d).ExpressionVertex?
    ensures forall i :: 0 <= i < |ArgumentSpokes(d)| ==> ArgumentSpokes(d)[i].0 in HubOf(d).arguments
  {
  }

  /** The drawing of an expression vertex `e` with assigned vertex `a`: the
      single assign edge e->a, then one edge into `e` per argument pair. */
  function AddAssignedHub(p: T.Pipeline, g: Graph, e: DataVertex, a: DataVertex, target: T.Endpoint,
                          ins: seq<(Option<DataVertex>, T.Endpoint)>): (r: Result<Graph, EmitError>)
    ensures r.Success? <==> target.VariableEndpoint? && SpokesOk(ins)
    ensures r.Success? ==> r.value.edges.Keys == g.edges.Keys + {(Key(e), Key(a))} + SpokeKeys(e, ins, Inward)
    ensures r.Success? && Valid(g) ==>
              r.value.nodes.Keys == g.nodes.Keys + EndpointKeys({(Key(e), Key(a))} + SpokeKeys(e, ins, Inward))
    ensures r.Success? ==> Extends(g, r.value)
    ensures r.Success? && Valid(g) ==> Valid(r.value)
    ensures r.Success? && Valid(g) ==> NodesFollowEdges(g, r.value)
    ensures r.Success? && (Key(e), Key(a)) !in g.edges && Key(e) !in g.nodes ==>
              Key(e) in r.value.nodes && r.value.nodes[Key(e)] == e
    ensures r.Success? && (Key(e), Key(a)) !in g.edges && Key(a) !in g.nodes && Key(a) != Key(e) ==>
              Key(a) in r.value.nodes && r.value.nodes[Key(a)] == a
  {
    SingleSpokeKeys(e, a, target);
    AssignedHubStores(p, g, e, a, target, ins);
    AddHubSpokes(p, g, e, [(Some(a), target)], ins)
  }

  /** The assign edge is drawn before any argument edge, so a new expression
      or assigned node stores the vertex handed in. */
  lemma AssignedHubStores(p: T.Pipeline, g: Graph, e: DataVertex, a: DataVertex, target: T.Endpoint,
                          ins: seq<(Option<DataVertex>, T.Endpoint)>)
    ensures var r := AddHubSpokes(p, g, e, [(Some(a), target)], ins);
            && (r.Success? && (Key(e), Key(a)) !in g.edges && Key(e) !in g.nodes ==>
                  Key(e) in r.value.nodes && r.value.nodes[Key(e)] == e)
            && (r.Success? && (Key(e), Key(a)) !in g.edges && Key(a) !in g.nodes && Key(a) != Key(e) ==>
                  Key(a) in r.value.nodes && r.value.nodes[Key(a)] == a)
  {
    if target.VariableEndpoint? && SpokesOk(ins) {
      var outs := [(Some(a), target)];
      AddSpokesCons(p, g, e, outs, Outward);
      var g1 := AddSpoke(g, e, a, SpokeAttrs(T.VariableName(p, target.variable), Outward), Outward);
      assert outs[1..] == [];
      assert AddSpokes(p, g, e, outs, Outward) == Success(g1);
    }
  }

  /** A single resolved spoke is drawable exactly when its endpoint is a
      variable, and then asks for exactly one edge. */
  lemma SingleSpokeKeys(e: DataVertex, a: DataVertex, target: T.Endpoint)
    ensures SpokesOk([(Some(a), target)]) <==> target.VariableEndpoint?
    ensures target.VariableEndpoint? ==> SpokeKeys(e, [(Some(a), target)], Outward) == {(Key(e), Key(a))}
  {
    var outs := [(Some(a), target)];
    SpokesOkCons(outs);
    if target.VariableEndpoint? {
      SpokeKeysCons(e, outs, Outward);
    }
  }

  /** `add_expression`: expression->assigned labelled `assign[...]`, then one
      argument->expression edge labelled `arg[...]` per zipped argument.  It
      returns early only when the assigned vertex is missing: the accompanying
      emptiness test `0 == len(...) is None` is a chained comparison that never
      holds, so an expression without arguments still gets its assign edge. */
  function AddExpression(p: T.Pipeline, g: Graph, d: DataConstraint): (r: Result<Graph, EmitError>)
    requires Consistent(d) && d.record.Expression?
    ensures d.record.assignedTo.None? ==> r == Success(g)
    ensures d.record.assignedTo.Some? ==>
              (r.Success? <==> d.constraint.assignedTo.VariableEndpoint? && SpokesOk(ArgumentSpokes(d)))
    ensures r.Success? && d.record.assignedTo.Some? ==>
              r.value.edges.Keys == g.edges.Keys + {(Key(d.record.expressionVertex), Key(d.record.assignedTo.value))}
                                    + SpokeKeys(d.record.expressionVertex, ArgumentSpokes(d), Inward)
    ensures r.Success? && d.record.assignedTo.Some? && Valid(g) ==>
              r.value.nodes.Keys == g.nodes.Keys + EndpointKeys({(Key(d.record.expressionVertex), Key(d.record.assignedTo.value))}
                                                                + SpokeKeys(d.record.expressionVertex, ArgumentSpokes(d), Inward))
    ensures r.Success? ==> Extends(g, r.value)
    ensures r.Success? && Valid(g) ==> Valid(r.value)
    ensures r.Success? && Valid(g) ==> NodesFollowEdges(g, r.value)
  {
    if d.record.assignedTo.None? then
      NodesFollowEdgesRefl(g);
      Success(g)
    else
      AddAssignedHub(p, g, d.record.expressionVertex, d.record.assignedTo.value, d.constraint.assignedTo, ArgumentSpokes(d))
  }

  /** The labels `add_expression` writes: the assign edge keeps an earlier
      edge's attributes or else gets `assign[...]`, and every new argument edge
      carries the `arg[...]` attributes of the first argument asking for it. */
  lemma ExpressionLabels(p: T.Pipeline, g: Graph, d: DataConstraint)
    requires Consistent(d) && d.record.Expression? && d.record.assignedTo.Some?
    requires d.constraint.assignedTo.VariableEndpoint? && SpokesOk(ArgumentSpokes(d))
    ensures var r, e, a := AddExpression(p, g, d).value, d.record.expressionVertex, d.record.assignedTo.value;
            && r.edges[(Key(e), Key(a))]
               == (if HasEdge(g, e, a) then g.edges[(Key(e), Key(a))]
                   else SpokeAttrs(T.VariableName(p, d.constraint.assignedTo.variable), Outward))
            && FirstLabels(p, g, r, e, ArgumentSpokes(d), Inward)
  {
    ArgumentsAreComponents(d);
    HubSpokesLabels(p, g, d.record.expressionVertex, AssignmentSpokes(d), ArgumentSpokes(d));
    assert FreshAt(g, d.record.expressionVertex, AssignmentSpokes(d), Outward, 0) <==> !HasEdge(g, d.record.expressionVertex, d.record.assignedTo.value);
  }

  /** `add_function_call`: call->assigned labelled `assign[...]` per zipped
      assignment, then argument->call labelled `arg[...]` per zipped argument.
      It never returns early (its emptiness tests never hold); with both lists
      empty it adds nothing. */
  function AddFunctionCall(p: T.Pipeline, g: Graph, d: DataConstraint): (r: Result<Graph, EmitError>)
    requires Consistent(d) && d.record.FunctionCall?
    ensures r.Success? <==> SpokesOk(AssignmentSpokes(d)) && SpokesOk(ArgumentSpokes(d))
    ensures r.Success? ==>
              r.value.edges.Keys == g.edges.Keys + SpokeKeys(d.record.callVertex, AssignmentSpokes(d), Outward)
                                                 + SpokeKeys(d.record.callVertex, ArgumentSpokes(d), Inward)
    ensures r.Success? && Valid(g) ==>
              r.value.nodes.Keys == g.nodes.Keys + EndpointKeys(SpokeKeys(d.record.callVertex, AssignmentSpokes(d), Outward)
                                                                + SpokeKeys(d.record.callVertex, ArgumentSpokes(d), Inward))
    ensures AssignmentSpokes(d) == [] && ArgumentSpokes(d) == [] ==> r == Success(g)
    ensures r.Success? ==> Extends(g, r.value)
    ensures r.Success? && Valid(g) ==> Valid(r.value)
    ensures r.Success? && Valid(g) ==> NodesFollowEdges(g, r.value)
  {
    AddHubSpokes(p, g, d.record.callVertex, AssignmentSpokes(d), ArgumentSpokes(d))
  }

  /** The labels `add_function_call` writes: each new edge carries the
      `assign[...]` or `arg[...]` attributes of the first pair asking for it;
      no argument edge collides with an assignment edge. */
  lemma FunctionCallLabels(p: T.Pipeline, g: Graph, d: DataConstraint)
    requires Consistent(d) && d.record.FunctionCall?
    requires SpokesOk(AssignmentSpokes(d)) && SpokesOk(ArgumentSpokes(d))
    ensures FirstLabels(p, g, AddFunctionCall(p, g, d).value, d.record.callVertex, AssignmentSpokes(d), Outward)
    ensures FirstLabels(p, g, AddFunctionCall(p, g, d).value, d.record.callVertex, ArgumentSpokes(d), Inward)
  {
    ArgumentsAreComponents(d);
    HubSpokesLabels(p, g, d.record.callVertex, AssignmentSpokes(d), ArgumentSpokes(d));
  }

  /** Kinds the builder never draws. */
  predicate Silent(r: Record)
  {
    r.Kind? || r.Label? || r.Value? || r.Is? || r.Iid? || r.Comparison?
  }

  /** The emitters that cannot raise, each record to the `add_*` method of
      its kind. */
  function AddInfallible(g: Graph, d: DataConstraint): (r: Graph)
    requires Consistent(d) && !d.record.FunctionCall? && !d.record.Expression? && !d.record.Links?
    ensures Silent(d.record) ==> r == g
    ensures r.edges.Keys == g.edges.Keys + RequestedEdges(d)
    ensures Extends(g, r)
    ensures Valid(g) ==> Valid(r)
  {
    match d.record
    case Isa(_, _, _) => AddIsa(g, d)
    case Has(_, _, _) => AddHas(g, d)
    case Sub(_, _, _) => AddSub(g, d)
    case Owns(_, _, _) => AddOwns(g, d)
    case Relates(_, _, _) => AddRelates(g, d)
    case Plays(_, _, _) => AddPlays(g, d)
    case Is(_, _) => g
    case Iid(_, _) => g
    case Comparison(_, _, _) => g
    case Kind(_, _) => g
    case Label(_, _) => g
    case Value(_, _) => g
  }

  /** The emitters that cannot raise add no node off the edge they draw. */
  lemma InfallibleFollowsEdges(g: Graph, d: DataConstraint)
    requires Consistent(d) && !d.record.FunctionCall? && !d.record.Expression? && !d.record.Links?
    ensures Valid(g) ==> NodesFollowEdges(g, AddInfallible(g, d))
  {
    NodesFollowEdgesRefl(g);
    match d.record
    case Isa(_, _, _) => IsaFollowsEdges(g, d);
    case Has(o, a, x) => RelationalFollowsEdges(g, o, a, "has", x);
    case Sub(s, t, x) => RelationalFollowsEdges(g, s, t, "sub", x);
    case Owns(o, a, x) => RelationalFollowsEdges(g, o, a, "owns", x);
    case Relates(r, ro, x) => RelationalFollowsEdges(g, r, ro, "relates", x);
    case Plays(pl, ro, x) => RelationalFollowsEdges(g, pl, ro, "plays", x);
    case Is(_, _) =>
    case Iid(_, _) =>
    case Comparison(_, _, _) =>
    case Kind(_, _) =>
    case Label(_, _) =>
    case Value(_, _) =>
  }

  /** The one edge a two-ended record asks for, when both ends resolved. */
  function PairRequest(src: Option<DataVertex>, dst: Option<DataVertex>): set<(VertexKey, VertexKey)>
  {
    if src.Some? && dst.Some? then {(Key(src.value), Key(dst.value))} else {}
  }

  /** The key pairs of the edges a record asks the graph for, whatever the
      graph already holds: one pair for a two-ended record with both ends
      resolved (none for an isa against a label), the assign and argument
      spokes of a call or of an expression with an assigned vertex, and
      nothing for the kinds that are not drawn. */
  function RequestedEdges(d: DataConstraint): set<(VertexKey, VertexKey)>
    requires Consistent(d)
  {
    match d.record
    case Isa(i, t, _) => if d.constraint.typ.LabelEndpoint? then {} else PairRequest(i, t)
    case Has(o, a, _) => PairRequest(o, a)
    case Links(rel, pl, _, _) => PairRequest(rel, pl)
    case Sub(s, t, _) => PairRequest(s, t)
    case Owns(o, a, _) => PairRequest(o, a)
    case Relates(rel, ro, _) => PairRequest(rel, ro)
    case Plays(pl, ro, _) => PairRequest(pl, ro)
    case FunctionCall(c, _, _) =>
      if SpokesOk(AssignmentSpokes(d)) && SpokesOk(ArgumentSpokes(d))
      then SpokeKeys(c, AssignmentSpokes(d), Outward) + SpokeKeys(c, ArgumentSpokes(d), Inward)
      else {}
    case Expression(e, _, a) =>
      if a.Some? && SpokesOk(ArgumentSpokes(d))
      then {(Key(e), Key(a.value))} + SpokeKeys(e, ArgumentSpokes(d), Inward)
      else {}
    case _ => {}
  }

  /** The records whose emission raises: a links record with both ends
      resolved and an unbound role; a call with a pair that cannot be drawn;
      an expression with an assigned vertex whose target is not a variable
      or with an argument that cannot be drawn. */
  predicate Raises(d: DataConstraint)
    requires Consistent(d)
  {
    match d.record
    case Links(rel, pl, ro, _) => rel.Some? && pl.Some? && ro == Some(ConceptVertex(None))
    case FunctionCall(_, _, _) => !(SpokesOk(AssignmentSpokes(d)) && SpokesOk(ArgumentSpokes(d)))
    case Expression(_, _, a) => a.Some? && !(d.constraint.assignedTo.VariableEndpoint? && SpokesOk(ArgumentSpokes(d)))
    case _ => false
  }

  /** The visitor: each record goes to the `add_*` method of its kind; only
      the call, expression and links emitters can raise. */
  function Add(p: T.Pipeline, labelOf: T.Concept -> string, g: Graph, d: DataConstraint): (r: Result<Graph, EmitError>)
    requires Consistent(d)
    ensures Silent(d.record) ==> r == Success(g)
    ensures r.Failure? <==> Raises(d)
    ensures r.Success? ==> r.value.edges.Keys == g.edges.Keys + RequestedEdges(d)
    ensures r.Success? ==> Extends(g, r.value)
    ensures r.Success? && Valid(g) ==> Valid(r.value)
    ensures r.Success? && Valid(g) ==> NodesFollowEdges(g, r.value)
  {
    if d.record.FunctionCall? then AddFunctionCall(p, g, d)
    else if d.record.Expression? then AddExpression(p, g, d)
    else if d.record.Links? then AddLinks(g, d, labelOf)
    else
      InfallibleFollowsEdges(g, d);
      Success(AddInfallible(g, d))
  }

  /** A relational edge, once drawn, is not drawn again into any extension. */
  lemma RelationalNoOpAfter(g: Graph, h: Graph, src: Option<DataVertex>, dst: Option<DataVertex>,
                            base: string, x: T.Exactness)
    requires Extends(AddRelational(g, src, dst, base, x), h)
    ensures AddRelational(h, src, dst, base, x) == h
  {
  }

  lemma IsaNoOpAfter(g: Graph, h: Graph, d: DataConstraint)
    requires d.record.Isa? && d.constraint.Isa?
    requires Extends(AddIsa(g, d), h)
    ensures AddIsa(h, d) == h
  {
  }

  lemma LinksNoOpAfter(g: Graph, h: Graph, d: DataConstraint, labelOf: T.Concept -> string)
    requires d.record.Links?
    requires AddLinks(g, d, labelOf).Success?
    requires Extends(AddLinks(g, d, labelOf).value, h)
    ensures AddLinks(h, d, labelOf) == Success(h)
  {
  }

  lemma InfallibleNoOpAfter(g: Graph, h: Graph, d: DataConstraint)
    requires Consistent(d) && !d.record.FunctionCall? && !d.record.Expression? && !d.record.Links?
    requires Extends(AddInfallible(g, d), h)
    ensures AddInfallible(h, d) == h
  {
    match d.record
    case Isa(_, _, _) => IsaNoOpAfter(g, h, d);
    case Has(o, a, x) => RelationalNoOpAfter(g, h, o, a, "has", x);
    case Sub(s, t, x) => RelationalNoOpAfter(g, h, s, t, "sub", x);
    case Owns(o, a, x) => RelationalNoOpAfter(g, h, o, a, "owns", x);
    case Relates(r, ro, x) => RelationalNoOpAfter(g, h, r, ro, "relates", x);
    case Plays(pl, ro, x) => RelationalNoOpAfter(g, h, pl, ro, "plays", x);
    case Is(_, _) =>
    case Iid(_, _) =>
    case Comparison(_, _, _) =>
    case Kind(_, _) =>
    case Label(_, _) =>
    case Value(_, _) =>
  }

  /** Once a record has been emitted, emitting it again into the result or
      into any later extension of it changes nothing: every edge it asks for
      is already there. */
  lemma AddNoOpAfter(p: T.Pipeline, labelOf: T.Concept -> string, g: Graph, h: Graph, d: DataConstraint)
    requires Consistent(d)
    requires Add(p, labelOf, g, d).Success?
    requires Extends(Add(p, labelOf, g, d).value, h)
    ensures Add(p, labelOf, h, d) == Success(h)
  {
    if d.record.FunctionCall? {
      HubSpokesNoOpAfter(p, g, h, d.record.callVertex, AssignmentSpokes(d), ArgumentSpokes(d));
    } else if d.record.Expression? {
      if d.record.assignedTo.Some? {
        HubSpokesNoOpAfter(p, g, h, d.record.expressionVertex, AssignmentSpokes(d), ArgumentSpokes(d));
      }
    } else if d.record.Links? {
      LinksNoOpAfter(g, h, d, labelOf);
    } else {
      InfallibleNoOpAfter(g, h, d);
    }
  }

  /** Emitting a record a second time changes nothing. */
  lemma AddIdempotent(p: T.Pipeline, labelOf: T.Concept -> string, g: Graph, d: DataConstraint)
    requires Consistent(d)
    requires Add(p, labelOf, g, d).Success?
    ensures Add(p, labelOf, Add(p, labelOf, g, d).value, d) == Add(p, labelOf, g, d)
  {
    AddNoOpAfter(p, labelOf, g, Add(p, labelOf, g, d).value, d);
  }

  /** Whether emission fails depends on the record alone, never on the graph
      it is emitted into. */
  lemma AddFailureIgnoresGraph(p: T.Pipeline, labelOf: T.Concept -> string, g: Graph, h: Graph, d: DataConstraint)
    requires Consistent(d)
    ensures Add(p, labelOf, g, d).Failure? <==> Add(p, labelOf, h, d).Failure?
  {
  }

  /** Ordered-pair exclusivity across records: an edge written by one record
      keeps its attributes through every later emission. */
  lemma EarlierEdgeWins(p: T.Pipeline, labelOf: T.Concept -> string, g: Graph, d1: DataConstraint, d2: DataConstraint,
                        u: DataVertex, v: DataVertex)
    requires Consistent(d1) && Consistent(d2)
    requires Add(p, labelOf, g, d1).Success?
    requires HasEdge(Add(p, labelOf, g, d1).value, u, v)
    requires Add(p, labelOf, Add(p, labelOf, g, d1).value, d2).Success?
    ensures Add(p, labelOf, Add(p, labelOf, g, d1).value, d2).value.edges[(Key(u), Key(v))]
         == Add(p, labelOf, g, d1).value.edges[(Key(u), Key(v))]
  {
  }
}
