/** End to end: one abstract constraint resolved against one row by `Of`,
    then emitted by the visitor.  Each lemma fixes the shape of the
    constraint and leaves every other input free. */
module Scenarios {
  import opened Wrappers
  import opened Vertices
  import opened Graphs
  import opened DataConstraints
  import opened NetworkXBuilder
  import T = TypeDB

  /** The variable has a non-empty registered name that is bound in the row. */
  predicate Bound(p: T.Pipeline, row: T.ConceptRow, x: T.Variable)
  {
    x in p.names && p.names[x] != "" && p.names[x] in row.bindings
  }

  /** The vertex a bound variable is drawn as. */
  function BoundVertex(p: T.Pipeline, row: T.ConceptRow, x: T.Variable): DataVertex
    requires Bound(p, row, x)
  {
    ConceptVertex(Some(row.bindings[p.names[x]]))
  }

  /** The record `Of` yields for a constraint of a drawable kind. */
  function Resolved(p: T.Pipeline, c: T.Constraint, row: T.ConceptRow): (d: DataConstraint)
    requires ConstraintTag(c).Some?
    ensures Consistent(d) && d.constraint == c
  {
    Of(p, c, None, row).value.value
  }

  /** `$x isa $t` with both variables bound draws instance->type, labelled
      `isa!` when exact and `isa` otherwise. */
  lemma IsaBetweenBoundVariables(p: T.Pipeline, labelOf: T.Concept -> string, row: T.ConceptRow, g: Graph,
                                 x: T.Variable, t: T.Variable, ex: T.Exactness)
    requires Bound(p, row, x) && Bound(p, row, t)
    ensures var c := T.Isa(T.VariableEndpoint(x), T.VariableEndpoint(t), ex);
            (Add(p, labelOf, g, Resolved(p, c, row))
             == Success(MayAddEdge(g, BoundVertex(p, row, x), BoundVertex(p, row, t),
                                   Plain(if ex.Exact? then "isa!" else "isa"))))
  {
    var d := Resolved(p, T.Isa(T.VariableEndpoint(x), T.VariableEndpoint(t), ex), row);
    assert d.record == Record.Isa(Some(BoundVertex(p, row, x)), Some(BoundVertex(p, row, t)), ex);
    assert EdgeLabel("isa", ex) == if ex.Exact? then "isa!" else "isa";
  }

  /** `$x isa person`, whose type is a label, draws nothing. */
  lemma IsaAgainstLabelDrawsNothing(p: T.Pipeline, labelOf: T.Concept -> string, row: T.ConceptRow, g: Graph,
                                    i: T.Endpoint, l: T.Concept, ex: T.Exactness)
    ensures Add(p, labelOf, g, Resolved(p, T.Isa(i, T.LabelEndpoint(l), ex), row)) == Success(g)
  {
  }

  /** An owner variable without a registered name resolves to nothing, and
      the has constraint draws nothing. */
  lemma UnnamedOwnerDrawsNothing(p: T.Pipeline, labelOf: T.Concept -> string, row: T.ConceptRow, g: Graph,
                                 x: T.Variable, a: T.Endpoint, ex: T.Exactness)
    requires x !in p.names
    ensures Add(p, labelOf, g, Resolved(p, T.Has(T.VariableEndpoint(x), a, ex), row)) == Success(g)
  {
  }

  /** An owner variable that is named but unbound in this row is still
      drawn: as the vertex wrapping `None`, shared by every unbound
      variable. */
  lemma UnboundOwnerDrawnAsEmptyConcept(p: T.Pipeline, labelOf: T.Concept -> string, row: T.ConceptRow, g: Graph,
                                        x: T.Variable, y: T.Variable, ex: T.Exactness)
    requires x in p.names && p.names[x] != "" && p.names[x] !in row.bindings
    requires Bound(p, row, y)
    ensures var c := T.Has(T.VariableEndpoint(x), T.VariableEndpoint(y), ex);
            && Add(p, labelOf, g, Resolved(p, c, row)).Success?
            && HasEdge(Add(p, labelOf, g, Resolved(p, c, row)).value, ConceptVertex(None), BoundVertex(p, row, y))
  {
  }

  /** A links constraint whose role is a named role is labelled with the
      role's name. */
  lemma LinksLabelledByNamedRole(p: T.Pipeline, labelOf: T.Concept -> string, row: T.ConceptRow, g: Graph,
                                 r: T.Variable, pl: T.Variable, rv: T.Variable, n: string, ex: T.Exactness)
    requires Bound(p, row, r) && Bound(p, row, pl)
    ensures var c := T.Links(T.VariableEndpoint(r), T.VariableEndpoint(pl), T.NamedRoleEndpoint(rv, n), ex);
            (Add(p, labelOf, g, Resolved(p, c, row))
             == Success(MayAddEdge(g, BoundVertex(p, row, r), BoundVertex(p, row, pl), Plain(n))))
  {
    var d := Resolved(p, T.Links(T.VariableEndpoint(r), T.VariableEndpoint(pl), T.NamedRoleEndpoint(rv, n), ex), row);
    assert d.record == Record.Links(Some(BoundVertex(p, row, r)), Some(BoundVertex(p, row, pl)),
                                    Some(NamedRoleVertex(rv, n)), ex);
  }

  /** A links constraint whose role variable is named but unbound raises:
      the role resolves to the vertex wrapping `None`, whose label is then
      asked for. */
  lemma LinksWithUnboundRoleRaises(p: T.Pipeline, labelOf: T.Concept -> string, row: T.ConceptRow, g: Graph,
                                   r: T.Variable, pl: T.Variable, ro: T.Variable, ex: T.Exactness)
    requires Bound(p, row, r) && Bound(p, row, pl)
    requires ro in p.names && p.names[ro] != "" && p.names[ro] !in row.bindings
    ensures var c := T.Links(T.VariableEndpoint(r), T.VariableEndpoint(pl), T.VariableEndpoint(ro), ex);
            Add(p, labelOf, g, Resolved(p, c, row)) == Failure(RoleWithoutConcept)
  {
  }

  /** `let $y = f($a)` draws the argument into the call vertex labelled
      `arg[a]` and the call vertex out to the assigned variable labelled
      `assign[y]`. */
  lemma FunctionCallDrawsArgumentAndAssignment(p: T.Pipeline, labelOf: T.Concept -> string, row: T.ConceptRow,
                                               n: string, a: T.Variable, y: T.Variable)
    requires Bound(p, row, a) && Bound(p, row, y)
    ensures var d := Resolved(p, T.FunctionCall(n, [T.VariableEndpoint(a)], [T.VariableEndpoint(y)]), row);
            var call := FunctionCallVertex(n, [Some(BoundVertex(p, row, y))], [Some(BoundVertex(p, row, a))]);
            && Add(p, labelOf, EmptyGraph(), d).Success?
            && Add(p, labelOf, EmptyGraph(), d).value.edges
               == map[(Key(call), Key(BoundVertex(p, row, y))) := Named("assign[" + p.names[y] + "]", Some(p.names[y])),
                      (Key(BoundVertex(p, row, a)), Key(call)) := Named("arg[" + p.names[a] + "]", Some(p.names[a]))]
  {
    var d := Resolved(p, T.FunctionCall(n, [T.VariableEndpoint(a)], [T.VariableEndpoint(y)]), row);
    var av, yv := BoundVertex(p, row, a), BoundVertex(p, row, y);
    assert d.record.arguments == [Some(av)];
    assert d.record.assignments == [Some(yv)];
    assert AssignmentSpokes(d) == [(Some(yv), T.VariableEndpoint(y))];
    assert ArgumentSpokes(d) == [(Some(av), T.VariableEndpoint(a))];
    ComponentKeyDiffers(d.record.callVertex, av);
    OneSpokeEachWay(p, d.record.callVertex, yv, y, av, a);
  }

  /** From an empty graph, one assignment and one argument draw exactly two
      edges. */
  lemma OneSpokeEachWay(p: T.Pipeline, hub: DataVertex, yv: DataVertex, y: T.Variable, av: DataVertex, a: T.Variable)
    requires y in p.names && a in p.names
    requires Key(av) != Key(hub)
    ensures AddHubSpokes(p, EmptyGraph(), hub, [(Some(yv), T.VariableEndpoint(y))], [(Some(av), T.VariableEndpoint(a))]).Success?
    ensures AddHubSpokes(p, EmptyGraph(), hub, [(Some(yv), T.VariableEndpoint(y))], [(Some(av), T.VariableEndpoint(a))]).value.edges
         == map[(Key(hub), Key(yv)) := Named("assign[" + p.names[y] + "]", Some(p.names[y])),
                (Key(av), Key(hub)) := Named("arg[" + p.names[a] + "]", Some(p.names[a]))]
  {
    var k1, k2 := (Key(hub), Key(yv)), (Key(av), Key(hub));
    var a1, a2 := Named("assign[" + p.names[y] + "]", Some(p.names[y])), Named("arg[" + p.names[a] + "]", Some(p.names[a]));
    var g1 := AddSpoke(EmptyGraph(), hub, yv, a1, Outward);
    OneSpoke(p, EmptyGraph(), hub, yv, y, Outward);
    assert g1.edges == map[k1 := a1];
    var g2 := AddSpoke(g1, hub, av, a2, Inward);
    OneSpoke(p, g1, hub, av, a, Inward);
    assert k2 != k1;
    assert g2.edges == map[k1 := a1, k2 := a2];
  }

  /** A single drawable spoke is one `AddSpoke`. */
  lemma OneSpoke(p: T.Pipeline, g: Graph, hub: DataVertex, v: DataVertex, x: T.Variable, dir: Direction)
    ensures AddSpokes(p, g, hub, [(Some(v), T.VariableEndpoint(x))], dir)
         == Success(AddSpoke(g, hub, v, SpokeAttrs(T.VariableName(p, x), dir), dir))
  {
    AddSpokesCons(p, g, hub, [(Some(v), T.VariableEndpoint(x))], dir);
  }

  /** A function-call argument whose variable has no registered name cannot
      be drawn: the `None` it resolves to is handed to the graph, which
      raises. */
  lemma FunctionCallWithUnnamedArgumentRaises(p: T.Pipeline, labelOf: T.Concept -> string, row: T.ConceptRow,
                                              g: Graph, n: string, a: T.Variable)
    requires a !in p.names
    ensures Add(p, labelOf, g, Resolved(p, T.FunctionCall(n, [T.VariableEndpoint(a)], []), row)) == Failure(NoneNode)
  {
    var d := Resolved(p, T.FunctionCall(n, [T.VariableEndpoint(a)], []), row);
    assert ArgumentSpokes(d) == [(None, T.VariableEndpoint(a))];
  }

  /** An expression without arguments still draws its assign edge: its
      emptiness guard never fires. */
  lemma ExpressionWithoutArgumentsDrawsAssignment(p: T.Pipeline, labelOf: T.Concept -> string, row: T.ConceptRow,
                                                  g: Graph, text: string, y: T.Variable)
    requires Bound(p, row, y)
    ensures var d := Resolved(p, T.Expression(text, [], T.VariableEndpoint(y)), row);
            var e := ExpressionVertex(text, Some(BoundVertex(p, row, y)), []);
            (Add(p, labelOf, g, d)
             == Success(MayAddEdge(g, e, BoundVertex(p, row, y), Named("assign[" + p.names[y] + "]", Some(p.names[y])))))
  {
    var d := Resolved(p, T.Expression(text, [], T.VariableEndpoint(y)), row);
    AddSpokesCons(p, g, d.record.expressionVertex, AssignmentSpokes(d), Outward);
  }

  /** An expression whose assigned variable has no registered name draws
      nothing. */
  lemma ExpressionWithUnnamedTargetDrawsNothing(p: T.Pipeline, labelOf: T.Concept -> string, row: T.ConceptRow,
                                                g: Graph, text: string, args: seq<T.Endpoint>, y: T.Variable)
    requires y !in p.names
    ensures Add(p, labelOf, g, Resolved(p, T.Expression(text, args, T.VariableEndpoint(y)), row)) == Success(g)
  {
  }

  /** A comparison is resolved but never drawn (`add_comparison` does
      nothing); `Add`'s contract states the same for every kind that is not
      drawn. */
  lemma ComparisonDrawsNothing(p: T.Pipeline, labelOf: T.Concept -> string, row: T.ConceptRow, g: Graph,
                               l: T.Endpoint, r: T.Endpoint, cmp: T.Comparator)
    ensures Add(p, labelOf, g, Resolved(p, T.Comparison(l, r, cmp), row)) == Success(g)
  {
  }
}
