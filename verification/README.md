# TypeDB graph utilities: answer-to-graph conversion, in Dafny

This project models the conversion engine of `typedb_graph_utils`. The engine
turns the answers of an analysed TypeQL query into a directed, labelled graph
in NetworkX form. It works in two layers:

- **Resolution** (`data_constraint.py`). Each abstract constraint of the query
  pipeline is resolved against one answer row. Every endpoint becomes an
  optional graph vertex, and the constraint becomes one of fifteen record
  classes. The vertex classes carry value-based equality and hashing.
- **Emission** (`networkx_builder.py`). A visitor turns each record into zero
  or more edges. Every edge goes through `_may_add_edge`, so the first edge
  written for an ordered pair of vertices is the one that stays.

Files:

- `wrappers.dfy`: `Option` and `Result`.
- `typedb.dfy`: the driver types the engine consumes. Concepts, variables,
  comparators and kind enums are abstract types. The pipeline's variable names
  and a row's bindings are finite maps. The abstract constraint tree is a
  datatype.
- `vertices.dfy`: the four vertex classes. `Eq` is their `__eq__`. `Key` is
  a vertex's identity as a dictionary key: the fields its `__hash__` is taken
  over, tagged with its class. The hash itself leaves the class out, so two
  vertices of different classes may share a hash value. `__eq__`'s
  `isinstance` check tells them apart, and the class tag stands for that
  check.
- `data_constraint.py` is modelled in `data_constraint.dfy`:
  `resolve_constraint_vertex`, `DataConstraint.of`, the records, and their
  `is_*`/`as_*` methods.
- `graph.dfy`: the graph, with `_may_add_node` and `_may_add_edge`. Nodes are
  keyed by vertex identity, and the first representative stored is kept, as
  a NetworkX node dictionary does. Edges are keyed by the ordered pair of
  vertex identities.
- `networkx_builder.dfy`: the `add_*` emitters and the visitor `Add`.
- `conversion.dfy`: a fresh builder, a list of records visited in turn, and
  `finish`.
- `scenarios.dfy`: end-to-end facts that compose `Of` with `Add`.

Where the code's own evidence of intent and its behaviour differ, the model
follows the behaviour:

- **Unbound variables are drawn.** A variable with a registered name that is
  unbound in the row resolves to a concept vertex wrapping `None`
  (data_constraint.py:110-112). It is not treated as absent. So the `is None`
  guards of the emitters do not skip it, every unbound variable is drawn as
  the same node, and a links constraint whose role variable is unbound raises
  when the role's label is asked for (networkx_builder.py:43-44).
  - `DataConstraints.UnboundVariableResolvesToEmptyConcept`,
    `Scenarios.UnboundOwnerDrawnAsEmptyConcept` and
    `Scenarios.LinksWithUnboundRoleRaises` state this.
- **The emptiness guards never fire.** The guards `0 == len(...) is None`
  (networkx_builder.py:91 and :105) read as emptiness tests, and the comment
  "We refrain from drawing" above the second one (networkx_builder.py:104)
  says the same. But they are chained comparisons: `0 == len(x)` and
  `len(x) is None`. The second part is always false. So an expression
  without arguments still gets its assign edge, and a function call is never
  skipped.
  - `AddExpression`, `AddFunctionCall` and
    `Scenarios.ExpressionWithoutArgumentsDrawsAssignment` state this.
- **A missing argument raises.** An argument or assignment that resolves to
  nothing is not skipped. It is handed to the graph as the node `None`, and
  the graph library rejects that node. The model reports this as the
  `NoneNode` error (`Scenarios.FunctionCallWithUnnamedArgumentRaises`).

Errors are values of `Result`. Each error is an exception in the source, and
an exception ends the conversion, so a failing emission returns no graph.

## Model

| member | source | states |
|---|---|---|
| Vertices.Eq | python/typedb_graph_utils/data_constraint.py:21-97 | `__eq__` holds only between vertices of the same class (the `isinstance(other, self.__class__)` check), never across classes |
| Vertices.Key | python/typedb_graph_utils/data_constraint.py:18-90 | A vertex's dictionary identity records its class alongside the hashed fields, so vertices of different classes never share a key, even where their `__hash__` values coincide (a concept and a role vertex hash only their concept and variable) |
| Vertices.EqIsEquivalence | python/typedb_graph_utils/data_constraint.py:21-26 | Vertex equality is reflexive, symmetric and transitive, so the `other is self` shortcut agrees with the field comparison |
| Vertices.EqIffSameKey | python/typedb_graph_utils/data_constraint.py:18-97 | For every pair of vertices, `__eq__` holds exactly when their keys agree, that is, same class and equal hashed fields: equal vertices hash alike, and vertices that differ in class or in a hashed field are unequal |
| Vertices.OptEqIffSameKey | python/typedb_graph_utils/data_constraint.py:89-97 | The same law for a tuple element, which may be `None`: `None` equals only `None` |
| Vertices.TupleEqIffSameKeys | python/typedb_graph_utils/data_constraint.py:66-74 | Two tuples of optional vertices compare equal (same length, equal element by element) exactly when their hashed tuples are equal |
| Vertices.ConceptVertexIdentity | python/typedb_graph_utils/data_constraint.py:14-26 | Two concept vertices are equal exactly when their concepts are, and then share a key |
| Vertices.NamedRoleIdentity | python/typedb_graph_utils/data_constraint.py:35-51 | A role vertex is identified by its variable alone; its display name takes no part in equality or hashing |
| Vertices.FunctionCallIdentity | python/typedb_graph_utils/data_constraint.py:60-74 | Two call vertices are equal exactly when name, assigned tuple and argument tuple all agree |
| Vertices.ArgumentOrderMatters | python/typedb_graph_utils/data_constraint.py:60-74 | Swapping two unequal arguments gives an unequal call vertex: the tuples are ordered |
| Vertices.ExpressionIdentity | python/typedb_graph_utils/data_constraint.py:83-97 | Two expression vertices are equal exactly when text, assigned vertex and argument tuple all agree |
| Vertices.DifferentClassesNeverEqual | python/typedb_graph_utils/data_constraint.py:21-26 | The class check: vertices of different classes are never equal and never share a key, whatever their hash values |
| Vertices.ComponentKeyDiffers | python/typedb_graph_utils/data_constraint.py:60-97 | A call or expression vertex never equals one of its own arguments or assigned vertices, so no argument or assign edge is a self-loop |
| DataConstraints.ResolveVertex | python/typedb_graph_utils/data_constraint.py:107-118 | A label or value endpoint becomes a concept vertex of it, and a named role becomes a role vertex. The result is absent exactly for unrecognised endpoints and for variables without a non-empty registered name. A named variable becomes a concept vertex of the row's binding, which is `None` when unbound |
| DataConstraints.ResolveAll | python/typedb_graph_utils/data_constraint.py:186-187 | The list comprehension: same length, element `i` is the resolution of endpoint `i` |
| DataConstraints.UnboundVariableResolvesToEmptyConcept | python/typedb_graph_utils/data_constraint.py:109-112 | A named variable unbound in the row resolves to a concept vertex wrapping `None`, not to nothing |
| DataConstraints.ResolveRecord | python/typedb_graph_utils/data_constraint.py:133-234 | A record is produced exactly for the fifteen drawable constraint kinds |
| DataConstraints.ResolveRecordKeepsKind | python/typedb_graph_utils/data_constraint.py:133-234 | The record is of its constraint's kind and carries its exactness, name, text, iid, comparator, kind, label or value type unchanged |
| DataConstraints.ResolveRecordKeepsEndpoints | python/typedb_graph_utils/data_constraint.py:133-234 | The record's vertices are the resolutions of its constraint's endpoints, in order, none dropped or added |
| DataConstraints.ResolveRecordSynthesizedVertices | python/typedb_graph_utils/data_constraint.py:183-197 | A call or expression record holds the resolved lists, and its synthesized vertex is built from exactly those lists |
| DataConstraints.Of | python/typedb_graph_utils/data_constraint.py:130-238 | `None` exactly for or/not/try. A `TypeError` naming the variant exactly for an unknown kind. Otherwise a record that keeps the constraint and answer index, is consistent with the constraint and copies its metadata |
| DataConstraints.OfKeepsEndpoints | python/typedb_graph_utils/data_constraint.py:130-234 | Every drawable constraint yields a record holding the resolution of each of its endpoints in order |
| DataConstraints.Probe | python/typedb_graph_utils/data_constraint.py:240-282 | An `is_*` probe answers `True` exactly for the probe of the record's own kind: the base class answers `False` and each subclass overrides its own probe |
| DataConstraints.ProbeExactlyOne | python/typedb_graph_utils/data_constraint.py:240-282 | Each record answers `True` to the `is_*` probe of its own class and to no other |
| DataConstraints.Cast | python/typedb_graph_utils/data_constraint.py:285-328 | The `as_*` cast of a record's own class returns the record itself; every other cast raises a bad-cast error naming the expected and the actual class |
| Graphs.MayAddNode | python/typedb_graph_utils/networkx_builder.py:128-130 | The node set gains the vertex's identity and nothing else; a vertex equal to a stored one leaves the stored representative in place; edges and validity are kept |
| Graphs.MayAddNodeIdempotent | python/typedb_graph_utils/networkx_builder.py:128-130 | Inserting a vertex equal to one already inserted changes nothing |
| Graphs.MayAddEdge | python/typedb_graph_utils/networkx_builder.py:132-136 | An existing edge for the ordered pair leaves the graph unchanged whatever its label. Otherwise exactly that edge is added with the given attributes, the node set grows by exactly the two endpoints, and an endpoint that was not yet a node is stored as the vertex handed in. Old nodes and edges are kept, and validity is preserved |
| Graphs.FirstWriterWins | python/typedb_graph_utils/networkx_builder.py:132-136 | Once u->v is drawn, drawing any vertices equal to u and v with any label changes nothing, and the first label stays |
| Graphs.NodesFollowEdgesTransitive | python/typedb_graph_utils/networkx_builder.py:132-136 | If each of two successive emissions adds as nodes only the endpoints of its new edges, so does the two together |
| Graphs.GrowthCompose | python/typedb_graph_utils/networkx_builder.py:132-136 | Adding the edges `a` with their endpoints, then `b` with theirs, adds `a + b` and exactly their endpoints |
| NetworkXBuilder.EdgeLabel | python/typedb_graph_utils/networkx_builder.py:29 | The label is `base!` exactly when the constraint is exact, and `base` exactly when it admits subtypes |
| NetworkXBuilder.AddRelational | python/typedb_graph_utils/networkx_builder.py:33-38 | Nothing when either endpoint is missing. Otherwise the edge src->dst is drawn unless one exists, with the attributes given; the node set grows by exactly its two endpoints, each new node storing the vertex handed in; old nodes and edges are kept |
| NetworkXBuilder.RelationalFollowsEdges | python/typedb_graph_utils/networkx_builder.py:33-38 | In a valid graph a relational emission adds as nodes only the endpoints of the edge it draws |
| NetworkXBuilder.AddsEdgeFollowsEdges | python/typedb_graph_utils/networkx_builder.py:132-136 | In a valid graph drawing one edge adds as nodes only that edge's endpoints |
| NetworkXBuilder.AddIsa | python/typedb_graph_utils/networkx_builder.py:26-31 | Nothing when an endpoint is missing or the type is given by a label; otherwise instance->type labelled `isa`/`isa!` unless an edge for the pair exists. The node set grows by exactly the two endpoints, each new node storing the vertex handed in; old nodes and edges are kept |
| NetworkXBuilder.IsaFollowsEdges | python/typedb_graph_utils/networkx_builder.py:26-31 | In a valid graph an isa emission adds as nodes only the endpoints of the edge it draws |
| NetworkXBuilder.AddHas | python/typedb_graph_utils/networkx_builder.py:33-38 | Nothing when an endpoint is missing; otherwise owner->attribute labelled `has`/`has!` unless an edge for the pair exists. The node set grows by exactly the two endpoints, each new node storing the vertex handed in; old nodes and edges are kept |
| NetworkXBuilder.AddSub | python/typedb_graph_utils/networkx_builder.py:53-58 | Nothing when an endpoint is missing; otherwise subtype->supertype labelled `sub`/`sub!` unless an edge for the pair exists. The node set grows by exactly the two endpoints, each new node storing the vertex handed in; old nodes and edges are kept |
| NetworkXBuilder.AddOwns | python/typedb_graph_utils/networkx_builder.py:60-65 | Nothing when an endpoint is missing; otherwise owner->attribute type labelled `owns`/`owns!` unless an edge for the pair exists. The node set grows by exactly the two endpoints, each new node storing the vertex handed in; old nodes and edges are kept |
| NetworkXBuilder.AddRelates | python/typedb_graph_utils/networkx_builder.py:67-72 | Nothing when an endpoint is missing; otherwise relation->role labelled `relates`/`relates!` unless an edge for the pair exists. The node set grows by exactly the two endpoints, each new node storing the vertex handed in; old nodes and edges are kept |
| NetworkXBuilder.AddPlays | python/typedb_graph_utils/networkx_builder.py:74-79 | Nothing when an endpoint is missing; otherwise player->role labelled `plays`/`plays!` unless an edge for the pair exists. The node set grows by exactly the two endpoints, each new node storing the vertex handed in; old nodes and edges are kept |
| NetworkXBuilder.RoleLabel | python/typedb_graph_utils/networkx_builder.py:43-49 | A concept role gives its concept's label and a named role its name. Any other role gives the text `None`. The only failure is a concept role wrapping `None` |
| NetworkXBuilder.AddLinks | python/typedb_graph_utils/networkx_builder.py:40-51 | Nothing when relation or player is missing. Otherwise it fails exactly when the role wraps `None`, and else draws relation->player labelled by the role unless an edge for the pair exists. The node set then grows by exactly relation and player, each new node storing the vertex handed in |
| NetworkXBuilder.Zip | python/typedb_graph_utils/networkx_builder.py:98 | `zip` pairs element `i` with element `i` up to the shorter list |
| NetworkXBuilder.VariableNameOf | python/typedb_graph_utils/networkx_builder.py:99 | `as_variable` succeeds exactly on variable endpoints, and the name is the pipeline's registered name |
| NetworkXBuilder.Show | python/typedb_graph_utils/networkx_builder.py:95-100 | An f-string renders a present name as itself and a missing one as the text `None` |
| NetworkXBuilder.SpokeAttrs | python/typedb_graph_utils/networkx_builder.py:99-100 | Argument edges are labelled `arg[name]` and assign edges `assign[name]`, both carrying the variable name |
| NetworkXBuilder.AddSpoke | python/typedb_graph_utils/networkx_builder.py:93-116 | Assign edges go hub->vertex and argument edges vertex->hub. An edge already present leaves the graph unchanged. Otherwise exactly that edge is added with the given attributes, the node set grows by exactly the hub and the vertex, and a hub or vertex that was not yet a node stores the object handed in (when hub and vertex share a key, the edge's source is stored) |
| NetworkXBuilder.AddSpokes | python/typedb_graph_utils/networkx_builder.py:98-101 | The loop fails exactly when some zipped pair has a missing vertex or a non-variable endpoint. Otherwise it adds exactly the pairs' edges, the node set grows by exactly the hub and the pairs' vertices, every earlier node and edge is kept, and validity is preserved |
| NetworkXBuilder.SpokesFirstLabels | python/typedb_graph_utils/networkx_builder.py:98-101 | Every edge new to the graph carries the attributes of the first pair in the list that asked for it |
| NetworkXBuilder.SpokesNoOp | python/typedb_graph_utils/networkx_builder.py:98-101 | A loop whose edges are all present already adds nothing |
| NetworkXBuilder.AddHubSpokes | python/typedb_graph_utils/networkx_builder.py:107-116 | Assign edges then argument edges. It succeeds exactly when both lists can be drawn, adds exactly their edges, grows the node set by exactly the hub and every listed vertex, keeps earlier nodes and edges and preserves validity |
| NetworkXBuilder.HubSpokesNoOpAfter | python/typedb_graph_utils/networkx_builder.py:107-116 | Once drawn, a synthesized vertex's edges are all present in every extension, and drawing them again changes nothing |
| NetworkXBuilder.HubSpokesLabels | python/typedb_graph_utils/networkx_builder.py:107-116 | Every new assign or argument edge carries the attributes of the first pair asking for it; argument edges never collide with assign edges |
| NetworkXBuilder.AddExpression | python/typedb_graph_utils/networkx_builder.py:90-101 | Nothing when the assigned vertex is missing. Otherwise it fails exactly when the assigned endpoint is not a variable or an argument cannot be drawn, and else adds the assign edge plus the argument edges, even with no arguments. The new nodes are exactly the expression vertex, the assigned vertex and the arguments |
| NetworkXBuilder.AddAssignedHub | python/typedb_graph_utils/networkx_builder.py:93-101 | Once the assigned vertex is present: fails exactly when its endpoint is not a variable or an argument cannot be drawn; else adds the hub->assigned edge and the argument edges, and as nodes exactly their endpoints. If the assign edge is new, a new hub node stores the expression vertex and a new assigned node the assigned vertex |
| NetworkXBuilder.ExpressionLabels | python/typedb_graph_utils/networkx_builder.py:93-101 | The assign edge keeps an earlier edge's attributes or else gets `assign[name]`; every new argument edge gets the `arg[name]` of the first argument asking for it |
| NetworkXBuilder.AddFunctionCall | python/typedb_graph_utils/networkx_builder.py:103-116 | It fails exactly when an assigned or argument pair cannot be drawn, and else adds exactly the assign and argument edges, and as new nodes exactly the call vertex and the vertices on those edges. With both lists empty it adds nothing: the early return never fires |
| NetworkXBuilder.FunctionCallLabels | python/typedb_graph_utils/networkx_builder.py:107-116 | Every new assign edge carries `assign[name]` and every new argument edge `arg[name]`, from the first pair asking for it |
| NetworkXBuilder.AddInfallible | python/typedb_graph_utils/networkx_builder.py:81-88 | The emitters that never raise keep every earlier edge and validity; kind, label and value records, as well as is, iid and comparison records, draw nothing |
| NetworkXBuilder.InfallibleFollowsEdges | python/typedb_graph_utils/networkx_builder.py:26-88 | In a valid graph the emitters that cannot raise add as nodes only the endpoints of the edges they draw |
| NetworkXBuilder.Add | python/typedb_graph_utils/networkx_builder.py:26-125 | The `add_*` methods behind the visitor; the dispatch of a record to its method lives in `converter.py`, which is not part of this model. Is, iid, comparison, kind, label and value records leave the graph unchanged. An emission raises exactly when `Raises` holds: a links record with an unbound role, a call or expression with a pair that cannot be drawn. A successful one adds exactly the edges `RequestedEdges` names for the record (one pair for a two-ended record with both ends resolved and a non-label isa type, the assign and argument spokes of a call or expression), keeps every earlier node and edge, adds as nodes exactly the endpoints of the new edges, and preserves validity |
| NetworkXBuilder.RelationalNoOpAfter | python/typedb_graph_utils/networkx_builder.py:33-38 | A relational edge once drawn is not drawn again into any extension |
| NetworkXBuilder.IsaNoOpAfter | python/typedb_graph_utils/networkx_builder.py:26-31 | An isa edge once drawn is not drawn again into any extension |
| NetworkXBuilder.LinksNoOpAfter | python/typedb_graph_utils/networkx_builder.py:40-51 | A links edge once drawn is not drawn again into any extension |
| NetworkXBuilder.InfallibleNoOpAfter | python/typedb_graph_utils/networkx_builder.py:26-88 | The same for every emitter that cannot raise |
| NetworkXBuilder.AddNoOpAfter | python/typedb_graph_utils/networkx_builder.py:132-136 | After a record has been emitted, emitting it again into the result or into any later extension changes nothing |
| NetworkXBuilder.AddIdempotent | python/typedb_graph_utils/networkx_builder.py:132-136 | Emitting a record twice in a row is emitting it once |
| NetworkXBuilder.AddFailureIgnoresGraph | python/typedb_graph_utils/networkx_builder.py:40-51 | Whether an emission raises depends on the record alone, never on what the graph already holds |
| NetworkXBuilder.EarlierEdgeWins | python/typedb_graph_utils/networkx_builder.py:132-136 | An edge written by one record keeps its attributes through the emission of any later record |
| Conversion.AddAll | python/typedb_graph_utils/networkx_builder.py:19-24 | The builder's constructor and `finish` are cited; the loop that visits records lives in `converter.py`, which is not part of this model. Visiting records in turn raises exactly when some record raises. Otherwise it adds exactly the union of the records' requested edges, keeps every earlier node and edge, adds as nodes exactly the endpoints of the new edges, and preserves validity |
| Conversion.Convert | python/typedb_graph_utils/networkx_builder.py:19-24 | A new builder starts from the empty graph. The conversion raises exactly when some record raises. Otherwise `finish` returns a valid graph whose edges are exactly the union of the records' requested edges and whose nodes are exactly the endpoints of those edges. With no records it is the empty graph |
| Conversion.AddAllFailsIffSomeRecordRaises | python/typedb_graph_utils/networkx_builder.py:19-24 | A conversion aborts exactly when some record's emission raises, whatever the order and the starting graph |
| Conversion.AddAllDrawsEveryRecord | python/typedb_graph_utils/networkx_builder.py:132-136 | After a successful run every record is already drawn: emitting any of them again changes nothing |
| Conversion.AddAllNoOp | python/typedb_graph_utils/networkx_builder.py:132-136 | Records that are all drawn in a graph add nothing to it |
| Conversion.AddAllAppend | python/typedb_graph_utils/networkx_builder.py:19-24 | Visiting two lists is visiting the first, then the second from its result; an error in the first stops both |
| Conversion.ConvertTwice | python/typedb_graph_utils/networkx_builder.py:132-136 | Visiting the same records twice draws the same graph, or raises the same error, as visiting them once |
| Scenarios.IsaBetweenBoundVariables | python/typedb_graph_utils/networkx_builder.py:26-31 | `$x isa $t` with both bound draws exactly the instance->type edge, labelled `isa!` when exact and `isa` otherwise |
| Scenarios.IsaAgainstLabelDrawsNothing | python/typedb_graph_utils/networkx_builder.py:27 | An isa whose type is a label draws nothing |
| Scenarios.UnnamedOwnerDrawsNothing | python/typedb_graph_utils/data_constraint.py:110-112 | A has constraint whose owner variable has no registered name draws nothing |
| Scenarios.UnboundOwnerDrawnAsEmptyConcept | python/typedb_graph_utils/data_constraint.py:110-112 | A has constraint whose owner is named but unbound draws an edge from the vertex wrapping `None` |
| Scenarios.LinksLabelledByNamedRole | python/typedb_graph_utils/networkx_builder.py:45-51 | A links with a named role draws relation->player labelled with the role name |
| Scenarios.LinksWithUnboundRoleRaises | python/typedb_graph_utils/networkx_builder.py:43-44 | A links whose role variable is named but unbound raises |
| Scenarios.FunctionCallDrawsArgumentAndAssignment | python/typedb_graph_utils/networkx_builder.py:103-116 | `let $y = f($a)` with both bound, into an empty graph, draws exactly two edges: call->y labelled `assign[y]` and a->call labelled `arg[a]` |
| Scenarios.OneSpokeEachWay | python/typedb_graph_utils/networkx_builder.py:107-116 | From an empty graph, one assignment and one argument draw exactly those two edges with their attributes |
| Scenarios.FunctionCallWithUnnamedArgumentRaises | python/typedb_graph_utils/networkx_builder.py:113-116 | A call argument whose variable has no registered name is handed to the graph as `None`, which raises |
| Scenarios.ExpressionWithoutArgumentsDrawsAssignment | python/typedb_graph_utils/networkx_builder.py:91-96 | An expression without arguments still draws its assign edge |
| Scenarios.ExpressionWithUnnamedTargetDrawsNothing | python/typedb_graph_utils/networkx_builder.py:91-92 | An expression whose assigned variable has no registered name draws nothing |
| Scenarios.ComparisonDrawsNothing | python/typedb_graph_utils/networkx_builder.py:124-125 | A comparison is resolved but never drawn |

## Left out

- The TypeDB driver. Concepts, variables, comparators and kind enums are
  abstract. `get_variable_name` is a finite map, and `ConceptRow.get` is a
  map lookup.
- A concept's `get_label()` is the parameter `labelOf`, because the driver
  code behind it is not part of this model.
- `as_variable()` on an endpoint that is not a variable is the error
  `NotAVariable`. The driver's own exception is not modelled.
- The graph library. Only the behaviour the builder relies on is modelled:
  node and edge membership, attribute storage, and the rejection of `None` as
  a node, which becomes the error `NoneNode`. The library's storage layout is
  not modelled.
- Partial graphs left behind by an exception. An emission that raises returns
  no graph, because the exception ends the conversion.
- `__repr__` texts and the numeric values of `__hash__`. Only the
  hash-equality law is modelled, over the hashed fields.
- The `TypeError` message texts. `UnsupportedVariant` carries the variant
  name, and `BadCast` carries the expected and the actual class.
- The driver loop that walks answers and calls `DataConstraint.of` and the
  visitor, and the nested constraints of or/not/try. This loop lives in
  `converter.py`, which is not part of this model. `Conversion.AddAll` takes
  the records as a list in visiting order.
- Add, Conversion.AddAll, Conversion.Convert: these contracts state which
  edges are drawn, and when an emission raises. They do not state which label
  each edge carries. The edge-label rule applies only to pairs that are not
  yet drawn, and over a whole run it depends on which record asked first.
  - The per-record lemmas `SpokesFirstLabels`, `ExpressionLabels`,
    `FunctionCallLabels` and `EarlierEdgeWins`, and the relational emitters'
    own contracts, give that rule one emission at a time.
  - Re-emission being a no-op is stated by the lemmas `AddIdempotent`,
    `AddNoOpAfter` and `Conversion.AddAllNoOp`.
- AddSpokes, AddHubSpokes, AddExpression, AddFunctionCall, AddAssignedHub:
  which object a new spoke node of a list stores is stated only up to vertex
  equality (through `Valid`, every stored object carries the key it is stored
  under), not as the exact argument object. The exact object is stated by the
  relational emitters, by `Graphs.MayAddEdge`, by `AddSpoke` for one spoke,
  and by `AddAssignedHub` for the expression vertex and its assigned vertex.
