/** The parts of the TypeDB driver and analyze API that the conversion engine
    consumes: concepts, query variables, the pipeline's variable names, one
    answer row, and the abstract constraint tree with its endpoints.  The
    driver itself is not part of this model; its values are abstract types and
    its lookups are finite maps. */
module TypeDB {
  import opened Wrappers

  /** A concrete value bound in an answer: an entity, relation, attribute,
      type or literal.  Equality is the driver's concept equality. */
  type Concept(==)

  /** A query variable of the analysed pipeline. */
  type Variable(==)

  /** The comparison operator of a comparison constraint; carried opaque. */
  type Comparator(==)

  /** The kind enum (entity, relation, attribute, role) of a kind constraint;
      carried opaque. */
  type KindEnum(==)

  /** Exact constraints forbid subtype substitution; the others permit it. */
  datatype Exactness = Exact | Subtypes

  /** The pipeline's names of its variables; a variable without an entry has
      no registered name. */
  datatype Pipeline = Pipeline(names: map<Variable, string>)

  /** One answer row: the concept bound to each variable name. */
  datatype ConceptRow = ConceptRow(bindings: map<string, Concept>)

  /** `get_variable_name`: the registered name, if any. */
  function VariableName(p: Pipeline, x: Variable): (r: Option<string>)
    ensures r.Some? <==> x in p.names
    ensures r.Some? ==> r.value == p.names[x]
  {
    if x in p.names then Some(p.names[x]) else None
  }

  /** `ConceptRow.get`: the bound concept, or `None` when the name is unbound
      in this row (or is itself `None`). */
  function Get(row: ConceptRow, name: Option<string>): (r: Option<Concept>)
    ensures r.Some? <==> name.Some? && name.value in row.bindings
    ensures r.Some? ==> r.value == row.bindings[name.value]
  {
    if name.Some? && name.value in row.bindings then Some(row.bindings[name.value]) else None
  }

  /** An abstract constraint endpoint (`ConstraintVertex`).  `OtherEndpoint`
      stands for any endpoint kind the engine does not recognise. */
  datatype Endpoint =
    | LabelEndpoint(labelType: Concept)
    | VariableEndpoint(variable: Variable)
    | ValueEndpoint(value: Concept)
    | NamedRoleEndpoint(roleVariable: Variable, roleName: string)
    | OtherEndpoint

  /** The abstract constraint tree: the 18 constraint kinds the engine knows,
      plus `Unsupported` for any kind a newer server may add. */
  datatype Constraint =
    | Isa(instance: Endpoint, typ: Endpoint, exactness: Exactness)
    | Has(owner: Endpoint, attribute: Endpoint, exactness: Exactness)
    | Links(relation: Endpoint, player: Endpoint, role: Endpoint, exactness: Exactness)
    | Sub(subtype: Endpoint, supertype: Endpoint, exactness: Exactness)
    | Owns(owner: Endpoint, attribute: Endpoint, exactness: Exactness)
    | Relates(relation: Endpoint, role: Endpoint, exactness: Exactness)
    | Plays(player: Endpoint, role: Endpoint, exactness: Exactness)
    | FunctionCall(name: string, arguments: seq<Endpoint>, assignments: seq<Endpoint>)
    | Expression(text: string, arguments: seq<Endpoint>, assignedTo: Endpoint)
    | Is(lhs: Endpoint, rhs: Endpoint)
    | Iid(variable: Endpoint, iid: string)
    | Comparison(lhs: Endpoint, rhs: Endpoint, comparator: Comparator)
    | KindOf(kind: KindEnum, typ: Endpoint)
    | Label(variable: Endpoint, labelValue: string)
    | Value(attributeType: Endpoint, valueType: string)
    | Or
    | Not
    | Try
    | Unsupported(variantName: string)
}
