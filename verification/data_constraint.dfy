/** Resolution of one abstract constraint against one answer row.

    `ResolveVertex` turns an abstract endpoint into an optional vertex, and
    `Of` dispatches over the constraint kinds, resolving every endpoint and
    copying the kind's metadata into a resolved record.  `Probe` and `Cast`
    are the records' `is_*` and `as_*` methods. */
module DataConstraints {
  import opened Wrappers
  import opened Vertices
  import T = TypeDB

  /** Python truthiness of an optional name: `None` and `""` are false. */
  predicate Truthy(name: Option<string>)
  {
    name.Some? && name.value != ""
  }

  /** `resolve_constraint_vertex`. */
  function ResolveVertex(p: T.Pipeline, e: T.Endpoint, row: T.ConceptRow): (r: Option<DataVertex>)
    ensures e.LabelEndpoint? ==> r == Some(ConceptVertex(Some(e.labelType)))
    ensures e.ValueEndpoint? ==> r == Some(ConceptVertex(Some(e.value)))
    ensures e.NamedRoleEndpoint? ==> r == Some(NamedRoleVertex(e.roleVariable, e.roleName))
    ensures r.None? <==> e.OtherEndpoint? || (e.VariableEndpoint? && !Truthy(T.VariableName(p, e.variable)))
    ensures e.VariableEndpoint? && r.Some? ==>
              r.value == ConceptVertex(T.Get(row, T.VariableName(p, e.variable)))
  {
    match e
    case LabelEndpoint(l) => Some(ConceptVertex(Some(l)))
    case VariableEndpoint(x) =>
      var name := T.VariableName(p, x);
      if Truthy(name) then Some(ConceptVertex(T.Get(row, name))) else None
    case ValueEndpoint(v) => Some(ConceptVertex(Some(v)))
    case NamedRoleEndpoint(x, n) => Some(NamedRoleVertex(x, n))
    case OtherEndpoint => None
  }

  /** The list comprehension that resolves a list of endpoints. */
  function ResolveAll(p: T.Pipeline, es: seq<T.Endpoint>, row: T.ConceptRow): (r: seq<Option<DataVertex>>)
    ensures |r| == |es|
    ensures forall i :: 0 <= i < |es| ==> r[i] == ResolveVertex(p, es[i], row)
  {
    seq(|es|, i requires 0 <= i < |es| => ResolveVertex(p, es[i], row))
  }

  /** The fifteen resolved record classes.  Endpoints that did not resolve are
      carried as `None`; the emission layer decides what to do with them. */
  datatype Record =
    | Isa(instance: Option<DataVertex>, typ: Option<DataVertex>, exactness: T.Exactness)
    | Has(owner: Option<DataVertex>, attribute: Option<DataVertex>, exactness: T.Exactness)
    | Links(relation: Option<DataVertex>, player: Option<DataVertex>, role: Option<DataVertex>, exactness: T.Exactness)
    | Sub(subtype: Option<DataVertex>, supertype: Option<DataVertex>, exactness: T.Exactness)
    | Owns(owner: Option<DataVertex>, attribute: Option<DataVertex>, exactness: T.Exactness)
    | Relates(relation: Option<DataVertex>, role: Option<DataVertex>, exactness: T.Exactness)
    | Plays(player: Option<DataVertex>, role: Option<DataVertex>, exactness: T.Exactness)
    | FunctionCall(callVertex: DataVertex, arguments: seq<Option<DataVertex>>, assignments: seq<Option<DataVertex>>)
    | Expression(expressionVertex: DataVertex, arguments: seq<Option<DataVertex>>, assignedTo: Option<DataVertex>)
    | Is(lhs: Option<DataVertex>, rhs: Option<DataVertex>)
    | Iid(variable: Option<DataVertex>, iid: string)
    | Comparison(lhs: Option<DataVertex>, rhs: Option<DataVertex>, comparator: T.Comparator)
    | Kind(kind: T.KindEnum, typ: Option<DataVertex>)
    | Label(variable: Option<DataVertex>, labelValue: string)
    | Value(attributeType: Option<DataVertex>, valueType: string)

  /** The common part of every record: the constraint it was resolved from
      and the branch index it occurred under. */
  datatype DataConstraint = DataConstraint(constraint: T.Constraint, answerIndex: Option<int>, record: Record)

  /** The fifteen drawable kinds. */
  datatype Tag =
    | IsaTag | HasTag | LinksTag | SubTag | OwnsTag | RelatesTag | PlaysTag
    | FunctionCallTag | ExpressionTag | IsTag | IidTag | ComparisonTag
    | KindTag | LabelTag | ValueTag

  function TagOf(r: Record): Tag
  {
    match r
    case Isa(_, _, _) => IsaTag
    case Has(_, _, _) => HasTag
    case Links(_, _, _, _) => LinksTag
    case Sub(_, _, _) => SubTag
    case Owns(_, _, _) => OwnsTag
    case Relates(_, _, _) => RelatesTag
    case Plays(_, _, _) => PlaysTag
    case FunctionCall(_, _, _) => FunctionCallTag
    case Expression(_, _, _) => ExpressionTag
    case Is(_, _) => IsTag
    case Iid(_, _) => IidTag
    case Comparison(_, _, _) => ComparisonTag
    case Kind(_, _) => KindTag
    case Label(_, _) => LabelTag
    case Value(_, _) => ValueTag
  }

  /** The drawable kind of an abstract constraint; `None` for or/not/try and
      for unsupported kinds. */
  function ConstraintTag(c: T.Constraint): Option<Tag>
  {
    match c
    case Isa(_, _, _) => Some(IsaTag)
    case Has(_, _, _) => Some(HasTag)
    case Links(_, _, _, _) => Some(LinksTag)
    case Sub(_, _, _) => Some(SubTag)
    case Owns(_, _, _) => Some(OwnsTag)
    case Relates(_, _, _) => Some(RelatesTag)
    case Plays(_, _, _) => Some(PlaysTag)
    case FunctionCall(_, _, _) => Some(FunctionCallTag)
    case Expression(_, _, _) => Some(ExpressionTag)
    case Is(_, _) => Some(IsTag)
    case Iid(_, _) => Some(IidTag)
    case Comparison(_, _, _) => Some(ComparisonTag)
    case KindOf(_, _) => Some(KindTag)
    case Label(_, _) => Some(LabelTag)
    case Value(_, _) => Some(ValueTag)
    case Or => None
    case Not => None
    case Try => None
    case Unsupported(_) => None
  }

  /** A record is consistent when it is of the same kind as the constraint it
      keeps, and a synthesized call or expression vertex is built from the
      record's own lists.  The emission layer relies on both; the kinds it
      reads the constraint of are spelled out. */
  predicate Consistent(d: DataConstraint)
  {
    && ConstraintTag(d.constraint) == Some(TagOf(d.record))
    && (d.record.Isa? ==> d.constraint.Isa?)
    && (d.record.FunctionCall? ==>
          && d.constraint.FunctionCall?
          && d.record.callVertex == FunctionCallVertex(d.constraint.name, d.record.assignments, d.record.arguments))
    && (d.record.Expression? ==>
          && d.constraint.Expression?
          && d.record.expressionVertex == ExpressionVertex(d.constraint.text, d.record.assignedTo, d.record.arguments))
  }

  /** The endpoints of an abstract constraint, in a fixed order. */
  function EndpointsOf(c: T.Constraint): seq<T.Endpoint>
  {
    match c
    case Isa(i, t, _) => [i, t]
    case Has(o, a, _) => [o, a]
    case Links(rel, pl, ro, _) => [rel, pl, ro]
    case Sub(s, sup, _) => [s, sup]
    case Owns(o, a, _) => [o, a]
    case Relates(rel, ro, _) => [rel, ro]
    case Plays(pl, ro, _) => [pl, ro]
    case FunctionCall(_, args, asg) => args + asg
    case Expression(_, args, asg) => args + [asg]
    case Is(l, r) => [l, r]
    case Iid(x, _) => [x]
    case Comparison(l, r, _) => [l, r]
    case KindOf(_, t) => [t]
    case Label(x, _) => [x]
    case Value(a, _) => [a]
    case Or => []
    case Not => []
    case Try => []
    case Unsupported(_) => []
  }

  /** The resolved endpoints of a record, in the same order as `EndpointsOf`. */
  function VerticesOf(r: Record): seq<Option<DataVertex>>
  {
    match r
    case Isa(i, t, _) => [i, t]
    case Has(o, a, _) => [o, a]
    case Links(rel, pl, ro, _) => [rel, pl, ro]
    case Sub(s, sup, _) => [s, sup]
    case Owns(o, a, _) => [o, a]
    case Relates(rel, ro, _) => [rel, ro]
    case Plays(pl, ro, _) => [pl, ro]
    case FunctionCall(_, args, asg) => args + asg
    case Expression(_, args, asg) => args + [asg]
    case Is(l, r) => [l, r]
    case Iid(x, _) => [x]
    case Comparison(l, r, _) => [l, r]
    case Kind(_, t) => [t]
    case Label(x, _) => [x]
    case Value(a, _) => [a]
  }

  /** The non-endpoint data a constraint carries: exactness, comparator, kind
      enum, iid, label, value type, function name or expression text. */
  datatype Metadata =
    | NoMetadata
    | ExactnessData(exactness: T.Exactness)
    | CallNameData(name: string)
    | ExpressionTextData(text: string)
    | IidData(iid: string)
    | ComparatorData(comparator: T.Comparator)
    | KindData(kind: T.KindEnum)
    | LabelData(labelValue: string)
    | ValueTypeData(valueType: string)

  function ConstraintMetadata(c: T.Constraint): Metadata
  {
    match c
    case Isa(_, _, x) => ExactnessData(x)
    case Has(_, _, x) => ExactnessData(x)
    case Links(_, _, _, x) => ExactnessData(x)
    case Sub(_, _, x) => ExactnessData(x)
    case Owns(_, _, x) => ExactnessData(x)
    case Relates(_, _, x) => ExactnessData(x)
    case Plays(_, _, x) => ExactnessData(x)
    case FunctionCall(n, _, _) => CallNameData(n)
    case Expression(t, _, _) => ExpressionTextData(t)
    case Is(_, _) => NoMetadata
    case Iid(_, iid) => IidData(iid)
    case Comparison(_, _, cmp) => ComparatorData(cmp)
    case KindOf(k, _) => KindData(k)
    case Label(_, l) => LabelData(l)
    case Value(_, vt) => ValueTypeData(vt)
    case Or => NoMetadata
    case Not => NoMetadata
    case Try => NoMetadata
    case Unsupported(_) => NoMetadata
  }

  function RecordMetadata(r: Record): Metadata
  {
    match r
    case Isa(_, _, x) => ExactnessData(x)
    case Has(_, _, x) => ExactnessData(x)
    case Links(_, _, _, x) => ExactnessData(x)
    case Sub(_, _, x) => ExactnessData(x)
    case Owns(_, _, x) => ExactnessData(x)
    case Relates(_, _, x) => ExactnessData(x)
    case Plays(_, _, x) => ExactnessData(x)
    case FunctionCall(v, _, _) => if v.FunctionCallVertex? then CallNameData(v.name) else NoMetadata
    case Expression(v, _, _) => if v.ExpressionVertex? then ExpressionTextData(v.text) else NoMetadata
    case Is(_, _) => NoMetadata
    case Iid(_, iid) => IidData(iid)
    case Comparison(_, _, cmp) => ComparatorData(cmp)
    case Kind(k, _) => KindData(k)
    case Label(_, l) => LabelData(l)
    case Value(_, vt) => ValueTypeData(vt)
  }

  /** The record each drawable kind resolves to, or `None` for the kinds
      that yield no record. */
  function ResolveRecord(p: T.Pipeline, c: T.Constraint, row: T.ConceptRow): (r: Option<Record>)
    ensures r.Some? <==> ConstraintTag(c).Some?
  {
    match c
    case Isa(i, t, x) => Some(Isa(ResolveVertex(p, i, row), ResolveVertex(p, t, row), x))
    case Has(o, a, x) => Some(Has(ResolveVertex(p, o, row), ResolveVertex(p, a, row), x))
    case Links(rel, pl, ro, x) =>
      Some(Links(ResolveVertex(p, rel, row), ResolveVertex(p, pl, row), ResolveVertex(p, ro, row), x))
    case Sub(s, sup, x) => Some(Sub(ResolveVertex(p, s, row), ResolveVertex(p, sup, row), x))
    case Owns(o, a, x) => Some(Owns(ResolveVertex(p, o, row), ResolveVertex(p, a, row), x))
    case Relates(rel, ro, x) => Some(Relates(ResolveVertex(p, rel, row), ResolveVertex(p, ro, row), x))
    case Plays(pl, ro, x) => Some(Plays(ResolveVertex(p, pl, row), ResolveVertex(p, ro, row), x))
    case FunctionCall(n, args, asg) =>
      var arguments := ResolveAll(p, args, row);
      var assignments := ResolveAll(p, asg, row);
      Some(FunctionCall(FunctionCallVertex(n, assignments, arguments), arguments, assignments))
    case Expression(t, args, asg) =>
      var arguments := ResolveAll(p, args, row);
      var target := ResolveVertex(p, asg, row);
      Some(Expression(ExpressionVertex(t, target, arguments), arguments, target))
    case Is(l, r) => Some(Is(ResolveVertex(p, l, row), ResolveVertex(p, r, row)))
    case Iid(x, iid) => Some(Iid(ResolveVertex(p, x, row), iid))
    case Comparison(l, r, cmp) => Some(Comparison(ResolveVertex(p, l, row), ResolveVertex(p, r, row), cmp))
    case KindOf(k, t) => Some(Kind(k, ResolveVertex(p, t, row)))
    case Label(x, l) => Some(Label(ResolveVertex(p, x, row), l))
    case Value(a, vt) => Some(Value(ResolveVertex(p, a, row), vt))
    case Or => None
    case Not => None
    case Try => None
    case Unsupported(_) => None
  }

  /** A resolved record is of its constraint's kind and carries its
      constraint's metadata. */
  lemma ResolveRecordKeepsKind(p: T.Pipeline, c: T.Constraint, row: T.ConceptRow)
    ensures ResolveRecord(p, c, row).Some? ==>
              && Some(TagOf(ResolveRecord(p, c, row).value)) == ConstraintTag(c)
              && RecordMetadata(ResolveRecord(p, c, row).value) == ConstraintMetadata(c)
  {
  }

  /** Every endpoint of a resolved record is the resolution of the matching
      endpoint of its constraint; none is dropped, added or reordered. */
  lemma ResolveRecordKeepsEndpoints(p: T.Pipeline, c: T.Constraint, row: T.ConceptRow)
    requires ConstraintTag(c).Some?
    ensures VerticesOf(ResolveRecord(p, c, row).value) == ResolveAll(p, EndpointsOf(c), row)
  {
    match c
    case FunctionCall(n, args, asg) =>
      assert ResolveAll(p, args + asg, row) == ResolveAll(p, args, row) + ResolveAll(p, asg, row);
    case Expression(t, args, asg) =>
      assert ResolveAll(p, args + [asg], row) == ResolveAll(p, args, row) + [ResolveVertex(p, asg, row)];
    case _ =>
  }

  /** A function-call record carries the very argument and assigned lists its
      call vertex was built from, each the resolution of the constraint's
      list; likewise an expression record. */
  lemma ResolveRecordSynthesizedVertices(p: T.Pipeline, c: T.Constraint, row: T.ConceptRow)
    ensures c.FunctionCall? ==>
              var r := ResolveRecord(p, c, row).value;
              && r.arguments == ResolveAll(p, c.arguments, row)
              && r.assignments == ResolveAll(p, c.assignments, row)
              && r.callVertex == FunctionCallVertex(c.name, r.assignments, r.arguments)
    ensures c.Expression? ==>
              var r := ResolveRecord(p, c, row).value;
              && r.arguments == ResolveAll(p, c.arguments, row)
              && r.assignedTo == ResolveVertex(p, c.assignedTo, row)
              && r.expressionVertex == ExpressionVertex(c.text, r.assignedTo, r.arguments)
  {
  }

  /** The `TypeError` raised for a constraint kind outside the known set. */
  datatype UnsupportedVariant = UnsupportedVariant(variantName: string)

  /** `DataConstraint.of`: a record for each of the fifteen drawable kinds,
      `None` for or/not/try, and an error for anything else. */
  function Of(p: T.Pipeline, c: T.Constraint, answerIndex: Option<int>, row: T.ConceptRow)
    : (r: Result<Option<DataConstraint>, UnsupportedVariant>)
    ensures (c.Or? || c.Not? || c.Try?) <==> r == Success(None)
    ensures r.Failure? <==> c.Unsupported?
    ensures r.Failure? ==> r.error.variantName == c.variantName
    ensures r.Success? && r.value.Some? <==> ConstraintTag(c).Some?
    ensures r.Success? && r.value.Some? ==>
              && r.value.value.constraint == c
              && r.value.value.answerIndex == answerIndex
              && Consistent(r.value.value)
              && RecordMetadata(r.value.value.record) == ConstraintMetadata(c)
  {
    if c.Unsupported? then Failure(UnsupportedVariant(c.variantName))
    else
      ResolveRecordKeepsKind(p, c, row);
      ResolveRecordSynthesizedVertices(p, c, row);
      match ResolveRecord(p, c, row)
      case None => Success(None)
      case Some(rec) => Success(Some(DataConstraint(c, answerIndex, rec)))
  }

  /** A constraint of a drawable kind always yields a record, and that record
      holds the resolution of each of the constraint's endpoints in order. */
  lemma OfKeepsEndpoints(p: T.Pipeline, c: T.Constraint, answerIndex: Option<int>, row: T.ConceptRow)
    requires ConstraintTag(c).Some?
    ensures Of(p, c, answerIndex, row).Success?
    ensures Of(p, c, answerIndex, row).value.Some?
    ensures VerticesOf(Of(p, c, answerIndex, row).value.value.record) == ResolveAll(p, EndpointsOf(c), row)
  {
    ResolveRecordKeepsEndpoints(p, c, row);
  }

  /** A variable with a registered name that is unbound in the row is not
      absent: it resolves to a concept vertex wrapping `None`. */
  lemma UnboundVariableResolvesToEmptyConcept(p: T.Pipeline, x: T.Variable, row: T.ConceptRow)
    requires x in p.names && p.names[x] != ""
    requires p.names[x] !in row.bindings
    ensures ResolveVertex(p, T.VariableEndpoint(x), row) == Some(ConceptVertex(None))
  {
  }

  /** The `is_*` methods: each record class answers `True` to its own. */
  predicate Probe(d: DataConstraint, t: Tag): (r: bool)
    ensures r <==> t == TagOf(d.record)
  {
    match d.record
    case Isa(_, _, _) => t.IsaTag?
    case Has(_, _, _) => t.HasTag?
    case Links(_, _, _, _) => t.LinksTag?
    case Sub(_, _, _) => t.SubTag?
    case Owns(_, _, _) => t.OwnsTag?
    case Relates(_, _, _) => t.RelatesTag?
    case Plays(_, _, _) => t.PlaysTag?
    case FunctionCall(_, _, _) => t.FunctionCallTag?
    case Expression(_, _, _) => t.ExpressionTag?
    case Is(_, _) => t.IsTag?
    case Iid(_, _) => t.IidTag?
    case Comparison(_, _, _) => t.ComparisonTag?
    case Kind(_, _) => t.KindTag?
    case Label(_, _) => t.LabelTag?
    case Value(_, _) => t.ValueTag?
  }

  /** Every record answers `True` to exactly one probe, the one of its kind. */
  lemma ProbeExactlyOne(d: DataConstraint, t: Tag)
    ensures Probe(d, TagOf(d.record))
    ensures Probe(d, t) ==> t == TagOf(d.record)
  {
  }

  /** The `TypeError` of a failed `as_*` cast. */
  datatype BadCast = BadCast(expected: Tag, was: Tag)

  /** The `as_*` methods: the matching cast returns the record itself, every
      other cast raises. */
  function Cast(d: DataConstraint, t: Tag): (r: Result<DataConstraint, BadCast>)
    ensures r.Success? <==> Probe(d, t)
    ensures r.Success? ==> r.value == d
    ensures r.Failure? ==> r.error == BadCast(t, TagOf(d.record))
  {
    if TagOf(d.record) == t then Success(d) else Failure(BadCast(t, TagOf(d.record)))
  }
}
