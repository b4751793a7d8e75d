/** Graph vertices and their identity.

    The source gives every vertex class value-based `__eq__`/`__hash__`.  Here
    a vertex keeps all of its fields (a role vertex keeps its display name),
    `Eq` is the source's equality, and `Key` is the vertex's identity as a
    dictionary key: the fields its `__hash__` is taken over, tagged with its
    class.  The hash itself leaves the class out (a concept vertex hashes its
    concept, a role vertex its variable), so vertices of different classes may
    share a hash; `__eq__`'s class check tells them apart, and the tag stands
    for that check.  `EqIffSameKey` proves `Eq` and `Key` agree: equal
    vertices hash alike, and vertices with the same key are equal. */
module Vertices {
  import opened Wrappers
  import opened TypeDB

  /** The four vertex classes.  Lists of resolved endpoints may hold `None`,
      so their elements are optional. */
  datatype DataVertex =
    | ConceptVertex(concept: Option<Concept>)
    | NamedRoleVertex(variable: Variable, name: string)
    | FunctionCallVertex(name: string, assignments: seq<Option<DataVertex>>, arguments: seq<Option<DataVertex>>)
    | ExpressionVertex(text: string, assignedTo: Option<DataVertex>, arguments: seq<Option<DataVertex>>)

  /** A vertex's identity as a dictionary key: the fields its hash is
      computed from (role names left out), under a constructor per class. */
  datatype VertexKey =
    | ConceptKey(concept: Option<Concept>)
    | RoleKey(variable: Variable)
    | CallKey(name: string, assignments: seq<Option<VertexKey>>, arguments: seq<Option<VertexKey>>)
    | ExpressionKey(text: string, assignedTo: Option<VertexKey>, arguments: seq<Option<VertexKey>>)

  function Key(v: DataVertex): (k: VertexKey)
    ensures KeyClass(k) == ClassOf(v)
    decreases v
  {
    match v
    case ConceptVertex(c) => ConceptKey(c)
    case NamedRoleVertex(x, _) => RoleKey(x)
    case FunctionCallVertex(n, asg, args) =>
      CallKey(n, seq(|asg|, i requires 0 <= i < |asg| => OptKey(asg[i])),
                 seq(|args|, i requires 0 <= i < |args| => OptKey(args[i])))
    case ExpressionVertex(t, asg, args) =>
      ExpressionKey(t, OptKey(asg), seq(|args|, i requires 0 <= i < |args| => OptKey(args[i])))
  }

  function OptKey(o: Option<DataVertex>): Option<VertexKey>
    decreases o
  {
    match o
    case None => None
    case Some(v) => Some(Key(v))
  }

  /** The keys of a tuple of optional vertices, element by element. */
  function Keys(vs: seq<Option<DataVertex>>): (r: seq<Option<VertexKey>>)
    ensures |r| == |vs|
    ensures forall i :: 0 <= i < |vs| ==> r[i] == OptKey(vs[i])
  {
    seq(|vs|, i requires 0 <= i < |vs| => OptKey(vs[i]))
  }

  /** The source's `__eq__`: the other operand must be of the same class, and
      then the defining fields are compared.  Tuples compare by length and
      element by element; `None` equals only `None`. */
  predicate Eq(a: DataVertex, b: DataVertex): (r: bool)
    ensures r ==> ClassOf(a) == ClassOf(b)
    decreases a
  {
    match a
    case ConceptVertex(c) =>
      b.ConceptVertex? && c == b.concept
    case NamedRoleVertex(x, _) =>
      b.NamedRoleVertex? && x == b.variable
    case FunctionCallVertex(n, asg, args) =>
      && b.FunctionCallVertex?
      && n == b.name
      && |asg| == |b.assignments|
      && (forall i :: 0 <= i < |asg| ==> OptEq(asg[i], b.assignments[i]))
      && |args| == |b.arguments|
      && (forall i :: 0 <= i < |args| ==> OptEq(args[i], b.arguments[i]))
    case ExpressionVertex(t, asg, args) =>
      && b.ExpressionVertex?
      && t == b.text
      && OptEq(asg, b.assignedTo)
      && |args| == |b.arguments|
      && (forall i :: 0 <= i < |args| ==> OptEq(args[i], b.arguments[i]))
  }

  /** Equality of tuple elements, which may be `None`. */
  predicate OptEq(a: Option<DataVertex>, b: Option<DataVertex>)
    decreases a
  {
    match a
    case None => b.None?
    case Some(v) => b.Some? && Eq(v, b.value)
  }

  /** The class of a vertex. */
  datatype VertexClass = ConceptClass | NamedRoleClass | FunctionCallClass | ExpressionClass

  function ClassOf(v: DataVertex): VertexClass
  {
    match v
    case ConceptVertex(_) => ConceptClass
    case NamedRoleVertex(_, _) => NamedRoleClass
    case FunctionCallVertex(_, _, _) => FunctionCallClass
    case ExpressionVertex(_, _, _) => ExpressionClass
  }

  /** The class a key was taken from. */
  function KeyClass(k: VertexKey): VertexClass
  {
    match k
    case ConceptKey(_) => ConceptClass
    case RoleKey(_) => NamedRoleClass
    case CallKey(_, _, _) => FunctionCallClass
    case ExpressionKey(_, _, _) => ExpressionClass
  }

  /** Equality and the key agree on every pair of vertices. */
  lemma {:induction false} EqIffSameKey(a: DataVertex, b: DataVertex)
    ensures Eq(a, b) <==> Key(a) == Key(b)
    decreases a
  {
    match a
    case ConceptVertex(_) =>
    case NamedRoleVertex(_, _) =>
    case FunctionCallVertex(n, asg, args) =>
      if b.FunctionCallVertex? {
        TupleEqIffSameKeys(a, asg, b.assignments);
        TupleEqIffSameKeys(a, args, b.arguments);
      }
    case ExpressionVertex(t, asg, args) =>
      if b.ExpressionVertex? {
        OptEqIffSameKey(asg, b.assignedTo);
        TupleEqIffSameKeys(a, args, b.arguments);
      }
  }

  lemma {:induction false} OptEqIffSameKey(a: Option<DataVertex>, b: Option<DataVertex>)
    ensures OptEq(a, b) <==> OptKey(a) == OptKey(b)
    decreases a
  {
    if a.Some? && b.Some? {
      EqIffSameKey(a.value, b.value);
    }
  }

  /** Tuples `s` and `t`, where `s` is a field of `owner`, are element-wise
      equal exactly when their key tuples are equal. */
  lemma {:induction false} TupleEqIffSameKeys(owner: DataVertex, s: seq<Option<DataVertex>>, t: seq<Option<DataVertex>>)
    requires forall i :: 0 <= i < |s| ==> s[i] < owner
    ensures (|s| == |t| && forall i :: 0 <= i < |s| ==> OptEq(s[i], t[i])) <==> Keys(s) == Keys(t)
    decreases owner, 0
  {
    if |s| == |t| {
      forall i | 0 <= i < |s|
        ensures OptEq(s[i], t[i]) <==> OptKey(s[i]) == OptKey(t[i])
      {
        OptEqIffSameKey(s[i], t[i]);
      }
      if Keys(s) == Keys(t) {
        forall i | 0 <= i < |s|
          ensures OptKey(s[i]) == OptKey(t[i])
        {
          assert Keys(s)[i] == Keys(t)[i];
        }
      }
    } else {
      assert |Keys(s)| != |Keys(t)|;
    }
  }

  /** `Eq` is an equivalence, so the `other is self` shortcut of the source's
      `__eq__` agrees with the field comparison. */
  lemma EqIsEquivalence(a: DataVertex, b: DataVertex, c: DataVertex)
    ensures Eq(a, a)
    ensures Eq(a, b) ==> Eq(b, a)
    ensures Eq(a, b) && Eq(b, c) ==> Eq(a, c)
  {
    EqIffSameKey(a, a);
    EqIffSameKey(a, b);
    EqIffSameKey(b, a);
    EqIffSameKey(b, c);
    EqIffSameKey(a, c);
  }

  /** Two concept vertices are equal iff their concepts are, and equal ones
      share a key. */
  lemma ConceptVertexIdentity(c1: Option<Concept>, c2: Option<Concept>)
    ensures Eq(ConceptVertex(c1), ConceptVertex(c2)) <==> c1 == c2
    ensures Eq(ConceptVertex(c1), ConceptVertex(c2)) <==> Key(ConceptVertex(c1)) == Key(ConceptVertex(c2))
  {
  }

  /** A role vertex is identified by its variable alone: the display name
      takes no part in equality or in the key. */
  lemma NamedRoleIdentity(x1: Variable, n1: string, x2: Variable, n2: string)
    ensures Eq(NamedRoleVertex(x1, n1), NamedRoleVertex(x2, n2)) <==> x1 == x2
    ensures x1 == x2 ==> Key(NamedRoleVertex(x1, n1)) == Key(NamedRoleVertex(x2, n2))
  {
  }

  /** A function-call vertex is identified by the ordered triple of its name,
      assigned tuple and argument tuple. */
  lemma FunctionCallIdentity(n1: string, asg1: seq<Option<DataVertex>>, args1: seq<Option<DataVertex>>,
                             n2: string, asg2: seq<Option<DataVertex>>, args2: seq<Option<DataVertex>>)
    ensures Eq(FunctionCallVertex(n1, asg1, args1), FunctionCallVertex(n2, asg2, args2))
        <==> n1 == n2 && Keys(asg1) == Keys(asg2) && Keys(args1) == Keys(args2)
  {
    var a, b := FunctionCallVertex(n1, asg1, args1), FunctionCallVertex(n2, asg2, args2);
    EqIffSameKey(a, b);
    assert Key(a).assignments == Keys(asg1) && Key(a).arguments == Keys(args1);
    assert Key(b).assignments == Keys(asg2) && Key(b).arguments == Keys(args2);
  }

  /** Argument order is part of a call's identity: swapping two unequal
      arguments gives a different vertex. */
  lemma ArgumentOrderMatters(n: string, asg: seq<Option<DataVertex>>, x: Option<DataVertex>, y: Option<DataVertex>)
    requires !OptEq(x, y)
    ensures !Eq(FunctionCallVertex(n, asg, [x, y]), FunctionCallVertex(n, asg, [y, x]))
  {
    assert [x, y][0] == x && [y, x][0] == y;
  }

  /** An expression vertex is identified by its text, assigned vertex and
      argument tuple. */
  lemma ExpressionIdentity(t1: string, asg1: Option<DataVertex>, args1: seq<Option<DataVertex>>,
                           t2: string, asg2: Option<DataVertex>, args2: seq<Option<DataVertex>>)
    ensures Eq(ExpressionVertex(t1, asg1, args1), ExpressionVertex(t2, asg2, args2))
        <==> t1 == t2 && OptKey(asg1) == OptKey(asg2) && Keys(args1) == Keys(args2)
  {
    var a, b := ExpressionVertex(t1, asg1, args1), ExpressionVertex(t2, asg2, args2);
    EqIffSameKey(a, b);
    assert Key(a).arguments == Keys(args1);
    assert Key(b).arguments == Keys(args2);
  }

  /** Vertices of different classes are never equal and never share a key. */
  lemma DifferentClassesNeverEqual(a: DataVertex, b: DataVertex)
    requires ClassOf(a) != ClassOf(b)
    ensures !Eq(a, b)
    ensures Key(a) != Key(b)
  {
  }

  /** A synthesized vertex never equals one of its own components, so an
      argument or assignment edge is never a self-loop. */
  lemma ComponentKeyDiffers(hub: DataVertex, v: DataVertex)
    requires
      || (hub.FunctionCallVertex? && (Some(v) in hub.arguments || Some(v) in hub.assignments))
      || (hub.ExpressionVertex? && (Some(v) in hub.arguments || hub.assignedTo == Some(v)))
    ensures Key(v) != Key(hub)
  {
    var k := Key(hub);
    if Some(v) in hub.arguments {
      var i :| 0 <= i < |hub.arguments| && hub.arguments[i] == Some(v);
      assert k.arguments[i] == OptKey(hub.arguments[i]);
      assert Key(v) < k;
    } else if hub.FunctionCallVertex? {
      var i :| 0 <= i < |hub.assignments| && hub.assignments[i] == Some(v);
      assert k.assignments[i] == OptKey(hub.assignments[i]);
      assert Key(v) < k;
    } else {
      assert k.assignedTo == OptKey(hub.assignedTo);
      assert Key(v) < k;
    }
  }
}
