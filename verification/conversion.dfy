/** A whole conversion: a fresh builder starts from an empty graph, every
    resolved record of the answers is handed to the visitor in turn, and
    `finish` returns the graph.  Which records arrive, and in which order, is
    decided by the caller that walks the answers; here they arrive as a list. */
module Conversion {
  import opened Wrappers
  import opened Vertices
  import opened Graphs
  import opened DataConstraints
  import opened NetworkXBuilder
  import T = TypeDB

  predicate AllConsistent(ds: seq<DataConstraint>)
  {
    forall i :: 0 <= i < |ds| ==> Consistent(ds[i])
  }

  /** The key pairs of the edges a list of records asks for, together. */
  function RequestedAll(ds: seq<DataConstraint>): set<(VertexKey, VertexKey)>
    requires AllConsistent(ds)
    decreases |ds|
  {
    if ds == [] then {} else RequestedEdges(ds[0]) + RequestedAll(ds[1..])
  }

  /** The records emitted in order; the first emission that raises aborts
      the rest. */
  function AddAll(p: T.Pipeline, labelOf: T.Concept -> string, g: Graph, ds: seq<DataConstraint>)
    : (r: Result<Graph, EmitError>)
    requires AllConsistent(ds)
    ensures r.Failure? <==> exists i :: 0 <= i < |ds| && Raises(ds[i])
    ensures r.Success? ==> r.value.edges.Keys == g.edges.Keys + RequestedAll(ds)
    ensures r.Success? ==> Extends(g, r.value)
    ensures r.Success? && Valid(g) ==> Valid(r.value)
    ensures r.Success? && Valid(g) ==> NodesFollowEdges(g, r.value)
    decreases |ds|
  {
    if ds == [] then
      NodesFollowEdgesRefl(g);
      Success(g)
    else
      var g1 :- Add(p, labelOf, g, ds[0]);
      var r := AddAll(p, labelOf, g1, ds[1..]);
      RaisesSplit(ds);
      if r.Failure? then r
      else
        AddAllStep(g, g1, r.value, ds);
        r
  }

  /** The induction step of `AddAll`: the first record grows `g` to `g1`,
      the rest grow `g1` to `r`. */
  lemma AddAllStep(g: Graph, g1: Graph, r: Graph, ds: seq<DataConstraint>)
    requires ds != [] && AllConsistent(ds)
    requires g1.edges.Keys == g.edges.Keys + RequestedEdges(ds[0])
    requires Extends(g, g1) && (Valid(g) ==> Valid(g1) && NodesFollowEdges(g, g1))
    requires r.edges.Keys == g1.edges.Keys + RequestedAll(ds[1..])
    requires Extends(g1, r) && (Valid(g1) ==> Valid(r) && NodesFollowEdges(g1, r))
    ensures r.edges.Keys == g.edges.Keys + RequestedAll(ds)
    ensures Extends(g, r)
    ensures Valid(g) ==> Valid(r) && NodesFollowEdges(g, r)
  {
    ExtendsTransitive(g, g1, r);
    if Valid(g) {
      NodesFollowEdgesTransitive(g, g1, r);
    }
  }

  /** Some record of a non-empty list raises exactly when its first one does
      or some later one does. */
  lemma RaisesSplit(ds: seq<DataConstraint>)
    requires ds != [] && AllConsistent(ds)
    ensures (exists i :: 0 <= i < |ds| && Raises(ds[i]))
        <==> Raises(ds[0]) || exists i :: 0 <= i < |ds[1..]| && Raises(ds[1..][i])
  {
    if exists i :: 0 <= i < |ds| && Raises(ds[i]) {
      var i :| 0 <= i < |ds| && Raises(ds[i]);
      if i > 0 {
        assert ds[1..][i - 1] == ds[i];
      }
    }
  }

  /** `NetworkXBuilder(pipeline)`, the visits, then `finish()`. */
  function Convert(p: T.Pipeline, labelOf: T.Concept -> string, ds: seq<DataConstraint>): (r: Result<Graph, EmitError>)
    requires AllConsistent(ds)
    ensures r.Success? ==> Valid(r.value)
    ensures r.Failure? <==> exists i :: 0 <= i < |ds| && Raises(ds[i])
    ensures r.Success? ==> r.value.edges.Keys == RequestedAll(ds)
    ensures r.Success? ==> r.value.nodes.Keys == EndpointKeys(r.value.edges.Keys)
    ensures ds == [] ==> r == Success(EmptyGraph())
  {
    var r := AddAll(p, labelOf, EmptyGraph(), ds);
    if r.Success? then
      assert r.value.edges.Keys - EmptyGraph().edges.Keys == r.value.edges.Keys;
      r
    else r
  }

  /** A conversion aborts exactly when some record's emission raises; since
      raising does not depend on the graph, neither the order of the records
      nor what was drawn before matters. */
  lemma {:induction false} AddAllFailsIffSomeRecordRaises(p: T.Pipeline, labelOf: T.Concept -> string, g: Graph,
                                                          ds: seq<DataConstraint>)
    requires AllConsistent(ds)
    ensures AddAll(p, labelOf, g, ds).Failure?
        <==> exists i :: 0 <= i < |ds| && Add(p, labelOf, EmptyGraph(), ds[i]).Failure?
    decreases |ds|
  {
    if ds != [] {
      AddFailureIgnoresGraph(p, labelOf, g, EmptyGraph(), ds[0]);
      if Add(p, labelOf, g, ds[0]).Success? {
        var g1 := Add(p, labelOf, g, ds[0]).value;
        AddAllFailsIffSomeRecordRaises(p, labelOf, g1, ds[1..]);
        if exists i :: 0 <= i < |ds| && Add(p, labelOf, EmptyGraph(), ds[i]).Failure? {
          var i :| 0 <= i < |ds| && Add(p, labelOf, EmptyGraph(), ds[i]).Failure?;
          assert ds[i] == ds[1..][i - 1];
        }
      }
    }
  }

  /** After a successful run every record is already drawn in the result:
      emitting any of them again changes nothing. */
  lemma {:induction false} AddAllDrawsEveryRecord(p: T.Pipeline, labelOf: T.Concept -> string, g: Graph,
                                                  ds: seq<DataConstraint>, i: int)
    requires AllConsistent(ds)
    requires AddAll(p, labelOf, g, ds).Success?
    requires 0 <= i < |ds|
    ensures Add(p, labelOf, AddAll(p, labelOf, g, ds).value, ds[i]) == AddAll(p, labelOf, g, ds)
    decreases |ds|
  {
    var g1 := Add(p, labelOf, g, ds[0]).value;
    if i == 0 {
      AddNoOpAfter(p, labelOf, g, AddAll(p, labelOf, g, ds).value, ds[0]);
    } else {
      assert ds[i] == ds[1..][i - 1];
      AddAllDrawsEveryRecord(p, labelOf, g1, ds[1..], i - 1);
    }
  }

  /** Records that are all drawn in `h` already add nothing to it. */
  lemma {:induction false} AddAllNoOp(p: T.Pipeline, labelOf: T.Concept -> string, h: Graph, ds: seq<DataConstraint>)
    requires AllConsistent(ds)
    requires forall i :: 0 <= i < |ds| ==> Add(p, labelOf, h, ds[i]) == Success(h)
    ensures AddAll(p, labelOf, h, ds) == Success(h)
    decreases |ds|
  {
    if ds != [] {
      assert Add(p, labelOf, h, ds[0]) == Success(h);
      forall i | 0 <= i < |ds[1..]| ensures Add(p, labelOf, h, ds[1..][i]) == Success(h) {
        assert ds[1..][i] == ds[i + 1];
      }
      AddAllNoOp(p, labelOf, h, ds[1..]);
    }
  }

  /** Emitting two lists is emitting the first, then the second into its
      result. */
  lemma {:induction false} AddAllAppend(p: T.Pipeline, labelOf: T.Concept -> string, g: Graph,
                                        ds: seq<DataConstraint>, es: seq<DataConstraint>)
    requires AllConsistent(ds) && AllConsistent(es)
    ensures AllConsistent(ds + es)
    ensures AddAll(p, labelOf, g, ds + es)
         == (if AddAll(p, labelOf, g, ds).Failure? then AddAll(p, labelOf, g, ds)
             else AddAll(p, labelOf, AddAll(p, labelOf, g, ds).value, es))
    decreases |ds|
  {
    assert forall i :: 0 <= i < |ds + es| ==> (ds + es)[i] == if i < |ds| then ds[i] else es[i - |ds|];
    if ds == [] {
      assert ds + es == es;
    } else {
      assert (ds + es)[0] == ds[0];
      assert (ds + es)[1..] == ds[1..] + es;
      if Add(p, labelOf, g, ds[0]).Success? {
        AddAllAppend(p, labelOf, Add(p, labelOf, g, ds[0]).value, ds[1..], es);
      }
    }
  }

  /** Handing the visitor the same records twice draws the same graph as
      handing them once, and raises the same error. */
  lemma ConvertTwice(p: T.Pipeline, labelOf: T.Concept -> string, ds: seq<DataConstraint>)
    requires AllConsistent(ds)
    ensures AllConsistent(ds + ds)
    ensures Convert(p, labelOf, ds + ds) == Convert(p, labelOf, ds)
  {
    AddAllAppend(p, labelOf, EmptyGraph(), ds, ds);
    if Convert(p, labelOf, ds).Success? {
      var h := Convert(p, labelOf, ds).value;
      forall i | 0 <= i < |ds| ensures Add(p, labelOf, h, ds[i]) == Success(h) {
        AddAllDrawsEveryRecord(p, labelOf, EmptyGraph(), ds, i);
      }
      AddAllNoOp(p, labelOf, h, ds);
    }
  }
}
