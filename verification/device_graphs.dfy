/** Graphs derived from a QPU's device capabilities: the qubit connectivity
    graph (with IQM's missing back edges added) and the gate-connectivity
    graph that labels each directed qubit pair with the set of two-qubit
    gates it supports (Rigetti and IQM from per-edge calibration data,
    IonQ uniformly from the native gate set). */
module DeviceGraphs {
  import opened Wrappers
  import opened Text
  import opened Translation

  type Edge = (nat, nat)

  /** A directed graph: a node set and an edge set. */
  datatype Digraph = Digraph(nodes: set<nat>, edges: set<Edge>)

  /** A directed graph whose edges carry a `supported_gates` set. */
  datatype GateGraph = GateGraph(nodes: set<nat>, gates: map<Edge, set<string>>)

  function Rev(e: Edge): Edge {
    (e.1, e.0)
  }

  function Reversed(edges: set<Edge>): (r: set<Edge>)
    ensures forall u: nat, v: nat :: (u, v) in r <==> (v, u) in edges
  {
    set e | e in edges :: Rev(e)
  }

  /** Every edge's reverse is also an edge. */
  ghost predicate Symmetric(edges: set<Edge>) {
    forall u: nat, v: nat :: (u, v) in edges ==> (v, u) in edges
  }

  /** Adding the reverse of every edge, as the IQM connectivity validator and
      an undirected `ConnectivityCriterion` do. */
  function Symmetrize(edges: set<Edge>): (r: set<Edge>)
    ensures edges <= r
    ensures Symmetric(r)
    ensures forall u: nat, v: nat :: (u, v) in r <==> (u, v) in edges || (v, u) in edges
  {
    edges + Reversed(edges)
  }

  /** The symmetric closure is the least symmetric superset. */
  lemma SymmetrizeLeast(edges: set<Edge>, s: set<Edge>)
    requires edges <= s && Symmetric(s)
    ensures Symmetrize(edges) <= s
  {
  }

  lemma SymmetrizeIdempotent(edges: set<Edge>)
    ensures Symmetrize(Symmetrize(edges)) == Symmetrize(edges)
  {
  }

  // ---------------------------------------------------------------------
  // Connectivity graph handed to the connectivity validator
  // ---------------------------------------------------------------------

  /** The connectivity validator's graph: the device graph as given for every
      family except IQM, whose graph lacks back edges; for IQM a copy with the
      reverse of every edge added (the node set is unchanged because a
      reversed edge joins the same two nodes). */
  function ConnectivityGraph(family: DeviceFamily, g: Digraph): (r: Digraph)
    ensures family != Iqm ==> r == g
    ensures family == Iqm ==> r.nodes == g.nodes && g.edges <= r.edges && Symmetric(r.edges)
    ensures family == Iqm ==> forall u: nat, v: nat :: (u, v) in r.edges ==> (u, v) in g.edges || (v, u) in g.edges
  {
    if family == Iqm then Digraph(g.nodes, Symmetrize(g.edges)) else g
  }

  // ---------------------------------------------------------------------
  // Gate connectivity (Rigetti / IQM): calibration data, then back edges
  // ---------------------------------------------------------------------

  /** What the device reports: its family, the two-qubit calibration entries
      (edge key "u-v" to the gate names measured on that pair), and the
      native gate set. */
  datatype Capabilities = Capabilities(
    family: DeviceFamily,
    twoQubitProperties: map<string, seq<string>>,
    nativeGateSet: seq<string>)

  /** First loop: each edge of the device graph is labelled with the
      translated gate names of its calibration entry, or the empty set when
      the device reported no entry for that key. */
  function CalibratedGates(caps: Capabilities, edges: set<Edge>): (m: map<Edge, set<string>>)
    ensures m.Keys == edges
    ensures forall u: nat, v: nat :: (u, v) in edges && EdgeKey(u, v) !in caps.twoQubitProperties ==> m[(u, v)] == {}
    ensures forall u: nat, v: nat :: (u, v) in edges && EdgeKey(u, v) in caps.twoQubitProperties ==>
      m[(u, v)] == TranslatedSet(caps.family, caps.twoQubitProperties[EdgeKey(u, v)])
  {
    map e | e in edges ::
      var key := EdgeKey(e.0, e.1);
      if key in caps.twoQubitProperties then TranslatedSet(caps.family, caps.twoQubitProperties[key]) else {}
  }

  /** One iteration of the back-edge loop on edge e = (u, v): when (v, u) is
      missing or carries no gates, (v, u) receives a copy of e's gates. */
  function BackEdgeStep(m: map<Edge, set<string>>, e: Edge): (r: map<Edge, set<string>>)
    requires e in m
  {
    if Rev(e) !in m || m[Rev(e)] == {} then m[Rev(e) := m[e]] else m
  }

  /** The labelling after the loop has visited the original edges in `done`
      (any order gives this same map). */
  function AfterVisiting(g: map<Edge, set<string>>, done: set<Edge>): map<Edge, set<string>>
    requires done <= g.Keys
  {
    map k | k in g.Keys + Reversed(done) ::
      if k in g && g[k] != {} then g[k]
      else if Rev(k) in done then g[Rev(k)]
      else {}
  }

  /** The labelling after the back-edge loop. */
  function BackEdgeClosure(g: map<Edge, set<string>>): (r: map<Edge, set<string>>)
    ensures r.Keys == Symmetrize(g.Keys)
    ensures forall u: nat, v: nat :: (u, v) in r ==> (v, u) in r
    ensures forall u: nat, v: nat :: (u, v) in g && g[(u, v)] != {} ==> r[(u, v)] == g[(u, v)]
    ensures forall u: nat, v: nat :: (u, v) in g && ((v, u) !in g || g[(v, u)] == {}) ==> r[(v, u)] == g[(u, v)]
    ensures forall u: nat, v: nat :: (u, v) in g && g[(u, v)] == {} && (v, u) !in g ==> r[(u, v)] == {}
  {
    AfterVisiting(g, g.Keys)
  }

  lemma AfterVisitingNothing(g: map<Edge, set<string>>)
    ensures AfterVisiting(g, {}) == g
  {
    var a := AfterVisiting(g, {});
    assert a.Keys == g.Keys;
    forall k | k in g
      ensures a[k] == g[k]
    {
    }
  }

  /** Visiting one more original edge moves from one intermediate labelling
      to the next, whichever edges were visited before. */
  lemma {:induction false} VisitOneMore(g: map<Edge, set<string>>, done: set<Edge>, e: Edge)
    requires done <= g.Keys && e in g && e !in done
    ensures e in AfterVisiting(g, done)
    ensures BackEdgeStep(AfterVisiting(g, done), e) == AfterVisiting(g, done + {e})
  {
    var before := AfterVisiting(g, done);
    var after := AfterVisiting(g, done + {e});
    var stepped := BackEdgeStep(before, e);
    assert e in before;
    assert stepped.Keys == after.Keys by {
      assert Reversed(done + {e}) == Reversed(done) + {Rev(e)};
    }
    forall k | k in after
      ensures stepped[k] == after[k]
    {
      if k != Rev(e) {
        assert Rev(k) != e;
      }
    }
  }

  /** The back-edge loop: visits every original edge once, in an order the
      caller does not control, and applies `BackEdgeStep`.  Whatever the
      order, the result is the closure. */
  method AddBackEdges(g: map<Edge, set<string>>) returns (r: map<Edge, set<string>>)
    ensures r == BackEdgeClosure(g)
  {
    var remaining := g.Keys;
    var done: set<Edge> := {};
    r := g;
    AfterVisitingNothing(g);
    while remaining != {}
      invariant done <= g.Keys
      invariant remaining == g.Keys - done
      invariant r == AfterVisiting(g, done)
      decreases remaining
    {
      var e :| e in remaining;
      VisitOneMore(g, done, e);
      r := BackEdgeStep(r, e);
      done := done + {e};
      remaining := remaining - {e};
    }
    assert done == g.Keys;
  }

  /** The loop also visits the edges it adds (networkx iterates over the live
      edge view); such a visit, or any further one, changes nothing. */
  lemma BackEdgeClosureIsStable(g: map<Edge, set<string>>, e: Edge)
    requires e in BackEdgeClosure(g)
    ensures BackEdgeStep(BackEdgeClosure(g), e) == BackEdgeClosure(g)
  {
    var c := BackEdgeClosure(g);
    assert Rev(e) in c;
    assert Rev(Rev(e)) == e;
    assert c[e] != {} ==> c[Rev(e)] != {};
    if c[Rev(e)] == {} {
      assert c[Rev(e) := c[e]] == c;
    }
  }

  // ---------------------------------------------------------------------
  // The gate-connectivity graph per family
  // ---------------------------------------------------------------------

  datatype GraphError = NotImplemented(family: DeviceFamily)

  /** The gate-connectivity graph the factory builds from the device graph:
      Rigetti and IQM label edges from calibration data and then add back
      edges; IonQ gives every existing edge the translated native gate set;
      any other family is not implemented. */
  function GateConnectivityGraph(caps: Capabilities, g: Digraph): (r: Result<GateGraph, GraphError>)
    ensures caps.family !in {Rigetti, Iqm, IonQ} <==> r.Failure?
    ensures r.Success? ==> r.value.nodes == g.nodes
    ensures caps.family in {Rigetti, Iqm} ==>
      r.Success? && r.value.gates == BackEdgeClosure(CalibratedGates(caps, g.edges))
    ensures caps.family == IonQ ==> (r.Success? && r.value.gates.Keys == g.edges &&
      forall u: nat, v: nat :: (u, v) in g.edges ==> r.value.gates[(u, v)] == TranslatedSet(IonQ, caps.nativeGateSet))
  {
    match caps.family
    case Rigetti => Success(GateGraph(g.nodes, BackEdgeClosure(CalibratedGates(caps, g.edges))))
    case Iqm => Success(GateGraph(g.nodes, BackEdgeClosure(CalibratedGates(caps, g.edges))))
    case IonQ =>
      var native := TranslatedSet(IonQ, caps.nativeGateSet);
      Success(GateGraph(g.nodes, map e | e in g.edges :: native))
    case _ => Failure(NotImplemented(caps.family))
  }

  /** For Rigetti and IQM, an edge with no calibration entry is kept, with no
      supported gates unless its reverse was calibrated; it is never an error. */
  lemma UncalibratedEdgeKept(caps: Capabilities, g: Digraph, e: Edge)
    requires caps.family in {Rigetti, Iqm}
    requires e in g.edges && EdgeKey(e.0, e.1) !in caps.twoQubitProperties
    ensures GateConnectivityGraph(caps, g).Success?
    ensures e in GateConnectivityGraph(caps, g).value.gates
    ensures Rev(e) !in g.edges ==> GateConnectivityGraph(caps, g).value.gates[e] == {}
  {
  }

  /** For Rigetti and IQM, every directed pair of the result has its reverse,
      and a calibrated edge keeps exactly its translated gate names. */
  lemma CalibratedEdgeGates(caps: Capabilities, g: Digraph, e: Edge, name: string)
    requires caps.family in {Rigetti, Iqm}
    requires e in g.edges && EdgeKey(e.0, e.1) in caps.twoQubitProperties
    requires name in caps.twoQubitProperties[EdgeKey(e.0, e.1)]
    ensures GateConnectivityGraph(caps, g).Success?
    ensures TranslateName(caps.family, name) in GateConnectivityGraph(caps, g).value.gates[e]
    ensures TranslateName(caps.family, name) in GateConnectivityGraph(caps, g).value.gates[Rev(e)] ||
      (Rev(e) in g.edges && GateConnectivityGraph(caps, g).value.gates[Rev(e)] != {})
  {
    var cal := CalibratedGates(caps, g.edges);
    var names := caps.twoQubitProperties[EdgeKey(e.0, e.1)];
    var i :| 0 <= i < |names| && names[i] == name;
    assert TranslateName(caps.family, name) in cal[e];
  }
}
