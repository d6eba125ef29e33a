/** `GateConnectivityCriterion`: a directed graph whose edges carry the set
    of two-qubit gates the device supports on that ordered qubit pair, and a
    validator that checks the gates inside verbatim boxes against it. */
module GateConnectivity {
  import opened Wrappers
  import opened Circuits
  import opened DeviceGraphs

  /** The constructor's argument: a dict from edges to gate names, a graph
      with `supported_gates` edge attributes, or anything else. */
  datatype GateGraphArg = GateDict(entries: map<Edge, set<string>>) | GivenGateGraph(graph: GateGraph) | OtherArg

  datatype GateConnectivityError =
    | NotGraphOrDict
    | QubitMissing(qubit: nat)
    | MissingTarget
    | UnrecognizedTargeting
    | NotConnected(first: nat, second: nat)
    | PairDoesNotSupport(first: nat, second: nat, gate: string)
    | NoEndVerbatimBox(index: nat)

  function Raises(e: GateConnectivityError): (x: PyException)
    ensures x == TypeError <==> e.NotGraphOrDict?
    ensures x == IndexError <==> e.MissingTarget?
    ensures x in {TypeError, IndexError, ValueError}
  {
    match e
    case NotGraphOrDict => TypeError
    case MissingTarget => IndexError
    case _ => ValueError
  }

  // ---------------------------------------------------------------------
  // Undirected criteria: filling in back edges
  // ---------------------------------------------------------------------

  /** The labelling once the edges in `done` have been visited: each visited
      edge whose reverse was missing has given the reverse its own gates. */
  function PartialBackEdges(m: map<Edge, set<string>>, done: set<Edge>): map<Edge, set<string>>
    requires done <= m.Keys
  {
    map k | k in m.Keys + Reversed(done) :: if k in m then m[k] else m[Rev(k)]
  }

  /** Every missing back edge receives the gates of its forward edge; edges
      already present keep their own gates. */
  function WithBackEdges(m: map<Edge, set<string>>): (r: map<Edge, set<string>>)
    ensures r.Keys == Symmetrize(m.Keys)
    ensures forall u: nat, v: nat :: (u, v) in m ==> r[(u, v)] == m[(u, v)]
    ensures forall u: nat, v: nat :: (u, v) !in m && (v, u) in m ==> r[(u, v)] == m[(v, u)]
  {
    PartialBackEdges(m, m.Keys)
  }

  lemma PartialBackEdgesNothing(m: map<Edge, set<string>>)
    ensures PartialBackEdges(m, {}) == m
  {
    var p := PartialBackEdges(m, {});
    assert p.Keys == m.Keys;
    forall k | k in m
      ensures p[k] == m[k]
    {
    }
  }

  /** One iteration of the DiGraph loop on edge e. */
  function BackEdgeVisit(m: map<Edge, set<string>>, e: Edge): (r: map<Edge, set<string>>)
    requires e in m
  {
    if Rev(e) !in m then m[Rev(e) := m[e]] else m
  }

  lemma {:induction false} VisitNext(m: map<Edge, set<string>>, done: set<Edge>, e: Edge)
    requires done <= m.Keys && e in m && e !in done
    ensures e in PartialBackEdges(m, done)
    ensures BackEdgeVisit(PartialBackEdges(m, done), e) == PartialBackEdges(m, done + {e})
  {
    var before := PartialBackEdges(m, done);
    var after := PartialBackEdges(m, done + {e});
    var stepped := BackEdgeVisit(before, e);
    assert e in before;
    assert stepped.Keys == after.Keys by {
      assert Reversed(done + {e}) == Reversed(done) + {Rev(e)};
      if Rev(e) in before {
        assert Rev(e) in m || Rev(Rev(e)) in done;
      }
    }
    forall k | k in after
      ensures stepped[k] == after[k]
    {
      if k != Rev(e) {
        assert Rev(k) != e;
      }
    }
  }

  /** The loop over the graph's edges when `directed` is false.  The edges
      are visited in some order the caller does not control; edges the loop
      adds are visited too, but their reverse already exists, so they are
      left alone (`WithBackEdgesIsStable`). */
  method FillBackEdges(m: map<Edge, set<string>>) returns (r: map<Edge, set<string>>)
    ensures r == WithBackEdges(m)
  {
    var remaining := m.Keys;
    var done: set<Edge> := {};
    r := m;
    PartialBackEdgesNothing(m);
    while remaining != {}
      invariant done <= m.Keys
      invariant remaining == m.Keys - done
      invariant r == PartialBackEdges(m, done)
      decreases remaining
    {
      var e :| e in remaining;
      VisitNext(m, done, e);
      r := BackEdgeVisit(r, e);
      done := done + {e};
      remaining := remaining - {e};
    }
    assert done == m.Keys;
    assert r == PartialBackEdges(m, m.Keys);
  }

  lemma WithBackEdgesIsStable(m: map<Edge, set<string>>, e: Edge)
    requires e in WithBackEdges(m)
    ensures BackEdgeVisit(WithBackEdges(m), e) == WithBackEdges(m)
  {
    assert Rev(e) in WithBackEdges(m);
  }

  /** The nodes networkx creates while adding the dict's edges. */
  function DictNodes(d: map<Edge, set<string>>): (r: set<nat>)
    ensures forall q :: q in r <==> exists u: nat, v: nat :: (u, v) in d && (q == u || q == v)
  {
    var r := (set e | e in d :: e.0) + (set e | e in d :: e.1);
    assert forall u: nat, v: nat :: (u, v) in d ==> u in r && v in r;
    r
  }

  /** The constructor.  A graph is kept (with back edges filled in when
      undirected); a dict becomes a graph with one edge per entry, and when
      undirected a reverse pair absent from the dict takes the entry's gates;
      anything else is a TypeError. */
  function NewGateConnectivityCriterion(arg: GateGraphArg, directed: bool): (r: Result<GateGraph, GateConnectivityError>)
    ensures r.Failure? <==> arg.OtherArg?
    ensures r.Failure? ==> Raises(r.error) == TypeError
    ensures r.Success? && directed && arg.GivenGateGraph? ==> r.value == arg.graph
    ensures r.Success? && directed && arg.GateDict? ==> r.value.gates == arg.entries
    ensures r.Success? && !directed ==> forall u: nat, v: nat :: (u, v) in r.value.gates ==> (v, u) in r.value.gates
    ensures r.Success? && arg.GateDict? ==> r.value.nodes == DictNodes(arg.entries)
    // Undirected: every recorded edge also gets its reverse, carrying the
    // same gates unless the reverse edge was recorded itself.
    ensures r.Success? && !directed && arg.GateDict? ==> r.value.gates == WithBackEdges(arg.entries)
    ensures r.Success? && !directed && arg.GivenGateGraph? ==>
      r.value == GateGraph(arg.graph.nodes, WithBackEdges(arg.graph.gates))
  {
    match arg
    case GivenGateGraph(g) => Success(if directed then g else GateGraph(g.nodes, WithBackEdges(g.gates)))
    case GateDict(d) => Success(GateGraph(DictNodes(d), if directed then d else WithBackEdges(d)))
    case OtherArg => Failure(NotGraphOrDict)
  }

  // ---------------------------------------------------------------------
  // Validation
  // ---------------------------------------------------------------------

  /** The edge a two-qubit gate uses: control to target for a controlled
      gate, first to second target for an uncontrolled one. */
  function GateEdge(controls: seq<nat>, targets: seq<nat>): (r: Option<Edge>)
    ensures r.Some? <==> (|controls| == 1 && |targets| == 1) || (|controls| == 0 && |targets| == 2)
    ensures r.Some? && |controls| == 1 ==> r.value == (controls[0], targets[0])
    ensures r.Some? && |controls| == 0 ==> r.value == (targets[0], targets[1])
  {
    if |controls| == 1 && |targets| == 1 then Some((controls[0], targets[0]))
    else if |controls| == 0 && |targets| == 2 then Some((targets[0], targets[1]))
    else None
  }

  function GateConnectivityCheck(g: GateGraph): Instruction -> Option<GateConnectivityError> {
    (ins: Instruction) =>
      if !ins.Gate? then None
      else if ins.qubitCount == 2 then
        match GateEdge(ins.controls, ins.targets)
        case None => Some(UnrecognizedTargeting)
        case Some(e) =>
          if e !in g.gates then Some(NotConnected(e.0, e.1))
          else if ins.name !in g.gates[e] then Some(PairDoesNotSupport(e.0, e.1, ins.name))
          else None
      else if |ins.targets| == 0 then Some(MissingTarget)
      else if ins.targets[0] !in g.nodes then Some(QubitMissing(ins.targets[0]))
      else None
  }

  /** What it means for the device to run a gate: a two-qubit gate needs its
      (control, target) or (first, second target) pair to be an edge that
      lists the gate; any other gate needs its first target on the device. */
  ghost predicate Runs(g: GateGraph, ins: Instruction)
    requires ins.Gate?
  {
    if ins.qubitCount == 2 then
      || (|ins.controls| == 1 && |ins.targets| == 1 &&
          (ins.controls[0], ins.targets[0]) in g.gates && ins.name in g.gates[(ins.controls[0], ins.targets[0])])
      || (|ins.controls| == 0 && |ins.targets| == 2 &&
          (ins.targets[0], ins.targets[1]) in g.gates && ins.name in g.gates[(ins.targets[0], ins.targets[1])])
    else
      |ins.targets| > 0 && ins.targets[0] in g.nodes
  }

  lemma CheckMeaning(g: GateGraph, c: seq<Instruction>)
    ensures forall k :: 0 <= k < |c| && c[k].Gate? ==> (GateConnectivityCheck(g)(c[k]).None? <==> Runs(g, c[k]))
    ensures forall k :: 0 <= k < |c| && GateConnectivityCheck(g)(c[k]).Some? ==>
      var e := GateConnectivityCheck(g)(c[k]).value;
      && (e.NotConnected? ==> (e.first, e.second) !in g.gates)
      && (e.PairDoesNotSupport? ==> (e.first, e.second) in g.gates && e.gate !in g.gates[(e.first, e.second)])
      && (e.QubitMissing? ==> e.qubit !in g.nodes)
      && !e.NoEndVerbatimBox? && !e.NotGraphOrDict?
  {
  }

  /** `GateConnectivityCriterion.validate`: every StartVerbatimBox starts a
      scan of the gates up to the next EndVerbatimBox; gates outside boxes
      are not checked; a box never closed is a ValueError. */
  function GateConnectivityValidate(g: GateGraph, c: seq<Instruction>): (r: Outcome<GateConnectivityError>)
    ensures r.Pass? <==>
      && !Unterminated(c)
      && (forall k :: 0 <= k < |c| && c[k].Gate? && InVerbatim(c, k) ==> Runs(g, c[k]))
    ensures r.Fail? ==> Raises(r.error) in {ValueError, IndexError}
    ensures r.Fail? && r.error.NoEndVerbatimBox? ==> Unterminated(c) && r.error.index == |c|
    ensures r.Fail? && r.error.NotConnected? ==> (r.error.first, r.error.second) !in g.gates
    ensures r.Fail? && r.error.PairDoesNotSupport? ==>
      (r.error.first, r.error.second) in g.gates && r.error.gate !in g.gates[(r.error.first, r.error.second)]
    ensures r.Fail? && r.error.QubitMissing? ==> r.error.qubit !in g.nodes
  {
    ScanEveryBoxMeaning(c, GateConnectivityCheck(g));
    CheckMeaning(g, c);
    ToOutcome(ScanEveryBox(c, GateConnectivityCheck(g), 0), (i: nat) => NoEndVerbatimBox(i))
  }

  /** An undirected criterion built from a dict that lists a pair in one
      direction only runs the pair's gates in both directions. */
  lemma UndirectedRunsBothWays(d: map<Edge, set<string>>, u: nat, v: nat, name: string)
    requires (u, v) in d && (v, u) !in d && name in d[(u, v)]
    ensures var g := NewGateConnectivityCriterion(GateDict(d), false).value;
      Runs(g, Gate(name, 2, [], [u, v])) && Runs(g, Gate(name, 2, [], [v, u]))
  {
  }

  /** A directed criterion does not: the reverse pair is unknown. */
  lemma DirectedRunsOneWay(d: map<Edge, set<string>>, u: nat, v: nat, name: string)
    requires (u, v) in d && (v, u) !in d
    ensures var g := NewGateConnectivityCriterion(GateDict(d), true).value;
      GateConnectivityValidate(g, [StartVerbatim, Gate(name, 2, [], [v, u]), EndVerbatim]) == Fail(NotConnected(v, u))
  {
    var g := NewGateConnectivityCriterion(GateDict(d), true).value;
    var c := [StartVerbatim, Gate(name, 2, [], [v, u]), EndVerbatim];
    assert ScanBox(c, GateConnectivityCheck(g), 1) == Bad(NotConnected(v, u));
  }
}
