/** The qubit-connectivity validators.  `ConnectivityCriterion` holds a
    directed connectivity graph (given as a graph, as an adjacency dict, or
    as a complete graph on some qubits) and, once a circuit contains any
    verbatim box, checks every gate of the circuit against it.  The earlier
    version of the same criterion (`BoxConnectivity...` members) checks only
    the gates inside verbatim boxes. */
module Connectivity {
  import opened Wrappers
  import opened Circuits
  import opened DeviceGraphs

  /** The `connectivity_graph` argument: absent, an adjacency dict (node to
      its list of successors) or a directed graph. */
  datatype GraphArg = NoGraph | AdjacencyDict(adj: map<nat, seq<nat>>) | GivenGraph(graph: Digraph)

  datatype ConnectivityError =
    | NoGraphGiven
    | BadQubitArguments
    | NodesNone
    | NegativeNodeCount(count: int)
    | QubitMissing(qubit: nat)
    | MissingTarget
    | UnrecognizedTargeting
    | NotConnected(first: nat, second: nat)
    | AddEdgeUndefined
    | NoEndVerbatimBox(index: nat)
    | IndexOutOfRange(index: nat)

  /** Which Python exception each error is raised as. */
  function Raises(e: ConnectivityError): (x: PyException)
    ensures x == TypeError <==> e.NodesNone?
    ensures x == NameError <==> e.AddEdgeUndefined?
    ensures x == IndexError <==> e.MissingTarget? || e.IndexOutOfRange?
    ensures x == NetworkXError <==> e.NegativeNodeCount?
    ensures x in {ValueError, TypeError, NameError, IndexError, NetworkXError}
  {
    match e
    case NodesNone => TypeError
    case NegativeNodeCount(_) => NetworkXError
    case AddEdgeUndefined => NameError
    case MissingTarget => IndexError
    case IndexOutOfRange(_) => IndexError
    case _ => ValueError
  }

  /** Python truthiness of the graph argument: None, an empty dict and a
      graph without nodes are all false. */
  predicate Truthy(a: GraphArg) {
    match a
    case NoGraph => false
    case AdjacencyDict(adj) => |adj| > 0
    case GivenGraph(g) => |g.nodes| > 0
  }

  /** networkx `from_dict_of_lists` into a directed graph: every key is a
      node, every listed successor is a node, and each key points to each of
      its successors. */
  function FromDictOfLists(adj: map<nat, seq<nat>>): (g: Digraph)
    ensures forall u: nat, v: nat :: (u, v) in g.edges <==> u in adj && v in adj[u]
    ensures forall u :: u in g.nodes <==> u in adj || exists w :: w in adj && u in adj[w]
  {
    Digraph(adj.Keys + (set u, v | u in adj && v in adj[u] :: v),
            set u, v | u in adj && v in adj[u] :: (u, v))
  }

  /** `range(n)` as a sequence: empty when n is not positive. */
  function Range(n: int): (r: seq<nat>)
    ensures |r| == if n <= 0 then 0 else n
    ensures forall i :: 0 <= i < |r| ==> r[i] == i
    decreases if n <= 0 then 0 else n
  {
    if n <= 0 then [] else Range(n - 1) + [n - 1]
  }

  /** `range(n)` holds exactly the naturals below n. */
  lemma RangeHolds(n: int)
    ensures forall u: nat :: u in Elems(Range(n)) <==> u < n
  {
    forall u: nat | u < n ensures u in Range(n) {
      assert Range(n)[u] == u;
    }
  }

  /** networkx `complete_graph(nodes, create_using=DiGraph())`: an edge for
      every ordered pair of positions in the node list. */
  function CompleteGraph(s: seq<nat>): (g: Digraph)
    ensures g.nodes == Elems(s)
    ensures forall u: nat, v: nat :: (u, v) in g.edges ==> u in g.nodes && v in g.nodes
    ensures forall u: nat, v: nat :: u in g.nodes && v in g.nodes && u != v ==> (u, v) in g.edges
  {
    var g := Digraph(Elems(s), set i, j | 0 <= i < |s| && 0 <= j < |s| && i != j :: (s[i], s[j]));
    CompleteGraphConnects(s, g);
    g
  }

  lemma CompleteGraphConnects(s: seq<nat>, g: Digraph)
    requires g == Digraph(Elems(s), set i, j | 0 <= i < |s| && 0 <= j < |s| && i != j :: (s[i], s[j]))
    ensures forall u: nat, v: nat :: u in g.nodes && v in g.nodes && u != v ==> (u, v) in g.edges
  {
    forall u: nat, v: nat | u in g.nodes && v in g.nodes && u != v
      ensures (u, v) in g.edges
    {
      var i :| 0 <= i < |s| && s[i] == u;
      var j :| 0 <= j < |s| && s[j] == v;
      assert (s[i], s[j]) in g.edges;
    }
  }

  /** Distinct labels give a graph without self-loops, so the complete graph
      is exactly the set of ordered pairs of distinct labels. */
  lemma CompleteGraphOfDistinct(s: seq<nat>)
    requires forall i, j :: 0 <= i < j < |s| ==> s[i] != s[j]
    ensures forall u: nat, v: nat :: (u, v) in CompleteGraph(s).edges <==> u in Elems(s) && v in Elems(s) && u != v
  {
    var g := CompleteGraph(s);
    forall u: nat, v: nat | (u, v) in g.edges
      ensures u != v
    {
      var i, j :| 0 <= i < |s| && 0 <= j < |s| && i != j && (s[i], s[j]) == (u, v);
      if i < j {
        assert s[i] != s[j];
      } else {
        assert s[j] != s[i];
      }
    }
  }

  /** A repeated label gives a self-loop: `complete_graph` pairs positions,
      not distinct values. */
  lemma CompleteGraphRepeatedLabel()
    ensures (3, 3) in CompleteGraph([3, 3]).edges
  {
    var s: seq<nat> := [3, 3];
    assert (s[0], s[1]) in CompleteGraph(s).edges;
  }

  // ---------------------------------------------------------------------
  // ConnectivityCriterion (gate_device_criteria)
  // ---------------------------------------------------------------------

  /** The constructor.  Without a (truthy) graph, `fullyConnected` must be
      set; a fully connected device needs exactly one of `numQubits` and
      `qubitLabels`, and a zero qubit count falls through to the absent label
      list, which `complete_graph` rejects with a TypeError, and a negative
      count is a NetworkXError.  An undirected criterion adds the reverse of
      every edge. */
  function NewConnectivityCriterion(graph: GraphArg, fullyConnected: bool, numQubits: Option<int>,
                                    qubitLabels: Option<seq<nat>>, directed: bool): (r: Result<Digraph, ConnectivityError>)
    ensures r == Failure(NoGraphGiven) <==> !Truthy(graph) && !fullyConnected
    ensures fullyConnected ==> (r == Failure(BadQubitArguments) <==> numQubits.None? == qubitLabels.None?)
    ensures r == Failure(NodesNone) <==> fullyConnected && numQubits == Some(0) && qubitLabels.None?
    ensures r.Failure? && r.error.NegativeNodeCount? <==>
      fullyConnected && numQubits.Some? && numQubits.value < 0 && qubitLabels.None?
    ensures fullyConnected && numQubits.Some? && numQubits.value > 0 && qubitLabels.None? ==>
      r.Success? && forall u: nat :: u in r.value.nodes <==> u < numQubits.value
    ensures r.Success? && !directed ==> Symmetric(r.value.edges)
    ensures r.Success? && fullyConnected && qubitLabels.Some? ==> r.value.nodes == Elems(qubitLabels.value)
    ensures r.Success? && fullyConnected ==>
      forall u: nat, v: nat :: u in r.value.nodes && v in r.value.nodes && u != v ==> (u, v) in r.value.edges
    ensures !fullyConnected && graph.GivenGraph? && graph.graph.nodes != {} ==>
      r.Success? && r.value.nodes == graph.graph.nodes && graph.graph.edges <= r.value.edges
    ensures !fullyConnected && graph.AdjacencyDict? && |graph.adj| > 0 ==>
      r.Success? && forall u: nat, v: nat :: u in graph.adj && v in graph.adj[u] ==> (u, v) in r.value.edges
    ensures r.Success? && directed && !fullyConnected && graph.GivenGraph? ==> r.value == graph.graph
    // Without full connectivity the result is the given graph, or the graph
    // of the adjacency dict, with every edge mirrored when undirected.
    ensures !fullyConnected && graph.GivenGraph? && graph.graph.nodes != {} ==>
      r == Success(if directed then graph.graph
                   else Digraph(graph.graph.nodes, Symmetrize(graph.graph.edges)))
    ensures !fullyConnected && graph.AdjacencyDict? && |graph.adj| > 0 ==>
      var g := FromDictOfLists(graph.adj);
      r == Success(if directed then g else Digraph(g.nodes, Symmetrize(g.edges)))
  {
    if !(Truthy(graph) || fullyConnected) then Failure(NoGraphGiven)
    else
      var base :-
        if fullyConnected then
          if numQubits.None? == qubitLabels.None? then Failure(BadQubitArguments)
          else if numQubits.Some? && numQubits.value < 0 then Failure(NegativeNodeCount(numQubits.value))
          else if numQubits.Some? && numQubits.value != 0 then
            RangeHolds(numQubits.value);
            Success(CompleteGraph(Range(numQubits.value)))
          else if qubitLabels.None? then Failure(NodesNone)
          else Success(CompleteGraph(qubitLabels.value))
        else if graph.GivenGraph? then Success(graph.graph)
        else Success(FromDictOfLists(graph.adj));
      if directed then Success(base) else Success(Digraph(base.nodes, Symmetrize(base.edges)))
  }

  /** The graph built from an adjacency dict does not depend on the order in
      which each successor list names its successors. */
  lemma DictOrderIrrelevant(a: map<nat, seq<nat>>, b: map<nat, seq<nat>>, directed: bool)
    requires a.Keys == b.Keys
    requires forall u :: u in a ==> Elems(a[u]) == Elems(b[u])
    ensures NewConnectivityCriterion(AdjacencyDict(a), false, None, None, directed) ==
            NewConnectivityCriterion(AdjacencyDict(b), false, None, None, directed)
  {
    assert FromDictOfLists(a) == FromDictOfLists(b) by {
      var ga, gb := FromDictOfLists(a), FromDictOfLists(b);
      forall u | u in a
        ensures forall v :: v in a[u] <==> v in b[u]
      {
        assert forall v :: v in a[u] <==> v in Elems(a[u]);
        assert forall v :: v in b[u] <==> v in Elems(b[u]);
      }
      assert ga.edges == gb.edges;
      assert ga.nodes == gb.nodes;
    }
  }

  /** The two-qubit rule: a controlled gate needs the control-to-target edge,
      an uncontrolled gate on two targets needs both directions, any other
      arrangement is rejected.  The first missing edge is reported. */
  function InstructionConnectivity(g: Digraph, controls: seq<nat>, targets: seq<nat>): (r: Option<ConnectivityError>)
    ensures r.Some? ==> r.value.UnrecognizedTargeting? || r.value.NotConnected?
    ensures r.Some? && r.value.NotConnected? ==> (r.value.first, r.value.second) !in g.edges
  {
    if |controls| == 1 && |targets| == 1 then
      if (controls[0], targets[0]) !in g.edges then Some(NotConnected(controls[0], targets[0])) else None
    else if |controls| == 0 && |targets| == 2 then
      if (targets[0], targets[1]) !in g.edges then Some(NotConnected(targets[0], targets[1]))
      else if (targets[1], targets[0]) !in g.edges then Some(NotConnected(targets[1], targets[0]))
      else None
    else Some(UnrecognizedTargeting)
  }

  /** The check applied to one gate: two-qubit gates by their edges, any
      other gate by its first target being a node of the graph. */
  function GateCheck(g: Digraph): Instruction -> Option<ConnectivityError> {
    (ins: Instruction) =>
      if !ins.Gate? then None
      else if ins.qubitCount == 2 then InstructionConnectivity(g, ins.controls, ins.targets)
      else if |ins.targets| == 0 then Some(MissingTarget)
      else if ins.targets[0] !in g.nodes then Some(QubitMissing(ins.targets[0]))
      else None
  }

  /** What it means for a gate to be placeable on the device. */
  ghost predicate Connected(g: Digraph, ins: Instruction)
    requires ins.Gate?
  {
    if ins.qubitCount == 2 then
      || (|ins.controls| == 1 && |ins.targets| == 1 && (ins.controls[0], ins.targets[0]) in g.edges)
      || (|ins.controls| == 0 && |ins.targets| == 2 &&
          (ins.targets[0], ins.targets[1]) in g.edges && (ins.targets[1], ins.targets[0]) in g.edges)
    else
      |ins.targets| > 0 && ins.targets[0] in g.nodes
  }

  lemma GateCheckMeaning(g: Digraph, ins: Instruction)
    requires ins.Gate?
    ensures GateCheck(g)(ins).None? <==> Connected(g, ins)
    ensures GateCheck(g)(ins).Some? && GateCheck(g)(ins).value.QubitMissing? ==> GateCheck(g)(ins).value.qubit !in g.nodes
    ensures GateCheck(g)(ins).Some? && GateCheck(g)(ins).value.NotConnected? ==>
      (GateCheck(g)(ins).value.first, GateCheck(g)(ins).value.second) !in g.edges
  {
  }

  /** `ConnectivityCriterion.validate`: a circuit without a verbatim box
      passes untouched; otherwise every gate of the circuit, inside a box or
      not, must be placeable, and the first one that is not is reported. */
  function ConnectivityValidate(g: Digraph, c: seq<Instruction>): (r: Outcome<ConnectivityError>)
    ensures r.Pass? <==> !HasVerbatim(c) || forall k :: 0 <= k < |c| && c[k].Gate? ==> Connected(g, c[k])
    ensures r.Fail? ==> Raises(r.error) in {ValueError, IndexError}
    ensures r.Fail? && r.error.NotConnected? ==> (r.error.first, r.error.second) !in g.edges
    ensures r.Fail? && r.error.QubitMissing? ==> r.error.qubit !in g.nodes
  {
    if !HasVerbatim(c) then Pass
    else
      ConnectivityScanMeaning(g, c);
      ScanAllOutcome(c, GateCheck(g))
  }

  lemma ConnectivityScanMeaning(g: Digraph, c: seq<Instruction>)
    ensures GatesOk(c, GateCheck(g), 0, |c|) <==> forall k :: 0 <= k < |c| && c[k].Gate? ==> Connected(g, c[k])
    ensures var r := ScanAll(c, GateCheck(g), 0);
      r.Bad? ==> && (r.error.QubitMissing? || r.error.NotConnected? || r.error.MissingTarget? || r.error.UnrecognizedTargeting?)
                 && (r.error.NotConnected? ==> (r.error.first, r.error.second) !in g.edges)
                 && (r.error.QubitMissing? ==> r.error.qubit !in g.nodes)
  {
    forall k | 0 <= k < |c| && c[k].Gate?
      ensures GateCheck(g)(c[k]).None? <==> Connected(g, c[k])
    {
      GateCheckMeaning(g, c[k]);
    }
    var r := ScanAll(c, GateCheck(g), 0);
    if r.Bad? {
      var k :| 0 <= k < |c| && c[k].Gate? && GateCheck(g)(c[k]) == Some(r.error);
      GateCheckMeaning(g, c[k]);
    }
  }

  /** Adding a gate outside every verbatim box can make a circuit with a box
      fail: placement is checked for the whole circuit. */
  lemma OutsideGateChecked(g: Digraph)
    requires 7 !in g.nodes
    ensures ConnectivityValidate(g, [StartVerbatim, EndVerbatim]).Pass?
    ensures ConnectivityValidate(g, [StartVerbatim, EndVerbatim, Gate("H", 1, [], [7])]) == Fail(QubitMissing(7))
  {
    var c := [StartVerbatim, EndVerbatim, Gate("H", 1, [], [7])];
    var b: seq<Instruction> := [StartVerbatim, EndVerbatim];
    assert c[0].StartVerbatim? && b[0].StartVerbatim?;
  }

  // ---------------------------------------------------------------------
  // The earlier ConnectivityCriterion (criteria package)
  // ---------------------------------------------------------------------

  predicate IntTruthy(n: Option<int>) {
    n.Some? && n.value != 0
  }

  predicate ListTruthy(l: Option<seq<nat>>) {
    l.Some? && |l.value| > 0
  }

  /** The earlier constructor: the qubit arguments are tested by truthiness,
      so exactly one of them must be non-zero / non-empty, and there is no
      `directed` option. */
  function NewBoxConnectivityCriterion(graph: GraphArg, fullyConnected: bool, numQubits: Option<int>,
                                       qubitLabels: Option<seq<nat>>): (r: Result<Digraph, ConnectivityError>)
    ensures r == Failure(NoGraphGiven) <==> !Truthy(graph) && !fullyConnected
    ensures fullyConnected ==> (r == Failure(BadQubitArguments) <==> IntTruthy(numQubits) == ListTruthy(qubitLabels))
    ensures r != Failure(NodesNone)
    ensures r.Failure? && r.error.NegativeNodeCount? <==>
      fullyConnected && IntTruthy(numQubits) && numQubits.value < 0 && !ListTruthy(qubitLabels)
    ensures fullyConnected && IntTruthy(numQubits) && numQubits.value > 0 && !ListTruthy(qubitLabels) ==>
      r.Success? && forall u: nat :: u in r.value.nodes <==> u < numQubits.value
    ensures r.Success? && fullyConnected && ListTruthy(qubitLabels) ==> r.value.nodes == Elems(qubitLabels.value)
    ensures r.Success? && fullyConnected ==>
      forall u: nat, v: nat :: u in r.value.nodes && v in r.value.nodes && u != v ==> (u, v) in r.value.edges
    ensures !fullyConnected && graph.GivenGraph? && graph.graph.nodes != {} ==> r == Success(graph.graph)
    ensures !fullyConnected && graph.AdjacencyDict? && |graph.adj| > 0 ==> r == Success(FromDictOfLists(graph.adj))
  {
    if !(Truthy(graph) || fullyConnected) then Failure(NoGraphGiven)
    else if fullyConnected then
      if !(IntTruthy(numQubits) || ListTruthy(qubitLabels)) || (IntTruthy(numQubits) && ListTruthy(qubitLabels)) then
        Failure(BadQubitArguments)
      else if IntTruthy(numQubits) then
        if numQubits.value < 0 then Failure(NegativeNodeCount(numQubits.value))
        else
          RangeHolds(numQubits.value);
          Success(CompleteGraph(Range(numQubits.value)))
      else Success(CompleteGraph(qubitLabels.value))
    else if graph.GivenGraph? then Success(graph.graph)
    else Success(FromDictOfLists(graph.adj))
  }

  /** The two constructors build the same directed graph, except where the
      later one tests the qubit arguments for None rather than for
      truthiness: a zero count or an empty label list. */
  lemma ConstructorsAgree(graph: GraphArg, fullyConnected: bool, numQubits: Option<int>, qubitLabels: Option<seq<nat>>)
    requires numQubits.Some? ==> numQubits.value != 0
    requires qubitLabels.Some? ==> |qubitLabels.value| > 0
    ensures NewBoxConnectivityCriterion(graph, fullyConnected, numQubits, qubitLabels) ==
            NewConnectivityCriterion(graph, fullyConnected, numQubits, qubitLabels, true)
  {
  }

  /** An empty label list is accepted by the later constructor (an empty
      graph) and rejected by the earlier one. */
  lemma EmptyLabelsDiffer()
    ensures NewConnectivityCriterion(NoGraph, true, None, Some([]), true) == Success(Digraph({}, {}))
    ensures NewBoxConnectivityCriterion(NoGraph, true, None, Some([])) == Failure(BadQubitArguments)
  {
    var g := CompleteGraph([]);
    assert g.nodes == {};
    assert g.edges == {};
  }

  /** The earlier two-qubit rule as written: the controlled branch calls an
      undefined `add_edge` (a NameError), the two-target branch ignores the
      controls, and the message names the missing edge's qubits in reverse. */
  function BoxInstructionConnectivityAsWritten(g: Digraph, controls: seq<nat>, targets: seq<nat>): (r: Option<ConnectivityError>)
    ensures |controls| == 1 && |targets| == 1 ==> r == Some(AddEdgeUndefined)
    ensures r.Some? && r.value.NotConnected? ==> (r.value.second, r.value.first) !in g.edges
  {
    if |controls| == 1 && |targets| == 1 then Some(AddEdgeUndefined)
    else if |targets| == 2 then BothDirections(g, targets)
    else Some(UnrecognizedTargeting)
  }

  /** Both directions between two targets; a missing edge (a, b) is reported
      as "b is not connected to qubit a". */
  function BothDirections(g: Digraph, targets: seq<nat>): (r: Option<ConnectivityError>)
    requires |targets| == 2
    ensures r.None? <==> (targets[0], targets[1]) in g.edges && (targets[1], targets[0]) in g.edges
    ensures r.Some? ==> r.value.NotConnected? && (r.value.second, r.value.first) !in g.edges
  {
    if (targets[0], targets[1]) !in g.edges then Some(NotConnected(targets[1], targets[0]))
    else if (targets[1], targets[0]) !in g.edges then Some(NotConnected(targets[0], targets[1]))
    else None
  }

  /** The earlier two-qubit rule with the controlled branch doing what its
      comment says: checking the control-to-target edge. */
  function BoxInstructionConnectivity(g: Digraph, controls: seq<nat>, targets: seq<nat>): (r: Option<ConnectivityError>)
    ensures r.Some? ==> r.value.UnrecognizedTargeting? || r.value.NotConnected?
    ensures r.Some? && r.value.NotConnected? ==> (r.value.second, r.value.first) !in g.edges
  {
    if |controls| == 1 && |targets| == 1 then
      if (controls[0], targets[0]) !in g.edges then Some(NotConnected(targets[0], controls[0])) else None
    else if |targets| == 2 then BothDirections(g, targets)
    else Some(UnrecognizedTargeting)
  }

  function BoxGateCheck(g: Digraph, asWritten: bool): Instruction -> Option<ConnectivityError> {
    (ins: Instruction) =>
      if !ins.Gate? then None
      else if ins.qubitCount == 2 then
        (if asWritten then BoxInstructionConnectivityAsWritten(g, ins.controls, ins.targets)
         else BoxInstructionConnectivity(g, ins.controls, ins.targets))
      else if |ins.targets| == 0 then Some(MissingTarget)
      else if ins.targets[0] !in g.nodes then Some(QubitMissing(ins.targets[0]))
      else None
  }

  /** Placeable in the earlier sense: the two-target rule applies to any
      arrangement with two targets that is not exactly one control and one
      target. */
  ghost predicate BoxConnected(g: Digraph, ins: Instruction)
    requires ins.Gate?
  {
    if ins.qubitCount == 2 then
      if |ins.controls| == 1 && |ins.targets| == 1 then (ins.controls[0], ins.targets[0]) in g.edges
      else |ins.targets| == 2 && (ins.targets[0], ins.targets[1]) in g.edges && (ins.targets[1], ins.targets[0]) in g.edges
    else
      |ins.targets| > 0 && ins.targets[0] in g.nodes
  }

  lemma BoxGateCheckMeaning(g: Digraph, c: seq<Instruction>)
    ensures forall k :: 0 <= k < |c| && c[k].Gate? ==> (BoxGateCheck(g, false)(c[k]).None? <==> BoxConnected(g, c[k]))
  {
  }

  /** The earlier `validate` as written: only gates inside verbatim boxes
      are checked; an unterminated box reads past the end of the list (line
      73), an IndexError. */
  function BoxConnectivityValidateAsWritten(g: Digraph, c: seq<Instruction>): (r: Outcome<ConnectivityError>)
    ensures r.Fail? && r.error.IndexOutOfRange? ==> Unterminated(c) && r.error.index == |c|
  {
    ToOutcome(ScanEveryBox(c, BoxGateCheck(g, true), 0), (i: nat) => IndexOutOfRange(i))
  }

  /** The earlier `validate` with both defects corrected: a controlled
      two-qubit gate is checked against its edge, and an unterminated box is
      the ValueError the code means to raise. */
  function BoxConnectivityValidate(g: Digraph, c: seq<Instruction>): (r: Outcome<ConnectivityError>)
    ensures r.Pass? <==>
      && !Unterminated(c)
      && (forall k :: 0 <= k < |c| && c[k].Gate? && InVerbatim(c, k) ==> BoxConnected(g, c[k]))
    ensures r.Fail? ==> Raises(r.error) in {ValueError, IndexError}
  {
    ScanEveryBoxMeaning(c, BoxGateCheck(g, false));
    BoxGateCheckMeaning(g, c);
    ToOutcome(ScanEveryBox(c, BoxGateCheck(g, false), 0), (i: nat) => NoEndVerbatimBox(i))
  }

  /** As written, a controlled two-qubit gate in a box raises NameError
      whatever the graph; corrected, it passes when its edge exists. */
  lemma BoxControlledGateExample(g: Digraph)
    requires (0, 1) in g.edges
    ensures BoxConnectivityValidateAsWritten(g, [StartVerbatim, Gate("CPhaseShift", 2, [0], [1]), EndVerbatim]) == Fail(AddEdgeUndefined)
    ensures Raises(AddEdgeUndefined) == NameError
    ensures BoxConnectivityValidate(g, [StartVerbatim, Gate("CPhaseShift", 2, [0], [1]), EndVerbatim]).Pass?
  {
    var c := [StartVerbatim, Gate("CPhaseShift", 2, [0], [1]), EndVerbatim];
    assert ScanBox(c, BoxGateCheck(g, true), 1) == Bad(AddEdgeUndefined);
    assert ScanBox(c, BoxGateCheck(g, false), 1) == Clean;
  }

  /** A lone StartVerbatimBox: IndexError as written, ValueError corrected. */
  lemma BoxUnterminatedExample(g: Digraph)
    ensures BoxConnectivityValidateAsWritten(g, [StartVerbatim]) == Fail(IndexOutOfRange(1))
    ensures BoxConnectivityValidate(g, [StartVerbatim]) == Fail(NoEndVerbatimBox(1))
  {
  }

  /** Both versions agree on any circuit without a controlled two-qubit gate
      and without an unterminated box. */
  lemma {:induction false} BoxScansAgree(g: Digraph, c: seq<Instruction>, i: nat)
    requires i <= |c|
    requires forall k :: 0 <= k < |c| && c[k].Gate? && c[k].qubitCount == 2 ==> !(|c[k].controls| == 1 && |c[k].targets| == 1)
    ensures ScanEveryBox(c, BoxGateCheck(g, true), i) == ScanEveryBox(c, BoxGateCheck(g, false), i)
    decreases |c| - i
  {
    if i < |c| {
      BoxScansAgree(g, c, i + 1);
      if c[i].StartVerbatim? {
        BoxScanAgrees(g, c, i + 1);
      }
    }
  }

  lemma {:induction false} BoxScanAgrees(g: Digraph, c: seq<Instruction>, j: nat)
    requires j <= |c|
    requires forall k :: 0 <= k < |c| && c[k].Gate? && c[k].qubitCount == 2 ==> !(|c[k].controls| == 1 && |c[k].targets| == 1)
    ensures ScanBox(c, BoxGateCheck(g, true), j) == ScanBox(c, BoxGateCheck(g, false), j)
    decreases |c| - j
  {
    if j < |c| {
      BoxScanAgrees(g, c, j + 1);
      assert BoxGateCheck(g, true)(c[j]) == BoxGateCheck(g, false)(c[j]);
    }
  }
}
