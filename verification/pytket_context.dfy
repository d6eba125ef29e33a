/** The program context the OpenQASM interpreter fills in when it
    translates a program into a pytket circuit: it registers each qubit
    index once, turns gate calls into pytket operations or composed
    expansions, records the measurement map and appends custom unitaries.
    The gate-name table is a parameter; the composed gates are those of
    `ComposedGates`. */
module PytketContext {
  import opened Wrappers
  import opened PyDict
  import opened Tket
  import opened ComposedGates

  /** `PytketProgramTranslation`: the circuit, the verbatim flag and the
      measurement dict from qubit index to classical bit. */
  datatype Translation = Translation(circuit: Circuit, isVerbatim: bool, measurements: seq<(nat, Unit)>)

  datatype ProgramContext = ProgramContext(translation: Translation, qubitsSet: set<nat>)

  predicate NoDuplicates(us: seq<Unit>) {
    forall i, j :: 0 <= i < j < |us| ==> us[i] != us[j]
  }

  /** The registration invariant: the circuit's qubits are the default
      qubits of the registered indices, each exactly once. */
  predicate Registered(ctx: ProgramContext) {
    && NoDuplicates(ctx.translation.circuit.qubits)
    && (forall u :: u in ctx.translation.circuit.qubits ==> u == DefaultQubit(u.index) && u.index in ctx.qubitsSet)
    && (forall i :: i in ctx.qubitsSet ==> DefaultQubit(i) in ctx.translation.circuit.qubits)
  }

  /** A fresh context: an empty circuit, no measurements, nothing
      registered.  The constructor's optional circuit argument is never
      read, so it is not a parameter here. */
  function NewProgramContext(): (ctx: ProgramContext)
    ensures Registered(ctx)
    ensures ctx.qubitsSet == {} && ctx.translation.circuit.commands == [] && ctx.translation.measurements == []
    ensures !ctx.translation.isVerbatim
  {
    ProgramContext(Translation(Circuit([], [], Const(0.0), []), false, []), {})
  }

  /** The context with its circuit replaced. */
  function WithCircuit(ctx: ProgramContext, c: Circuit): ProgramContext {
    ctx.(translation := ctx.translation.(circuit := c))
  }

  /** `_check_and_update_qubits`: each index not seen before is added to
      the set and, as a default-register qubit, to the circuit. */
  function RegisterQubits(ctx: ProgramContext, target: seq<nat>): (r: ProgramContext)
    ensures r.qubitsSet == ctx.qubitsSet + Elems(target)
    ensures Registered(ctx) ==> Registered(r)
    ensures |ctx.translation.circuit.qubits| <= |r.translation.circuit.qubits|
    ensures r.translation.circuit.qubits[..|ctx.translation.circuit.qubits|] == ctx.translation.circuit.qubits
    ensures r == WithCircuit(ctx, r.translation.circuit).(qubitsSet := r.qubitsSet)
    ensures r.translation.circuit == ctx.translation.circuit.(qubits := r.translation.circuit.qubits)
    decreases |target|
  {
    if |target| == 0 then ctx
    else
      var n := |target| - 1;
      var prev := RegisterQubits(ctx, target[..n]);
      var q := target[n];
      assert Elems(target) == Elems(target[..n]) + {q} by {
        assert target == target[..n] + [q];
      }
      if q in prev.qubitsSet then prev
      else
        var qs := prev.translation.circuit.qubits;
        var r := WithCircuit(prev, prev.translation.circuit.(qubits := qs + [DefaultQubit(q)])).(qubitsSet := prev.qubitsSet + {q});
        assert (qs + [DefaultQubit(q)])[..|qs|] == qs;
        assert (qs + [DefaultQubit(q)])[..|ctx.translation.circuit.qubits|] == qs[..|ctx.translation.circuit.qubits|];
        r
  }

  /** Registering indices that are all known already changes nothing. */
  lemma {:induction false} RegisterKnownQubits(ctx: ProgramContext, target: seq<nat>)
    requires Elems(target) <= ctx.qubitsSet
    ensures RegisterQubits(ctx, target) == ctx
    decreases |target|
  {
    if |target| > 0 {
      var n := |target| - 1;
      assert target[n] in Elems(target);
      assert Elems(target[..n]) <= Elems(target) by {
        assert target == target[..n] + [target[n]];
      }
      RegisterKnownQubits(ctx, target[..n]);
    }
  }

  /** Registration is idempotent. */
  lemma RegisterQubitsIdempotent(ctx: ProgramContext, target: seq<nat>)
    ensures RegisterQubits(RegisterQubits(ctx, target), target) == RegisterQubits(ctx, target)
  {
    RegisterKnownQubits(RegisterQubits(ctx, target), target);
  }

  /** Under the invariant, the circuit gains one qubit per index it did not
      know: no index is added twice. */
  lemma QubitCountGrowth(ctx: ProgramContext, target: seq<nat>)
    requires Registered(ctx)
    ensures |RegisterQubits(ctx, target).translation.circuit.qubits| == |RegisterQubits(ctx, target).qubitsSet|
    ensures |ctx.translation.circuit.qubits| == |ctx.qubitsSet|
  {
    RegisteredCount(ctx);
    RegisteredCount(RegisterQubits(ctx, target));
  }

  /** The indices of a list of qubits. */
  function IndexSet(qs: seq<Unit>): (r: set<nat>)
    ensures forall u :: u in qs ==> u.index in r
    ensures forall i :: i in r ==> exists k :: 0 <= k < |qs| && qs[k].index == i
    decreases |qs|
  {
    if |qs| == 0 then {}
    else
      var n := |qs| - 1;
      assert forall u :: u in qs ==> u in qs[..n] || u == qs[n];
      assert forall k :: 0 <= k < n ==> qs[..n][k] == qs[k];
      IndexSet(qs[..n]) + {qs[n].index}
  }

  /** Under the invariant there are exactly as many circuit qubits as
      registered indices. */
  lemma RegisteredCount(ctx: ProgramContext)
    requires Registered(ctx)
    ensures |ctx.translation.circuit.qubits| == |ctx.qubitsSet|
  {
    var qs := ctx.translation.circuit.qubits;
    assert IndexSet(qs) == ctx.qubitsSet by {
      forall i | i in ctx.qubitsSet ensures i in IndexSet(qs) {
        assert DefaultQubit(i) in qs;
      }
      forall i | i in IndexSet(qs) ensures i in ctx.qubitsSet {
        var k :| 0 <= k < |qs| && qs[k].index == i;
        assert qs[k] in qs;
      }
    }
    DistinctIndexCount(qs);
  }

  /** A duplicate-free list of default qubits has as many entries as
      distinct indices. */
  lemma {:induction false} DistinctIndexCount(qs: seq<Unit>)
    requires NoDuplicates(qs)
    requires forall u :: u in qs ==> u == DefaultQubit(u.index)
    ensures |qs| == |IndexSet(qs)|
    decreases |qs|
  {
    if |qs| > 0 {
      var n := |qs| - 1;
      var front := qs[..n];
      PrefixKeepsDistinct(qs);
      DistinctIndexCount(front);
      LastIndexIsNew(qs);
      IndexSetSnoc(qs);
    }
  }

  /** One more qubit adds its index. */
  lemma IndexSetSnoc(qs: seq<Unit>)
    requires |qs| > 0
    ensures IndexSet(qs) == IndexSet(qs[..|qs| - 1]) + {qs[|qs| - 1].index}
  {
  }

  /** Dropping the last qubit keeps a list duplicate-free and made of
      default qubits. */
  lemma PrefixKeepsDistinct(qs: seq<Unit>)
    requires |qs| > 0 && NoDuplicates(qs)
    requires forall u :: u in qs ==> u == DefaultQubit(u.index)
    ensures NoDuplicates(qs[..|qs| - 1])
    ensures forall u :: u in qs[..|qs| - 1] ==> u == DefaultQubit(u.index)
  {
    var front := qs[..|qs| - 1];
    assert forall u :: u in front ==> u in qs;
    forall i, j | 0 <= i < j < |front| ensures front[i] != front[j] {
      assert front[i] == qs[i] && front[j] == qs[j];
    }
  }

  /** In a duplicate-free list of default qubits, the last index is not
      among the earlier ones. */
  lemma LastIndexIsNew(qs: seq<Unit>)
    requires |qs| > 0 && NoDuplicates(qs)
    requires forall u :: u in qs ==> u == DefaultQubit(u.index)
    ensures qs[|qs| - 1].index !in IndexSet(qs[..|qs| - 1])
  {
    var n := |qs| - 1;
    var front := qs[..n];
    forall k | 0 <= k < n ensures front[k].index != qs[n].index {
      assert front[k] == qs[k] && qs[k] in qs && qs[n] in qs;
    }
  }

  /** OpenQASM angles are radians and pytket's are half-turns: each is
      divided by pi. */
  function HalfTurns(params: seq<Expr>): (r: seq<Expr>)
    ensures |r| == |params|
    ensures forall i :: 0 <= i < |params| ==> r[i] == Quotient(params[i], Pi)
  {
    seq(|params|, i requires 0 <= i < |params| => Quotient(params[i], Pi))
  }

  /** `add_gate_instruction`: qubits are registered first; a name in the
      pytket table becomes that operation, a composed name its expansion,
      anything else a ValueError.  Control modifiers and power are
      accepted and ignored. */
  function AddGateInstruction(ctx: ProgramContext, name: string, target: seq<nat>, params: seq<Expr>,
                              ctrlModifiers: seq<int>, power: int, table: map<string, string>): (r: Result<ProgramContext, PyException>)
    ensures r.Success? <==> name in table || (name in ComposedNames && |params| == 1 && |target| == 2)
    ensures r.Failure? && name !in table && name !in ComposedNames ==> r.error == ValueError
    ensures r.Failure? && name in ComposedNames ==> r.error == AssertionError
    ensures r.Success? ==> r.value.qubitsSet == ctx.qubitsSet + Elems(target)
    ensures r.Success? && Registered(ctx) ==> Registered(r.value)
    ensures r.Success? ==> r.value.translation.measurements == ctx.translation.measurements
    ensures r.Success? ==> var before := ctx.translation.circuit.commands; var after := r.value.translation.circuit.commands;
      |before| < |after| && after[..|before|] == before
    ensures r.Success? && name in table ==>
      r.value.translation.circuit.commands == ctx.translation.circuit.commands + [Op(table[name], HalfTurns(params), Qubits(target))]
  {
    var registered := RegisterQubits(ctx, target);
    var c := registered.translation.circuit;
    var ps := HalfTurns(params);
    if name in table then
      var out := c.commands + [Op(table[name], ps, Qubits(target))];
      assert out[..|c.commands|] == c.commands;
      Success(WithCircuit(registered, c.(commands := out)))
    else if name in ComposedNames then
      match Apply(name, c, ps, target)
      case Failure(e) => Failure(e)
      case Success(c') => Success(WithCircuit(registered, c'))
    else Failure(ValueError)
  }

  /** A classical bit for every measured qubit: the matching classical
      target, or the qubit's own index when there are none. */
  function MeasurePairs(target: seq<nat>, classicalTargets: Option<seq<nat>>): (r: seq<(nat, Unit)>)
    requires classicalTargets.Some? ==> |target| <= |classicalTargets.value|
    ensures |r| == |target|
    ensures forall i :: 0 <= i < |target| ==> r[i].0 == target[i]
    ensures forall i :: 0 <= i < |target| ==>
      r[i].1 == DefaultBit(if classicalTargets.Some? then classicalTargets.value[i] else target[i])
  {
    seq(|target|, i requires 0 <= i < |target| =>
      (target[i], DefaultBit(if classicalTargets.Some? then classicalTargets.value[i] else target[i])))
  }

  /** `add_measure`: nothing at all for an empty target; otherwise the
      qubits are registered and each is mapped to its bit, a later
      measurement of a qubit replacing an earlier one.  Too few classical
      targets is an IndexError. */
  function AddMeasure(ctx: ProgramContext, target: seq<nat>, classicalTargets: Option<seq<nat>>): (r: Result<ProgramContext, PyException>)
    ensures |target| == 0 ==> r == Success(ctx)
    ensures r.Success? <==> |target| == 0 || classicalTargets.None? || |target| <= |classicalTargets.value|
    ensures r.Failure? ==> r.error == IndexError
    ensures r.Success? && |target| > 0 ==> r.value.qubitsSet == ctx.qubitsSet + Elems(target)
    ensures r.Success? && Registered(ctx) ==> Registered(r.value)
    ensures r.Success? ==> r.value.translation.circuit.commands == ctx.translation.circuit.commands
    ensures r.Success? && KeysDistinct(ctx.translation.measurements) ==> KeysDistinct(r.value.translation.measurements)
  {
    if |target| == 0 then Success(ctx)
    else if classicalTargets.Some? && |classicalTargets.value| < |target| then Failure(IndexError)
    else
      var registered := RegisterQubits(ctx, target);
      var t := registered.translation;
      Success(registered.(translation := t.(measurements := PutAll(t.measurements, MeasurePairs(target, classicalTargets)))))
  }

  /** Each measured qubit maps to the bit of its last measurement in the
      call, and a qubit the call does not measure keeps its entry. */
  lemma AddMeasureRecords(ctx: ProgramContext, target: seq<nat>, classicalTargets: Option<seq<nat>>, i: nat, other: nat)
    requires AddMeasure(ctx, target, classicalTargets).Success?
    requires i < |target| && forall j :: i < j < |target| ==> target[j] != target[i]
    requires other !in target
    ensures var m := AddMeasure(ctx, target, classicalTargets).value.translation.measurements;
      && Lookup(m, target[i]) == Some(DefaultBit(if classicalTargets.Some? then classicalTargets.value[i] else target[i]))
      && Lookup(m, other) == Lookup(ctx.translation.measurements, other)
  {
    var pairs := MeasurePairs(target, classicalTargets);
    var before := RegisterQubits(ctx, target).translation.measurements;
    PutAllLastWins(before, pairs, i);
    PutAllLeavesOthers(before, pairs, other);
  }

  /** Without classical targets every measured qubit lands in the bit with
      its own index. */
  lemma AddMeasureDefaultBits(ctx: ProgramContext, target: seq<nat>, q: nat)
    requires q in target
    ensures Lookup(AddMeasure(ctx, target, None).value.translation.measurements, q) == Some(DefaultBit(q))
  {
    var i := LastIndex(target, q);
    AddMeasureRecords(ctx, target, None, i, 1 + MaxOf(target));
  }

  /** The position of the last occurrence of `q`. */
  function LastIndex(xs: seq<nat>, q: nat): (i: nat)
    requires q in xs
    ensures i < |xs| && xs[i] == q && forall j :: i < j < |xs| ==> xs[j] != q
    decreases |xs|
  {
    var n := |xs| - 1;
    if xs[n] == q then n
    else
      assert q in xs[..n] by {
        var k :| 0 <= k < |xs| && xs[k] == q;
        assert xs[..n][k] == q;
      }
      LastIndex(xs[..n], q)
  }

  /** An upper bound of the indices, so that one index beyond it is not
      measured. */
  function MaxOf(xs: seq<nat>): (m: nat)
    ensures forall x :: x in xs ==> x <= m
    decreases |xs|
  {
    if |xs| == 0 then 0
    else
      var rest := MaxOf(xs[1..]);
      assert forall x :: x in xs ==> x == xs[0] || x in xs[1..];
      if xs[0] > rest then xs[0] else rest
  }

  /** 2 to the power n. */
  function Pow2(n: nat): (p: nat)
    ensures p >= 1
  {
    if n == 0 then 1 else 2 * Pow2(n - 1)
  }

  /** `int(np.log2(d))` for a positive dimension: the largest n with
      2^n <= d. */
  function FloorLog2(d: nat): (n: nat)
    requires d > 0
    ensures Pow2(n) <= d < Pow2(n + 1)
  {
    if d == 1 then 0 else FloorLog2(d / 2) + 1
  }

  /** The exponent is unique: it is the only n with 2^n <= d < 2^(n+1). */
  lemma {:induction false} FloorLog2Unique(d: nat, n: nat)
    requires d > 0
    requires Pow2(n) <= d < Pow2(n + 1)
    ensures FloorLog2(d) == n
  {
    var m := FloorLog2(d);
    if m < n {
      Pow2Monotone(m + 1, n);
    } else if n < m {
      Pow2Monotone(n + 1, m);
    }
  }

  lemma {:induction false} Pow2Monotone(a: nat, b: nat)
    requires a <= b
    ensures Pow2(a) <= Pow2(b)
    decreases b
  {
    if a < b {
      Pow2Monotone(a, b - 1);
    }
  }

  /** The pytket box for a unitary on one, two or three qubits. */
  function UnitaryBoxKind(n: nat): string
    requires 1 <= n <= 3
  {
    if n == 1 then "Unitary1qBox" else if n == 2 then "Unitary2qBox" else "Unitary3qBox"
  }

  /** `add_custom_unitary` for a unitary of dimension `dim`: one to three
      targets, whose count must be the dimension's integer log2; then the
      qubits are registered and the matching unitary box is appended.  A
      zero dimension makes the log2 infinite, which `int` rejects with an
      OverflowError. */
  function AddCustomUnitary(ctx: ProgramContext, dim: nat, target: seq<nat>): (r: Result<ProgramContext, PyException>)
    ensures r.Failure? ==> r.error in {ValueError, OverflowError}
    ensures r.Failure? && r.error == OverflowError ==> dim == 0 && 1 <= |target| <= 3
    ensures r.Success? ==> 1 <= |target| <= 3 && dim > 0 && FloorLog2(dim) == |target|
    ensures r.Success? ==> r.value.qubitsSet == ctx.qubitsSet + Elems(target)
    ensures r.Success? && Registered(ctx) ==> Registered(r.value)
    ensures r.Success? ==>
      r.value.translation.circuit.commands == ctx.translation.circuit.commands + [Op(UnitaryBoxKind(|target|), [], Qubits(target))]
  {
    var n := |target|;
    if !(1 <= n <= 3) then Failure(ValueError)
    else if dim == 0 then Failure(OverflowError)
    else if FloorLog2(dim) != n then Failure(ValueError)
    else
      var registered := RegisterQubits(ctx, target);
      var c := registered.translation.circuit;
      Success(WithCircuit(registered, c.(commands := c.commands + [Op(UnitaryBoxKind(n), [], Qubits(target))])))
  }

  /** A unitary is accepted exactly when it has one to three targets and
      its dimension lies in [2^n, 2^(n+1)) for their count n: a square
      power-of-two matrix of the right size, or a dimension the truncated
      log2 rounds down to it. */
  lemma AddCustomUnitaryAccepts(ctx: ProgramContext, dim: nat, target: seq<nat>)
    ensures AddCustomUnitary(ctx, dim, target).Success?
      <==> 1 <= |target| <= 3 && Pow2(|target|) <= dim < Pow2(|target| + 1)
  {
    if 1 <= |target| <= 3 && Pow2(|target|) <= dim < Pow2(|target| + 1) {
      FloorLog2Unique(dim, |target|);
    }
  }

  // ---------------------------------------------------------------------
  // is_builtin_gate
  // ---------------------------------------------------------------------

  /** `is_builtin_gate` as written: `name in table or COMPOSED_GATES` is
      truthy for every name, because the composed-gate dict is not empty. */
  function IsBuiltinGateAsWritten(name: string, table: map<string, string>, userDefined: set<string>): bool {
    (name in table || |ComposedNames| > 0) && name !in userDefined
  }

  /** As written, every gate that is not user-defined counts as built in. */
  lemma BuiltinAsWrittenIgnoresTables(name: string, table: map<string, string>, userDefined: set<string>)
    ensures IsBuiltinGateAsWritten(name, table, userDefined) <==> name !in userDefined
  {
    assert PSwap in ComposedNames;
  }

  /** An unknown gate name that is not user-defined is reported built in,
      yet translating it raises ValueError. */
  lemma UnknownGateCountsAsBuiltin(ctx: ProgramContext)
    ensures IsBuiltinGateAsWritten("foo", map[], {})
    ensures AddGateInstruction(ctx, "foo", [0], [], [], 1, map[]) == Failure(ValueError)
  {
    assert PSwap in ComposedNames;
    assert "foo" !in ComposedNames;
  }

  /** `is_builtin_gate` as intended: known to one of the two tables and not
      user-defined. */
  function IsBuiltinGate(name: string, table: map<string, string>, userDefined: set<string>): (b: bool)
    ensures b <==> (name in table || name in ComposedNames) && name !in userDefined
  {
    (name in table || name in ComposedNames) && name !in userDefined
  }

  /** A built-in gate never fails with the unsupported-gate ValueError;
      only a composed gate's arity assertion can still fail. */
  lemma BuiltinGatesTranslate(ctx: ProgramContext, name: string, target: seq<nat>, params: seq<Expr>,
                              ctrlModifiers: seq<int>, power: int, table: map<string, string>, userDefined: set<string>)
    requires IsBuiltinGate(name, table, userDefined)
    ensures var r := AddGateInstruction(ctx, name, target, params, ctrlModifiers, power, table);
      r.Failure? ==> r.error == AssertionError && name in ComposedNames
  {
  }

  // ---------------------------------------------------------------------
  // add_phase_instruction
  // ---------------------------------------------------------------------

  /** `add_phase_instruction` as written passes three arguments to a method
      that takes five, so it raises TypeError before doing anything. */
  function AddPhaseInstructionAsWritten(ctx: ProgramContext, target: seq<nat>, phase: Expr): (r: Result<ProgramContext, PyException>)
    ensures r.Failure? && r.error == TypeError
  {
    Failure(TypeError)
  }

  const GPhase := "gphase"

  /** A global-phase instruction as intended: the `gphase` gate with the
      phase as its one parameter, no control modifiers and power 1. */
  function AddPhaseInstruction(ctx: ProgramContext, target: seq<nat>, phase: Expr, table: map<string, string>): (r: Result<ProgramContext, PyException>)
    ensures r.Success? <==> GPhase in table
    ensures r.Failure? ==> r.error == ValueError
    ensures r.Success? ==>
      r.value.translation.circuit.commands == ctx.translation.circuit.commands + [Op(table[GPhase], [Quotient(phase, Pi)], Qubits(target))]
  {
    assert GPhase !in ComposedNames;
    assert HalfTurns([phase]) == [Quotient(phase, Pi)];
    AddGateInstruction(ctx, GPhase, target, [phase], [], 1, table)
  }

  /** With a `gphase` entry in the table the intended call succeeds where
      the written one always fails. */
  lemma PhaseInstructionDiscrepancy(ctx: ProgramContext, target: seq<nat>, phase: Expr, table: map<string, string>)
    requires GPhase in table
    ensures AddPhaseInstruction(ctx, target, phase, table).Success?
    ensures AddPhaseInstructionAsWritten(ctx, target, phase) == Failure(TypeError)
  {
  }
}
