/** Fixed decompositions of the OpenQASM gates pytket has no single
    operation for.  Each expansion takes one angle and two qubit indices,
    fails its assertion otherwise, and appends a fixed gate sequence to the
    circuit; `pswap` also adds half its angle to the global phase. */
module ComposedGates {
  import opened Wrappers
  import opened Tket

  const PSwap := "pswap"
  const CPhaseShift00 := "cphaseshift00"
  const CPhaseShift01 := "cphaseshift01"
  const CPhaseShift10 := "cphaseshift10"

  /** The names with an expansion. */
  const ComposedNames: set<string> := {PSwap, CPhaseShift00, CPhaseShift01, CPhaseShift10}

  /** The default-register qubits with the given indices. */
  function Qubits(qs: seq<nat>): (r: seq<Unit>)
    ensures |r| == |qs|
    ensures forall i :: 0 <= i < |qs| ==> r[i] == DefaultQubit(qs[i])
  {
    seq(|qs|, i requires 0 <= i < |qs| => DefaultQubit(qs[i]))
  }

  /** `circ.add_gate(kind, params, qubits)`. */
  function Gate(kind: string, params: seq<Expr>, qs: seq<nat>): Command {
    Op(kind, params, Qubits(qs))
  }

  /** The gates of `cphaseshift01` with control `c` and target `t`: the CU1
      phase conjugated by CX. */
  function ConjugatedCU1(theta: Expr, c: nat, t: nat): seq<Command> {
    [Gate(CXOp, [], [c, t]), Gate(CU1Op, [theta], [c, t]), Gate(CXOp, [], [c, t])]
  }

  /** The commands an expansion appends, for one angle and qubits q0, q1. */
  function Expansion(name: string, theta: Expr, q0: nat, q1: nat): (r: seq<Command>)
    requires name in ComposedNames
    ensures forall i :: 0 <= i < |r| ==> r[i].Op? && forall u :: u in r[i].args ==> u in {DefaultQubit(q0), DefaultQubit(q1)}
  {
    if name == PSwap then [Gate(ZZPhaseOp, [theta], [q0, q1]), Gate(SWAPOp, [], [q0, q1])]
    else if name == CPhaseShift00 then [Gate(XOp, [], [q1])] + ConjugatedCU1(theta, q1, q0) + [Gate(XOp, [], [q1])]
    else if name == CPhaseShift01 then ConjugatedCU1(theta, q1, q0)
    else ConjugatedCU1(theta, q0, q1)
  }

  /** The global phase after an expansion: `pswap` adds half its angle. */
  function PhaseAfter(name: string, phase: Expr, theta: Expr): Expr {
    if name == PSwap then Sum(phase, Quotient(theta, Const(2.0))) else phase
  }

  /** `ComposedGates.add_<name>(circ, arguments, qubits)`. */
  function Apply(name: string, c: Circuit, arguments: seq<Expr>, qubits: seq<nat>): (r: Result<Circuit, PyException>)
    requires name in ComposedNames
    ensures r.Success? <==> |arguments| == 1 && |qubits| == 2
    ensures r.Failure? ==> r.error == AssertionError
    ensures r.Success? ==> r.value.qubits == c.qubits && r.value.bits == c.bits
    ensures r.Success? ==> |c.commands| < |r.value.commands| && r.value.commands[..|c.commands|] == c.commands
    ensures r.Success? && name != PSwap ==> r.value.phase == c.phase
  {
    if |arguments| != 1 || |qubits| != 2 then Failure(AssertionError)
    else
      var added := Expansion(name, arguments[0], qubits[0], qubits[1]);
      var out := c.commands + added;
      assert out[..|c.commands|] == c.commands;
      Success(c.(commands := out, phase := PhaseAfter(name, c.phase, arguments[0])))
  }

  /** What each expansion appends, gate by gate. */
  lemma ExpansionGates(c: Circuit, theta: Expr, q0: nat, q1: nat)
    ensures Apply(PSwap, c, [theta], [q0, q1]) == Success(Circuit(c.qubits, c.bits,
      Sum(c.phase, Quotient(theta, Const(2.0))),
      c.commands + [Op(ZZPhaseOp, [theta], [DefaultQubit(q0), DefaultQubit(q1)]), Op(SWAPOp, [], [DefaultQubit(q0), DefaultQubit(q1)])]))
    ensures Apply(CPhaseShift01, c, [theta], [q0, q1]) == Success(c.(commands := c.commands + [
      Op(CXOp, [], [DefaultQubit(q1), DefaultQubit(q0)]),
      Op(CU1Op, [theta], [DefaultQubit(q1), DefaultQubit(q0)]),
      Op(CXOp, [], [DefaultQubit(q1), DefaultQubit(q0)])]))
  {
    assert Qubits([q0, q1]) == [DefaultQubit(q0), DefaultQubit(q1)];
    assert Qubits([q1, q0]) == [DefaultQubit(q1), DefaultQubit(q0)];
  }

  /** `cphaseshift10` on (q0, q1) is `cphaseshift01` on (q1, q0). */
  lemma Shift10IsSwapped01(c: Circuit, arguments: seq<Expr>, q0: nat, q1: nat)
    ensures Apply(CPhaseShift10, c, arguments, [q0, q1]) == Apply(CPhaseShift01, c, arguments, [q1, q0])
  {
  }

  /** `cphaseshift00` is `cphaseshift01` between two X gates on q1. */
  lemma Shift00IsFlipped01(c: Circuit, arguments: seq<Expr>, q0: nat, q1: nat)
    requires |arguments| == 1
    ensures var flip := Gate(XOp, [], [q1]);
      Apply(CPhaseShift00, c, arguments, [q0, q1])
        == Success(Apply(CPhaseShift01, c.(commands := c.commands + [flip]), arguments, [q0, q1]).value.(
             commands := Apply(CPhaseShift01, c.(commands := c.commands + [flip]), arguments, [q0, q1]).value.commands + [flip]))
  {
    var flip := Gate(XOp, [], [q1]);
    var mid := ConjugatedCU1(arguments[0], q1, q0);
    assert c.commands + ([flip] + mid + [flip]) == c.commands + [flip] + mid + [flip];
  }

  /** Every controlled-phase expansion is a conjugation: the same gates read
      backwards, so the outer gates undo each other around the CU1. */
  lemma {:induction false} PhaseExpansionsArePalindromes(name: string, theta: Expr, q0: nat, q1: nat)
    requires name in ComposedNames - {PSwap}
    ensures var r := Expansion(name, theta, q0, q1);
      forall i :: 0 <= i < |r| ==> r[i] == r[|r| - 1 - i]
  {
    var r := Expansion(name, theta, q0, q1);
    if name == CPhaseShift00 {
      assert |r| == 5 && r[0] == r[4] && r[1] == r[3];
    } else {
      assert |r| == 3 && r[0] == r[2];
    }
  }
}
