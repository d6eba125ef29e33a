/** The parts of a pytket circuit the translators read: unit identifiers,
    symbolic angles, commands (a boxed sub-circuit carries its own command
    list) and the circuit's qubits, bits and global phase.  Angles are sympy
    expressions kept as terms; nothing is simplified or evaluated, and only
    their free symbols are ever inspected. */
module Tket {
  import opened Wrappers

  /** A unit identifier: its register name and the first entry of its
      index, which is all the translators use. */
  datatype Unit =
    | QubitUnit(register: string, index: nat)
    | BitUnit(register: string, index: nat)

  /** `Qubit(i)`: a qubit of the default register. */
  function DefaultQubit(i: nat): (u: Unit)
    ensures u.QubitUnit? && u.index == i
  {
    QubitUnit("q", i)
  }

  /** `Bit(i)`: a bit of the default classical register. */
  function DefaultBit(i: nat): (u: Unit)
    ensures u.BitUnit? && u.index == i
  {
    BitUnit("c", i)
  }

  /** A sympy expression or a plain number.  `Pi` is the constant, which is
      never a free symbol; a `Symbol` named "pi" is an ordinary symbol. */
  datatype Expr =
    | Const(value: real)
    | Symbol(name: string)
    | Pi
    | Sum(left: Expr, right: Expr)
    | Product(left: Expr, right: Expr)
    | Quotient(left: Expr, right: Expr)

  /** `e.free_symbols`, by name. */
  function FreeSymbols(e: Expr): set<string> {
    match e
    case Const(_) => {}
    case Symbol(name) => {name}
    case Pi => {}
    case Sum(l, r) => FreeSymbols(l) + FreeSymbols(r)
    case Product(l, r) => FreeSymbols(l) + FreeSymbols(r)
    case Quotient(l, r) => FreeSymbols(l) + FreeSymbols(r)
  }

  /** Appends to `acc` the names in `xs` it does not hold yet, keeping
      their first-occurrence order. */
  function AddNew(acc: seq<string>, xs: seq<string>): (r: seq<string>)
    requires Distinct(acc)
    ensures Distinct(r)
    ensures |acc| <= |r| && r[..|acc|] == acc
    ensures forall x :: x in r <==> x in acc || x in xs
    decreases |xs|
  {
    if |xs| == 0 then acc
    else if xs[0] in acc then AddNew(acc, xs[1..])
    else
      var acc' := acc + [xs[0]];
      var r := AddNew(acc', xs[1..]);
      assert r[..|acc'|][..|acc|] == r[..|acc|];
      r
  }

  predicate Distinct(xs: seq<string>) {
    forall i, j :: 0 <= i < j < |xs| ==> xs[i] != xs[j]
  }

  /** The free symbols in left-to-right order of first occurrence.  sympy
      returns them as a set with no fixed order; this is the order the model
      chooses for registering them. */
  function SymbolOrder(e: Expr): (r: seq<string>)
    ensures Distinct(r)
    ensures forall x :: x in r <==> x in FreeSymbols(e)
  {
    match e
    case Const(_) => []
    case Symbol(name) => [name]
    case Pi => []
    case Sum(l, r) => AddNew(SymbolOrder(l), SymbolOrder(r))
    case Product(l, r) => AddNew(SymbolOrder(l), SymbolOrder(r))
    case Quotient(l, r) => AddNew(SymbolOrder(l), SymbolOrder(r))
  }

  /** A circuit command: an operation (named by its `OpType`) with its
      parameters and arguments, or a `CircBox` holding the commands of its
      sub-circuit. */
  datatype Command =
    | Op(kind: string, params: seq<Expr>, args: seq<Unit>)
    | Box(args: seq<Unit>, body: seq<Command>)
  {
    function Args(): seq<Unit> {
      match this
      case Op(_, _, args) => args
      case Box(args, _) => args
    }
  }

  datatype Circuit = Circuit(qubits: seq<Unit>, bits: seq<Unit>, phase: Expr, commands: seq<Command>)

  /** `_initialize_circ_copy`: the same qubits, bits and phase, and no
      commands. */
  function EmptyCopy(c: Circuit): (r: Circuit)
    ensures r.qubits == c.qubits && r.bits == c.bits && r.phase == c.phase
    ensures r.commands == []
  {
    Circuit(c.qubits, c.bits, c.phase, [])
  }

  // The operation types the translators name.
  const MeasureOp := "Measure"
  const BarrierOp := "Barrier"
  const RzOp := "Rz"
  const PhasedXOp := "PhasedX"
  const CZOp := "CZ"
  const XOp := "X"
  const CXOp := "CX"
  const CU1Op := "CU1"
  const ZZPhaseOp := "ZZPhase"
  const SWAPOp := "SWAP"
}
