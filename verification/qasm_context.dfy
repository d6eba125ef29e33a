/** The record a circuit visitor fills in for the OpenQASM 3.0 writer: the
    declared input parameters (a dict from name to type), the width of the
    classical register, and the gates and measurements in call order.  Gate
    arguments stay symbolic until the writer renders them. */
module QasmContext {
  import opened Wrappers
  import opened Text
  import opened PyDict
  import opened Tket

  /** The classical register every measurement writes into. */
  const MeasurementRegister := "c"

  datatype QasmGate = QasmGate(name: string, args: seq<Expr>, qubits: seq<nat>)

  /** A measurement: the qubit index and the classical bit it lands in,
      already written as a register access. */
  datatype Measurement = Measurement(qubit: nat, bit: string)

  type Params = seq<(string, string)>

  datatype Context = Context(
    inputParameters: Params,
    numBits: nat,
    gates: seq<QasmGate>,
    measurements: seq<Measurement>)

  /** A fresh context: the given parameter dict, no bits, no gates and no
      measurements. */
  function NewContext(inputParameters: Params): (c: Context)
    ensures c.inputParameters == inputParameters
    ensures c.numBits == 0 && c.gates == [] && c.measurements == []
  {
    Context(inputParameters, 0, [], [])
  }

  /** `set_num_bits` overwrites the register width and nothing else. */
  function SetNumBits(c: Context, n: nat): (r: Context)
    ensures r.numBits == n
    ensures r.(numBits := c.numBits) == c
  {
    c.(numBits := n)
  }

  /** `add_gate` appends one gate after all earlier ones. */
  function AddGate(c: Context, name: string, args: seq<Expr>, qubits: seq<nat>): (r: Context)
    ensures |r.gates| == |c.gates| + 1
    ensures r.gates[..|c.gates|] == c.gates
    ensures r.gates[|c.gates|] == QasmGate(name, args, qubits)
    ensures r.(gates := c.gates) == c
  {
    c.(gates := c.gates + [QasmGate(name, args, qubits)])
  }

  /** The register access `c[<cbit>]`. */
  function BitName(cbit: nat): (s: string)
    ensures MeasurementRegister + "[" <= s
    ensures |s| > 0 && s[|s| - 1] == ']'
  {
    MeasurementRegister + "[" + NatToString(cbit) + "]"
  }

  /** Distinct classical bits are written differently. */
  lemma BitNameInjective(a: nat, b: nat)
    ensures BitName(a) == BitName(b) <==> a == b
  {
    if BitName(a) == BitName(b) {
      var n := |MeasurementRegister| + 1;
      assert BitName(a)[n..|BitName(a)| - 1] == NatToString(a);
      assert BitName(b)[n..|BitName(b)| - 1] == NatToString(b);
      NatToStringInjective(a, b);
    }
  }

  /** `add_measurement` appends one measurement of `qubit` into bit
      `cbit` of the register. */
  function AddMeasurement(c: Context, qubit: nat, cbit: nat): (r: Context)
    ensures |r.measurements| == |c.measurements| + 1
    ensures r.measurements[..|c.measurements|] == c.measurements
    ensures r.measurements[|c.measurements|].qubit == qubit
    ensures r.measurements[|c.measurements|].bit == BitName(cbit)
    ensures r.(measurements := c.measurements) == c
  {
    c.(measurements := c.measurements + [Measurement(qubit, BitName(cbit))])
  }

  /** `add_parameter` assigns the name's type in the dict: a name already
      declared keeps its place, so no name is ever declared twice, and a new
      name goes last. */
  function AddParameter(c: Context, name: string, typ: string): (r: Context)
    ensures KeysDistinct(c.inputParameters) ==> KeysDistinct(r.inputParameters)
    ensures Lookup(r.inputParameters, name) == Some(typ)
    ensures name in Keys(c.inputParameters) ==> Keys(r.inputParameters) == Keys(c.inputParameters)
    ensures name !in Keys(c.inputParameters) ==> r.inputParameters == c.inputParameters + [(name, typ)]
    ensures forall other :: other != name ==> Lookup(r.inputParameters, other) == Lookup(c.inputParameters, other)
    ensures r.(inputParameters := c.inputParameters) == c
  {
    forall other | other != name
      ensures Lookup(Put(c.inputParameters, name, typ), other) == Lookup(c.inputParameters, other)
    {
      PutLeavesOthers(c.inputParameters, name, typ, other);
    }
    c.(inputParameters := Put(c.inputParameters, name, typ))
  }

  /** Declaring the same parameter twice is declaring it once. */
  lemma AddParameterIdempotent(c: Context, name: string, typ: string)
    ensures AddParameter(AddParameter(c, name, typ), name, typ) == AddParameter(c, name, typ)
  {
    PutIdempotent(c.inputParameters, name, typ);
  }
}
