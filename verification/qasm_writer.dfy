/** The OpenQASM 3.0 writer: a program is the version header, one `input`
    declaration per parameter, the classical bit register when there is
    one, one line per gate on physical qubits `$n`, and the measurements.
    Every part is a pure function of the context, so writing never changes
    it.  How sympy prints a gate argument is not modelled: the writer is
    given a `render` function for that. */
module QasmWriter {
  import opened Wrappers
  import opened Text
  import PyDict
  import opened Tket
  import opened QasmContext

  /** The version string (section "Version string" of the OpenQASM 3.0
      specification). */
  const Header := "OPENQASM 3.0;\n"

  /** A physical qubit. */
  function FormatQubit(q: nat): (s: string)
    ensures |s| >= 2 && s[0] == '$' && s[1..] == NatToString(q)
  {
    "$" + NatToString(q)
  }

  /** Distinct physical qubits are written differently. */
  lemma FormatQubitInjective(a: nat, b: nat)
    ensures FormatQubit(a) == FormatQubit(b) <==> a == b
  {
    NatToStringInjective(a, b);
  }

  function InputDeclaration(p: (string, string)): string {
    "input " + p.1 + " " + p.0 + ";\n"
  }

  /** One declaration per dict item, in dict order. */
  function InputDeclarations(ps: Params): (s: string)
    decreases |ps|
  {
    if |ps| == 0 then "" else InputDeclarations(ps[..|ps| - 1]) + InputDeclaration(ps[|ps| - 1])
  }

  /** The classical register declaration, present exactly when the register
      has bits. */
  function BitDeclaration(c: Context): (s: string)
    ensures s == "" <==> c.numBits == 0
    ensures c.numBits != 0 ==> s == "bit[" + NatToString(c.numBits) + "] " + MeasurementRegister + ";\n"
  {
    if c.numBits != 0 then "bit[" + NatToString(c.numBits) + "] " + MeasurementRegister + ";\n" else ""
  }

  function Rendered(render: Expr -> string, args: seq<Expr>): (r: seq<string>)
    ensures |r| == |args|
    ensures forall i :: 0 <= i < |args| ==> r[i] == render(args[i])
  {
    seq(|args|, i requires 0 <= i < |args| => render(args[i]))
  }

  /** The parenthesised, comma-separated arguments; nothing at all for a
      gate without arguments. */
  function GateArgs(render: Expr -> string, g: QasmGate): (s: string)
    ensures s == "" <==> |g.args| == 0
    ensures |g.args| > 0 ==> s[0] == '(' && s[|s| - 1] == ')'
  {
    if |g.args| > 0 then "(" + Join(Rendered(render, g.args), ",") + ")" else ""
  }

  function Formatted(qs: seq<nat>): (r: seq<string>)
    ensures |r| == |qs|
    ensures forall i :: 0 <= i < |qs| ==> r[i] == FormatQubit(qs[i])
  {
    seq(|qs|, i requires 0 <= i < |qs| => FormatQubit(qs[i]))
  }

  function GateQubits(g: QasmGate): string {
    Join(Formatted(g.qubits), ",")
  }

  /** `name(args) q0,q1;` and a newline. */
  function GateLine(render: Expr -> string, g: QasmGate): (s: string)
    ensures |s| > 0 && s[|s| - 1] == '\n'
  {
    g.name + GateArgs(render, g) + " " + GateQubits(g) + ";\n"
  }

  /** The gate lines in context order. */
  function Body(render: Expr -> string, gs: seq<QasmGate>): string
    decreases |gs|
  {
    if |gs| == 0 then "" else Body(render, gs[..|gs| - 1]) + GateLine(render, gs[|gs| - 1])
  }

  function MeasurementLine(m: Measurement): string {
    m.bit + " = measure " + FormatQubit(m.qubit) + ";"
  }

  function MeasurementLines(ms: seq<Measurement>): (r: seq<string>)
    ensures |r| == |ms|
    ensures forall i :: 0 <= i < |ms| ==> r[i] == MeasurementLine(ms[i])
  {
    seq(|ms|, i requires 0 <= i < |ms| => MeasurementLine(ms[i]))
  }

  /** The measurements joined by newlines, with none after the last. */
  function Measurements(ms: seq<Measurement>): string {
    Join(MeasurementLines(ms), "\n")
  }

  /** `get_program`. */
  function Program(render: Expr -> string, c: Context): (s: string)
    ensures Header <= s
  {
    Header + InputDeclarations(c.inputParameters) + BitDeclaration(c)
      + Body(render, c.gates) + Measurements(c.measurements)
  }

  // ---------------------------------------------------------------------
  // What the writer's output says about the context
  // ---------------------------------------------------------------------

  /** A fresh context with no parameters is written as the header alone. */
  lemma EmptyProgram(render: Expr -> string)
    ensures Program(render, NewContext([])) == Header
  {
    assert Measurements([]) == "";
  }

  /** The number of newline characters in a string. */
  function Newlines(s: string): nat
    decreases |s|
  {
    if |s| == 0 then 0 else Newlines(s[..|s| - 1]) + (if s[|s| - 1] == '\n' then 1 else 0)
  }

  lemma {:induction false} NewlinesAppend(a: string, b: string)
    ensures Newlines(a + b) == Newlines(a) + Newlines(b)
    decreases |b|
  {
    var ab := a + b;
    if |b| > 0 {
      var n := |b| - 1;
      assert ab[..|ab| - 1] == a + b[..n];
      assert ab[|ab| - 1] == b[n];
      NewlinesAppend(a, b[..n]);
    } else {
      assert ab == a;
    }
  }

  lemma {:induction false} NoNewlines(s: string)
    requires '\n' !in s
    ensures Newlines(s) == 0
    decreases |s|
  {
    if |s| > 0 {
      assert s[..|s| - 1] <= s;
      NoNewlines(s[..|s| - 1]);
    }
  }

  lemma {:induction false} JoinNoNewlines(parts: seq<string>, sep: string)
    requires forall i :: 0 <= i < |parts| ==> '\n' !in parts[i]
    requires '\n' !in sep
    ensures '\n' !in Join(parts, sep)
    decreases |parts|
  {
    if |parts| > 1 {
      JoinNoNewlines(parts[1..], sep);
    }
  }

  /** A gate line holds one newline, at its end, when neither the name nor
      a rendered argument holds one. */
  lemma GateLineNewlines(render: Expr -> string, g: QasmGate)
    requires forall e: Expr :: '\n' !in render(e)
    requires '\n' !in g.name
    ensures Newlines(GateLine(render, g)) == 1
  {
    JoinNoNewlines(Rendered(render, g.args), ",");
    JoinNoNewlines(Formatted(g.qubits), ",");
    var head := g.name + GateArgs(render, g) + " " + GateQubits(g) + ";";
    NoNewlines(head);
    NewlinesAppend(head, "\n");
    assert GateLine(render, g) == head + "\n";
  }

  /** When no name or rendered argument contains a newline, every gate is
      written on exactly one line. */
  lemma {:induction false} OneLinePerGate(render: Expr -> string, gs: seq<QasmGate>)
    requires forall e: Expr :: '\n' !in render(e)
    requires forall i :: 0 <= i < |gs| ==> '\n' !in gs[i].name
    ensures Newlines(Body(render, gs)) == |gs|
    decreases |gs|
  {
    if |gs| > 0 {
      var n := |gs| - 1;
      var front := gs[..n];
      assert forall i :: 0 <= i < n ==> front[i] == gs[i];
      OneLinePerGate(render, front);
      GateLineNewlines(render, gs[n]);
      NewlinesAppend(Body(render, front), GateLine(render, gs[n]));
    }
  }

  /** Gate lines follow the order in which gates were added: the body of a
      concatenation is the concatenation of the bodies. */
  lemma {:induction false} BodyAppend(render: Expr -> string, a: seq<QasmGate>, b: seq<QasmGate>)
    ensures Body(render, a + b) == Body(render, a) + Body(render, b)
    decreases |b|
  {
    var ab := a + b;
    if |b| > 0 {
      var n := |b| - 1;
      assert ab[..|ab| - 1] == a + b[..n];
      assert ab[|ab| - 1] == b[n];
      assert Body(render, ab) == Body(render, a + b[..n]) + GateLine(render, b[n]);
      BodyAppend(render, a, b[..n]);
    } else {
      assert ab == a;
    }
  }

  /** Adding a gate to the context adds exactly its line to the end of the
      body and leaves every other part of the program as it was. */
  lemma AddGateAddsLine(render: Expr -> string, c: Context, name: string, args: seq<Expr>, qubits: seq<nat>)
    ensures var c' := AddGate(c, name, args, qubits);
      && Body(render, c'.gates) == Body(render, c.gates) + GateLine(render, QasmGate(name, args, qubits))
      && Program(render, c') == Header + InputDeclarations(c.inputParameters) + BitDeclaration(c)
           + Body(render, c.gates) + GateLine(render, QasmGate(name, args, qubits)) + Measurements(c.measurements)
  {
    var g := QasmGate(name, args, qubits);
    var c' := AddGate(c, name, args, qubits);
    assert c'.gates == c.gates + [g];
    assert c'.gates[..|c.gates|] == c.gates;
    assert Body(render, c'.gates) == Body(render, c.gates) + GateLine(render, g);
    var pre := Header + InputDeclarations(c.inputParameters) + BitDeclaration(c);
    var body, line, ms := Body(render, c.gates), GateLine(render, g), Measurements(c.measurements);
    assert Program(render, c') == pre + (body + line) + ms;
    assert pre + (body + line) == pre + body + line;
  }

  /** Adding a measurement appends its statement, separated from an
      earlier one by a newline. */
  lemma AddMeasurementAddsStatement(c: Context, qubit: nat, cbit: nat)
    ensures var line := BitName(cbit) + " = measure " + FormatQubit(qubit) + ";";
      Measurements(AddMeasurement(c, qubit, cbit).measurements)
        == if |c.measurements| == 0 then line else Measurements(c.measurements) + "\n" + line
  {
    var m := Measurement(qubit, BitName(cbit));
    assert MeasurementLines(c.measurements + [m]) == MeasurementLines(c.measurements) + [MeasurementLine(m)];
    JoinAppend(MeasurementLines(c.measurements), MeasurementLine(m), "\n");
  }

  /** A parameter declared for the first time adds one `input` line after
      the existing ones. */
  lemma AddParameterDeclares(c: Context, name: string, typ: string)
    requires name !in PyDict.Keys(c.inputParameters)
    ensures InputDeclarations(AddParameter(c, name, typ).inputParameters)
      == InputDeclarations(c.inputParameters) + "input " + typ + " " + name + ";\n"
  {
    var ps := c.inputParameters;
    assert InputDeclarations(ps + [(name, typ)]) == InputDeclarations(ps) + "input " + typ + " " + name + ";\n" by {
      var qs := ps + [(name, typ)];
      assert qs[..|qs| - 1] == ps;
      var before := InputDeclarations(ps);
      assert InputDeclarations(qs) == before + InputDeclaration((name, typ));
      assert before + ("input " + typ + " " + name + ";\n") == before + "input " + typ + " " + name + ";\n";
    }
  }

  /** Declaring a known parameter again with its own type changes
      nothing. */
  lemma RedeclaringKeepsContext(c: Context, name: string, typ: string)
    requires PyDict.Lookup(c.inputParameters, name) == Some(typ)
    ensures AddParameter(c, name, typ) == c
  {
    var i := PyDict.KeyIndex(c.inputParameters, name).value;
    assert c.inputParameters[i] == (name, typ);
    assert c.inputParameters[i := (name, typ)] == c.inputParameters;
  }
}
