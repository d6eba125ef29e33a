/** The circuit visitor behind `tket_to_qasm3`: it sets the register width
    from the circuit's bits, then walks the commands in order, flattening
    boxed sub-circuits, recording measurements, and turning every other
    operation into a gate on qubit indices with its angles scaled by pi.
    A command that touches a qubit measured earlier is a ValueError, and so
    is an operation with no OpenQASM name.  The older copy of the visitor
    is the same walk over a context that has no `add_parameter`. */
module TketToQasm {
  import opened Wrappers
  import opened PyDict
  import opened Tket
  import opened QasmContext
  import opened QasmWriter

  /** Which copy of the visitor runs. */
  datatype Version = Current | Older

  /** The caller's gate-name overrides and the default `PYTKET_TO_QASM`
      table, both keyed by operation type. */
  datatype Names = Names(overrides: map<string, string>, table: map<string, string>)

  /** The OpenQASM name of an operation type: an override wins over the
      table, and a type in neither has none. */
  function GateName(names: Names, kind: string): (r: Option<string>)
    ensures r.None? <==> kind !in names.overrides && kind !in names.table
    ensures kind in names.overrides ==> r == Some(names.overrides[kind])
    ensures kind !in names.overrides && kind in names.table ==> r == Some(names.table[kind])
  {
    if kind in names.overrides then Some(names.overrides[kind])
    else if kind in names.table then Some(names.table[kind])
    else None
  }

  /** `_gate_angles_in_radians`: every angle multiplied by pi. */
  function Scaled(params: seq<Expr>): (r: seq<Expr>)
    ensures |r| == |params|
    ensures forall i :: 0 <= i < |params| ==> r[i] == Product(Pi, params[i])
  {
    seq(|params|, i requires 0 <= i < |params| => Product(Pi, params[i]))
  }

  /** `q.index[0]` for each argument. */
  function Indices(args: seq<Unit>): (r: seq<nat>)
    ensures |r| == |args|
    ensures forall i :: 0 <= i < |args| ==> r[i] == args[i].index
  {
    seq(|args|, i requires 0 <= i < |args| => args[i].index)
  }

  /** The free symbols of a parameter list, parameter by parameter, each
      in its own first-occurrence order. */
  function ParamSymbols(params: seq<Expr>): (r: seq<string>)
    ensures forall x :: x in r <==> exists i :: 0 <= i < |params| && x in FreeSymbols(params[i])
    decreases |params|
  {
    if |params| == 0 then []
    else
      var rest := ParamSymbols(params[1..]);
      assert forall i :: 1 <= i < |params| ==> params[i] == params[1..][i - 1];
      SymbolOrder(params[0]) + rest
  }

  /** `add_parameter(name, "float")` for each name in turn. */
  function RegisterNames(c: Context, xs: seq<string>): (r: Context)
    ensures forall x :: Lookup(r.inputParameters, x) == if x in xs then Some("float") else Lookup(c.inputParameters, x)
    ensures KeysDistinct(c.inputParameters) ==> KeysDistinct(r.inputParameters)
    ensures r.(inputParameters := c.inputParameters) == c
    decreases |xs|
  {
    if |xs| == 0 then c
    else RegisterNames(AddParameter(c, xs[0], "float"), xs[1..])
  }

  /** The state the walk threads through: the context and the measured
      units. */
  datatype Walk = Walk(ctx: Context, measured: set<Unit>)

  /** Some argument of the command has already been measured. */
  predicate TouchesMeasured(measured: set<Unit>, args: seq<Unit>) {
    exists i :: 0 <= i < |args| && args[i] in measured
  }

  predicate HasFreeSymbols(params: seq<Expr>) {
    exists i :: 0 <= i < |params| && FreeSymbols(params[i]) != {}
  }

  /** One operation that is not a box: a measurement records the qubit and
      bit indices and marks the qubit unit as measured; any other
      operation needs a name, registers its free symbols as float inputs
      and adds a gate.  The older context has no `add_parameter`, so there
      a gate with a free symbol is an AttributeError. */
  function VisitOp(v: Version, names: Names, st: Walk, kind: string, params: seq<Expr>, args: seq<Unit>): (r: Result<Walk, PyException>)
    ensures r.Success? ==> r.value.ctx.numBits == st.ctx.numBits
    ensures r.Failure? ==> r.error in {ValueError, IndexError, AttributeError}
    ensures r.Failure? && r.error == AttributeError ==> v.Older?
    ensures kind == MeasureOp ==> (r.Success? <==> |args| >= 2)
    ensures kind == MeasureOp && r.Success? ==>
      r.value == Walk(AddMeasurement(st.ctx, args[0].index, args[1].index), st.measured + {args[0]})
    ensures kind != MeasureOp ==>
      (r.Success? <==> GateName(names, kind).Some? && (v.Older? ==> !HasFreeSymbols(params)))
    ensures kind != MeasureOp && r.Success? ==>
      && r.value.measured == st.measured
      && r.value.ctx.gates == st.ctx.gates + [QasmGate(GateName(names, kind).value, Scaled(params), Indices(args))]
      && r.value.ctx.measurements == st.ctx.measurements
  {
    if kind == MeasureOp then
      if |args| < 2 then Failure(IndexError)
      else Success(Walk(AddMeasurement(st.ctx, args[0].index, args[1].index), st.measured + {args[0]}))
    else
      match GateName(names, kind)
      case None => Failure(ValueError)
      case Some(name) =>
        if v.Older? && HasFreeSymbols(params) then Failure(AttributeError)
        else
          var c := RegisterNames(st.ctx, ParamSymbols(params));
          Success(Walk(AddGate(c, name, Scaled(params), Indices(args)), st.measured))
  }

  /** The walk over a command list: each command's arguments are checked
      against the measured units first; a box is walked command by command
      with the same state; the first error ends the walk. */
  function Visit(v: Version, names: Names, st: Walk, cmds: seq<Command>): (r: Result<Walk, PyException>)
    ensures r.Success? ==> r.value.ctx.numBits == st.ctx.numBits
    ensures r.Success? ==> st.measured <= r.value.measured
    ensures r.Failure? ==> r.error in {ValueError, IndexError, AttributeError}
    ensures r.Failure? && r.error == AttributeError ==> v.Older?
    decreases cmds
  {
    if |cmds| == 0 then Success(st)
    else
      var c := cmds[0];
      var next :=
        if TouchesMeasured(st.measured, c.Args()) then Failure(ValueError)
        else match c
          case Box(_, body) => Visit(v, names, st, body)
          case Op(kind, params, args) => VisitOp(v, names, st, kind, params, args);
      match next
      case Failure(e) => Failure(e)
      case Success(st') => Visit(v, names, st', cmds[1..])
  }

  /** The state a walk has reached when it stops: the final state of a
      walk that succeeds, and otherwise the state in front of the command
      that raises.  Every check of a gate or measurement comes before its
      first change to the context, so only a box can fail part-way, after
      its earlier commands have been added. */
  function Reached(v: Version, names: Names, st: Walk, cmds: seq<Command>): (r: Walk)
    ensures Visit(v, names, st, cmds).Success? ==> r == Visit(v, names, st, cmds).value
    ensures r.ctx.numBits == st.ctx.numBits
    decreases cmds
  {
    if |cmds| == 0 then st
    else
      var c := cmds[0];
      if TouchesMeasured(st.measured, c.Args()) then st
      else
        var next := match c
          case Box(_, body) => Visit(v, names, st, body)
          case Op(kind, params, args) => VisitOp(v, names, st, kind, params, args);
        match next
        case Success(st') => Reached(v, names, st', cmds[1..])
        case Failure(_) =>
          match c
          case Box(_, body) => Reached(v, names, st, body)
          case Op(_, _, _) => st
  }

  /** Continues a walk with more commands, unless it has already failed. */
  function Then(v: Version, names: Names, r: Result<Walk, PyException>, cmds: seq<Command>): Result<Walk, PyException> {
    match r
    case Failure(e) => Failure(e)
    case Success(st) => Visit(v, names, st, cmds)
  }

  /** Walking two lists one after the other is walking their
      concatenation. */
  lemma {:induction false} VisitAppend(v: Version, names: Names, st: Walk, a: seq<Command>, b: seq<Command>)
    ensures Visit(v, names, st, a + b) == Then(v, names, Visit(v, names, st, a), b)
    decreases |a|
  {
    if |a| == 0 {
      assert a + b == b;
    } else {
      assert (a + b)[0] == a[0];
      assert (a + b)[1..] == a[1..] + b;
      var c := a[0];
      var next :=
        if TouchesMeasured(st.measured, c.Args()) then Failure(ValueError)
        else match c
          case Box(_, body) => Visit(v, names, st, body)
          case Op(kind, params, args) => VisitOp(v, names, st, kind, params, args);
      match next
      case Failure(e) =>
      case Success(st') =>
        VisitAppend(v, names, st', a[1..], b);
    }
  }

  // ---------------------------------------------------------------------
  // Flattening boxes
  // ---------------------------------------------------------------------

  /** The command list with every box replaced, recursively, by its
      sub-circuit's commands. */
  function Flatten(cmds: seq<Command>): (r: seq<Command>)
    ensures forall i :: 0 <= i < |r| ==> r[i].Op?
    decreases cmds
  {
    if |cmds| == 0 then []
    else
      var rest := Flatten(cmds[1..]);
      match cmds[0]
      case Box(_, body) => Flatten(body) + rest
      case Op(_, _, _) => [cmds[0]] + rest
  }

  /** A walk that succeeds is the walk of the flattened list: boxes add
      nothing but the check of their own arguments. */
  lemma {:induction false} VisitFlattened(v: Version, names: Names, st: Walk, cmds: seq<Command>)
    requires Visit(v, names, st, cmds).Success?
    ensures Visit(v, names, st, Flatten(cmds)) == Visit(v, names, st, cmds)
    decreases cmds
  {
    if |cmds| > 0 {
      var rest := cmds[1..];
      match cmds[0]
      case Box(_, body) =>
        var st1 := Visit(v, names, st, body).value;
        VisitFlattened(v, names, st, body);
        VisitFlattened(v, names, st1, rest);
        VisitAppend(v, names, st, Flatten(body), Flatten(rest));
      case Op(kind, params, args) =>
        var st1 := VisitOp(v, names, st, kind, params, args).value;
        VisitFlattened(v, names, st1, rest);
        VisitAppend(v, names, st, [cmds[0]], Flatten(rest));
        assert [cmds[0]][1..] == [];
    }
  }

  // ---------------------------------------------------------------------
  // What a walk over a box-free list accepts and produces
  // ---------------------------------------------------------------------

  /** The unit a well-formed measurement marks as measured. */
  function MeasuredBy(c: Command): (r: set<Unit>)
    ensures |r| <= 1
  {
    if c.Op? && c.kind == MeasureOp && |c.args| >= 2 then {c.args[0]} else {}
  }

  /** None of the command's arguments is in `units`. */
  predicate Untouched(units: set<Unit>, c: Command) {
    forall i :: 0 <= i < |c.Args()| ==> c.Args()[i] !in units
  }

  /** No command touches a unit measured before the walk or by an earlier
      command. */
  ghost predicate NoUseAfterMeasure(measured: set<Unit>, cmds: seq<Command>) {
    && (forall j :: 0 <= j < |cmds| ==> Untouched(measured, cmds[j]))
    && (forall i, j :: 0 <= i < j < |cmds| ==> Untouched(MeasuredBy(cmds[i]), cmds[j]))
  }

  /** A single operation the visitor can translate on its own. */
  predicate Translatable(v: Version, names: Names, c: Command) {
    && c.Op?
    && if c.kind == MeasureOp then |c.args| >= 2
       else GateName(names, c.kind).Some? && (v.Older? ==> !HasFreeSymbols(c.params))
  }

  lemma NoUseAfterMeasureStep(measured: set<Unit>, cmds: seq<Command>)
    requires |cmds| > 0
    ensures NoUseAfterMeasure(measured, cmds) <==>
      Untouched(measured, cmds[0]) && NoUseAfterMeasure(measured + MeasuredBy(cmds[0]), cmds[1..])
  {
    var rest := cmds[1..];
    assert forall j :: 1 <= j < |cmds| ==> cmds[j] == rest[j - 1];
    if Untouched(measured, cmds[0]) && NoUseAfterMeasure(measured + MeasuredBy(cmds[0]), rest) {
      forall j | 0 <= j < |cmds| ensures Untouched(measured, cmds[j]) {
        if j > 0 {
          assert Untouched(measured + MeasuredBy(cmds[0]), rest[j - 1]);
        }
      }
      forall i, j | 0 <= i < j < |cmds| ensures Untouched(MeasuredBy(cmds[i]), cmds[j]) {
        if i == 0 {
          assert Untouched(measured + MeasuredBy(cmds[0]), rest[j - 1]);
        } else {
          assert Untouched(MeasuredBy(rest[i - 1]), rest[j - 1]);
        }
      }
    }
    if NoUseAfterMeasure(measured, cmds) {
      forall j | 0 <= j < |rest| ensures Untouched(measured + MeasuredBy(cmds[0]), rest[j]) {
        assert Untouched(measured, cmds[j + 1]);
        assert Untouched(MeasuredBy(cmds[0]), cmds[j + 1]);
      }
      forall i, j | 0 <= i < j < |rest| ensures Untouched(MeasuredBy(rest[i]), rest[j]) {
        assert Untouched(MeasuredBy(cmds[i + 1]), cmds[j + 1]);
      }
    }
  }

  /** On a box-free list the walk succeeds exactly when every command is
      translatable and no command touches a qubit after its measurement. */
  lemma {:induction false} VisitAccepts(v: Version, names: Names, st: Walk, cmds: seq<Command>)
    requires forall i :: 0 <= i < |cmds| ==> cmds[i].Op?
    ensures Visit(v, names, st, cmds).Success? <==>
      && NoUseAfterMeasure(st.measured, cmds)
      && forall i :: 0 <= i < |cmds| ==> Translatable(v, names, cmds[i])
    decreases |cmds|
  {
    if |cmds| > 0 {
      var c := cmds[0];
      var rest := cmds[1..];
      assert forall j :: 1 <= j < |cmds| ==> cmds[j] == rest[j - 1];
      NoUseAfterMeasureStep(st.measured, cmds);
      assert TouchesMeasured(st.measured, c.Args()) <==> !Untouched(st.measured, c);
      var next := VisitOp(v, names, st, c.kind, c.params, c.args);
      if next.Success? {
        assert next.value.measured == st.measured + MeasuredBy(c);
        VisitAccepts(v, names, next.value, rest);
      }
    }
  }

  /** The gate each operation contributes, in order. */
  function Emitted(names: Names, cmds: seq<Command>): seq<QasmGate>
    decreases |cmds|
  {
    if |cmds| == 0 then []
    else
      var c := cmds[0];
      var here :=
        if c.Op? && c.kind != MeasureOp && GateName(names, c.kind).Some?
        then [QasmGate(GateName(names, c.kind).value, Scaled(c.params), Indices(c.args))]
        else [];
      here + Emitted(names, cmds[1..])
  }

  /** The measurement each well-formed measure contributes, in order. */
  function MeasurementsOf(cmds: seq<Command>): seq<Measurement>
    decreases |cmds|
  {
    if |cmds| == 0 then []
    else
      var c := cmds[0];
      var here :=
        if c.Op? && c.kind == MeasureOp && |c.args| >= 2
        then [Measurement(c.args[0].index, BitName(c.args[1].index))]
        else [];
      here + MeasurementsOf(cmds[1..])
  }

  /** The free symbols a command's angles declare: none for a measurement. */
  function Declares(c: Command): set<string> {
    if c.Op? && c.kind != MeasureOp then set x | x in ParamSymbols(c.params) else {}
  }

  /** The free symbols of every gate's parameters. */
  ghost function SymbolsOf(cmds: seq<Command>): set<string> {
    set i, x | 0 <= i < |cmds| && x in Declares(cmds[i]) :: x
  }

  lemma SymbolsOfStep(cmds: seq<Command>)
    requires |cmds| > 0
    ensures SymbolsOf(cmds) == Declares(cmds[0]) + SymbolsOf(cmds[1..])
  {
    var rest := cmds[1..];
    forall x | x in SymbolsOf(cmds) ensures x in Declares(cmds[0]) + SymbolsOf(rest) {
      var i :| 0 <= i < |cmds| && x in Declares(cmds[i]);
      if i > 0 {
        assert rest[i - 1] == cmds[i];
      }
    }
    forall x | x in SymbolsOf(rest) ensures x in SymbolsOf(cmds) {
      var i :| 0 <= i < |rest| && x in Declares(rest[i]);
      assert cmds[i + 1] == rest[i];
    }
  }

  /** A walk that starts with an operation and succeeds took that
      operation's step and then walked the rest. */
  lemma VisitFirstOp(v: Version, names: Names, st: Walk, cmds: seq<Command>)
    requires |cmds| > 0 && cmds[0].Op?
    requires Visit(v, names, st, cmds).Success?
    ensures var c := cmds[0];
      && !TouchesMeasured(st.measured, c.Args())
      && VisitOp(v, names, st, c.kind, c.params, c.args).Success?
      && Visit(v, names, st, cmds) == Visit(v, names, VisitOp(v, names, st, c.kind, c.params, c.args).value, cmds[1..])
  {
  }

  /** The first command's own contribution to the gates and measurements. */
  lemma EmittedStep(names: Names, cmds: seq<Command>)
    requires |cmds| > 0 && cmds[0].Op?
    ensures var c := cmds[0];
      && (c.kind == MeasureOp ==> Emitted(names, cmds) == Emitted(names, cmds[1..]))
      && (c.kind != MeasureOp && GateName(names, c.kind).Some? ==>
            Emitted(names, cmds) == [QasmGate(GateName(names, c.kind).value, Scaled(c.params), Indices(c.args))] + Emitted(names, cmds[1..]))
      && (c.kind == MeasureOp && |c.args| >= 2 ==>
            MeasurementsOf(cmds) == [Measurement(c.args[0].index, BitName(c.args[1].index))] + MeasurementsOf(cmds[1..]))
      && (c.kind != MeasureOp ==> MeasurementsOf(cmds) == MeasurementsOf(cmds[1..]))
  {
  }

  /** The commands after the first of a box-free list are box-free. */
  lemma RestIsOps(cmds: seq<Command>)
    requires |cmds| > 0
    requires forall i :: 0 <= i < |cmds| ==> cmds[i].Op?
    ensures forall j :: 0 <= j < |cmds| - 1 ==> cmds[1..][j].Op?
  {
    forall j | 0 <= j < |cmds| - 1 ensures cmds[1..][j].Op? {
      assert cmds[1..][j] == cmds[j + 1];
    }
  }

  /** The first command's step adds exactly its own gate to the gates. */
  lemma {:induction false} GatesStep(v: Version, names: Names, st: Walk, cmds: seq<Command>)
    requires |cmds| > 0 && cmds[0].Op?
    requires VisitOp(v, names, st, cmds[0].kind, cmds[0].params, cmds[0].args).Success?
    ensures var c := cmds[0];
      VisitOp(v, names, st, c.kind, c.params, c.args).value.ctx.gates + Emitted(names, cmds[1..])
        == st.ctx.gates + Emitted(names, cmds)
  {
    var c := cmds[0];
    EmittedStep(names, cmds);
    if c.kind != MeasureOp {
      var g := QasmGate(GateName(names, c.kind).value, Scaled(c.params), Indices(c.args));
      assert st.ctx.gates + [g] + Emitted(names, cmds[1..]) == st.ctx.gates + ([g] + Emitted(names, cmds[1..]));
    }
  }

  /** The first command's step adds exactly its own measurement. */
  lemma {:induction false} MeasurementsStep(v: Version, names: Names, st: Walk, cmds: seq<Command>)
    requires |cmds| > 0 && cmds[0].Op?
    requires VisitOp(v, names, st, cmds[0].kind, cmds[0].params, cmds[0].args).Success?
    ensures var c := cmds[0];
      VisitOp(v, names, st, c.kind, c.params, c.args).value.ctx.measurements + MeasurementsOf(cmds[1..])
        == st.ctx.measurements + MeasurementsOf(cmds)
  {
    if cmds[0].kind == MeasureOp {
      MeasureStep(v, names, st, cmds);
    } else {
      GateStepMeasurements(v, names, st, cmds);
    }
  }

  lemma {:induction false} MeasureStep(v: Version, names: Names, st: Walk, cmds: seq<Command>)
    requires |cmds| > 0 && cmds[0].Op? && cmds[0].kind == MeasureOp
    requires VisitOp(v, names, st, cmds[0].kind, cmds[0].params, cmds[0].args).Success?
    ensures var c := cmds[0];
      VisitOp(v, names, st, c.kind, c.params, c.args).value.ctx.measurements + MeasurementsOf(cmds[1..])
        == st.ctx.measurements + MeasurementsOf(cmds)
  {
    var c := cmds[0];
    var rest := MeasurementsOf(cmds[1..]);
    var m := Measurement(c.args[0].index, BitName(c.args[1].index));
    assert MeasurementsOf(cmds) == [m] + rest;
    assert st.ctx.measurements + [m] + rest == st.ctx.measurements + ([m] + rest);
  }

  lemma {:induction false} GateStepMeasurements(v: Version, names: Names, st: Walk, cmds: seq<Command>)
    requires |cmds| > 0 && cmds[0].Op? && cmds[0].kind != MeasureOp
    requires VisitOp(v, names, st, cmds[0].kind, cmds[0].params, cmds[0].args).Success?
    ensures var c := cmds[0];
      VisitOp(v, names, st, c.kind, c.params, c.args).value.ctx.measurements + MeasurementsOf(cmds[1..])
        == st.ctx.measurements + MeasurementsOf(cmds)
  {
    assert MeasurementsOf(cmds) == MeasurementsOf(cmds[1..]);
  }

  /** A successful walk over a box-free list appends the gates in command
      order. */
  lemma {:induction false} VisitEmitsGates(v: Version, names: Names, st: Walk, cmds: seq<Command>)
    requires forall i :: 0 <= i < |cmds| ==> cmds[i].Op?
    requires Visit(v, names, st, cmds).Success?
    ensures Visit(v, names, st, cmds).value.ctx.gates == st.ctx.gates + Emitted(names, cmds)
    decreases |cmds|
  {
    if |cmds| > 0 {
      var c := cmds[0];
      RestIsOps(cmds);
      VisitFirstOp(v, names, st, cmds);
      var st1 := VisitOp(v, names, st, c.kind, c.params, c.args).value;
      VisitEmitsGates(v, names, st1, cmds[1..]);
      GatesStep(v, names, st, cmds);
    }
  }

  /** A successful walk over a box-free list appends the measurements in
      command order. */
  lemma {:induction false} VisitRecordsMeasurements(v: Version, names: Names, st: Walk, cmds: seq<Command>)
    requires forall i :: 0 <= i < |cmds| ==> cmds[i].Op?
    requires Visit(v, names, st, cmds).Success?
    ensures Visit(v, names, st, cmds).value.ctx.measurements == st.ctx.measurements + MeasurementsOf(cmds)
    decreases |cmds|
  {
    if |cmds| > 0 {
      var c := cmds[0];
      RestIsOps(cmds);
      VisitFirstOp(v, names, st, cmds);
      var st1 := VisitOp(v, names, st, c.kind, c.params, c.args).value;
      VisitRecordsMeasurements(v, names, st1, cmds[1..]);
      MeasurementsStep(v, names, st, cmds);
    }
  }

  /** A successful walk over a box-free list declares every free symbol of
      a gate angle as a float input, once, since the dict keeps its keys
      distinct, and leaves every other parameter as it was. */
  lemma {:induction false} VisitDeclares(v: Version, names: Names, st: Walk, cmds: seq<Command>)
    requires forall i :: 0 <= i < |cmds| ==> cmds[i].Op?
    requires Visit(v, names, st, cmds).Success?
    ensures var out := Visit(v, names, st, cmds).value.ctx;
      && (forall x :: Lookup(out.inputParameters, x) ==
            if x in SymbolsOf(cmds) then Some("float") else Lookup(st.ctx.inputParameters, x))
      && (KeysDistinct(st.ctx.inputParameters) ==> KeysDistinct(out.inputParameters))
    decreases |cmds|
  {
    if |cmds| > 0 {
      var c := cmds[0];
      var rest := cmds[1..];
      assert forall j :: 1 <= j < |rest| + 1 ==> cmds[j] == rest[j - 1];
      var st1 := VisitOp(v, names, st, c.kind, c.params, c.args).value;
      VisitDeclares(v, names, st1, rest);
      SymbolsOfStep(cmds);
      assert forall x :: Lookup(st1.ctx.inputParameters, x) == (if x in Declares(c) then Some("float") else Lookup(st.ctx.inputParameters, x));
    }
  }

  /** The older visitor translates exactly the circuits the current one
      does, as long as no gate angle has a free symbol. */
  lemma {:induction false} OlderAgreesWithoutSymbols(names: Names, st: Walk, cmds: seq<Command>)
    requires forall i :: 0 <= i < |cmds| ==> cmds[i].Op? && !HasFreeSymbols(cmds[i].params)
    ensures Visit(Older, names, st, cmds) == Visit(Current, names, st, cmds)
    decreases |cmds|
  {
    if |cmds| > 0 {
      var c := cmds[0];
      var rest := cmds[1..];
      assert forall j :: 1 <= j < |cmds| ==> cmds[j] == rest[j - 1];
      var next := VisitOp(Current, names, st, c.kind, c.params, c.args);
      assert VisitOp(Older, names, st, c.kind, c.params, c.args) == next;
      if next.Success? {
        OlderAgreesWithoutSymbols(names, next.value, rest);
      }
    }
  }

  // ---------------------------------------------------------------------
  // tket_to_qasm3
  // ---------------------------------------------------------------------

  /** `walk_circuit` on a context: the register width is the circuit's bit
      count, and nothing is measured yet. */
  function WalkCircuit(v: Version, names: Names, c: Context, circ: Circuit): (r: Result<Walk, PyException>)
    ensures r.Success? ==> r.value.ctx.numBits == |circ.bits|
  {
    Visit(v, names, Walk(SetNumBits(c, |circ.bits|), {}), circ.commands)
  }

  /** `tket_to_qasm3` with a fresh parameter dict per call when none is
      given: the program text, or the walk's error. */
  function TketToQasm3(render: Expr -> string, circ: Circuit, inputParameters: Option<Params>, names: Names): (r: Result<string, PyException>)
    ensures r.Success? ==> Header <= r.value
    ensures r.Failure? ==> r.error in {ValueError, IndexError}
    ensures r.Success? <==> WalkCircuit(Current, names, NewContext(if inputParameters.Some? then inputParameters.value else []), circ).Success?
  {
    var params := if inputParameters.Some? then inputParameters.value else [];
    match WalkCircuit(Current, names, NewContext(params), circ)
    case Failure(e) => Failure(e)
    case Success(st) => Success(Program(render, st.ctx))
  }

  /** The circuit with no bits and no commands becomes the header alone. */
  lemma EmptyCircuit(render: Expr -> string, qubits: seq<Unit>, phase: Expr, names: Names)
    ensures TketToQasm3(render, Circuit(qubits, [], phase, []), None, names) == Success(Header)
  {
    EmptyProgram(render);
  }

  /** One call as written: with no dict given, the parameters go into the
      one dict shared by every such call, which the call leaves changed, also
      when the walk raises part-way. */
  datatype Call = Call(output: Result<string, PyException>, shared: Params)

  function TketToQasm3AsWritten(render: Expr -> string, circ: Circuit, inputParameters: Option<Params>, shared: Params, names: Names): (r: Call)
    ensures inputParameters.Some? ==> r.shared == shared
    ensures inputParameters.Some? ==> r.output == TketToQasm3(render, circ, inputParameters, names)
    ensures inputParameters.None? ==> r.output == TketToQasm3(render, circ, Some(shared), names)
    ensures inputParameters.None? && r.output.Success? ==>
      r.shared == WalkCircuit(Current, names, NewContext(shared), circ).value.ctx.inputParameters
  {
    var params := if inputParameters.Some? then inputParameters.value else shared;
    var start := Walk(SetNumBits(NewContext(params), |circ.bits|), {});
    var left := if inputParameters.Some? then shared else Reached(Current, names, start, circ.commands).ctx.inputParameters;
    match WalkCircuit(Current, names, NewContext(params), circ)
    case Failure(e) => Call(Failure(e), left)
    case Success(st) => Call(Success(Program(render, st.ctx)), left)
  }

  /** The first of the calls below leaves `theta` in the shared dict. */
  lemma FirstCallDeclaresTheta(render: Expr -> string)
    ensures var names := Names(map["Rx" := "rx"], map[]);
      var q := DefaultQubit(0);
      TketToQasm3AsWritten(render, Circuit([q], [], Const(0.0), [Op("Rx", [Symbol("theta")], [q])]), None, [], names).shared
        == [("theta", "float")]
  {
    var names := Names(map["Rx" := "rx"], map[]);
    var q := DefaultQubit(0);
    var gate := Op("Rx", [Symbol("theta")], [q]);
    var st0 := Walk(SetNumBits(NewContext([]), 0), {});
    assert ParamSymbols([Symbol("theta")]) == ["theta"];
    var ctx1 := RegisterNames(st0.ctx, ["theta"]);
    assert ctx1.inputParameters == [("theta", "float")] by {
      assert RegisterNames(st0.ctx, ["theta"]) == RegisterNames(AddParameter(st0.ctx, "theta", "float"), []);
    }
    var st1 := Walk(AddGate(ctx1, "rx", Scaled([Symbol("theta")]), Indices([q])), {});
    assert VisitOp(Current, names, st0, "Rx", [Symbol("theta")], [q]) == Success(st1);
    assert !TouchesMeasured(st0.measured, gate.Args());
    assert Visit(Current, names, st0, [gate]) == Visit(Current, names, st1, [gate][1..]);
    assert [gate][1..] == [];
  }

  /** A call that raises still leaves the symbols of the gates before the
      failing command in the shared dict: `Rx(theta)` on qubit 0, a
      measurement of qubit 0, then a gate on the measured qubit. */
  lemma FailingCallDeclaresTheta(render: Expr -> string)
    ensures var names := Names(map["Rx" := "rx"], map[]);
      var q, b := DefaultQubit(0), DefaultBit(0);
      var circ := Circuit([q], [b], Const(0.0),
        [Op("Rx", [Symbol("theta")], [q]), Op(MeasureOp, [], [q, b]), Op("Rx", [Const(0.0)], [q])]);
      var call := TketToQasm3AsWritten(render, circ, None, [], names);
      call.output == Failure(ValueError) && call.shared == [("theta", "float")]
  {
    var names := Names(map["Rx" := "rx"], map[]);
    var q, b := DefaultQubit(0), DefaultBit(0);
    var g1, m, g2 := Op("Rx", [Symbol("theta")], [q]), Op(MeasureOp, [], [q, b]), Op("Rx", [Const(0.0)], [q]);
    var cmds := [g1, m, g2];
    var st0 := Walk(SetNumBits(NewContext([]), 1), {});
    assert ParamSymbols([Symbol("theta")]) == ["theta"];
    var ctx1 := RegisterNames(st0.ctx, ["theta"]);
    assert ctx1.inputParameters == [("theta", "float")] by {
      assert RegisterNames(st0.ctx, ["theta"]) == RegisterNames(AddParameter(st0.ctx, "theta", "float"), []);
    }
    var st1 := Walk(AddGate(ctx1, "rx", Scaled([Symbol("theta")]), Indices([q])), {});
    assert VisitOp(Current, names, st0, "Rx", [Symbol("theta")], [q]) == Success(st1);
    assert !TouchesMeasured(st0.measured, g1.Args());
    var st2 := Walk(AddMeasurement(st1.ctx, 0, 0), {q});
    assert st1.measured + {[q, b][0]} == {q};
    assert VisitOp(Current, names, st1, MeasureOp, [], [q, b]) == Success(st2);
    assert !TouchesMeasured(st1.measured, m.Args());
    assert TouchesMeasured(st2.measured, g2.Args()) by { assert g2.Args()[0] in st2.measured; }
    assert cmds[1..] == [m, g2] && cmds[1..][1..] == [g2];
    assert Visit(Current, names, st0, cmds) == Visit(Current, names, st1, [m, g2]);
    assert Visit(Current, names, st1, [m, g2]) == Visit(Current, names, st2, [g2]);
    assert Reached(Current, names, st0, cmds) == Reached(Current, names, st1, [m, g2]);
    assert Reached(Current, names, st1, [m, g2]) == Reached(Current, names, st2, [g2]);
  }

  /** A call on the empty circuit with `theta` already in the shared dict
      declares it. */
  lemma EmptyCircuitWithTheta(render: Expr -> string, names: Names)
    ensures TketToQasm3AsWritten(render, Circuit([], [], Const(0.0), []), None, [("theta", "float")], names).output
      == Success(Header + "input float theta;\n")
  {
    var shared := [("theta", "float")];
    var empty := Circuit([], [], Const(0.0), []);
    var st := Walk(SetNumBits(NewContext(shared), 0), {});
    assert WalkCircuit(Current, names, NewContext(shared), empty) == Success(st);
    assert InputDeclarations(shared) == InputDeclarations([]) + InputDeclaration(("theta", "float"));
    assert Measurements([]) == "";
    assert Body(render, []) == "";
    assert BitDeclaration(st.ctx) == "";
    assert InputDeclaration(("theta", "float")) == "input float theta;\n";
    assert Program(render, st.ctx) == Header + "input float theta;\n";
  }

  /** Two calls without a dict: after a circuit with angle `theta`, the
      empty circuit is written with an `input float theta;` declaration,
      where a fresh dict gives the header alone. */
  lemma SharedDefaultLeaks(render: Expr -> string)
    ensures var names := Names(map["Rx" := "rx"], map[]);
      var q := DefaultQubit(0);
      var first := TketToQasm3AsWritten(render, Circuit([q], [], Const(0.0), [Op("Rx", [Symbol("theta")], [q])]), None, [], names);
      var empty := Circuit([], [], Const(0.0), []);
      && TketToQasm3AsWritten(render, empty, None, first.shared, names).output == Success(Header + "input float theta;\n")
      && TketToQasm3(render, empty, None, names) == Success(Header)
  {
    var names := Names(map["Rx" := "rx"], map[]);
    FirstCallDeclaresTheta(render);
    EmptyCircuitWithTheta(render, names);
    EmptyCircuit(render, [], Const(0.0), names);
  }
}
