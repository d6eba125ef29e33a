/** The Rz-virtualisation pass: Rz rotations are commuted to the end of the
    circuit and dropped.  Each qubit keeps the sum of the Rz angles seen on
    it so far, which is added to the beta angle of every later PhasedX on
    that qubit; barriers, CZ and measurements are copied; any other
    operation is a ValueError.  An accumulator that no Rz has touched is
    the integer 0, written `None` here: adding it changes nothing. */
module VirtualizeRz {
  import opened Wrappers
  import opened Tket

  const AllowedGates: set<string> := {CZOp, RzOp, PhasedXOp, BarrierOp, MeasureOp}

  /** `phase_per_qubit`: the accumulated angle of each qubit that has one. */
  type Phases = map<Unit, Expr>

  function PhaseOf(phases: Phases, q: Unit): Option<Expr> {
    if q in phases then Some(phases[q]) else None
  }

  /** `acc + angle`, where the untouched accumulator is 0. */
  function AddAngle(acc: Option<Expr>, angle: Expr): Expr {
    if acc.None? then angle else Sum(acc.value, angle)
  }

  /** `beta + acc`, where the untouched accumulator is 0. */
  function Shift(beta: Expr, acc: Option<Expr>): (r: Expr)
    ensures acc.None? ==> r == beta
  {
    if acc.None? then beta else Sum(beta, acc.value)
  }

  datatype RzState = RzState(phases: Phases, out: seq<Command>)

  /** The loop body for one command. */
  function Step(s: RzState, c: Command): (r: Result<RzState, PyException>)
    ensures r.Success? <==> Allowed(c)
    ensures r.Failure? ==> r.error in {ValueError, IndexError}
    ensures r.Success? && c.kind == RzOp ==> r.value.out == s.out
    ensures r.Success? && c.kind != RzOp ==> |r.value.out| == |s.out| + 1 && r.value.out[..|s.out|] == s.out
    ensures r.Success? && c.kind != RzOp ==> r.value.phases == s.phases
  {
    match c
    case Box(_, _) => Failure(ValueError)
    case Op(kind, params, args) =>
      if kind == RzOp then
        if |args| == 0 || |params| == 0 then Failure(IndexError)
        else Success(s.(phases := s.phases[args[0] := AddAngle(PhaseOf(s.phases, args[0]), params[0])]))
      else if kind == PhasedXOp then
        if |params| != 2 then Failure(ValueError)
        else if |args| == 0 then Failure(IndexError)
        else Success(s.(out := s.out + [Op(PhasedXOp, [params[0], Shift(params[1], PhaseOf(s.phases, args[0]))], args)]))
      else if kind == BarrierOp then Success(s.(out := s.out + [c]))
      else if kind !in AllowedGates then Failure(ValueError)
      else Success(s.(out := s.out + [c]))
  }

  /** A command the pass accepts: an allowed operation, an Rz with a qubit
      and an angle, a PhasedX with exactly two angles and a qubit. */
  predicate Allowed(c: Command) {
    && c.Op?
    && c.kind in AllowedGates
    && (c.kind == RzOp ==> |c.args| > 0 && |c.params| > 0)
    && (c.kind == PhasedXOp ==> |c.params| == 2 && |c.args| > 0)
  }

  /** The loop over the commands in order; the first error ends it. */
  function Run(cmds: seq<Command>): (r: Result<RzState, PyException>)
    ensures r.Success? <==> forall i :: 0 <= i < |cmds| ==> Allowed(cmds[i])
    ensures r.Success? ==> forall i :: 0 <= i < |r.value.out| ==> r.value.out[i].Op? && r.value.out[i].kind != RzOp
    decreases |cmds|
  {
    if |cmds| == 0 then Success(RzState(map[], []))
    else
      var n := |cmds| - 1;
      var front := cmds[..n];
      assert forall i :: 0 <= i < n ==> front[i] == cmds[i];
      match Run(front)
      case Failure(e) => Failure(e)
      case Success(s) =>
        var r := Step(s, cmds[n]);
        assert r.Success? && cmds[n].kind != RzOp ==> r.value.out == s.out + [r.value.out[|s.out|]];
        r
  }

  /** `_virtualize_rz`: a copy of the circuit's qubits, bits and phase with
      the rewritten commands. */
  function Virtualize(c: Circuit): (r: Result<Circuit, PyException>)
    ensures r.Success? <==> forall i :: 0 <= i < |c.commands| ==> Allowed(c.commands[i])
    ensures r.Success? ==> r.value.qubits == c.qubits && r.value.bits == c.bits && r.value.phase == c.phase
    ensures r.Success? ==> forall i :: 0 <= i < |r.value.commands| ==> r.value.commands[i].Op? && r.value.commands[i].kind != RzOp
    ensures r.Failure? ==> r.error in {ValueError, IndexError}
  {
    match Run(c.commands)
    case Failure(e) =>
      assert exists i :: 0 <= i < |c.commands| && !Allowed(c.commands[i]);
      FirstFailure(c.commands);
      Failure(e)
    case Success(s) => Success(EmptyCopy(c).(commands := s.out))
  }

  /** Every error the loop raises is one of the two its body can raise. */
  lemma {:induction false} FirstFailure(cmds: seq<Command>)
    requires Run(cmds).Failure?
    ensures Run(cmds).error in {ValueError, IndexError}
    decreases |cmds|
  {
    var n := |cmds| - 1;
    if Run(cmds[..n]).Failure? {
      FirstFailure(cmds[..n]);
    }
  }

  // ---------------------------------------------------------------------
  // Reference definitions
  // ---------------------------------------------------------------------

  /** The accumulated Rz angle on `q` after `cmds`: the angles of the Rz
      gates on `q`, added from the left; `None` when there is none. */
  function PhaseAfter(cmds: seq<Command>, q: Unit): Option<Expr>
    decreases |cmds|
  {
    if |cmds| == 0 then None
    else
      var n := |cmds| - 1;
      var prev := PhaseAfter(cmds[..n], q);
      var c := cmds[n];
      if c.Op? && c.kind == RzOp && |c.args| > 0 && |c.params| > 0 && c.args[0] == q
      then Some(AddAngle(prev, c.params[0]))
      else prev
  }

  /** What one non-Rz command becomes given the phase accumulated before
      it: a PhasedX has its phase added to beta, anything else is kept. */
  function Rewrite(c: Command, before: seq<Command>): Command
    requires Allowed(c) && c.kind != RzOp
  {
    if c.kind == PhasedXOp
    then Op(PhasedXOp, [c.params[0], Shift(c.params[1], PhaseAfter(before, c.args[0]))], c.args)
    else c
  }

  /** The expected output: the non-Rz commands in their original order,
      each rewritten with the phase of the commands before it. */
  function Expected(cmds: seq<Command>): seq<Command>
    requires forall i :: 0 <= i < |cmds| ==> Allowed(cmds[i])
    decreases |cmds|
  {
    if |cmds| == 0 then []
    else
      var n := |cmds| - 1;
      var front := cmds[..n];
      assert forall i :: 0 <= i < n ==> front[i] == cmds[i];
      assert Allowed(cmds[n]);
      Expected(front) + (if cmds[n].kind == RzOp then [] else [Rewrite(cmds[n], front)])
  }

  /** The accumulators are exactly the running sums of Rz angles per qubit,
      and the output is the expected one. */
  lemma {:induction false} RunMeaning(cmds: seq<Command>)
    requires forall i :: 0 <= i < |cmds| ==> Allowed(cmds[i])
    ensures forall q :: PhaseOf(Run(cmds).value.phases, q) == PhaseAfter(cmds, q)
    ensures Run(cmds).value.out == Expected(cmds)
    decreases |cmds|
  {
    if |cmds| > 0 {
      var n := |cmds| - 1;
      var front := cmds[..n];
      assert forall i :: 0 <= i < n ==> front[i] == cmds[i];
      RunMeaning(front);
    }
  }

  /** An accumulator starts at 0 and only an Rz on its own qubit changes
      it. */
  lemma {:induction false} PhaseOnlyFromOwnRz(cmds: seq<Command>, q: Unit)
    requires forall i :: 0 <= i < |cmds| ==> !(cmds[i].Op? && cmds[i].kind == RzOp && |cmds[i].args| > 0 && cmds[i].args[0] == q)
    ensures PhaseAfter(cmds, q).None?
    decreases |cmds|
  {
    if |cmds| > 0 {
      var n := |cmds| - 1;
      assert forall i :: 0 <= i < n ==> cmds[..n][i] == cmds[i];
      PhaseOnlyFromOwnRz(cmds[..n], q);
    }
  }

  /** The number of commands that are not Rz gates. */
  function NonRzCount(cmds: seq<Command>): nat
    decreases |cmds|
  {
    if |cmds| == 0 then 0
    else NonRzCount(cmds[..|cmds| - 1]) + (if cmds[|cmds| - 1].Op? && cmds[|cmds| - 1].kind == RzOp then 0 else 1)
  }

  /** Only the Rz gates disappear: every other command has its place in the
      output. */
  lemma {:induction false} OutputLength(cmds: seq<Command>)
    requires forall i :: 0 <= i < |cmds| ==> Allowed(cmds[i])
    ensures |Expected(cmds)| == NonRzCount(cmds)
    decreases |cmds|
  {
    if |cmds| > 0 {
      var n := |cmds| - 1;
      assert forall i :: 0 <= i < n ==> cmds[..n][i] == cmds[i];
      OutputLength(cmds[..n]);
    }
  }

  /** A circuit without Rz gates passes through unchanged. */
  lemma {:induction false} NoRzUnchanged(cmds: seq<Command>)
    requires forall i :: 0 <= i < |cmds| ==> Allowed(cmds[i]) && cmds[i].kind != RzOp
    ensures Run(cmds) == Success(RzState(map[], cmds))
    decreases |cmds|
  {
    if |cmds| > 0 {
      var n := |cmds| - 1;
      var front := cmds[..n];
      assert forall i :: 0 <= i < n ==> front[i] == cmds[i];
      NoRzUnchanged(front);
      var c := cmds[n];
      if c.kind == PhasedXOp {
        assert [c.params[0], c.params[1]] == c.params;
      }
      assert front + [c] == cmds;
    }
  }

  /** The pass is idempotent: its output has no Rz left to fold. */
  lemma VirtualizeIdempotent(c: Circuit)
    requires Virtualize(c).Success?
    ensures Virtualize(Virtualize(c).value) == Virtualize(c)
  {
    var out := Virtualize(c).value;
    RunMeaning(c.commands);
    forall i | 0 <= i < |out.commands| ensures Allowed(out.commands[i]) && out.commands[i].kind != RzOp {
      ExpectedAllowed(c.commands, i);
    }
    NoRzUnchanged(out.commands);
  }

  /** Every command of the expected output is itself accepted. */
  lemma {:induction false} ExpectedAllowed(cmds: seq<Command>, i: nat)
    requires forall j :: 0 <= j < |cmds| ==> Allowed(cmds[j])
    requires i < |Expected(cmds)|
    ensures Allowed(Expected(cmds)[i]) && Expected(cmds)[i].kind != RzOp
    decreases |cmds|
  {
    var n := |cmds| - 1;
    var front := cmds[..n];
    assert forall j :: 0 <= j < n ==> front[j] == cmds[j];
    if i < |Expected(front)| {
      ExpectedAllowed(front, i);
    }
  }
}
