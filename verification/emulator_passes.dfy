/** Pass orchestration: an emulator holds an ordered list of passes.
    Compiling threads the program through every pass in order; validating
    calls only the validation passes on the unchanged program; `add_pass`
    extends or appends the list.  Program and error types are parameters:
    a pass either validates (returning its input unchanged when it does
    not raise), transforms, or does nothing. */
module EmulatorPasses {
  import opened Wrappers

  datatype Pass<!P, E> =
    | ValidationPass(check: P -> Outcome<E>)
    | TransformPass(transform: P -> Result<P, E>)
    | NoOpPass

  /** Calling a pass is running it.  A validation pass hands back the very
      program it was given once its check passes; the no-op pass is the
      identity. */
  function Call<P, E>(p: Pass<P, E>, x: P): (r: Result<P, E>)
    ensures p.ValidationPass? ==> (r.Success? <==> p.check(x).Pass?)
    ensures p.ValidationPass? && r.Success? ==> r.value == x
    ensures p.ValidationPass? && r.Failure? ==> r.error == p.check(x).error
    ensures p.NoOpPass? ==> r == Success(x)
  {
    match p
    case ValidationPass(check) => (match check(x) case Pass => Success(x) case Fail(e) => Failure(e))
    case TransformPass(transform) => transform(x)
    case NoOpPass => Success(x)
  }

  /** `run_passes`: the program threaded through the passes in list order;
      the first pass to raise ends the run. */
  function RunPasses<P, E>(ps: seq<Pass<P, E>>, x: P): (r: Result<P, E>)
    ensures |ps| == 0 ==> r == Success(x)
    decreases |ps|
  {
    if |ps| == 0 then Success(x)
    else
      match Call(ps[0], x)
      case Failure(e) => Failure(e)
      case Success(y) => RunPasses(ps[1..], y)
  }

  /** Continues a run with more passes, unless it has already failed. */
  function Then<P, E>(r: Result<P, E>, ps: seq<Pass<P, E>>): Result<P, E> {
    match r
    case Failure(e) => Failure(e)
    case Success(y) => RunPasses(ps, y)
  }

  /** Running two lists one after the other is running their
      concatenation. */
  lemma {:induction false} RunPassesAppend<P, E>(a: seq<Pass<P, E>>, b: seq<Pass<P, E>>, x: P)
    ensures RunPasses(a + b, x) == Then(RunPasses(a, x), b)
    decreases |a|
  {
    if |a| == 0 {
      assert a + b == b;
    } else {
      assert (a + b)[0] == a[0];
      assert (a + b)[1..] == a[1..] + b;
      match Call(a[0], x)
      case Failure(e) =>
      case Success(y) =>
        RunPassesAppend(a[1..], b, y);
    }
  }

  /** A no-op pass may be inserted anywhere without changing the run. */
  lemma NoOpAnywhere<P, E>(a: seq<Pass<P, E>>, b: seq<Pass<P, E>>, x: P)
    ensures RunPasses(a + [NoOpPass] + b, x) == RunPasses(a + b, x)
  {
    RunPassesAppend(a, [NoOpPass] + b, x);
    RunPassesAppend(a, b, x);
    assert a + [NoOpPass] + b == a + ([NoOpPass] + b);
    match RunPasses(a, x)
    case Failure(e) =>
    case Success(y) =>
      var c: seq<Pass<P, E>> := [NoOpPass] + b;
      assert c[0] == NoOpPass && c[1..] == b;
  }

  /** `validate`: only the validation passes are called, each on the
      program as given; the first to raise ends validation. */
  function Validate<P, E>(ps: seq<Pass<P, E>>, x: P): (r: Outcome<E>)
    ensures r.Pass? <==> forall i :: 0 <= i < |ps| && ps[i].ValidationPass? ==> ps[i].check(x).Pass?
    ensures r.Fail? ==> exists i ::
      && 0 <= i < |ps| && ps[i].ValidationPass? && ps[i].check(x) == r
      && forall j :: 0 <= j < i && ps[j].ValidationPass? ==> ps[j].check(x).Pass?
    decreases |ps|
  {
    if |ps| == 0 then Pass
    else
      var first := if ps[0].ValidationPass? then ps[0].check(x) else Pass;
      if first.Fail? then first
      else
        var rest := Validate(ps[1..], x);
        assert forall j :: 1 <= j < |ps| ==> ps[j] == ps[1..][j - 1];
        rest
  }

  /** For a list of validation and no-op passes, compiling is validating:
      the program comes back unchanged exactly when validation passes, and
      otherwise with the same error. */
  lemma {:induction false} RunEqualsValidate<P, E>(ps: seq<Pass<P, E>>, x: P)
    requires forall i :: 0 <= i < |ps| ==> !ps[i].TransformPass?
    ensures Validate(ps, x).Pass? ==> RunPasses(ps, x) == Success(x)
    ensures Validate(ps, x).Fail? ==> RunPasses(ps, x) == Failure(Validate(ps, x).error)
    decreases |ps|
  {
    if |ps| > 0 {
      RunEqualsValidate(ps[1..], x);
    }
  }

  // ---------------------------------------------------------------------
  // The emulator object and add_pass
  // ---------------------------------------------------------------------

  datatype Emulator<!P, E> = Emulator(passes: seq<Pass<P, E>>)

  /** The constructor: no list means an empty one. */
  function NewEmulator<P, E>(passes: Option<seq<Pass<P, E>>>): (e: Emulator<P, E>)
    ensures passes.None? ==> e.passes == []
    ensures passes.Some? ==> e.passes == passes.value
  {
    Emulator(if passes.Some? then passes.value else [])
  }

  /** What `add_pass` may be given: an iterable of passes (which may or may
      not be an iterator; a list is not), a single pass, or anything else. */
  datatype PassArg<!P, E> =
    | PassIterable(items: seq<Pass<P, E>>, isIterator: bool)
    | SinglePass(pass: Pass<P, E>)
    | NotAPass

  /** The emulator's list after an `add_pass` call, and what the call
      returns. */
  datatype Added<!P, E> = Added(state: Emulator<P, E>, returned: Option<Emulator<P, E>>)

  /** `add_pass`: any iterable extends the list in order, a single pass is
      appended, anything else is a TypeError; the call returns the updated
      emulator itself, so calls chain. */
  function AddPass<P, E>(e: Emulator<P, E>, arg: PassArg<P, E>): (r: Result<Added<P, E>, PyException>)
    ensures r.Success? <==> !arg.NotAPass?
    ensures r.Failure? ==> r.error == TypeError
    ensures r.Success? ==> r.value.returned == Some(r.value.state)
    ensures r.Success? && arg.PassIterable? ==> r.value.state.passes == e.passes + arg.items
    ensures r.Success? && arg.SinglePass? ==> r.value.state.passes == e.passes + [arg.pass]
  {
    match arg
    case PassIterable(items, _) =>
      var s := Emulator(e.passes + items);
      Success(Added(s, Some(s)))
    case SinglePass(p) =>
      var s := Emulator(e.passes + [p]);
      Success(Added(s, Some(s)))
    case NotAPass => Failure(TypeError)
  }

  /** The older interface's `add_pass`: it extends only for an iterator, so
      a plain list is rejected with a TypeError, and it returns None. */
  function OldAddPass<P, E>(e: Emulator<P, E>, arg: PassArg<P, E>): (r: Result<Added<P, E>, PyException>)
    ensures r.Success? <==> (arg.PassIterable? && arg.isIterator) || arg.SinglePass?
    ensures r.Failure? ==> r.error == TypeError
    ensures r.Success? ==> r.value.returned.None?
    ensures r.Success? && arg.PassIterable? ==> r.value.state.passes == e.passes + arg.items
    ensures r.Success? && arg.SinglePass? ==> r.value.state.passes == e.passes + [arg.pass]
  {
    match arg
    case PassIterable(items, isIterator) =>
      if isIterator then Success(Added(Emulator(e.passes + items), None)) else Failure(TypeError)
    case SinglePass(p) => Success(Added(Emulator(e.passes + [p]), None))
    case NotAPass => Failure(TypeError)
  }

  /** Adding a list of passes and then compiling runs the old passes and
      then the new ones. */
  lemma AddThenRun<P, E>(e: Emulator<P, E>, items: seq<Pass<P, E>>, x: P)
    ensures AddPass(e, PassIterable(items, false)).Success?
    ensures RunPasses(AddPass(e, PassIterable(items, false)).value.state.passes, x)
      == Then(RunPasses(e.passes, x), items)
  {
    RunPassesAppend(e.passes, items, x);
  }

  /** A plain list of passes: the current interface adds it, the older one
      raises a TypeError. */
  lemma OldAddPassRejectsList<P, E>(e: Emulator<P, E>, items: seq<Pass<P, E>>)
    ensures OldAddPass(e, PassIterable(items, false)) == Failure(TypeError)
    ensures AddPass(e, PassIterable(items, false)).Success?
  {
  }
}
