/** What the analog (AHS) validators share: the error type, time series,
    and the four time-series helpers (time/value precision, time
    separation, maximum slope).  Each validator is a list of pydantic pre
    root validators that run in order, the first to raise ending
    validation; each is modelled as a chain of `if`s over Outcomes.
    Decimal quantities are exact rationals. */
module AhsFields {
  import opened Wrappers

  /** A field's time series: time points and the values at them. */
  datatype TimeSeries = TimeSeries(times: seq<real>, values: seq<real>)

  /** Every way an AHS validator can reject a program. */
  datatype AhsError =
    | ZeroPrecision(field: string)
    | TimeTooPrecise(field: string, index: nat)
    | ValueTooPrecise(field: string, index: nat)
    | TimesTooClose(field: string, index: nat)
    | ZeroTimeStep(field: string, index: nat)
    | MissingTime(field: string, index: nat)
    | SlopeTooSteep(field: string, index: nat)
    | EndsNotZero(field: string, first: real, last: real)
    | PhaseStartNotZero(first: real)
    | NoSites
    | SiteTooPrecise(index: nat)
    | TooManySites(count: nat, max: nat)
    | RowsTooClose(lower: (real, real), upper: (real, real), distance: real)
    | TooManyFilledSites(filled: int, max: nat)
    | NoLocalCapabilities
    | LocalConstantsMissing
    | TooManyNonzeroPatternValues(count: nat, max: nat)
    | LocalDetuningNotSupported(count: nat)
    | MissingLocalFlag

  /** The exception each error surfaces as: rule violations are ValueErrors
      (pydantic wraps them in a ValidationError); a decimal remainder by a
      zero precision is an InvalidOperation, a zero time step a division by
      zero; comparing with an absent local constant is a TypeError; reading
      an absent key is a KeyError. */
  function Raises(e: AhsError): (x: PyException)
    ensures x == ArithmeticError <==> e.ZeroPrecision?
    ensures x == ZeroDivisionError <==> e.ZeroTimeStep?
    ensures x == IndexError <==> e.MissingTime?
    ensures x == TypeError <==> e.LocalConstantsMissing?
    ensures x == KeyError <==> e.MissingLocalFlag?
    ensures x in {ValueError, ArithmeticError, ZeroDivisionError, IndexError, TypeError, KeyError}
  {
    match e
    case ZeroPrecision(_) => ArithmeticError
    case ZeroTimeStep(_, _) => ZeroDivisionError
    case MissingTime(_, _) => IndexError
    case LocalConstantsMissing => TypeError
    case MissingLocalFlag => KeyError
    case _ => ValueError
  }

  /** The first index below n at which `bad` holds, searching from `from`. */
  function FirstIndex(n: nat, bad: nat -> bool, from: nat): (r: Option<nat>)
    requires from <= n
    ensures r.None? <==> forall i :: from <= i < n ==> !bad(i)
    ensures r.Some? ==> from <= r.value < n && bad(r.value) && forall i :: from <= i < r.value ==> !bad(i)
    decreases n - from
  {
    if from == n then None
    else if bad(from) then Some(from)
    else FirstIndex(n, bad, from + 1)
  }

  // ---------------------------------------------------------------------
  // The time-series helpers
  // ---------------------------------------------------------------------

  /** `Decimal(str(x)) % p == 0`: x is an integer multiple of p.  A zero p
      makes the remainder itself fail, which `CheckPrecision` reports. */
  predicate IsMultipleOf(x: real, p: real) {
    p != 0.0 && (x / p).Floor as real == x / p
  }

  /** Every entry is a multiple of the precision (vacuous for no entries). */
  predicate OnGrid(xs: seq<real>, p: real) {
    forall i :: 0 <= i < |xs| ==> IsMultipleOf(xs[i], p)
  }

  /** The precision helper: the first entry that is not a multiple is
      reported by index; with a zero precision the first remainder fails. */
  function CheckPrecision(xs: seq<real>, p: real, field: string, times: bool): (r: Outcome<AhsError>)
    ensures r.Pass? <==> OnGrid(xs, p)
    ensures r.Fail? && p == 0.0 ==> r.error == ZeroPrecision(field)
    ensures r.Fail? && p != 0.0 ==>
      && (r.error.TimeTooPrecise? || r.error.ValueTooPrecise?) && r.error.field == field
      && r.error.index < |xs| && !IsMultipleOf(xs[r.error.index], p)
      && (forall i :: 0 <= i < r.error.index ==> IsMultipleOf(xs[i], p))
      && (times <==> r.error.TimeTooPrecise?)
  {
    if |xs| == 0 then Pass
    else if p == 0.0 then
      assert !IsMultipleOf(xs[0], p);
      Fail(ZeroPrecision(field))
    else
      var bad := (i: nat) => i < |xs| && !IsMultipleOf(xs[i], p);
      match FirstIndex(|xs|, bad, 0)
      case None =>
        assert OnGrid(xs, p) by {
          forall i | 0 <= i < |xs| ensures IsMultipleOf(xs[i], p) { assert !bad(i); }
        }
        Pass
      case Some(k) =>
        assert bad(k);
        assert forall i :: 0 <= i < k ==> IsMultipleOf(xs[i], p) by {
          forall i | 0 <= i < k ensures IsMultipleOf(xs[i], p) { assert !bad(i); }
        }
        Fail(if times then TimeTooPrecise(field, k) else ValueTooPrecise(field, k))
  }

  /** Consecutive time points are at least `minSep` apart. */
  predicate Separated(ts: seq<real>, minSep: real) {
    forall i :: 0 <= i < |ts| - 1 ==> ts[i + 1] - ts[i] >= minSep
  }

  /** The separation helper: the first pair closer than `minSep` is
      reported by the index of its first point. */
  function CheckSeparation(ts: seq<real>, minSep: real, field: string): (r: Outcome<AhsError>)
    ensures r.Pass? <==> Separated(ts, minSep)
    ensures r.Fail? ==> r.error.TimesTooClose? && r.error.field == field
    ensures r.Fail? ==> r.error.index + 1 < |ts| && ts[r.error.index + 1] - ts[r.error.index] < minSep
  {
    if |ts| < 2 then Pass
    else
      var bad := (i: nat) => i + 1 < |ts| && ts[i + 1] - ts[i] < minSep;
      match FirstIndex(|ts| - 1, bad, 0)
      case None =>
        assert Separated(ts, minSep) by {
          forall i | 0 <= i < |ts| - 1 ensures ts[i + 1] - ts[i] >= minSep { assert !bad(i); }
        }
        Pass
      case Some(i) => Fail(TimesTooClose(field, i))
  }

  /** With a positive minimum separation, passing the separation check makes
      the time points strictly increasing, every pair by at least the
      minimum times their distance in the list. */
  lemma {:induction false} SeparatedSpread(ts: seq<real>, minSep: real, i: nat, j: nat)
    requires Separated(ts, minSep)
    requires i <= j < |ts|
    ensures ts[j] - ts[i] >= (j - i) as real * minSep
    decreases j - i
  {
    if i < j {
      SeparatedSpread(ts, minSep, i, j - 1);
      assert ts[j] - ts[j - 1] >= minSep;
    }
  }

  function Abs(x: real): real {
    if x < 0.0 then -x else x
  }

  /** Step i (from point i to point i + 1) is well defined and its rate of
      change is at most `maxSlope` in absolute value. */
  predicate StepOk(ts: seq<real>, vs: seq<real>, maxSlope: real, i: nat) {
    && i + 1 < |vs| && i + 1 < |ts| && ts[i + 1] != ts[i]
    && Abs((vs[i + 1] - vs[i]) / (ts[i + 1] - ts[i])) <= maxSlope
  }

  /** Whether the slope helper finds a problem at step i. */
  predicate SlopeProblem(ts: seq<real>, vs: seq<real>, maxSlope: real, i: nat) {
    i + 1 < |vs| && !StepOk(ts, vs, maxSlope, i)
  }

  /** Every step of the values is fine. */
  predicate SlopesBounded(ts: seq<real>, vs: seq<real>, maxSlope: real) {
    forall i: nat :: i + 1 < |vs| ==> StepOk(ts, vs, maxSlope, i)
  }

  /** The slope helper walks the values pairwise; a step whose time point is
      missing is an IndexError, a zero time step a division by zero, and a
      rate of change above `maxSlope` a rule violation. */
  function CheckSlope(ts: seq<real>, vs: seq<real>, maxSlope: real, field: string): (r: Outcome<AhsError>)
    ensures r.Pass? <==> SlopesBounded(ts, vs, maxSlope)
    ensures r.Fail? ==> r.error.MissingTime? || r.error.ZeroTimeStep? || r.error.SlopeTooSteep?
    ensures r.Fail? && r.error.ZeroTimeStep? ==> r.error.index + 1 < |ts| && ts[r.error.index + 1] == ts[r.error.index]
    ensures r.Fail? && r.error.SlopeTooSteep? ==>
      && r.error.index + 1 < |ts| && r.error.index + 1 < |vs| && ts[r.error.index + 1] != ts[r.error.index]
      && Abs((vs[r.error.index + 1] - vs[r.error.index]) / (ts[r.error.index + 1] - ts[r.error.index])) > maxSlope
  {
    if |vs| < 2 then Pass
    else
      var bad := (i: nat) => SlopeProblem(ts, vs, maxSlope, i);
      match FirstIndex(|vs| - 1, bad, 0)
      case None =>
        assert SlopesBounded(ts, vs, maxSlope) by {
          forall i: nat | i + 1 < |vs| ensures StepOk(ts, vs, maxSlope, i) { assert !bad(i); }
        }
        Pass
      case Some(i) =>
        if i + 1 >= |ts| then Fail(MissingTime(field, i))
        else if ts[i + 1] == ts[i] then Fail(ZeroTimeStep(field, i))
        else Fail(SlopeTooSteep(field, i))
  }

  /** The separation check guards the slope check: once the times passed a
      positive minimum separation, the slope check never divides by zero. */
  lemma SeparationGuardsSlope(ts: seq<real>, vs: seq<real>, minSep: real, maxSlope: real, field: string)
    requires minSep > 0.0
    requires CheckSeparation(ts, minSep, field).Pass?
    ensures !(CheckSlope(ts, vs, maxSlope, field).Fail? && CheckSlope(ts, vs, maxSlope, field).error.ZeroTimeStep?)
  {
  }

  /** A sequence that starts and ends at zero (vacuous when empty). */
  predicate EndsAtZero(vs: seq<real>) {
    |vs| == 0 || (vs[0] == 0.0 && vs[|vs| - 1] == 0.0)
  }

  function CheckEndsZero(vs: seq<real>, field: string): (r: Outcome<AhsError>)
    ensures r.Pass? <==> EndsAtZero(vs)
    ensures r.Fail? ==> r.error == EndsNotZero(field, vs[0], vs[|vs| - 1])
  {
    if |vs| > 0 && (vs[0] != 0.0 || vs[|vs| - 1] != 0.0) then Fail(EndsNotZero(field, vs[0], vs[|vs| - 1]))
    else Pass
  }

  /** `if times and values:` guards the slope rules. */
  function GuardedSlope(s: TimeSeries, maxSlope: real, field: string): (r: Outcome<AhsError>)
    ensures r.Pass? <==> |s.times| == 0 || |s.values| == 0 || SlopesBounded(s.times, s.values, maxSlope)
  {
    if |s.times| > 0 && |s.values| > 0 then CheckSlope(s.times, s.values, maxSlope, field) else Pass
  }

  /** A positive minimum separation that the times meet leaves the slope
      rule no zero time step to divide by. */
  lemma SeparationNeverDividesByZero(s: TimeSeries, minSep: real, maxSlope: real, field: string)
    ensures minSep > 0.0 && CheckSeparation(s.times, minSep, field).Pass? ==>
      !(GuardedSlope(s, maxSlope, field).Fail? && GuardedSlope(s, maxSlope, field).error.ZeroTimeStep?)
  {
    if minSep > 0.0 && CheckSeparation(s.times, minSep, field).Pass? {
      SeparationGuardsSlope(s.times, s.values, minSep, maxSlope, field);
    }
  }
}
