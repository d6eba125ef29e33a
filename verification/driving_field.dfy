/** The device driving-field validator: the global amplitude, phase and
    detuning time series of an AHS program, checked against the device's
    GLOBAL_* constants by twelve failing rules and one warning-only rule. */
module DrivingField {
  import opened Wrappers
  import opened AhsCapabilities
  import opened AhsFields

  datatype DrivingField = DrivingField(amplitude: TimeSeries, phase: TimeSeries, detuning: TimeSeries)

  /** The phase must start at zero (vacuous when it has no values). */
  function CheckPhaseStart(vs: seq<real>): (r: Outcome<AhsError>)
    ensures r.Pass? <==> |vs| == 0 || vs[0] == 0.0
    ensures r.Fail? ==> r.error == PhaseStartNotZero(vs[0]) && vs[0] != 0.0
  {
    if |vs| > 0 && vs[0] != 0.0 then Fail(PhaseStartNotZero(vs[0])) else Pass
  }

  /** The field an error is about, for the errors that name one. */
  function ErrorField(e: AhsError): Option<string> {
    match e
    case ZeroPrecision(field) => Some(field)
    case TimeTooPrecise(field, _) => Some(field)
    case ValueTooPrecise(field, _) => Some(field)
    case TimesTooClose(field, _) => Some(field)
    case ZeroTimeStep(field, _) => Some(field)
    case MissingTime(field, _) => Some(field)
    case SlopeTooSteep(field, _) => Some(field)
    case EndsNotZero(field, _, _) => Some(field)
    case _ => None
  }

  /** The amplitude rules in declared order: start and end at zero, time
      precision, time separation, value precision, slopes. */
  function AmplitudeRules(caps: Constants, a: TimeSeries): (r: Outcome<AhsError>)
    ensures r.Pass? <==> AmplitudeOk(caps, a)
    ensures r.Fail? ==> ErrorField(r.error) == Some("amplitude")
    ensures r.Fail? && r.error.EndsNotZero? ==>
      && |a.values| > 0 && (r.error.first != 0.0 || r.error.last != 0.0)
      && r.error.first == a.values[0] && r.error.last == a.values[|a.values| - 1]
    ensures caps.globalMinTimeSeparation > 0.0 && r.Fail? ==> !r.error.ZeroTimeStep?
    ensures !EndsAtZero(a.values) ==> r == CheckEndsZero(a.values, "amplitude")
    ensures EndsAtZero(a.values) && !OnGrid(a.times, caps.globalTimePrecision) ==>
      r == CheckPrecision(a.times, caps.globalTimePrecision, "amplitude", true)
    ensures (EndsAtZero(a.values) && OnGrid(a.times, caps.globalTimePrecision)
             && !Separated(a.times, caps.globalMinTimeSeparation)) ==>
      r == CheckSeparation(a.times, caps.globalMinTimeSeparation, "amplitude")
    ensures (EndsAtZero(a.values) && OnGrid(a.times, caps.globalTimePrecision)
             && Separated(a.times, caps.globalMinTimeSeparation)) ==>
      r == (if OnGrid(a.values, caps.globalAmplitudeValuePrecision)
            then GuardedSlope(a, caps.globalAmplitudeSlopeMax, "amplitude")
            else CheckPrecision(a.values, caps.globalAmplitudeValuePrecision, "amplitude", false))
  {
    var r1 := CheckEndsZero(a.values, "amplitude");
    var r2 := CheckPrecision(a.times, caps.globalTimePrecision, "amplitude", true);
    var r3 := CheckSeparation(a.times, caps.globalMinTimeSeparation, "amplitude");
    var r4 := CheckPrecision(a.values, caps.globalAmplitudeValuePrecision, "amplitude", false);
    var r5 := GuardedSlope(a, caps.globalAmplitudeSlopeMax, "amplitude");
    // The separation rule runs before the slope rule: a positive minimum
    // separation rules out a zero time step.
    SeparationNeverDividesByZero(a, caps.globalMinTimeSeparation, caps.globalAmplitudeSlopeMax, "amplitude");
    if r1.Fail? then r1
    else if r2.Fail? then r2
    else if r3.Fail? then r3
    else if r4.Fail? then r4
    else r5
  }

  /** The phase rules in declared order: time precision, time separation,
      start at zero, value precision. */
  function PhaseRules(caps: Constants, p: TimeSeries): (r: Outcome<AhsError>)
    ensures r.Pass? <==> PhaseOk(caps, p)
    ensures r.Fail? ==> ErrorField(r.error) == Some("phase") || r.error.PhaseStartNotZero?
    ensures r.Fail? ==>
      r.error.ZeroPrecision? || r.error.TimeTooPrecise? || r.error.TimesTooClose?
      || r.error.PhaseStartNotZero? || r.error.ValueTooPrecise?
    ensures r.Fail? && r.error.PhaseStartNotZero? ==> |p.values| > 0 && r.error.first == p.values[0] != 0.0
    ensures !OnGrid(p.times, caps.globalTimePrecision) ==>
      r == CheckPrecision(p.times, caps.globalTimePrecision, "phase", true)
    ensures OnGrid(p.times, caps.globalTimePrecision) && !Separated(p.times, caps.globalMinTimeSeparation) ==>
      r == CheckSeparation(p.times, caps.globalMinTimeSeparation, "phase")
    ensures OnGrid(p.times, caps.globalTimePrecision) && Separated(p.times, caps.globalMinTimeSeparation) ==>
      r == (if |p.values| == 0 || p.values[0] == 0.0
            then CheckPrecision(p.values, caps.globalPhaseValuePrecision, "phase", false)
            else Fail(PhaseStartNotZero(p.values[0])))
  {
    var r6 := CheckPrecision(p.times, caps.globalTimePrecision, "phase", true);
    var r7 := CheckSeparation(p.times, caps.globalMinTimeSeparation, "phase");
    var r8 := CheckPhaseStart(p.values);
    var r9 := CheckPrecision(p.values, caps.globalPhaseValuePrecision, "phase", false);
    if r6.Fail? then r6
    else if r7.Fail? then r7
    else if r8.Fail? then r8
    else r9
  }

  /** The detuning rules in declared order: time precision, time
      separation, slopes; the detuning has no value-precision rule. */
  function DetuningRules(caps: Constants, d: TimeSeries): (r: Outcome<AhsError>)
    ensures r.Pass? <==> DetuningOk(caps, d)
    ensures r.Fail? ==> ErrorField(r.error) == Some("detuning")
    ensures r.Fail? ==> !r.error.ValueTooPrecise? && !r.error.EndsNotZero?
    ensures caps.globalMinTimeSeparation > 0.0 && r.Fail? ==> !r.error.ZeroTimeStep?
    ensures !OnGrid(d.times, caps.globalTimePrecision) ==>
      r == CheckPrecision(d.times, caps.globalTimePrecision, "detuning", true)
    ensures OnGrid(d.times, caps.globalTimePrecision) ==>
      r == (if Separated(d.times, caps.globalMinTimeSeparation)
            then GuardedSlope(d, caps.globalDetuningSlopeMax, "detuning")
            else CheckSeparation(d.times, caps.globalMinTimeSeparation, "detuning"))
  {
    var r10 := CheckPrecision(d.times, caps.globalTimePrecision, "detuning", true);
    var r11 := CheckSeparation(d.times, caps.globalMinTimeSeparation, "detuning");
    var r12 := GuardedSlope(d, caps.globalDetuningSlopeMax, "detuning");
    SeparationNeverDividesByZero(d, caps.globalMinTimeSeparation, caps.globalDetuningSlopeMax, "detuning");
    if r10.Fail? then r10
    else if r11.Fail? then r11
    else r12
  }

  /** The rules in their declared order: the amplitude's, the phase's, then
      the detuning's.  The phase range rule only warns, so it never ends
      validation and has no place in the chain. */
  function DrivingFieldValidate(caps: Constants, f: DrivingField): (r: Outcome<AhsError>)
    ensures r.Fail? && r.error.EndsNotZero? ==>
      && r.error.field == "amplitude" && |f.amplitude.values| > 0
      && (r.error.first != 0.0 || r.error.last != 0.0)
      && r.error.first == f.amplitude.values[0]
      && r.error.last == f.amplitude.values[|f.amplitude.values| - 1]
    ensures r.Fail? && r.error.PhaseStartNotZero? ==>
      |f.phase.values| > 0 && r.error.first == f.phase.values[0] != 0.0
    ensures r.Fail? && r.error.ValueTooPrecise? ==> r.error.field in {"amplitude", "phase"}
    ensures r.Fail? && (r.error.SlopeTooSteep? || r.error.ZeroTimeStep? || r.error.MissingTime?) ==>
      r.error.field in {"amplitude", "detuning"}
    ensures r.Fail? && r.error.ZeroPrecision? ==> r.error.field in {"amplitude", "phase", "detuning"}
    ensures r.Fail? ==>
      && !r.error.SiteTooPrecise? && !r.error.RowsTooClose?
      && !r.error.NoLocalCapabilities? && !r.error.MissingLocalFlag?
    ensures r.Pass? <==> DrivingFieldOk(caps, f)
    ensures caps.globalMinTimeSeparation > 0.0 && r.Fail? ==> !r.error.ZeroTimeStep?
  {
    var ra := AmplitudeRules(caps, f.amplitude);
    var rp := PhaseRules(caps, f.phase);
    var rd := DetuningRules(caps, f.detuning);
    if ra.Fail? then ra
    else if rp.Fail? then rp
    else rd
  }

  /** The rule groups fire in declared order: the first group the field
      breaks decides the outcome, with that group's own report. */
  lemma DrivingFieldPriority(caps: Constants, f: DrivingField)
    ensures !AmplitudeOk(caps, f.amplitude) ==> DrivingFieldValidate(caps, f) == AmplitudeRules(caps, f.amplitude)
    ensures AmplitudeOk(caps, f.amplitude) && !PhaseOk(caps, f.phase) ==> DrivingFieldValidate(caps, f) == PhaseRules(caps, f.phase)
    ensures AmplitudeOk(caps, f.amplitude) && PhaseOk(caps, f.phase) ==> DrivingFieldValidate(caps, f) == DetuningRules(caps, f.detuning)
  {
  }

  /** What acceptable amplitude, phase and detuning series are, rule by
      rule, in terms of the time-series properties rather than the checks. */
  ghost predicate AmplitudeOk(caps: Constants, a: TimeSeries) {
    && EndsAtZero(a.values)
    && OnGrid(a.times, caps.globalTimePrecision)
    && Separated(a.times, caps.globalMinTimeSeparation)
    && OnGrid(a.values, caps.globalAmplitudeValuePrecision)
    && (|a.times| == 0 || |a.values| == 0 || SlopesBounded(a.times, a.values, caps.globalAmplitudeSlopeMax))
  }

  ghost predicate PhaseOk(caps: Constants, p: TimeSeries) {
    && OnGrid(p.times, caps.globalTimePrecision)
    && Separated(p.times, caps.globalMinTimeSeparation)
    && (|p.values| == 0 || p.values[0] == 0.0)
    && OnGrid(p.values, caps.globalPhaseValuePrecision)
  }

  ghost predicate DetuningOk(caps: Constants, d: TimeSeries) {
    && OnGrid(d.times, caps.globalTimePrecision)
    && Separated(d.times, caps.globalMinTimeSeparation)
    && (|d.times| == 0 || |d.values| == 0 || SlopesBounded(d.times, d.values, caps.globalDetuningSlopeMax))
  }

  ghost predicate DrivingFieldOk(caps: Constants, f: DrivingField) {
    AmplitudeOk(caps, f.amplitude) && PhaseOk(caps, f.phase) && DetuningOk(caps, f.detuning)
  }

  /** The phase range rule only warns: the verdict is the same whatever
      range the device declares. */
  lemma PhaseRangeOnlyWarns(caps: Constants, f: DrivingField, lo: real, hi: real)
    ensures DrivingFieldValidate(caps.(globalPhaseValueMin := lo, globalPhaseValueMax := hi), f)
      == DrivingFieldValidate(caps, f)
  {
  }

  /** A driving field whose three series are all empty meets every rule,
      whatever the device constants. */
  lemma EmptyFieldPasses(caps: Constants)
    ensures var empty := TimeSeries([], []);
      DrivingFieldValidate(caps, DrivingField(empty, empty, empty)) == Pass
  {
  }
}
