/** The device local-detuning validator: the magnitude time series and the
    per-site pattern of a local detuning, checked against the device's
    LOCAL_* constants.  The rules run in order and the first failure ends
    validation. */
module LocalDetuning {
  import opened Wrappers
  import opened AhsCapabilities
  import opened AhsFields

  datatype LocalDetuning = LocalDetuning(magnitude: TimeSeries, pattern: seq<real>)

  /** `sum([p != 0.0 for p in pattern])`. */
  function NonzeroCount(pattern: seq<real>): (n: nat)
    ensures n <= |pattern|
  {
    if |pattern| == 0 then 0
    else NonzeroCount(pattern[..|pattern| - 1]) + (if pattern[|pattern| - 1] != 0.0 then 1 else 0)
  }

  /** The sites the pattern addresses: the indices of its nonzero entries. */
  ghost function NonzeroSites(pattern: seq<real>): set<nat> {
    set i: nat | i < |pattern| && pattern[i] != 0.0
  }

  /** The count is the number of addressed sites. */
  lemma {:induction false} NonzeroCountIsSites(pattern: seq<real>)
    ensures NonzeroCount(pattern) == |NonzeroSites(pattern)|
  {
    if |pattern| > 0 {
      var n := |pattern| - 1;
      var front := pattern[..n];
      NonzeroCountIsSites(front);
      assert NonzeroSites(front) == set i: nat | i < n && pattern[i] != 0.0;
      if pattern[n] != 0.0 {
        assert NonzeroSites(pattern) == NonzeroSites(front) + {n};
      } else {
        assert NonzeroSites(pattern) == NonzeroSites(front);
      }
    }
  }

  /** The rules in their declared order.  On a device without local Rydberg
      control the first rule rejects every local detuning; when the flag is
      set but the LOCAL_* constants are absent, the first comparison with
      one of them is a TypeError. */
  function LocalDetuningValidate(caps: Constants, ld: LocalDetuning): (r: Outcome<AhsError>)
    ensures !caps.localRydberg ==> r == Fail(NoLocalCapabilities)
    ensures caps.localRydberg && caps.local.None? ==> r == Fail(LocalConstantsMissing)
    ensures r.Fail? ==> !r.error.MissingLocalFlag? && (r.error.NoLocalCapabilities? <==> !caps.localRydberg)
    ensures r.Pass? <==> caps.localRydberg && caps.local.Some? && LocalOk(caps.local.value, ld)
    ensures r.Fail? && r.error.TooManyNonzeroPatternValues? ==>
      && caps.local.Some?
      && r.error.count == NonzeroCount(ld.pattern) > caps.local.value.maxNonzeroPatternValues
      && r.error.max == caps.local.value.maxNonzeroPatternValues
    ensures r.Fail? && r.error.EndsNotZero? ==>
      && r.error.field == "magnitude" && |ld.magnitude.values| > 0
      && r.error.first == ld.magnitude.values[0]
      && r.error.last == ld.magnitude.values[|ld.magnitude.values| - 1]
    ensures r.Fail? && caps.local.Some? && caps.local.value.minTimeSeparation > 0.0 ==> !r.error.ZeroTimeStep?
    ensures caps.localRydberg && caps.local.Some? ==>
      var lc, m := caps.local.value, ld.magnitude;
      && (NonzeroCount(ld.pattern) > lc.maxNonzeroPatternValues ==>
            r == Fail(TooManyNonzeroPatternValues(NonzeroCount(ld.pattern), lc.maxNonzeroPatternValues)))
      && (NonzeroCount(ld.pattern) <= lc.maxNonzeroPatternValues && !OnGrid(m.times, lc.timePrecision) ==>
            r == CheckPrecision(m.times, lc.timePrecision, "magnitude", true))
      && (NonzeroCount(ld.pattern) <= lc.maxNonzeroPatternValues && OnGrid(m.times, lc.timePrecision)
          && !Separated(m.times, lc.minTimeSeparation) ==>
            r == CheckSeparation(m.times, lc.minTimeSeparation, "magnitude"))
      && (NonzeroCount(ld.pattern) <= lc.maxNonzeroPatternValues && OnGrid(m.times, lc.timePrecision)
          && Separated(m.times, lc.minTimeSeparation) ==>
            r == (if |m.times| == 0 || |m.values| == 0 || SlopesBounded(m.times, m.values, lc.magnitudeSlopeMax)
                  then CheckEndsZero(m.values, "magnitude")
                  else GuardedSlope(m, lc.magnitudeSlopeMax, "magnitude")))
  {
    if !caps.localRydberg then Fail(NoLocalCapabilities)
    else if caps.local.None? then Fail(LocalConstantsMissing)
    else
      var lc := caps.local.value;
      var m := ld.magnitude;
      var count := NonzeroCount(ld.pattern);
      var precision := CheckPrecision(m.times, lc.timePrecision, "magnitude", true);
      var separation := CheckSeparation(m.times, lc.minTimeSeparation, "magnitude");
      var slope := GuardedSlope(m, lc.magnitudeSlopeMax, "magnitude");
      SeparationNeverDividesByZero(m, lc.minTimeSeparation, lc.magnitudeSlopeMax, "magnitude");
      NonzeroCountIsSites(ld.pattern);
      if count > lc.maxNonzeroPatternValues then Fail(TooManyNonzeroPatternValues(count, lc.maxNonzeroPatternValues))
      else if precision.Fail? then precision
      else if separation.Fail? then separation
      else if slope.Fail? then slope
      else CheckEndsZero(m.values, "magnitude")
  }

  /** What an acceptable local detuning is, given the local constants. */
  ghost predicate LocalOk(lc: LocalConstants, ld: LocalDetuning) {
    var m := ld.magnitude;
    && |NonzeroSites(ld.pattern)| <= lc.maxNonzeroPatternValues
    && OnGrid(m.times, lc.timePrecision)
    && Separated(m.times, lc.minTimeSeparation)
    && (|m.times| == 0 || |m.values| == 0 || SlopesBounded(m.times, m.values, lc.magnitudeSlopeMax))
    && EndsAtZero(m.values)
  }

  /** Zeroing one pattern entry never makes the nonzero-count rule fail:
      addressing fewer sites is always at least as acceptable. */
  lemma {:induction false} ZeroingEntryLowersCount(pattern: seq<real>, k: nat)
    requires k < |pattern|
    ensures NonzeroCount(pattern[k := 0.0]) <= NonzeroCount(pattern)
    ensures pattern[k] != 0.0 ==> NonzeroCount(pattern[k := 0.0]) == NonzeroCount(pattern) - 1
  {
    var q := pattern[k := 0.0];
    NonzeroCountIsSites(pattern);
    NonzeroCountIsSites(q);
    if pattern[k] != 0.0 {
      assert NonzeroSites(q) == NonzeroSites(pattern) - {k};
    } else {
      assert NonzeroSites(q) == NonzeroSites(pattern);
    }
  }

  /** On a device with local control, an empty magnitude series passes
      whenever the pattern addresses few enough sites. */
  lemma EmptyMagnitudePasses(caps: Constants, pattern: seq<real>)
    requires caps.localRydberg && caps.local.Some?
    requires NonzeroCount(pattern) <= caps.local.value.maxNonzeroPatternValues
    ensures LocalDetuningValidate(caps, LocalDetuning(TimeSeries([], []), pattern)) == Pass
  {
  }
}
