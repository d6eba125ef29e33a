/** The device-capability constants that drive the analog (AHS) validators,
    and their derivation from a QuEra capabilities document, whose nested
    lattice / Rydberg sections are flattened into one record.  Decimal
    quantities are exact rationals (`real`). */
module AhsCapabilities {
  import opened Wrappers

  /** The local-detuning limits, present only on devices with local Rydberg
      control. */
  datatype LocalConstants = LocalConstants(
    minDistanceBetweenShiftedSites: real,
    timePrecision: real,
    minTimeSeparation: real,
    magnitudeSequenceValueMin: real,
    magnitudeSequenceValueMax: real,
    magnitudeSlopeMax: real,
    maxNonzeroPatternValues: nat,
    magnitudePatternValueMin: real,
    magnitudePatternValueMax: real)

  /** The flattened constants record.  `localRydberg` is the
      LOCAL_RYDBERG_CAPABILITIES flag (default false) and `local` holds the
      LOCAL_* and MAGNITUDE_PATTERN_* fields, all absent together. */
  datatype Constants = Constants(
    maxSites: nat,
    minDistance: real,
    minRowDistance: real,
    sitePrecision: real,
    boundingBoxSizeX: real,
    boundingBoxSizeY: real,
    maxFilledSites: nat,
    minTime: real,
    maxTime: real,
    globalTimePrecision: real,
    globalMinTimeSeparation: real,
    globalAmplitudeValueMin: real,
    globalAmplitudeValueMax: real,
    globalAmplitudeValuePrecision: real,
    globalAmplitudeSlopeMax: real,
    globalPhaseValueMin: real,
    globalPhaseValueMax: real,
    globalPhaseValuePrecision: real,
    globalDetuningValueMin: real,
    globalDetuningValueMax: real,
    globalDetuningValuePrecision: real,
    globalDetuningSlopeMax: real,
    localRydberg: bool,
    local: Option<LocalConstants>)

  // ---------------------------------------------------------------------
  // The QuEra capabilities document (only the parts the emulator reads)
  // ---------------------------------------------------------------------

  datatype Area = Area(width: real, height: real)
  datatype Geometry = Geometry(spacingRadialMin: real, spacingVerticalMin: real, positionResolution: real, numberSitesMax: nat)
  datatype Lattice = Lattice(area: Area, geometry: Geometry)

  datatype RydbergGlobal = RydbergGlobal(
    rabiFrequencyRange: (real, real),
    rabiFrequencyResolution: real,
    rabiFrequencySlewRateMax: real,
    detuningRange: (real, real),
    detuningResolution: real,
    detuningSlewRateMax: real,
    phaseRange: (real, real),
    phaseResolution: real,
    timeResolution: real,
    timeDeltaMin: real,
    timeMin: real,
    timeMax: real)

  datatype RydbergLocal = RydbergLocal(
    detuningRange: (real, real),
    detuningSlewRateMax: real,
    siteCoefficientRange: (real, real),
    numberLocalDetuningSitesMax: nat,
    spacingRadialMin: real,
    timeResolution: real,
    timeDeltaMin: real)

  datatype Rydberg = Rydberg(rydbergGlobal: RydbergGlobal, rydbergLocal: Option<RydbergLocal>)
  datatype Paradigm = Paradigm(qubitCount: nat, lattice: Lattice, rydberg: Rydberg)
  datatype QueraCapabilities = QueraCapabilities(paradigm: Paradigm)

  /** The capabilities object the AHS factory dispatches on. */
  datatype AhsDevice = Quera(caps: QueraCapabilities) | OtherDevice(typeName: string)

  datatype CapabilitiesError = NotImplemented(typeName: string)

  function LocalBlock(l: RydbergLocal): (r: LocalConstants)
    ensures r.minDistanceBetweenShiftedSites == l.spacingRadialMin
    ensures r.timePrecision == l.timeResolution && r.minTimeSeparation == l.timeDeltaMin
    ensures (r.magnitudeSequenceValueMin, r.magnitudeSequenceValueMax) == l.detuningRange
    ensures r.magnitudeSlopeMax == l.detuningSlewRateMax
    ensures r.maxNonzeroPatternValues == l.numberLocalDetuningSitesMax
    ensures (r.magnitudePatternValueMin, r.magnitudePatternValueMax) == l.siteCoefficientRange
  {
    LocalConstants(
      l.spacingRadialMin, l.timeResolution, l.timeDeltaMin,
      l.detuningRange.0, l.detuningRange.1, l.detuningSlewRateMax,
      l.numberLocalDetuningSitesMax,
      l.siteCoefficientRange.0, l.siteCoefficientRange.1)
  }

  /** Flattening a QuEra document.  Each two-element range becomes a MIN and
      a MAX constant; the local block is copied whole when the document has
      one, and otherwise the flag is false and every local field is absent. */
  function FlattenQuera(q: QueraCapabilities): (c: Constants)
    ensures c.maxSites == q.paradigm.lattice.geometry.numberSitesMax
    ensures c.maxFilledSites == q.paradigm.qubitCount
    ensures c.minDistance == q.paradigm.lattice.geometry.spacingRadialMin
    ensures c.minRowDistance == q.paradigm.lattice.geometry.spacingVerticalMin
    ensures c.sitePrecision == q.paradigm.lattice.geometry.positionResolution
    ensures (c.boundingBoxSizeX, c.boundingBoxSizeY) == (q.paradigm.lattice.area.width, q.paradigm.lattice.area.height)
    ensures (c.minTime, c.maxTime) == (q.paradigm.rydberg.rydbergGlobal.timeMin, q.paradigm.rydberg.rydbergGlobal.timeMax)
    ensures c.globalTimePrecision == q.paradigm.rydberg.rydbergGlobal.timeResolution
    ensures c.globalMinTimeSeparation == q.paradigm.rydberg.rydbergGlobal.timeDeltaMin
    ensures (c.globalAmplitudeValueMin, c.globalAmplitudeValueMax) == q.paradigm.rydberg.rydbergGlobal.rabiFrequencyRange
    ensures (c.globalPhaseValueMin, c.globalPhaseValueMax) == q.paradigm.rydberg.rydbergGlobal.phaseRange
    ensures (c.globalDetuningValueMin, c.globalDetuningValueMax) == q.paradigm.rydberg.rydbergGlobal.detuningRange
    ensures c.globalAmplitudeValuePrecision == q.paradigm.rydberg.rydbergGlobal.rabiFrequencyResolution
    ensures c.globalAmplitudeSlopeMax == q.paradigm.rydberg.rydbergGlobal.rabiFrequencySlewRateMax
    ensures c.globalPhaseValuePrecision == q.paradigm.rydberg.rydbergGlobal.phaseResolution
    ensures c.globalDetuningValuePrecision == q.paradigm.rydberg.rydbergGlobal.detuningResolution
    ensures c.globalDetuningSlopeMax == q.paradigm.rydberg.rydbergGlobal.detuningSlewRateMax
    ensures c.localRydberg <==> q.paradigm.rydberg.rydbergLocal.Some?
    ensures c.localRydberg <==> c.local.Some?
    ensures c.local.Some? ==> c.local.value == LocalBlock(q.paradigm.rydberg.rydbergLocal.value)
  {
    var geometry := q.paradigm.lattice.geometry;
    var area := q.paradigm.lattice.area;
    var g := q.paradigm.rydberg.rydbergGlobal;
    var local := q.paradigm.rydberg.rydbergLocal;
    Constants(
      geometry.numberSitesMax, geometry.spacingRadialMin, geometry.spacingVerticalMin,
      geometry.positionResolution, area.width, area.height, q.paradigm.qubitCount,
      g.timeMin, g.timeMax, g.timeResolution, g.timeDeltaMin,
      g.rabiFrequencyRange.0, g.rabiFrequencyRange.1, g.rabiFrequencyResolution, g.rabiFrequencySlewRateMax,
      g.phaseRange.0, g.phaseRange.1, g.phaseResolution,
      g.detuningRange.0, g.detuningRange.1, g.detuningResolution, g.detuningSlewRateMax,
      local.Some?,
      if local.Some? then Some(LocalBlock(local.value)) else None)
  }

  /** The AHS factory: only QuEra documents are registered. */
  function AhsConstants(device: AhsDevice): (r: Result<Constants, CapabilitiesError>)
    ensures device.OtherDevice? <==> r.Failure?
    ensures device.Quera? ==> r == Success(FlattenQuera(device.caps))
  {
    match device
    case Quera(q) => Success(FlattenQuera(q))
    case OtherDevice(name) => Failure(NotImplemented(name))
  }

  /** Removing the local block from a document changes exactly the local
      part of the constants: the flag drops to false, every local field
      becomes absent, and every global constant stays as it was. */
  lemma WithoutLocalBlock(q: QueraCapabilities)
    requires q.paradigm.rydberg.rydbergLocal.Some?
    ensures var q' := q.(paradigm := q.paradigm.(rydberg := q.paradigm.rydberg.(rydbergLocal := None)));
      FlattenQuera(q') == FlattenQuera(q).(localRydberg := false, local := None)
  {
  }
}
