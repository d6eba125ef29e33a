/** The device Hamiltonian validator: local detuning may only be given on a
    device with local Rydberg control.  Its one pre root validator reads the
    LOCAL_RYDBERG_CAPABILITIES flag from the raw input, before the field's
    declared default of false has been applied. */
module Hamiltonian {
  import opened Wrappers
  import opened AhsFields
  import LocalDetuning

  /** The raw input of the validator: the flag and the local detuning list,
      either of which may be absent. */
  datatype HamiltonianInput = HamiltonianInput(
    localRydberg: Option<bool>,
    localDetuning: Option<seq<LocalDetuning.LocalDetuning>>)

  /** `values.get("localDetuning", [])`. */
  function LocalDetuningList(h: HamiltonianInput): (ld: seq<LocalDetuning.LocalDetuning>)
    ensures h.localDetuning.None? ==> ld == []
    ensures h.localDetuning.Some? ==> ld == h.localDetuning.value
  {
    if h.localDetuning.Some? then h.localDetuning.value else []
  }

  /** The validator as written: an absent flag is a KeyError, whatever the
      rest of the input. */
  function HamiltonianValidateAsWritten(h: HamiltonianInput): (r: Outcome<AhsError>)
    ensures h.localRydberg.None? ==> r == Fail(MissingLocalFlag)
    ensures h.localRydberg.Some? ==>
      (r.Pass? <==> h.localRydberg.value || |LocalDetuningList(h)| == 0)
    ensures h.localRydberg.Some? && r.Fail? ==> r.error == LocalDetuningNotSupported(|LocalDetuningList(h)|)
  {
    if h.localRydberg.None? then Fail(MissingLocalFlag)
    else if !h.localRydberg.value && |LocalDetuningList(h)| > 0 then
      Fail(LocalDetuningNotSupported(|LocalDetuningList(h)|))
    else Pass
  }

  /** The validator as its field declaration intends: an absent flag means
      false.  Local detuning is rejected exactly when the device lacks local
      control and at least one local detuning is given; the error reports
      how many. */
  function HamiltonianValidate(h: HamiltonianInput): (r: Outcome<AhsError>)
    ensures r.Pass? <==> (h.localRydberg == Some(true) || |LocalDetuningList(h)| == 0)
    ensures r.Fail? ==> r.error == LocalDetuningNotSupported(|LocalDetuningList(h)|) && r.error.count > 0
    ensures r.Fail? ==> Raises(r.error) == ValueError
  {
    var flag := if h.localRydberg.Some? then h.localRydberg.value else false;
    if !flag && |LocalDetuningList(h)| > 0 then Fail(LocalDetuningNotSupported(|LocalDetuningList(h)|))
    else Pass
  }

  /** Whenever the flag is given, the two agree. */
  lemma HamiltonianAgreesWhenFlagGiven(h: HamiltonianInput)
    requires h.localRydberg.Some?
    ensures HamiltonianValidateAsWritten(h) == HamiltonianValidate(h)
  {
  }

  /** A Hamiltonian with no local detuning and no flag: the intended
      validator accepts it, the validator as written raises a KeyError. */
  lemma HamiltonianMissingFlagExample()
    ensures var h := HamiltonianInput(None, None);
      && HamiltonianValidate(h).Pass?
      && HamiltonianValidateAsWritten(h).Fail?
      && Raises(HamiltonianValidateAsWritten(h).error) == KeyError
  {
  }
}
