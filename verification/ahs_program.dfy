/** `validate_program`: an AHS program is checked by the atom-arrangement
    validator, then the Hamiltonian validator (given the device's flag
    explicitly), then every driving field, then every local detuning; the
    first failure is raised. */
module AhsProgram {
  import opened Wrappers
  import opened AhsCapabilities
  import opened AhsFields
  import opened AtomArrangement
  import DF = DrivingField
  import LD = LocalDetuning
  import opened Hamiltonian

  datatype Program = Program(
    register: Register,
    drivingFields: seq<DF.DrivingField>,
    localDetuning: seq<LD.LocalDetuning>)

  /** The driving fields one after another; the first rejection wins. */
  function DrivingFieldsValidate(caps: Constants, fs: seq<DF.DrivingField>): (r: Outcome<AhsError>)
    ensures r.Pass? <==> forall i :: 0 <= i < |fs| ==> DF.DrivingFieldValidate(caps, fs[i]).Pass?
    ensures r.Fail? ==> exists i ::
      && 0 <= i < |fs| && DF.DrivingFieldValidate(caps, fs[i]) == r
      && forall j :: 0 <= j < i ==> DF.DrivingFieldValidate(caps, fs[j]).Pass?
    ensures r.Fail? ==> !r.error.MissingLocalFlag? && !r.error.NoLocalCapabilities?
  {
    var outs := seq(|fs|, i requires 0 <= i < |fs| => DF.DrivingFieldValidate(caps, fs[i]));
    match FirstFailAt(outs, 0)
    case None =>
      assert forall j :: 0 <= j < |fs| ==> outs[j] == DF.DrivingFieldValidate(caps, fs[j]);
      Pass
    case Some(i) =>
      assert outs[i] == DF.DrivingFieldValidate(caps, fs[i]);
      assert forall j :: 0 <= j < i ==> outs[j] == DF.DrivingFieldValidate(caps, fs[j]);
      outs[i]
  }

  /** The local detunings one after another; the first rejection wins. */
  function LocalDetuningsValidate(caps: Constants, ls: seq<LD.LocalDetuning>): (r: Outcome<AhsError>)
    ensures r.Pass? <==> forall i :: 0 <= i < |ls| ==> LD.LocalDetuningValidate(caps, ls[i]).Pass?
    ensures r.Fail? ==> exists i ::
      && 0 <= i < |ls| && LD.LocalDetuningValidate(caps, ls[i]) == r
      && forall j :: 0 <= j < i ==> LD.LocalDetuningValidate(caps, ls[j]).Pass?
    ensures r.Fail? ==> !r.error.MissingLocalFlag? && (r.error.NoLocalCapabilities? <==> !caps.localRydberg)
  {
    var outs := seq(|ls|, i requires 0 <= i < |ls| => LD.LocalDetuningValidate(caps, ls[i]));
    match FirstFailAt(outs, 0)
    case None =>
      assert forall j :: 0 <= j < |ls| ==> outs[j] == LD.LocalDetuningValidate(caps, ls[j]);
      Pass
    case Some(i) =>
      assert outs[i] == LD.LocalDetuningValidate(caps, ls[i]);
      assert forall j :: 0 <= j < i ==> outs[j] == LD.LocalDetuningValidate(caps, ls[j]);
      outs[i]
  }

  /** The Hamiltonian input `validate_program` builds: the flag is always
      present. */
  function HamiltonianOf(caps: Constants, p: Program): (h: HamiltonianInput)
    ensures h.localRydberg == Some(caps.localRydberg)
    ensures LocalDetuningList(h) == p.localDetuning
  {
    HamiltonianInput(Some(caps.localRydberg), Some(p.localDetuning))
  }

  function ValidateProgram(caps: Constants, p: Program): (r: Outcome<AhsError>)
    ensures r.Fail? ==> r.error != MissingLocalFlag && r.error != NoLocalCapabilities
    ensures !caps.localRydberg && |p.localDetuning| > 0 && AtomArrangementValidate(caps, p.register).Pass? ==>
      r == Fail(LocalDetuningNotSupported(|p.localDetuning|))
  {
    var arrangement := AtomArrangementValidate(caps, p.register);
    var hamiltonian := HamiltonianValidateAsWritten(HamiltonianOf(caps, p));
    if arrangement.Fail? then arrangement
    else if hamiltonian.Fail? then hamiltonian
    else FieldsValidate(caps, p)
  }

  /** The driving fields, then the local detunings. */
  function FieldsValidate(caps: Constants, p: Program): (r: Outcome<AhsError>)
    ensures r.Pass? <==> DrivingFieldsValidate(caps, p.drivingFields).Pass? && LocalDetuningsValidate(caps, p.localDetuning).Pass?
    ensures DrivingFieldsValidate(caps, p.drivingFields).Fail? ==> r == DrivingFieldsValidate(caps, p.drivingFields)
    ensures r.Fail? ==> !r.error.MissingLocalFlag? && (r.error.NoLocalCapabilities? ==> !caps.localRydberg)
  {
    var driving := DrivingFieldsValidate(caps, p.drivingFields);
    if driving.Fail? then driving
    else LocalDetuningsValidate(caps, p.localDetuning)
  }

  /** Every part meets its rules. */
  ghost predicate ProgramOk(caps: Constants, p: Program) {
    && ArrangementOk(caps, p.register)
    && (caps.localRydberg || |p.localDetuning| == 0)
    && (forall i :: 0 <= i < |p.drivingFields| ==> DF.DrivingFieldOk(caps, p.drivingFields[i]))
    && (|p.localDetuning| == 0 || (caps.local.Some?
        && forall i :: 0 <= i < |p.localDetuning| ==> LD.LocalOk(caps.local.value, p.localDetuning[i])))
  }

  /** The program validator accepts exactly the programs whose every part
      is acceptable. */
  lemma ValidateProgramMeaning(caps: Constants, p: Program)
    ensures ValidateProgram(caps, p).Pass? <==> ProgramOk(caps, p)
  {
    AtomArrangementMeaning(caps, p.register);
    if |p.localDetuning| > 0 && ValidateProgram(caps, p).Pass? {
      assert LD.LocalDetuningValidate(caps, p.localDetuning[0]).Pass?;
    }
  }
}
