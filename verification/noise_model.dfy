/** The structural part of the gate-device noise model: calibration data
    (qubit labels, per-qubit specs, per-edge gate fidelities) is built either
    from a device's standardized properties or from IonQ's device-wide
    averages, validated against its labels, and turned into an ordered list
    of noise channels.  Channel probabilities are left uninterpreted: a
    channel records only its kind and the qubits or gate it applies to. */
module NoiseModel {
  import opened Wrappers
  import opened Text
  import opened PyDict

  // ---------------------------------------------------------------------
  // Calibration data and its validation
  // ---------------------------------------------------------------------

  /** A calibration value: a number or Python's None. */
  datatype Value = NoneValue | Number(x: real)

  /** Python truthiness of a value: None and zero are false. */
  predicate Truthy(v: Value) {
    v.Number? && v.x != 0.0
  }

  type QubitSpec = map<string, Value>

  datatype GateFidelity = GateFidelity(gateName: string, fidelity: real)

  datatype Durations = Durations(singleQubit: real, twoQubit: real)

  /** Edge keys are tuples; a malformed edge key may leave a tuple of one. */
  datatype CalibrationData = CalibrationData(
    durations: Durations,
    labels: set<int>,
    singleQubitSpecs: seq<(int, QubitSpec)>,
    edgeSpecs: seq<(seq<int>, seq<GateFidelity>)>)

  datatype NoiseError =
    | InvalidQubitLabel(qubit: int)
    | InvalidQubitPair(edge: seq<int>)
    | EdgeTooShort(edge: seq<int>)
    | NoGateDurations(device: Device)
    | NotAnInteger(text: string)
    | NoProviderProperties
    | NoCalibrationData
    | MissingSpec(qubit: int, key: string)
    | NotANumber(qubit: int, key: string)
    | ZeroTime(qubit: int, key: string)
    | UnhashableKey(qubit: int)

  function Raises(e: NoiseError): PyException {
    match e
    case InvalidQubitLabel(_) => ValueError
    case InvalidQubitPair(_) => ValueError
    case EdgeTooShort(_) => IndexError
    case NoGateDurations(_) => ValueError
    case NotAnInteger(_) => ValueError
    case NoProviderProperties => AttributeError
    case NoCalibrationData => AttributeError
    case MissingSpec(_, _) => KeyError
    case NotANumber(_, _) => TypeError
    case ZeroTime(_, _) => ZeroDivisionError
    case UnhashableKey(_) => TypeError
  }

  /** An edge whose two endpoints are both qubit labels. */
  predicate EdgeOk(labels: set<int>, e: seq<int>) {
    |e| >= 2 && e[0] in labels && e[1] in labels
  }

  /** The invariant construction establishes: every spec is about labelled
      qubits. */
  ghost predicate Calibrated(c: CalibrationData) {
    && (forall i :: 0 <= i < |c.singleQubitSpecs| ==> c.singleQubitSpecs[i].0 in c.labels)
    && (forall i :: 0 <= i < |c.edgeSpecs| ==> EdgeOk(c.labels, c.edgeSpecs[i].0))
  }

  /** Every single-qubit key must be a label; the first that is not is
      reported. */
  function CheckSingleQubitSpecs(labels: set<int>, specs: seq<(int, QubitSpec)>): (r: Outcome<NoiseError>)
    ensures r.Pass? <==> forall i :: 0 <= i < |specs| ==> specs[i].0 in labels
    ensures r.Fail? ==> r.error.InvalidQubitLabel? && r.error.qubit !in labels && r.error.qubit in Keys(specs)
  {
    if |specs| == 0 then Pass
    else if specs[0].0 !in labels then Fail(InvalidQubitLabel(specs[0].0))
    else
      var rest := CheckSingleQubitSpecs(labels, specs[1..]);
      assert forall i :: 1 <= i < |specs| ==> specs[i] == specs[1..][i - 1];
      assert Keys(specs) == [specs[0].0] + Keys(specs[1..]);
      rest
  }

  /** One edge: `edge[0]` is looked up first, so a one-element tuple whose
      element is a label reaches `edge[1]` and raises an IndexError. */
  function CheckEdge(labels: set<int>, e: seq<int>): (r: Outcome<NoiseError>)
    ensures r.Pass? <==> EdgeOk(labels, e)
    ensures r.Fail? ==> r.error == InvalidQubitPair(e) || r.error == EdgeTooShort(e)
    ensures r.Fail? && r.error.EdgeTooShort? ==> |e| < 2
  {
    if |e| == 0 then Fail(EdgeTooShort(e))
    else if e[0] !in labels then Fail(InvalidQubitPair(e))
    else if |e| == 1 then Fail(EdgeTooShort(e))
    else if e[1] !in labels then Fail(InvalidQubitPair(e))
    else Pass
  }

  function CheckEdgeSpecs(labels: set<int>, edges: seq<(seq<int>, seq<GateFidelity>)>): (r: Outcome<NoiseError>)
    ensures r.Pass? <==> forall i :: 0 <= i < |edges| ==> EdgeOk(labels, edges[i].0)
    ensures r.Fail? ==>
      && (r.error.InvalidQubitPair? || r.error.EdgeTooShort?)
      && r.error.edge in Keys(edges) && !EdgeOk(labels, r.error.edge)
    ensures r.Fail? && r.error.EdgeTooShort? ==> |r.error.edge| < 2
  {
    if |edges| == 0 then Pass
    else
      var first := CheckEdge(labels, edges[0].0);
      if first.Fail? then first
      else
        var rest := CheckEdgeSpecs(labels, edges[1..]);
        assert forall i :: 1 <= i < |edges| ==> edges[i] == edges[1..][i - 1];
        assert Keys(edges) == [edges[0].0] + Keys(edges[1..]);
        rest
  }

  /** `GateDeviceCalibrationData(...)`: the single-qubit specs are checked
      before the edges. */
  function NewCalibrationData(
    durations: Durations,
    labels: set<int>,
    singles: seq<(int, QubitSpec)>,
    edges: seq<(seq<int>, seq<GateFidelity>)>): (r: Result<CalibrationData, NoiseError>)
    ensures r.Success? <==> Calibrated(CalibrationData(durations, labels, singles, edges))
    ensures r.Success? ==> r.value == CalibrationData(durations, labels, singles, edges)
    ensures r.Failure? && r.error.InvalidQubitLabel? ==> r.error.qubit in Keys(singles) && r.error.qubit !in labels
    ensures r.Failure? && !r.error.InvalidQubitLabel? ==>
      && (forall i :: 0 <= i < |singles| ==> singles[i].0 in labels)
      && (r.error.InvalidQubitPair? || r.error.EdgeTooShort?)
      && r.error.edge in Keys(edges) && !EdgeOk(labels, r.error.edge)
    ensures r.Failure? ==> Raises(r.error) == ValueError || (Raises(r.error) == IndexError && |r.error.edge| < 2)
  {
    var s := CheckSingleQubitSpecs(labels, singles);
    if s.Fail? then Failure(s.error)
    else
      var e := CheckEdgeSpecs(labels, edges);
      if e.Fail? then Failure(e.error)
      else Success(CalibrationData(durations, labels, singles, edges))
  }

  // ---------------------------------------------------------------------
  // Gate names
  // ---------------------------------------------------------------------

  /** The calibration gate names that differ from the circuit library's. */
  const GateNameTranslations: map<string, string> := map["CPHASE" := "CPhaseShift", "GPI" := "GPi"]

  /** `GATE_NAME_TRANSLATIONS.get(name, name)`. */
  function TranslateGateName(name: string): (r: string)
    ensures name !in GateNameTranslations ==> r == name
    ensures name in GateNameTranslations ==> r == GateNameTranslations[name] && r != name
    ensures r !in GateNameTranslations
  {
    if name in GateNameTranslations then GateNameTranslations[name] else name
  }

  /** Translating twice is translating once. */
  lemma TranslateGateNameIdempotent(name: string)
    ensures TranslateGateName(TranslateGateName(name)) == TranslateGateName(name)
  {
  }

  /** Only the two calibration spellings change. */
  lemma TranslateGateNameChanges(name: string)
    ensures TranslateGateName(name) != name <==> name == "CPHASE" || name == "GPI"
    ensures TranslateGateName("CPHASE") == "CPhaseShift" && TranslateGateName("GPI") == "GPi"
    ensures TranslateGateName("GPI2") == "GPI2"
  {
  }

  /** The fidelity list of an edge, with translated gate names. */
  function TranslateFidelities(fs: seq<GateFidelity>): (r: seq<GateFidelity>)
    ensures |r| == |fs|
    ensures forall i :: 0 <= i < |fs| ==>
      r[i] == GateFidelity(TranslateGateName(fs[i].gateName), fs[i].fidelity)
  {
    seq(|fs|, i requires 0 <= i < |fs| => GateFidelity(TranslateGateName(fs[i].gateName), fs[i].fidelity))
  }

  // ---------------------------------------------------------------------
  // The standardized path
  // ---------------------------------------------------------------------

  /** The devices the model distinguishes: the two with hard-coded gate
      durations, IonQ devices, and any other. */
  datatype Device = AspenM3 | Garnet | IonQDevice(name: string) | OtherDevice(arn: string)

  /** `QPU_GATE_DURATIONS.get(arn)`, in seconds. */
  function GateDurations(d: Device): (r: Option<Durations>)
    ensures r.Some? <==> d == AspenM3 || d == Garnet
    ensures r.Some? ==> 0.0 < r.value.singleQubit < r.value.twoQubit
  {
    match d
    case AspenM3 => Some(Durations(0.000000040, 0.000000240))
    case Garnet => Some(Durations(0.000000032, 0.000000060))
    case _ => None
  }

  datatype OneQubitProperties = OneQubitProperties(t1: real, t2: real, fidelities: seq<(string, real)>)

  datatype StandardizedProperties = StandardizedProperties(
    oneQubitProperties: seq<(string, OneQubitProperties)>,
    twoQubitProperties: seq<(string, seq<GateFidelity>)>)

  /** The fidelity-type names of a qubit's fidelity list, mapped to their
      fidelities; a later entry of the same type wins. */
  function FidelityTable(fs: seq<(string, real)>): (m: QubitSpec)
    ensures forall k :: k in m <==> k in Keys(fs)
    ensures forall k :: k in m ==> m[k].Number?
    decreases |fs|
  {
    if |fs| == 0 then map[]
    else
      var n := |fs| - 1;
      assert Keys(fs) == Keys(fs[..n]) + [fs[n].0];
      FidelityTable(fs[..n])[fs[n].0 := Number(fs[n].1)]
  }

  /** The table keeps the last fidelity given for each type. */
  lemma {:induction false} FidelityTableLastWins(fs: seq<(string, real)>, i: nat)
    requires i < |fs|
    requires forall j :: i < j < |fs| ==> fs[j].0 != fs[i].0
    ensures FidelityTable(fs)[fs[i].0] == Number(fs[i].1)
    decreases |fs|
  {
    var n := |fs| - 1;
    if i < n {
      assert fs[..n][i] == fs[i];
      assert forall j :: i < j < n ==> fs[..n][j] == fs[j];
      FidelityTableLastWins(fs[..n], i);
    }
  }

  /** `_create_qubit_specs`: the fidelity table plus T1 and T2. */
  function QubitSpecOf(p: OneQubitProperties): (s: QubitSpec)
    ensures "T1" in s && s["T1"] == Number(p.t1)
    ensures "T2" in s && s["T2"] == Number(p.t2)
    ensures forall k :: k in s <==> k == "T1" || k == "T2" || k in Keys(p.fidelities)
    ensures forall k :: k in s ==> s[k].Number?
  {
    FidelityTable(p.fidelities)["T1" := Number(p.t1)]["T2" := Number(p.t2)]
  }

  /** `int(s)`, for the plain decimal spellings. */
  predicate IsInteger(s: string) {
    |s| > 0 && AllDigits(s)
  }

  function IntOf(s: string): (r: Result<nat, NoiseError>)
    ensures r.Success? <==> IsInteger(s)
    ensures r.Failure? ==> r.error == NotAnInteger(s)
  {
    if IsInteger(s) then Success(ParseNat(s)) else Failure(NotAnInteger(s))
  }

  lemma IntOfNatToString(q: nat)
    ensures IntOf(NatToString(q)) == Success(q)
  {
    ParseNatOfNatToString(q);
  }

  /** `tuple(int(x) for x in key.split("-")[0:2])`: the first one or two
      fields of the key, each an integer. */
  function EdgeFields(k: string): (r: Result<seq<int>, NoiseError>)
    ensures r.Success? ==> 1 <= |r.value| <= 2
    ensures r.Success? ==> (|r.value| == 2 <==> '-' in k)
    ensures r.Failure? ==> r.error == NotAnInteger(k)
    ensures ParseEdgeKey(k).Some? ==> r == Success([ParseEdgeKey(k).value.0, ParseEdgeKey(k).value.1])
  {
    match FirstTwoFields(k, '-')
    case None => if IsInteger(k) then Success([ParseNat(k)]) else Failure(NotAnInteger(k))
    case Some((a, b)) =>
      if IsInteger(a) && IsInteger(b) then Success([ParseNat(a), ParseNat(b)]) else Failure(NotAnInteger(k))
  }

  lemma EdgeFieldsOfEdgeKey(u: nat, v: nat)
    ensures EdgeFields(EdgeKey(u, v)) == Success([u, v])
  {
    ParseEdgeKeyOfEdgeKey(u, v);
  }

  /** The qubit keys converted to integers, each with its spec; the first
      key that is not an integer ends the conversion. */
  function QubitItems(ps: seq<(string, OneQubitProperties)>): (r: Result<seq<(int, QubitSpec)>, NoiseError>)
    ensures r.Success? <==> forall i :: 0 <= i < |ps| ==> IsInteger(ps[i].0)
    ensures r.Success? ==> |r.value| == |ps| && forall i :: 0 <= i < |ps| ==>
      IntOf(ps[i].0) == Success(r.value[i].0) && r.value[i].1 == QubitSpecOf(ps[i].1)
    ensures r.Failure? ==> r.error.NotAnInteger? && exists i :: 0 <= i < |ps| && r.error.text == ps[i].0 && !IsInteger(ps[i].0)
  {
    if |ps| == 0 then Success([])
    else
      match IntOf(ps[0].0)
      case Failure(e) => Failure(e)
      case Success(q) =>
        assert forall i :: 1 <= i < |ps| ==> ps[i] == ps[1..][i - 1];
        match QubitItems(ps[1..])
        case Failure(e) => Failure(e)
        case Success(rest) => Success([(q as int, QubitSpecOf(ps[0].1))] + rest)
  }

  /** The edge keys converted to tuples, each with its translated fidelity
      list. */
  function EdgeItems(ps: seq<(string, seq<GateFidelity>)>): (r: Result<seq<(seq<int>, seq<GateFidelity>)>, NoiseError>)
    ensures r.Success? <==> forall i :: 0 <= i < |ps| ==> EdgeFields(ps[i].0).Success?
    ensures r.Success? ==> |r.value| == |ps| && forall i :: 0 <= i < |ps| ==>
      EdgeFields(ps[i].0) == Success(r.value[i].0) && r.value[i].1 == TranslateFidelities(ps[i].1)
    ensures r.Failure? ==> r.error.NotAnInteger? && exists i :: 0 <= i < |ps| && r.error.text == ps[i].0 && EdgeFields(ps[i].0).Failure?
  {
    if |ps| == 0 then Success([])
    else
      match EdgeFields(ps[0].0)
      case Failure(e) => Failure(e)
      case Success(e) =>
        assert forall i :: 1 <= i < |ps| ==> ps[i] == ps[1..][i - 1];
        match EdgeItems(ps[1..])
        case Failure(err) => Failure(err)
        case Success(rest) => Success([(e, TranslateFidelities(ps[0].1))] + rest)
  }

  /** The set of qubits a list of converted items names. */
  function LabelsOf(items: seq<(int, QubitSpec)>): (labels: set<int>)
    ensures forall q :: q in labels <==> q in Keys(items)
  {
    set i | 0 <= i < |items| :: Keys(items)[i]
  }

  /** The keys of the single-qubit dict are all among the labels read
      from the same items. */
  lemma SinglesAreLabelled(qs: seq<(int, QubitSpec)>)
    ensures forall i :: 0 <= i < |DictOf(qs)| ==> DictOf(qs)[i].0 in LabelsOf(qs)
  {
    var singles := DictOf(qs);
    forall i | 0 <= i < |singles| ensures singles[i].0 in LabelsOf(qs) {
      assert singles[i].0 in Keys(singles);
    }
  }

  /** Collapsing repeated edge keys into a dict does not change which
      edges fail validation. */
  lemma EdgesOkThroughDict(labels: set<int>, es: seq<(seq<int>, seq<GateFidelity>)>)
    ensures (forall i :: 0 <= i < |DictOf(es)| ==> EdgeOk(labels, DictOf(es)[i].0))
      <==> (forall i :: 0 <= i < |es| ==> EdgeOk(labels, es[i].0))
  {
    var edges := DictOf(es);
    if forall i :: 0 <= i < |es| ==> EdgeOk(labels, es[i].0) {
      forall i | 0 <= i < |edges| ensures EdgeOk(labels, edges[i].0) {
        assert edges[i].0 in Keys(edges);
        var k :| 0 <= k < |es| && Keys(es)[k] == edges[i].0;
      }
    }
    if forall i :: 0 <= i < |edges| ==> EdgeOk(labels, edges[i].0) {
      forall i | 0 <= i < |es| ensures EdgeOk(labels, es[i].0) {
        assert es[i].0 in Keys(es);
        var k :| 0 <= k < |edges| && Keys(edges)[k] == es[i].0;
      }
    }
  }

  /** `_setup_standardized_calibration_data`: the gate durations must be
      known; the labels are the integer qubit keys; the specs are dicts
      keyed by qubit and by edge tuple.  Every qubit spec is about a label
      by construction, so only the edges can fail validation. */
  function StandardizedSetup(d: Device, p: StandardizedProperties): (r: Result<CalibrationData, NoiseError>)
    ensures GateDurations(d).None? ==> r == Failure(NoGateDurations(d))
    ensures r.Success? <==>
      && GateDurations(d).Some?
      && QubitItems(p.oneQubitProperties).Success?
      && EdgeItems(p.twoQubitProperties).Success?
      && forall i :: 0 <= i < |p.twoQubitProperties| ==>
           EdgeOk(LabelsOf(QubitItems(p.oneQubitProperties).value), EdgeItems(p.twoQubitProperties).value[i].0)
    ensures r.Success? ==> GateDurations(d) == Some(r.value.durations)
    ensures r.Success? ==> Calibrated(r.value)
    ensures r.Success? ==> r.value.labels == LabelsOf(QubitItems(p.oneQubitProperties).value)
    ensures r.Success? ==> r.value.edgeSpecs == DictOf(EdgeItems(p.twoQubitProperties).value)
    ensures r.Success? ==> KeysDistinct(r.value.singleQubitSpecs) && KeysDistinct(r.value.edgeSpecs)
    ensures r.Failure? ==> Raises(r.error) in {ValueError, IndexError}
  {
    match GateDurations(d)
    case None => Failure(NoGateDurations(d))
    case Some(durations) =>
      match QubitItems(p.oneQubitProperties)
      case Failure(e) => Failure(e)
      case Success(qs) =>
        match EdgeItems(p.twoQubitProperties)
        case Failure(e) => Failure(e)
        case Success(es) =>
          FromItems(durations, qs, es)
  }

  /** The validated data once the properties have been turned into items:
      the labels are the qubit keys and both lists become dicts. */
  function FromItems(durations: Durations, qs: seq<(int, QubitSpec)>, es: seq<(seq<int>, seq<GateFidelity>)>): (r: Result<CalibrationData, NoiseError>)
    ensures r.Success? <==> forall i :: 0 <= i < |es| ==> EdgeOk(LabelsOf(qs), es[i].0)
    ensures r.Success? ==> r.value == CalibrationData(durations, LabelsOf(qs), DictOf(qs), DictOf(es))
    ensures r.Success? ==> Calibrated(r.value)
    ensures r.Failure? ==> Raises(r.error) in {ValueError, IndexError}
  {
    var labels := LabelsOf(qs);
    SinglesAreLabelled(qs);
    EdgesOkThroughDict(labels, es);
    NewCalibrationData(durations, labels, DictOf(qs), DictOf(es))
  }

  /** Decimal qubit keys convert back to their qubits. */
  lemma {:induction false} QubitItemsCanonical(ps: seq<(string, OneQubitProperties)>, qs: seq<nat>)
    requires |qs| == |ps|
    requires forall i :: 0 <= i < |qs| ==> ps[i].0 == NatToString(qs[i])
    ensures QubitItems(ps).Success?
    ensures forall i :: 0 <= i < |qs| ==> Keys(QubitItems(ps).value)[i] == qs[i]
  {
    forall i | 0 <= i < |qs| ensures IntOf(ps[i].0) == Success(qs[i]) {
      IntOfNatToString(qs[i]);
    }
  }

  /** `"u-v"` edge keys convert back to their pairs. */
  lemma {:induction false} EdgeItemsCanonical(ps: seq<(string, seq<GateFidelity>)>, us: seq<nat>, vs: seq<nat>)
    requires |us| == |vs| == |ps|
    requires forall i :: 0 <= i < |us| ==> ps[i].0 == EdgeKey(us[i], vs[i])
    ensures EdgeItems(ps).Success?
    ensures forall i :: 0 <= i < |us| ==> Keys(EdgeItems(ps).value)[i] == [us[i] as int, vs[i] as int]
  {
    forall i | 0 <= i < |us| ensures EdgeFields(ps[i].0) == Success([us[i] as int, vs[i] as int]) {
      EdgeFieldsOfEdgeKey(us[i], vs[i]);
    }
  }

  /** A standardized device whose qubit keys are decimal numbers and whose
      edge keys are `"u-v"` over those qubits: construction succeeds, the
      labels are exactly the qubits, and every edge key reads back as its
      pair. */
  lemma StandardizedCanonical(d: Device, p: StandardizedProperties, qs: seq<nat>, us: seq<nat>, vs: seq<nat>)
    requires d == AspenM3 || d == Garnet
    requires |qs| == |p.oneQubitProperties|
    requires forall i :: 0 <= i < |qs| ==> p.oneQubitProperties[i].0 == NatToString(qs[i])
    requires |us| == |vs| == |p.twoQubitProperties|
    requires forall i :: 0 <= i < |us| ==> p.twoQubitProperties[i].0 == EdgeKey(us[i], vs[i])
    requires forall i :: 0 <= i < |us| ==> us[i] in qs && vs[i] in qs
    ensures StandardizedSetup(d, p).Success?
    ensures forall q: int :: q in StandardizedSetup(d, p).value.labels <==> q >= 0 && q as nat in qs
    ensures forall i :: 0 <= i < |us| ==> [us[i] as int, vs[i] as int] in Keys(StandardizedSetup(d, p).value.edgeSpecs)
  {
    QubitItemsCanonical(p.oneQubitProperties, qs);
    EdgeItemsCanonical(p.twoQubitProperties, us, vs);
    var qitems := QubitItems(p.oneQubitProperties).value;
    var eitems := EdgeItems(p.twoQubitProperties).value;
    var labels := LabelsOf(qitems);
    assert forall q: int :: q in labels <==> q >= 0 && q as nat in qs by {
      forall q: int ensures q in labels <==> q >= 0 && q as nat in qs {
        if q in labels {
          var i :| 0 <= i < |qitems| && Keys(qitems)[i] == q;
          assert q == qs[i];
        }
        if q >= 0 && q as nat in qs {
          var i :| 0 <= i < |qs| && qs[i] == q as nat;
          assert Keys(qitems)[i] == q;
        }
      }
    }
    forall i | 0 <= i < |eitems| ensures EdgeOk(labels, eitems[i].0) {
      assert Keys(eitems)[i] == [us[i] as int, vs[i] as int];
      assert us[i] in qs && vs[i] in qs;
    }
    var edges := DictOf(eitems);
    forall i | 0 <= i < |us| ensures [us[i] as int, vs[i] as int] in Keys(edges) {
      assert Keys(eitems)[i] == [us[i] as int, vs[i] as int];
      assert Keys(eitems)[i] in Keys(eitems);
    }
  }

  // ---------------------------------------------------------------------
  // The IonQ path
  // ---------------------------------------------------------------------

  /** The device-wide averages IonQ publishes, and its native gate set. */
  datatype IonQProperties = IonQProperties(
    qubitCount: nat,
    nativeGates: seq<string>,
    oneQubitDuration: real,
    twoQubitDuration: real,
    resetFidelity: real,
    t1: real,
    t2: real,
    oneQubitFidelity: real,
    twoQubitFidelity: real,
    readoutFidelity: real)

  /** The spec every IonQ qubit gets; the simultaneous benchmark is None. */
  function IonQQubitSpec(p: IonQProperties): (s: QubitSpec)
    ensures s.Keys == {"RANDOMIZED_BENCHMARKING", "SIMULTANEOUS_RANDOMIZED_BENCHMARKING", "READOUT", "T1", "T2", "ACTIVE_RESET"}
    ensures s["SIMULTANEOUS_RANDOMIZED_BENCHMARKING"] == NoneValue
    ensures s["RANDOMIZED_BENCHMARKING"] == Number(p.oneQubitFidelity)
  {
    map[
      "RANDOMIZED_BENCHMARKING" := Number(p.oneQubitFidelity),
      "SIMULTANEOUS_RANDOMIZED_BENCHMARKING" := NoneValue,
      "READOUT" := Number(p.readoutFidelity),
      "T1" := Number(p.t1),
      "T2" := Number(p.t2),
      "ACTIVE_RESET" := Number(p.resetFidelity)]
  }

  /** Every native gate, translated, with the averaged two-qubit fidelity. */
  function NativeGateFidelities(p: IonQProperties): (fs: seq<GateFidelity>)
    ensures |fs| == |p.nativeGates|
    ensures forall i :: 0 <= i < |fs| ==> fs[i] == GateFidelity(TranslateGateName(p.nativeGates[i]), p.twoQubitFidelity)
  {
    seq(|p.nativeGates|, i requires 0 <= i < |p.nativeGates| => GateFidelity(TranslateGateName(p.nativeGates[i]), p.twoQubitFidelity))
  }

  /** The pairs (i, j) with j from `j` up to n - 1. */
  function Row(i: nat, j: nat, n: nat): (r: seq<seq<int>>)
    ensures |r| == if j < n then n - j else 0
    ensures forall e :: e in r <==> |e| == 2 && e[0] == i && j <= e[1] < n
    decreases n - j
  {
    if j >= n then []
    else
      var rest := Row(i, j + 1, n);
      var r := [[i as int, j as int]] + rest;
      assert forall e :: e in r <==> e == [i as int, j as int] || e in rest;
      assert forall e :: |e| == 2 && e[0] == i && e[1] == j ==> e == [i as int, j as int];
      r
  }

  /** The pairs (a, b) with i <= a < b < n, in the order of the nested
      `for ii in range(n): for jj in range(ii + 1, n)` loops. */
  function PairsFrom(i: nat, n: nat): (r: seq<seq<int>>)
    ensures forall e :: e in r <==> |e| == 2 && i <= e[0] < e[1] < n
    decreases n - i
  {
    if i >= n then []
    else
      var r := Row(i, i + 1, n) + PairsFrom(i + 1, n);
      assert forall e :: |e| == 2 && i <= e[0] < e[1] < n ==> e in r by {
        forall e | |e| == 2 && i <= e[0] < e[1] < n ensures e in r {
          if e[0] == i { assert e in Row(i, i + 1, n); } else { assert e in PairsFrom(i + 1, n); }
        }
      }
      r
  }

  /** The number of two-element subsets of an m-element set, counted the
      way the loops count them: the first element pairs with the m - 1
      others. */
  function ChooseTwo(m: nat): nat {
    if m == 0 then 0 else (m - 1) + ChooseTwo(m - 1)
  }

  lemma {:induction false} ChooseTwoClosedForm(m: nat)
    ensures 2 * ChooseTwo(m) == m * (m - 1)
  {
    if m > 0 {
      ChooseTwoClosedForm(m - 1);
      assert (m - 1) * (m - 2) + 2 * (m - 1) == m * (m - 1);
    }
  }

  /** There is one pair for every two-element subset. */
  lemma {:induction false} PairsFromCount(i: nat, n: nat)
    ensures |PairsFrom(i, n)| == if i < n then ChooseTwo(n - i) else 0
    decreases n - i
  {
    if i < n {
      PairsFromCount(i + 1, n);
    }
  }

  /** The qubits 0..n-1 in order. */
  function QubitRange(n: nat): (r: seq<int>)
    ensures |r| == n
    ensures forall i :: 0 <= i < n ==> r[i] == i
    ensures forall q :: q in r <==> 0 <= q < n
  {
    var r := seq(n, i requires 0 <= i < n => i as int);
    assert forall q :: 0 <= q < n ==> r[q] == q;
    assert forall q :: q in r <==> 0 <= q < n by {
      forall q ensures q in r <==> 0 <= q < n {
        if q in r {
          var i :| 0 <= i < |r| && r[i] == q;
        }
        if 0 <= q < n {
          assert r[q] == q;
        }
      }
    }
    r
  }

  /** The label set {0, ..., n - 1}. */
  function LabelRange(n: nat): (r: set<int>)
    ensures forall q :: q in r <==> 0 <= q < n
  {
    if n == 0 then {} else LabelRange(n - 1) + {n - 1}
  }

  /** Each key of `ks` bound to the same value, in order. */
  function BindAll<K, V>(ks: seq<K>, v: V): (d: seq<(K, V)>)
    ensures Keys(d) == ks
    ensures forall i :: 0 <= i < |d| ==> d[i].1 == v
  {
    var d := seq(|ks|, i requires 0 <= i < |ks| => (ks[i], v));
    assert Keys(d) == ks;
    d
  }

  /** The calibration data the IonQ path builds, before validation: the
      labels are 0..n-1, every qubit gets the same spec, and every pair
      i < j gets every native gate. */
  function IonQData(p: IonQProperties): (c: CalibrationData)
    ensures c.durations == Durations(p.oneQubitDuration, p.twoQubitDuration)
    ensures forall q: int :: q in c.labels <==> 0 <= q < p.qubitCount
    ensures Keys(c.singleQubitSpecs) == QubitRange(p.qubitCount)
    ensures forall i :: 0 <= i < |c.singleQubitSpecs| ==> c.singleQubitSpecs[i].1 == IonQQubitSpec(p)
    ensures forall e :: e in Keys(c.edgeSpecs) <==> |e| == 2 && 0 <= e[0] < e[1] < p.qubitCount
    ensures |c.edgeSpecs| == ChooseTwo(p.qubitCount)
    ensures forall i :: 0 <= i < |c.edgeSpecs| ==> c.edgeSpecs[i].1 == NativeGateFidelities(p)
  {
    CalibrationData(Durations(p.oneQubitDuration, p.twoQubitDuration), LabelRange(p.qubitCount), IonQSingles(p), IonQEdges(p))
  }

  /** Every qubit 0..n-1, in order, with the same spec. */
  function IonQSingles(p: IonQProperties): (d: seq<(int, QubitSpec)>)
    ensures Keys(d) == QubitRange(p.qubitCount)
    ensures forall i :: 0 <= i < |d| ==> d[i].1 == IonQQubitSpec(p)
  {
    BindAll(QubitRange(p.qubitCount), IonQQubitSpec(p))
  }

  /** Every pair i < j of the device's qubits, with every native gate. */
  function IonQEdges(p: IonQProperties): (d: seq<(seq<int>, seq<GateFidelity>)>)
    ensures forall e :: e in Keys(d) <==> |e| == 2 && 0 <= e[0] < e[1] < p.qubitCount
    ensures |d| == ChooseTwo(p.qubitCount)
    ensures forall i :: 0 <= i < |d| ==> d[i].1 == NativeGateFidelities(p)
  {
    var pairs := PairsFrom(0, p.qubitCount);
    PairsFromCount(0, p.qubitCount);
    var d := BindAll(pairs, NativeGateFidelities(p));
    assert |d| == |Keys(d)| == |pairs|;
    d
  }

  /** The IonQ data is about labelled qubits only. */
  lemma IonQDataCalibrated(p: IonQProperties)
    ensures Calibrated(IonQData(p))
  {
    var c := IonQData(p);
    forall i | 0 <= i < |c.singleQubitSpecs| ensures c.singleQubitSpecs[i].0 in c.labels {
      assert Keys(c.singleQubitSpecs)[i] == i;
    }
    forall i | 0 <= i < |c.edgeSpecs| ensures EdgeOk(c.labels, c.edgeSpecs[i].0) {
      assert Keys(c.edgeSpecs)[i] in Keys(c.edgeSpecs);
    }
  }

  /** `_setup_ionq_device_calibration_data`: validation of the IonQ data
      always succeeds. */
  function IonQSetup(p: IonQProperties): (r: Result<CalibrationData, NoiseError>)
    ensures r == Success(IonQData(p))
  {
    var c := IonQData(p);
    IonQDataCalibrated(p);
    NewCalibrationData(c.durations, c.labels, c.singleQubitSpecs, c.edgeSpecs)
  }

  // ---------------------------------------------------------------------
  // Dispatch
  // ---------------------------------------------------------------------

  /** What a device's properties offer: standardized calibration data, an
      IonQ provider block, both or neither. */
  datatype DeviceProperties = DeviceProperties(
    standardized: Option<StandardizedProperties>,
    ionq: Option<IonQProperties>)

  /** `_setup_device_calibration_data`: standardized data wins; otherwise
      an IonQ device reads its provider block; any other device gets None. */
  function SetupCalibrationData(d: Device, props: DeviceProperties): (r: Result<Option<CalibrationData>, NoiseError>)
    ensures props.standardized.Some? ==>
      r == (match StandardizedSetup(d, props.standardized.value)
            case Success(c) => Success(Some(c))
            case Failure(e) => Failure(e))
    ensures props.standardized.None? && !d.IonQDevice? ==> r == Success(None)
    ensures props.standardized.None? && d.IonQDevice? ==>
      (r.Success? <==> props.ionq.Some?) && (r.Success? ==> r.value == Some(IonQSetup(props.ionq.value).value))
    ensures r.Success? && r.value.Some? ==> Calibrated(r.value.value)
  {
    if props.standardized.Some? then
      match StandardizedSetup(d, props.standardized.value)
      case Success(c) => Success(Some(c))
      case Failure(e) => Failure(e)
    else if d.IonQDevice? then
      if props.ionq.Some? then Success(Some(IonQSetup(props.ionq.value).value)) else Failure(NoProviderProperties)
    else Success(None)
  }

  // ---------------------------------------------------------------------
  // The basic noise strategy
  // ---------------------------------------------------------------------

  /** A noise channel and what it is attached to; probabilities are not
      modelled.  The readout bit flip is attached to observables on the
      qubit, the others to gates on it. */
  datatype Channel =
    | AmplitudeDamping(qubit: int)
    | PhaseDamping(qubit: int)
    | Depolarizing(qubit: int)
    | ReadoutBitFlip(qubit: int)
    | TwoQubitDepolarizing(gate: string, pairs: seq<(int, int)>)

  /** How the one-qubit benchmark fidelity is chosen. */
  datatype BenchmarkRule = AsWritten | Intended

  /** Lines 202-205 as written: the simultaneous benchmark when the key is
      present, otherwise `data.get([...])` with a list as the key, which is
      a TypeError. */
  function BenchmarkAsWritten(q: int, spec: QubitSpec): (r: Result<Value, NoiseError>)
    ensures r.Success? <==> "SIMULTANEOUS_RANDOMIZED_BENCHMARKING" in spec
    ensures r.Success? ==> r.value == spec["SIMULTANEOUS_RANDOMIZED_BENCHMARKING"]
    ensures r.Failure? ==> r.error == UnhashableKey(q) && Raises(r.error) == TypeError
  {
    if "SIMULTANEOUS_RANDOMIZED_BENCHMARKING" in spec then Success(spec["SIMULTANEOUS_RANDOMIZED_BENCHMARKING"])
    else Failure(UnhashableKey(q))
  }

  /** The benchmark as intended: the simultaneous benchmark when it has a
      value, otherwise the plain randomized benchmark, otherwise None. */
  function Benchmark(spec: QubitSpec): (r: Value)
    ensures "SIMULTANEOUS_RANDOMIZED_BENCHMARKING" in spec && spec["SIMULTANEOUS_RANDOMIZED_BENCHMARKING"].Number? ==>
      r == spec["SIMULTANEOUS_RANDOMIZED_BENCHMARKING"]
    ensures r.Number? ==> r in spec.Values
    ensures r.NoneValue? <==>
      && ("SIMULTANEOUS_RANDOMIZED_BENCHMARKING" !in spec || spec["SIMULTANEOUS_RANDOMIZED_BENCHMARKING"].NoneValue?)
      && ("RANDOMIZED_BENCHMARKING" !in spec || spec["RANDOMIZED_BENCHMARKING"].NoneValue?)
  {
    if "SIMULTANEOUS_RANDOMIZED_BENCHMARKING" in spec && spec["SIMULTANEOUS_RANDOMIZED_BENCHMARKING"].Number? then
      spec["SIMULTANEOUS_RANDOMIZED_BENCHMARKING"]
    else if "RANDOMIZED_BENCHMARKING" in spec then spec["RANDOMIZED_BENCHMARKING"]
    else NoneValue
  }

  function BenchmarkBy(rule: BenchmarkRule, q: int, spec: QubitSpec): (r: Result<Value, NoiseError>)
    ensures rule.Intended? ==> r == Success(Benchmark(spec))
    ensures rule.AsWritten? ==> r == BenchmarkAsWritten(q, spec)
  {
    if rule.Intended? then Success(Benchmark(spec)) else BenchmarkAsWritten(q, spec)
  }

  /** A time constant the gate duration is divided by. */
  predicate UsableTime(spec: QubitSpec, key: string) {
    key in spec && spec[key].Number? && spec[key].x != 0.0
  }

  function CheckTime(q: int, spec: QubitSpec, key: string): (r: Outcome<NoiseError>)
    ensures r.Pass? <==> UsableTime(spec, key)
    ensures r.Fail? ==> r.error in {MissingSpec(q, key), NotANumber(q, key), ZeroTime(q, key)}
  {
    if key !in spec then Fail(MissingSpec(q, key))
    else if spec[key].NoneValue? then Fail(NotANumber(q, key))
    else if spec[key].x == 0.0 then Fail(ZeroTime(q, key))
    else Pass
  }

  /** The channels of one qubit, in order: amplitude damping from T1,
      phase damping from T2, depolarizing when the benchmark fidelity is
      truthy, and the readout bit flip. */
  function QubitChannels(rule: BenchmarkRule, q: int, spec: QubitSpec): (r: Result<seq<Channel>, NoiseError>)
    ensures r.Success? <==>
      && UsableTime(spec, "T1") && UsableTime(spec, "T2")
      && BenchmarkBy(rule, q, spec).Success?
      && "READOUT" in spec && spec["READOUT"].Number?
    ensures r.Success? ==>
      && 3 <= |r.value| <= 4
      && r.value[0] == AmplitudeDamping(q) && r.value[1] == PhaseDamping(q)
      && r.value[|r.value| - 1] == ReadoutBitFlip(q)
      && (|r.value| == 4 <==> Truthy(BenchmarkBy(rule, q, spec).value))
      && (|r.value| == 4 ==> r.value[2] == Depolarizing(q))
    ensures r.Success? ==> forall ch :: ch in r.value ==> !ch.TwoQubitDepolarizing? && ch.qubit == q
  {
    var t1 := CheckTime(q, spec, "T1");
    var t2 := CheckTime(q, spec, "T2");
    if t1.Fail? then Failure(t1.error)
    else if t2.Fail? then Failure(t2.error)
    else
      match BenchmarkBy(rule, q, spec)
      case Failure(e) => Failure(e)
      case Success(b) =>
        if "READOUT" !in spec then Failure(MissingSpec(q, "READOUT"))
        else if spec["READOUT"].NoneValue? then Failure(NotANumber(q, "READOUT"))
        else
          Success([AmplitudeDamping(q), PhaseDamping(q)] + (if Truthy(b) then [Depolarizing(q)] else []) + [ReadoutBitFlip(q)])
  }

  /** The channel list of each qubit, in dict order, when every qubit's
      spec gives one. */
  function QubitLists(rule: BenchmarkRule, specs: seq<(int, QubitSpec)>): (r: seq<seq<Channel>>)
    requires forall i :: 0 <= i < |specs| ==> QubitChannels(rule, specs[i].0, specs[i].1).Success?
    ensures |r| == |specs|
    ensures forall i :: 0 <= i < |specs| ==> r[i] == QubitChannels(rule, specs[i].0, specs[i].1).value
  {
    seq(|specs|, i requires 0 <= i < |specs| => QubitChannels(rule, specs[i].0, specs[i].1).value)
  }

  /** All qubits in dict order; the first qubit whose spec raises ends the
      strategy. */
  function AllQubitChannels(rule: BenchmarkRule, specs: seq<(int, QubitSpec)>): (r: Result<seq<Channel>, NoiseError>)
    ensures r.Success? <==> forall i :: 0 <= i < |specs| ==> QubitChannels(rule, specs[i].0, specs[i].1).Success?
    ensures r.Success? ==> r.value == Concat(QubitLists(rule, specs))
    ensures r.Failure? ==> exists i ::
      && 0 <= i < |specs| && QubitChannels(rule, specs[i].0, specs[i].1) == Failure(r.error)
      && forall j :: 0 <= j < i ==> QubitChannels(rule, specs[j].0, specs[j].1).Success?
    ensures r.Success? ==> 3 * |specs| <= |r.value| <= 4 * |specs|
    ensures r.Success? ==> forall ch :: ch in r.value ==> !ch.TwoQubitDepolarizing? && ch.qubit in Keys(specs)
  {
    var outs := seq(|specs|, i requires 0 <= i < |specs| => QubitChannels(rule, specs[i].0, specs[i].1));
    match FirstFailureAt(outs, 0)
    case Some(i) =>
      assert outs[i] == QubitChannels(rule, specs[i].0, specs[i].1);
      assert forall j :: 0 <= j < i ==> outs[j] == QubitChannels(rule, specs[j].0, specs[j].1);
      Failure(outs[i].error)
    case None =>
      assert forall j :: 0 <= j < |specs| ==> outs[j] == QubitChannels(rule, specs[j].0, specs[j].1);
      QubitListsConcat(rule, specs);
      Success(Concat(QubitLists(rule, specs)))
  }

  /** The qubits' lists together: three or four channels per qubit, none of
      them two-qubit, each on one of the qubits. */
  lemma QubitListsConcat(rule: BenchmarkRule, specs: seq<(int, QubitSpec)>)
    requires forall i :: 0 <= i < |specs| ==> QubitChannels(rule, specs[i].0, specs[i].1).Success?
    ensures 3 * |specs| <= |Concat(QubitLists(rule, specs))| <= 4 * |specs|
    ensures forall ch :: ch in Concat(QubitLists(rule, specs)) ==> !ch.TwoQubitDepolarizing? && ch.qubit in Keys(specs)
  {
    var lists := QubitLists(rule, specs);
    ConcatLength(lists, 3, 4);
    ConcatContains(lists);
    forall ch: Channel | ch in Concat(lists) ensures !ch.TwoQubitDepolarizing? && ch.qubit in Keys(specs) {
      var i :| 0 <= i < |lists| && ch in lists[i];
      assert Keys(specs)[i] == specs[i].0;
    }
  }

  /** Both orderings of an edge. */
  function BothOrders(e: seq<int>): seq<(int, int)>
    requires |e| >= 2
  {
    [(e[0], e[1]), (e[1], e[0])]
  }

  /** The gate names of an edge's fidelities, in list order. */
  function GateNamesOf(fs: seq<GateFidelity>): (r: seq<string>)
    ensures |r| == |fs|
    ensures forall k :: 0 <= k < |fs| ==> r[k] == fs[k].gateName
  {
    seq(|fs|, k requires 0 <= k < |fs| => fs[k].gateName)
  }

  /** The listed gates the circuit library knows, in list order and with
      repetitions. */
  function KnownGates(isGate: string -> bool, fs: seq<GateFidelity>): seq<string> {
    Filter(isGate, GateNamesOf(fs))
  }

  /** The channels of one edge: one two-qubit depolarizing channel per
      fidelity whose gate the circuit library knows, in list order; the rest
      are skipped. */
  function GateChannels(isGate: string -> bool, e: seq<int>, fs: seq<GateFidelity>): (r: seq<Channel>)
    requires |e| >= 2
    ensures |r| == |KnownGates(isGate, fs)|
    ensures forall j :: 0 <= j < |r| ==> r[j] == TwoQubitDepolarizing(KnownGates(isGate, fs)[j], BothOrders(e))
    ensures forall ch :: ch in r ==>
      && ch.TwoQubitDepolarizing? && isGate(ch.gate) && ch.pairs == BothOrders(e)
      && exists k :: 0 <= k < |fs| && fs[k].gateName == ch.gate
    ensures forall k :: 0 <= k < |fs| && isGate(fs[k].gateName) ==> TwoQubitDepolarizing(fs[k].gateName, BothOrders(e)) in r
    ensures |r| <= |fs|
  {
    var known := KnownGates(isGate, fs);
    var names := GateNamesOf(fs);
    var r := seq(|known|, j requires 0 <= j < |known| => TwoQubitDepolarizing(known[j], BothOrders(e)));
    assert forall ch :: ch in r ==> ch.gate in known by {
      forall ch | ch in r ensures ch.gate in known {
        var j :| 0 <= j < |r| && r[j] == ch;
      }
    }
    assert forall k :: 0 <= k < |fs| ==> names[k] in names;
    forall k | 0 <= k < |fs| && isGate(fs[k].gateName)
      ensures TwoQubitDepolarizing(fs[k].gateName, BothOrders(e)) in r
    {
      assert fs[k].gateName in known;
      var j :| 0 <= j < |known| && known[j] == fs[k].gateName;
      assert r[j] == TwoQubitDepolarizing(fs[k].gateName, BothOrders(e));
    }
    r
  }

  /** A two-qubit depolarizing channel for a known gate, attached to both
      orderings of some edge that lists that gate. */
  ghost predicate EdgeChannelOf(isGate: string -> bool, edges: seq<(seq<int>, seq<GateFidelity>)>, ch: Channel) {
    && ch.TwoQubitDepolarizing? && isGate(ch.gate)
    && exists i, k ::
      && 0 <= i < |edges| && 0 <= k < |edges[i].1| && |edges[i].0| >= 2
      && edges[i].1[k].gateName == ch.gate && ch.pairs == BothOrders(edges[i].0)
  }

  /** The channel list of each edge, in dict order. */
  function EdgeLists(isGate: string -> bool, edges: seq<(seq<int>, seq<GateFidelity>)>): (r: seq<seq<Channel>>)
    requires forall i :: 0 <= i < |edges| ==> |edges[i].0| >= 2
    ensures |r| == |edges|
    ensures forall i :: 0 <= i < |edges| ==> r[i] == GateChannels(isGate, edges[i].0, edges[i].1)
  {
    seq(|edges|, i requires 0 <= i < |edges| => GateChannels(isGate, edges[i].0, edges[i].1))
  }

  /** Every edge in dict order. */
  function AllEdgeChannels(isGate: string -> bool, edges: seq<(seq<int>, seq<GateFidelity>)>): (r: seq<Channel>)
    requires forall i :: 0 <= i < |edges| ==> |edges[i].0| >= 2
    ensures r == Concat(EdgeLists(isGate, edges))
    ensures forall ch :: ch in r ==> EdgeChannelOf(isGate, edges, ch)
    ensures forall i, k :: 0 <= i < |edges| && 0 <= k < |edges[i].1| && isGate(edges[i].1[k].gateName) ==>
      TwoQubitDepolarizing(edges[i].1[k].gateName, BothOrders(edges[i].0)) in r
  {
    var lists := EdgeLists(isGate, edges);
    ConcatContains(lists);
    assert forall ch :: ch in Concat(lists) ==> EdgeChannelOf(isGate, edges, ch) by {
      forall ch | ch in Concat(lists) ensures EdgeChannelOf(isGate, edges, ch) {
        var i :| 0 <= i < |lists| && ch in lists[i];
        var k :| 0 <= k < |edges[i].1| && edges[i].1[k].gateName == ch.gate;
      }
    }
    assert forall i, k :: 0 <= i < |edges| && 0 <= k < |edges[i].1| && isGate(edges[i].1[k].gateName) ==>
      TwoQubitDepolarizing(edges[i].1[k].gateName, BothOrders(edges[i].0)) in Concat(lists) by {
      forall i, k | 0 <= i < |edges| && 0 <= k < |edges[i].1| && isGate(edges[i].1[k].gateName)
        ensures TwoQubitDepolarizing(edges[i].1[k].gateName, BothOrders(edges[i].0)) in Concat(lists)
      {
        assert TwoQubitDepolarizing(edges[i].1[k].gateName, BothOrders(edges[i].0)) in lists[i];
      }
    }
    Concat(lists)
  }

  /** `_setup_basic_noise_model_strategy`: the qubit channels, qubit by
      qubit, then the edge channels; no single-qubit channel follows a
      two-qubit one. */
  function NoiseStrategy(rule: BenchmarkRule, isGate: string -> bool, c: CalibrationData): (r: Result<seq<Channel>, NoiseError>)
    requires Calibrated(c)
    ensures r.Success? <==> AllQubitChannels(rule, c.singleQubitSpecs).Success?
    ensures r.Failure? ==> r == Failure(AllQubitChannels(rule, c.singleQubitSpecs).error)
    ensures r.Success? ==> r.value == AllQubitChannels(rule, c.singleQubitSpecs).value + AllEdgeChannels(isGate, c.edgeSpecs)
    ensures r.Success? ==> forall i, j :: 0 <= i < j < |r.value| && r.value[i].TwoQubitDepolarizing? ==>
      r.value[j].TwoQubitDepolarizing?
    ensures r.Success? ==> forall ch :: ch in r.value && !ch.TwoQubitDepolarizing? ==> ch.qubit in c.labels
    ensures r.Success? ==> forall ch :: ch in r.value && ch.TwoQubitDepolarizing? ==>
      isGate(ch.gate) && exists i :: 0 <= i < |c.edgeSpecs| && ch.pairs == BothOrders(c.edgeSpecs[i].0)
  {
    match AllQubitChannels(rule, c.singleQubitSpecs)
    case Failure(e) => Failure(e)
    case Success(qs) =>
      var es := AllEdgeChannels(isGate, c.edgeSpecs);
      QubitChannelsLabelled(rule, c);
      SinglesBeforePairs(qs, es);
      Success(qs + es)
  }

  /** Every single-qubit channel names a calibrated qubit. */
  lemma QubitChannelsLabelled(rule: BenchmarkRule, c: CalibrationData)
    requires Calibrated(c)
    requires AllQubitChannels(rule, c.singleQubitSpecs).Success?
    ensures forall ch :: ch in AllQubitChannels(rule, c.singleQubitSpecs).value ==> ch.qubit in c.labels
  {
    forall ch | ch in AllQubitChannels(rule, c.singleQubitSpecs).value ensures ch.qubit in c.labels {
      var i :| 0 <= i < |c.singleQubitSpecs| && Keys(c.singleQubitSpecs)[i] == ch.qubit;
    }
  }

  /** Single-qubit channels followed by two-qubit ones: no single-qubit
      channel comes after a two-qubit one. */
  lemma SinglesBeforePairs(qs: seq<Channel>, es: seq<Channel>)
    requires forall ch :: ch in qs ==> !ch.TwoQubitDepolarizing?
    requires forall ch :: ch in es ==> ch.TwoQubitDepolarizing?
    ensures forall i, j :: 0 <= i < j < |qs + es| && (qs + es)[i].TwoQubitDepolarizing? ==>
      (qs + es)[j].TwoQubitDepolarizing?
  {
    var r := qs + es;
    forall i, j | 0 <= i < j < |r| && r[i].TwoQubitDepolarizing? ensures r[j].TwoQubitDepolarizing? {
      if i < |qs| { assert false; }
      assert r[j] in es;
    }
  }

  /** `GateDeviceNoiseModel(arn, device)`: the calibration data, then the
      strategy; a device with neither standardized nor IonQ data leaves the
      calibration data None, and reading its durations is an
      AttributeError. */
  function DeviceNoiseModel(rule: BenchmarkRule, isGate: string -> bool, d: Device, props: DeviceProperties): (r: Result<seq<Channel>, NoiseError>)
    ensures props.standardized.None? && !d.IonQDevice? ==> r == Failure(NoCalibrationData)
    ensures props.standardized.Some? && GateDurations(d).None? ==> r == Failure(NoGateDurations(d))
    ensures props.standardized.None? && d.IonQDevice? && props.ionq.None? ==> r == Failure(NoProviderProperties)
    ensures SetupCalibrationData(d, props).Failure? ==> r == Failure(SetupCalibrationData(d, props).error)
    ensures SetupCalibrationData(d, props).Success? && SetupCalibrationData(d, props).value.Some? ==>
      r == NoiseStrategy(rule, isGate, SetupCalibrationData(d, props).value.value)
  {
    match SetupCalibrationData(d, props)
    case Failure(e) => Failure(e)
    case Success(None) => Failure(NoCalibrationData)
    case Success(Some(c)) => NoiseStrategy(rule, isGate, c)
  }

  // ---------------------------------------------------------------------
  // The two benchmark rules compared
  // ---------------------------------------------------------------------

  /** Wherever every qubit has a simultaneous benchmark with a value, the
      two rules give the same noise. */
  lemma RulesAgreeWithSimultaneousBenchmark(isGate: string -> bool, c: CalibrationData)
    requires Calibrated(c)
    requires forall i :: 0 <= i < |c.singleQubitSpecs| ==>
      "SIMULTANEOUS_RANDOMIZED_BENCHMARKING" in c.singleQubitSpecs[i].1
      && c.singleQubitSpecs[i].1["SIMULTANEOUS_RANDOMIZED_BENCHMARKING"].Number?
    ensures NoiseStrategy(AsWritten, isGate, c) == NoiseStrategy(Intended, isGate, c)
  {
    assert forall i :: 0 <= i < |c.singleQubitSpecs| ==>
      QubitChannels(AsWritten, c.singleQubitSpecs[i].0, c.singleQubitSpecs[i].1)
      == QubitChannels(Intended, c.singleQubitSpecs[i].0, c.singleQubitSpecs[i].1);
    AllQubitRulesAgree(c.singleQubitSpecs);
  }

  lemma AllQubitRulesAgree(specs: seq<(int, QubitSpec)>)
    requires forall i :: 0 <= i < |specs| ==>
      QubitChannels(AsWritten, specs[i].0, specs[i].1) == QubitChannels(Intended, specs[i].0, specs[i].1)
    ensures AllQubitChannels(AsWritten, specs) == AllQubitChannels(Intended, specs)
  {
    var w := seq(|specs|, i requires 0 <= i < |specs| => QubitChannels(AsWritten, specs[i].0, specs[i].1));
    var n := seq(|specs|, i requires 0 <= i < |specs| => QubitChannels(Intended, specs[i].0, specs[i].1));
    assert w == n;
    if AllQubitChannels(AsWritten, specs).Success? {
      assert QubitLists(AsWritten, specs) == QubitLists(Intended, specs);
    }
  }

  /** A qubit calibrated with only the plain randomized benchmark: as
      written the strategy raises a TypeError; as intended the qubit gets
      its depolarizing channel. */
  lemma MissingSimultaneousBenchmarkExample()
    ensures var spec := map["T1" := Number(0.5), "T2" := Number(0.2),
                            "RANDOMIZED_BENCHMARKING" := Number(0.99), "READOUT" := Number(0.95)];
      && QubitChannels(AsWritten, 0, spec) == Failure(UnhashableKey(0))
      && Raises(UnhashableKey(0)) == TypeError
      && QubitChannels(Intended, 0, spec) == Success([AmplitudeDamping(0), PhaseDamping(0), Depolarizing(0), ReadoutBitFlip(0)])
  {
    var spec := map["T1" := Number(0.5), "T2" := Number(0.2),
                    "RANDOMIZED_BENCHMARKING" := Number(0.99), "READOUT" := Number(0.95)];
    assert "SIMULTANEOUS_RANDOMIZED_BENCHMARKING" !in spec;
    assert UsableTime(spec, "T1") && UsableTime(spec, "T2");
    var r := QubitChannels(Intended, 0, spec).value;
    assert Truthy(Benchmark(spec));
    assert |r| == 4;
    assert r[0] == AmplitudeDamping(0) && r[1] == PhaseDamping(0);
    assert r[2] == Depolarizing(0) && r[3] == ReadoutBitFlip(0);
    assert r == [AmplitudeDamping(0), PhaseDamping(0), Depolarizing(0), ReadoutBitFlip(0)];
  }

  /** On an IonQ device, as written, no qubit ever gets a depolarizing
      channel: the simultaneous benchmark is present but None.  As intended,
      every qubit gets one whenever the averaged fidelity is nonzero. */
  lemma IonQDepolarizing(p: IonQProperties, q: int)
    requires p.t1 != 0.0 && p.t2 != 0.0
    ensures var s := IonQQubitSpec(p);
      && QubitChannels(AsWritten, q, s) == Success([AmplitudeDamping(q), PhaseDamping(q), ReadoutBitFlip(q)])
      && (p.oneQubitFidelity != 0.0 ==>
          QubitChannels(Intended, q, s) == Success([AmplitudeDamping(q), PhaseDamping(q), Depolarizing(q), ReadoutBitFlip(q)]))
  {
    var s := IonQQubitSpec(p);
    assert UsableTime(s, "T1") && UsableTime(s, "T2");
    var w := QubitChannels(AsWritten, q, s).value;
    assert |w| == 3 && w[0] == AmplitudeDamping(q) && w[1] == PhaseDamping(q) && w[2] == ReadoutBitFlip(q);
    assert w == [AmplitudeDamping(q), PhaseDamping(q), ReadoutBitFlip(q)];
    if p.oneQubitFidelity != 0.0 {
      assert Truthy(Benchmark(s));
      var r := QubitChannels(Intended, q, s).value;
      assert |r| == 4 && r[2] == Depolarizing(q) && r[3] == ReadoutBitFlip(q);
      assert r == [AmplitudeDamping(q), PhaseDamping(q), Depolarizing(q), ReadoutBitFlip(q)];
    }
  }

  /** The whole IonQ model as written: no depolarizing channel at all. */
  lemma {:induction false} IonQNoDepolarizingAsWritten(isGate: string -> bool, p: IonQProperties)
    requires p.t1 != 0.0 && p.t2 != 0.0
    ensures NoiseStrategy(AsWritten, isGate, IonQSetup(p).value).Success?
    ensures forall ch :: ch in NoiseStrategy(AsWritten, isGate, IonQSetup(p).value).value ==> !ch.Depolarizing?
  {
    var c := IonQSetup(p).value;
    forall i | 0 <= i < |c.singleQubitSpecs|
      ensures QubitChannels(AsWritten, c.singleQubitSpecs[i].0, c.singleQubitSpecs[i].1)
        == Success([AmplitudeDamping(c.singleQubitSpecs[i].0), PhaseDamping(c.singleQubitSpecs[i].0), ReadoutBitFlip(c.singleQubitSpecs[i].0)])
    {
      IonQDepolarizing(p, c.singleQubitSpecs[i].0);
    }
    NoDepolarizingWithoutBenchmark(c.singleQubitSpecs);
  }

  lemma NoDepolarizingWithoutBenchmark(specs: seq<(int, QubitSpec)>)
    requires forall i :: 0 <= i < |specs| ==>
      QubitChannels(AsWritten, specs[i].0, specs[i].1)
      == Success([AmplitudeDamping(specs[i].0), PhaseDamping(specs[i].0), ReadoutBitFlip(specs[i].0)])
    ensures AllQubitChannels(AsWritten, specs).Success?
    ensures forall ch :: ch in AllQubitChannels(AsWritten, specs).value ==> !ch.Depolarizing?
  {
    var lists := QubitLists(AsWritten, specs);
    ConcatContains(lists);
    forall ch: Channel | ch in Concat(lists) ensures !ch.Depolarizing? {
      var i :| 0 <= i < |lists| && ch in lists[i];
      assert lists[i] == [AmplitudeDamping(specs[i].0), PhaseDamping(specs[i].0), ReadoutBitFlip(specs[i].0)];
    }
  }
}
