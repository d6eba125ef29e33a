# Braket emulation layer, modelled in Dafny

This project models the emulation layer of the Amazon Braket Python SDK.
The emulator stands in for a real QPU. It validates and rewrites a program
before a local simulator runs it, so the program gets the same treatment the
device would give it. The model covers these parts:

- **Device-derived validators for gate-model QPUs.** From a QPU's reported
  capabilities the factory builds several validators:
  - a qubit-count validator;
  - gate-set criteria: supported gates, and native gates inside verbatim
    boxes;
  - a qubit-connectivity criterion, which adds the missing back edges for
    IQM;
  - a gate-connectivity criterion. For Rigetti and IQM its edges are labelled
    from per-edge calibration data. For IonQ it uses the native gate set.

  Device gate names are translated into Braket gate names per hardware
  family.
- **Verbatim-box scans.** Every gate validator is built from these. A scan
  finds the stretch after a `StartVerbatimBox` up to the next
  `EndVerbatimBox`, and it fails on a box that is never closed.
- **The AHS (analog Hamiltonian simulation) validators:**
  - the capability constants flattened from a QuEra document;
  - the atom-arrangement rules (non-empty, site precision, site count, rows,
    filled sites);
  - the driving-field rules (start and end values, time precision,
    separation, value precision, slopes, phase start);
  - the local-detuning rules;
  - the Hamiltonian check;
  - `validate_program`, which chains all of them.
- **Pass orchestration:**
  - `run_passes` threads a program through every pass;
  - `validate` calls only the validation passes;
  - `add_pass` extends or appends the pass list. It comes in a current and an
    earlier version.
- **The gate-device noise model:**
  - calibration data built from standardized device properties, or from
    IonQ's averaged provider data;
  - validation of that data's qubit labels;
  - the basic noise strategy: amplitude damping, phase damping,
    depolarizing, readout bit flip, and two-qubit depolarizing.
- **The pytket-to-OpenQASM 3 translator:**
  - the QASM context;
  - the writer (header, input declarations, bit register, gate lines,
    measurements);
  - the circuit visitor: no use after measurement, box flattening, free
    symbols declared as float inputs, angles from half-turns to radians.
- **The OpenQASM-to-pytket program context:**
  - qubit registration;
  - gate instructions, including the composed gates `pswap` and
    `cphaseshift00/01/10`;
  - measurements;
  - custom unitaries.
- **The Rz-virtualisation compiler pass.**

Python exceptions are modelled as the `Failure`/`Fail` cases of `Result` and
`Outcome`. Each error datatype maps to the Python exception class it is
raised as, through a `Raises` function. Python dicts are lists of items in
insertion order (`PyDict`). Decimal quantities are `real`s.

Three things are parameters rather than fixed values:

- the gate-name tables: Braket's gate table and pytket's `QASM_TO_PYTKET`;
- sympy's printing of expressions;
- the order in which networkx visits edges.

Each file holds one module. The modules are `Wrappers`, `Text`, `PyDict`,
`Translation`, `DeviceGraphs`, `AhsCapabilities`, `Circuits`, `GateCriteria`,
`Connectivity`, `GateConnectivity`, `QubitCount`, `AhsFields`,
`AtomArrangement`, `DrivingField`, `LocalDetuning`, `Hamiltonian`,
`AhsProgram`, `EmulatorPasses`, `NoiseModel`, `Tket`, `QasmContext`,
`QasmWriter`, `TketToQasm`, `ComposedGates`, `PytketContext` and
`VirtualizeRz`.

## Model

| member | source | states |
|---|---|---|
| Text.NatToString | src/braket/emulators/device_noise_models/gate_device_noise_mode.py:94 | `str(n)` has no sign, no leading zero and at least one digit; it is one digit exactly when n < 10 |
| Text.ParseNatOfNatToString | src/braket/emulators/device_noise_models/gate_device_noise_mode.py:94 | `int(str(n)) == n` for every natural n |
| Text.NatToStringInjective | src/braket/aws/aws_emulation.py:146-159 | distinct qubits print differently |
| Text.ParseEdgeKeyOfEdgeKey | src/braket/emulators/device_noise_models/gate_device_noise_mode.py:100 | reading the `"u-v"` key of a pair back by splitting on `-` gives the pair again |
| Text.EdgeKeyInjective | src/braket/aws/aws_emulation.py:146-159 | two pairs share a calibration key exactly when they are the same pair |
| Text.JoinAppend | src/braket/emulation/pytket_translator/qasm3_gen/qasm_writer.py:89-93 | joining one more part adds the separator and the part at the end, with no separator before the first part |
| Text.Lower | src/braket/emulators/emulator_passes/criteria/gate_criterion.py:11-26 | the ASCII model of `lower()`: the length is kept, the result holds no ASCII capital, each capital becomes its small letter and every other character is unchanged |
| Text.LowerIdempotent | src/braket/emulators/emulator_passes/criteria/gate_criterion.py:11-26 | lower-casing twice is lower-casing once, so lower-cased gate names compare stably |
| Text.LowerWithoutCapitals | src/braket/emulators/emulator_passes/criteria/gate_criterion.py:11-26 | a name without ASCII capitals is unchanged by lower-casing |
| PyDict.KeyIndex | src/braket/emulation/pytket_translator/qasm3_gen/qasm_context.py:32-33 | the first binding of a key; absent exactly when the key is not in the dict |
| PyDict.Lookup | src/braket/emulation/pytket_translator/qasm3_gen/qasm_context.py:32-33 | `d.get(k)` is present exactly for the dict's keys, and it is the key's unique binding when keys are distinct |
| PyDict.Put | src/braket/emulation/pytket_translator/qasm3_gen/qasm_context.py:32-33 | `d[k] = v` keeps an existing key in place and appends a new one, keeps keys distinct, and afterwards `d[k]` is v |
| PyDict.PutLeavesOthers | src/braket/emulators/pytket_translator/pytket_program_context.py:85 | assigning one key leaves every other key's binding alone |
| PyDict.PutIdempotent | src/braket/emulation/pytket_translator/qasm3_gen/qasm_context.py:32-33 | assigning the same value twice is assigning it once |
| PyDict.DictOf | src/braket/emulators/device_noise_models/gate_device_noise_mode.py:114-116 | a dict comprehension has distinct keys, exactly the keys of its items |
| PyDict.DictOfLastWins | src/braket/emulators/device_noise_models/gate_device_noise_mode.py:114-116 | in a comprehension the last binding of each key wins |
| PyDict.DictOfDistinct | src/braket/emulators/device_noise_models/gate_device_noise_mode.py:99-101 | items whose keys are already distinct are their own dict |
| PyDict.PutAllLastWins | src/braket/emulators/pytket_translator/pytket_program_context.py:82-85 | after a run of assignments a key holds the value of its last assignment |
| PyDict.PutAllLeavesOthers | src/braket/emulators/pytket_translator/pytket_program_context.py:82-85 | a key that no assignment names keeps its value |
| PyDict.AppendLeavesOthers | src/braket/emulation/pytket_translator/qasm3_gen/qasm_context.py:32-33 | appending a new key leaves the first binding of every other key where it was |
| Translation.TranslationTable | src/braket/aws/aws_emulation.py:228-237 | the Rigetti table is exactly CPHASE to CPhaseShift; the IonQ table is exactly GPI to GPi and GPI2 to GPi2; other families have none |
| Translation.TranslateName | src/braket/aws/aws_emulation.py:214-237 | a table key becomes its entry; every other name passes through unchanged |
| Translation.TranslateNames | src/braket/aws/aws_emulation.py:191-211 | a string gives a string and a list gives a list of the same length, each element translated in place |
| Translation.TranslatedSet | src/braket/aws/aws_emulation.py:146-159 | the set of translated names is exactly the image of the list |
| Translation.TranslateNameIdempotent | src/braket/aws/aws_emulation.py:214-237 | translating twice is translating once |
| Translation.TranslateNamesIdempotent | src/braket/aws/aws_emulation.py:191-211 | the list form is idempotent as well |
| Translation.TranslateNameChangesOnlyKeys | src/braket/aws/aws_emulation.py:214-237 | a name changes exactly when its family's table lists it |
| Translation.KnownTranslations | src/braket/aws/aws_emulator_helpers.py:168-214 | the concrete translations the factory relies on, including pass-through of an unknown name in a list |
| DeviceGraphs.Reversed | src/braket/aws/aws_emulation.py:110-119 | (u, v) is reversed exactly when (v, u) was an edge |
| DeviceGraphs.Symmetrize | src/braket/aws/aws_emulation.py:110-119 | adding every reverse edge gives a symmetric superset that holds nothing but edges and their reverses |
| DeviceGraphs.SymmetrizeLeast | src/braket/aws/aws_emulation.py:110-119 | the symmetric closure lies inside every symmetric superset |
| DeviceGraphs.SymmetrizeIdempotent | src/braket/aws/aws_emulation.py:110-119 | closing twice is closing once |
| DeviceGraphs.ConnectivityGraph | src/braket/aws/aws_emulation.py:101-119 | every family except IQM keeps its graph; IQM gets the same nodes, every old edge, a symmetric edge set, and only edges or their reverses |
| DeviceGraphs.CalibratedGates | src/braket/aws/aws_emulation.py:146-159 | each device edge is labelled with the translated names of its `"u-v"` calibration entry, or with nothing when the entry is missing |
| DeviceGraphs.BackEdgeClosure | src/braket/aws/aws_emulation.py:161-169 | the closure has the symmetric edge set; a gated edge keeps its gates; a reverse that is missing or empty takes the forward edge's gates; an empty edge without a reverse stays empty |
| DeviceGraphs.VisitOneMore | src/braket/aws/aws_emulation.py:161-169 | one more loop iteration moves between intermediate labellings, whatever edges were visited before |
| DeviceGraphs.AddBackEdges | src/braket/aws/aws_emulation.py:161-169 | the back-edge loop gives the closure in any visiting order |
| DeviceGraphs.BackEdgeClosureIsStable | src/braket/aws/aws_emulation.py:161-169 | visiting an edge the loop added, or any edge again, changes nothing |
| DeviceGraphs.GateConnectivityGraph | src/braket/aws/aws_emulation.py:129-188 | fails exactly for families other than Rigetti, IQM and IonQ; keeps the node set; Rigetti and IQM get the back-edge closure of their calibrated labels; IonQ gives each existing edge the translated native gate set |
| DeviceGraphs.UncalibratedEdgeKept | src/braket/aws/aws_emulation.py:146-159 | an edge without calibration data is kept rather than rejected, and it has no gates unless its reverse lends some |
| DeviceGraphs.CalibratedEdgeGates | src/braket/aws/aws_emulation.py:146-169 | a calibrated gate name, translated, labels its edge and also its reverse, unless the reverse has gates of its own |
| AhsCapabilities.LocalBlock | src/braket/aws/aws_emulation.py:304-321 | each LOCAL_* and MAGNITUDE_PATTERN_* constant is the matching field of the document's local block, each range split into MIN and MAX |
| AhsCapabilities.FlattenQuera | src/braket/aws/aws_emulation.py:265-323 | every constant comes from its document field, each range split into MIN and MAX; the local flag is set exactly when the local block exists, and the local constants are present exactly then |
| AhsCapabilities.AhsConstants | src/braket/aws/aws_emulation.py:256-265 | only QuEra capabilities are registered; anything else is NotImplemented |
| AhsCapabilities.WithoutLocalBlock | src/braket/aws/aws_emulation.py:304-323 | dropping the local block changes only the flag and the local constants |
| Circuits.InstructionQubits | src/braket/emulators/emulator_passes/criteria/qubit_count_criterion.py:16-32 | a gate acts on exactly its controls and targets, a measurement or noise channel on exactly its targets, and the verbatim-box directives on none |
| Circuits.CircuitQubits | src/braket/emulators/emulator_passes/criteria/qubit_count_criterion.py:16-32 | a circuit's instruction qubits are exactly the qubits some instruction acts on |
| Circuits.ResultTypeQubits | src/braket/emulators/emulator_passes/criteria/qubit_count_criterion.py:28 | result types add exactly the targets of the observable ones |
| Circuits.UsedQubits | src/braket/emulators/emulator_passes/criteria/qubit_count_criterion.py:28 | the qubits `qubit_count` counts: those of any instruction, measurements and noise included, and the targets of observable result types |
| Circuits.BoxEnd | src/braket/emulators/emulator_passes/criteria/gate_connectivity_criterion.py:63-81 | the first EndVerbatimBox at or after j, or the length of the list when there is none |
| Circuits.ScanBox | src/braket/emulators/emulator_passes/criteria/gate_connectivity_criterion.py:62-86 | a box scan that runs off the end saw no end marker; a clean scan found one; a reported error comes from a gate in the scanned stretch |
| Circuits.ScanEveryBox | src/braket/emulators/emulator_passes/criteria/gate_connectivity_criterion.py:59-87 | an unclosed result names a Start with no End after it; a reported error comes from a gate of the circuit |
| Circuits.ScanSequential | src/braket/emulators/emulator_passes/criteria/gate_criterion.py:28-51 | as for ScanEveryBox, with the error coming from either the inside check or the outside check |
| Circuits.ScanAll | src/braket/emulators/emulator_passes/gate_device_criteria/connectivity_criterion.py:107-120 | a whole-circuit scan never reports an open box, and any error comes from a gate |
| Circuits.ScanAllOutcome | src/braket/emulators/emulator_passes/gate_device_criteria/connectivity_criterion.py:107-120 | the whole-circuit validation passes exactly when every gate passes its check, and otherwise raises the error of a gate that fails it |
| Circuits.ToOutcome | src/braket/emulators/emulator_passes/criteria/gate_connectivity_criterion.py:83-86 | a scan passes exactly when it is clean; an open box becomes the given exception at the end index |
| Circuits.ScanBoxClean | src/braket/emulators/emulator_passes/criteria/gate_connectivity_criterion.py:62-86 | a box scan is clean exactly when the box is closed and every gate before its end passes |
| Circuits.ScanAllClean | src/braket/emulators/emulator_passes/gate_device_criteria/connectivity_criterion.py:107-120 | a whole-circuit scan is clean exactly when every gate passes |
| Circuits.InBoxOf | src/braket/emulators/emulator_passes/criteria/gate_connectivity_criterion.py:62-65 | a gate belongs to the box opened at s exactly when no End lies between them |
| Circuits.ScanEveryBoxClean | src/braket/emulators/emulator_passes/criteria/gate_connectivity_criterion.py:59-87 | the scan from i is clean exactly when every box opened from i on is |
| Circuits.ScanEveryBoxMeaning | src/braket/emulators/emulator_passes/criteria/gate_connectivity_criterion.py:59-87 | clean exactly when no box is left open and every gate inside some box passes; gates outside boxes are never checked |
| Circuits.ScanSequentialClean | src/braket/emulators/emulator_passes/criteria/gate_criterion.py:28-51 | from a point between boxes, the sequential scan is clean exactly when each later gate passes the check for its position |
| Circuits.SequentialStartCase | src/braket/emulators/emulator_passes/criteria/gate_criterion.py:32-46 | at a Start the obligations split into the box's gates and everything after its End |
| Circuits.OutsideWhenClosed | src/braket/emulators/emulator_passes/criteria/gate_criterion.py:47-50 | between boxes a gate is outside every box |
| Circuits.ClosedBeforeStep | src/braket/emulators/emulator_passes/criteria/gate_criterion.py:47-51 | stepping past a non-Start instruction keeps the scan between boxes |
| Circuits.ScanSequentialMeaning | src/braket/emulators/emulator_passes/criteria/gate_criterion.py:28-51 | clean exactly when no box is left open, every gate in a box passes the inside check and every other gate passes the outside check |
| GateCriteria.Raises | src/braket/emulators/emulator_passes/criteria/gate_criterion.py:41-50 | only the read past the end is an IndexError; every other error is a ValueError |
| GateCriteria.LookupAll | src/braket/emulators/emulator_passes/criteria/gate_criterion.py:21-26 | succeeds exactly when every key is in the table, giving exactly the image of the names; otherwise it reports the first missing key |
| GateCriteria.LookupAllSameNames | src/braket/emulators/emulator_passes/criteria/gate_criterion.py:21-26 | the lookup depends only on which names are listed |
| GateCriteria.NewGateCriterion | src/braket/emulators/emulator_passes/criteria/gate_criterion.py:11-26 | two empty lists are rejected; otherwise it succeeds exactly when every lower-cased name is a table key, and the two sets are exactly the names' table entries |
| GateCriteria.GateCriterionValidateAsWritten | src/braket/emulators/emulator_passes/criteria/gate_criterion.py:28-51 | passes exactly when no box is left open, boxed gates are native and other gates are supported; an open box is an IndexError at the list's length |
| GateCriteria.GateCriterionValidate | src/braket/emulators/emulator_passes/criteria/gate_criterion.py:28-51 | the same acceptance, with every failure a ValueError and an open box reported at the list's length |
| GateCriteria.GateCriterionAsWrittenDiffers | src/braket/emulators/emulator_passes/criteria/gate_criterion.py:45-46 | the two versions accept the same circuits; where the corrected one reports a missing end marker, the written one reads past the end |
| GateCriteria.GateCriterionUnterminatedExample | src/braket/emulators/emulator_passes/criteria/gate_criterion.py:45 | a lone StartVerbatimBox is an IndexError as written and a ValueError corrected |
| GateCriteria.GateCriterionIgnoresOrder | src/braket/emulators/emulator_passes/criteria/gate_criterion.py:53-58 | the criterion, and so its equality, depends only on which names were given |
| GateCriteria.NewNativeGateCriterion | src/braket/emulators/criteria/native_gate_criterion.py:10-22 | an empty list is rejected; otherwise it succeeds exactly when every name is a table key, and the set is exactly their entries |
| GateCriteria.NativeGateValidateAsWritten | src/braket/emulators/criteria/native_gate_criterion.py:25-42 | passes exactly when no box is left open and every boxed gate is native; the read past the end happens only for an open box |
| GateCriteria.NativeGateValidate | src/braket/emulators/criteria/native_gate_criterion.py:25-42 | the same acceptance with every failure a ValueError; a rejected gate is one that is not native |
| GateCriteria.NativeGateUnterminatedExample | src/braket/emulators/criteria/native_gate_criterion.py:40-41 | a lone StartVerbatimBox is an IndexError as written and a ValueError corrected |
| GateCriteria.NativeGateIgnoresOrder | src/braket/emulators/criteria/native_gate_criterion.py:45-47 | the criterion depends only on which names were given |
| GateCriteria.NewSupportedGateCriterion | src/braket/emulators/criteria/supported_gate_criterion.py:9-21 | an empty list is rejected; otherwise it succeeds exactly when every name is a table key, and the set is exactly their entries |
| GateCriteria.SupportedGateValidate | src/braket/emulators/criteria/supported_gate_criterion.py:23-30 | passes exactly when every gate anywhere is supported, and a failure names an unsupported gate |
| GateCriteria.SupportedGateIgnoresOrder | src/braket/emulators/criteria/supported_gate_criterion.py:32-34 | the criterion depends only on which names were given |
| GateCriteria.SupportedImpliesNativeInsideBoxes | src/braket/emulators/criteria/supported_gate_criterion.py:23-30 | with the same gate set, passing the supported check implies passing the native check on a closed circuit |
| Connectivity.Raises | src/braket/emulators/emulator_passes/gate_device_criteria/connectivity_criterion.py:53-154 | the exception class of each connectivity error; a negative node count is networkx's NetworkXError |
| Connectivity.FromDictOfLists | src/braket/emulators/emulator_passes/gate_device_criteria/connectivity_criterion.py:67-76 | (u, v) is an edge exactly when u is a key listing v; the nodes are exactly the keys and the listed successors |
| Connectivity.Range | src/braket/emulators/emulator_passes/gate_device_criteria/connectivity_criterion.py:58-66 | `range(n)` is 0..n-1, and empty for non-positive n |
| Connectivity.RangeHolds | src/braket/emulators/emulator_passes/gate_device_criteria/connectivity_criterion.py:64-66 | the nodes of `complete_graph(n)` are exactly the naturals below n |
| Connectivity.CompleteGraph | src/braket/emulators/emulator_passes/gate_device_criteria/connectivity_criterion.py:58-66 | the nodes are exactly the labels, every edge joins two nodes, and every two distinct nodes are joined |
| Connectivity.CompleteGraphOfDistinct | src/braket/emulators/emulator_passes/gate_device_criteria/connectivity_criterion.py:58-66 | with distinct labels the edges are exactly the ordered pairs of distinct labels |
| Connectivity.CompleteGraphRepeatedLabel | src/braket/emulators/emulator_passes/gate_device_criteria/connectivity_criterion.py:58-66 | a repeated label yields a self-loop |
| Connectivity.NewConnectivityCriterion | src/braket/emulators/emulator_passes/gate_device_criteria/connectivity_criterion.py:15-82 | the no-graph and qubit-argument errors happen exactly when the code raises them; a zero count falls into the TypeError and a negative count into `complete_graph`'s NetworkXError; a positive count gives the nodes 0..n-1 and labels give exactly the labels, every two distinct nodes joined; undirected results are symmetric; without full connectivity the result is exactly the given graph, or the graph of the adjacency dict, and when undirected that graph with every edge mirrored |
| Connectivity.DictOrderIrrelevant | src/braket/emulators/emulator_passes/gate_device_criteria/connectivity_criterion.py:67-76 | the order of each successor list does not matter |
| Connectivity.InstructionConnectivity | src/braket/emulators/emulator_passes/gate_device_criteria/connectivity_criterion.py:122-154 | a two-qubit gate fails only on an unrecognised arrangement or a reported edge that is missing |
| Connectivity.GateCheckMeaning | src/braket/emulators/emulator_passes/gate_device_criteria/connectivity_criterion.py:107-154 | the per-gate check passes exactly when the gate is placeable, and a reported qubit or edge really is missing |
| Connectivity.ConnectivityValidate | src/braket/emulators/emulator_passes/gate_device_criteria/connectivity_criterion.py:84-120 | passes exactly when the circuit has no verbatim box or every gate in it is placeable; a reported qubit or edge is missing from the graph |
| Connectivity.ConnectivityScanMeaning | src/braket/emulators/emulator_passes/gate_device_criteria/connectivity_criterion.py:107-120 | the whole-circuit scan is clean exactly when every gate is placeable |
| Connectivity.OutsideGateChecked | src/braket/emulators/emulator_passes/gate_device_criteria/connectivity_criterion.py:100-120 | once a box exists, a gate outside it on an unknown qubit fails the circuit |
| Connectivity.NewBoxConnectivityCriterion | src/braket/emulators/emulator_passes/criteria/connectivity_criterion.py:32-50 | the earlier constructor tests the qubit arguments by truthiness and never reaches the TypeError; a negative count is the NetworkXError, a positive one gives the nodes 0..n-1, labels give exactly the labels, and every two distinct nodes are joined; a given graph or adjacency dict is used as is |
| Connectivity.ConstructorsAgree | src/braket/emulators/emulator_passes/criteria/connectivity_criterion.py:32-50 | with non-zero, non-empty qubit arguments the two constructors build the same directed graph |
| Connectivity.EmptyLabelsDiffer | src/braket/emulators/emulator_passes/criteria/connectivity_criterion.py:39-42 | an empty label list gives an empty graph in the later constructor and an error in the earlier one |
| Connectivity.BoxInstructionConnectivityAsWritten | src/braket/emulators/emulator_passes/criteria/connectivity_criterion.py:77-97 | a controlled gate is a NameError; a reported edge is missing, with the message naming it reversed |
| Connectivity.BothDirections | src/braket/emulators/emulator_passes/criteria/connectivity_criterion.py:84-94 | two targets pass exactly when both directions are edges |
| Connectivity.BoxInstructionConnectivity | src/braket/emulators/emulator_passes/criteria/connectivity_criterion.py:77-97 | the corrected rule fails only on an unrecognised arrangement or a missing edge |
| Connectivity.BoxGateCheckMeaning | src/braket/emulators/emulator_passes/criteria/connectivity_criterion.py:63-70 | the corrected per-gate check passes exactly when the gate is placeable in the earlier sense |
| Connectivity.BoxConnectivityValidateAsWritten | src/braket/emulators/emulator_passes/criteria/connectivity_criterion.py:52-75 | the read past the end happens only for an open box, at the list's length |
| Connectivity.BoxConnectivityValidate | src/braket/emulators/emulator_passes/criteria/connectivity_criterion.py:52-75 | passes exactly when no box is left open and every boxed gate is placeable |
| Connectivity.BoxControlledGateExample | src/braket/emulators/emulator_passes/criteria/connectivity_criterion.py:82-83 | a boxed controlled gate on an existing edge is a NameError as written and passes corrected |
| Connectivity.BoxUnterminatedExample | src/braket/emulators/emulator_passes/criteria/connectivity_criterion.py:73-74 | a lone StartVerbatimBox is an IndexError as written and a ValueError corrected |
| Connectivity.BoxScansAgree | src/braket/emulators/emulator_passes/criteria/connectivity_criterion.py:57-75 | without controlled two-qubit gates the two scans give the same result |
| Connectivity.BoxScanAgrees | src/braket/emulators/emulator_passes/criteria/connectivity_criterion.py:61-71 | the same holds for a single box |
| GateConnectivity.Raises | src/braket/emulators/emulator_passes/criteria/gate_connectivity_criterion.py:43-116 | a wrong argument is the TypeError, a missing target the IndexError, and everything else a ValueError |
| GateConnectivity.WithBackEdges | src/braket/emulators/emulator_passes/criteria/gate_connectivity_criterion.py:20-29 | the edge set becomes symmetric; existing edges keep their gates and a missing reverse takes the forward edge's gates |
| GateConnectivity.VisitNext | src/braket/emulators/emulator_passes/criteria/gate_connectivity_criterion.py:23-29 | one loop iteration moves between intermediate labellings, whatever was visited before |
| GateConnectivity.FillBackEdges | src/braket/emulators/emulator_passes/criteria/gate_connectivity_criterion.py:22-29 | the loop gives WithBackEdges in any visiting order |
| GateConnectivity.WithBackEdgesIsStable | src/braket/emulators/emulator_passes/criteria/gate_connectivity_criterion.py:23-29 | visiting an edge the loop added changes nothing |
| GateConnectivity.DictNodes | src/braket/emulators/emulator_passes/criteria/gate_connectivity_criterion.py:31-36 | the nodes are exactly the endpoints of the dict's edges |
| GateConnectivity.NewGateConnectivityCriterion | src/braket/emulators/emulator_passes/criteria/gate_connectivity_criterion.py:14-48 | fails exactly for an argument that is neither a graph nor a dict; a directed graph is kept as given; a directed dict becomes exactly its entries; undirected, a dict or a graph gains exactly the reverse of each edge, carrying the gates of the edge it mirrors unless the reverse was itself recorded |
| GateConnectivity.GateEdge | src/braket/emulators/emulator_passes/criteria/gate_connectivity_criterion.py:101-107 | a gate has an edge exactly with one control and one target, or with no control and two targets, and the edge is the one the code builds |
| GateConnectivity.CheckMeaning | src/braket/emulators/emulator_passes/criteria/gate_connectivity_criterion.py:67-116 | the per-gate check passes exactly when the device runs the gate, and each reported fact is true of the graph |
| GateConnectivity.GateConnectivityValidate | src/braket/emulators/emulator_passes/criteria/gate_connectivity_criterion.py:50-87 | passes exactly when no box is left open and every boxed gate runs; each error's facts hold of the graph |
| GateConnectivity.UndirectedRunsBothWays | src/braket/emulators/emulator_passes/criteria/gate_connectivity_criterion.py:37-42 | an undirected dict listing a pair one way supports the pair's gates both ways |
| GateConnectivity.DirectedRunsOneWay | src/braket/emulators/emulator_passes/criteria/gate_connectivity_criterion.py:110-111 | a directed dict does not: the reverse is reported as not connected |
| QubitCount.Raises | src/braket/emulators/emulator_passes/criteria/qubit_count_criterion.py:13-29 | every qubit-count failure is a ValueError |
| QubitCount.NewQubitCountCriterion | src/braket/emulation/emulator_passes/gate_device_passes/qubit_count_validator.py:11-14 | succeeds exactly for a positive count, which becomes the limit |
| QubitCount.QubitCountValidate | src/braket/emulation/emulator_passes/gate_device_passes/qubit_count_validator.py:16-32 | passes exactly when the circuit's qubit count, over instructions and observable result types, is at most the limit; the error reports both numbers |
| QubitCount.NonGateQubitsCount | src/braket/emulation/emulator_passes/gate_device_passes/qubit_count_validator.py:16-32 | a Hadamard on qubit 0 passes a limit of one alone, but fails it with an observable on qubit 1 or a measurement of qubit 1 |
| QubitCount.PrefixPasses | src/braket/emulators/emulator_passes/criteria/qubit_count_criterion.py:16-32 | a prefix of a passing circuit passes |
| QubitCount.ReusingQubitsKeepsVerdict | src/braket/emulators/emulator_passes/criteria/qubit_count_criterion.py:16-32 | an instruction on qubits already used does not change the verdict |
| QubitCount.LargerLimitAccepts | src/braket/emulators/emulator_passes/criteria/qubit_count_criterion.py:16-32 | a larger limit accepts everything a smaller one does |
| AhsFields.Raises | src/braket/emulation/emulation_passes/ahs_passes/device_validators/device_driving_field.py:24-346 | the Python exception of each AHS error |
| AhsFields.FirstIndex | src/braket/emulation/emulation_passes/ahs_passes/device_validators/device_atom_arrangement.py:63-67 | the first index at which the condition holds, with none before it |
| AhsFields.CheckPrecision | src/braket/emulation/emulation_passes/ahs_passes/device_validators/device_driving_field.py:51-72 | reports the first entry that is not a multiple of the precision; every entry before it is one |
| AhsFields.CheckSeparation | src/braket/emulation/emulation_passes/ahs_passes/device_validators/device_driving_field.py:75-95 | reports the first pair of consecutive times closer than the minimum |
| AhsFields.SeparatedSpread | src/braket/emulation/emulation_passes/ahs_passes/device_validators/device_driving_field.py:75-95 | times that pass a positive separation increase strictly, by at least the minimum per step |
| AhsFields.CheckSlope | src/braket/emulation/emulation_passes/ahs_passes/device_validators/device_driving_field.py:124-150 | a missing time is an IndexError, a zero step a division by zero, and a steep step a rule violation at its index |
| AhsFields.SeparationGuardsSlope | src/braket/emulation/emulation_passes/ahs_passes/device_validators/device_driving_field.py:75-150 | once the times pass a positive separation, the slope check never divides by zero |
| AhsFields.GuardedSlope | src/braket/emulation/emulation_passes/ahs_passes/device_validators/device_driving_field.py:142-149 | an empty time or value list skips the slope rule |
| AhsFields.SeparationNeverDividesByZero | src/braket/emulation/emulation_passes/ahs_passes/device_validators/device_driving_field.py:75-150 | the guarded slope rule never divides by zero after the separation rule has passed |
| AtomArrangement.InsertByY | src/braket/emulation/emulation_passes/ahs_passes/device_validators/device_atom_arrangement.py:120 | insertion keeps the list sorted by y and is a permutation that adds exactly the inserted site |
| AtomArrangement.SortByY | src/braket/emulation/emulation_passes/ahs_passes/device_validators/device_atom_arrangement.py:120 | the sort by y is sorted, is a permutation of the sites, and is stable: every row (the sites of one y) keeps its order in the list |
| AtomArrangement.InsertByYKeepsRows | src/braket/emulation/emulation_passes/ahs_passes/device_validators/device_atom_arrangement.py:120 | inserting a site appends it to the end of its own row and leaves every row in its order, so the sort is stable as Python's `sorted` is |
| AtomArrangement.SortByYKeepsSorted | src/braket/emulation/emulation_passes/ahs_passes/device_validators/device_atom_arrangement.py:120 | a list already sorted by y comes back unchanged, so sites of one row are never reordered |
| AtomArrangement.StableSortExample | src/braket/emulation/emulation_passes/ahs_passes/device_validators/device_atom_arrangement.py:120 | for sites (0, 0), (5, 0), (0, 1) the stable sort keeps the list as given |
| AtomArrangement.StableSortReportsAdjacentPair | src/braket/emulation/emulation_passes/ahs_passes/device_validators/device_atom_arrangement.py:120-132 | for that register and a threshold above 1 the reported pair is (5, 0) and (0, 1) at distance 1 |
| AtomArrangement.SortedRowsExample | src/braket/emulation/emulation_passes/ahs_passes/device_validators/device_atom_arrangement.py:124-132 | on the sorted list (0, 0), (5, 0), (0, 1) the row rule skips the equal-y pair and reports the next pair at distance 1 |
| AtomArrangement.RowThreshold | src/braket/emulation/emulation_passes/ahs_passes/device_validators/device_atom_arrangement.py:121-123 | 2 micrometres with local Rydberg control, otherwise MIN_ROW_DISTANCE |
| AtomArrangement.CheckRows | src/braket/emulation/emulation_passes/ahs_passes/device_validators/device_atom_arrangement.py:124-132 | passes exactly when each consecutive pair has the same y or is at least the threshold apart |
| AtomArrangement.SortedGap | src/braket/emulation/emulation_passes/ahs_passes/device_validators/device_atom_arrangement.py:124-132 | in a sorted list, gaps that are zero or at least d between neighbours hold between every pair |
| AtomArrangement.RowsCheckMeaning | src/braket/emulation/emulation_passes/ahs_passes/device_validators/device_atom_arrangement.py:102-133 | the row rule passes exactly when every two sites share a row or are at least the threshold apart |
| AtomArrangement.CheckSitePrecision | src/braket/emulation/emulation_passes/ahs_passes/device_validators/device_atom_arrangement.py:45-72 | reports the first site with a coordinate that is not a multiple of the precision |
| AtomArrangement.AtomArrangementValidate | src/braket/emulation/emulation_passes/ahs_passes/device_validators/device_atom_arrangement.py:20-159 | an empty register fails with NoSites and only then; each error carries the facts its message reports |
| AtomArrangement.AtomArrangementPriority | src/braket/emulation/emulation_passes/ahs_passes/device_validators/device_atom_arrangement.py:20-159 | the rules fire in declared order: for a non-empty register, a site off the precision grid gives the precision rule's report; otherwise too many sites gives TooManySites; otherwise rows closer than the threshold give the row rule's report; otherwise the outcome is the filled-site limit |
| AtomArrangement.AtomArrangementMeaning | src/braket/emulation/emulation_passes/ahs_passes/device_validators/device_atom_arrangement.py:20-159 | the validator accepts exactly the registers that meet every rule, stated without the sort |
| AtomArrangement.SiteOrderIrrelevant | src/braket/emulation/emulation_passes/ahs_passes/device_validators/device_atom_arrangement.py:20-159 | the verdict depends only on which sites are listed |
| AtomArrangement.OneRowPasses | src/braket/emulation/emulation_passes/ahs_passes/device_validators/device_atom_arrangement.py:124-127 | sites in one row pass the row rule whatever their spacing |
| AtomArrangement.SitePrecisionMeaning | src/braket/emulation/emulation_passes/ahs_passes/device_validators/device_atom_arrangement.py:45-72 | the precision rule passes exactly when every site lies on the precision grid |
| AtomArrangement.SortedRowsSeparated | src/braket/emulation/emulation_passes/ahs_passes/device_validators/device_atom_arrangement.py:124-132 | in a list sorted by y, neighbours that share a row or are far enough apart make every two sites so |
| DrivingField.CheckPhaseStart | src/braket/emulation/emulation_passes/ahs_passes/device_validators/device_driving_field.py:199-220 | the phase must start at zero; there is nothing to check when it has no values |
| DrivingField.DrivingFieldValidate | src/braket/emulation/emulation_passes/ahs_passes/device_validators/device_driving_field.py:21-346 | passes exactly when the field meets every amplitude, phase and detuning rule; each failure carries the facts its message reports and names the series it is about |
| DrivingField.DrivingFieldPriority | src/braket/emulation/emulation_passes/ahs_passes/device_validators/device_driving_field.py:21-346 | the rules in declared order: an amplitude that breaks any amplitude rule gives that group's report; otherwise a phase that breaks a phase rule gives the phase group's report; otherwise the outcome is the detuning group's |
| DrivingField.PhaseRangeOnlyWarns | src/braket/emulation/emulation_passes/ahs_passes/device_validators/device_driving_field.py:222-246 | the verdict does not depend on the declared phase range |
| DrivingField.EmptyFieldPasses | src/braket/emulation/emulation_passes/ahs_passes/device_validators/device_driving_field.py:21-346 | a field with three empty series passes whatever the constants |
| DrivingField.AmplitudeRules | src/braket/emulation/emulation_passes/ahs_passes/device_validators/device_driving_field.py:24-150 | the five amplitude rules pass exactly when the amplitude meets them all; a failure names the amplitude and reports its first and last values when they are not zero; within the group the end-point rule fires first, then time precision, time separation, value precision, and last the slope |
| DrivingField.PhaseRules | src/braket/emulation/emulation_passes/ahs_passes/device_validators/device_driving_field.py:152-270 | the phase rules pass exactly when the phase meets them all; a failure is one of the four phase errors, and a nonzero start reports the first value; within the group time precision fires first, then time separation, then the start value, then value precision |
| DrivingField.DetuningRules | src/braket/emulation/emulation_passes/ahs_passes/device_validators/device_driving_field.py:272-346 | the three detuning rules pass exactly when the detuning meets them all; a failure names the detuning and is never about value precision or end points; within the group time precision fires first, then time separation, then the slope |
| LocalDetuning.NonzeroCount | src/braket/emulation/emulation_passes/ahs_passes/device_validators/device_local_detuning.py:65 | the count of nonzero pattern entries is at most the pattern's length |
| LocalDetuning.NonzeroCountIsSites | src/braket/emulation/emulation_passes/ahs_passes/device_validators/device_local_detuning.py:65 | the count is the number of addressed sites |
| LocalDetuning.LocalDetuningValidate | src/braket/emulation/emulation_passes/ahs_passes/device_validators/device_local_detuning.py:19-176 | without local control every local detuning is rejected; absent LOCAL_* constants give a TypeError; with local control the rules fire in declared order: too many nonzero pattern values, then magnitude time precision, then time separation, then the slope, then the end points |
| LocalDetuning.ZeroingEntryLowersCount | src/braket/emulation/emulation_passes/ahs_passes/device_validators/device_local_detuning.py:65-70 | addressing fewer sites never makes the count rule fail |
| LocalDetuning.EmptyMagnitudePasses | src/braket/emulation/emulation_passes/ahs_passes/device_validators/device_local_detuning.py:19-176 | with local control, an empty magnitude passes when few enough sites are addressed |
| Hamiltonian.LocalDetuningList | src/braket/emulation/emulation_passes/ahs_passes/device_validators/device_hamiltonian.py:28 | `values.get("localDetuning", [])` |
| Hamiltonian.HamiltonianValidateAsWritten | src/braket/emulation/emulation_passes/ahs_passes/device_validators/device_hamiltonian.py:12-35 | an absent flag is a KeyError; otherwise local detuning is rejected exactly without local control |
| Hamiltonian.HamiltonianValidate | src/braket/emulation/emulation_passes/ahs_passes/device_validators/device_hamiltonian.py:12-35 | an absent flag means false; rejects exactly when there is no local control and some local detuning, reporting how many |
| Hamiltonian.HamiltonianAgreesWhenFlagGiven | src/braket/emulation/emulation_passes/ahs_passes/device_validators/device_hamiltonian.py:27 | with the flag given the two versions agree |
| Hamiltonian.HamiltonianMissingFlagExample | src/braket/emulation/emulation_passes/ahs_passes/device_validators/device_hamiltonian.py:27 | no flag and no local detuning: accepted as intended, a KeyError as written |
| AhsProgram.DrivingFieldsValidate | src/braket/emulators/emulator_passes/ahs_passes/device_ir_validator.py:49-50 | passes exactly when every driving field does; a failure is the first field's |
| AhsProgram.LocalDetuningsValidate | src/braket/emulators/emulator_passes/ahs_passes/device_ir_validator.py:63-64 | passes exactly when every local detuning does; a failure is the first one's |
| AhsProgram.HamiltonianOf | src/braket/emulators/emulator_passes/ahs_passes/device_ir_validator.py:45-48 | the Hamiltonian check always receives the device's flag |
| AhsProgram.ValidateProgram | src/braket/emulators/emulator_passes/ahs_passes/device_ir_validator.py:31-67 | never the missing-flag KeyError; local detuning on a device without local control is rejected with its count |
| AhsProgram.ValidateProgramMeaning | src/braket/emulators/emulator_passes/ahs_passes/device_ir_validator.py:31-67 | a program passes exactly when every part is acceptable |
| EmulatorPasses.Call | src/braket/passes/base_pass.py:9-30 | a validation pass returns its input unchanged exactly when its check passes; the no-op pass is the identity |
| EmulatorPasses.RunPasses | src/braket/emulation/base_emulator.py:13-28 | no passes leave the program unchanged |
| EmulatorPasses.RunPassesAppend | src/braket/emulation/base_emulator.py:26-28 | running two lists in turn is running their concatenation |
| EmulatorPasses.NoOpAnywhere | src/braket/passes/base_pass.py:29-30 | a no-op pass may be inserted anywhere without changing the run |
| EmulatorPasses.Validate | src/braket/emulation/base_emulator.py:30-41 | passes exactly when every validation pass accepts the unchanged program; a failure comes from the first that rejects |
| EmulatorPasses.RunEqualsValidate | src/braket/emulation/base_emulator.py:13-41 | for validation and no-op passes, compiling gives back the program exactly when validation passes, with the same error otherwise |
| EmulatorPasses.NewEmulator | src/braket/emulation/base_emulator.py:10-11 | no list means an empty one; a given list is kept |
| EmulatorPasses.AddPass | src/braket/emulation/base_emulator.py:43-66 | an iterable extends in order, a pass is appended, anything else is a TypeError that leaves the list alone |
| EmulatorPasses.OldAddPass | src/braket/emulators/emulater_interface.py:37-45 | only an iterator extends; a plain list is a TypeError |
| EmulatorPasses.AddThenRun | src/braket/emulation/base_emulator.py:43-66 | adding passes and then compiling runs the old passes and then the new ones |
| EmulatorPasses.OldAddPassRejectsList | src/braket/emulators/emulater_interface.py:38-45 | a plain list is added by the current interface and rejected by the earlier one |
| NoiseModel.CheckSingleQubitSpecs | src/braket/emulators/device_noise_models/gate_device_noise_mode.py:53-56 | fails exactly when some single-qubit key is not a label, and reports the first |
| NoiseModel.CheckEdge | src/braket/emulators/device_noise_models/gate_device_noise_mode.py:58-61 | an edge passes exactly when both ends are labels; a one-element edge whose element is a label is an IndexError |
| NoiseModel.CheckEdgeSpecs | src/braket/emulators/device_noise_models/gate_device_noise_mode.py:58-61 | all edges pass exactly when each does; a failure is the first edge's |
| NoiseModel.NewCalibrationData | src/braket/emulators/device_noise_models/gate_device_noise_mode.py:45-66 | single-qubit specs are checked before edges, and the data is kept unchanged when both pass |
| NoiseModel.TranslateGateName | src/braket/emulators/device_noise_models/gate_device_noise_mode.py:39-42 | CPHASE becomes CPhaseShift, GPI becomes GPi, and every other name is unchanged |
| NoiseModel.TranslateGateNameIdempotent | src/braket/emulators/device_noise_models/gate_device_noise_mode.py:39-42 | translating twice is translating once |
| NoiseModel.TranslateGateNameChanges | src/braket/emulators/device_noise_models/gate_device_noise_mode.py:39-42 | only the two calibration spellings change |
| NoiseModel.TranslateFidelities | src/braket/emulators/device_noise_models/gate_device_noise_mode.py:121-126 | the same fidelities in the same order, each gate name translated |
| NoiseModel.GateDurations | src/braket/emulators/device_noise_models/gate_device_noise_mode.py:28-37 | known only for Aspen-M-3 (40 ns, 240 ns) and Garnet (32 ns, 60 ns) |
| NoiseModel.FidelityTable | src/braket/emulators/device_noise_models/gate_device_noise_mode.py:114-116 | the keys are exactly the fidelity types listed, each distinct |
| NoiseModel.FidelityTableLastWins | src/braket/emulators/device_noise_models/gate_device_noise_mode.py:114-116 | the table keeps the last fidelity given for each type |
| NoiseModel.QubitSpecOf | src/braket/emulators/device_noise_models/gate_device_noise_mode.py:110-119 | T1 and T2 hold the qubit's values, and every fidelity type is a key |
| NoiseModel.EdgeFields | src/braket/emulators/device_noise_models/gate_device_noise_mode.py:100 | the first one or two `-`-separated fields, each converted by `int` |
| NoiseModel.QubitItems | src/braket/emulators/device_noise_models/gate_device_noise_mode.py:94-95 | every qubit key converted, or the first that is not an integer |
| NoiseModel.EdgeItems | src/braket/emulators/device_noise_models/gate_device_noise_mode.py:99-101 | every edge key converted with its translated fidelities, or the first key that fails |
| NoiseModel.SinglesAreLabelled | src/braket/emulators/device_noise_models/gate_device_noise_mode.py:94-95 | every single-qubit key is a label, so that check never fails on this path |
| NoiseModel.EdgesOkThroughDict | src/braket/emulators/device_noise_models/gate_device_noise_mode.py:99-101 | folding repeated edge keys into a dict does not change which edges fail |
| NoiseModel.StandardizedSetup | src/braket/emulators/device_noise_models/gate_device_noise_mode.py:85-108 | unknown durations are a ValueError; the labels are the integer qubit keys; only the edges can fail validation |
| NoiseModel.QubitItemsCanonical | src/braket/emulators/device_noise_models/gate_device_noise_mode.py:94-95 | decimal qubit keys convert back to their qubits |
| NoiseModel.EdgeItemsCanonical | src/braket/emulators/device_noise_models/gate_device_noise_mode.py:99-101 | `"u-v"` keys convert back to their pairs |
| NoiseModel.StandardizedCanonical | src/braket/emulators/device_noise_models/gate_device_noise_mode.py:85-108 | with decimal keys over known qubits, setup succeeds, the labels are the qubits, and every edge reads back as its pair |
| NoiseModel.IonQQubitSpec | src/braket/emulators/device_noise_models/gate_device_noise_mode.py:157-164 | each IonQ qubit gets the averaged values, with the simultaneous benchmark None |
| NoiseModel.NativeGateFidelities | src/braket/emulators/device_noise_models/gate_device_noise_mode.py:150-152 | every native gate, translated, with the averaged two-qubit fidelity |
| NoiseModel.PairsFrom | src/braket/emulators/device_noise_models/gate_device_noise_mode.py:156-168 | the nested loops give exactly the pairs a < b in loop order |
| NoiseModel.PairsFromCount | src/braket/emulators/device_noise_models/gate_device_noise_mode.py:156-168 | there are n(n-1)/2 pairs |
| NoiseModel.QubitRange | src/braket/emulators/device_noise_models/gate_device_noise_mode.py:156 | the qubits 0..n-1 in order |
| NoiseModel.IonQData | src/braket/emulators/device_noise_models/gate_device_noise_mode.py:128-176 | labels 0..n-1, one shared spec per qubit, and every pair i < j carries every native gate |
| NoiseModel.IonQSingles | src/braket/emulators/device_noise_models/gate_device_noise_mode.py:154-165 | qubits 0..n-1 in order, each with the same spec |
| NoiseModel.IonQEdges | src/braket/emulators/device_noise_models/gate_device_noise_mode.py:150-152 | exactly the pairs i < j below the qubit count, n(n-1)/2 of them, each carrying every native gate |
| NoiseModel.IonQSetup | src/braket/emulators/device_noise_models/gate_device_noise_mode.py:128-176 | validation of the IonQ data always succeeds |
| NoiseModel.SetupCalibrationData | src/braket/emulators/device_noise_models/gate_device_noise_mode.py:76-83 | standardized data wins, then IonQ; any other device gets None |
| NoiseModel.BenchmarkAsWritten | src/braket/emulators/device_noise_models/gate_device_noise_mode.py:202-205 | the simultaneous benchmark when its key is present, otherwise a TypeError |
| NoiseModel.Benchmark | src/braket/emulators/device_noise_models/gate_device_noise_mode.py:202-205 | the simultaneous benchmark when it has a value, else the plain one, else None |
| NoiseModel.QubitChannels | src/braket/emulators/device_noise_models/gate_device_noise_mode.py:190-212 | amplitude damping, phase damping, depolarizing exactly when the benchmark is truthy, then readout |
| NoiseModel.AllQubitChannels | src/braket/emulators/device_noise_models/gate_device_noise_mode.py:190-212 | succeeds exactly when every qubit's spec gives channels, and then is each qubit's list concatenated in dict order (three or four channels per qubit, none two-qubit, each on a key of the dict); otherwise it is the error of the first failing qubit, every earlier one having succeeded |
| NoiseModel.GateChannels | src/braket/emulators/device_noise_models/gate_device_noise_mode.py:214-224 | the i-th channel is the two-qubit depolarizing channel of the i-th known gate of the fidelity list, applying to both directions: order and repetitions follow the list, unknown gates are skipped |
| NoiseModel.AllEdgeChannels | src/braket/emulators/device_noise_models/gate_device_noise_mode.py:214-224 | each edge's gate channels concatenated in dict order; every channel comes from an edge's known gate and every known gate of every edge appears |
| NoiseModel.NoiseStrategy | src/braket/emulators/device_noise_models/gate_device_noise_mode.py:179-224 | fails exactly when a qubit fails, with that error; otherwise the qubit channels followed by the edge channels, so no single-qubit channel follows a two-qubit one, single-qubit channels name labelled qubits and two-qubit channels name known gates on calibrated edges |
| NoiseModel.DeviceNoiseModel | src/braket/emulators/device_noise_models/gate_device_noise_mode.py:69-74 | a setup error is the result; set-up data gives exactly the strategy's result on it; no data at all is an AttributeError, and an IonQ device without provider properties fails |
| NoiseModel.RulesAgreeWithSimultaneousBenchmark | src/braket/emulators/device_noise_models/gate_device_noise_mode.py:202-208 | where every qubit has a simultaneous benchmark with a value, both rules give the same noise |
| NoiseModel.MissingSimultaneousBenchmarkExample | src/braket/emulators/device_noise_models/gate_device_noise_mode.py:205 | a qubit with only the plain benchmark is a TypeError as written and depolarized as intended |
| NoiseModel.IonQDepolarizing | src/braket/emulators/device_noise_models/gate_device_noise_mode.py:159 | an IonQ qubit never depolarizes as written, and depolarizes as intended whenever its fidelity is nonzero |
| NoiseModel.IonQNoDepolarizingAsWritten | src/braket/emulators/device_noise_models/gate_device_noise_mode.py:159-208 | the whole IonQ model as written has no depolarizing channel |
| NoiseModel.NoDepolarizingWithoutBenchmark | src/braket/emulators/device_noise_models/gate_device_noise_mode.py:190-208 | when the written rule gives every qubit exactly amplitude damping, phase damping and readout, the whole qubit-channel list is built and holds no depolarizing channel |
| Tket.DefaultQubit | src/braket/emulators/pytket_translator/pytket_program_context.py:71 | `Qubit(i)` is in the default register with index i |
| Tket.DefaultBit | src/braket/emulators/pytket_translator/pytket_program_context.py:84 | `Bit(i)` is in the default classical register with index i |
| Tket.AddNew | src/braket/emulation/pytket_translator/qasm3_gen/tket_to_qasm3.py:110-139 | the result extends the accumulator, has no duplicates, and holds exactly the old names and the new ones |
| Tket.SymbolOrder | src/braket/emulation/pytket_translator/qasm3_gen/tket_to_qasm3.py:110-139 | the free symbols without duplicates, exactly those occurring in the expression |
| Tket.EmptyCopy | src/braket/aws/demo_helpers/compile/utils.py:4-22 | the same qubits, bits and phase, and no commands |
| QasmContext.NewContext | src/braket/emulation/pytket_translator/qasm3_gen/qasm_context.py:17-21 | the given parameter dict, no bits, no gates and no measurements |
| QasmContext.SetNumBits | src/braket/emulation/pytket_translator/qasm3_gen/qasm_context.py:23-24 | overwrites the width and nothing else |
| QasmContext.AddGate | src/braket/emulation/pytket_translator/qasm3_gen/qasm_context.py:26-27 | appends one gate after the earlier ones and changes nothing else |
| QasmContext.BitName | src/braket/emulation/pytket_translator/qasm3_gen/qasm_context.py:30 | the register access `c[n]` |
| QasmContext.BitNameInjective | src/braket/emulation/pytket_translator/qasm3_gen/qasm_context.py:30 | distinct bits are written differently |
| QasmContext.AddMeasurement | src/braket/emulation/pytket_translator/qasm3_gen/qasm_context.py:29-30 | appends one measurement into the named bit and changes nothing else |
| QasmContext.AddParameter | src/braket/emulation/pytket_translator/qasm3_gen/qasm_context.py:32-33 | a known name keeps its place, a new name goes last, keys stay distinct, and the name then has the type |
| QasmContext.AddParameterIdempotent | src/braket/emulation/pytket_translator/qasm3_gen/qasm_context.py:32-33 | declaring a parameter twice is declaring it once |
| QasmWriter.FormatQubit | src/braket/emulation/pytket_translator/qasm3_gen/qasm_writer.py:95-96 | `$` followed by the decimal index |
| QasmWriter.FormatQubitInjective | src/braket/emulation/pytket_translator/qasm3_gen/qasm_writer.py:95-96 | distinct physical qubits are written differently |
| QasmWriter.BitDeclaration | src/braket/emulation/pytket_translator/qasm3_gen/qasm_writer.py:49-54 | the register is declared exactly when it has bits |
| QasmWriter.GateArgs | src/braket/emulation/pytket_translator/qasm3_gen/qasm_writer.py:128-129 | the arguments in parentheses, and nothing for a gate without arguments |
| QasmWriter.GateLine | src/braket/emulation/pytket_translator/qasm3_gen/qasm_writer.py:75-77 | every gate line ends with a newline |
| QasmWriter.Program | src/braket/emulation/pytket_translator/qasm3_gen/qasm_writer.py:20-36 | the program starts with the OpenQASM 3.0 header |
| QasmWriter.EmptyProgram | src/braket/emulation/pytket_translator/qasm3_gen/qasm_writer.py:20-54 | a fresh context with no parameters is written as the header alone |
| QasmWriter.GateLineNewlines | src/braket/emulation/pytket_translator/qasm3_gen/qasm_writer.py:75-87 | a gate line holds exactly one newline when no name or rendered argument does |
| QasmWriter.OneLinePerGate | src/braket/emulation/pytket_translator/qasm3_gen/qasm_writer.py:62-73 | the body has exactly one line per gate |
| QasmWriter.BodyAppend | src/braket/emulation/pytket_translator/qasm3_gen/qasm_writer.py:62-73 | gate lines follow the order in which gates were added |
| QasmWriter.AddGateAddsLine | src/braket/emulation/pytket_translator/qasm3_gen/qasm_context.py:26-27 | adding a gate adds exactly its line at the end of the body and changes no other part of the program |
| QasmWriter.AddMeasurementAddsStatement | src/braket/emulation/pytket_translator/qasm3_gen/qasm_writer.py:89-93 | adding a measurement appends its statement, newline-separated from an earlier one |
| QasmWriter.AddParameterDeclares | src/braket/emulation/pytket_translator/qasm3_gen/qasm_writer.py:115-126 | a parameter declared for the first time adds one `input` line after the existing ones |
| QasmWriter.RedeclaringKeepsContext | src/braket/emulation/pytket_translator/qasm3_gen/qasm_context.py:32-33 | declaring a known parameter again with its own type leaves the context unchanged |
| TketToQasm.GateName | src/braket/emulation/pytket_translator/qasm3_gen/tket_to_qasm3.py:110-126 | an override wins over the table; a type in neither has no name |
| TketToQasm.Scaled | src/braket/emulation/pytket_translator/qasm3_gen/tket_to_qasm3.py:141-164 | every angle is multiplied by pi, in order |
| TketToQasm.Indices | src/braket/emulation/pytket_translator/qasm3_gen/tket_to_qasm3.py:96-139 | the first index of each argument, in order |
| TketToQasm.RegisterNames | src/braket/emulation/pytket_translator/qasm3_gen/tket_to_qasm3.py:110-139 | every name is declared as a float input, and other parameters keep their declarations |
| TketToQasm.VisitOp | src/braket/emulation/pytket_translator/qasm3_gen/tket_to_qasm3.py:96-139 | a measurement records its qubit and bit and marks the qubit measured; a nameless operation is a ValueError; a gate declares its symbols and adds one gate; the older context raises an AttributeError on a gate with a symbol |
| TketToQasm.Reached | src/braket/emulation/pytket_translator/qasm3_gen/tket_to_qasm3.py:41-136 | where a walk stops: its final state when it succeeds; a failing gate or measurement changes nothing before it raises, so only a box stops part-way; the register width is kept |
| TketToQasm.Visit | src/braket/emulation/pytket_translator/qasm3_gen/tket_to_qasm3.py:41-94 | the walk keeps the register width and the earlier gates, measurements and measured units, and fails only with a ValueError, with an IndexError for a measure with fewer than two arguments, or with the older context's AttributeError |
| TketToQasm.VisitAppend | src/braket/emulation/pytket_translator/qasm3_gen/tket_to_qasm3.py:50-51 | walking two lists in turn is walking their concatenation |
| TketToQasm.Flatten | src/braket/emulation/pytket_translator/qasm3_gen/tket_to_qasm3.py:85-94 | the flattened list has no boxes |
| TketToQasm.VisitFlattened | src/braket/emulation/pytket_translator/qasm3_gen/tket_to_qasm3.py:85-94 | a successful walk equals the walk of the flattened list |
| TketToQasm.VisitAccepts | src/braket/emulation/pytket_translator/qasm3_gen/tket_to_qasm3.py:53-83 | a box-free walk succeeds exactly when every command translates and no qubit is used after its measurement |
| TketToQasm.VisitFirstOp | src/braket/emulation/pytket_translator/qasm3_gen/tket_to_qasm3.py:50-69 | a successful walk took the first operation's step and then walked the rest |
| TketToQasm.VisitEmitsGates | src/braket/emulation/pytket_translator/qasm3_gen/tket_to_qasm3.py:110-139 | a box-free walk appends the gates in command order |
| TketToQasm.VisitRecordsMeasurements | src/braket/emulation/pytket_translator/qasm3_gen/tket_to_qasm3.py:96-108 | a box-free walk appends the measurements in command order |
| TketToQasm.VisitDeclares | src/braket/emulation/pytket_translator/qasm3_gen/tket_to_qasm3.py:110-139 | every free symbol of a gate angle is declared once as a float input, and other parameters are left as they were |
| TketToQasm.OlderAgreesWithoutSymbols | src/braket/emulators/pytket_translator/qasm3_gen/tket_to_qasm3.py:26-101 | without free symbols the older visitor translates exactly the circuits the current one does |
| TketToQasm.WalkCircuit | src/braket/emulation/pytket_translator/qasm3_gen/tket_to_qasm3.py:41-51 | the register width is the circuit's bit count |
| TketToQasm.TketToQasm3 | src/braket/emulation/pytket_translator/qasm3_gen/tket_to_qasm3.py:11-32 | the program text starts with the header; errors are the walk's |
| TketToQasm.EmptyCircuit | src/braket/emulation/pytket_translator/qasm3_gen/tket_to_qasm3.py:11-32 | the empty circuit becomes the header alone |
| TketToQasm.TketToQasm3AsWritten | src/braket/emulation/pytket_translator/qasm3_gen/tket_to_qasm3.py:11-32 | with the shared default dict, a call leaves the walk's declarations in the dict for later calls, the complete walk's dict when it succeeds and the dict reached before the failing command when it raises; the output is that of a call given the dict |
| TketToQasm.SharedDefaultLeaks | src/braket/emulation/pytket_translator/qasm3_gen/qasm_context.py:17 | after a circuit with angle `theta`, the empty circuit is written with an `input float theta;` line; a fresh dict gives the header alone |
| PytketContext.NewProgramContext | src/braket/emulators/pytket_translator/pytket_program_context.py:20-29 | an empty circuit, no measurements, nothing registered |
| PytketContext.RegisterQubits | src/braket/emulators/pytket_translator/pytket_program_context.py:68-73 | the set gains exactly the target indices; the qubit list only grows; the registration invariant is kept; nothing else changes |
| PytketContext.RegisterKnownQubits | src/braket/emulators/pytket_translator/pytket_program_context.py:69-70 | known indices change nothing |
| PytketContext.RegisterQubitsIdempotent | src/braket/emulators/pytket_translator/pytket_program_context.py:68-73 | registering twice is registering once |
| PytketContext.QubitCountGrowth | src/braket/emulators/pytket_translator/pytket_program_context.py:68-73 | the circuit gains one qubit per new index |
| PytketContext.RegisteredCount | src/braket/emulators/pytket_translator/pytket_program_context.py:68-73 | there are exactly as many circuit qubits as registered indices |
| PytketContext.HalfTurns | src/braket/emulators/pytket_translator/pytket_program_context.py:55-56 | each angle is divided by pi, in order |
| PytketContext.AddGateInstruction | src/braket/emulators/pytket_translator/pytket_program_context.py:46-66 | succeeds exactly for a table name, or for a composed name with one angle and two targets; otherwise a ValueError or the assertion; registers the targets; a table name appends exactly its operation with half-turn angles |
| PytketContext.MeasurePairs | src/braket/emulators/pytket_translator/pytket_program_context.py:82-84 | each qubit paired with its classical target, or with its own index |
| PytketContext.AddMeasure | src/braket/emulators/pytket_translator/pytket_program_context.py:78-85 | an empty target changes nothing; too few classical targets is an IndexError; otherwise it registers the targets and keeps the commands |
| PytketContext.AddMeasureRecords | src/braket/emulators/pytket_translator/pytket_program_context.py:82-85 | each qubit maps to its last measurement's bit; other qubits keep their entries |
| PytketContext.AddMeasureDefaultBits | src/braket/emulators/pytket_translator/pytket_program_context.py:83 | without classical targets each qubit lands in its own index |
| PytketContext.FloorLog2 | src/braket/emulators/pytket_translator/pytket_program_context.py:96 | `int(log2(d))` is the n with 2^n <= d < 2^(n+1) |
| PytketContext.FloorLog2Unique | src/braket/emulators/pytket_translator/pytket_program_context.py:96 | that n is unique |
| PytketContext.AddCustomUnitary | src/braket/emulators/pytket_translator/pytket_program_context.py:87-111 | 1 to 3 targets, else a ValueError; a zero dimension is an OverflowError; a log2 mismatch is a ValueError; otherwise it appends the matching unitary box on the targets |
| PytketContext.AddCustomUnitaryAccepts | src/braket/emulators/pytket_translator/pytket_program_context.py:92-100 | accepted exactly with 1 to 3 targets and a dimension in [2^n, 2^(n+1)) |
| PytketContext.BuiltinAsWrittenIgnoresTables | src/braket/emulators/pytket_translator/pytket_program_context.py:41-44 | as written, every gate that is not user-defined counts as built in |
| PytketContext.UnknownGateCountsAsBuiltin | src/braket/emulators/pytket_translator/pytket_program_context.py:43 | an unknown name counts as built in, yet translating it is a ValueError |
| PytketContext.IsBuiltinGate | src/braket/emulators/pytket_translator/pytket_program_context.py:41-44 | built in exactly when known to a table and not user-defined |
| PytketContext.BuiltinGatesTranslate | src/braket/emulators/pytket_translator/pytket_program_context.py:41-66 | a built-in gate never fails with the unsupported-gate ValueError |
| PytketContext.AddPhaseInstructionAsWritten | src/braket/emulators/pytket_translator/pytket_program_context.py:75-76 | always a TypeError, because too few arguments are passed |
| PytketContext.AddPhaseInstruction | src/braket/emulators/pytket_translator/pytket_program_context.py:75-76 | the `gphase` gate with the phase as its only parameter |
| PytketContext.PhaseInstructionDiscrepancy | src/braket/emulators/pytket_translator/pytket_program_context.py:75-76 | with a `gphase` entry, the intended call succeeds where the written one fails |
| ComposedGates.Qubits | src/braket/emulators/pytket_translator/composed_gates.py:24-26 | one default qubit per index, in order |
| ComposedGates.Expansion | src/braket/emulators/pytket_translator/composed_gates.py:10-85 | every expansion gate acts only on the two given qubits |
| ComposedGates.Apply | src/braket/emulators/pytket_translator/composed_gates.py:10-85 | succeeds exactly with one angle and two qubits, and fails with the assertion otherwise; it keeps qubits and bits, strictly extends the commands, and only pswap changes the phase |
| ComposedGates.ExpansionGates | src/braket/emulators/pytket_translator/composed_gates.py:24-66 | pswap appends ZZPhase then SWAP and adds half the angle to the phase; cphaseshift01 appends CX, CU1, CX on (q1, q0) |
| ComposedGates.Shift00IsFlipped01 | src/braket/emulators/pytket_translator/composed_gates.py:43-66 | cphaseshift00 is cphaseshift01 between two X gates on q1 |
| ComposedGates.PhaseExpansionsArePalindromes | src/braket/emulators/pytket_translator/composed_gates.py:43-85 | every controlled-phase expansion reads the same backwards |
| VirtualizeRz.Step | src/braket/aws/demo_helpers/compile/passes/virtualize_rz.py:38-58 | succeeds exactly for an allowed command, failing with ValueError or IndexError; an Rz only updates the phase; every other command appends one output and keeps the phases |
| VirtualizeRz.Run | src/braket/aws/demo_helpers/compile/passes/virtualize_rz.py:37-58 | succeeds exactly when every command is allowed, and the output has no Rz |
| VirtualizeRz.Virtualize | src/braket/aws/demo_helpers/compile/passes/virtualize_rz.py:14-64 | succeeds exactly when every command is allowed; keeps qubits, bits and phase; the output has no Rz; errors are ValueError or IndexError |
| VirtualizeRz.RunMeaning | src/braket/aws/demo_helpers/compile/passes/virtualize_rz.py:37-52 | each accumulator is the running sum of its qubit's Rz angles, and the output equals the reference rewrite |
| VirtualizeRz.PhaseOnlyFromOwnRz | src/braket/aws/demo_helpers/compile/passes/virtualize_rz.py:40-43 | only an Rz on its own qubit changes an accumulator |
| VirtualizeRz.OutputLength | src/braket/aws/demo_helpers/compile/passes/virtualize_rz.py:37-58 | only the Rz gates disappear |
| VirtualizeRz.NoRzUnchanged | src/braket/aws/demo_helpers/compile/passes/virtualize_rz.py:37-58 | a circuit without Rz passes through unchanged |
| VirtualizeRz.VirtualizeIdempotent | src/braket/aws/demo_helpers/compile/passes/virtualize_rz.py:14-64 | running the pass twice is running it once |
| VirtualizeRz.ExpectedAllowed | src/braket/aws/demo_helpers/compile/passes/virtualize_rz.py:45-58 | every output command is itself accepted and is not an Rz |
| AhsFields.CheckEndsZero | src/braket/emulation/emulation_passes/ahs_passes/device_validators/device_driving_field.py:25-48 | passes exactly when the series is empty or starts and ends at zero; a failure reports the first and last values |
| NoiseModel.CheckTime | src/braket/emulators/device_noise_models/gate_device_noise_mode.py:191-198 | T1 or T2 is usable exactly when present, a number and nonzero; a missing key is a KeyError, None a TypeError, zero a division by zero |
| NoiseModel.AllQubitRulesAgree | src/braket/emulators/device_noise_models/gate_device_noise_mode.py:201-208 | when every qubit has a valued simultaneous benchmark, the written and intended rules add the same qubit channels |
| GateCriteria.NativeBoxErrorNamesGate | src/braket/emulators/criteria/native_gate_criterion.py:33-38 | a rejected boxed gate is one outside the native set |
| ComposedGates.Shift10IsSwapped01 | src/braket/emulators/pytket_translator/composed_gates.py:50-85 | cphaseshift10 on (q0, q1) is cphaseshift01 on (q1, q0) |
| TketToQasm.FailingCallDeclaresTheta | src/braket/emulation/pytket_translator/qasm3_gen/tket_to_qasm3.py:75-83 | a call that raises at a gate on a measured qubit still leaves the earlier gate's `theta` in the shared dict |
| TketToQasm.FirstCallDeclaresTheta | src/braket/emulation/pytket_translator/qasm3_gen/tket_to_qasm3.py:11-32 | translating a circuit with angle `theta` leaves `theta` declared as a float in the shared dict |

## Left out

- Networking and device discovery are not modelled. These include the `AwsDevice` fetch, the `Devices` ARN enums (ARNs are opaque strings) and `Devices.IonQ` membership, which is a parameter.
- Floating point is not modelled. Decimal and float quantities are `real`. Noise probabilities (`1 - exp(-t/T1)` and similar) are left as symbolic channel parameters, because only which channels are added, and in what order, is decided by the code.
- Sympy is not modelled. Expressions are a small tree datatype (`Tket.Expr`). Printing is a `render` parameter of the writer. `evalf`, and so `handle_parameter_value`, are not modelled. Free symbols are collected in left-to-right order of first occurrence; sympy's own order is not modelled.
- The pytket and Braket gate tables (`QASM_TO_PYTKET`, `COMPOSED_GATES`, Braket's gate table, the OpenQASM name table) are parameters. Of `COMPOSED_GATES`, only the four entries with a body here are modelled: `pswap` and `cphaseshift00/01/10`.
- pytket's own checks inside `add_gate` are not modelled: arity, and qubits the circuit does not contain.
- PytketContext.AddGateInstruction: the control modifiers and the power are accepted and ignored, exactly as the code does; no other meaning is given to them.
- A Python method that mutates its object and then raises leaves that partial mutation behind. The model returns a `Failure` and drops the partial state. This applies to `add_measure` with too few classical targets, to `add_gate_instruction`, which registers the target qubits before its ValueError for an unknown name or its composed-gate assertion, and to a validation pass that fails part-way. Aliasing of a caller's dict is modelled only where it matters: the shared default parameter dict of `tket_to_qasm3`, which keeps the symbols of the gates walked before a failing command (TketToQasm.Reached); the context object of a failing `tket_to_qasm3` is otherwise discarded.
- `int(np.log2(d))` is modelled exactly as the floor of log2. Float rounding of `log2` for large dimensions is not modelled.
- The external pydantic helpers are specified by their error behaviour: time precision, time separation, value precision, maximum slope, and range with warning. `ProgramValidator`, `PhysicalFieldValidator` and `TimeSeriesValidator`, which `validate_program` also calls, are outside this model, and so are the parent validators `DrivingFieldValidator`, `AtomArrangementValidator`, `LocalDetuningValidator` and `HamiltonianValidator`, whose inherited pydantic root validators run alongside the device rules modelled here. AhsProgram.ValidateProgram: these external validators are not part of its verdict.
- Warnings, logging and `print` calls are not modelled. These include the phase-range warning and the "Cannot find gate" warning of the noise strategy.
- The writer's verbatim pragma and boxed-body methods are not part of this model, because `get_program` never calls them. The older `qasm_writer` is not part of this model either.
- Not part of this model, being outside the emulation core modelled here:
  - `ahs_noisy_pass`, `ahs_noise_model`;
  - `tket_compiler_pass`, `create_nativization_pass`, `lexi_mapping_routing_pass`, `lexi_routing_pass`;
  - `tket_decompositions`, `custom_gatedefs`;
  - `emulator.py`, `aws_emulator.py`;
  - `ahs_validator`, `ahs_criterion`.
- The factory functions `qubit_count_validator` and `gate_validator` of `aws_emulation.py` are only modelled through the criteria they construct.
- The AHS device validators exist in two copies, under `src/braket/emulation/` and under `src/braket/emulators/`. They differ only in docstrings, import paths and type annotations, so one model serves both; the rows cite the copies under `src/braket/emulation/`. `validate_program` (AhsProgram.ValidateProgram) is cited from the copy under `src/braket/emulators/`, the only one that is part of this model.
- NoiseModel.QubitItems: `int()` of a key is modelled for plain ASCII decimal digits only. Python's `int` also accepts a sign, surrounding whitespace, `_` between digits and non-ASCII decimal digits; such keys are a ValueError in the model.
- NoiseModel.EdgeItems: the fields of an edge key are converted as in NoiseModel.EdgeFields, with the same narrowing of `int()`.
- NoiseModel.EdgeFields: each field is converted by the ASCII-digit `int()` above; signed, padded, underscored and non-ASCII digit fields are not accepted.
- Connectivity.NewConnectivityCriterion: with `directed=False` and a given DiGraph, the code adds the reverse edges to the caller's graph in place, so after the call the caller's graph is the returned graph. The model returns the new graph and does not model that aliasing.
- Connectivity.NewConnectivityCriterion: both constructors turn any exception of `from_dict_of_lists` into a ValueError. The model's adjacency dict, a `map<nat, seq<nat>>`, is always well formed, so that error path does not arise in the model.
- Circuits.UsedQubits: Braket's `Circuit` class is not part of this model. Its `qubit_count` is taken to be the size of the union of every instruction's qubits, compiler directives having none, and the targets of result types that measure an observable. Instructions other than gates and the verbatim-box markers keep only their target qubits.
- GateConnectivity.NewGateConnectivityCriterion: with `directed=False` the code adds the reverse edges to the caller's DiGraph in place, so after the call the caller's graph is the returned graph. The model returns the new graph and does not model that aliasing.
- Text.Lower: ASCII letters only; Unicode case mapping is not modelled.
- Connectivity.BoxConnectivityValidateAsWritten: only the shape of its IndexError is stated. Its acceptance is covered by BoxScansAgree and BoxConnectivityValidate.
- TketToQasm.TketToQasm3AsWritten: the dict a raising call leaves behind is stated through TketToQasm.Reached and the FailingCallDeclaresTheta example, not element by element. The program text is that of TketToQasm3.

## Findings

| source | as written | input that shows it | evidently intended | confidence | as-written member | corrected member |
|---|---|---|---|---|---|---|
| src/braket/emulators/emulator_passes/criteria/gate_criterion.py:45 | after a box that is never closed, `circuit.instructions[idx]` is read with `idx == len(instructions)` | a circuit consisting of one StartVerbatimBox | the ValueError "No end verbatim box found" | high, not executed | GateCriteria.GateCriterionUnterminatedExample | GateCriteria.GateCriterionValidate |
| src/braket/emulators/criteria/native_gate_criterion.py:40 | the same read past the end | a circuit consisting of one StartVerbatimBox | the same ValueError | high, not executed | GateCriteria.NativeGateUnterminatedExample | GateCriteria.NativeGateValidate |
| src/braket/emulators/emulator_passes/criteria/connectivity_criterion.py:73 | the same read past the end | a circuit consisting of one StartVerbatimBox | the same ValueError | high, not executed | Connectivity.BoxUnterminatedExample | Connectivity.BoxConnectivityValidate |
| src/braket/emulators/emulator_passes/criteria/connectivity_criterion.py:83 | the controlled branch calls an undefined `add_edge`, a NameError | a box holding a controlled two-qubit gate with control 0 and target 1, on a graph with edge (0, 1) | checking the control-to-target edge | high, not executed | Connectivity.BoxControlledGateExample | Connectivity.BoxConnectivityValidate |
| src/braket/emulation/emulation_passes/ahs_passes/device_validators/device_hamiltonian.py:27 | the pre root validator reads `values["LOCAL_RYDBERG_CAPABILITIES"]` before the field default applies | a Hamiltonian without local detuning, built without the flag | an absent flag means false | medium, not executed | Hamiltonian.HamiltonianMissingFlagExample | Hamiltonian.HamiltonianValidate |
| src/braket/emulators/emulater_interface.py:38 | only an `Iterator` extends the list, so a plain list of passes is a TypeError | `add_pass([p])` | any iterable extends, as in the later interface | medium, not executed | EmulatorPasses.OldAddPassRejectsList | EmulatorPasses.AddPass |
| src/braket/emulators/device_noise_models/gate_device_noise_mode.py:205 | `data.get(["RANDOMIZED_BENCHMARKING"])` uses a list as the key, a TypeError | a qubit whose spec has only RANDOMIZED_BENCHMARKING | `data.get("RANDOMIZED_BENCHMARKING")` | high, not executed | NoiseModel.MissingSimultaneousBenchmarkExample | NoiseModel.Benchmark |
| src/braket/emulators/device_noise_models/gate_device_noise_mode.py:159 | IonQ specs hold SIMULTANEOUS_RANDOMIZED_BENCHMARKING as None, so the key is present and no qubit depolarizes | any IonQ device | fall back to the averaged single-qubit fidelity | medium, not executed | NoiseModel.IonQNoDepolarizingAsWritten | NoiseModel.IonQDepolarizing |
| src/braket/emulation/pytket_translator/qasm3_gen/tket_to_qasm3.py:13 | the default `dict()` is created once and shared by every call, so parameters declared in one translation leak into the next | a circuit with angle `theta` translated first, then the empty circuit; the first call leaks `theta` even when it raises later in the walk | a fresh dict per call | high, not executed | TketToQasm.SharedDefaultLeaks | TketToQasm.TketToQasm3 |
| src/braket/emulators/pytket_translator/qasm3_gen/tket_to_qasm3.py:70-95 | the older visitor calls `add_parameter`, which the older context does not define, an AttributeError | a gate whose angle has a free symbol | declaring the symbol as an input | medium, not executed | TketToQasm.VisitOp | TketToQasm.OlderAgreesWithoutSymbols |
| src/braket/emulators/pytket_translator/pytket_program_context.py:43 | `name in QASM_TO_PYTKET or COMPOSED_GATES` is true whenever the dict is non-empty | the name "foo", not user-defined | `name in QASM_TO_PYTKET or name in COMPOSED_GATES` | high, not executed | PytketContext.UnknownGateCountsAsBuiltin | PytketContext.BuiltinGatesTranslate |
| src/braket/emulators/pytket_translator/pytket_program_context.py:76 | `add_gate_instruction` is called with three of its five arguments, a TypeError | any phase instruction | the `gphase` gate with the phase, no modifiers, power 1 | high, not executed | PytketContext.AddPhaseInstructionAsWritten | PytketContext.AddPhaseInstruction |
