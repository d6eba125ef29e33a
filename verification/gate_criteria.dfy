/** Gate-set validators: `GateCriterion` (supported gates outside verbatim
    boxes, native gates inside), `NativeGateCriterion` (native gates inside
    boxes only) and `SupportedGateCriterion` (supported gates everywhere).
    Braket's gate-name table is a parameter: it maps a user-facing name to
    the Braket gate class, which is what an instruction's gate `name` holds. */
module GateCriteria {
  import opened Wrappers
  import opened Text
  import opened Circuits

  type GateTable = map<string, string>

  datatype ConstructionError = NoGatesProvided | InvalidGateName(key: string)

  datatype GateError =
    | NotSupported(gate: string)
    | NotNative(gate: string)
    | NoEndVerbatimBox(index: nat)
    | IndexOutOfRange(index: nat)

  /** Which Python exception each error is raised as. */
  function Raises(e: GateError): (x: PyException)
    ensures x == IndexError <==> e.IndexOutOfRange?
    ensures x != IndexError ==> x == ValueError
  {
    if e.IndexOutOfRange? then IndexError else ValueError
  }

  /** `set(table[key(n)] for n in names)`; the first name whose key is
      missing from the table is reported (the KeyError turned ValueError). */
  function LookupAll(table: GateTable, names: seq<string>, key: string -> string): (r: Result<set<string>, string>)
    ensures r.Success? <==> forall i :: 0 <= i < |names| ==> key(names[i]) in table
    ensures r.Success? ==> forall g :: g in r.value <==> exists i :: 0 <= i < |names| && table[key(names[i])] == g
    ensures r.Failure? ==> exists i :: 0 <= i < |names| && r.error == key(names[i]) && r.error !in table &&
                                       (forall j :: 0 <= j < i ==> key(names[j]) in table)
  {
    if |names| == 0 then Success({})
    else if key(names[0]) !in table then Failure(key(names[0]))
    else
      match LookupAll(table, names[1..], key)
      case Failure(k) =>
        assert forall j :: 1 <= j < |names| ==> names[j] == names[1..][j - 1];
        Failure(k)
      case Success(rest) =>
        assert forall j :: 1 <= j < |names| ==> names[j] == names[1..][j - 1];
        Success({table[key(names[0])]} + rest)
  }

  /** The table lookup depends only on which names are listed. */
  lemma LookupAllSameNames(table: GateTable, a: seq<string>, b: seq<string>, key: string -> string)
    requires Elems(a) == Elems(b)
    ensures LookupAll(table, a, key).Success? <==> LookupAll(table, b, key).Success?
    ensures LookupAll(table, a, key).Success? ==> LookupAll(table, a, key).value == LookupAll(table, b, key).value
  {
    assert forall n :: n in a <==> n in b by {
      forall n
        ensures n in a <==> n in b
      {
        assert n in a <==> n in Elems(a);
      }
    }
    if LookupAll(table, a, key).Success? {
      forall i | 0 <= i < |b|
        ensures key(b[i]) in table
      {
        assert b[i] in a;
        var j :| 0 <= j < |a| && a[j] == b[i];
      }
    }
    if LookupAll(table, b, key).Success? {
      forall i | 0 <= i < |a|
        ensures key(a[i]) in table
      {
        assert a[i] in b;
        var j :| 0 <= j < |b| && b[j] == a[i];
      }
    }
    if LookupAll(table, a, key).Success? {
      var ra, rb := LookupAll(table, a, key).value, LookupAll(table, b, key).value;
      forall g | g in ra
        ensures g in rb
      {
        var i :| 0 <= i < |a| && table[key(a[i])] == g;
        assert a[i] in b;
        var j :| 0 <= j < |b| && b[j] == a[i];
      }
      forall g | g in rb
        ensures g in ra
      {
        var i :| 0 <= i < |b| && table[key(b[i])] == g;
        assert b[i] in a;
        var j :| 0 <= j < |a| && a[j] == b[i];
      }
    }
  }

  // ---------------------------------------------------------------------
  // GateCriterion
  // ---------------------------------------------------------------------

  datatype GateCriterion = GateCriterion(supported: set<string>, native: set<string>)

  /** The constructor: at least one list must be non-empty, and every name,
      lower-cased, must be a key of the gate table. */
  function NewGateCriterion(table: GateTable, supportedNames: seq<string>, nativeNames: seq<string>): (r: Result<GateCriterion, ConstructionError>)
    ensures |supportedNames| == 0 && |nativeNames| == 0 ==> r == Failure(NoGatesProvided)
    ensures r.Success? <==>
      && (|supportedNames| > 0 || |nativeNames| > 0)
      && (forall i :: 0 <= i < |supportedNames| ==> Lower(supportedNames[i]) in table)
      && (forall i :: 0 <= i < |nativeNames| ==> Lower(nativeNames[i]) in table)
    ensures r.Success? ==> forall g :: g in r.value.native <==>
      exists i :: 0 <= i < |nativeNames| && table[Lower(nativeNames[i])] == g
    ensures r.Success? ==> forall g :: g in r.value.supported <==>
      exists i :: 0 <= i < |supportedNames| && table[Lower(supportedNames[i])] == g
  {
    if |supportedNames| == 0 && |nativeNames| == 0 then Failure(NoGatesProvided)
    else
      match LookupAll(table, supportedNames, Lower)
      case Failure(k) => Failure(InvalidGateName(k))
      case Success(s) =>
        match LookupAll(table, nativeNames, Lower)
        case Failure(k) => Failure(InvalidGateName(k))
        case Success(n) => Success(GateCriterion(s, n))
  }

  function NativeCheck(native: set<string>): Instruction -> Option<GateError> {
    (g: Instruction) => if g.Gate? && g.name !in native then Some(NotNative(g.name)) else None
  }

  function SupportedCheck(supported: set<string>): Instruction -> Option<GateError> {
    (g: Instruction) => if g.Gate? && g.name !in supported then Some(NotSupported(g.name)) else None
  }

  /** `GateCriterion.validate` as written: an unterminated box makes line 45
      read one past the end of the instruction list, an IndexError. */
  function GateCriterionValidateAsWritten(crit: GateCriterion, c: seq<Instruction>): (r: Outcome<GateError>)
    ensures r.Pass? <==>
      && !Unterminated(c)
      && (forall k :: 0 <= k < |c| && c[k].Gate? && InVerbatim(c, k) ==> c[k].name in crit.native)
      && (forall k :: 0 <= k < |c| && c[k].Gate? && !InVerbatim(c, k) ==> c[k].name in crit.supported)
    ensures r.Fail? && r.error.IndexOutOfRange? ==> Unterminated(c) && r.error.index == |c|
  {
    ScanSequentialMeaning(c, NativeCheck(crit.native), SupportedCheck(crit.supported));
    ToOutcome(ScanSequential(c, NativeCheck(crit.native), SupportedCheck(crit.supported), 0), (i: nat) => IndexOutOfRange(i))
  }

  /** `GateCriterion.validate` with the unterminated-box error it intends: a
      ValueError naming the index where the end marker was expected.  Inside
      a box every gate must be native (the supported set does not apply);
      outside, every gate must be supported; other instructions are ignored. */
  function GateCriterionValidate(crit: GateCriterion, c: seq<Instruction>): (r: Outcome<GateError>)
    ensures r.Pass? <==>
      && !Unterminated(c)
      && (forall k :: 0 <= k < |c| && c[k].Gate? && InVerbatim(c, k) ==> c[k].name in crit.native)
      && (forall k :: 0 <= k < |c| && c[k].Gate? && !InVerbatim(c, k) ==> c[k].name in crit.supported)
    ensures r.Fail? ==> Raises(r.error) == ValueError
    ensures r.Fail? && r.error.NoEndVerbatimBox? ==> Unterminated(c) && r.error.index == |c|
  {
    ScanSequentialMeaning(c, NativeCheck(crit.native), SupportedCheck(crit.supported));
    ToOutcome(ScanSequential(c, NativeCheck(crit.native), SupportedCheck(crit.supported), 0), (i: nat) => NoEndVerbatimBox(i))
  }

  /** The two differ only in the exception an unterminated box raises. */
  lemma GateCriterionAsWrittenDiffers(crit: GateCriterion, c: seq<Instruction>)
    ensures GateCriterionValidate(crit, c).Pass? <==> GateCriterionValidateAsWritten(crit, c).Pass?
    ensures GateCriterionValidate(crit, c).Fail? && GateCriterionValidate(crit, c).error.NoEndVerbatimBox? <==>
      GateCriterionValidateAsWritten(crit, c).Fail? && GateCriterionValidateAsWritten(crit, c).error.IndexOutOfRange?
  {
  }

  /** A lone StartVerbatimBox: the intended ValueError, an IndexError as written. */
  lemma GateCriterionUnterminatedExample(crit: GateCriterion)
    ensures GateCriterionValidateAsWritten(crit, [StartVerbatim]) == Fail(IndexOutOfRange(1))
    ensures Raises(GateCriterionValidateAsWritten(crit, [StartVerbatim]).error) == IndexError
    ensures GateCriterionValidate(crit, [StartVerbatim]) == Fail(NoEndVerbatimBox(1))
  {
  }

  /** Equality compares the two gate sets, so the order and repetition of
      the names given to the constructor do not matter. */
  lemma GateCriterionIgnoresOrder(table: GateTable, s1: seq<string>, n1: seq<string>, s2: seq<string>, n2: seq<string>)
    requires Elems(s1) == Elems(s2)
    requires Elems(n1) == Elems(n2)
    ensures NewGateCriterion(table, s1, n1).Success? <==> NewGateCriterion(table, s2, n2).Success?
    ensures NewGateCriterion(table, s1, n1).Success? ==> NewGateCriterion(table, s1, n1) == NewGateCriterion(table, s2, n2)
  {
    LookupAllSameNames(table, s1, s2, Lower);
    LookupAllSameNames(table, n1, n2, Lower);
    assert |s1| == 0 <==> |s2| == 0 by {
      if |s1| > 0 { assert s1[0] in Elems(s2); }
      if |s2| > 0 { assert s2[0] in Elems(s1); }
    }
    assert |n1| == 0 <==> |n2| == 0 by {
      if |n1| > 0 { assert n1[0] in Elems(n2); }
      if |n2| > 0 { assert n2[0] in Elems(n1); }
    }
  }

  // ---------------------------------------------------------------------
  // NativeGateCriterion
  // ---------------------------------------------------------------------

  datatype NativeGateCriterion = NativeGateCriterion(native: set<string>)

  /** The constructor: a non-empty list of exact table keys (no lower-casing). */
  function NewNativeGateCriterion(table: GateTable, names: seq<string>): (r: Result<NativeGateCriterion, ConstructionError>)
    ensures |names| == 0 ==> r == Failure(NoGatesProvided)
    ensures r.Success? <==> |names| > 0 && forall i :: 0 <= i < |names| ==> names[i] in table
    ensures r.Success? ==> forall g :: g in r.value.native <==> exists i :: 0 <= i < |names| && table[names[i]] == g
  {
    if |names| == 0 then Failure(NoGatesProvided)
    else
      match LookupAll(table, names, n => n)
      case Failure(k) => Failure(InvalidGateName(k))
      case Success(n) => Success(NativeGateCriterion(n))
  }

  /** `NativeGateCriterion.validate` as written: every StartVerbatimBox
      starts a scan, and an unterminated box reads past the end (line 40). */
  function NativeGateValidateAsWritten(crit: NativeGateCriterion, c: seq<Instruction>): (r: Outcome<GateError>)
    ensures r.Pass? <==>
      && !Unterminated(c)
      && (forall k :: 0 <= k < |c| && c[k].Gate? && InVerbatim(c, k) ==> c[k].name in crit.native)
    ensures r.Fail? && r.error.IndexOutOfRange? ==> Unterminated(c)
  {
    ScanEveryBoxMeaning(c, NativeCheck(crit.native));
    ToOutcome(ScanEveryBox(c, NativeCheck(crit.native), 0), (i: nat) => IndexOutOfRange(i))
  }

  /** `NativeGateCriterion.validate` with the intended ValueError for an
      unterminated box.  Gates outside boxes are never checked; a gate in a
      box that is not native is reported by name. */
  function NativeGateValidate(crit: NativeGateCriterion, c: seq<Instruction>): (r: Outcome<GateError>)
    ensures r.Pass? <==>
      && !Unterminated(c)
      && (forall k :: 0 <= k < |c| && c[k].Gate? && InVerbatim(c, k) ==> c[k].name in crit.native)
    ensures r.Fail? ==> Raises(r.error) == ValueError
    ensures r.Fail? && r.error.NotNative? ==> r.error.gate !in crit.native
  {
    ScanEveryBoxMeaning(c, NativeCheck(crit.native));
    NativeScanErrorNamesGate(c, crit.native, 0);
    ToOutcome(ScanEveryBox(c, NativeCheck(crit.native), 0), (i: nat) => NoEndVerbatimBox(i))
  }

  lemma {:induction false} NativeBoxErrorNamesGate(c: seq<Instruction>, native: set<string>, j: nat)
    requires j <= |c|
    ensures var r := ScanBox(c, NativeCheck(native), j); r.Bad? ==> r.error.NotNative? && r.error.gate !in native
    decreases |c| - j
  {
    if j < |c| {
      NativeBoxErrorNamesGate(c, native, j + 1);
    }
  }

  lemma {:induction false} NativeScanErrorNamesGate(c: seq<Instruction>, native: set<string>, i: nat)
    requires i <= |c|
    ensures var r := ScanEveryBox(c, NativeCheck(native), i); r.Bad? ==> r.error.NotNative? && r.error.gate !in native
    decreases |c| - i
  {
    if i < |c| {
      NativeScanErrorNamesGate(c, native, i + 1);
      NativeBoxErrorNamesGate(c, native, i + 1);
    }
  }

  lemma NativeGateUnterminatedExample(crit: NativeGateCriterion)
    ensures NativeGateValidateAsWritten(crit, [StartVerbatim]) == Fail(IndexOutOfRange(1))
    ensures NativeGateValidate(crit, [StartVerbatim]) == Fail(NoEndVerbatimBox(1))
  {
  }

  lemma NativeGateIgnoresOrder(table: GateTable, a: seq<string>, b: seq<string>)
    requires Elems(a) == Elems(b)
    ensures NewNativeGateCriterion(table, a).Success? <==> NewNativeGateCriterion(table, b).Success?
    ensures NewNativeGateCriterion(table, a).Success? ==> NewNativeGateCriterion(table, a) == NewNativeGateCriterion(table, b)
  {
    LookupAllSameNames(table, a, b, n => n);
    assert |a| == 0 <==> |b| == 0 by {
      if |a| > 0 { assert a[0] in Elems(b); }
      if |b| > 0 { assert b[0] in Elems(a); }
    }
  }

  // ---------------------------------------------------------------------
  // SupportedGateCriterion
  // ---------------------------------------------------------------------

  datatype SupportedGateCriterion = SupportedGateCriterion(supported: set<string>)

  function NewSupportedGateCriterion(table: GateTable, names: seq<string>): (r: Result<SupportedGateCriterion, ConstructionError>)
    ensures |names| == 0 ==> r == Failure(NoGatesProvided)
    ensures r.Success? <==> |names| > 0 && forall i :: 0 <= i < |names| ==> names[i] in table
    ensures r.Success? ==> forall g :: g in r.value.supported <==> exists i :: 0 <= i < |names| && table[names[i]] == g
  {
    if |names| == 0 then Failure(NoGatesProvided)
    else
      match LookupAll(table, names, n => n)
      case Failure(k) => Failure(InvalidGateName(k))
      case Success(s) => Success(SupportedGateCriterion(s))
  }

  /** Every gate anywhere in the circuit, inside verbatim boxes included,
      must be supported; other instructions are skipped. */
  function SupportedGateValidate(crit: SupportedGateCriterion, c: seq<Instruction>): (r: Outcome<GateError>)
    ensures r.Pass? <==> forall k :: 0 <= k < |c| && c[k].Gate? ==> c[k].name in crit.supported
    ensures r.Fail? ==> r.error.NotSupported? && r.error.gate !in crit.supported
  {
    ScanAllOutcome(c, SupportedCheck(crit.supported))
  }

  lemma SupportedGateIgnoresOrder(table: GateTable, a: seq<string>, b: seq<string>)
    requires Elems(a) == Elems(b)
    ensures NewSupportedGateCriterion(table, a).Success? <==> NewSupportedGateCriterion(table, b).Success?
    ensures NewSupportedGateCriterion(table, a).Success? ==> NewSupportedGateCriterion(table, a) == NewSupportedGateCriterion(table, b)
  {
    LookupAllSameNames(table, a, b, n => n);
    assert |a| == 0 <==> |b| == 0 by {
      if |a| > 0 { assert a[0] in Elems(b); }
      if |b| > 0 { assert b[0] in Elems(a); }
    }
  }

  /** The supported-gate criterion is the native-gate criterion extended to
      the whole circuit: with the same gate set, passing it implies passing
      the native-gate check of a closed circuit. */
  lemma SupportedImpliesNativeInsideBoxes(s: set<string>, c: seq<Instruction>)
    requires !Unterminated(c)
    requires SupportedGateValidate(SupportedGateCriterion(s), c).Pass?
    ensures NativeGateValidate(NativeGateCriterion(s), c).Pass?
  {
  }
}
