/** Per-family gate-name translation: the device's own gate names are mapped
    to Braket gate names, with a small table per hardware family and every
    other name passed through unchanged. */
module Translation {

  /** The device-capabilities schema a QPU reports; dispatch in the emulator
      factory is on this type. */
  datatype DeviceFamily = Rigetti | Iqm | IonQ | QuEra | OtherFamily

  /** The explicit entries of each family's table. */
  function TranslationTable(family: DeviceFamily): (t: map<string, string>)
    ensures family == Rigetti ==> t == map["CPHASE" := "CPhaseShift"]
    ensures family == IonQ ==> t == map["GPI" := "GPi", "GPI2" := "GPi2"]
    ensures family !in {Rigetti, IonQ} ==> t == map[]
  {
    match family
    case Rigetti => map["CPHASE" := "CPhaseShift"]
    case IonQ => map["GPI" := "GPi", "GPI2" := "GPi2"]
    case _ => map[]
  }

  /** `translations.get(name, name)` for the family's table. */
  function TranslateName(family: DeviceFamily, name: string): (r: string)
    ensures name in TranslationTable(family) ==> r == TranslationTable(family)[name]
    ensures name !in TranslationTable(family) ==> r == name
  {
    var t := TranslationTable(family);
    if name in t then t[name] else name
  }

  /** A single name or a list of names, as accepted by the translation entry point. */
  datatype GateNames = One(name: string) | Many(names: seq<string>)

  /** A string is translated to a string; any other iterable to a list of
      the same length, each element translated in place. */
  function TranslateNames(family: DeviceFamily, input: GateNames): (r: GateNames)
    ensures input.One? <==> r.One?
    ensures input.One? ==> r.name == TranslateName(family, input.name)
    ensures input.Many? ==> |r.names| == |input.names|
    ensures input.Many? ==> forall i :: 0 <= i < |input.names| ==> r.names[i] == TranslateName(family, input.names[i])
  {
    match input
    case One(n) => One(TranslateName(family, n))
    case Many(ns) => Many(TranslateList(family, ns))
  }

  function TranslateList(family: DeviceFamily, names: seq<string>): (r: seq<string>)
    ensures |r| == |names|
    ensures forall i :: 0 <= i < |names| ==> r[i] == TranslateName(family, names[i])
  {
    seq(|names|, i requires 0 <= i < |names| => TranslateName(family, names[i]))
  }

  /** The image of a list of device names as a set (`set(translations(...))`). */
  function TranslatedSet(family: DeviceFamily, names: seq<string>): (r: set<string>)
    ensures forall g :: g in r <==> exists i :: 0 <= i < |names| && g == TranslateName(family, names[i])
  {
    set i | 0 <= i < |names| :: TranslateName(family, names[i])
  }

  /** The table values are never themselves table keys, so translating twice
      is translating once. */
  lemma TranslateNameIdempotent(family: DeviceFamily, name: string)
    ensures TranslateName(family, TranslateName(family, name)) == TranslateName(family, name)
  {
  }

  lemma TranslateNamesIdempotent(family: DeviceFamily, input: GateNames)
    ensures TranslateNames(family, TranslateNames(family, input)) == TranslateNames(family, input)
  {
    match input
    case One(n) =>
      TranslateNameIdempotent(family, n);
    case Many(ns) =>
      var once := TranslateList(family, ns);
      forall i | 0 <= i < |ns|
        ensures TranslateName(family, once[i]) == once[i]
      {
        TranslateNameIdempotent(family, ns[i]);
      }
  }

  /** Only the table's keys change: a translated name differs from its input
      exactly when the family's table lists the input. */
  lemma TranslateNameChangesOnlyKeys(family: DeviceFamily, name: string)
    ensures TranslateName(family, name) != name <==> name in TranslationTable(family)
  {
  }

  /** The concrete translations the emulator relies on. */
  lemma KnownTranslations()
    ensures TranslateName(Rigetti, "CPHASE") == "CPhaseShift"
    ensures TranslateName(IonQ, "GPI") == "GPi"
    ensures TranslateName(IonQ, "GPI2") == "GPi2"
    ensures TranslateName(OtherFamily, "fake_gate") == "fake_gate"
    ensures TranslateNames(IonQ, Many(["GPI", "GPI2", "fake_gate"])) == Many(["GPi", "GPi2", "fake_gate"])
  {
    var r := TranslateNames(IonQ, Many(["GPI", "GPI2", "fake_gate"]));
    assert r.names == ["GPi", "GPi2", "fake_gate"];
  }
}
