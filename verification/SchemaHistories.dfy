/** The cumulative field-history check of one upgrade step. */
module SchemaHistories {
  import opened Wrappers
  import opened JsonValues
  import opened Artifacts

  /** The texts that parse as versions, each with its rank in the version order. Every countable
      strict total order fits in the reals, so a rank stands for a parsed version. */
  type VersionRanks = imap<string, real>

  // ----- Struct fields of an artifact -----

  type Structs = map<string, map<string, Json>>

  function FieldsFrom(items: seq<Json>): Option<map<string, Json>> {
    if items == [] then Some(map[])
    else
      var item, before := items[|items| - 1], FieldsFrom(items[..|items| - 1]);
      match (before, item.Get("name"), item.Get("type_"))
      case (Some(fields), Some(Text(name)), Some(fieldType)) => Some(fields[name := fieldType])
      case _ => None
  }

  function StructFields(entry: InterfaceEntry): Option<map<string, Json>> {
    match ArrayAt(entry.canonical, "udt_struct_v0", "fields")
    case None => None
    case Some(items) => FieldsFrom(items)
  }

  function ArtifactStructs(a: Artifact): Structs {
    map n | n in a.userTypes && StructFields(a.userTypes[n]).Some? :: StructFields(a.userTypes[n]).value
  }

  predicate HasField(structs: Structs, t: string, f: string) {
    t in structs && f in structs[t]
  }

  function RecordOf(h: SchemaHistory, t: string, f: string): Option<HistoricalField> {
    if t in h.types && f in h.types[t].fields then Some(h.types[t].fields[f]) else None
  }

  predicate IsReserved(h: SchemaHistory, t: string, f: string) {
    t in h.types && f in h.types[t].reservedFields
  }

  /** What the history check reads of an artifact: its version and the fields of its structs. */
  datatype Release = Release(version: Option<string>, structs: Structs) {
    function VersionText(): string {
      match version case Some(v) => v case None => "unknown"
    }
  }

  function ReleaseOf(a: Artifact): Release {
    Release(a.Version(), ArtifactStructs(a))
  }

  // ----- Findings, record by record and field by field -----

  predicate VersionsParse(versions: VersionRanks, record: HistoricalField) {
    record.firstSeen in versions && (record.retiredIn.Some? ==> record.retiredIn.value in versions)
  }

  function RecordFindings(versions: VersionRanks, t: string, th: TypeHistory, f: string): set<Finding>
    requires f in th.fields
  {
    var record := th.fields[f];
    if !VersionsParse(versions, record) then {Fail(HIS013, [t, f])}
    else if record.retiredIn.Some? then
      When(versions[record.retiredIn.value] < versions[record.firstSeen], Fail(HIS014, [t, f]))
      + When(f !in th.reservedFields, Fail(HIS015, [t, f]))
    else {}
  }

  function ReservationFindings(t: string, th: TypeHistory, f: string): set<Finding> {
    When(f !in th.fields || th.fields[f].retiredIn.None?, Fail(HIS016, [t, f]))
  }

  function SourceFieldFindings(h: SchemaHistory, t: string, f: string, fieldType: Json): set<Finding> {
    match RecordOf(h, t, f)
    case None => {Fail(HIS002, [t, f])}
    case Some(record) => When(record.valueType != fieldType, Fail(HIS003, [t, f]))
  }

  function TargetFieldFindings(
    h: SchemaHistory, source: Structs, targetVersion: string, t: string, f: string, fieldType: Json): set<Finding>
  {
    When(IsReserved(h, t, f), Fail(HIS005, [t, f])) +
    match RecordOf(h, t, f)
    case None => {Fail(HIS006, [t, f])}
    case Some(record) =>
      When(record.retiredIn.Some?, Fail(HIS007, [t, f]))
      + When(record.valueType != fieldType, Fail(HIS008, [t, f]))
      + When(!HasField(source, t, f) && record.firstSeen != targetVersion, Fail(HIS009, [t, f]))
  }

  function RemovedFieldFindings(
    h: SchemaHistory, target: Structs, targetVersion: string, t: string, f: string): set<Finding>
  {
    if HasField(target, t, f) then {}
    else
      var record := RecordOf(h, t, f);
      if record.None? || record.value.retiredIn != Some(targetVersion) || !IsReserved(h, t, f)
      then {Fail(HIS010, [t, f])} else {Warn(HIS011, [t, f])}
  }

  // ----- Findings over whole histories and artifacts -----

  function TypeRecordFindings(versions: VersionRanks, t: string, th: TypeHistory): set<Finding> {
    (set f, x | f in th.fields && x in RecordFindings(versions, t, th, f) :: x)
    + (set f, x | f in th.reservedFields && x in ReservationFindings(t, th, f) :: x)
  }

  function AllRecordFindings(versions: VersionRanks, types: map<string, TypeHistory>, names: set<string>): set<Finding>
    requires names <= types.Keys
  {
    set t, x | t in names && x in TypeRecordFindings(versions, t, types[t]) :: x
  }

  function AllSourceFindings(h: SchemaHistory, source: Structs, names: set<string>): set<Finding>
    requires names <= source.Keys
  {
    set t, f, x | t in names && f in source[t] && x in SourceFieldFindings(h, t, f, source[t][f]) :: x
  }

  function TypeTargetFindings(
    h: SchemaHistory, source: Structs, targetVersion: string, t: string, fields: map<string, Json>): set<Finding>
  {
    if t !in h.types then {Fail(HIS004, [t])}
    else set f, x | f in fields && x in TargetFieldFindings(h, source, targetVersion, t, f, fields[f]) :: x
  }

  function AllTargetFindings(
    h: SchemaHistory, source: Structs, target: Structs, targetVersion: string, names: set<string>): set<Finding>
    requires names <= target.Keys
  {
    set t, x | t in names && x in TypeTargetFindings(h, source, targetVersion, t, target[t]) :: x
  }

  function AllRemovedFindings(
    h: SchemaHistory, source: Structs, target: Structs, targetVersion: string, names: set<string>): set<Finding>
    requires names <= source.Keys
  {
    set t, f, x | t in names && f in source[t] && x in RemovedFieldFindings(h, target, targetVersion, t, f) :: x
  }

  /** Everything the history check reports for one step. */
  function HistoryFindings(versions: VersionRanks, source: Release, target: Release, h: SchemaHistory): set<Finding> {
    if h.formatVersion != 1 then {Fail(HIS001, [])}
    else
      var s, t, v := source.structs, target.structs, target.VersionText();
      When(!h.complete, Fail(HIS012, []))
      + AllRecordFindings(versions, h.types, h.types.Keys)
      + AllSourceFindings(h, s, s.Keys)
      + AllTargetFindings(h, s, t, v, t.Keys)
      + AllRemovedFindings(h, s, t, v, s.Keys)
  }

  // ----- The check as it runs -----

  method ValidateSchemaHistory(
    versions: VersionRanks, source: Artifact, target: Artifact, history: SchemaHistory, findings: set<Finding>)
    returns (out: set<Finding>)
    ensures out == findings + HistoryFindings(versions, ReleaseOf(source), ReleaseOf(target), history)
  {
    out := findings;
    if history.formatVersion != 1 {
      out := out + {Fail(HIS001, [])};
      return;
    }
    if !history.complete {
      out := out + {Fail(HIS012, [])};
    }
    var sourceTypes, targetTypes := ArtifactStructs(source), ArtifactStructs(target);
    var targetVersion := ReleaseOf(target).VersionText();
    out := CheckRecords(versions, history, out);
    out := CheckSourceFields(history, sourceTypes, out);
    out := CheckTargetFields(history, sourceTypes, targetTypes, targetVersion, out);
    out := CheckRemovedFields(history, sourceTypes, targetTypes, targetVersion, out);
  }

  method CheckRecords(
    versions: VersionRanks, history: SchemaHistory, findings: set<Finding>) returns (out: set<Finding>)
    ensures out == findings + AllRecordFindings(versions, history.types, history.types.Keys)
  {
    hide RecordFindings, ReservationFindings;
    out := findings;
    var todo := history.types.Keys;
    while todo != {}
      invariant todo <= history.types.Keys
      invariant out == findings + AllRecordFindings(versions, history.types, history.types.Keys - todo)
      decreases todo
    {
      var t :| t in todo;
      var th, before := history.types[t], out;
      var fieldsLeft := th.fields.Keys;
      while fieldsLeft != {}
        invariant fieldsLeft <= th.fields.Keys
        invariant out == before + set f, x | f in th.fields.Keys - fieldsLeft
                && x in RecordFindings(versions, t, th, f) :: x
        decreases fieldsLeft
      {
        var f :| f in fieldsLeft;
        out := out + RecordFindings(versions, t, th, f);
        fieldsLeft := fieldsLeft - {f};
      }
      ghost var middle := out;
      var reservedLeft := th.reservedFields;
      while reservedLeft != {}
        invariant reservedLeft <= th.reservedFields
        invariant out == middle + set f, x | f in th.reservedFields - reservedLeft
                && x in ReservationFindings(t, th, f) :: x
        decreases reservedLeft
      {
        var f :| f in reservedLeft;
        out := out + ReservationFindings(t, th, f);
        reservedLeft := reservedLeft - {f};
      }
      assert out == before + TypeRecordFindings(versions, t, th);
      todo := todo - {t};
    }
  }

  method CheckSourceFields(history: SchemaHistory, source: Structs, findings: set<Finding>) returns (out: set<Finding>)
    ensures out == findings + AllSourceFindings(history, source, source.Keys)
  {
    hide SourceFieldFindings;
    out := findings;
    var todo := source.Keys;
    while todo != {}
      invariant todo <= source.Keys
      invariant out == findings + AllSourceFindings(history, source, source.Keys - todo)
      decreases todo
    {
      var t :| t in todo;
      var fields, before := source[t], out;
      var fieldsLeft := fields.Keys;
      while fieldsLeft != {}
        invariant fieldsLeft <= fields.Keys
        invariant out == before + set f, x | f in fields.Keys - fieldsLeft
                && x in SourceFieldFindings(history, t, f, fields[f]) :: x
        decreases fieldsLeft
      {
        var f :| f in fieldsLeft;
        out := out + SourceFieldFindings(history, t, f, fields[f]);
        fieldsLeft := fieldsLeft - {f};
      }
      todo := todo - {t};
    }
  }

  method CheckTargetFields(
    history: SchemaHistory, source: Structs, target: Structs, targetVersion: string, findings: set<Finding>)
    returns (out: set<Finding>)
    ensures out == findings + AllTargetFindings(history, source, target, targetVersion, target.Keys)
  {
    hide TargetFieldFindings;
    out := findings;
    var todo := target.Keys;
    while todo != {}
      invariant todo <= target.Keys
      invariant out == findings + AllTargetFindings(history, source, target, targetVersion, target.Keys - todo)
      decreases todo
    {
      var t :| t in todo;
      var fields, before := target[t], out;
      ghost var done := target.Keys - todo;
      todo := todo - {t};
      assert target.Keys - todo == done + {t};
      if t !in history.types {
        out := out + {Fail(HIS004, [t])};
        assert out == before + TypeTargetFindings(history, source, targetVersion, t, fields);
        continue;
      }
      var fieldsLeft := fields.Keys;
      while fieldsLeft != {}
        invariant fieldsLeft <= fields.Keys
        invariant out == before + set f, x | f in fields.Keys - fieldsLeft
                      && x in TargetFieldFindings(history, source, targetVersion, t, f, fields[f]) :: x
        decreases fieldsLeft
      {
        var f :| f in fieldsLeft;
        out := out + TargetFieldFindings(history, source, targetVersion, t, f, fields[f]);
        fieldsLeft := fieldsLeft - {f};
      }
      assert out == before + TypeTargetFindings(history, source, targetVersion, t, fields);
    }
  }

  method CheckRemovedFields(
    history: SchemaHistory, source: Structs, target: Structs, targetVersion: string, findings: set<Finding>)
    returns (out: set<Finding>)
    ensures out == findings + AllRemovedFindings(history, source, target, targetVersion, source.Keys)
  {
    hide RemovedFieldFindings;
    out := findings;
    var todo := source.Keys;
    while todo != {}
      invariant todo <= source.Keys
      invariant out == findings + AllRemovedFindings(history, source, target, targetVersion, source.Keys - todo)
      decreases todo
    {
      var t :| t in todo;
      var fields, before := source[t], out;
      var fieldsLeft := fields.Keys;
      while fieldsLeft != {}
        invariant fieldsLeft <= fields.Keys
        invariant out == before + set f, x | f in fields.Keys - fieldsLeft
                                             && x in RemovedFieldFindings(history, target, targetVersion, t, f) :: x
        decreases fieldsLeft
      {
        var f :| f in fieldsLeft;
        out := out + RemovedFieldFindings(history, target, targetVersion, t, f);
        fieldsLeft := fieldsLeft - {f};
      }
      todo := todo - {t};
    }
  }
}
