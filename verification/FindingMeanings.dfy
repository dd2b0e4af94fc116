/** What each finding of a report says, code by code. */
module FindingMeanings {
  import opened Wrappers
  import opened JsonValues
  import opened Artifacts
  import opened PublicImpacts
  import opened SchemaHistories
  import opened InterfaceChecks
  import opened StorageChecks
  import opened Gate
  import SearchLimits
  import Texts

  // ----- Policy -----

  /** The name under which a protection is listed when it is off. */
  function ProtectionName(protection: nat): string {
    match protection
    case 0 => "retained upgrade entrypoint"
    case 1 => "increasing `binver`"
    case 2 => "complete storage schemas"
    case 3 => "complete schema history"
    case 4 => "removed public functions"
    case 5 => "changed function signatures"
    case 6 => "removed contract events"
    case 7 => "changed contract events"
    case 8 => "changed or removed user-defined types"
    case _ => ""
  }

  predicate IsOff(p: Policy, protection: nat) {
    match protection
    case 0 => !p.requireUpgradeFunction
    case 1 => !p.requireSemverIncrease
    case 2 => !p.requireStorageSchema
    case 3 => !p.requireSchemaHistory
    case 4 => !p.denyRemovedFunctions
    case 5 => !p.denyChangedFunctions
    case 6 => !p.denyRemovedEvents
    case 7 => !p.denyChangedEvents
    case 8 => !p.denyChangedUserTypes
    case _ => false
  }

  /** The names of the protections that are off, in their order. */
  function Off(p: Policy, from: nat): seq<string>
    requires from <= 9
    decreases 9 - from
  {
    if from == 9 then []
    else (if IsOff(p, from) then [ProtectionName(from)] else []) + Off(p, from + 1)
  }

  ghost predicate PolicyMeaning(p: Policy, f: Finding) {
    match f.code
    case POL001 => f.severity == Error && f.subject == [p.name] && p.formatVersion != 1
    case POL002 => f.severity == Warning && f.subject == [p.name] + Off(p, 0) && exists i :: 0 <= i < 9 && IsOff(p, i)
    case _ => false
  }

  lemma RowsMean(p: Policy, i: nat)
    requires i < 9
    ensures |Protections(p)| == 9 && Protections(p)[i] == (IsOff(p, i), ProtectionName(i))
  {
  }

  lemma {:induction false} MarkedAreOff(p: Policy, from: nat)
    requires from <= 9 && |Protections(p)| == 9
    ensures Marked(Protections(p)[from..]) == Off(p, from)
    ensures Off(p, from) != [] <==> exists i :: from <= i < 9 && IsOff(p, i)
    decreases 9 - from
  {
    hide Protections, IsOff, ProtectionName;
    if from < 9 {
      RowsMean(p, from);
      MarkedAreOff(p, from + 1);
      assert Protections(p)[from..][1..] == Protections(p)[from + 1..];
    }
  }

  lemma OffIsDisabled(p: Policy)
    ensures Off(p, 0) == DisabledProtections(p)
    ensures Off(p, 0) != [] <==> exists i :: 0 <= i < 9 && IsOff(p, i)
  {
    hide Protections, Off, Marked, IsOff;
    RowsMean(p, 0);
    MarkedAreOff(p, 0);
    assert Protections(p)[0..] == Protections(p);
  }

  lemma PolicyFindingsMean(p: Policy, f: Finding)
    ensures f in PolicyFindings(p) <==> PolicyMeaning(p, f)
  {
    OffIsDisabled(p);
    hide Off, DisabledProtections, IsOff;
  }

  // ----- Network and environment -----

  ghost predicate ContextMeaning(c: ValidationContext, f: Finding) {
    var pinned := c.targetProtocolVersion.Some?;
    var complete := pinned && c.networkName.Some? && c.networkId.Some? && c.networkPassphrase.Some?
                    && c.rpcVersion.Some? && c.observedAtUnixSeconds.Some?;
    f.subject == [] &&
    match f.code
    case NET001 => f.severity == Warning && c.protocolSource == Unpinned && !pinned
    case NET002 => f.severity == Error && c.protocolSource == Unpinned && pinned
    case NET003 => f.severity == Warning && c.protocolSource == OfflineAssertion && pinned
    case NET004 => f.severity == Error && c.protocolSource == OfflineAssertion && !pinned
    case NET005 => f.severity == Info && c.protocolSource == StellarCliNetworkInfo && complete
    case NET006 => f.severity == Error && c.protocolSource == StellarCliNetworkInfo && !complete
    case _ => false
  }

  /** Some exported function reaches the host import. */
  ghost predicate ReachedByAnExport(a: Artifact, hostImport: string) {
    exists x :: x in a.exportCallEvidence && hostImport in a.exportCallEvidence[x].hostImports
  }

  ghost predicate EnvironmentMeaning(target: Artifact, c: ValidationContext, f: Finding) {
    var reading, writing, protocol := "m.c" in target.hostImports, "m.b" in target.hostImports, c.targetProtocolVersion;
    f.subject == [] &&
    match f.code
    case ENV001 => f.severity == Error && target.envPreRelease != 0
    case ENV002 => f.severity == Error && protocol.Some? && protocol.value < target.envProtocolVersion
    case CAP001 => f.severity == Error && protocol.Some? && protocol.value < 28 && (reading || writing)
    case CAP002 => f.severity == Info && protocol.Some? && protocol.value >= 28 && reading
    case CAP003 => f.severity == Warning && protocol.Some? && protocol.value >= 28 && !reading
    case CAP004 => f.severity == Warning && writing && !reading
    case CAP007 => f.severity == Error && reading && !ReachedByAnExport(target, "m.c")
    case CAP008 =>
      f.severity == Warning && (reading || writing)
      && exists x :: x in target.exportCallEvidence && target.exportCallEvidence[x].dynamicDispatchReachable
    case CAP009 => f.severity == Error && writing && !ReachedByAnExport(target, "m.b")
    case _ => false
  }

  lemma ContextFindingsMean(c: ValidationContext, f: Finding)
    ensures f in ProtocolContextFindings(c) <==> ContextMeaning(c, f)
  {
  }

  lemma EnvironmentFindingsMean(target: Artifact, c: ValidationContext, f: Finding)
    ensures f in EnvironmentFindings(target, c) || f in SparseMapFindings(target, c) <==>
            EnvironmentMeaning(target, c, f)
  {
    assert SomeExportReaches(target, "m.c") == ReachedByAnExport(target, "m.c") by {
      assert forall x :: target.ExportReaches(x, "m.c") <==>
        x in target.exportCallEvidence && "m.c" in target.exportCallEvidence[x].hostImports;
    }
    assert SomeExportReaches(target, "m.b") == ReachedByAnExport(target, "m.b") by {
      assert forall x :: target.ExportReaches(x, "m.b") <==>
        x in target.exportCallEvidence && "m.b" in target.exportCallEvidence[x].hostImports;
    }
    hide SomeExportReaches, ReachedByAnExport;
  }

  // ----- Upgrade path and version -----

  /** The artifact exports `upgrade`, and `upgrade` reaches the WASM update. */
  ghost predicate UpgradeReachesUpdate(a: Artifact) {
    && "upgrade" in a.functions && "upgrade" in a.exportCallEvidence
    && "l.6" in a.exportCallEvidence["upgrade"].hostImports
  }

  ghost predicate UpgradeMeaning(source: Artifact, target: Artifact, p: Policy, f: Finding) {
    f.subject == [] &&
    match f.code
    case UPG001 => f.severity == Error && p.requireUpgradeFunction && "upgrade" !in target.functions
    case UPG002 =>
      f.severity == (if p.forbidConstructor then Error else Warning) && "__constructor" in target.functions
    case UPG003 => f.severity == Error && p.requireUpgradeFunction && !UpgradeReachesUpdate(source)
    case UPG004 =>
      f.severity == Error && p.requireUpgradeFunction && "upgrade" in target.functions && !UpgradeReachesUpdate(target)
    case _ => false
  }

  ghost predicate VersionMeaning(versions: VersionRanks, source: Artifact, target: Artifact, p: Policy, f: Finding) {
    var both := "binver" in source.metadata && "binver" in target.metadata;
    f.subject == [] && f.severity == Error && p.requireSemverIncrease &&
    match f.code
    case VER001 => !both
    case VER002 =>
      both && source.metadata["binver"] in versions && target.metadata["binver"] in versions
      && versions[target.metadata["binver"]] <= versions[source.metadata["binver"]]
    case VER003 =>
      both && (source.metadata["binver"] !in versions || target.metadata["binver"] !in versions)
    case _ => false
  }

  lemma UpgradeFindingsMean(source: Artifact, target: Artifact, p: Policy, f: Finding)
    ensures f in UpgradeFindings(source, target, p) <==> UpgradeMeaning(source, target, p, f)
  {
  }

  lemma VersionFindingsMean(versions: VersionRanks, source: Artifact, target: Artifact, p: Policy, f: Finding)
    ensures f in VersionFindings(versions, source, target, p) <==> VersionMeaning(versions, source, target, p, f)
  {
  }

  // ----- Interface -----

  /** A struct that kept every field and its type, and gained fields, all of them optional. */
  ghost predicate GainsOptionalFields(before: InterfaceEntry, after: InterfaceEntry) {
    && before.kind == "struct" && after.kind == "struct"
    && StructFields(before).Some? && StructFields(after).Some?
    && var o, n := StructFields(before).value, StructFields(after).value;
       && (forall f :: f in o ==> f in n && n[f] == o[f])
       && (exists f :: f in n && f !in o)
       && forall f :: f in n && f !in o ==> n[f].Object? && "option" in n[f].members
  }

  ghost predicate ChangedIn(before: map<string, InterfaceEntry>, after: map<string, InterfaceEntry>, name: string) {
    name in before && name in after && before[name].canonical != after[name].canonical
  }

  ghost predicate FunctionMeaning(source: Artifact, target: Artifact, p: Policy, name: string, code: Code) {
    match code
    case ABI001 => p.denyRemovedFunctions && name in source.functions && name !in target.functions
    case ABI002 => p.denyChangedFunctions && ChangedIn(source.functions, target.functions, name)
    case _ => false
  }

  ghost predicate EventMeaning(source: Artifact, target: Artifact, p: Policy, name: string, code: Code) {
    match code
    case EVT001 => p.denyRemovedEvents && name in source.events && name !in target.events
    case EVT002 => p.denyChangedEvents && ChangedIn(source.events, target.events, name)
    case _ => false
  }

  ghost predicate TypeMeaning(
    source: Artifact, target: Artifact, p: Policy, c: ValidationContext, name: string, code: Code)
  {
    var protocol := c.targetProtocolVersion;
    var sparse := protocol.Some? && protocol.value >= 28 && "m.c" in target.hostImports;
    var changed := ChangedIn(source.userTypes, target.userTypes, name);
    p.denyChangedUserTypes &&
    match code
    case ABI003 => name in source.userTypes && name !in target.userTypes
    case ABI004 => changed && !GainsOptionalFields(source.userTypes[name], target.userTypes[name])
    case CAP005 => changed && GainsOptionalFields(source.userTypes[name], target.userTypes[name]) && sparse
    case CAP006 => changed && GainsOptionalFields(source.userTypes[name], target.userTypes[name]) && !sparse
    case _ => false
  }

  /** Findings about one function, event or user type. */
  ghost predicate InterfaceMeaning(source: Artifact, target: Artifact, p: Policy, c: ValidationContext, f: Finding) {
    |f.subject| == 1 && f.severity == Error &&
    var name := f.subject[0];
    || FunctionMeaning(source, target, p, name, f.code) || EventMeaning(source, target, p, name, f.code)
    || TypeMeaning(source, target, p, c, name, f.code)
  }

  lemma LargerMeansMore(o: map<string, Json>, n: map<string, Json>)
    requires o.Keys <= n.Keys
    ensures |n| > |o| <==> exists f :: f in n && f !in o
  {
    assert |n.Keys| == |o.Keys| + |n.Keys - o.Keys| by { assert n.Keys == o.Keys + (n.Keys - o.Keys); }
    if f :| f in n && f !in o { assert f in n.Keys - o.Keys; }
    if |n| > |o| {
      var f :| f in n.Keys - o.Keys;
      assert f in n;
    }
  }

  lemma GainingMeans(before: InterfaceEntry, after: InterfaceEntry)
    ensures OnlyOptionalFieldsAdded(before, after) <==> GainsOptionalFields(before, after)
  {
    hide StructFields;
    if StructFields(before).Some? && StructFields(after).Some? {
      var o, n := StructFields(before).value, StructFields(after).value;
      if forall f :: f in o ==> f in n && n[f] == o[f] { LargerMeansMore(o, n); }
    }
  }

  lemma OneFunctionMeans(source: Artifact, target: Artifact, p: Policy, name: string, f: Finding)
    ensures name in source.functions && f in FunctionFindings(source, target, p, name) <==>
            f.subject == [name] && f.severity == Error && FunctionMeaning(source, target, p, name, f.code)
  {
  }

  lemma OneEventMeans(source: Artifact, target: Artifact, p: Policy, name: string, f: Finding)
    ensures name in source.events && f in EventFindings(source, target, p, name) <==>
            f.subject == [name] && f.severity == Error && EventMeaning(source, target, p, name, f.code)
  {
  }

  lemma OneTypeMeans(source: Artifact, target: Artifact, p: Policy, c: ValidationContext, name: string, f: Finding)
    ensures name in source.userTypes && f in TypeFindings(source, target, p, c, name) <==>
            f.subject == [name] && f.severity == Error && TypeMeaning(source, target, p, c, name, f.code)
  {
    if p.denyChangedUserTypes && ChangedIn(source.userTypes, target.userTypes, name) {
      ChangedTypeMeans(source, target, p, c, name, f);
      hide TypeMeaning, ChangedTypeFinding;
      assert TypeFindings(source, target, p, c, name) == {ChangedTypeFinding(source, target, c, name)};
    } else {
      UnchangedTypeMeans(source, target, p, c, name, f);
    }
  }

  lemma ChangedTypeMeans(source: Artifact, target: Artifact, p: Policy, c: ValidationContext, name: string, f: Finding)
    requires p.denyChangedUserTypes && ChangedIn(source.userTypes, target.userTypes, name)
    ensures f == ChangedTypeFinding(source, target, c, name) <==>
            f.subject == [name] && f.severity == Error && TypeMeaning(source, target, p, c, name, f.code)
  {
    GainingMeans(source.userTypes[name], target.userTypes[name]);
    hide OnlyOptionalFieldsAdded, GainsOptionalFields;
    var g := ChangedTypeFinding(source, target, c, name);
    assert g.subject == [name] && g.severity == Error && TypeMeaning(source, target, p, c, name, g.code);
    assert forall code :: TypeMeaning(source, target, p, c, name, code) ==> code == g.code;
  }

  lemma UnchangedTypeMeans(
    source: Artifact, target: Artifact, p: Policy, c: ValidationContext, name: string, f: Finding)
    requires !(p.denyChangedUserTypes && ChangedIn(source.userTypes, target.userTypes, name))
    ensures name in source.userTypes && f in TypeFindings(source, target, p, c, name) <==>
            f.subject == [name] && f.severity == Error && TypeMeaning(source, target, p, c, name, f.code)
  {
    hide GainsOptionalFields, ChangedTypeFinding;
  }

  lemma InterfaceFindingsMean(source: Artifact, target: Artifact, p: Policy, c: ValidationContext, f: Finding)
    ensures f in InterfaceFindings(source, target, p, c) <==> InterfaceMeaning(source, target, p, c, f)
  {
    hide FunctionFindings, EventFindings, TypeFindings, FunctionMeaning, EventMeaning, TypeMeaning;
    forall name
      ensures name in source.functions && f in FunctionFindings(source, target, p, name) <==>
              f.subject == [name] && f.severity == Error && FunctionMeaning(source, target, p, name, f.code)
      ensures name in source.events && f in EventFindings(source, target, p, name) <==>
              f.subject == [name] && f.severity == Error && EventMeaning(source, target, p, name, f.code)
      ensures name in source.userTypes && f in TypeFindings(source, target, p, c, name) <==>
              f.subject == [name] && f.severity == Error && TypeMeaning(source, target, p, c, name, f.code)
    {
      OneFunctionMeans(source, target, p, name, f);
      OneEventMeans(source, target, p, name, f);
      OneTypeMeans(source, target, p, c, name, f);
    }
    assert |f.subject| == 1 ==> f.subject == [f.subject[0]];
  }

  // ----- Field history -----

  predicate HasMember(structs: Structs, t: string, name: string) {
    t in structs && name in structs[t]
  }

  ghost predicate IsRecorded(h: SchemaHistory, t: string, name: string) {
    t in h.types && name in h.types[t].fields
  }

  /** The record is retired in the given version, and the name is reserved. */
  ghost predicate IsRetiredProperly(h: SchemaHistory, version: string, t: string, name: string) {
    && IsRecorded(h, t, name) && h.types[t].fields[name].retiredIn == Some(version)
    && name in h.types[t].reservedFields
  }

  ghost predicate RecordMeaning(versions: VersionRanks, h: SchemaHistory, t: string, name: string, code: Code) {
    t in h.types &&
    var fields, reserved := h.types[t].fields, h.types[t].reservedFields;
    var parsed := name in fields && fields[name].firstSeen in versions
                  && (fields[name].retiredIn.Some? ==> fields[name].retiredIn.value in versions);
    match code
    case HIS013 => name in fields && !parsed
    case HIS014 =>
      parsed && fields[name].retiredIn.Some?
        && versions[fields[name].retiredIn.value] < versions[fields[name].firstSeen]
    case HIS015 => parsed && fields[name].retiredIn.Some? && name !in reserved
    case HIS016 => name in reserved && (name in fields ==> fields[name].retiredIn.None?)
    case _ => false
  }

  ghost predicate SourceMeaning(h: SchemaHistory, source: Structs, t: string, name: string, code: Code) {
    HasMember(source, t, name) &&
    match code
    case HIS002 => !IsRecorded(h, t, name)
    case HIS003 => IsRecorded(h, t, name) && h.types[t].fields[name].valueType != source[t][name]
    case _ => false
  }

  ghost predicate TargetMeaning(
    h: SchemaHistory, source: Structs, target: Structs, version: string, t: string, name: string, code: Code)
  {
    HasMember(target, t, name) && t in h.types &&
    var fields := h.types[t].fields;
    match code
    case HIS005 => name in h.types[t].reservedFields
    case HIS006 => name !in fields
    case HIS007 => name in fields && fields[name].retiredIn.Some?
    case HIS008 => name in fields && fields[name].valueType != target[t][name]
    case HIS009 => name in fields && !HasMember(source, t, name) && fields[name].firstSeen != version
    case _ => false
  }

  ghost predicate RemovalMeaning(
    h: SchemaHistory, source: Structs, target: Structs, version: string, t: string, name: string, code: Code)
  {
    HasMember(source, t, name) && !HasMember(target, t, name) &&
    match code
    case HIS010 => !IsRetiredProperly(h, version, t, name)
    case HIS011 => IsRetiredProperly(h, version, t, name)
    case _ => false
  }

  /** Findings about one field. */
  ghost predicate FieldMeaning(
    versions: VersionRanks, h: SchemaHistory, source: Structs, target: Structs, version: string, f: Finding)
  {
    |f.subject| == 2 && f.severity == (if f.code == HIS011 then Warning else Error) &&
    var t, name := f.subject[0], f.subject[1];
    || RecordMeaning(versions, h, t, name, f.code) || SourceMeaning(h, source, t, name, f.code)
    || TargetMeaning(h, source, target, version, t, name, f.code)
    || RemovalMeaning(h, source, target, version, t, name, f.code)
  }

  ghost predicate HistoryMeaning(
    versions: VersionRanks, source: Structs, target: Structs, version: string, h: SchemaHistory, f: Finding)
  {
    if h.formatVersion != 1 then f == Finding(HIS001, Error, [])
    else
      || (f == Finding(HIS012, Error, []) && !h.complete)
      || (f.code == HIS004 && f.severity == Error && |f.subject| == 1
          && f.subject[0] in target && f.subject[0] !in h.types)
      || FieldMeaning(versions, h, source, target, version, f)
  }

  lemma OneRecordMeans(versions: VersionRanks, h: SchemaHistory, t: string, name: string, f: Finding)
    ensures (t in h.types && name in h.types[t].fields && f in RecordFindings(versions, t, h.types[t], name))
            || (t in h.types && name in h.types[t].reservedFields && f in ReservationFindings(t, h.types[t], name)) <==>
            f.subject == [t, name] && f.severity == Error && RecordMeaning(versions, h, t, name, f.code)
  {
  }

  lemma OneSourceFieldMeans(h: SchemaHistory, source: Structs, t: string, name: string, f: Finding)
    ensures HasMember(source, t, name) && f in SourceFieldFindings(h, t, name, source[t][name]) <==>
            f.subject == [t, name] && f.severity == Error && SourceMeaning(h, source, t, name, f.code)
  {
  }

  lemma OneTargetFieldMeans(
    h: SchemaHistory, source: Structs, target: Structs, version: string, t: string, name: string, f: Finding)
    ensures t in h.types && HasMember(target, t, name)
            && f in TargetFieldFindings(h, source, version, t, name, target[t][name]) <==>
            f.subject == [t, name] && f.severity == Error
            && TargetMeaning(h, source, target, version, t, name, f.code)
  {
    if HasMember(target, t, name) && t in h.types {
      hide TargetFieldFindings, TargetMeaning;
      if name in h.types[t].fields {
        RecordedTargetMeans(h, source, target, version, t, name, f);
      } else {
        UnrecordedTargetMeans(h, source, target, version, t, name, f);
      }
    }
  }

  lemma RecordedTargetMeans(
    h: SchemaHistory, source: Structs, target: Structs, version: string, t: string, name: string, f: Finding)
    requires t in h.types && HasMember(target, t, name) && name in h.types[t].fields
    ensures f in TargetFieldFindings(h, source, version, t, name, target[t][name]) <==>
            f.subject == [t, name] && f.severity == Error
            && TargetMeaning(h, source, target, version, t, name, f.code)
  {
    var r := h.types[t].fields[name];
    assert RecordOf(h, t, name) == Some(r) && (IsReserved(h, t, name) <==> name in h.types[t].reservedFields);
    assert HasField(source, t, name) <==> HasMember(source, t, name);
    hide RecordOf, IsReserved, HasField, HasMember;
    hide When;
    TargetCodesMean(IsReserved(h, t, name), r.retiredIn.Some?, r.valueType != target[t][name],
                    !HasField(source, t, name) && r.firstSeen != version, [t, name], f);
  }

  lemma TargetCodesMean(reserved: bool, retired: bool, retyped: bool, misdated: bool, subject: seq<string>, f: Finding)
    ensures f in When(reserved, Fail(HIS005, subject))
                 + (When(retired, Fail(HIS007, subject)) + When(retyped, Fail(HIS008, subject))
                    + When(misdated, Fail(HIS009, subject))) <==>
            f.subject == subject && f.severity == Error &&
            match f.code
            case HIS005 => reserved
            case HIS007 => retired
            case HIS008 => retyped
            case HIS009 => misdated
            case _ => false
  {
  }

  lemma UnrecordedTargetMeans(
    h: SchemaHistory, source: Structs, target: Structs, version: string, t: string, name: string, f: Finding)
    requires t in h.types && HasMember(target, t, name) && name !in h.types[t].fields
    ensures f in TargetFieldFindings(h, source, version, t, name, target[t][name]) <==>
            f.subject == [t, name] && f.severity == Error
            && TargetMeaning(h, source, target, version, t, name, f.code)
  {
    assert RecordOf(h, t, name) == None;
  }

  lemma OneRemovalMeans(
    h: SchemaHistory, source: Structs, target: Structs, version: string, t: string, name: string, f: Finding)
    ensures HasMember(source, t, name) && f in RemovedFieldFindings(h, target, version, t, name) <==>
            f.subject == [t, name] && f.severity == (if f.code == HIS011 then Warning else Error)
            && RemovalMeaning(h, source, target, version, t, name, f.code)
  {
  }

  lemma RecordFindingsMean(versions: VersionRanks, h: SchemaHistory, f: Finding)
    ensures f in AllRecordFindings(versions, h.types, h.types.Keys) <==>
            |f.subject| == 2 && f.severity == Error && RecordMeaning(versions, h, f.subject[0], f.subject[1], f.code)
  {
    forall t, name
      ensures (t in h.types && name in h.types[t].fields && f in RecordFindings(versions, t, h.types[t], name))
              || (t in h.types && name in h.types[t].reservedFields
                && f in ReservationFindings(t, h.types[t], name)) <==>
              f.subject == [t, name] && f.severity == Error && RecordMeaning(versions, h, t, name, f.code)
    {
      OneRecordMeans(versions, h, t, name, f);
    }
    hide RecordFindings, ReservationFindings, RecordMeaning;
    assert |f.subject| == 2 ==> f.subject == [f.subject[0], f.subject[1]];
    assert f in AllRecordFindings(versions, h.types, h.types.Keys) <==>
      exists t :: t in h.types && f in TypeRecordFindings(versions, t, h.types[t]);
  }

  lemma SourceFindingsMean(h: SchemaHistory, source: Structs, f: Finding)
    ensures f in AllSourceFindings(h, source, source.Keys) <==>
            |f.subject| == 2 && f.severity == Error && SourceMeaning(h, source, f.subject[0], f.subject[1], f.code)
  {
    forall t, name
      ensures HasMember(source, t, name) && f in SourceFieldFindings(h, t, name, source[t][name]) <==>
              f.subject == [t, name] && f.severity == Error && SourceMeaning(h, source, t, name, f.code)
    {
      OneSourceFieldMeans(h, source, t, name, f);
    }
    hide SourceFieldFindings, SourceMeaning;
    assert |f.subject| == 2 ==> f.subject == [f.subject[0], f.subject[1]];
  }

  lemma TargetFindingsMean(h: SchemaHistory, source: Structs, target: Structs, version: string, f: Finding)
    ensures f in AllTargetFindings(h, source, target, version, target.Keys) <==>
            || (f.code == HIS004 && f.severity == Error && |f.subject| == 1
                && f.subject[0] in target && f.subject[0] !in h.types)
            || (|f.subject| == 2 && f.severity == Error
                && TargetMeaning(h, source, target, version, f.subject[0], f.subject[1], f.code))
  {
    forall t, name
      ensures t in h.types && HasMember(target, t, name)
              && f in TargetFieldFindings(h, source, version, t, name, target[t][name]) <==>
              f.subject == [t, name] && f.severity == Error
              && TargetMeaning(h, source, target, version, t, name, f.code)
    {
      OneTargetFieldMeans(h, source, target, version, t, name, f);
    }
    hide TargetFieldFindings, TargetMeaning;
    assert |f.subject| == 2 ==> f.subject == [f.subject[0], f.subject[1]];
    assert |f.subject| == 1 ==> f.subject == [f.subject[0]];
    assert f in AllTargetFindings(h, source, target, version, target.Keys) <==>
      exists t :: t in target && f in TypeTargetFindings(h, source, version, t, target[t]);
  }

  lemma RemovedFindingsMean(h: SchemaHistory, source: Structs, target: Structs, version: string, f: Finding)
    ensures f in AllRemovedFindings(h, source, target, version, source.Keys) <==>
            |f.subject| == 2 && f.severity == (if f.code == HIS011 then Warning else Error)
            && RemovalMeaning(h, source, target, version, f.subject[0], f.subject[1], f.code)
  {
    forall t, name
      ensures HasMember(source, t, name) && f in RemovedFieldFindings(h, target, version, t, name) <==>
              f.subject == [t, name] && f.severity == (if f.code == HIS011 then Warning else Error)
              && RemovalMeaning(h, source, target, version, t, name, f.code)
    {
      OneRemovalMeans(h, source, target, version, t, name, f);
    }
    hide RemovedFieldFindings, RemovalMeaning;
    assert |f.subject| == 2 ==> f.subject == [f.subject[0], f.subject[1]];
  }

  lemma CodesOfFields(
    versions: VersionRanks, h: SchemaHistory, source: Structs, target: Structs, version: string,
    t: string, name: string)
    ensures !RecordMeaning(versions, h, t, name, HIS011) && !SourceMeaning(h, source, t, name, HIS011)
    ensures !TargetMeaning(h, source, target, version, t, name, HIS011)
  {
  }

  lemma HistoryFindingsMean(versions: VersionRanks, source: Release, target: Release, h: SchemaHistory, f: Finding)
    ensures f in HistoryFindings(versions, source, target, h) <==>
            HistoryMeaning(versions, source.structs, target.structs, target.VersionText(), h, f)
  {
    var s, t, v := source.structs, target.structs, target.VersionText();
    RecordFindingsMean(versions, h, f);
    SourceFindingsMean(h, s, f);
    TargetFindingsMean(h, s, t, v, f);
    RemovedFindingsMean(h, s, t, v, f);
    if |f.subject| == 2 { CodesOfFields(versions, h, s, t, v, f.subject[0], f.subject[1]); }
    if h.formatVersion == 1 {
      var complete := When(!h.complete, Fail(HIS012, []));
      assert f in complete <==> f == Finding(HIS012, Error, []) && !h.complete;
      InFive(complete, AllRecordFindings(versions, h.types, h.types.Keys), AllSourceFindings(h, s, s.Keys),
             AllTargetFindings(h, s, t, v, t.Keys), AllRemovedFindings(h, s, t, v, s.Keys), f);
    }
    hide AllRecordFindings, AllSourceFindings, AllTargetFindings, AllRemovedFindings, When, Release.VersionText,
         RecordMeaning, SourceMeaning, TargetMeaning, RemovalMeaning;
  }

  lemma InFive(
    a: set<Finding>, b: set<Finding>, c: set<Finding>, d: set<Finding>, e: set<Finding>, f: Finding)
    ensures f in a + b + c + d + e <==> f in a || f in b || f in c || f in d || f in e
  {
  }

  // ----- Storage -----

  /** Findings about one manifest as a whole. */
  ghost predicate SideMeaning(versions: VersionRanks, a: Artifact, schema: StorageSchema, code: Code) {
    match code
    case STO006 => schema.formatVersion != 1
    case STO007 => "binver" in a.metadata && a.metadata["binver"] != schema.contractVersion
    case STO010 => !schema.complete
    case STO011 => schema.schemaVersion == 0
    case STO012 => schema.contractVersion !in versions
    case _ => false
  }

  /** Two entries have the key. */
  ghost predicate IsTwice(entries: seq<StorageEntry>, key: string) {
    exists i, j :: 0 <= i < j < |entries| && entries[i].key == entries[j].key == key
  }

  ghost predicate ManifestMeaning(
    versions: VersionRanks, side: string, a: Artifact, schema: StorageSchema, f: Finding)
  {
    f.severity == Error &&
    (|| (f.subject == [side] && SideMeaning(versions, a, schema, f.code))
     || (f.code == STO008 && |f.subject| == 2 && f.subject[0] == side && IsTwice(schema.entries, f.subject[1])))
  }

  /** A strategy must have a visible character, at most 128 bytes and no control character. */
  ghost predicate IsBadStrategy(strategy: string) {
    || (forall c :: c in strategy ==> Texts.IsWhitespace(c))
    || |Texts.Utf8(strategy)| > 128
    || (exists c :: c in strategy && Texts.IsControl(c))
  }

  ghost predicate MigrationMeaning(target: Artifact, entry: StorageEntry, f: Finding) {
    f.severity == Error && entry.migration.Some? &&
    var m := entry.migration.value;
    match f.code
    case STO009 =>
      m.entrypoint.Some? && m.entrypoint.value !in target.functions && f.subject == [entry.key, m.entrypoint.value]
    case STO013 => f.subject == [entry.key] && IsBadStrategy(m.strategy)
    case STO014 => f.subject == [entry.key] && m.entrypoint.None?
    case _ => false
  }

  /** The entry is the last declaration of the key. */
  ghost predicate Declares(entries: seq<StorageEntry>, key: string, e: StorageEntry) {
    exists i :: IsLastFor(entries, key, i) && entries[i] == e
  }

  ghost predicate IsLastFor(entries: seq<StorageEntry>, key: string, i: int) {
    0 <= i < |entries| && entries[i].key == key && forall j :: i < j < |entries| ==> entries[j].key != key
  }

  ghost predicate IsDeclared(entries: seq<StorageEntry>, key: string) {
    exists i :: 0 <= i < |entries| && entries[i].key == key
  }

  /** Both schemas declare the key, with another durability or value type, and `after` is the new declaration. */
  ghost predicate ChangesLayout(from: StorageSchema, to: StorageSchema, key: string, after: StorageEntry) {
    && Declares(to.entries, key, after)
    && exists before :: Declares(from.entries, key, before)
                        && (before.durability != after.durability || before.valueType != after.valueType)
  }

  ghost predicate ChangesKey(from: StorageSchema, to: StorageSchema, key: string) {
    exists e :: ChangesLayout(from, to, key, e)
  }

  ghost predicate DropsKey(from: StorageSchema, to: StorageSchema, key: string) {
    IsDeclared(from.entries, key) && !IsDeclared(to.entries, key)
  }

  ghost predicate KeyMeaning(from: StorageSchema, to: StorageSchema, key: string, f: Finding) {
    f.subject == [key] &&
    match f.code
    case STO001 => f.severity == Error && DropsKey(from, to, key)
    case STO002 => f.severity == Warning && exists e :: ChangesLayout(from, to, key, e) && e.migration.Some?
    case STO003 => f.severity == Error && exists e :: ChangesLayout(from, to, key, e) && e.migration.None?
    case _ => false
  }

  ghost predicate EvolutionMeaning(from: StorageSchema, to: StorageSchema, f: Finding) {
    || (|f.subject| == 1 && KeyMeaning(from, to, f.subject[0], f))
    || (f == Finding(STO005, Error, []) && to.schemaVersion <= from.schemaVersion
        && exists key :: DropsKey(from, to, key) || ChangesKey(from, to, key))
  }

  ghost predicate StorageMeaning(versions: VersionRanks, e: Evidence, f: Finding) {
    match (e.sourceSchema, e.targetSchema)
    case (Some(from), Some(to)) =>
      || ManifestMeaning(versions, "source", e.source, from, f) || ManifestMeaning(versions, "target", e.target, to, f)
      || (exists entry :: entry in to.entries && MigrationMeaning(e.target, entry, f))
      || EvolutionMeaning(from, to, f)
    case (None, None) =>
      f == Finding(STO000, if e.policy.requireStorageSchema then Error else Warning, [])
    case _ => f == Finding(STO004, Error, [])
  }

  lemma {:induction false} RepeatsAreTwoPlaces(keys: seq<string>, key: string)
    ensures multiset(keys)[key] > 1 <==> exists i, j :: 0 <= i < j < |keys| && keys[i] == keys[j] == key
  {
    if keys != [] {
      var n := |keys| - 1;
      var init := keys[..n];
      assert keys == init + [keys[n]];
      RepeatsAreTwoPlaces(init, key);
      assert multiset(keys)[key] == multiset(init)[key] + if keys[n] == key then 1 else 0;
      assert multiset(init)[key] > 0 <==> key in init;
      if i, j :| 0 <= i < j < |init| && init[i] == init[j] == key { assert keys[i] == keys[j] == key; }
      if keys[n] == key && key in init {
        var i :| 0 <= i < |init| && init[i] == key;
        assert keys[i] == keys[n] == key;
      }
      if i, j :| 0 <= i < j < |keys| && keys[i] == keys[j] == key {
        assert init[i] == key;
        if j < n { assert init[j] == key; }
      }
    }
  }

  lemma RepeatedMeansTwice(entries: seq<StorageEntry>, key: string)
    ensures IsRepeated(entries, key) <==> IsTwice(entries, key)
    ensures IsTwice(entries, key) ==> key in Keys(entries)
  {
    RepeatsAreTwoPlaces(Keys(entries), key);
    assert forall i :: 0 <= i < |entries| ==> Keys(entries)[i] == entries[i].key;
  }

  lemma RepeatFindingsMean(side: string, entries: seq<StorageEntry>, f: Finding)
    ensures f in RepeatFindings(side, entries, set k | k in Keys(entries)) <==>
            f.code == STO008 && f.severity == Error && |f.subject| == 2 && f.subject[0] == side
            && IsTwice(entries, f.subject[1])
  {
    forall key
      ensures IsRepeated(entries, key) <==> IsTwice(entries, key)
      ensures IsTwice(entries, key) ==> key in Keys(entries)
    {
      RepeatedMeansTwice(entries, key);
    }
    hide IsRepeated, IsTwice, Keys;
    assert |f.subject| == 2 ==> f.subject == [f.subject[0], f.subject[1]];
  }

  /** The findings about one manifest as a whole, as they are added. */
  function SideFindings(
    versions: VersionRanks, a: Artifact, schema: StorageSchema, subject: seq<string>): set<Finding>
  {
    When(schema.formatVersion != 1, Fail(STO006, subject))
    + When(!schema.complete, Fail(STO010, subject))
    + When(schema.schemaVersion == 0, Fail(STO011, subject))
    + When(schema.contractVersion !in versions, Fail(STO012, subject))
    + When(a.Version().Some? && a.Version().value != schema.contractVersion, Fail(STO007, subject))
  }

  lemma SideFindingsMean(
    versions: VersionRanks, a: Artifact, schema: StorageSchema, subject: seq<string>, f: Finding)
    ensures f in SideFindings(versions, a, schema, subject) <==>
            f.subject == subject && f.severity == Error && SideMeaning(versions, a, schema, f.code)
  {
    var untied := a.Version().Some? && a.Version().value != schema.contractVersion;
    SideCodesMean(schema.formatVersion != 1, !schema.complete, schema.schemaVersion == 0,
                  schema.contractVersion !in versions, untied, subject, f);
    hide When;
  }

  lemma SideCodesMean(
    format: bool, incomplete: bool, zero: bool, unparsed: bool, untied: bool, subject: seq<string>, f: Finding)
    ensures f in When(format, Fail(STO006, subject)) + When(incomplete, Fail(STO010, subject))
                 + When(zero, Fail(STO011, subject)) + When(unparsed, Fail(STO012, subject))
                 + When(untied, Fail(STO007, subject)) <==>
            f.subject == subject && f.severity == Error &&
            match f.code
            case STO006 => format
            case STO007 => untied
            case STO010 => incomplete
            case STO011 => zero
            case STO012 => unparsed
            case _ => false
  {
    OneWhen(format, Fail(STO006, subject), f);
    OneWhen(incomplete, Fail(STO010, subject), f);
    OneWhen(zero, Fail(STO011, subject), f);
    OneWhen(unparsed, Fail(STO012, subject), f);
    OneWhen(untied, Fail(STO007, subject), f);
    hide When;
  }

  lemma OneWhen(condition: bool, finding: Finding, f: Finding)
    ensures f in When(condition, finding) <==> condition && f == finding
  {
  }

  lemma ManifestFindingsMean(versions: VersionRanks, side: string, a: Artifact, schema: StorageSchema, f: Finding)
    ensures f in ManifestFindings(versions, side, a, schema) <==> ManifestMeaning(versions, side, a, schema, f)
  {
    hide RepeatFindings, When, IsTwice, SideMeaning;
    RepeatFindingsMean(side, schema.entries, f);
    SideFindingsMean(versions, a, schema, [side], f);
    assert ManifestFindings(versions, side, a, schema)
        == SideFindings(versions, a, schema, [side])
           + RepeatFindings(side, schema.entries, set k | k in Keys(schema.entries));
    hide ManifestFindings, SideFindings, Keys;
  }

  lemma MigrationFindingsMean(target: Artifact, entry: StorageEntry, f: Finding)
    ensures f in MigrationFindings(target, entry) <==> MigrationMeaning(target, entry, f)
  {
    if entry.migration.Some? {
      assert StrategyIsValid(entry.migration.value.strategy) <==> !IsBadStrategy(entry.migration.value.strategy);
    }
    hide StrategyIsValid, IsBadStrategy;
  }

  lemma LastInLonger(entries: seq<StorageEntry>, key: string, i: int)
    requires entries != [] && entries[|entries| - 1].key != key
    ensures IsLastFor(entries, key, i) <==> IsLastFor(entries[..|entries| - 1], key, i)
  {
    var init := entries[..|entries| - 1];
    assert forall j :: 0 <= j < |init| ==> init[j] == entries[j];
  }

  lemma {:induction false} ByKeyDeclares(entries: seq<StorageEntry>, key: string)
    ensures key in ByKey(entries) <==> IsDeclared(entries, key)
    ensures forall e :: Declares(entries, key, e) <==> key in ByKey(entries) && ByKey(entries)[key] == e
  {
    if entries != [] {
      var n := |entries| - 1;
      var init, last := entries[..n], entries[n];
      ByKeyDeclares(init, key);
      assert forall i :: 0 <= i < n ==> init[i] == entries[i];
      assert IsDeclared(entries, key) <==> last.key == key || IsDeclared(init, key);
      hide IsDeclared;
      if last.key == key {
        assert IsLastFor(entries, key, n);
        assert forall i :: IsLastFor(entries, key, i) ==> i == n;
      } else {
        forall i ensures IsLastFor(entries, key, i) <==> IsLastFor(init, key, i) { LastInLonger(entries, key, i); }
        assert forall i :: IsLastFor(init, key, i) ==> 0 <= i < n;
        hide IsLastFor;
        assert forall e :: Declares(entries, key, e) <==> Declares(init, key, e);
      }
    }
  }

  lemma OneKeyMeans(from: StorageSchema, to: StorageSchema, key: string, f: Finding)
    ensures key in ByKey(from.entries) && f in KeyFindings(ByKey(from.entries), ByKey(to.entries), key) <==>
            KeyMeaning(from, to, key, f)
    ensures KeyDropped(ByKey(from.entries), ByKey(to.entries), key) <==> DropsKey(from, to, key)
    ensures KeyChanged(ByKey(from.entries), ByKey(to.entries), key) <==> ChangesKey(from, to, key)
  {
    ByKeyDeclares(from.entries, key);
    ByKeyDeclares(to.entries, key);
    var before, after := ByKey(from.entries), ByKey(to.entries);
    hide ByKey, Declares, IsDeclared;
    if KeyChanged(before, after, key) {
      assert Declares(from.entries, key, before[key]);
      assert ChangesLayout(from, to, key, after[key]);
    }
    assert forall e :: ChangesLayout(from, to, key, e) ==> KeyChanged(before, after, key) && e == after[key];
  }

  lemma EvolutionFindingsMean(from: StorageSchema, to: StorageSchema, f: Finding)
    ensures f in StorageFindings(from, to) <==> EvolutionMeaning(from, to, f)
  {
    var before, after := ByKey(from.entries), ByKey(to.entries);
    forall key
      ensures key in before && f in KeyFindings(before, after, key) <==> KeyMeaning(from, to, key, f)
      ensures KeyDropped(before, after, key) <==> DropsKey(from, to, key)
      ensures KeyChanged(before, after, key) <==> ChangesKey(from, to, key)
    {
      OneKeyMeans(from, to, key, f);
    }
    assert LayoutChanged(before, after, before.Keys) <==> exists key ::
      DropsKey(from, to, key) || ChangesKey(from, to, key)
    by {
      assert forall key :: KeyDropped(before, after, key) || KeyChanged(before, after, key) ==> key in before;
    }
    assert forall key :: KeyMeaning(from, to, key, f) ==> f.subject == [key];
    hide ByKey, KeyFindings, KeyMeaning, DropsKey, ChangesKey, KeyDropped, KeyChanged, LayoutChanged;
    assert |f.subject| == 1 ==> f.subject == [f.subject[0]];
  }

  lemma StorageFindingsMean(versions: VersionRanks, e: Evidence, f: Finding)
    ensures f in StoragePart(versions, e) <==> StorageMeaning(versions, e, f)
  {
    if e.sourceSchema.Some? && e.targetSchema.Some? {
      var from, to := e.sourceSchema.value, e.targetSchema.value;
      ManifestFindingsMean(versions, "source", e.source, from, f);
      ManifestFindingsMean(versions, "target", e.target, to, f);
      forall entry ensures f in MigrationFindings(e.target, entry) <==> MigrationMeaning(e.target, entry, f) {
        MigrationFindingsMean(e.target, entry, f);
      }
      EvolutionFindingsMean(from, to, f);
    }
    hide ManifestFindings, ManifestMeaning, MigrationFindings, MigrationMeaning, StorageFindings, EvolutionMeaning;
  }

  // ----- The whole report -----

  function VersionName(a: Artifact): string {
    if "binver" in a.metadata then a.metadata["binver"] else "unknown"
  }

  /** Some retained boundary and changed type open a graph that is too large to search. */
  ghost predicate IsTooLargeToTrace(source: Artifact, target: Artifact) {
    exists b, t :: IsRetained(source, target, b) && IsChanged(source, target, t)
                   && (SearchLimits.IsTooLarge(source, b.rootType, t) || SearchLimits.IsTooLarge(target, b.rootType, t))
  }

  ghost predicate HistoryPartMeaning(versions: VersionRanks, e: Evidence, f: Finding) {
    match e.schemaHistory
    case None => f == Finding(HIS000, if e.policy.requireSchemaHistory then Error else Warning, [])
    case Some(h) =>
      HistoryMeaning(versions, ArtifactStructs(e.source), ArtifactStructs(e.target), VersionName(e.target), h, f)
  }

  /** What it takes for a finding to be in a report. */
  ghost predicate IsFinding(versions: VersionRanks, e: Evidence, f: Finding) {
    || PolicyMeaning(e.policy, f) || ContextMeaning(e.context, f) || EnvironmentMeaning(e.target, e.context, f)
    || UpgradeMeaning(e.source, e.target, e.policy, f) || VersionMeaning(versions, e.source, e.target, e.policy, f)
    || InterfaceMeaning(e.source, e.target, e.policy, e.context, f)
    || HistoryPartMeaning(versions, e, f) || StorageMeaning(versions, e, f)
    || (f == Finding(RES001, Error, []) && IsTooLargeToTrace(e.source, e.target))
  }

  lemma HistoryPartMeans(versions: VersionRanks, e: Evidence, f: Finding)
    ensures f in HistoryPart(versions, e) <==> HistoryPartMeaning(versions, e, f)
  {
    assert ReleaseOf(e.target).VersionText() == VersionName(e.target);
    if e.schemaHistory.Some? {
      HistoryFindingsMean(versions, ReleaseOf(e.source), ReleaseOf(e.target), e.schemaHistory.value, f);
    }
    hide HistoryFindings, HistoryMeaning, ArtifactStructs, VersionName;
  }

  /** The findings of a report are exactly those that their meaning calls for: code, severity and subject. */
  lemma FindingsAreExact(lib: Library, e: Evidence, f: Finding)
    ensures f in ReportFor(lib, e).findings <==> IsFinding(lib.versions, e, f)
  {
    var versions := lib.versions;
    PolicyFindingsMean(e.policy, f);
    ContextFindingsMean(e.context, f);
    EnvironmentFindingsMean(e.target, e.context, f);
    UpgradeFindingsMean(e.source, e.target, e.policy, f);
    VersionFindingsMean(versions, e.source, e.target, e.policy, f);
    InterfaceFindingsMean(e.source, e.target, e.policy, e.context, f);
    HistoryPartMeans(versions, e, f);
    StorageFindingsMean(versions, e, f);
    SearchLimits.TraceIsLimitedIffTooLarge(e.source, e.target);
    hide PolicyFindings, ProtocolContextFindings, EnvironmentFindings, SparseMapFindings, UpgradeFindings,
         VersionFindings, InterfaceFindings, HistoryPart, StoragePart, ImpactLimitExceeded, PolicyMeaning,
         ContextMeaning, EnvironmentMeaning, UpgradeMeaning, VersionMeaning, InterfaceMeaning, HistoryPartMeaning,
         StorageMeaning, IsRetained, IsChanged;
  }

  /** The migration warning is about a key that changed its layout, and its declaration names a migration. */
  lemma LayoutWarningsMean(lib: Library, e: Evidence, f: Finding)
    requires f in ReportFor(lib, e).findings && f.code == STO002
    ensures e.sourceSchema.Some? && e.targetSchema.Some? && |f.subject| == 1
    ensures exists after :: ChangesLayout(e.sourceSchema.value, e.targetSchema.value, f.subject[0], after)
                            && after.migration.Some?
    ensures ChangesKey(e.sourceSchema.value, e.targetSchema.value, f.subject[0])
  {
    FindingsAreExact(lib, e, f);
    hide ReportFor, IsTooLargeToTrace, ChangesLayout, DropsKey;
  }

  /** What a report says besides its findings: it repeats what was checked, its verdict is that no finding is an
      error, its impacts are the impacts, and its coverage grades exactly the evidence that was there. */
  lemma ReportIsFaithful(lib: Library, e: Evidence)
    ensures var r := ReportFor(lib, e);
            && r.formatVersion == 1 && r.toolVersion == lib.toolVersion
            && r.policy == e.policy && r.context == e.context && r.source == e.source && r.target == e.target
            && r.sourceSchema == e.sourceSchema && r.targetSchema == e.targetSchema
            && r.schemaHistory == e.schemaHistory
            && (r.safe <==> forall f :: f in r.findings ==> f.severity != Error)
            && r.storageSchemaChecked == (e.sourceSchema.Some? && e.targetSchema.Some?)
            && r.schemaHistoryChecked == e.schemaHistory.Some?
            && r.policySha256 == lib.policySha256(e.policy)
            && (e.sourceSchema.Some? ==> r.sourceSchemaSha256 == Some(lib.schemaSha256(e.sourceSchema.value)))
            && (e.targetSchema.Some? ==> r.targetSchemaSha256 == Some(lib.schemaSha256(e.targetSchema.value)))
            && (e.schemaHistory.Some? ==> r.schemaHistorySha256 == Some(e.schemaHistory.value.sourceSha256))
            && (e.sourceSchema.None? ==> r.sourceSchemaSha256 == None)
            && (e.targetSchema.None? ==> r.targetSchemaSha256 == None)
            && (e.schemaHistory.None? ==> r.schemaHistorySha256 == None)
    ensures forall i :: i in ReportFor(lib, e).publicImpacts ==> IsImpact(e.source, e.target, i)
    ensures !IsTooLargeToTrace(e.source, e.target) ==>
              forall i :: IsImpact(e.source, e.target, i) ==> i in ReportFor(lib, e).publicImpacts
  {
    var r := ReportFor(lib, e);
    assert r.safe <==> forall f :: f in r.findings ==> f.severity != Error by {
      hide GateFindings;
      assert forall f :: f in Errors(r.findings) <==> f in r.findings && f.severity == Error;
    }
    SearchLimits.TraceIsLimitedIffTooLarge(e.source, e.target);
    hide GateFindings, IsSafe, ImpactLimitExceeded, IsImpact, IsRetained, IsChanged, Impacts;
    forall i
      ensures i in r.publicImpacts ==> IsImpact(e.source, e.target, i)
      ensures !IsTooLargeToTrace(e.source, e.target) && IsImpact(e.source, e.target, i) ==> i in r.publicImpacts
    {
      TraceIsExact(e.source, e.target, i);
    }
  }

  /** How the coverage grades the evidence. */
  lemma CoverageIsExact(lib: Library, e: Evidence)
    ensures var c := e.context;
            var live := c.protocolSource == StellarCliNetworkInfo && c.targetProtocolVersion.Some?
                        && c.networkName.Some? && c.networkId.Some? && c.observedAtUnixSeconds.Some?;
            var coverage := ReportFor(lib, e).evidence;
            && (coverage.targetNetworkProtocol == Fact <==> live)
            && (coverage.targetNetworkProtocol == Inference <==> c.protocolSource == OfflineAssertion)
            && coverage.declaredStorageSchema
               == (if e.sourceSchema.Some? && e.targetSchema.Some? then Fact else Unknown)
            && coverage.declaredSchemaHistory == (if e.schemaHistory.Some? then Fact else Unknown)
  {
    hide GateFindings, IsSafe, Impacts;
  }
}
