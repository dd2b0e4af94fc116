/** What a report says about artifacts that are derived from their Contract Specs. */
module SpecProperties {
  import opened Wrappers
  import JsonValues
  import opened Artifacts
  import Texts
  import opened TypeGraph
  import opened PublicImpacts
  import opened SpecEntries
  import opened ContractSpecs
  import opened SchemaHistories
  import opened InterfaceChecks
  import opened StorageChecks
  import opened Gate
  import opened Plans
  import PlanProperties
  import SearchLimits

  // ----- Impact tracing -----

  lemma LimitIsReported(versions: VersionRanks, e: Evidence)
    requires ImpactLimitExceeded(e.source, e.target)
    ensures Fail(RES001, []) in GateFindings(versions, e)
  {
    hide ImpactLimitExceeded, PolicyFindings, ProtocolContextFindings, EnvironmentFindings, SparseMapFindings,
         UpgradeFindings, VersionFindings, InterfaceFindings, HistoryPart, StoragePart;
  }

  /** The function of the boundary is in both specs, unchanged, and has the boundary. */
  ghost predicate KeepsBoundary(before: seq<SpecEntry>, after: seq<SpecEntry>, b: PublicTypeBoundary) {
    exists g, h :: g in before && h in after && WithoutDocs(g) == WithoutDocs(h) && IsBoundaryIn(g, b)
  }

  ghost predicate IsTypeIn(spec: seq<SpecEntry>, e: SpecEntry, name: string) {
    e in spec && !e.FunctionSpec? && !e.EventSpec? && e.name == name
  }

  ghost predicate HasType(spec: seq<SpecEntry>, name: string) {
    exists e :: IsTypeIn(spec, e, name)
  }

  /** Both specs have the type, in forms that differ in more than comments. */
  ghost predicate ChangesType(before: seq<SpecEntry>, after: seq<SpecEntry>, name: string) {
    exists e, f :: IsTypeIn(before, e, name) && IsTypeIn(after, f, name) && WithoutDocs(e) != WithoutDocs(f)
  }

  /** From one mention to the next, through types that both specs have. */
  ghost predicate IsMentionWalk(before: seq<SpecEntry>, after: seq<SpecEntry>, root: string, path: Route) {
    && HasType(before, root) && HasType(after, root)
    && (forall i :: 0 <= i < |path| ==>
          Refers(before, path[i]) && HasType(before, path[i].target) && HasType(after, path[i].target))
    && (path != [] ==> path[0].owner == root)
    && (forall i, j :: 0 <= i && i + 1 == j < |path| ==> path[j].owner == path[i].target)
  }

  lemma TypesAreRead(a: Artifact, spec: seq<SpecEntry>, e: SpecEntry, name: string)
    requires DerivedFrom(a, spec) && IsTypeIn(spec, e, name)
    ensures name in a.userTypes && a.userTypes[name].canonical == Canonical(e)
  {
    hide Canonical, Table, NamesAreUnique, AllBoundaries, AllReferences, BoundaryBefore, ReferenceBefore;
    TableHolds(spec, UserTypes);
  }

  lemma FunctionsAreRead(a: Artifact, spec: seq<SpecEntry>, e: SpecEntry)
    requires DerivedFrom(a, spec) && e in spec && e.FunctionSpec?
    ensures e.name in a.functions && a.functions[e.name].canonical == Canonical(e)
  {
    hide Canonical, Table, NamesAreUnique, AllBoundaries, AllReferences, BoundaryBefore, ReferenceBefore;
    TableHolds(spec, Functions);
  }

  lemma ListsAreRead(a: Artifact, spec: seq<SpecEntry>)
    requires DerivedFrom(a, spec)
    ensures forall r :: r in a.typeReferences <==> Refers(spec, r)
    ensures forall b :: b in a.publicTypeBoundaries <==> IsBoundaryOf(spec, b)
  {
    hide Refers, IsBoundaryOf, Table, NamesAreUnique, MembersAreUnique, AllBoundaries, AllReferences, BoundaryBefore,
         ReferenceBefore;
    forall r ensures r in a.typeReferences <==> Refers(spec, r) { ReferencesAreMentions(spec, r); }
    forall b ensures b in a.publicTypeBoundaries <==> IsBoundaryOf(spec, b) { BoundariesAreMentions(spec, b); }
  }

  lemma KeptBoundaryIsRetained(
    source: Artifact, target: Artifact, before: seq<SpecEntry>, after: seq<SpecEntry>, b: PublicTypeBoundary)
    requires DerivedFrom(source, before) && DerivedFrom(target, after) && KeepsBoundary(before, after, b)
    ensures IsRetained(source, target, b)
  {
    hide Canonical, WithoutDocs, DerivedFrom, IsBoundaryIn;
    var g, h :| g in before && h in after && WithoutDocs(g) == WithoutDocs(h) && IsBoundaryIn(g, b);
    SameFunctionSameBoundary(g, h, b);
    ListsAreRead(source, before);
    ListsAreRead(target, after);
    FunctionsAreRead(source, before, g);
    FunctionsAreRead(target, after, h);
    CanonicalFormsAgreeIffSameWithoutDocs(g, h);
    assert IsBoundaryOf(before, b) && IsBoundaryOf(after, b);
  }

  lemma SameFunctionSameBoundary(g: SpecEntry, h: SpecEntry, b: PublicTypeBoundary)
    requires WithoutDocs(g) == WithoutDocs(h) && IsBoundaryIn(g, b)
    ensures IsBoundaryIn(h, b) && g.FunctionSpec? && h.FunctionSpec? && g.name == h.name == b.functionName
  {
    hide Mentions;
    var p := WithoutDocs(g);
    if b.position.Input? {
      assert p.inputs[b.index].name == g.inputs[b.index].name == h.inputs[b.index].name;
      assert p.inputs[b.index].fieldType == g.inputs[b.index].fieldType == h.inputs[b.index].fieldType;
    }
  }

  lemma MentionWalkIsShared(
    source: Artifact, target: Artifact, before: seq<SpecEntry>, after: seq<SpecEntry>, root: string, path: Route)
    requires DerivedFrom(source, before) && DerivedFrom(target, after) && IsMentionWalk(before, after, root, path)
    ensures IsSharedWalk(source, target, root, path)
  {
    hide DerivedFrom, Refers, IsTypeIn, Canonical;
    ListsAreRead(source, before);
    forall name | HasType(before, name) && HasType(after, name)
      ensures name in source.userTypes && name in target.userTypes
    {
      var e :| IsTypeIn(before, e, name);
      var f :| IsTypeIn(after, f, name);
      TypesAreRead(source, before, e, name);
      TypesAreRead(target, after, f, name);
    }
  }

  lemma ChangedInBoth(
    source: Artifact, target: Artifact, before: seq<SpecEntry>, after: seq<SpecEntry>, name: string)
    requires DerivedFrom(source, before) && DerivedFrom(target, after) && ChangesType(before, after, name)
    ensures IsChanged(source, target, name)
  {
    hide DerivedFrom, IsTypeIn, Canonical, WithoutDocs;
    var e, f :| IsTypeIn(before, e, name) && IsTypeIn(after, f, name) && WithoutDocs(e) != WithoutDocs(f);
    TypesAreRead(source, before, e, name);
    TypesAreRead(target, after, f, name);
    CanonicalFormsAgreeIffSameWithoutDocs(e, f);
  }

  /** No report misses a change unless it says that a limit was hit, whatever else it finds: for artifacts derived
      from their specs, when a boundary of an unchanged function leads, from mention to mention through types of
      both specs, to a type that changed in more than comments, the report has an impact of that boundary, for a
      changed type on the way, along steps that are mentions in both specs. */
  lemma ReportMissesNoChange(
    lib: Library, e: Evidence, before: seq<SpecEntry>, after: seq<SpecEntry>, b: PublicTypeBoundary, path: Route)
    requires Fail(RES001, []) !in ReportFor(lib, e).findings
    requires DerivedFrom(e.source, before) && DerivedFrom(e.target, after)
    requires KeepsBoundary(before, after, b) && IsMentionWalk(before, after, b.rootType, path)
    requires ChangesType(before, after, End(b.rootType, path))
    ensures exists i, k :: i in ReportFor(lib, e).publicImpacts && i.boundary == b
                           && 0 <= k <= |path| && i.changedType == End(b.rootType, path[..k])
                           && IsImpact(e.source, e.target, i)
                           && forall r :: r in i.steps ==> Refers(before, r) && Refers(after, r)
  {
    hide GateFindings, IsSafe, DerivedFrom, ImpactLimitExceeded, KeepsBoundary, IsMentionWalk, ChangesType, Refers,
         IsRetained, IsChanged, IsSharedWalk, Impacts;
    if ImpactLimitExceeded(e.source, e.target) { LimitIsReported(lib.versions, e); }
    DerivedReferencesFollowEntries(e.source, e.target, before, after);
    KeptBoundaryIsRetained(e.source, e.target, before, after, b);
    MentionWalkIsShared(e.source, e.target, before, after, b.rootType, path);
    ChangedInBoth(e.source, e.target, before, after, End(b.rootType, path));
    NoMissedChange(e.source, e.target, b, path);
    var i, k :| i in Impacts(e.source, e.target) && i.boundary == b
                && 0 <= k <= |path| && i.changedType == End(b.rootType, path[..k]);
    TraceIsExact(e.source, e.target, i);
    ListsAreRead(e.source, before);
    ListsAreRead(e.target, after);
    StepsAreMentions(e.source, e.target, before, after, i);
  }

  lemma StepsAreMentions(
    source: Artifact, target: Artifact, before: seq<SpecEntry>, after: seq<SpecEntry>, i: PublicImpact)
    requires IsImpact(source, target, i)
    requires forall r :: r in source.typeReferences <==> Refers(before, r)
    requires forall r :: r in target.typeReferences <==> Refers(after, r)
    ensures forall r :: r in i.steps ==> Refers(before, r) && Refers(after, r)
  {
    hide Refers, IsRetained, IsChanged;
    forall r | r in i.steps ensures r in source.typeReferences && r in target.typeReferences {
      var k :| 0 <= k < |i.steps| && i.steps[k] == r;
    }
  }

  // ----- The size of a search -----

  /** For derived artifacts the list of chains that decides about the limits is the set of direct chains, each
      listed once: its length is their number. */
  lemma DirectChainsAreCounted(a: Artifact, spec: seq<SpecEntry>, root: string, target: string)
    requires DerivedFrom(a, spec)
    ensures var chains := SearchLimits.AllChains(a, root, target);
            && (forall c :: c in chains <==>
                  root in a.userTypes && IsChain(Edges(a.typeReferences), root, c) && IsDirect(target, c))
            && SearchLimits.NoRepeats(chains) && |set c | c in chains| == |chains|
  {
    hide IsChain, IsDirect;
    ReferencesAreOrdered();
    assert SearchLimits.NoRepeats(a.typeReferences);
    SearchLimits.AllChainsAreCounted(a, root, target);
    forall c ensures c in SearchLimits.AllChains(a, root, target) <==>
                     root in a.userTypes && IsChain(Edges(a.typeReferences), root, c) && IsDirect(target, c)
    {
      SearchLimits.AllChainsAreTheDirectChains(a, root, target, c);
    }
  }

  // ----- Documentation edits -----

  /** The same release built with other comments: another hash and size, and a spec that differs in comments only. */
  ghost predicate IsDocumentationEdit(a: Artifact, b: Artifact, before: seq<SpecEntry>, after: seq<SpecEntry>) {
    && DerivedFrom(a, before) && DerivedFrom(b, after) && SameButComments(before, after)
    && b.formatVersion == a.formatVersion && b.metadata == a.metadata
    && b.envProtocolVersion == a.envProtocolVersion && b.envPreRelease == a.envPreRelease
    && b.hostImports == a.hostImports && b.exportCallEvidence == a.exportCallEvidence
  }

  function Rebuilt(a: Artifact, sha256: string, sizeBytes: nat): Artifact {
    a.(sha256 := sha256, sizeBytes := sizeBytes)
  }

  lemma DocumentationEditsKeepTheArtifact(a: Artifact, b: Artifact, before: seq<SpecEntry>, after: seq<SpecEntry>)
    requires IsDocumentationEdit(a, b, before, after)
    ensures b == Rebuilt(a, b.sha256, b.sizeBytes)
  {
    hide IsInterfaceOf, NamesAreUnique, MembersAreUnique, SameButComments;
    DocumentationEditsAreInvisible(
      before, after,
      Interface(a.functions, a.events, a.userTypes, a.publicTypeBoundaries, a.typeReferences),
      Interface(b.functions, b.events, b.userTypes, b.publicTypeBoundaries, b.typeReferences));
  }

  lemma RebuildingKeepsTheSearch(a: Artifact, hash: string, size: nat, root: string, target: string)
    ensures SearchRoutes(Rebuilt(a, hash, size), root, target) == SearchRoutes(a, root, target)
  {
    assert Start(Rebuilt(a, hash, size), root) == Start(a, root);
  }

  lemma RebuildingKeepsTheImpacts(
    source: Artifact, target: Artifact, hash: string, size: nat, hash': string, size': nat)
    ensures var source', target' := Rebuilt(source, hash, size), Rebuilt(target, hash', size');
            && Impacts(source', target') == Impacts(source, target)
            && (ImpactLimitExceeded(source', target') <==> ImpactLimitExceeded(source, target))
  {
    var source', target' := Rebuilt(source, hash, size), Rebuilt(target, hash', size');
    assert ChangedTypes(source', target') == ChangedTypes(source, target);
    assert RetainedBoundaries(source', target') == RetainedBoundaries(source, target);
    hide SearchRoutes, ChangedTypes, RetainedBoundaries, Rebuilt;
    forall b, c
      ensures SharedRoutes(source', target', b, c) == SharedRoutes(source, target, b, c)
      ensures SearchLimited(source', target', b, c) <==> SearchLimited(source, target, b, c)
    {
      RebuildingKeepsTheSearch(source, hash, size, b.rootType, c);
      RebuildingKeepsTheSearch(target, hash', size', b.rootType, c);
    }
  }

  lemma RebuildingKeepsWhatIsRead(a: Artifact, hash: string, size: nat)
    ensures var a' := Rebuilt(a, hash, size);
            && ReleaseOf(a') == ReleaseOf(a) && a'.Version() == a.Version() && CanReplaceWasm(a') == CanReplaceWasm(a)
            && a'.envPreRelease == a.envPreRelease && a'.envProtocolVersion == a.envProtocolVersion
            && a'.hostImports == a.hostImports && a'.exportCallEvidence == a.exportCallEvidence
            && a'.functions == a.functions && a'.events == a.events && a'.userTypes == a.userTypes
  {
  }

  lemma RebuildingKeepsTheComparison(
    source: Artifact, target: Artifact, source': Artifact, target': Artifact, p: Policy, c: ValidationContext)
    requires source'.functions == source.functions && target'.functions == target.functions
    requires source'.events == source.events && target'.events == target.events
    requires source'.userTypes == source.userTypes && target'.userTypes == target.userTypes
    requires target'.hostImports == target.hostImports
    ensures InterfaceFindings(source', target', p, c) == InterfaceFindings(source, target, p, c)
  {
    hide OnlyOptionalFieldsAdded;
    forall name
      ensures FunctionFindings(source', target', p, name) == FunctionFindings(source, target, p, name)
      ensures EventFindings(source', target', p, name) == EventFindings(source, target, p, name)
      ensures TypeFindings(source', target', p, c, name) == TypeFindings(source, target, p, c, name)
    {
    }
    hide FunctionFindings, EventFindings, TypeFindings;
  }

  lemma RebuildingKeepsTheChecks(
    source: Artifact, target: Artifact, source': Artifact, target': Artifact, p: Policy, c: ValidationContext)
    requires CanReplaceWasm(source') == CanReplaceWasm(source) && CanReplaceWasm(target') == CanReplaceWasm(target)
    requires target'.envPreRelease == target.envPreRelease && target'.envProtocolVersion == target.envProtocolVersion
    requires target'.hostImports == target.hostImports && target'.exportCallEvidence == target.exportCallEvidence
    requires target'.functions == target.functions
    ensures EnvironmentFindings(target', c) == EnvironmentFindings(target, c)
    ensures SparseMapFindings(target', c) == SparseMapFindings(target, c)
    ensures UpgradeFindings(source', target', p) == UpgradeFindings(source, target, p)
  {
    hide CanReplaceWasm;
    forall name ensures SomeExportReaches(target', name) == SomeExportReaches(target, name) {
      assert forall x :: target'.ExportReaches(x, name) == target.ExportReaches(x, name);
    }
    assert SomeExportIsDynamic(target') == SomeExportIsDynamic(target);
    hide SomeExportReaches, SomeExportIsDynamic;
    assert SparseProtocolFindings(target', c) == SparseProtocolFindings(target, c);
    hide SparseProtocolFindings;
  }

  lemma RebuildingKeepsTheManifests(
    versions: VersionRanks, source: Artifact, target: Artifact, source': Artifact, target': Artifact,
    from: StorageSchema, to: StorageSchema)
    requires source'.Version() == source.Version() && target'.Version() == target.Version()
    requires target'.functions == target.functions
    ensures ManifestPairFindings(versions, source', target', from, to)
         == ManifestPairFindings(versions, source, target, from, to)
  {
    hide RepeatFindings, StrategyIsValid;
    assert ManifestFindings(versions, "source", source', from) == ManifestFindings(versions, "source", source, from);
    assert ManifestFindings(versions, "target", target', to) == ManifestFindings(versions, "target", target, to);
    hide ManifestFindings;
    assert forall e :: MigrationFindings(target', e) == MigrationFindings(target, e);
    hide MigrationFindings;
  }

  lemma RebuildingKeepsTheFindings(
    versions: VersionRanks, e: Evidence, hash: string, size: nat, hash': string, size': nat)
    ensures var source', target' := Rebuilt(e.source, hash, size), Rebuilt(e.target, hash', size');
            GateFindings(versions, e.(source := source', target := target')) == GateFindings(versions, e)
  {
    hide Rebuilt, EnvironmentFindings, SparseMapFindings, UpgradeFindings, InterfaceFindings, CanReplaceWasm,
         PolicyFindings, ProtocolContextFindings, HistoryFindings, ManifestPairFindings, StorageFindings, ReleaseOf,
         ImpactLimitExceeded;
    RebuildingKeepsWhatIsRead(e.source, hash, size);
    RebuildingKeepsWhatIsRead(e.target, hash', size');
    var source', target' := Rebuilt(e.source, hash, size), Rebuilt(e.target, hash', size');
    RebuildingKeepsTheComparison(e.source, e.target, source', target', e.policy, e.context);
    RebuildingKeepsTheChecks(e.source, e.target, source', target', e.policy, e.context);
    RebuildingKeepsTheImpacts(e.source, e.target, hash, size, hash', size');
    assert VersionFindings(versions, source', target', e.policy)
      == VersionFindings(versions, e.source, e.target, e.policy);
    if e.sourceSchema.Some? && e.targetSchema.Some? {
      RebuildingKeepsTheManifests(
        versions, e.source, e.target, source', target', e.sourceSchema.value, e.targetSchema.value);
    }
  }

  /** Documentation erasure: comment edits of the spec, on either side of an upgrade, change nothing in the
      report but the two artifacts that it embeds. Findings, impacts, limits and the verdict stay. */
  lemma DocumentationEditsChangeNothingReported(
    lib: Library, e: Evidence, source': Artifact, target': Artifact,
    source: seq<SpecEntry>, sourceAfter: seq<SpecEntry>, target: seq<SpecEntry>, targetAfter: seq<SpecEntry>)
    requires IsDocumentationEdit(e.source, source', source, sourceAfter)
    requires IsDocumentationEdit(e.target, target', target, targetAfter)
    ensures ReportFor(lib, e.(source := source', target := target'))
         == ReportFor(lib, e).(source := source', target := target')
    ensures ImpactLimitExceeded(source', target') <==> ImpactLimitExceeded(e.source, e.target)
  {
    hide GateFindings, Impacts, ImpactLimitExceeded, IsDocumentationEdit, Rebuilt;
    DocumentationEditsKeepTheArtifact(e.source, source', source, sourceAfter);
    DocumentationEditsKeepTheArtifact(e.target, target', target, targetAfter);
    var hash, size, hash', size' := source'.sha256, source'.sizeBytes, target'.sha256, target'.sizeBytes;
    RebuildingKeepsTheFindings(lib.versions, e, hash, size, hash', size');
    RebuildingKeepsTheImpacts(e.source, e.target, hash, size, hash', size');
  }

  // ----- The standard upgrade signature -----

  predicate IsInput(f: Field, name: string, inputType: SpecType) {
    f.name == name && f.fieldType == inputType
  }

  function NamesOf(fields: seq<Field>): set<string> {
    set f | f in fields :: f.name
  }

  predicate NamesDiffer(fields: seq<Field>) {
    forall i, j :: 0 <= i < j < |fields| ==> fields[i].name != fields[j].name
  }

  lemma OneMoreName(fields: seq<Field>)
    requires fields != []
    ensures NamesOf(fields) == {fields[0].name} + NamesOf(fields[1..])
  {
    assert fields == [fields[0]] + fields[1..];
  }

  lemma OneMoreItem(fields: seq<Field>)
    requires fields != []
    ensures FieldItems(fields) != [] && FieldItems(fields)[1..] == FieldItems(fields[1..])
    ensures FieldItems(fields)[0].Get("name") == Some(JsonValues.Text(fields[0].name))
  {
    FieldIsRead(fields[0]);
  }

  lemma {:induction false} InputNamesAreRead(fields: seq<Field>)
    ensures InputNames(FieldItems(fields)) == Some(NamesOf(fields))
  {
    if fields == [] {
      assert NamesOf(fields) == {};
    } else {
      hide NamesOf, FieldItems;
      InputNamesAreRead(fields[1..]);
      OneMoreName(fields);
      OneMoreItem(fields);
    }
  }

  lemma {:induction false} InputTypesAreRead(fields: seq<Field>)
    ensures InputTypes(FieldItems(fields)) == FieldTable(fields)
  {
    if fields != [] {
      var last := |fields| - 1;
      InputTypesAreRead(fields[..last]);
      FieldIsRead(fields[last]);
      assert FieldItems(fields)[..last] == FieldItems(fields[..last]);
    }
  }

  lemma {:induction false} TableOfUniqueNames(fields: seq<Field>, i: nat)
    requires i < |fields| && NamesDiffer(fields)
    ensures fields[i].name in FieldTable(fields) && FieldTable(fields)[fields[i].name] == TypeJson(fields[i].fieldType)
  {
    if i < |fields| - 1 { TableOfUniqueNames(fields[..|fields| - 1], i); }
  }

  lemma {:induction false} AsManyNamesAsFields(fields: seq<Field>)
    requires NamesDiffer(fields)
    ensures |NamesOf(fields)| == |fields|
  {
    if fields != [] {
      var init, last := fields[..|fields| - 1], fields[|fields| - 1];
      AsManyNamesAsFields(init);
      assert fields == init + [last];
      assert NamesOf(fields) == NamesOf(init) + {last.name};
    }
  }

  lemma StandardTypes(t: SpecType)
    ensures TypeJson(t) == BYTES_32 <==> t == BytesN(32)
    ensures TypeJson(t) == ADDRESS <==> t == Basic("address")
  {
    TypesAreTold(t, BytesN(32));
    TypesAreTold(t, Basic("address"));
  }

  lemma TypesInTable(fields: seq<Field>, i: nat)
    requires i < |fields| && NamesDiffer(fields)
    ensures fields[i].name in FieldTable(fields)
    ensures FieldTable(fields)[fields[i].name] == BYTES_32 <==> fields[i].fieldType == BytesN(32)
    ensures FieldTable(fields)[fields[i].name] == ADDRESS <==> fields[i].fieldType == Basic("address")
  {
    TableOfUniqueNames(fields, i);
    StandardTypes(fields[i].fieldType);
  }

  /** The inputs that the check asks for, as it reads them. */
  ghost predicate ReadsAsStandard(inputs: seq<Field>) {
    NamesOf(inputs) == {"new_wasm_hash", "operator"} && HasStandardTypes(FieldTable(inputs))
  }

  predicate HasStandardInputs(inputs: seq<Field>) {
    && |inputs| == 2
    && exists i, j :: 0 <= i < 2 && 0 <= j < 2
                      && IsInput(inputs[i], "new_wasm_hash", BytesN(32))
                      && IsInput(inputs[j], "operator", Basic("address"))
  }

  lemma StandardReadingIsExact(inputs: seq<Field>)
    requires NamesDiffer(inputs) && ReadsAsStandard(inputs)
    ensures HasStandardInputs(inputs)
  {
    hide FieldTable, NamesDiffer;
    AsManyNamesAsFields(inputs);
    assert "new_wasm_hash"[0] != "operator"[0];
    assert "new_wasm_hash" in NamesOf(inputs) && "operator" in NamesOf(inputs);
    var i :| 0 <= i < |inputs| && inputs[i].name == "new_wasm_hash";
    var j :| 0 <= j < |inputs| && inputs[j].name == "operator";
    TypesInTable(inputs, i);
    TypesInTable(inputs, j);
    assert IsInput(inputs[i], "new_wasm_hash", BytesN(32)) && IsInput(inputs[j], "operator", Basic("address"));
  }

  lemma StandardInputsAreRead(inputs: seq<Field>)
    requires NamesDiffer(inputs) && HasStandardInputs(inputs)
    ensures ReadsAsStandard(inputs)
  {
    hide FieldTable, NamesDiffer;
    assert "new_wasm_hash"[0] != "operator"[0];
    var i, j :| 0 <= i < 2 && 0 <= j < 2
                && IsInput(inputs[i], "new_wasm_hash", BytesN(32)) && IsInput(inputs[j], "operator", Basic("address"));
    TypesInTable(inputs, i);
    TypesInTable(inputs, j);
    assert inputs == [inputs[0], inputs[1]] && i != j;
    assert NamesOf(inputs) == {inputs[i].name, inputs[j].name};
  }

  /** `upgrade(new_wasm_hash: BytesN<32>, operator: Address)`, with the two inputs in either order. */
  predicate IsStandardUpgrade(e: SpecEntry) {
    e.FunctionSpec? && e.name == UPGRADE && HasStandardInputs(e.inputs)
  }

  lemma InputsAreRead(a: Artifact, spec: seq<SpecEntry>, e: SpecEntry)
    requires DerivedFrom(a, spec) && e in spec && e.FunctionSpec?
    ensures FunctionInputs(a, e.name) == Some(FieldItems(e.inputs)) && NamesDiffer(e.inputs)
  {
    hide Canonical, ReferencesOf, BoundariesOf, FieldItems;
    TableHolds(spec, Functions);
    ItemsAreRead(e, "inputs", e.inputs);
    assert MembersAreUnique(e);
    forall i, j | 0 <= i < j < |e.inputs| ensures e.inputs[i].name != e.inputs[j].name {
      assert MemberNames(e)[i] == e.inputs[i].name && MemberNames(e)[j] == e.inputs[j].name;
    }
  }

  lemma OneFunctionOfAName(a: Artifact, spec: seq<SpecEntry>, name: string)
    requires DerivedFrom(a, spec) && a.HasFunction(name)
    ensures exists e :: e in spec && e.FunctionSpec? && e.name == name
    ensures forall e, f :: e in spec && e.FunctionSpec? && e.name == name
                           && f in spec && f.FunctionSpec? && f.name == name
              ==> e == f
  {
    hide Canonical, ReferencesOf, BoundariesOf;
    TableHolds(spec, Functions);
    assert forall e :: e in spec && NamespaceOf(e) == Functions ==> e.FunctionSpec?;
  }

  /** For an artifact derived from its spec, a call is refused unless the spec has the function and the call gives
      each of its inputs one argument and nothing else, without private keys. */
  lemma CallFitsIffSignature(
    seeds: Texts.Seeds, a: Artifact, spec: seq<SpecEntry>, entrypoint: string, arguments: map<string, string>)
    requires DerivedFrom(a, spec)
    ensures CallProblem(seeds, a, entrypoint, arguments) == None <==>
            && (exists e :: e in spec && e.FunctionSpec? && e.name == entrypoint && NamesOf(e.inputs) == arguments.Keys)
            && forall name :: name in arguments ==> !Texts.HoldsSeed(seeds, arguments[name])
  {
    hide CallProblem, InputNames, FieldItems, DerivedFrom, NamesOf, Texts.HoldsSeed;
    PlanProperties.FittingCall(seeds, a, entrypoint, arguments);
    forall e | e in spec && e.FunctionSpec? && e.name == entrypoint
      ensures PlanProperties.CallFits(seeds, a, entrypoint, arguments) <==>
              && NamesOf(e.inputs) == arguments.Keys
              && forall name :: name in arguments ==> !Texts.HoldsSeed(seeds, arguments[name])
    {
      InputsAreRead(a, spec, e);
      InputNamesAreRead(e.inputs);
    }
    if a.HasFunction(entrypoint) { OneFunctionOfAName(a, spec, entrypoint); }
  }

  /** For an artifact derived from its spec, both upgrade checks of plan creation pass exactly when the spec
      exports the standard upgrade function, nothing more and nothing less, and it reaches the WASM update. */
  lemma StandardUpgradeIffSignature(seeds: Texts.Seeds, a: Artifact, spec: seq<SpecEntry>)
    requires DerivedFrom(a, spec)
    ensures UpgradeProblem(seeds, a) == None <==>
            && (exists e :: e in spec && IsStandardUpgrade(e))
            && a.ExportReaches(UPGRADE, UPDATE_CURRENT_CONTRACT_WASM_IMPORT)
  {
    hide UpgradeProblem, HasStandardTypes, InputNames, InputTypes, FieldItems, FieldTable, HasStandardInputs,
         DerivedFrom, NamesOf;
    PlanProperties.StandardUpgrade(seeds, a);
    forall e | e in spec && e.FunctionSpec? && e.name == UPGRADE
      ensures PlanProperties.HasStandardUpgrade(a) <==>
              HasStandardInputs(e.inputs) && a.ExportReaches(UPGRADE, UPDATE_CURRENT_CONTRACT_WASM_IMPORT)
    {
      InputsAreRead(a, spec, e);
      InputNamesAreRead(e.inputs);
      InputTypesAreRead(e.inputs);
      if ReadsAsStandard(e.inputs) { StandardReadingIsExact(e.inputs); }
      if HasStandardInputs(e.inputs) { StandardInputsAreRead(e.inputs); }
    }
    if PlanProperties.HasStandardUpgrade(a) { OneFunctionOfAName(a, spec, UPGRADE); }
  }
}
