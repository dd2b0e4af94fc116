/** Schema versions along a chain of upgrades. */
module StorageChains {
  import opened Wrappers
  import JsonValues
  import opened Artifacts
  import PublicImpacts
  import Texts
  import opened SchemaHistories
  import ReleaseChains
  import MaintainedHistories
  import InterfaceChecks
  import opened SpecEntries
  import opened ContractSpecs
  import opened StorageChecks
  import opened Gate
  import opened GateProperties
  import HistoryWitnesses

  // ----- Chains of storage schemas -----

  ghost predicate EvolvesAt(schemas: seq<StorageSchema>, k: int) {
    0 < k < |schemas| ==> StorageEvolves(schemas[k - 1], schemas[k])
  }

  ghost predicate NotLoweredAt(schemas: seq<StorageSchema>, k: int) {
    0 < k < |schemas| ==> schemas[k - 1].schemaVersion <= schemas[k].schemaVersion
  }

  ghost predicate NeverLowered(schemas: seq<StorageSchema>) {
    forall k :: NotLoweredAt(schemas, k)
  }

  ghost predicate Evolve(schemas: seq<StorageSchema>) {
    forall k :: EvolvesAt(schemas, k)
  }

  ghost predicate LayoutsDiffer(from: StorageSchema, to: StorageSchema) {
    exists key :: KeyChanged(ByKey(from.entries), ByKey(to.entries), key)
  }

  lemma {:induction false} VersionsRise(schemas: seq<StorageSchema>, i: nat, j: nat)
    requires NeverLowered(schemas) && i <= j < |schemas|
    ensures schemas[i].schemaVersion <= schemas[j].schemaVersion
  {
    if i < j {
      assert NotLoweredAt(schemas, j);
      VersionsRise(schemas, i, j - 1);
    }
  }

  lemma {:induction false} KeysSurvive(schemas: seq<StorageSchema>, i: nat, j: nat)
    requires Evolve(schemas) && i <= j < |schemas|
    ensures ByKey(schemas[i].entries).Keys <= ByKey(schemas[j].entries).Keys
  {
    hide ByKey;
    if i < j {
      assert EvolvesAt(schemas, j);
      KeysSurvive(schemas, i, j - 1);
    }
  }

  /** Versions tell layouts apart: when no upgrade lowers the schema version, a key with another layout in a
      later release, however many upgrades later, comes with a higher version. */
  lemma {:induction false} LaterLayoutsHaveHigherVersions(schemas: seq<StorageSchema>, i: nat, j: nat)
    requires Evolve(schemas) && NeverLowered(schemas) && i < j < |schemas|
    requires LayoutsDiffer(schemas[i], schemas[j])
    ensures schemas[i].schemaVersion < schemas[j].schemaVersion
    decreases j
  {
    hide ByKey;
    assert EvolvesAt(schemas, j) && NotLoweredAt(schemas, j);
    VersionsRise(schemas, i, j - 1);
    if i < j - 1 && LayoutsDiffer(schemas[i], schemas[j - 1]) {
      LaterLayoutsHaveHigherVersions(schemas, i, j - 1);
    } else if i < j - 1 {
      KeysSurvive(schemas, i, j - 1);
      var before, between, after := ByKey(schemas[i].entries), ByKey(schemas[j - 1].entries), ByKey(schemas[j].entries);
      var key :| KeyChanged(before, after, key);
      assert !KeyChanged(before, between, key);
      assert KeyChanged(between, after, key);
    }
  }

  // ----- When an upgrade endangers the releases after it -----

  /** The entries with another one in the place of every entry for its key. */
  function WithEntry(entries: seq<StorageEntry>, e: StorageEntry): seq<StorageEntry> {
    seq(|entries|, i requires 0 <= i < |entries| => if entries[i].key == e.key then e else entries[i])
  }

  lemma {:induction false} WithEntryByKey(entries: seq<StorageEntry>, e: StorageEntry)
    ensures var before := ByKey(entries);
            ByKey(WithEntry(entries, e)) == if e.key in before then before[e.key := e] else before
  {
    if entries != [] {
      var last := |entries| - 1;
      WithEntryByKey(entries[..last], e);
      assert WithEntry(entries, e)[..last] == WithEntry(entries[..last], e);
    }
  }

  /** The manifest passes the checks of one side, and so do its migrations. */
  ghost predicate IsDeclaredBy(versions: VersionRanks, a: Artifact, schema: StorageSchema) {
    ManifestIsSound(versions, a, schema) && MigrationsAreDeclared(a, schema)
  }

  /** The manifest `next` follows `to` without errors, differs in layout from `from` and has no higher version. */
  ghost predicate ReusesVersion(from: StorageSchema, to: StorageSchema, next: StorageSchema) {
    StorageEvolves(to, next) && LayoutsDiffer(from, next) && next.schemaVersion <= from.schemaVersion
  }

  /** After the upgrade from `from` to `to` some further release reuses the schema version of `from`. */
  ghost predicate VersionCanBeReused(versions: VersionRanks, from: StorageSchema, to: StorageSchema) {
    exists a, next :: IsDeclaredBy(versions, a, next) && ReusesVersion(from, to, next)
  }

  lemma LazyIsAStrategy()
    ensures StrategyIsValid("lazy")
  {
    var s := "lazy";
    assert s[0] in s && !Texts.IsWhitespace(s[0]);
    Texts.Utf8OfAscii(s);
  }

  const MIGRATE := InterfaceEntry("function", "migrate", JsonValues.Null)

  function WithMigrate(a: Artifact): Artifact {
    a.(functions := a.functions["migrate" := MIGRATE])
  }

  lemma ChangedEntryIsDeclared(
    versions: VersionRanks, a: Artifact, schema: StorageSchema, e: StorageEntry, version: nat)
    requires IsDeclaredBy(versions, a, schema) && version > 0
    requires e.migration == Some(Migration("lazy", Some("migrate"), None))
    ensures IsDeclaredBy(versions, WithMigrate(a),
                         schema.(entries := WithEntry(schema.entries, e), schemaVersion := version))
  {
    LazyIsAStrategy();
    hide StrategyIsValid;
    var next := schema.(entries := WithEntry(schema.entries, e), schemaVersion := version);
    forall x | x in next.entries && x != e ensures x in schema.entries {
      var i :| 0 <= i < |next.entries| && next.entries[i] == x;
      assert schema.entries[i] == x;
    }
  }

  /** A further upgrade that changes one key and takes the version that was lowered. */
  lemma LoweringEndangers(versions: VersionRanks, a: Artifact, from: StorageSchema, to: StorageSchema, key: string)
    requires IsDeclaredBy(versions, a, to) && StorageEvolves(from, to) && !LayoutsDiffer(from, to)
    requires key in ByKey(from.entries) && to.schemaVersion < from.schemaVersion
    ensures VersionCanBeReused(versions, from, to)
  {
    var kept := ByKey(to.entries)[key];
    var migration := Migration("lazy", Some("migrate"), None);
    var changed := StorageEntry(key, kept.durability, kept.valueType + "'", Some(migration));
    var next := to.(entries := WithEntry(to.entries, changed), schemaVersion := from.schemaVersion);
    ChangedEntryIsDeclared(versions, a, to, changed, from.schemaVersion);
    WithEntryByKey(to.entries, changed);
    hide ByKey, IsDeclaredBy;
    assert !KeyChanged(ByKey(from.entries), ByKey(to.entries), key);
    assert |changed.valueType| == |kept.valueType| + 1;
    assert KeyChanged(ByKey(from.entries), ByKey(next.entries), key);
    assert ReusesVersion(from, to, next);
  }

  /** A further upgrade that only lowers the version again. */
  lemma ChangingEndangers(versions: VersionRanks, a: Artifact, from: StorageSchema, to: StorageSchema)
    requires IsDeclaredBy(versions, a, to) && LayoutsDiffer(from, to) && from.schemaVersion > 0
    ensures VersionCanBeReused(versions, from, to)
  {
    hide ByKey;
    var next := to.(schemaVersion := from.schemaVersion);
    assert IsDeclaredBy(versions, a, next) && ReusesVersion(from, to, next);
  }

  /** The exact condition, on the two manifests of an upgrade that passes: a later release can reuse the schema
      version from before it for another layout exactly when the upgrade changes a layout itself, so that a mere
      lowering can follow, or when it lowers the version of a schema that has keys. */
  lemma VersionCanBeReusedIff(
    versions: VersionRanks, source: Artifact, target: Artifact, from: StorageSchema, to: StorageSchema)
    requires IsDeclaredBy(versions, target, to) && ManifestIsSound(versions, source, from) && StorageEvolves(from, to)
    ensures VersionCanBeReused(versions, from, to) <==>
            LayoutsDiffer(from, to) || (to.schemaVersion < from.schemaVersion && ByKey(from.entries) != map[])
  {
    hide ByKey, IsDeclaredBy;
    if LayoutsDiffer(from, to) {
      ChangingEndangers(versions, target, from, to);
    } else if to.schemaVersion < from.schemaVersion && ByKey(from.entries) != map[] {
      var key :| key in ByKey(from.entries);
      LoweringEndangers(versions, target, from, to, key);
    } else {
      forall next ensures !ReusesVersion(from, to, next) {
        if LayoutsDiffer(from, next) { NextChangesTheLayout(from, to, next); }
      }
    }
  }

  lemma NextChangesTheLayout(from: StorageSchema, to: StorageSchema, next: StorageSchema)
    requires StorageEvolves(from, to) && !LayoutsDiffer(from, to) && LayoutsDiffer(from, next)
    ensures ByKey(from.entries) != map[] && LayoutsDiffer(to, next)
  {
    hide ByKey;
    var key :| KeyChanged(ByKey(from.entries), ByKey(next.entries), key);
    assert !KeyChanged(ByKey(from.entries), ByKey(to.entries), key);
    assert KeyChanged(ByKey(to.entries), ByKey(next.entries), key);
  }

  // ----- Chains of safe reports -----

  ghost predicate HaveSchemas(es: seq<Evidence>) {
    forall k :: 0 <= k < |es| ==> es[k].sourceSchema.Some? && es[k].targetSchema.Some?
  }

  ghost function SchemasOf(es: seq<Evidence>): (schemas: seq<StorageSchema>)
    requires es != [] && HaveSchemas(es)
    ensures |schemas| == |es| + 1
  {
    [es[0].sourceSchema.value] + seq(|es|, k requires 0 <= k < |es| => es[k].targetSchema.value)
  }

  lemma SafeChainEvolves(versions: VersionRanks, es: seq<Evidence>)
    requires es != [] && SafeChain(versions, es) && HaveSchemas(es)
    ensures Evolve(SchemasOf(es))
  {
    hide IsSafe, StorageEvolves;
    var schemas := SchemasOf(es);
    forall k ensures EvolvesAt(schemas, k) {
      if 0 < k < |schemas| {
        assert SafeStep(versions, es, k - 1);
        SafeIffAcceptable(versions, es[k - 1]);
        assert schemas[k - 1] == es[k - 1].sourceSchema.value && schemas[k] == es[k - 1].targetSchema.value;
      }
    }
  }

  /** Along safe reports, under any policies, two releases whose layouts differ never share a schema version
      unless some upgrade between them lowered it. */
  lemma SafeChainTellsLayoutsApart(versions: VersionRanks, es: seq<Evidence>, i: nat, j: nat)
    requires es != [] && SafeChain(versions, es) && HaveSchemas(es) && i < j <= |es|
    requires NeverLowered(SchemasOf(es)) && LayoutsDiffer(SchemasOf(es)[i], SchemasOf(es)[j])
    ensures SchemasOf(es)[i].schemaVersion < SchemasOf(es)[j].schemaVersion
  {
    hide SchemasOf, LayoutsDiffer;
    SafeChainEvolves(versions, es);
    LaterLayoutsHaveHigherVersions(SchemasOf(es), i, j);
  }

  // ----- A lowered version -----

  const CAN_UPGRADE := ExportCallEvidence({UPDATE_CURRENT_CONTRACT_WASM_IMPORT}, false)

  const OPERATOR := Field("", "operator", Basic("address"))

  /** The spec of a contract with nothing but `upgrade` and `migrate`. */
  const MINIMAL_SPEC := [
    FunctionSpec("", UPGRADE, [Field("", "new_wasm_hash", BytesN(32)), OPERATOR], []),
    FunctionSpec("", "migrate", [OPERATOR], [])
  ]

  function Minimal(version: string): Artifact {
    Artifact(1, "", 0, 27, 0, map["binver" := version], {UPDATE_CURRENT_CONTRACT_WASM_IMPORT},
             Table(MINIMAL_SPEC, Functions), map[], map[], [], [], map[UPGRADE := CAN_UPGRADE])
  }

  lemma MinimalSpecIsUnique()
    ensures NamesAreUnique(MINIMAL_SPEC) && forall e :: e in MINIMAL_SPEC ==> MembersAreUnique(e)
  {
    assert UPGRADE[0] != "migrate"[0] && "new_wasm_hash"[0] != "operator"[0];
  }

  lemma MinimalSpecNamesNoTypes()
    ensures AllBoundaries(MINIMAL_SPEC) == {} && AllReferences(MINIMAL_SPEC) == {}
  {
    assert forall e :: e in MINIMAL_SPEC ==> BoundariesOf(e) == {} && ReferencesOf(e) == {};
  }

  lemma MinimalIsDerived(version: string)
    ensures DerivedFrom(Minimal(version), MINIMAL_SPEC)
    ensures Minimal(version).HasFunction(UPGRADE) && Minimal(version).HasFunction("migrate")
  {
    MinimalSpecIsUnique();
    MinimalSpecNamesNoTypes();
    hide Canonical, Table, NamesAreUnique, MembersAreUnique, AllBoundaries, AllReferences, ReferenceBefore,
         BoundaryBefore;
    assert MINIMAL_SPEC[0] in MINIMAL_SPEC && MINIMAL_SPEC[1] in MINIMAL_SPEC;
    TableHolds(MINIMAL_SPEC, Functions);
    TableHolds(MINIMAL_SPEC, Events);
    TableHolds(MINIMAL_SPEC, UserTypes);
    assert Table(MINIMAL_SPEC, Events) == map[] && Table(MINIMAL_SPEC, UserTypes) == map[];
  }

  /** A schema with one key. */
  function OneKey(schemaVersion: nat, contractVersion: string, valueType: string): StorageSchema {
    StorageSchema(1, true, schemaVersion, contractVersion,
                  [StorageEntry("Config", Instance, valueType, Some(Migration("lazy", Some("migrate"), None)))])
  }

  function StepOf(from: string, to: string, before: StorageSchema, after: StorageSchema): Evidence {
    Evidence(Minimal(from), Minimal(to), Some(before), Some(after), DEFAULT_POLICY,
             UNPINNED, Some(MaintainedHistories.NO_HISTORY))
  }

  lemma OneKeyIsSound(versions: VersionRanks, version: string, schemaVersion: nat, valueType: string)
    requires version in versions && schemaVersion > 0
    ensures var schema := OneKey(schemaVersion, version, valueType);
            && ManifestIsSound(versions, Minimal(version), schema) && MigrationsAreDeclared(Minimal(version), schema)
            && ByKey(schema.entries) == map["Config" := schema.entries[0]]
  {
    LazyIsAStrategy();
    MinimalIsDerived(version);
    hide StrategyIsValid, Table, DerivedFrom;
    assert ByKey(OneKey(schemaVersion, version, valueType).entries[..0]) == map[];
  }

  lemma NothingIsRecorded(versions: VersionRanks, from: string, to: string)
    ensures ReleaseChains.Consistent(
              versions, ReleaseOf(Minimal(from)), ReleaseOf(Minimal(to)), MaintainedHistories.NO_HISTORY)
  {
    assert ArtifactStructs(Minimal(from)) == map[] && ArtifactStructs(Minimal(to)) == map[];
  }

  const UNPINNED := ValidationContext(None, Unpinned, None, None, None, None, None, None)

  lemma MinimalReleasesAreFine(from: string, to: string)
    ensures ContextIsUsable(UNPINNED) && RunsOnNetwork(Minimal(to), UNPINNED)
    ensures CanReplaceWasm(Minimal(from)) && CanReplaceWasm(Minimal(to))
    ensures InterfaceChecks.InterfaceKept(Minimal(from), Minimal(to), DEFAULT_POLICY)
  {
    hide Table, DerivedFrom;
    MinimalIsDerived(from);
    MinimalIsDerived(to);
    assert "l.6"[0] != "m.b"[0] && "l.6"[0] != "m.c"[0];
  }

  lemma MinimalTracesNothing(from: string, to: string)
    ensures !PublicImpacts.ImpactLimitExceeded(Minimal(from), Minimal(to))
  {
  }

  lemma OneKeyEvolves(before: StorageSchema, after: StorageSchema, oldType: string, newType: string)
    requires before == OneKey(before.schemaVersion, before.contractVersion, oldType)
    requires after == OneKey(after.schemaVersion, after.contractVersion, newType)
    requires ByKey(before.entries) == map["Config" := before.entries[0]]
    requires ByKey(after.entries) == map["Config" := after.entries[0]]
    ensures oldType == newType || before.schemaVersion < after.schemaVersion ==> StorageEvolves(before, after)
    ensures oldType != newType ==> LayoutsDiffer(before, after)
  {
    hide ByKey;
    assert oldType != newType ==> KeyChanged(ByKey(before.entries), ByKey(after.entries), "Config");
  }

  lemma MinimalStepIsSafe(
    versions: VersionRanks, from: string, to: string, before: nat, after: nat, oldType: string, newType: string)
    requires from in versions && to in versions && versions[from] < versions[to] && before > 0 && after > 0
    requires oldType == newType || before < after
    ensures IsSafe(versions, StepOf(from, to, OneKey(before, from, oldType), OneKey(after, to, newType)))
  {
    var first, second := OneKey(before, from, oldType), OneKey(after, to, newType);
    var e := StepOf(from, to, first, second);
    SafeIffAcceptable(versions, e);
    OneKeyIsSound(versions, from, before, oldType);
    OneKeyIsSound(versions, to, after, newType);
    OneKeyEvolves(first, second, oldType, newType);
    NothingIsRecorded(versions, from, to);
    MinimalReleasesAreFine(from, to);
    MinimalTracesNothing(from, to);
    VersionsOfMinimal(versions, from, to);
    hide IsSafe, ManifestIsSound, MigrationsAreDeclared, ReleaseChains.Consistent, ByKey, StorageEvolves,
         PublicImpacts.ImpactLimitExceeded, Minimal, OneKey, RunsOnNetwork, ContextIsUsable, CanReplaceWasm,
         InterfaceChecks.InterfaceKept, ReleaseOf, ReleaseChains.VersionsIncrease;
  }

  lemma VersionsOfMinimal(versions: VersionRanks, from: string, to: string)
    requires from in versions && to in versions && versions[from] < versions[to]
    ensures ReleaseChains.VersionsIncrease(versions, ReleaseOf(Minimal(from)), ReleaseOf(Minimal(to)))
  {
    hide ArtifactStructs;
  }

  lemma TwoSafeSteps(versions: VersionRanks, a: Evidence, b: Evidence)
    requires IsSafe(versions, a) && IsSafe(versions, b) && LinksTo(a, b)
    requires a.policy == b.policy == DEFAULT_POLICY
    ensures SafeChain(versions, [a, b]) && UnderDefaultPolicy([a, b])
  {
    hide IsSafe, LinksTo, HasDefaultProtections;
    DefaultPolicyHasThem();
    forall k ensures SafeStep(versions, [a, b], k) {}
  }

  /** The condition is needed: under the default policy an upgrade without layout changes may lower the schema
      version, and the next one may reuse it for another layout. */
  lemma LoweredVersionsAreReused(versions: VersionRanks)
    requires HistoryWitnesses.OrdersReleases(versions)
    ensures var first, second := OneKey(2, "1.0.0", "ConfigV1"), OneKey(1, "2.0.0", "ConfigV1");
            var third := OneKey(2, "3.0.0", "ConfigV2");
            var es := [StepOf("1.0.0", "2.0.0", first, second), StepOf("2.0.0", "3.0.0", second, third)];
            && SafeChain(versions, es) && UnderDefaultPolicy(es)
            && (forall e :: e in es ==> DerivedFrom(e.source, MINIMAL_SPEC) && DerivedFrom(e.target, MINIMAL_SPEC))
            && LayoutsDiffer(first, third) && first.schemaVersion == third.schemaVersion
  {
    hide *;
    var first, second := OneKey(2, "1.0.0", "ConfigV1"), OneKey(1, "2.0.0", "ConfigV1");
    var third := OneKey(2, "3.0.0", "ConfigV2");
    var a, b := StepOf("1.0.0", "2.0.0", first, second), StepOf("2.0.0", "3.0.0", second, third);
    ReleasesAreOrdered(versions);
    MinimalStepIsSafe(versions, "1.0.0", "2.0.0", 2, 1, "ConfigV1", "ConfigV1");
    MinimalStepIsSafe(versions, "2.0.0", "3.0.0", 1, 2, "ConfigV1", "ConfigV2");
    LayoutsOfOneKey(versions, "1.0.0", "3.0.0");
    StepsOfOneChain("1.0.0", "2.0.0", "3.0.0", first, second, third);
    StepIsDerived("1.0.0", "2.0.0", first, second);
    StepIsDerived("2.0.0", "3.0.0", second, third);
    TwoSafeSteps(versions, a, b);
  }

  lemma StepIsDerived(from: string, to: string, before: StorageSchema, after: StorageSchema)
    ensures var e := StepOf(from, to, before, after);
            DerivedFrom(e.source, MINIMAL_SPEC) && DerivedFrom(e.target, MINIMAL_SPEC)
  {
    MinimalIsDerived(from);
    MinimalIsDerived(to);
  }

  lemma ReleasesAreOrdered(versions: VersionRanks)
    requires HistoryWitnesses.OrdersReleases(versions)
    ensures "1.0.0" in versions && "2.0.0" in versions && "3.0.0" in versions
    ensures versions["1.0.0"] < versions["2.0.0"] < versions["3.0.0"]
  {
  }

  lemma LayoutsOfOneKey(versions: VersionRanks, from: string, to: string)
    requires from in versions && to in versions
    ensures var first, third := OneKey(2, from, "ConfigV1"), OneKey(2, to, "ConfigV2");
            LayoutsDiffer(first, third) && first.schemaVersion == third.schemaVersion
  {
    OneKeyIsSound(versions, from, 2, "ConfigV1");
    OneKeyIsSound(versions, to, 2, "ConfigV2");
    assert "ConfigV1"[7] != "ConfigV2"[7];
    OneKeyEvolves(OneKey(2, from, "ConfigV1"), OneKey(2, to, "ConfigV2"), "ConfigV1", "ConfigV2");
  }

  lemma StepsOfOneChain(
    v1: string, v2: string, v3: string, first: StorageSchema, second: StorageSchema, third: StorageSchema)
    ensures LinksTo(StepOf(v1, v2, first, second), StepOf(v2, v3, second, third))
    ensures StepOf(v1, v2, first, second).policy == StepOf(v2, v3, second, third).policy == DEFAULT_POLICY
  {
  }
}
