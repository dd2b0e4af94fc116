/** The release gate: every check, and the report they add up to. */
module Gate {
  import opened Wrappers
  import opened Artifacts
  import PublicImpacts
  import opened SchemaHistories
  import InterfaceChecks
  import StorageChecks

  /** What the gate takes from its libraries: version parsing, hashing and its own version. */
  datatype Library = Library(
    toolVersion: string,
    versions: VersionRanks,
    policySha256: Policy -> string,
    schemaSha256: StorageSchema -> string)

  /** Everything a validation looks at. */
  datatype Evidence = Evidence(
    source: Artifact,
    target: Artifact,
    sourceSchema: Option<StorageSchema>,
    targetSchema: Option<StorageSchema>,
    policy: Policy,
    context: ValidationContext,
    schemaHistory: Option<SchemaHistory>)

  // ----- Checks without loops -----

  /** Each protection: whether the policy disables it, and what it is called. */
  function Protections(p: Policy): seq<(bool, string)> {
    [
      (!p.requireUpgradeFunction, "retained upgrade entrypoint"),
      (!p.requireSemverIncrease, "increasing `binver`"),
      (!p.requireStorageSchema, "complete storage schemas"),
      (!p.requireSchemaHistory, "complete schema history"),
      (!p.denyRemovedFunctions, "removed public functions"),
      (!p.denyChangedFunctions, "changed function signatures"),
      (!p.denyRemovedEvents, "removed contract events"),
      (!p.denyChangedEvents, "changed contract events"),
      (!p.denyChangedUserTypes, "changed or removed user-defined types")
    ]
  }

  /** The labels of the rows that are marked. */
  function Marked(rows: seq<(bool, string)>): seq<string> {
    if rows == [] then [] else (if rows[0].0 then [rows[0].1] else []) + Marked(rows[1..])
  }

  function DisabledProtections(p: Policy): seq<string> {
    Marked(Protections(p))
  }

  function PolicyFindings(p: Policy): set<Finding> {
    When(p.formatVersion != 1, Fail(POL001, [p.name]))
    + When(DisabledProtections(p) != [], Warn(POL002, [p.name] + DisabledProtections(p)))
  }

  predicate LiveEvidenceIsComplete(c: ValidationContext) {
    && c.targetProtocolVersion.Some? && c.networkName.Some? && c.networkId.Some?
    && c.networkPassphrase.Some? && c.rpcVersion.Some? && c.observedAtUnixSeconds.Some?
  }

  function ProtocolContextFindings(c: ValidationContext): set<Finding> {
    match c.protocolSource
    case Unpinned =>
      {if c.targetProtocolVersion.None? then Warn(NET001, []) else Fail(NET002, [])}
    case OfflineAssertion =>
      {if c.targetProtocolVersion.Some? then Warn(NET003, []) else Fail(NET004, [])}
    case StellarCliNetworkInfo =>
      {if LiveEvidenceIsComplete(c) then Finding(NET005, Info, []) else Fail(NET006, [])}
  }

  function EnvironmentFindings(target: Artifact, c: ValidationContext): set<Finding> {
    When(target.envPreRelease != 0, Fail(ENV001, []))
    + When(c.targetProtocolVersion.Some? && c.targetProtocolVersion.value < target.envProtocolVersion, Fail(ENV002, []))
  }

  predicate SomeExportReaches(a: Artifact, hostImport: string) {
    exists x :: x in a.exportCallEvidence && a.ExportReaches(x, hostImport)
  }

  predicate SomeExportIsDynamic(a: Artifact) {
    exists x :: x in a.exportCallEvidence && a.exportCallEvidence[x].dynamicDispatchReachable
  }

  function SparseProtocolFindings(target: Artifact, c: ValidationContext): set<Finding> {
    match c.targetProtocolVersion
    case None => {}
    case Some(protocol) =>
      if (target.UsesSparseRead() || target.UsesSparseWrite()) && protocol < CAP_0086_PROTOCOL then {Fail(CAP001, [])}
      else if protocol >= CAP_0086_PROTOCOL && target.UsesSparseRead() then {Finding(CAP002, Info, [])}
      else if protocol >= CAP_0086_PROTOCOL then {Warn(CAP003, [])}
      else {}
  }

  function SparseMapFindings(target: Artifact, c: ValidationContext): set<Finding> {
    var reading, writing := target.UsesSparseRead(), target.UsesSparseWrite();
    SparseProtocolFindings(target, c)
    + When(writing && !reading, Warn(CAP004, []))
    + When(reading && !SomeExportReaches(target, CAP_0086_SPARSE_READ_IMPORT), Fail(CAP007, []))
    + When(writing && !SomeExportReaches(target, CAP_0086_SPARSE_WRITE_IMPORT), Fail(CAP009, []))
    + When((reading || writing) && SomeExportIsDynamic(target), Warn(CAP008, []))
  }

  predicate CanReplaceWasm(a: Artifact) {
    a.HasFunction(UPGRADE) && a.ExportReaches(UPGRADE, UPDATE_CURRENT_CONTRACT_WASM_IMPORT)
  }

  function UpgradeFindings(source: Artifact, target: Artifact, p: Policy): set<Finding> {
    When(p.requireUpgradeFunction && !target.HasFunction(UPGRADE), Fail(UPG001, []))
    + When(p.requireUpgradeFunction && !CanReplaceWasm(source), Fail(UPG003, []))
    + When(p.requireUpgradeFunction && target.HasFunction(UPGRADE) && !CanReplaceWasm(target), Fail(UPG004, []))
    + When(target.HasFunction("__constructor"), Finding(UPG002, if p.forbidConstructor then Error else Warning, []))
  }

  function VersionFindings(versions: VersionRanks, source: Artifact, target: Artifact, p: Policy): set<Finding> {
    if !p.requireSemverIncrease then {}
    else
      match (source.Version(), target.Version())
      case (Some(from), Some(to)) =>
        if from !in versions || to !in versions then {Fail(VER003, [])}
        else if versions[to] > versions[from] then {}
        else {Fail(VER002, [])}
      case _ => {Fail(VER001, [])}
  }

  function Required(required: bool, code: Code): Finding {
    if required then Fail(code, []) else Warn(code, [])
  }

  function HistoryPart(versions: VersionRanks, e: Evidence): set<Finding> {
    match e.schemaHistory
    case Some(h) => HistoryFindings(versions, ReleaseOf(e.source), ReleaseOf(e.target), h)
    case None => {Required(e.policy.requireSchemaHistory, HIS000)}
  }

  function StoragePart(versions: VersionRanks, e: Evidence): set<Finding> {
    match (e.sourceSchema, e.targetSchema)
    case (Some(from), Some(to)) =>
      StorageChecks.ManifestPairFindings(versions, e.source, e.target, from, to)
      + StorageChecks.StorageFindings(from, to)
    case (None, None) => {Required(e.policy.requireStorageSchema, STO000)}
    case _ => {Fail(STO004, [])}
  }

  // ----- The report -----

  function GateFindings(versions: VersionRanks, e: Evidence): set<Finding> {
    PolicyFindings(e.policy)
    + ProtocolContextFindings(e.context)
    + EnvironmentFindings(e.target, e.context)
    + SparseMapFindings(e.target, e.context)
    + UpgradeFindings(e.source, e.target, e.policy)
    + VersionFindings(versions, e.source, e.target, e.policy)
    + InterfaceChecks.InterfaceFindings(e.source, e.target, e.policy, e.context)
    + HistoryPart(versions, e)
    + StoragePart(versions, e)
    + When(PublicImpacts.ImpactLimitExceeded(e.source, e.target), Fail(RES001, []))
  }

  /** The verdict: no finding is an error. */
  predicate IsSafe(versions: VersionRanks, e: Evidence) {
    Errors(GateFindings(versions, e)) == {}
  }

  function Coverage(e: Evidence): EvidenceCoverage {
    EvidenceCoverage(
      match e.context.protocolSource
      case StellarCliNetworkInfo =>
        if e.context.targetProtocolVersion.Some? && e.context.networkName.Some? && e.context.networkId.Some?
           && e.context.observedAtUnixSeconds.Some? then Fact else Unknown
      case OfflineAssertion => Inference
      case Unpinned => Unknown,
      if e.sourceSchema.Some? && e.targetSchema.Some? then Fact else Unknown,
      if e.schemaHistory.Some? then Fact else Unknown)
  }

  function HashOf(lib: Library, schema: Option<StorageSchema>): Option<string> {
    match schema case Some(s) => Some(lib.schemaSha256(s)) case None => None
  }

  function ReportFor(lib: Library, e: Evidence): ValidationReport {
    var findings := GateFindings(lib.versions, e);
    ValidationReport(
      1, lib.toolVersion, IsSafe(lib.versions, e), e.policy, e.context, e.source, e.target,
      findings, PublicImpacts.Impacts(e.source, e.target), Coverage(e),
      e.sourceSchema.Some? && e.targetSchema.Some?, e.schemaHistory.Some?,
      lib.policySha256(e.policy), HashOf(lib, e.sourceSchema), HashOf(lib, e.targetSchema),
      match e.schemaHistory case Some(h) => Some(h.sourceSha256) case None => None,
      e.sourceSchema, e.targetSchema, e.schemaHistory)
  }

  /** The evidence that a report carries. */
  function EvidenceIn(r: ValidationReport): Evidence {
    Evidence(r.source, r.target, r.sourceSchema, r.targetSchema, r.policy, r.context, r.schemaHistory)
  }

  method CheckHistory(versions: VersionRanks, e: Evidence, findings: set<Finding>) returns (out: set<Finding>)
    ensures out == findings + HistoryPart(versions, e)
  {
    if e.schemaHistory.Some? {
      out := ValidateSchemaHistory(versions, e.source, e.target, e.schemaHistory.value, findings);
    } else {
      out := findings + {Required(e.policy.requireSchemaHistory, HIS000)};
    }
  }

  method CheckStorage(versions: VersionRanks, e: Evidence, findings: set<Finding>) returns (out: set<Finding>)
    ensures out == findings + StoragePart(versions, e)
  {
    match (e.sourceSchema, e.targetSchema)
    case (Some(from), Some(to)) =>
      out := StorageChecks.ValidateSchemaManifests(versions, e.source, e.target, from, to, findings);
      out := StorageChecks.CompareStorageSchemas(from, to, out);
    case (None, None) =>
      out := findings + {Required(e.policy.requireStorageSchema, STO000)};
    case _ =>
      out := findings + {Fail(STO004, [])};
  }

  method ValidateWithHistory(lib: Library, e: Evidence) returns (report: ValidationReport)
    ensures report == ReportFor(lib, e)
  {
    hide PolicyFindings, ProtocolContextFindings, EnvironmentFindings, SparseMapFindings, UpgradeFindings,
         VersionFindings, InterfaceChecks.InterfaceFindings, HistoryPart, StoragePart, Coverage,
         PublicImpacts.Impacts, PublicImpacts.ImpactLimitExceeded;
    var findings := PolicyFindings(e.policy);
    findings := findings + ProtocolContextFindings(e.context);
    findings := findings + EnvironmentFindings(e.target, e.context);
    findings := findings + SparseMapFindings(e.target, e.context);
    findings := findings + UpgradeFindings(e.source, e.target, e.policy);
    findings := findings + VersionFindings(lib.versions, e.source, e.target, e.policy);
    findings := InterfaceChecks.CompareInterfaces(e.source, e.target, e.policy, e.context, findings);
    findings := CheckHistory(lib.versions, e, findings);
    findings := CheckStorage(lib.versions, e, findings);
    var publicImpacts, impactLimitExceeded := PublicImpacts.TracePublicImpacts(e.source, e.target);
    findings := findings + When(impactLimitExceeded, Fail(RES001, []));
    report := ValidationReport(
      1, lib.toolVersion, Errors(findings) == {}, e.policy, e.context, e.source, e.target,
      findings, publicImpacts, Coverage(e),
      e.sourceSchema.Some? && e.targetSchema.Some?, e.schemaHistory.Some?,
      lib.policySha256(e.policy), HashOf(lib, e.sourceSchema), HashOf(lib, e.targetSchema),
      match e.schemaHistory case Some(h) => Some(h.sourceSha256) case None => None,
      e.sourceSchema, e.targetSchema, e.schemaHistory);
  }
}
