/** The entities that the validator reads and writes. */
module Artifacts {
  import opened Wrappers
  import JsonValues

  // ----- Compiled artifacts -----

  datatype InterfaceEntry = InterfaceEntry(kind: string, name: string, canonical: JsonValues.Json)

  datatype BoundaryPosition = Input | Output

  datatype PublicTypeBoundary = PublicTypeBoundary(
    functionName: string, position: BoundaryPosition, index: nat, argument: Option<string>, rootType: string)

  /** A member of one user type that mentions another. An impact step repeats the same three names. */
  datatype TypeReference = TypeReference(owner: string, member: string, target: string)

  datatype ExportCallEvidence = ExportCallEvidence(hostImports: set<string>, dynamicDispatchReachable: bool)

  datatype Artifact = Artifact(
    formatVersion: nat,
    sha256: string,
    sizeBytes: nat,
    envProtocolVersion: nat,
    envPreRelease: nat,
    metadata: map<string, string>,
    hostImports: set<string>,
    functions: map<string, InterfaceEntry>,
    events: map<string, InterfaceEntry>,
    userTypes: map<string, InterfaceEntry>,
    publicTypeBoundaries: seq<PublicTypeBoundary>,
    typeReferences: seq<TypeReference>,
    exportCallEvidence: map<string, ExportCallEvidence>)
  {
    function Version(): Option<string> {
      if "binver" in metadata then Some(metadata["binver"]) else None
    }

    predicate HasFunction(name: string) {
      name in functions
    }

    predicate UsesSparseRead() {
      CAP_0086_SPARSE_READ_IMPORT in hostImports
    }

    predicate UsesSparseWrite() {
      CAP_0086_SPARSE_WRITE_IMPORT in hostImports
    }

    predicate ExportReaches(entry: string, hostImport: string) {
      entry in exportCallEvidence && hostImport in exportCallEvidence[entry].hostImports
    }
  }

  const CAP_0086_PROTOCOL := 28
  const CAP_0086_SPARSE_WRITE_IMPORT := "m.b"
  const CAP_0086_SPARSE_READ_IMPORT := "m.c"
  const UPDATE_CURRENT_CONTRACT_WASM_IMPORT := "l.6"
  const UPGRADE := "upgrade"

  // ----- Policy, context and declarations -----

  datatype Policy = Policy(
    formatVersion: nat,
    name: string,
    requireUpgradeFunction: bool,
    forbidConstructor: bool,
    requireSemverIncrease: bool,
    requireStorageSchema: bool,
    requireSchemaHistory: bool,
    denyRemovedFunctions: bool,
    denyChangedFunctions: bool,
    denyRemovedEvents: bool,
    denyChangedEvents: bool,
    denyChangedUserTypes: bool)

  const DEFAULT_POLICY := Policy(1, "soroban-upgrades-default",
                                 true, false, true, true, true, true, true, true, true, true)

  datatype ProtocolSource = Unpinned | OfflineAssertion | StellarCliNetworkInfo

  datatype ValidationContext = ValidationContext(
    targetProtocolVersion: Option<nat>,
    protocolSource: ProtocolSource,
    networkName: Option<string>,
    networkId: Option<string>,
    networkPassphrase: Option<string>,
    rpcVersion: Option<string>,
    captiveCoreVersion: Option<string>,
    observedAtUnixSeconds: Option<nat>)

  datatype Migration = Migration(strategy: string, entrypoint: Option<string>, notes: Option<string>)

  datatype Durability = Instance | Persistent | Temporary

  datatype StorageEntry = StorageEntry(
    key: string, durability: Durability, valueType: string, migration: Option<Migration>)

  datatype StorageSchema = StorageSchema(
    formatVersion: nat, complete: bool, schemaVersion: nat, contractVersion: string, entries: seq<StorageEntry>)

  datatype HistoricalField = HistoricalField(valueType: JsonValues.Json, firstSeen: string, retiredIn: Option<string>)

  datatype TypeHistory = TypeHistory(fields: map<string, HistoricalField>, reservedFields: set<string>)

  datatype SchemaHistory = SchemaHistory(
    formatVersion: nat, complete: bool, types: map<string, TypeHistory>, sourceSha256: string)

  // ----- Findings and the report -----

  datatype Severity = Info | Warning | Error

  datatype Code =
    | POL001 | POL002
    | NET001 | NET002 | NET003 | NET004 | NET005 | NET006
    | ENV001 | ENV002
    | CAP001 | CAP002 | CAP003 | CAP004 | CAP005 | CAP006 | CAP007 | CAP008 | CAP009
    | UPG001 | UPG002 | UPG003 | UPG004
    | VER001 | VER002 | VER003
    | ABI001 | ABI002 | ABI003 | ABI004
    | EVT001 | EVT002
    | HIS000 | HIS001 | HIS002 | HIS003 | HIS004 | HIS005 | HIS006 | HIS007 | HIS008 | HIS009
    | HIS010 | HIS011 | HIS012 | HIS013 | HIS014 | HIS015 | HIS016
    | STO000 | STO001 | STO002 | STO003 | STO004 | STO005 | STO006 | STO007 | STO008 | STO009
    | STO010 | STO011 | STO012 | STO013 | STO014
    | RES001

  /** A finding: its code, its severity and the names its message speaks about. */
  datatype Finding = Finding(code: Code, severity: Severity, subject: seq<string>)

  function Fail(code: Code, subject: seq<string>): Finding {
    Finding(code, Error, subject)
  }

  function Warn(code: Code, subject: seq<string>): Finding {
    Finding(code, Warning, subject)
  }

  /** A finding that is raised exactly when `condition` holds. */
  function When(condition: bool, finding: Finding): set<Finding> {
    if condition then {finding} else {}
  }

  function Errors(findings: set<Finding>): set<Finding> {
    set f | f in findings && f.severity == Error
  }

  ghost predicate NoErrors(findings: set<Finding>) {
    forall f :: f in findings ==> f.severity != Error
  }

  datatype EvidenceStatus = Fact | Inference | Unknown

  datatype PublicImpact = PublicImpact(
    changedType: string, boundary: PublicTypeBoundary, steps: seq<TypeReference>,
    structuralReachability: EvidenceStatus, runtimeCompatibility: EvidenceStatus)

  /** The evidence items whose status depends on the inputs; the other six have a fixed status. */
  datatype EvidenceCoverage = EvidenceCoverage(
    targetNetworkProtocol: EvidenceStatus,
    declaredStorageSchema: EvidenceStatus,
    declaredSchemaHistory: EvidenceStatus)

  datatype ValidationReport = ValidationReport(
    formatVersion: nat,
    toolVersion: string,
    safe: bool,
    policy: Policy,
    context: ValidationContext,
    source: Artifact,
    target: Artifact,
    findings: set<Finding>,
    publicImpacts: set<PublicImpact>,
    evidence: EvidenceCoverage,
    storageSchemaChecked: bool,
    schemaHistoryChecked: bool,
    policySha256: string,
    sourceSchemaSha256: Option<string>,
    targetSchemaSha256: Option<string>,
    schemaHistorySha256: Option<string>,
    sourceSchema: Option<StorageSchema>,
    targetSchema: Option<StorageSchema>,
    schemaHistory: Option<SchemaHistory>)
}
