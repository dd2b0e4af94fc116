/** Review plans: their creation from a safe report, and the verifier that accepts them. */
module Plans {
  import opened Wrappers
  import opened JsonValues
  import opened Artifacts
  import opened Texts
  import Shell
  import opened Gate

  datatype PlanStepKind =
    | VerifyCurrentExecutable
    | UploadTargetWasm
    | SimulateUpgrade
    | ExecuteUpgrade
    | ExecuteMigration
    | VerifyExecutable
    | VerifyInvariants

  datatype PlanStatus = OfflineDraft | ReviewReady

  datatype PlanStep = PlanStep(
    position: nat, kind: PlanStepKind, program: string, arguments: seq<string>, command: string, expected: string)

  datatype MigrationCall = MigrationCall(entrypoint: string, arguments: map<string, string>)

  datatype InvariantCheck = InvariantCheck(program: string, arguments: seq<string>)

  datatype PlanInputPaths = PlanInputPaths(
    sourceWasm: string, targetWasm: string, sourceSchema: string, targetSchema: string,
    schemaHistory: string, policy: Option<string>)

  /** What the operator chooses for a plan, next to the report. */
  datatype PlanRequest = PlanRequest(
    network: string,
    contractId: string,
    sourceIdentity: string,
    inputs: PlanInputPaths,
    migration: Option<MigrationCall>,
    invariantCheck: InvariantCheck)

  datatype UpgradePlan = UpgradePlan(
    formatVersion: nat,
    planSha256: string,
    status: PlanStatus,
    network: string,
    contractId: string,
    sourceIdentity: string,
    inputs: PlanInputPaths,
    sourceWasmSha256: string,
    targetWasmSha256: string,
    rollbackWasmSha256: string,
    fromVersion: Option<string>,
    toVersion: Option<string>,
    migration: Option<MigrationCall>,
    invariantCheck: InvariantCheck,
    validation: ValidationReport,
    steps: seq<PlanStep>)

  /** What plans take from libraries: seed and contract-id decoding, JSON text and SHA-256. */
  datatype PlanLibrary = PlanLibrary(
    seeds: Seeds, contractIds: iset<string>, encode: UpgradePlan -> string, sha256: UpgradePlan -> string)

  datatype Reason =
    | BadPath | BadNetwork | UnsafeReport | ProtocolNotPinned | NetworkMismatch | NetworkNotBound
    | StorageNotChecked | HistoryNotChecked | BadIdentity | NoMigrationSelected | WrongMigrationSelected
    | NotExported | UnreadableArguments | WrongArguments | NotStandardUpgrade | CannotReplaceWasm
    | BadInvariantProgram | BadInvariantArguments | HoldsPrivateKey
    | UnsupportedFormat | StaleReport | NotOneUpload | NoWasmArgument | WrongWasmPath
    | TooManyMigrations | MigrationMismatch | NotCanonical

  datatype PlanError = InvalidContractId(id: string) | Invalid(reason: Reason)

  // ----- Checks on what the operator supplies -----

  function Unless(ok: bool, reason: Reason): Option<PlanError> {
    if ok then None else Some(Invalid(reason))
  }

  /** The first problem of a list of checks. */
  function First(problems: seq<Option<PlanError>>): Option<PlanError> {
    if problems == [] then None
    else if problems[0].Some? then problems[0]
    else First(problems[1..])
  }

  function StringProblem(seeds: Seeds, value: string, maximumBytes: nat, reason: Reason): Option<PlanError> {
    if value == "" || ByteLength(value) > maximumBytes || HasControl(value) then Some(Invalid(reason))
    else Unless(!ContainsPrivateKey(seeds, value), HoldsPrivateKey)
  }

  function PathsProblem(seeds: Seeds, paths: PlanInputPaths): Option<PlanError> {
    First([
            StringProblem(seeds, paths.sourceWasm, 4096, BadPath),
            StringProblem(seeds, paths.targetWasm, 4096, BadPath),
            StringProblem(seeds, paths.sourceSchema, 4096, BadPath),
            StringProblem(seeds, paths.targetSchema, 4096, BadPath),
            StringProblem(seeds, paths.schemaHistory, 4096, BadPath),
            match paths.policy case None => None case Some(p) => StringProblem(seeds, p, 4096, BadPath)
          ])
  }

  function IdentityProblem(seeds: Seeds, identity: string): Option<PlanError> {
    if identity == "" || ByteLength(identity) > 128 || HasControl(identity) || HasWhitespace(identity)
    then Some(Invalid(BadIdentity))
    else Unless(!ContainsPrivateKey(seeds, identity), HoldsPrivateKey)
  }

  function ArgumentsProblem(seeds: Seeds, arguments: seq<string>): Option<PlanError> {
    if arguments == [] then None
    else if ByteLength(arguments[0]) > 4096 || HasControl(arguments[0]) then Some(Invalid(BadInvariantArguments))
    else if ContainsPrivateKey(seeds, arguments[0]) then Some(Invalid(HoldsPrivateKey))
    else ArgumentsProblem(seeds, arguments[1..])
  }

  function InvariantProblem(seeds: Seeds, check: InvariantCheck): Option<PlanError> {
    if check.program == "" || ByteLength(check.program) > 256 || HasControl(check.program)
       || HasWhitespace(check.program)
    then Some(Invalid(BadInvariantProgram))
    else if ContainsPrivateKey(seeds, check.program) then Some(Invalid(HoldsPrivateKey))
    else ArgumentsProblem(seeds, check.arguments)
  }

  // ----- Checks on what the report allows -----

  function FunctionInputs(a: Artifact, entrypoint: string): Option<seq<Json>> {
    if a.HasFunction(entrypoint) then ArrayAt(a.functions[entrypoint].canonical, "function_v0", "inputs") else None
  }

  function InputNames(inputs: seq<Json>): Option<set<string>> {
    if inputs == [] then Some({})
    else
      match (inputs[0].Get("name"), InputNames(inputs[1..]))
      case (Some(Text(name)), Some(names)) => Some({name} + names)
      case _ => None
  }

  function CallProblem(
    seeds: Seeds, target: Artifact, entrypoint: string, arguments: map<string, string>): Option<PlanError>
  {
    if !target.HasFunction(entrypoint) then Some(Invalid(NotExported))
    else
      match FunctionInputs(target, entrypoint)
      case None => Some(Invalid(UnreadableArguments))
      case Some(inputs) =>
        match InputNames(inputs)
        case None => Some(Invalid(UnreadableArguments))
        case Some(expected) =>
          if expected != arguments.Keys then Some(Invalid(WrongArguments))
          else Unless(forall name :: name in arguments ==> !ContainsPrivateKey(seeds, arguments[name]), HoldsPrivateKey)
  }

  /** The inputs that have both a name and a type, by name. */
  function InputTypes(inputs: seq<Json>): map<string, Json> {
    if inputs == [] then map[]
    else
      var input, before := inputs[|inputs| - 1], InputTypes(inputs[..|inputs| - 1]);
      match (input.Get("name"), input.Get("type_"))
      case (Some(Text(name)), Some(inputType)) => before[name := inputType]
      case _ => before
  }

  const BYTES_32 := Object(map["bytes_n" := Object(map["n" := Integer(32)])])
  const ADDRESS := Text("address")

  predicate HasStandardTypes(types: map<string, Json>) {
    && "new_wasm_hash" in types && types["new_wasm_hash"] == BYTES_32
    && "operator" in types && types["operator"] == ADDRESS
  }

  function StandardArguments(): map<string, string> {
    map["new_wasm_hash" := "", "operator" := ""]
  }

  function UpgradeProblem(seeds: Seeds, a: Artifact): Option<PlanError> {
    First([
            CallProblem(seeds, a, UPGRADE, StandardArguments()),
            match FunctionInputs(a, UPGRADE)
            case None => Some(Invalid(UnreadableArguments))
            case Some(inputs) => Unless(HasStandardTypes(InputTypes(inputs)), NotStandardUpgrade),
            Unless(a.ExportReaches(UPGRADE, UPDATE_CURRENT_CONTRACT_WASM_IMPORT), CannotReplaceWasm)
          ])
  }

  predicate MigrationRequired(report: ValidationReport) {
    exists f :: f in report.findings && f.code == STO002
  }

  function DeclaredEntrypoints(schema: Option<StorageSchema>): set<string> {
    match schema
    case None => {}
    case Some(s) =>
      set e | e in s.entries && e.migration.Some? && e.migration.value.entrypoint.Some? ::
        e.migration.value.entrypoint.value
  }

  function SelectionProblem(report: ValidationReport, migration: Option<MigrationCall>): Option<PlanError> {
    if !MigrationRequired(report) then None
    else
      match migration
      case None => Some(Invalid(NoMigrationSelected))
      case Some(call) => Unless(DeclaredEntrypoints(report.targetSchema) == {call.entrypoint}, WrongMigrationSelected)
  }

  function NetworkProblem(c: ValidationContext, network: string): Option<PlanError> {
    match c.networkName
    case None => Some(Invalid(NetworkNotBound))
    case Some(name) => Unless(name == network, NetworkMismatch)
  }

  /** The checks that creation makes, in order. */
  function PlanProblems(lib: PlanLibrary, report: ValidationReport, r: PlanRequest): seq<Option<PlanError>> {
    [
      PathsProblem(lib.seeds, r.inputs),
      StringProblem(lib.seeds, r.network, 256, BadNetwork),
      if r.contractId in lib.contractIds then None else Some(InvalidContractId(r.contractId)),
      Unless(report.safe && Errors(report.findings) == {}, UnsafeReport),
      Unless(report.context.targetProtocolVersion.Some? && !report.context.protocolSource.Unpinned?, ProtocolNotPinned),
      NetworkProblem(report.context, r.network),
      Unless(report.storageSchemaChecked, StorageNotChecked),
      Unless(report.schemaHistoryChecked && report.schemaHistorySha256.Some?, HistoryNotChecked),
      IdentityProblem(lib.seeds, r.sourceIdentity),
      SelectionProblem(report, r.migration),
      UpgradeProblem(lib.seeds, report.source),
      UpgradeProblem(lib.seeds, report.target),
      match r.migration
      case None => None
      case Some(call) => CallProblem(lib.seeds, report.target, call.entrypoint, call.arguments),
      InvariantProblem(lib.seeds, r.invariantCheck)
    ]
  }

  /** The first reason why no plan is made. */
  function PlanProblem(lib: PlanLibrary, report: ValidationReport, r: PlanRequest): Option<PlanError> {
    First(PlanProblems(lib, report, r))
  }

  // ----- The steps -----

  function FetchArguments(r: PlanRequest, file: string): seq<string> {
    ["contract", "fetch", "--id", r.contractId, "--network", r.network, "--out-file", file]
  }

  function UploadArguments(r: PlanRequest): seq<string> {
    ["contract", "upload", "--wasm", r.inputs.targetWasm, "--optimize=false",
     "--source-account", r.sourceIdentity, "--network", r.network]
  }

  function InvokeArguments(r: PlanRequest): seq<string> {
    ["contract", "invoke", "--id", r.contractId, "--source-account", r.sourceIdentity, "--network", r.network]
  }

  function UpgradeArguments(r: PlanRequest, targetHash: string): seq<string> {
    ["--", UPGRADE, "--new_wasm_hash", targetHash, "--operator", r.sourceIdentity]
  }

  /** Each argument as a flag and its value, in the given order. */
  function Flags(arguments: map<string, string>, names: seq<string>): seq<string>
    requires forall n :: n in names ==> n in arguments
  {
    if names == [] then []
    else Flags(arguments, names[..|names| - 1]) + ["--" + names[|names| - 1], arguments[names[|names| - 1]]]
  }

  ghost function MigrationArguments(r: PlanRequest, call: MigrationCall): seq<string> {
    InvokeArguments(r) + ["--", call.entrypoint] + Flags(call.arguments, Sorted(call.arguments.Keys))
  }

  /** What signers should see after each step. */
  function Expected(report: ValidationReport, kind: PlanStepKind): string {
    match kind
    case VerifyCurrentExecutable => "Fetched WASM SHA-256 equals " + report.source.sha256
    case UploadTargetWasm => "WASM hash " + report.target.sha256
    case SimulateUpgrade => "Successful simulation with expected authorization and resource footprint"
    case ExecuteUpgrade => "Successful executable_update system event"
    case ExecuteMigration => "Migration succeeds once and records the new schema version"
    case VerifyExecutable => "Fetched WASM SHA-256 equals " + report.target.sha256
    case VerifyInvariants => "The application-specific post-upgrade invariants pass"
  }

  function Step(
    report: ValidationReport, position: nat, kind: PlanStepKind, program: string, arguments: seq<string>): PlanStep
  {
    PlanStep(position, kind, program, arguments, Shell.RenderCommand(program, arguments), Expected(report, kind))
  }

  const STELLAR := "stellar"

  function LeadingSteps(report: ValidationReport, r: PlanRequest): seq<PlanStep> {
    [
      Step(report, 1, VerifyCurrentExecutable, STELLAR, FetchArguments(r, "current.wasm")),
      Step(report, 2, UploadTargetWasm, STELLAR, UploadArguments(r)),
      Step(report, 3, SimulateUpgrade, STELLAR,
           InvokeArguments(r) + ["--send", "no"] + UpgradeArguments(r, report.target.sha256)),
      Step(report, 4, ExecuteUpgrade, STELLAR, InvokeArguments(r) + UpgradeArguments(r, report.target.sha256))
    ]
  }

  ghost function MigrationSteps(report: ValidationReport, r: PlanRequest): seq<PlanStep> {
    match r.migration
    case None => []
    case Some(call) => [Step(report, 5, ExecuteMigration, STELLAR, MigrationArguments(r, call))]
  }

  function ClosingSteps(report: ValidationReport, r: PlanRequest, next: nat): seq<PlanStep> {
    [
      Step(report, next, VerifyExecutable, STELLAR, FetchArguments(r, "deployed.wasm")),
      Step(report, next + 1, VerifyInvariants, r.invariantCheck.program, r.invariantCheck.arguments)
    ]
  }

  ghost function PlanSteps(report: ValidationReport, r: PlanRequest): seq<PlanStep> {
    var before := LeadingSteps(report, r) + MigrationSteps(report, r);
    before + ClosingSteps(report, r, |before| + 1)
  }

  function UnsignedPlan(report: ValidationReport, r: PlanRequest, steps: seq<PlanStep>): UpgradePlan {
    UpgradePlan(
      3, "", if report.context.protocolSource.StellarCliNetworkInfo? then ReviewReady else OfflineDraft,
      r.network, r.contractId, r.sourceIdentity, r.inputs,
      report.source.sha256, report.target.sha256, report.source.sha256,
      report.source.Version(), report.target.Version(),
      r.migration, r.invariantCheck, report, steps)
  }

  /** Adds the digest, unless the encoded plan holds a private key. */
  function Signed(lib: PlanLibrary, plan: UpgradePlan): Result<UpgradePlan, PlanError> {
    if ContainsPrivateKey(lib.seeds, lib.encode(plan)) then Err(Invalid(HoldsPrivateKey))
    else Ok(plan.(planSha256 := Digest(lib, plan)))
  }

  function WithoutDigest(plan: UpgradePlan): UpgradePlan {
    plan.(planSha256 := "")
  }

  /** The digest covers everything but itself. */
  function Digest(lib: PlanLibrary, plan: UpgradePlan): string {
    lib.sha256(WithoutDigest(plan))
  }

  ghost function PlanFor(lib: PlanLibrary, report: ValidationReport, r: PlanRequest): Result<UpgradePlan, PlanError> {
    match PlanProblem(lib, report, r)
    case Some(problem) => Err(problem)
    case None => Signed(lib, UnsignedPlan(report, r, PlanSteps(report, r)))
  }

  method CreatePlanWithPaths(lib: PlanLibrary, report: ValidationReport, r: PlanRequest)
    returns (plan: Result<UpgradePlan, PlanError>)
    ensures plan == PlanFor(lib, report, r)
  {
    hide PlanProblem, PlanSteps, Signed, UnsignedPlan;
    var problem := PlanProblem(lib, report, r);
    if problem.Some? {
      return Err(problem.value);
    }
    var steps := BuildSteps(report, r);
    return Signed(lib, UnsignedPlan(report, r, steps));
  }

  method BuildSteps(report: ValidationReport, r: PlanRequest) returns (steps: seq<PlanStep>)
    ensures steps == PlanSteps(report, r)
  {
    hide LeadingSteps, MigrationSteps, ClosingSteps;
    steps := LeadingSteps(report, r);
    var migrationSteps := BuildMigrationStep(report, r);
    steps := steps + migrationSteps;
    steps := steps + ClosingSteps(report, r, |steps| + 1);
  }

  method BuildMigrationStep(report: ValidationReport, r: PlanRequest) returns (steps: seq<PlanStep>)
    ensures steps == MigrationSteps(report, r)
  {
    hide InvokeArguments, Step, Flags;
    steps := [];
    if r.migration.Some? {
      var call := r.migration.value;
      var migrationArguments := PushFlags(InvokeArguments(r) + ["--", call.entrypoint], call.arguments);
      steps := steps + [Step(report, 5, ExecuteMigration, STELLAR, migrationArguments)];
    }
  }

  method PushFlags(start: seq<string>, arguments: map<string, string>) returns (out: seq<string>)
    ensures (forall n :: n in Sorted(arguments.Keys) ==> n in arguments)
            && out == start + Flags(arguments, Sorted(arguments.Keys))
  {
    hide Sorted, Before;
    var names := SortNames(arguments.Keys);
    out := PushNamed(start, arguments, names);
  }

  method PushNamed(start: seq<string>, arguments: map<string, string>, names: seq<string>) returns (out: seq<string>)
    requires forall n :: n in names ==> n in arguments
    ensures out == start + Flags(arguments, names)
  {
    out := start;
    for i := 0 to |names|
      invariant out == start + Flags(arguments, names[..i])
    {
      assert names[..i + 1][..i] == names[..i];
      out := out + ["--" + names[i], arguments[names[i]]];
    }
    assert names[..|names|] == names;
  }

  // ----- The verifier -----

  function StepsOfKind(steps: seq<PlanStep>, kind: PlanStepKind): seq<PlanStep> {
    if steps == [] then []
    else (if steps[0].kind == kind then [steps[0]] else []) + StepsOfKind(steps[1..], kind)
  }

  function ArgumentAfter(arguments: seq<string>, flag: string): Option<string> {
    if arguments == [] then None
    else if arguments[0] != flag then ArgumentAfter(arguments[1..], flag)
    else if |arguments| > 1 then Some(arguments[1])
    else None
  }

  /** The request that a plan answers, read back from the plan. */
  function RequestIn(plan: UpgradePlan): PlanRequest {
    PlanRequest(plan.network, plan.contractId, plan.sourceIdentity, plan.inputs, plan.migration, plan.invariantCheck)
  }

  function ShapeProblem(plan: UpgradePlan): Option<PlanError> {
    var uploads, migrations := StepsOfKind(plan.steps, UploadTargetWasm), StepsOfKind(plan.steps, ExecuteMigration);
    if |uploads| != 1 then Some(Invalid(NotOneUpload))
    else
      match ArgumentAfter(uploads[0].arguments, "--wasm")
      case None => Some(Invalid(NoWasmArgument))
      case Some(path) =>
        if path != plan.inputs.targetWasm then Some(Invalid(WrongWasmPath))
        else if |migrations| > 1 then Some(Invalid(TooManyMigrations))
        else Unless(|migrations| == if plan.migration.Some? then 1 else 0, MigrationMismatch)
  }

  ghost function StructureProblem(gate: Library, lib: PlanLibrary, plan: UpgradePlan): Option<PlanError> {
    if plan.formatVersion != 3 then Some(Invalid(UnsupportedFormat))
    else if ReportFor(gate, EvidenceIn(plan.validation)) != plan.validation then Some(Invalid(StaleReport))
    else if ShapeProblem(plan).Some? then ShapeProblem(plan)
    else
      match PlanFor(lib, plan.validation, RequestIn(plan))
      case Err(problem) => Some(problem)
      case Ok(expected) => Unless(WithoutDigest(plan) == WithoutDigest(expected), NotCanonical)
  }

  ghost function Verdict(gate: Library, lib: PlanLibrary, plan: UpgradePlan): Result<bool, PlanError> {
    match StructureProblem(gate, lib, plan)
    case Some(problem) => Err(problem)
    case None => Ok(plan.planSha256 == Digest(lib, plan))
  }

  method ValidatePlanStructure(gate: Library, lib: PlanLibrary, plan: UpgradePlan) returns (problem: Option<PlanError>)
    ensures problem == StructureProblem(gate, lib, plan)
  {
    hide PlanFor, ReportFor, ShapeProblem, WithoutDigest, RequestIn, EvidenceIn;
    if plan.formatVersion != 3 {
      return Some(Invalid(UnsupportedFormat));
    }
    var revalidated := ValidateWithHistory(gate, EvidenceIn(plan.validation));
    if revalidated != plan.validation {
      return Some(Invalid(StaleReport));
    }
    if ShapeProblem(plan).Some? {
      return ShapeProblem(plan);
    }
    var expected := CreatePlanWithPaths(lib, plan.validation, RequestIn(plan));
    if expected.Err? {
      return Some(expected.error);
    }
    return Unless(WithoutDigest(plan) == WithoutDigest(expected.value), NotCanonical);
  }

  method VerifyPlanDigest(gate: Library, lib: PlanLibrary, plan: UpgradePlan) returns (r: Result<bool, PlanError>)
    ensures r == Verdict(gate, lib, plan)
  {
    hide StructureProblem, Digest;
    var problem := ValidatePlanStructure(gate, lib, plan);
    if problem.Some? {
      return Err(problem.value);
    }
    return Ok(plan.planSha256 == Digest(lib, plan));
  }
}
