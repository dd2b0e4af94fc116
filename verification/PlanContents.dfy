/** What a plan tells its signers to do, and why a plan is refused. */
module PlanContents {
  import opened Wrappers
  import opened Artifacts
  import opened Texts
  import Listings
  import Shell
  import opened SchemaHistories
  import opened Gate
  import opened GateProperties
  import opened Plans
  import opened PlanProperties

  // ----- What the steps do -----

  /** A call of the contract, in the plan's network and under the plan's identity. */
  ghost predicate IsCall(s: PlanStep, plan: UpgradePlan, options: seq<string>, call: seq<string>) {
    && s.program == "stellar"
    && s.arguments == ["contract", "invoke", "--id", plan.contractId, "--source-account", plan.sourceIdentity,
                       "--network", plan.network] + options + ["--"] + call
  }

  /** Fetches the contract's executable into a file and compares its hash. */
  ghost predicate IsFetch(s: PlanStep, plan: UpgradePlan, file: string, hash: string) {
    && s.program == "stellar"
    && s.arguments == ["contract", "fetch", "--id", plan.contractId, "--network", plan.network, "--out-file", file]
    && s.expected == "Fetched WASM SHA-256 equals " + hash
  }

  ghost predicate IsUpload(s: PlanStep, plan: UpgradePlan, hash: string) {
    && s.program == "stellar"
    && s.arguments == ["contract", "upload", "--wasm", plan.inputs.targetWasm, "--optimize=false",
                       "--source-account", plan.sourceIdentity, "--network", plan.network]
    && s.expected == "WASM hash " + hash
  }

  /** Each argument once, in name order, as a flag and its value. */
  ghost predicate AreNamedArguments(words: seq<string>, arguments: map<string, string>) {
    exists names :: Listings.Lists(Before, names, arguments.Keys) && AreFlags(words, names, arguments)
  }

  ghost predicate AreFlags(words: seq<string>, names: seq<string>, arguments: map<string, string>) {
    && |words| == 2 * |names|
    && forall i :: 0 <= i < |names| ==>
         names[i] in arguments && words[2 * i] == "--" + names[i] && words[2 * i + 1] == arguments[names[i]]
  }

  ghost predicate IsMigration(s: PlanStep, plan: UpgradePlan, migration: MigrationCall) {
    exists words :: IsCall(s, plan, [], [migration.entrypoint] + words) && AreNamedArguments(words, migration.arguments)
  }

  /** The steps of the plan carry out exactly the upgrade of its embedded evidence: they check that the source
      executable runs, upload the target, simulate and then execute one and the same upgrade to the target's hash,
      migrate when a migration is selected, check that the target runs, and run the invariant check. */
  ghost predicate CarriesOutItsEvidence(plan: UpgradePlan) {
    var steps, n := plan.steps, |plan.steps|;
    var from, to := plan.validation.source.sha256, plan.validation.target.sha256;
    var upgrade := ["upgrade", "--new_wasm_hash", to, "--operator", plan.sourceIdentity];
    && n == (if plan.migration.Some? then 7 else 6)
    && IsFetch(steps[0], plan, "current.wasm", from)
    && IsUpload(steps[1], plan, to)
    && IsCall(steps[2], plan, ["--send", "no"], upgrade)
    && IsCall(steps[3], plan, [], upgrade)
    && (plan.migration.Some? ==> IsMigration(steps[4], plan, plan.migration.value))
    && IsFetch(steps[n - 2], plan, "deployed.wasm", to)
    && steps[n - 1].program == plan.invariantCheck.program && steps[n - 1].arguments == plan.invariantCheck.arguments
  }

  /** The hashes, versions and status that the plan shows are those of its embedded evidence. */
  ghost predicate ShowsItsEvidence(plan: UpgradePlan) {
    var source, target := plan.validation.source, plan.validation.target;
    && plan.sourceWasmSha256 == source.sha256 && plan.rollbackWasmSha256 == source.sha256
    && plan.targetWasmSha256 == target.sha256
    && plan.fromVersion == (if "binver" in source.metadata then Some(source.metadata["binver"]) else None)
    && plan.toVersion == (if "binver" in target.metadata then Some(target.metadata["binver"]) else None)
    && (plan.status == ReviewReady <==> plan.validation.context.protocolSource == StellarCliNetworkInfo)
  }

  lemma CallsAreBuilt(s: PlanStep, r: PlanRequest, plan: UpgradePlan, options: seq<string>, call: seq<string>)
    requires RequestIn(plan) == r && s.program == STELLAR
    requires s.arguments == InvokeArguments(r) + options + ["--"] + call
    ensures IsCall(s, plan, options, call)
  {
  }

  lemma UpgradeIsCalled(s: PlanStep, r: PlanRequest, plan: UpgradePlan, options: seq<string>, hash: string)
    requires RequestIn(plan) == r && s.program == STELLAR
    requires s.arguments == InvokeArguments(r) + options + UpgradeArguments(r, hash)
    ensures IsCall(s, plan, options, ["upgrade", "--new_wasm_hash", hash, "--operator", r.sourceIdentity])
  {
    var call := ["upgrade", "--new_wasm_hash", hash, "--operator", r.sourceIdentity];
    assert UpgradeArguments(r, hash) == ["--"] + call;
    hide UpgradeArguments, InvokeArguments, IsCall, STELLAR;
    assert s.arguments == InvokeArguments(r) + options + ["--"] + call;
    CallsAreBuilt(s, r, plan, options, call);
  }

  lemma MigrationCarriesOut(report: ValidationReport, r: PlanRequest, plan: UpgradePlan)
    requires r.migration.Some? && RequestIn(plan) == r
    ensures IsMigration(MigrationSteps(report, r)[0], plan, r.migration.value)
  {
    hide Sorted, Before, Shell.RenderCommand, Expected, InvokeArguments, STELLAR, IsCall;
    var call := r.migration.value;
    var names, s := Sorted(call.arguments.Keys), MigrationSteps(report, r)[0];
    var words := Flags(call.arguments, names);
    FlagsAt(call.arguments, names);
    assert s.arguments == MigrationArguments(r, call) && s.program == STELLAR;
    assert MigrationArguments(r, call) == InvokeArguments(r) + ["--", call.entrypoint] + words;
    hide Flags, MigrationSteps, MigrationArguments;
    assert AreFlags(words, names, call.arguments);
    assert s.arguments == InvokeArguments(r) + [] + ["--"] + ([call.entrypoint] + words);
    CallsAreBuilt(s, r, plan, [], [call.entrypoint] + words);
  }

  lemma LeadingStepsAreBuilt(report: ValidationReport, r: PlanRequest)
    ensures var steps, to := LeadingSteps(report, r), report.target.sha256;
            && |steps| == 4 && (forall i :: 0 <= i < 4 ==> steps[i].program == STELLAR)
            && steps[0].arguments == FetchArguments(r, "current.wasm")
            && steps[0].expected == Expected(report, VerifyCurrentExecutable)
            && steps[1].arguments == UploadArguments(r) && steps[1].expected == Expected(report, UploadTargetWasm)
            && steps[2].arguments == InvokeArguments(r) + ["--send", "no"] + UpgradeArguments(r, to)
            && steps[3].arguments == InvokeArguments(r) + [] + UpgradeArguments(r, to)
  {
    hide Shell.RenderCommand, FetchArguments, UploadArguments, InvokeArguments, UpgradeArguments, Expected, STELLAR;
    assert InvokeArguments(r) + [] == InvokeArguments(r);
  }

  lemma FetchIsBuilt(s: PlanStep, r: PlanRequest, plan: UpgradePlan, file: string, hash: string)
    requires RequestIn(plan) == r && s.program == STELLAR && s.arguments == FetchArguments(r, file)
    requires s.expected == "Fetched WASM SHA-256 equals " + hash
    ensures IsFetch(s, plan, file, hash)
  {
  }

  lemma UploadIsBuilt(s: PlanStep, r: PlanRequest, plan: UpgradePlan, hash: string)
    requires RequestIn(plan) == r && s.program == STELLAR && s.arguments == UploadArguments(r)
    requires s.expected == "WASM hash " + hash
    ensures IsUpload(s, plan, hash)
  {
  }

  lemma LeadingStepsCarryOut(report: ValidationReport, r: PlanRequest, plan: UpgradePlan)
    requires RequestIn(plan) == r
    ensures var steps, to := LeadingSteps(report, r), report.target.sha256;
            var upgrade := ["upgrade", "--new_wasm_hash", to, "--operator", r.sourceIdentity];
            && |steps| == 4
            && IsFetch(steps[0], plan, "current.wasm", report.source.sha256) && IsUpload(steps[1], plan, to)
            && IsCall(steps[2], plan, ["--send", "no"], upgrade) && IsCall(steps[3], plan, [], upgrade)
  {
    hide LeadingSteps, FetchArguments, UploadArguments, InvokeArguments, UpgradeArguments, STELLAR, IsFetch,
         IsUpload, IsCall, RequestIn;
    LeadingStepsAreBuilt(report, r);
    var steps := LeadingSteps(report, r);
    FetchIsBuilt(steps[0], r, plan, "current.wasm", report.source.sha256);
    UploadIsBuilt(steps[1], r, plan, report.target.sha256);
    UpgradeIsCalled(steps[2], r, plan, ["--send", "no"], report.target.sha256);
    UpgradeIsCalled(steps[3], r, plan, [], report.target.sha256);
  }

  lemma ClosingStepsCarryOut(report: ValidationReport, r: PlanRequest, plan: UpgradePlan, next: nat)
    requires RequestIn(plan) == r
    ensures var steps := ClosingSteps(report, r, next);
            && |steps| == 2 && IsFetch(steps[0], plan, "deployed.wasm", report.target.sha256)
            && steps[1].program == r.invariantCheck.program && steps[1].arguments == r.invariantCheck.arguments
  {
    hide Shell.RenderCommand, STELLAR;
    var steps := ClosingSteps(report, r, next);
    assert steps[0].arguments == FetchArguments(r, "deployed.wasm") && steps[0].program == STELLAR;
    hide FetchArguments, IsFetch;
    FetchIsBuilt(steps[0], r, plan, "deployed.wasm", report.target.sha256);
  }

  /** Every created plan carries out and shows the evidence that it was made from, for the request it was made for. */
  lemma CreatedPlanFollowsItsEvidence(lib: PlanLibrary, report: ValidationReport, r: PlanRequest, plan: UpgradePlan)
    requires PlanFor(lib, report, r) == Ok(plan)
    ensures plan.validation == report && CarriesOutItsEvidence(plan) && ShowsItsEvidence(plan)
    ensures plan.network == r.network && plan.contractId == r.contractId && plan.sourceIdentity == r.sourceIdentity
    ensures plan.inputs == r.inputs && plan.migration == r.migration && plan.invariantCheck == r.invariantCheck
  {
    CreatedPlanSays(lib, report, r, plan);
    CreatedPlanShows(lib, report, r, plan);
    StepsCarryOut(report, r, plan);
  }

  lemma CreatedPlanShows(lib: PlanLibrary, report: ValidationReport, r: PlanRequest, plan: UpgradePlan)
    requires PlanFor(lib, report, r) == Ok(plan)
    ensures ShowsItsEvidence(plan)
  {
    hide PlanProblem, PlanSteps, ContainsPrivateKey;
  }

  lemma StepsCarryOut(report: ValidationReport, r: PlanRequest, plan: UpgradePlan)
    requires plan.steps == PlanSteps(report, r) && plan.validation == report && RequestIn(plan) == r
    ensures CarriesOutItsEvidence(plan)
  {
    hide IsFetch, IsUpload, IsCall, IsMigration;
    LeadingStepsCarryOut(report, r, plan);
    if r.migration.Some? { MigrationCarriesOut(report, r, plan); }
    var leading, migrating := LeadingSteps(report, r), MigrationSteps(report, r);
    var closing := ClosingSteps(report, r, |leading + migrating| + 1);
    ClosingStepsCarryOut(report, r, plan, |leading + migrating| + 1);
    MigrationCount(report, r);
    hide LeadingSteps, MigrationSteps, ClosingSteps, RequestIn;
    assert plan.steps == leading + migrating + closing;
    hide PlanSteps;
    PartsOf(leading, migrating, closing);
  }

  lemma PartsOf(leading: seq<PlanStep>, migrating: seq<PlanStep>, closing: seq<PlanStep>)
    requires |leading| == 4 && |migrating| <= 1 && |closing| == 2
    ensures var steps, n := leading + migrating + closing, 6 + |migrating|;
            && |steps| == n && (forall i :: 0 <= i < 4 ==> steps[i] == leading[i])
            && (migrating != [] ==> steps[4] == migrating[0])
            && steps[n - 2] == closing[0] && steps[n - 1] == closing[1]
  {
  }

  lemma MigrationCount(report: ValidationReport, r: PlanRequest)
    ensures |MigrationSteps(report, r)| == if r.migration.Some? then 1 else 0
  {
  }

  /** So does every accepted plan. */
  lemma AcceptedPlansFollowTheirEvidence(gate: Library, lib: PlanLibrary, plan: UpgradePlan)
    requires Verdict(gate, lib, plan) == Ok(true)
    ensures CarriesOutItsEvidence(plan) && ShowsItsEvidence(plan)
  {
    hide *;
    AcceptedIffCanonical(gate, lib, plan);
    CreatedPlanFollowsItsEvidence(lib, ReportFor(gate, EvidenceIn(plan.validation)), RequestIn(plan), plan);
  }

  // ----- Why a plan is refused -----

  /** Text that is missing, too long or has a control character. */
  ghost predicate IsMalformed(text: string, maximumBytes: nat) {
    text == "" || ByteLength(text) > maximumBytes || exists c :: c in text && IsControl(c)
  }

  /** What a request must meet, requirement by requirement, in the order in which creation looks at them. */
  ghost predicate Meets(versions: VersionRanks, lib: PlanLibrary, e: Evidence, r: PlanRequest, requirement: nat) {
    match requirement
    case 0 => PathsAreClean(lib.seeds, r.inputs)
    case 1 => IsClean(lib.seeds, r.network, 256)
    case 2 => r.contractId in lib.contractIds
    case 3 => IsAcceptable(versions, e)
    case 4 => e.context.targetProtocolVersion.Some? && e.context.protocolSource != Unpinned
    case 5 => e.context.networkName == Some(r.network)
    case 6 => e.sourceSchema.Some? && e.targetSchema.Some?
    case 7 => e.schemaHistory.Some?
    case 8 => IsClean(lib.seeds, r.sourceIdentity, 128) && !HasWhitespace(r.sourceIdentity)
    case 9 => e.sourceSchema.Some? && e.targetSchema.Some? ==> MigrationIsSettled(e, r.migration)
    case 10 => HasStandardUpgrade(e.source)
    case 11 => HasStandardUpgrade(e.target)
    case 12 =>
      r.migration.Some? ==> CallFits(lib.seeds, e.target, r.migration.value.entrypoint, r.migration.value.arguments)
    case 13 => InvariantIsUsable(lib.seeds, r.invariantCheck)
    case _ => true
  }

  ghost predicate TellsText(seeds: Seeds, text: string, maximumBytes: nat, reason: Reason, problem: PlanError) {
    if IsMalformed(text, maximumBytes) then problem == Invalid(reason)
    else HoldsSeed(seeds, text) && problem == Invalid(HoldsPrivateKey)
  }

  ghost predicate IsPath(p: PlanInputPaths, text: string) {
    || text == p.sourceWasm || text == p.targetWasm || text == p.sourceSchema || text == p.targetSchema
    || text == p.schemaHistory || p.policy == Some(text)
  }

  ghost predicate IsReadable(a: Artifact, entrypoint: string) {
    FunctionInputs(a, entrypoint).Some? && InputNames(FunctionInputs(a, entrypoint).value).Some?
  }

  ghost predicate TellsCall(seeds: Seeds, a: Artifact, call: MigrationCall, problem: PlanError) {
    if call.entrypoint !in a.functions then problem == Invalid(NotExported)
    else if !IsReadable(a, call.entrypoint) then problem == Invalid(UnreadableArguments)
    else if InputNames(FunctionInputs(a, call.entrypoint).value) != Some(call.arguments.Keys)
    then problem == Invalid(WrongArguments)
    else
      problem == Invalid(HoldsPrivateKey)
      && exists name :: name in call.arguments && HoldsSeed(seeds, call.arguments[name])
  }

  ghost predicate TellsUpgrade(a: Artifact, problem: PlanError) {
    if "upgrade" !in a.functions then problem == Invalid(NotExported)
    else if !IsReadable(a, "upgrade") then problem == Invalid(UnreadableArguments)
    else if InputNames(FunctionInputs(a, "upgrade").value) != Some({"new_wasm_hash", "operator"})
    then problem == Invalid(WrongArguments)
    else if !HasStandardTypes(InputTypes(FunctionInputs(a, "upgrade").value))
    then problem == Invalid(NotStandardUpgrade)
    else problem == Invalid(CannotReplaceWasm)
  }

  ghost predicate TellsInvariant(seeds: Seeds, check: InvariantCheck, problem: PlanError) {
    if IsMalformed(check.program, 256) || HasWhitespace(check.program) then problem == Invalid(BadInvariantProgram)
    else if HoldsSeed(seeds, check.program) then problem == Invalid(HoldsPrivateKey)
    else
      exists a :: a in check.arguments &&
        if ByteLength(a) > 4096 || HasControl(a) then problem == Invalid(BadInvariantArguments)
        else HoldsSeed(seeds, a) && problem == Invalid(HoldsPrivateKey)
  }

  /** What the reason says about the requirement that is not met. */
  ghost predicate Tells(lib: PlanLibrary, e: Evidence, r: PlanRequest, requirement: nat, problem: PlanError) {
    match requirement
    case 0 => exists p :: IsPath(r.inputs, p) && TellsText(lib.seeds, p, 4096, BadPath, problem)
    case 1 => TellsText(lib.seeds, r.network, 256, BadNetwork, problem)
    case 2 => problem == InvalidContractId(r.contractId)
    case 3 => problem == Invalid(UnsafeReport)
    case 4 => problem == Invalid(ProtocolNotPinned)
    case 5 => problem == Invalid(if e.context.networkName.None? then NetworkNotBound else NetworkMismatch)
    case 6 => problem == Invalid(StorageNotChecked)
    case 7 => problem == Invalid(HistoryNotChecked)
    case 8 =>
      problem == Invalid(if IsMalformed(r.sourceIdentity, 128) || HasWhitespace(r.sourceIdentity) then BadIdentity
                         else HoldsPrivateKey)
    case 9 => problem == Invalid(if r.migration.None? then NoMigrationSelected else WrongMigrationSelected)
    case 10 => TellsUpgrade(e.source, problem)
    case 11 => TellsUpgrade(e.target, problem)
    case 12 => r.migration.Some? && TellsCall(lib.seeds, e.target, r.migration.value, problem)
    case 13 => TellsInvariant(lib.seeds, r.invariantCheck, problem)
    case _ => false
  }

  lemma {:induction false} FirstFinds(problems: seq<Option<PlanError>>) returns (k: nat)
    requires First(problems).Some?
    ensures k < |problems| && problems[k] == First(problems) && forall j :: 0 <= j < k ==> problems[j] == None
  {
    if problems[0].Some? {
      k := 0;
    } else {
      k := FirstFinds(problems[1..]);
      k := k + 1;
    }
  }

  lemma TextProblemTells(seeds: Seeds, text: string, maximumBytes: nat, reason: Reason)
    ensures var x := StringProblem(seeds, text, maximumBytes, reason);
            && (x.None? <==> IsClean(seeds, text, maximumBytes))
            && (x.Some? ==> TellsText(seeds, text, maximumBytes, reason, x.value))
  {
    ScanFindsExactlyTheSeeds(seeds, text);
    hide ContainsPrivateKey, HoldsSeed, ByteLength;
  }

  lemma PathsProblemTells(seeds: Seeds, p: PlanInputPaths)
    requires PathsProblem(seeds, p).Some?
    ensures exists text :: IsPath(p, text) && TellsText(seeds, text, 4096, BadPath, PathsProblem(seeds, p).value)
  {
    var texts := [p.sourceWasm, p.targetWasm, p.sourceSchema, p.targetSchema, p.schemaHistory];
    forall text { TextProblemTells(seeds, text, 4096, BadPath); }
    hide StringProblem, TellsText, First;
    var problems := [
      StringProblem(seeds, p.sourceWasm, 4096, BadPath), StringProblem(seeds, p.targetWasm, 4096, BadPath),
      StringProblem(seeds, p.sourceSchema, 4096, BadPath), StringProblem(seeds, p.targetSchema, 4096, BadPath),
      StringProblem(seeds, p.schemaHistory, 4096, BadPath),
      match p.policy case None => None case Some(text) => StringProblem(seeds, text, 4096, BadPath)];
    assert PathsProblem(seeds, p) == First(problems);
    var k := FirstFinds(problems);
    var text := if k < 5 then texts[k] else if p.policy.Some? then p.policy.value else "";
    assert problems[k] == StringProblem(seeds, text, 4096, BadPath) && IsPath(p, text);
  }

  lemma IdentityProblemTells(seeds: Seeds, identity: string)
    ensures var x := IdentityProblem(seeds, identity);
            x.Some? ==> x.value == Invalid(if IsMalformed(identity, 128) || HasWhitespace(identity) then BadIdentity
                                           else HoldsPrivateKey)
  {
    hide ContainsPrivateKey, ByteLength;
  }

  lemma CallProblemTells(seeds: Seeds, a: Artifact, call: MigrationCall)
    ensures var x := CallProblem(seeds, a, call.entrypoint, call.arguments);
            x.Some? ==> TellsCall(seeds, a, call, x.value)
  {
    forall name | name in call.arguments
      ensures ContainsPrivateKey(seeds, call.arguments[name]) <==> HoldsSeed(seeds, call.arguments[name])
    {
      ScanFindsExactlyTheSeeds(seeds, call.arguments[name]);
    }
    hide ContainsPrivateKey, HoldsSeed, InputNames;
  }

  lemma UpgradeProblemTells(seeds: Seeds, a: Artifact)
    ensures var x := UpgradeProblem(seeds, a); x.Some? ==> TellsUpgrade(a, x.value)
  {
    if UpgradeProblem(seeds, a).Some? {
      StandardCall(seeds);
      CallProblemTells(seeds, a, MigrationCall("upgrade", StandardArguments()));
      FittingCall(seeds, a, "upgrade", StandardArguments());
      hide CallProblem, HoldsSeed, HasStandardTypes, InputNames, InputTypes, First, StandardArguments, FunctionInputs;
      var problems := [
        CallProblem(seeds, a, UPGRADE, StandardArguments()),
        match FunctionInputs(a, UPGRADE)
        case None => Some(Invalid(UnreadableArguments))
        case Some(inputs) => Unless(HasStandardTypes(InputTypes(inputs)), NotStandardUpgrade),
        Unless(a.ExportReaches(UPGRADE, UPDATE_CURRENT_CONTRACT_WASM_IMPORT), CannotReplaceWasm)];
      assert UpgradeProblem(seeds, a) == First(problems);
      var k := FirstFinds(problems);
    }
  }

  lemma {:induction false} ArgumentsProblemTells(seeds: Seeds, arguments: seq<string>)
    ensures var x := ArgumentsProblem(seeds, arguments);
            x.Some? ==>
              exists a :: a in arguments &&
                if ByteLength(a) > 4096 || HasControl(a) then x.value == Invalid(BadInvariantArguments)
                else HoldsSeed(seeds, a) && x.value == Invalid(HoldsPrivateKey)
  {
    if arguments != [] {
      hide ContainsPrivateKey, HoldsSeed, ByteLength, HasControl;
      ArgumentsProblemTells(seeds, arguments[1..]);
      ScanFindsExactlyTheSeeds(seeds, arguments[0]);
      assert arguments == [arguments[0]] + arguments[1..];
    }
  }

  lemma InvariantProblemTells(seeds: Seeds, check: InvariantCheck)
    ensures var x := InvariantProblem(seeds, check); x.Some? ==> TellsInvariant(seeds, check, x.value)
  {
    ScanFindsExactlyTheSeeds(seeds, check.program);
    ArgumentsProblemTells(seeds, check.arguments);
    hide ContainsPrivateKey, HoldsSeed, ByteLength, HasWhitespace, ArgumentsProblem;
  }

  /** The check that belongs to a requirement. */
  function ProblemAt(lib: PlanLibrary, report: ValidationReport, r: PlanRequest, requirement: nat): Option<PlanError> {
    match requirement
    case 0 => PathsProblem(lib.seeds, r.inputs)
    case 1 => StringProblem(lib.seeds, r.network, 256, BadNetwork)
    case 2 => if r.contractId in lib.contractIds then None else Some(InvalidContractId(r.contractId))
    case 3 => Unless(report.safe && Errors(report.findings) == {}, UnsafeReport)
    case 4 =>
      Unless(report.context.targetProtocolVersion.Some? && !report.context.protocolSource.Unpinned?, ProtocolNotPinned)
    case 5 => NetworkProblem(report.context, r.network)
    case 6 => Unless(report.storageSchemaChecked, StorageNotChecked)
    case 7 => Unless(report.schemaHistoryChecked && report.schemaHistorySha256.Some?, HistoryNotChecked)
    case 8 => IdentityProblem(lib.seeds, r.sourceIdentity)
    case 9 => SelectionProblem(report, r.migration)
    case 10 => UpgradeProblem(lib.seeds, report.source)
    case 11 => UpgradeProblem(lib.seeds, report.target)
    case 12 =>
      (match r.migration
       case None => None
       case Some(call) => CallProblem(lib.seeds, report.target, call.entrypoint, call.arguments))
    case 13 => InvariantProblem(lib.seeds, r.invariantCheck)
    case _ => None
  }

  lemma ChecksAreInOrder(lib: PlanLibrary, report: ValidationReport, r: PlanRequest)
    ensures |PlanProblems(lib, report, r)| == 14
    ensures forall k :: 0 <= k < 14 ==> PlanProblems(lib, report, r)[k] == ProblemAt(lib, report, r, k)
  {
    hide PathsProblem, StringProblem, NetworkProblem, IdentityProblem, SelectionProblem, UpgradeProblem, CallProblem,
         InvariantProblem, Unless;
  }

  lemma SuppliedTextIsChecked(gate: Library, lib: PlanLibrary, e: Evidence, r: PlanRequest, k: nat)
    requires k in {0, 1, 2, 8, 13}
    ensures var x := ProblemAt(lib, ReportFor(gate, e), r, k);
            && (x.None? <==> Meets(gate.versions, lib, e, r, k)) && (x.Some? ==> Tells(lib, e, r, k, x.value))
  {
    hide ReportFor, PathsProblem, StringProblem, IdentityProblem, InvariantProblem, PathsAreClean, IsClean,
         HasWhitespace, InvariantIsUsable, TellsText, TellsInvariant, IsMalformed, IsPath;
    CleanPaths(lib.seeds, r.inputs);
    if PathsProblem(lib.seeds, r.inputs).Some? { PathsProblemTells(lib.seeds, r.inputs); }
    TextProblemTells(lib.seeds, r.network, 256, BadNetwork);
    CleanIdentity(lib.seeds, r.sourceIdentity);
    IdentityProblemTells(lib.seeds, r.sourceIdentity);
    UsableInvariant(lib.seeds, r.invariantCheck);
    InvariantProblemTells(lib.seeds, r.invariantCheck);
  }

  lemma ReportIsChecked(gate: Library, lib: PlanLibrary, e: Evidence, r: PlanRequest, k: nat)
    requires 3 <= k <= 7
    ensures var x := ProblemAt(lib, ReportFor(gate, e), r, k);
            && (x.None? <==> Meets(gate.versions, lib, e, r, k)) && (x.Some? ==> Tells(lib, e, r, k, x.value))
  {
    ReportMeans(gate, e, r.network);
    hide ReportFor, IsAcceptable, Errors;
  }

  lemma EntrypointsAreChecked(gate: Library, lib: PlanLibrary, e: Evidence, r: PlanRequest, k: nat)
    requires 10 <= k <= 12
    ensures var x := ProblemAt(lib, ReportFor(gate, e), r, k);
            && (x.None? <==> Meets(gate.versions, lib, e, r, k)) && (x.Some? ==> Tells(lib, e, r, k, x.value))
  {
    hide ReportFor, UpgradeProblem, CallProblem, HasStandardUpgrade, CallFits, TellsUpgrade, TellsCall;
    ReportMeans(gate, e, r.network);
    StandardUpgrade(lib.seeds, e.source);
    StandardUpgrade(lib.seeds, e.target);
    UpgradeProblemTells(lib.seeds, e.source);
    UpgradeProblemTells(lib.seeds, e.target);
    if r.migration.Some? {
      FittingCall(lib.seeds, e.target, r.migration.value.entrypoint, r.migration.value.arguments);
      CallProblemTells(lib.seeds, e.target, r.migration.value);
    }
  }

  lemma SelectionIsChecked(gate: Library, lib: PlanLibrary, e: Evidence, r: PlanRequest)
    requires e.sourceSchema.Some? && e.targetSchema.Some? && IsAcceptable(gate.versions, e)
    ensures var x := ProblemAt(lib, ReportFor(gate, e), r, 9);
            && (x.None? <==> Meets(gate.versions, lib, e, r, 9)) && (x.Some? ==> Tells(lib, e, r, 9, x.value))
  {
    hide ReportFor, IsAcceptable, MigrationIsSettled, SelectionProblem, LayoutChanges;
    SelectionMeans(gate, e, r.migration);
    SelectionTells(ReportFor(gate, e), r.migration);
  }

  lemma SelectionTells(report: ValidationReport, migration: Option<MigrationCall>)
    ensures var x := SelectionProblem(report, migration);
            x.Some? ==> x.value == Invalid(if migration.None? then NoMigrationSelected else WrongMigrationSelected)
  {
    hide MigrationRequired, DeclaredEntrypoints;
  }

  /** A refusal names the first requirement that is not met, in the order of the checks, and says the truth about
      it. A request that meets them all is refused only for a private key in the text of its plan. */
  lemma RefusalNamesTheFirstUnmet(gate: Library, lib: PlanLibrary, e: Evidence, r: PlanRequest, problem: PlanError)
    requires PlanFor(lib, ReportFor(gate, e), r) == Err(problem)
    ensures || (exists k :: 0 <= k < 14 && (forall j :: 0 <= j < k ==> Meets(gate.versions, lib, e, r, j))
                            && !Meets(gate.versions, lib, e, r, k) && Tells(lib, e, r, k, problem))
            || (problem == Invalid(HoldsPrivateKey) && (forall j :: 0 <= j < 14 ==> Meets(gate.versions, lib, e, r, j))
                && var report := ReportFor(gate, e);
                   HoldsSeed(lib.seeds, lib.encode(UnsignedPlan(report, r, PlanSteps(report, r)))))
  {
    var report := ReportFor(gate, e);
    var problems := PlanProblems(lib, report, r);
    ScanFindsExactlyTheSeeds(lib.seeds, lib.encode(UnsignedPlan(report, r, PlanSteps(report, r))));
    ChecksAreInOrder(lib, report, r);
    NoProblemIffNone(problems);
    hide ReportFor, PlanSteps, UnsignedPlan, First, ProblemAt, Meets, Tells, HoldsSeed, ContainsPrivateKey;
    var k := 14;
    if First(problems).Some? { k := FirstFinds(problems); }
    ChecksAreMet(gate, lib, e, r, k);
    if k < 14 { RequirementIsChecked(gate, lib, e, r, k); }
  }

  lemma RequirementIsChecked(gate: Library, lib: PlanLibrary, e: Evidence, r: PlanRequest, k: nat)
    requires k < 14 && forall j :: 0 <= j < k ==> Meets(gate.versions, lib, e, r, j)
    ensures var x := ProblemAt(lib, ReportFor(gate, e), r, k);
            && (x.None? <==> Meets(gate.versions, lib, e, r, k)) && (x.Some? ==> Tells(lib, e, r, k, x.value))
  {
    assert k == 9 ==> Meets(gate.versions, lib, e, r, 3) && Meets(gate.versions, lib, e, r, 6);
    hide ReportFor, ProblemAt, Tells, IsAcceptable, PathsAreClean, IsClean, MigrationIsSettled, HasStandardUpgrade,
         CallFits, InvariantIsUsable;
    if k == 9 {
      SelectionIsChecked(gate, lib, e, r);
    } else if 3 <= k <= 7 {
      ReportIsChecked(gate, lib, e, r, k);
    } else if 10 <= k <= 12 {
      EntrypointsAreChecked(gate, lib, e, r, k);
    } else {
      SuppliedTextIsChecked(gate, lib, e, r, k);
    }
  }

  lemma {:induction false} ChecksAreMet(gate: Library, lib: PlanLibrary, e: Evidence, r: PlanRequest, k: nat)
    requires k <= 14 && forall j :: 0 <= j < k ==> ProblemAt(lib, ReportFor(gate, e), r, j) == None
    ensures forall j :: 0 <= j < k ==> Meets(gate.versions, lib, e, r, j)
  {
    hide ReportFor, ProblemAt, Meets, Tells;
    if k > 0 {
      ChecksAreMet(gate, lib, e, r, k - 1);
      RequirementIsChecked(gate, lib, e, r, k - 1);
    }
  }

  // ----- Why a plan is not accepted -----

  function KindsIn(steps: seq<PlanStep>): seq<PlanStepKind> {
    seq(|steps|, i requires 0 <= i < |steps| => steps[i].kind)
  }

  /** How many steps are of the kind. */
  function CountOf(steps: seq<PlanStep>, kind: PlanStepKind): nat {
    multiset(KindsIn(steps))[kind]
  }

  lemma OneMoreKind(steps: seq<PlanStep>, kind: PlanStepKind)
    requires steps != []
    ensures CountOf(steps, kind) == CountOf(steps[1..], kind) + if steps[0].kind == kind then 1 else 0
  {
    assert KindsIn(steps) == [steps[0].kind] + KindsIn(steps[1..]);
  }

  lemma {:induction false} StepsAreCounted(steps: seq<PlanStep>, kind: PlanStepKind)
    ensures |StepsOfKind(steps, kind)| == CountOf(steps, kind)
  {
    if steps != [] {
      OneMoreKind(steps, kind);
      hide CountOf;
      StepsAreCounted(steps[1..], kind);
    }
  }

  lemma {:induction false} StepsAreOfKind(steps: seq<PlanStep>, kind: PlanStepKind)
    ensures forall s :: s in StepsOfKind(steps, kind) ==> s in steps && s.kind == kind
  {
    if steps != [] {
      StepsAreOfKind(steps[1..], kind);
      assert steps == [steps[0]] + steps[1..];
    }
  }

  /** `value` stands right after the first `flag`. */
  ghost predicate Follows(arguments: seq<string>, flag: string, value: string) {
    exists i, j :: 0 <= i && i + 1 == j < |arguments| && arguments[i] == flag && arguments[j] == value
                   && forall k :: 0 <= k < i ==> arguments[k] != flag
  }

  lemma {:induction false} ArgumentAfterFollows(arguments: seq<string>, flag: string)
    ensures forall value :: ArgumentAfter(arguments, flag) == Some(value) <==> Follows(arguments, flag, value)
  {
    if arguments != [] {
      ArgumentAfterFollows(arguments[1..], flag);
      forall value ensures ArgumentAfter(arguments, flag) == Some(value) <==> Follows(arguments, flag, value) {
        if arguments[0] != flag {
          if i, j :| 0 <= i && i + 1 == j < |arguments[1..]| && arguments[1..][i] == flag && arguments[1..][j] == value
                     && forall k :: 0 <= k < i ==> arguments[1..][k] != flag {
            assert arguments[i + 1] == flag && arguments[j + 1] == value;
            assert forall k :: 0 <= k < i + 1 ==> arguments[k] != flag by {
              assert forall k :: 1 <= k < i + 1 ==> arguments[k] == arguments[1..][k - 1];
            }
          }
          if i, j :| 0 <= i && i + 1 == j < |arguments| && arguments[i] == flag && arguments[j] == value
                     && forall k :: 0 <= k < i ==> arguments[k] != flag {
            assert arguments[1..][i - 1] == flag && arguments[1..][j - 1] == value;
            assert forall k :: 0 <= k < i - 1 ==> arguments[1..][k] == arguments[k + 1];
          }
        }
      }
    }
  }

  /** What is wrong with the shape of a plan whose upload step is known. */
  ghost predicate TellsShape(plan: UpgradePlan, upload: PlanStep, problem: Option<PlanError>) {
    var migrations := CountOf(plan.steps, ExecuteMigration);
    if forall path :: !Follows(upload.arguments, "--wasm", path) then problem == Some(Invalid(NoWasmArgument))
    else if !Follows(upload.arguments, "--wasm", plan.inputs.targetWasm) then problem == Some(Invalid(WrongWasmPath))
    else if migrations > 1 then problem == Some(Invalid(TooManyMigrations))
    else if migrations != (if plan.migration.Some? then 1 else 0) then problem == Some(Invalid(MigrationMismatch))
    else problem == None
  }

  lemma ShapeProblemTells(plan: UpgradePlan)
    ensures if CountOf(plan.steps, UploadTargetWasm) != 1 then ShapeProblem(plan) == Some(Invalid(NotOneUpload))
            else exists upload :: upload in plan.steps && upload.kind == UploadTargetWasm
                                  && TellsShape(plan, upload, ShapeProblem(plan))
  {
    StepsAreCounted(plan.steps, UploadTargetWasm);
    StepsAreOfKind(plan.steps, UploadTargetWasm);
    StepsAreCounted(plan.steps, ExecuteMigration);
    hide StepsOfKind, CountOf, Follows;
    if CountOf(plan.steps, UploadTargetWasm) == 1 {
      var upload := StepsOfKind(plan.steps, UploadTargetWasm)[0];
      ArgumentAfterFollows(upload.arguments, "--wasm");
      assert ArgumentAfter(upload.arguments, "--wasm").Some? ==>
          Follows(upload.arguments, "--wasm", ArgumentAfter(upload.arguments, "--wasm").value);
      hide ArgumentAfter;
      assert TellsShape(plan, upload, ShapeProblem(plan));
    }
  }

  /** The verifier names the first thing that is wrong: the format, a report that a fresh validation does not
      give, the shape, a refusal of the request, or a difference from the plan that creation gives. */
  lemma VerifierTellsWhy(gate: Library, lib: PlanLibrary, plan: UpgradePlan)
    ensures var problem := StructureProblem(gate, lib, plan);
            if plan.formatVersion != 3 then problem == Some(Invalid(UnsupportedFormat))
            else if ReportFor(gate, EvidenceIn(plan.validation)) != plan.validation
            then problem == Some(Invalid(StaleReport))
            else if CountOf(plan.steps, UploadTargetWasm) != 1 then problem == Some(Invalid(NotOneUpload))
            else exists upload, shape ::
                   upload in plan.steps && upload.kind == UploadTargetWasm && TellsShape(plan, upload, shape)
                   && problem == if shape.Some? then shape
                                 else match PlanFor(lib, plan.validation, RequestIn(plan))
                                      case Err(refusal) => Some(refusal)
                                      case Ok(made) =>
                                        if plan == made.(planSha256 := plan.planSha256) then None
                                        else Some(Invalid(NotCanonical))
  {
    ShapeProblemTells(plan);
    hide ReportFor, PlanFor, ShapeProblem, TellsShape, EvidenceIn, RequestIn;
  }
}
