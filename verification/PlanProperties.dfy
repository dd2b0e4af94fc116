/** What an accepted plan is. */
module PlanProperties {
  import opened Wrappers
  import opened Artifacts
  import opened Texts
  import opened Shell
  import opened SchemaHistories
  import FindingMeanings
  import opened StorageChecks
  import opened Gate
  import opened GateProperties
  import opened Plans

  // ----- The shape of a plan -----

  function KindsOf(migrates: bool): seq<PlanStepKind> {
    [VerifyCurrentExecutable, UploadTargetWasm, SimulateUpgrade, ExecuteUpgrade]
    + (if migrates then [ExecuteMigration] else [])
    + [VerifyExecutable, VerifyInvariants]
  }

  ghost predicate IsStepAt(s: PlanStep, position: nat, kind: PlanStepKind) {
    s.position == position && s.kind == kind && s.command == RenderCommand(s.program, s.arguments)
  }

  ghost predicate AreSteps(steps: seq<PlanStep>, kinds: seq<PlanStepKind>) {
    |steps| == |kinds| && forall i :: 0 <= i < |steps| ==> IsStepAt(steps[i], i + 1, kinds[i])
  }

  /** The steps come in one fixed order, numbered from one. */
  lemma PlanStepsAreInOrder(report: ValidationReport, r: PlanRequest)
    ensures AreSteps(PlanSteps(report, r), KindsOf(r.migration.Some?))
    ensures PlanSteps(report, r)[1].arguments == UploadArguments(r)
  {
    hide Expected, STELLAR, FetchArguments, UploadArguments, InvokeArguments, UpgradeArguments, MigrationArguments,
         RenderCommand;
    var leading, migrating := LeadingSteps(report, r), MigrationSteps(report, r);
    var before := leading + migrating;
    var closing := ClosingSteps(report, r, |before| + 1);
    assert AreSteps(leading, KindsOf(false)[..4]);
    assert IsStepAt(closing[0], |before| + 1, VerifyExecutable) && IsStepAt(closing[1], |before| + 2, VerifyInvariants);
    if r.migration.Some? {
      assert IsStepAt(migrating[0], 5, ExecuteMigration);
    }
  }

  lemma {:induction false} NoStepOfKind(steps: seq<PlanStep>, kind: PlanStepKind)
    requires forall i :: 0 <= i < |steps| ==> steps[i].kind != kind
    ensures StepsOfKind(steps, kind) == []
  {
    if steps != [] { NoStepOfKind(steps[1..], kind); }
  }

  lemma {:induction false} OneStepOfKind(steps: seq<PlanStep>, kind: PlanStepKind, at: nat)
    requires at < |steps| && forall i :: 0 <= i < |steps| ==> (steps[i].kind == kind <==> i == at)
    ensures StepsOfKind(steps, kind) == [steps[at]]
  {
    if at == 0 { NoStepOfKind(steps[1..], kind); } else { OneStepOfKind(steps[1..], kind, at - 1); }
  }

  lemma KindsAreGiven(steps: seq<PlanStep>, kinds: seq<PlanStepKind>, i: nat)
    requires AreSteps(steps, kinds) && i < |steps|
    ensures steps[i].kind == kinds[i]
  {
    assert IsStepAt(steps[i], i + 1, kinds[i]);
  }

  lemma OneUpload(steps: seq<PlanStep>, migrates: bool)
    requires AreSteps(steps, KindsOf(migrates))
    ensures StepsOfKind(steps, UploadTargetWasm) == [steps[1]]
  {
    forall i: nat | i < |steps| ensures steps[i].kind == KindsOf(migrates)[i] {
      KindsAreGiven(steps, KindsOf(migrates), i);
    }
    OneStepOfKind(steps, UploadTargetWasm, 1);
  }

  lemma StepKindsAreUnique(steps: seq<PlanStep>, migrates: bool)
    requires AreSteps(steps, KindsOf(migrates))
    ensures StepsOfKind(steps, UploadTargetWasm) == [steps[1]]
    ensures StepsOfKind(steps, ExecuteMigration) == if migrates then [steps[4]] else []
  {
    OneUpload(steps, migrates);
    forall i: nat | i < |steps| ensures steps[i].kind == KindsOf(migrates)[i] {
      KindsAreGiven(steps, KindsOf(migrates), i);
    }
    if migrates { OneStepOfKind(steps, ExecuteMigration, 4); } else { NoStepOfKind(steps, ExecuteMigration); }
  }

  lemma UploadNamesTheTarget(r: PlanRequest)
    ensures ArgumentAfter(UploadArguments(r), "--wasm") == Some(r.inputs.targetWasm)
  {
    var all := UploadArguments(r);
    assert "upload"[0] != "--wasm"[0] && "contract"[0] != "--wasm"[0];
    assert all[1..][1..][0] == "--wasm" && all[1..][1..][1] == r.inputs.targetWasm;
    assert ArgumentAfter(all[1..][1..], "--wasm") == Some(r.inputs.targetWasm);
    assert ArgumentAfter(all[1..], "--wasm") == ArgumentAfter(all[1..][1..], "--wasm");
  }

  /** What creation puts into a plan, for any checks and steps. */
  lemma CreatedPlanSays(lib: PlanLibrary, report: ValidationReport, r: PlanRequest, plan: UpgradePlan)
    requires PlanFor(lib, report, r) == Ok(plan)
    ensures PlanProblem(lib, report, r) == None && plan.steps == PlanSteps(report, r)
    ensures plan.formatVersion == 3 && plan.validation == report && RequestIn(plan) == r
    ensures plan.planSha256 == Digest(lib, plan)
    ensures !ContainsPrivateKey(lib.seeds, lib.encode(WithoutDigest(plan)))
  {
    hide PlanProblem, PlanSteps, ContainsPrivateKey;
    var unsigned := UnsignedPlan(report, r, PlanSteps(report, r));
    assert WithoutDigest(unsigned) == unsigned;
    assert WithoutDigest(plan) == unsigned;
  }

  lemma CreatedPlanIsWellShaped(lib: PlanLibrary, report: ValidationReport, r: PlanRequest, plan: UpgradePlan)
    requires PlanFor(lib, report, r) == Ok(plan)
    ensures ShapeProblem(plan) == None && AreSteps(plan.steps, KindsOf(plan.migration.Some?))
  {
    hide PlanFor, PlanProblem, PlanSteps, UploadArguments, AreSteps;
    CreatedPlanSays(lib, report, r, plan);
    PlanStepsAreInOrder(report, r);
    StepKindsAreUnique(plan.steps, r.migration.Some?);
    UploadNamesTheTarget(r);
  }

  // ----- Verification is canonical -----

  predicate SameExceptDigest(made: Result<UpgradePlan, PlanError>, plan: UpgradePlan) {
    made.Ok? && WithoutDigest(plan) == WithoutDigest(made.value)
  }

  lemma VerdictSays(gate: Library, lib: PlanLibrary, plan: UpgradePlan)
    ensures Verdict(gate, lib, plan) == Ok(true) <==>
            && plan.formatVersion == 3
            && ReportFor(gate, EvidenceIn(plan.validation)) == plan.validation
            && ShapeProblem(plan) == None
            && SameExceptDigest(PlanFor(lib, plan.validation, RequestIn(plan)), plan)
            && plan.planSha256 == Digest(lib, plan)
  {
    hide PlanFor, ReportFor, ShapeProblem, WithoutDigest, Digest, RequestIn, EvidenceIn;
  }

  /** The verifier accepts exactly the plans that creation gives for a fresh validation of the plan's
      own evidence, digest included. */
  lemma AcceptedIffCanonical(gate: Library, lib: PlanLibrary, plan: UpgradePlan)
    ensures Verdict(gate, lib, plan) == Ok(true) <==>
            PlanFor(lib, ReportFor(gate, EvidenceIn(plan.validation)), RequestIn(plan)) == Ok(plan)
  {
    hide *;
    var again := ReportFor(gate, EvidenceIn(plan.validation));
    var made := PlanFor(lib, again, RequestIn(plan));
    VerdictSays(gate, lib, plan);
    if made == Ok(plan) {
      SameAsItself(plan);
      CreatedPlanIsWellShaped(lib, again, RequestIn(plan), plan);
      CreatedPlanSays(lib, again, RequestIn(plan), plan);
    }
    if Verdict(gate, lib, plan) == Ok(true) {
      assert made.Ok? by { assert SameExceptDigest(made, plan); MadeIsOk(made, plan); }
      CreatedPlanSays(lib, again, RequestIn(plan), made.value);
      SameDigestToo(lib, plan, made);
    }
  }

  lemma SameAsItself(plan: UpgradePlan)
    ensures SameExceptDigest(Ok(plan), plan)
  {
  }

  lemma MadeIsOk(made: Result<UpgradePlan, PlanError>, plan: UpgradePlan)
    requires SameExceptDigest(made, plan)
    ensures made.Ok?
  {
  }

  lemma SameDigestToo(lib: PlanLibrary, plan: UpgradePlan, made: Result<UpgradePlan, PlanError>)
    requires SameExceptDigest(made, plan)
    requires plan.planSha256 == Digest(lib, plan) && made.value.planSha256 == Digest(lib, made.value)
    ensures made == Ok(plan)
  {
  }

  /** Every plan made from a validation report is accepted. */
  lemma CreatedPlansAreAccepted(gate: Library, lib: PlanLibrary, e: Evidence, r: PlanRequest, plan: UpgradePlan)
    requires PlanFor(lib, ReportFor(gate, e), r) == Ok(plan)
    ensures Verdict(gate, lib, plan) == Ok(true)
  {
    hide PlanFor, Verdict, GateFindings, PlanSteps, PlanProblem;
    CreatedPlanSays(lib, ReportFor(gate, e), r, plan);
    assert EvidenceIn(plan.validation) == e;
    AcceptedIffCanonical(gate, lib, plan);
  }

  /** Accepted plans that agree on evidence and request are the same plan: no accepted plan can be
      altered anywhere else and stay accepted. */
  lemma AcceptedPlansAreDetermined(gate: Library, lib: PlanLibrary, p: UpgradePlan, q: UpgradePlan)
    requires Verdict(gate, lib, p) == Ok(true) && Verdict(gate, lib, q) == Ok(true)
    requires EvidenceIn(p.validation) == EvidenceIn(q.validation) && RequestIn(p) == RequestIn(q)
    ensures p == q
  {
    hide *;
    AcceptedIffCanonical(gate, lib, p);
    AcceptedIffCanonical(gate, lib, q);
  }

  /** The verifier answers "digest differs" exactly for canonical plans that carry another digest. */
  lemma RefusedByDigestIffCanonicalOtherwise(gate: Library, lib: PlanLibrary, plan: UpgradePlan)
    ensures Verdict(gate, lib, plan) == Ok(false) <==>
            && plan.planSha256 != Digest(lib, plan)
            && PlanFor(lib, ReportFor(gate, EvidenceIn(plan.validation)), RequestIn(plan))
               == Ok(plan.(planSha256 := Digest(lib, plan)))
  {
    hide PlanFor, ReportFor, ShapeProblem;
    var signed := plan.(planSha256 := Digest(lib, plan));
    assert WithoutDigest(signed) == WithoutDigest(plan);
    assert Digest(lib, signed) == Digest(lib, plan);
    ShapeIgnoresDigest(plan, Digest(lib, plan));
    assert StructureProblem(gate, lib, signed) == StructureProblem(gate, lib, plan);
    AcceptedIffCanonical(gate, lib, signed);
  }

  lemma ShapeIgnoresDigest(plan: UpgradePlan, digest: string)
    ensures ShapeProblem(plan.(planSha256 := digest)) == ShapeProblem(plan)
  {
  }

  /** An accepted plan embeds an acceptable upgrade, its steps come in the fixed order, every command
      text that it shows reads back, by word splitting and quote removal, as the program and arguments beside it,
      and its text without the digest holds no private key. */
  lemma AcceptedPlansAreSound(gate: Library, lib: PlanLibrary, plan: UpgradePlan)
    requires Verdict(gate, lib, plan) == Ok(true)
    ensures IsAcceptable(gate.versions, EvidenceIn(plan.validation))
    ensures AreSteps(plan.steps, KindsOf(plan.migration.Some?))
    ensures forall s :: s in plan.steps ==> ShellWords(s.command) == Some([s.program] + s.arguments)
    ensures !HoldsSeed(lib.seeds, lib.encode(WithoutDigest(plan)))
  {
    hide PlanFor, PlanProblem, PlanSteps, GateFindings, Verdict, ContainsPrivateKey, HoldsSeed, IsAcceptable;
    var e := EvidenceIn(plan.validation);
    var report := ReportFor(gate, e);
    AcceptedIffCanonical(gate, lib, plan);
    CreatedPlanIsWellShaped(lib, report, RequestIn(plan), plan);
    CreatedPlanSays(lib, report, RequestIn(plan), plan);
    ScanFindsExactlyTheSeeds(lib.seeds, lib.encode(WithoutDigest(plan)));
    PlannedReportIsSafe(lib, report, RequestIn(plan));
    SafeIffAcceptable(gate.versions, e);
    CommandsReadBack(plan.steps, KindsOf(plan.migration.Some?));
  }

  lemma CommandsReadBack(steps: seq<PlanStep>, kinds: seq<PlanStepKind>)
    requires AreSteps(steps, kinds)
    ensures forall s :: s in steps ==> ShellWords(s.command) == Some([s.program] + s.arguments)
  {
    forall s | s in steps ensures ShellWords(s.command) == Some([s.program] + s.arguments) {
      var i :| 0 <= i < |steps| && steps[i] == s;
      assert IsStepAt(steps[i], i + 1, kinds[i]);
      RenderedCommandReadsBack(s.program, s.arguments);
    }
  }

  lemma {:induction false} NoProblemIffNone(problems: seq<Option<PlanError>>)
    ensures First(problems) == None <==> forall i :: 0 <= i < |problems| ==> problems[i] == None
  {
    if problems != [] { NoProblemIffNone(problems[1..]); }
  }

  lemma PlannedReportIsSafe(lib: PlanLibrary, report: ValidationReport, r: PlanRequest)
    requires PlanProblem(lib, report, r) == None
    ensures report.safe && report.storageSchemaChecked && report.schemaHistoryChecked
    ensures SelectionProblem(report, r.migration) == None
    ensures r.migration.Some? ==>
              CallProblem(lib.seeds, report.target, r.migration.value.entrypoint, r.migration.value.arguments) == None
  {
    hide First, PathsProblem, StringProblem, NetworkProblem, IdentityProblem, SelectionProblem, UpgradeProblem,
         CallProblem, InvariantProblem;
    var problems := PlanProblems(lib, report, r);
    NoProblemIffNone(problems);
    assert problems[3] == None && problems[6] == None && problems[7] == None && problems[9] == None
           && problems[12] == None;
  }

  // ----- When a plan is made -----

  /** Supplied text that is present, short enough, free of control characters and of private keys. */
  ghost predicate IsClean(seeds: Seeds, text: string, maximumBytes: nat) {
    text != "" && ByteLength(text) <= maximumBytes && !HasControl(text) && !HoldsSeed(seeds, text)
  }

  ghost predicate PathsAreClean(seeds: Seeds, p: PlanInputPaths) {
    && IsClean(seeds, p.sourceWasm, 4096) && IsClean(seeds, p.targetWasm, 4096)
    && IsClean(seeds, p.sourceSchema, 4096) && IsClean(seeds, p.targetSchema, 4096)
    && IsClean(seeds, p.schemaHistory, 4096) && (p.policy.Some? ==> IsClean(seeds, p.policy.value, 4096))
  }

  ghost predicate InvariantIsUsable(seeds: Seeds, check: InvariantCheck) {
    && IsClean(seeds, check.program, 256) && !HasWhitespace(check.program)
    && forall a :: a in check.arguments ==> ByteLength(a) <= 4096 && !HasControl(a) && !HoldsSeed(seeds, a)
  }

  /** A call that gives every input of an exported function exactly one argument, without private keys. */
  ghost predicate CallFits(seeds: Seeds, a: Artifact, entrypoint: string, arguments: map<string, string>) {
    && FunctionInputs(a, entrypoint).Some?
    && InputNames(FunctionInputs(a, entrypoint).value) == Some(arguments.Keys)
    && forall name :: name in arguments ==> !HoldsSeed(seeds, arguments[name])
  }

  /** The standard upgrade signature, on an entrypoint that can replace the WASM. */
  ghost predicate HasStandardUpgrade(a: Artifact) {
    && FunctionInputs(a, UPGRADE).Some?
    && InputNames(FunctionInputs(a, UPGRADE).value) == Some({"new_wasm_hash", "operator"})
    && HasStandardTypes(InputTypes(FunctionInputs(a, UPGRADE).value))
    && a.ExportReaches(UPGRADE, UPDATE_CURRENT_CONTRACT_WASM_IMPORT)
  }

  /** The evidence is complete and bound to the requested network. */
  ghost predicate EvidenceIsComplete(e: Evidence, network: string) {
    && e.context.targetProtocolVersion.Some? && !e.context.protocolSource.Unpinned?
    && e.context.networkName == Some(network)
    && e.sourceSchema.Some? && e.targetSchema.Some? && e.schemaHistory.Some?
  }

  /** Some declared key changed its layout. */
  ghost predicate LayoutChanges(e: Evidence)
    requires e.sourceSchema.Some? && e.targetSchema.Some?
  {
    exists key :: FindingMeanings.ChangesKey(e.sourceSchema.value, e.targetSchema.value, key)
  }

  /** When a declared key changes its layout, the selected migration is the one that is declared. */
  ghost predicate MigrationIsSettled(e: Evidence, migration: Option<MigrationCall>)
    requires e.sourceSchema.Some? && e.targetSchema.Some?
  {
    LayoutChanges(e) ==> migration.Some? && DeclaredEntrypoints(e.targetSchema) == {migration.value.entrypoint}
  }

  ghost predicate IsPlannable(versions: VersionRanks, lib: PlanLibrary, e: Evidence, r: PlanRequest) {
    && IsAcceptable(versions, e) && EvidenceIsComplete(e, r.network) && MigrationIsSettled(e, r.migration)
    && PathsAreClean(lib.seeds, r.inputs) && IsClean(lib.seeds, r.network, 256)
    && r.contractId in lib.contractIds
    && IsClean(lib.seeds, r.sourceIdentity, 128) && !HasWhitespace(r.sourceIdentity)
    && HasStandardUpgrade(e.source) && HasStandardUpgrade(e.target)
    && (r.migration.Some? ==> CallFits(lib.seeds, e.target, r.migration.value.entrypoint, r.migration.value.arguments))
    && InvariantIsUsable(lib.seeds, r.invariantCheck)
  }

  lemma CleanText(seeds: Seeds, text: string, maximumBytes: nat, reason: Reason)
    ensures StringProblem(seeds, text, maximumBytes, reason) == None <==> IsClean(seeds, text, maximumBytes)
  {
    ScanFindsExactlyTheSeeds(seeds, text);
    hide ContainsPrivateKey, HoldsSeed, ByteLength, HasControl;
  }

  lemma CleanPaths(seeds: Seeds, p: PlanInputPaths)
    ensures PathsProblem(seeds, p) == None <==> PathsAreClean(seeds, p)
  {
    CleanText(seeds, p.sourceWasm, 4096, BadPath);
    CleanText(seeds, p.targetWasm, 4096, BadPath);
    CleanText(seeds, p.sourceSchema, 4096, BadPath);
    CleanText(seeds, p.targetSchema, 4096, BadPath);
    CleanText(seeds, p.schemaHistory, 4096, BadPath);
    if p.policy.Some? { CleanText(seeds, p.policy.value, 4096, BadPath); }
    hide StringProblem, IsClean, First;
    var problems := [
      StringProblem(seeds, p.sourceWasm, 4096, BadPath), StringProblem(seeds, p.targetWasm, 4096, BadPath),
      StringProblem(seeds, p.sourceSchema, 4096, BadPath), StringProblem(seeds, p.targetSchema, 4096, BadPath),
      StringProblem(seeds, p.schemaHistory, 4096, BadPath),
      match p.policy case None => None case Some(text) => StringProblem(seeds, text, 4096, BadPath)];
    NoProblemIffNone(problems);
    assert PathsProblem(seeds, p) == First(problems);
    assert (forall i :: 0 <= i < |problems| ==> problems[i] == None) <==>
      problems[0] == None && problems[1] == None && problems[2] == None && problems[3] == None
      && problems[4] == None && problems[5] == None;
  }

  lemma CleanIdentity(seeds: Seeds, identity: string)
    ensures IdentityProblem(seeds, identity) == None <==> IsClean(seeds, identity, 128) && !HasWhitespace(identity)
  {
    ScanFindsExactlyTheSeeds(seeds, identity);
    hide ContainsPrivateKey, HoldsSeed, ByteLength, HasControl, HasWhitespace;
  }

  lemma {:induction false} CleanArguments(seeds: Seeds, arguments: seq<string>)
    ensures ArgumentsProblem(seeds, arguments) == None <==>
            forall a :: a in arguments ==> ByteLength(a) <= 4096 && !HasControl(a) && !HoldsSeed(seeds, a)
  {
    if arguments != [] {
      hide ContainsPrivateKey, HoldsSeed, ByteLength, HasControl;
      CleanArguments(seeds, arguments[1..]);
      ScanFindsExactlyTheSeeds(seeds, arguments[0]);
      assert arguments == [arguments[0]] + arguments[1..];
    }
  }

  lemma UsableInvariant(seeds: Seeds, check: InvariantCheck)
    ensures InvariantProblem(seeds, check) == None <==> InvariantIsUsable(seeds, check)
  {
    ScanFindsExactlyTheSeeds(seeds, check.program);
    CleanArguments(seeds, check.arguments);
    hide ContainsPrivateKey, HoldsSeed, ByteLength, HasControl, HasWhitespace, ArgumentsProblem;
  }

  lemma FittingCall(seeds: Seeds, a: Artifact, entrypoint: string, arguments: map<string, string>)
    ensures CallProblem(seeds, a, entrypoint, arguments) == None <==> CallFits(seeds, a, entrypoint, arguments)
  {
    forall name | name in arguments
      ensures ContainsPrivateKey(seeds, arguments[name]) <==> HoldsSeed(seeds, arguments[name])
    {
      ScanFindsExactlyTheSeeds(seeds, arguments[name]);
    }
    hide ContainsPrivateKey, HoldsSeed, InputNames;
  }

  lemma StandardCall(seeds: Seeds)
    ensures StandardArguments().Keys == {"new_wasm_hash", "operator"}
    ensures forall name :: name in StandardArguments() ==> !HoldsSeed(seeds, StandardArguments()[name])
  {
  }

  lemma StandardUpgrade(seeds: Seeds, a: Artifact)
    ensures UpgradeProblem(seeds, a) == None <==> HasStandardUpgrade(a)
  {
    StandardCall(seeds);
    FittingCall(seeds, a, UPGRADE, StandardArguments());
    hide CallProblem, HoldsSeed, HasStandardTypes, InputNames, InputTypes, First, StandardArguments, FunctionInputs;
    var problems := [
      CallProblem(seeds, a, UPGRADE, StandardArguments()),
      match FunctionInputs(a, UPGRADE)
      case None => Some(Invalid(UnreadableArguments))
      case Some(inputs) => Unless(HasStandardTypes(InputTypes(inputs)), NotStandardUpgrade),
      Unless(a.ExportReaches(UPGRADE, UPDATE_CURRENT_CONTRACT_WASM_IMPORT), CannotReplaceWasm)];
    NoProblemIffNone(problems);
    assert UpgradeProblem(seeds, a) == First(problems);
    assert (forall i :: 0 <= i < |problems| ==> problems[i] == None) <==>
      problems[0] == None && problems[1] == None && problems[2] == None;
  }

  // ----- Migrations -----

  lemma {:induction false} FlagsAt(arguments: map<string, string>, names: seq<string>)
    requires forall n :: n in names ==> n in arguments
    ensures |Flags(arguments, names)| == 2 * |names|
    ensures forall i :: 0 <= i < |names| ==>
              && Flags(arguments, names)[2 * i] == "--" + names[i]
              && Flags(arguments, names)[2 * i + 1] == arguments[names[i]]
  {
    if names != [] {
      var init := names[..|names| - 1];
      FlagsAt(arguments, init);
      forall i | 0 <= i < |names|
        ensures Flags(arguments, names)[2 * i] == "--" + names[i]
        ensures Flags(arguments, names)[2 * i + 1] == arguments[names[i]]
      {
        if i < |init| { assert names[i] == init[i]; }
      }
    }
  }

  /** A changed layout of a declared key raises the migration warning of a safe report. */
  lemma ChangedKeyRequiresMigration(gate: Library, e: Evidence, key: string)
    requires e.sourceSchema.Some? && e.targetSchema.Some? && IsSafe(gate.versions, e)
    requires FindingMeanings.ChangesKey(e.sourceSchema.value, e.targetSchema.value, key)
    ensures Warn(STO002, [key]) in GateFindings(gate.versions, e)
    ensures MigrationsAreDeclared(e.target, e.targetSchema.value)
  {
    SafeIffAcceptable(gate.versions, e);
    hide IsSafe, PlanFor;
    var from, to := e.sourceSchema.value, e.targetSchema.value;
    FindingMeanings.OneKeyMeans(from, to, key, Warn(STO002, [key]));
    var found := KeyFindings(ByKey(from.entries), ByKey(to.entries), key);
    assert found == {Warn(STO002, [key])};
    assert Warn(STO002, [key]) in StorageFindings(from, to);
    assert Warn(STO002, [key]) in StoragePart(gate.versions, e);
  }

  /** For a safe report the planner asks for a migration exactly when some declared key changed its layout. */
  lemma MigrationRequiredIffLayoutChanged(gate: Library, e: Evidence)
    requires e.sourceSchema.Some? && e.targetSchema.Some? && IsSafe(gate.versions, e)
    ensures MigrationRequired(ReportFor(gate, e)) <==> LayoutChanges(e)
  {
    hide GateFindings, IsSafe, FindingMeanings.ChangesKey;
    if key :| FindingMeanings.ChangesKey(e.sourceSchema.value, e.targetSchema.value, key) {
      ChangedKeyRequiresMigration(gate, e, key);
      assert Warn(STO002, [key]) in ReportFor(gate, e).findings;
    }
    if MigrationRequired(ReportFor(gate, e)) {
      var f :| f in ReportFor(gate, e).findings && f.code == STO002;
      FindingMeanings.LayoutWarningsMean(gate, e, f);
    }
  }

  lemma SelectedIsDeclared(target: Artifact, schema: StorageSchema, call: MigrationCall)
    requires MigrationsAreDeclared(target, schema) && DeclaredEntrypoints(Some(schema)) == {call.entrypoint}
    ensures forall m :: m in schema.entries && m.migration.Some? ==>
              m.migration.value.entrypoint == Some(call.entrypoint)
  {
    forall m | m in schema.entries && m.migration.Some? ensures m.migration.value.entrypoint == Some(call.entrypoint) {
      assert m.migration.value.entrypoint.value in DeclaredEntrypoints(Some(schema));
    }
  }

  /** Migration is never dropped: when a declared key changes its layout, the plan has exactly one
      migration step, right after execution and before verification. It calls a function that the target
      exports, which is the one that every migration declaration names, with every argument the operator gave. */
  lemma MigrationIsNeverDropped(
    gate: Library, lib: PlanLibrary, e: Evidence, r: PlanRequest, plan: UpgradePlan, key: string)
    requires PlanFor(lib, ReportFor(gate, e), r) == Ok(plan)
    requires e.sourceSchema.Some? && e.targetSchema.Some?
    requires FindingMeanings.ChangesKey(e.sourceSchema.value, e.targetSchema.value, key)
    ensures plan.migration.Some? && e.target.HasFunction(plan.migration.value.entrypoint)
    ensures forall m :: m in e.targetSchema.value.entries && m.migration.Some? ==>
              m.migration.value.entrypoint == Some(plan.migration.value.entrypoint)
    ensures AreSteps(plan.steps, KindsOf(true))
    ensures IsTheMigrationStep(plan.steps, MigrationArguments(r, plan.migration.value))
  {
    hide *;
    MigrationIsSelected(gate, lib, e, r, plan, key);
    CreatedPlanSays(lib, ReportFor(gate, e), r, plan);
    CreatedPlanIsWellShaped(lib, ReportFor(gate, e), r, plan);
    MigrationStepIsFifth(ReportFor(gate, e), r);
  }

  /** The fifth step, after execution and before verification, is the only migration and has these arguments. */
  ghost predicate IsTheMigrationStep(steps: seq<PlanStep>, arguments: seq<string>) {
    && |steps| == 7
    && steps[3].kind == ExecuteUpgrade && steps[5].kind == VerifyExecutable
    && steps[4].arguments == arguments
    && StepsOfKind(steps, ExecuteMigration) == [steps[4]]
  }

  lemma MigrationIsSelected(
    gate: Library, lib: PlanLibrary, e: Evidence, r: PlanRequest, plan: UpgradePlan, key: string)
    requires PlanFor(lib, ReportFor(gate, e), r) == Ok(plan)
    requires e.sourceSchema.Some? && e.targetSchema.Some?
    requires FindingMeanings.ChangesKey(e.sourceSchema.value, e.targetSchema.value, key)
    ensures plan.migration.Some? && r.migration == plan.migration
    ensures e.target.HasFunction(plan.migration.value.entrypoint)
    ensures forall m :: m in e.targetSchema.value.entries && m.migration.Some? ==>
              m.migration.value.entrypoint == Some(plan.migration.value.entrypoint)
  {
    hide PlanFor, PlanProblem, PlanSteps, GateFindings, MigrationsAreDeclared;
    var report := ReportFor(gate, e);
    CreatedPlanSays(lib, report, r, plan);
    PlannedReportIsSafe(lib, report, r);
    ChangedKeyRequiresMigration(gate, e, key);
    assert MigrationRequired(report);
    SelectedIsDeclared(e.target, e.targetSchema.value, r.migration.value);
  }

  lemma MigrationStepIsFifth(report: ValidationReport, r: PlanRequest)
    requires r.migration.Some?
    ensures IsTheMigrationStep(PlanSteps(report, r), MigrationArguments(r, r.migration.value))
  {
    hide PlanSteps, MigrationArguments, StepsOfKind, RenderCommand;
    var steps := PlanSteps(report, r);
    PlanStepsAreInOrder(report, r);
    StepKindsAreUnique(steps, true);
    FifthStep(report, r);
    assert IsStepAt(steps[3], 4, KindsOf(true)[3]) && IsStepAt(steps[5], 6, KindsOf(true)[5]);
  }

  lemma FifthStep(report: ValidationReport, r: PlanRequest)
    requires r.migration.Some?
    ensures |PlanSteps(report, r)| > 4
    ensures PlanSteps(report, r)[4].arguments == MigrationArguments(r, r.migration.value)
  {
    FourLeadingSteps(report, r);
    hide LeadingSteps, ClosingSteps, MigrationArguments, RenderCommand, Expected;
    assert PlanSteps(report, r)[4] == MigrationSteps(report, r)[0];
  }

  lemma FourLeadingSteps(report: ValidationReport, r: PlanRequest)
    ensures |LeadingSteps(report, r)| == 4
  {
    hide Expected, STELLAR, FetchArguments, UploadArguments, InvokeArguments, UpgradeArguments, RenderCommand;
  }

  // ----- Exactly when a plan is made -----

  lemma NoProblemMeans(lib: PlanLibrary, report: ValidationReport, r: PlanRequest)
    ensures PlanProblem(lib, report, r) == None <==>
            && PathsProblem(lib.seeds, r.inputs) == None && StringProblem(lib.seeds, r.network, 256, BadNetwork) == None
            && r.contractId in lib.contractIds
            && report.safe && Errors(report.findings) == {}
            && report.context.targetProtocolVersion.Some? && !report.context.protocolSource.Unpinned?
            && NetworkProblem(report.context, r.network) == None
            && report.storageSchemaChecked && report.schemaHistoryChecked && report.schemaHistorySha256.Some?
            && IdentityProblem(lib.seeds, r.sourceIdentity) == None
            && SelectionProblem(report, r.migration) == None
            && UpgradeProblem(lib.seeds, report.source) == None && UpgradeProblem(lib.seeds, report.target) == None
            && (r.migration.Some? ==>
                  var call := r.migration.value;
                  CallProblem(lib.seeds, report.target, call.entrypoint, call.arguments) == None)
            && InvariantProblem(lib.seeds, r.invariantCheck) == None
  {
    hide First, PathsProblem, StringProblem, NetworkProblem, IdentityProblem, SelectionProblem, UpgradeProblem,
         CallProblem, InvariantProblem;
    var problems := PlanProblems(lib, report, r);
    NoProblemIffNone(problems);
    assert (forall i :: 0 <= i < |problems| ==> problems[i] == None) <==>
      && problems[0] == None && problems[1] == None && problems[2] == None && problems[3] == None
      && problems[4] == None && problems[5] == None && problems[6] == None && problems[7] == None
      && problems[8] == None && problems[9] == None && problems[10] == None && problems[11] == None
      && problems[12] == None && problems[13] == None;
  }

  lemma ReportMeans(gate: Library, e: Evidence, network: string)
    ensures var report := ReportFor(gate, e);
            && (report.safe <==> IsAcceptable(gate.versions, e)) && (report.safe <==> Errors(report.findings) == {})
            && report.context == e.context && report.source == e.source && report.target == e.target
            && (report.storageSchemaChecked <==> e.sourceSchema.Some? && e.targetSchema.Some?)
            && (report.schemaHistoryChecked <==> e.schemaHistory.Some?)
            && (report.schemaHistorySha256.Some? <==> e.schemaHistory.Some?)
            && report.targetSchema == e.targetSchema
            && (NetworkProblem(report.context, network) == None <==> e.context.networkName == Some(network))
  {
    SafeIffAcceptable(gate.versions, e);
    hide GateFindings, IsAcceptable, PublicImpacts.Impacts, Coverage;
  }

  lemma SelectionMeans(gate: Library, e: Evidence, migration: Option<MigrationCall>)
    requires e.sourceSchema.Some? && e.targetSchema.Some? && IsAcceptable(gate.versions, e)
    ensures SelectionProblem(ReportFor(gate, e), migration) == None <==> MigrationIsSettled(e, migration)
  {
    hide ReportFor, IsAcceptable, IsSafe, MigrationRequired, DeclaredEntrypoints, LayoutChanges, NetworkProblem;
    SafeIffAcceptable(gate.versions, e);
    MigrationRequiredIffLayoutChanged(gate, e);
    ReportMeans(gate, e, "");
  }

  /** A plan is made exactly for a plannable request whose plan text holds no private key. */
  lemma PlanIsMadeIffPlannable(gate: Library, lib: PlanLibrary, e: Evidence, r: PlanRequest)
    ensures var report := ReportFor(gate, e);
            PlanFor(lib, report, r).Ok? <==>
            && IsPlannable(gate.versions, lib, e, r)
            && !HoldsSeed(lib.seeds, lib.encode(UnsignedPlan(report, r, PlanSteps(report, r))))
  {
    var report := ReportFor(gate, e);
    ScanFindsExactlyTheSeeds(lib.seeds, lib.encode(UnsignedPlan(report, r, PlanSteps(report, r))));
    NoProblemIsPlannable(gate, lib, e, r);
    hide PlanProblem, PlanSteps, ReportFor, IsPlannable, ContainsPrivateKey, HoldsSeed;
  }

  lemma NoProblemIsPlannable(gate: Library, lib: PlanLibrary, e: Evidence, r: PlanRequest)
    ensures PlanProblem(lib, ReportFor(gate, e), r) == None <==> IsPlannable(gate.versions, lib, e, r)
  {
    hide PlanProblem, ReportFor, IsAcceptable, PathsAreClean, PathsProblem, StringProblem, IsClean, HasWhitespace,
         NetworkProblem, IdentityProblem, SelectionProblem, UpgradeProblem, HasStandardUpgrade, CallProblem,
         CallFits, InvariantProblem, InvariantIsUsable, MigrationIsSettled;
    NoProblemMeans(lib, ReportFor(gate, e), r);
    ReportMeans(gate, e, r.network);
    CleanPaths(lib.seeds, r.inputs);
    CleanText(lib.seeds, r.network, 256, BadNetwork);
    CleanIdentity(lib.seeds, r.sourceIdentity);
    StandardUpgrade(lib.seeds, e.source);
    StandardUpgrade(lib.seeds, e.target);
    UsableInvariant(lib.seeds, r.invariantCheck);
    if r.migration.Some? {
      FittingCall(lib.seeds, e.target, r.migration.value.entrypoint, r.migration.value.arguments);
    }
    if e.sourceSchema.Some? && e.targetSchema.Some? && IsAcceptable(gate.versions, e) {
      SelectionMeans(gate, e, r.migration);
    }
  }
}
