/** What a safe report means, for one upgrade and along a chain of upgrades. */
module GateProperties {
  import opened Wrappers
  import opened Artifacts
  import opened PublicImpacts
  import opened SchemaHistories
  import opened ReleaseChains
  import MaintainedHistories
  import opened InterfaceChecks
  import opened StorageChecks
  import opened Gate

  // ----- Safety, condition by condition -----

  predicate ContextIsUsable(c: ValidationContext) {
    match c.protocolSource
    case Unpinned => c.targetProtocolVersion.None?
    case OfflineAssertion => c.targetProtocolVersion.Some?
    case StellarCliNetworkInfo => LiveEvidenceIsComplete(c)
  }

  /** The candidate runs on the selected network. */
  predicate RunsOnNetwork(target: Artifact, c: ValidationContext) {
    && target.envPreRelease == 0
    && (c.targetProtocolVersion.Some? ==>
          && target.envProtocolVersion <= c.targetProtocolVersion.value
          && (target.UsesSparseRead() || target.UsesSparseWrite() ==>
            c.targetProtocolVersion.value >= CAP_0086_PROTOCOL))
    && (target.UsesSparseRead() ==> SomeExportReaches(target, CAP_0086_SPARSE_READ_IMPORT))
    && (target.UsesSparseWrite() ==> SomeExportReaches(target, CAP_0086_SPARSE_WRITE_IMPORT))
  }

  ghost predicate HistoryIsAcceptable(versions: VersionRanks, e: Evidence) {
    match e.schemaHistory
    case Some(h) => Consistent(versions, ReleaseOf(e.source), ReleaseOf(e.target), h)
    case None => !e.policy.requireSchemaHistory
  }

  ghost predicate StorageIsAcceptable(versions: VersionRanks, e: Evidence) {
    match (e.sourceSchema, e.targetSchema)
    case (Some(from), Some(to)) =>
      && ManifestIsSound(versions, e.source, from) && ManifestIsSound(versions, e.target, to)
      && MigrationsAreDeclared(e.target, to) && StorageEvolves(from, to)
    case (None, None) => !e.policy.requireStorageSchema
    case _ => false
  }

  ghost predicate IsAcceptable(versions: VersionRanks, e: Evidence) {
    && e.policy.formatVersion == 1
    && ContextIsUsable(e.context)
    && RunsOnNetwork(e.target, e.context)
    && (e.policy.requireUpgradeFunction ==> CanReplaceWasm(e.source) && CanReplaceWasm(e.target))
    && (e.policy.forbidConstructor ==> !e.target.HasFunction("__constructor"))
    && (e.policy.requireSemverIncrease ==> VersionsIncrease(versions, ReleaseOf(e.source), ReleaseOf(e.target)))
    && InterfaceKept(e.source, e.target, e.policy)
    && HistoryIsAcceptable(versions, e)
    && StorageIsAcceptable(versions, e)
    && !ImpactLimitExceeded(e.source, e.target)
  }

  lemma PolicyAndContextErrors(e: Evidence)
    ensures NoErrors(PolicyFindings(e.policy)) <==> e.policy.formatVersion == 1
    ensures NoErrors(ProtocolContextFindings(e.context)) <==> ContextIsUsable(e.context)
  {
    assert NoErrors(PolicyFindings(e.policy)) ==> Fail(POL001, [e.policy.name]) !in PolicyFindings(e.policy);
    var all := ProtocolContextFindings(e.context);
    assert NoErrors(all) ==> Fail(NET002, []) !in all && Fail(NET004, []) !in all && Fail(NET006, []) !in all;
  }

  lemma NetworkErrors(target: Artifact, c: ValidationContext)
    ensures NoErrors(EnvironmentFindings(target, c)) && NoErrors(SparseMapFindings(target, c)) <==>
            RunsOnNetwork(target, c)
  {
    var env, sparse := EnvironmentFindings(target, c), SparseMapFindings(target, c);
    assert NoErrors(env) ==> Fail(ENV001, []) !in env && Fail(ENV002, []) !in env;
    assert NoErrors(sparse) ==>
      Fail(CAP001, []) !in sparse && Fail(CAP007, []) !in sparse && Fail(CAP009, []) !in sparse;
  }

  lemma UpgradeErrors(source: Artifact, target: Artifact, p: Policy)
    ensures NoErrors(UpgradeFindings(source, target, p)) <==>
            && (p.requireUpgradeFunction ==> CanReplaceWasm(source) && CanReplaceWasm(target))
            && (p.forbidConstructor ==> !target.HasFunction("__constructor"))
  {
    var all := UpgradeFindings(source, target, p);
    assert NoErrors(all) ==> Fail(UPG001, []) !in all && Fail(UPG003, []) !in all && Fail(UPG004, []) !in all
                             && Finding(UPG002, Error, []) !in all;
  }

  lemma VersionErrors(versions: VersionRanks, source: Artifact, target: Artifact, p: Policy)
    ensures NoErrors(VersionFindings(versions, source, target, p)) <==>
            (p.requireSemverIncrease ==> VersionsIncrease(versions, ReleaseOf(source), ReleaseOf(target)))
  {
    var all := VersionFindings(versions, source, target, p);
    assert NoErrors(all) ==> Fail(VER001, []) !in all && Fail(VER002, []) !in all && Fail(VER003, []) !in all;
  }

  lemma HistoryAndStorageErrors(versions: VersionRanks, e: Evidence)
    ensures NoErrors(HistoryPart(versions, e)) <==> HistoryIsAcceptable(versions, e)
    ensures NoErrors(StoragePart(versions, e)) <==> StorageIsAcceptable(versions, e)
  {
    if e.schemaHistory.Some? {
      ErrorFreeIffConsistent(versions, ReleaseOf(e.source), ReleaseOf(e.target), e.schemaHistory.value);
    } else {
      assert Required(e.policy.requireSchemaHistory, HIS000) in HistoryPart(versions, e);
    }
    if e.sourceSchema.Some? && e.targetSchema.Some? {
      var from, to := e.sourceSchema.value, e.targetSchema.value;
      ManifestPairErrors(versions, e.source, e.target, from, to);
      StorageErrors(from, to);
      BothParts(ManifestPairFindings(versions, e.source, e.target, from, to), StorageFindings(from, to));
    } else if e.sourceSchema.None? && e.targetSchema.None? {
      assert Required(e.policy.requireStorageSchema, STO000) in StoragePart(versions, e);
    } else {
      assert Fail(STO004, []) in StoragePart(versions, e);
    }
  }

  lemma BothParts(a: set<Finding>, b: set<Finding>)
    ensures NoErrors(a + b) <==> NoErrors(a) && NoErrors(b)
  {
  }

  /** The gate approves exactly the acceptable upgrades. */
  lemma SafeIffAcceptable(versions: VersionRanks, e: Evidence)
    ensures IsSafe(versions, e) <==> IsAcceptable(versions, e)
  {
    hide GateFindings, PolicyFindings, ProtocolContextFindings, EnvironmentFindings, SparseMapFindings,
         UpgradeFindings, VersionFindings, InterfaceFindings, HistoryPart, StoragePart, ImpactLimitExceeded,
         ContextIsUsable, RunsOnNetwork, CanReplaceWasm, VersionsIncrease, InterfaceKept, HistoryIsAcceptable,
         StorageIsAcceptable;
    PolicyAndContextErrors(e);
    NetworkErrors(e.target, e.context);
    UpgradeErrors(e.source, e.target, e.policy);
    VersionErrors(versions, e.source, e.target, e.policy);
    NoInterfaceErrorIffKept(e.source, e.target, e.policy, e.context);
    HistoryAndStorageErrors(versions, e);
    AllParts(versions, e);
    var all := GateFindings(versions, e);
    assert Errors(all) == {} <==> NoErrors(all) by {
      assert forall f :: f in all && f.severity == Error <==> f in Errors(all);
    }
  }

  lemma AllParts(versions: VersionRanks, e: Evidence)
    ensures NoErrors(GateFindings(versions, e)) <==>
            && NoErrors(PolicyFindings(e.policy)) && NoErrors(ProtocolContextFindings(e.context))
            && NoErrors(EnvironmentFindings(e.target, e.context)) && NoErrors(SparseMapFindings(e.target, e.context))
            && NoErrors(UpgradeFindings(e.source, e.target, e.policy))
            && NoErrors(VersionFindings(versions, e.source, e.target, e.policy))
            && NoErrors(InterfaceFindings(e.source, e.target, e.policy, e.context))
            && NoErrors(HistoryPart(versions, e)) && NoErrors(StoragePart(versions, e))
            && !ImpactLimitExceeded(e.source, e.target)
  {
    hide PolicyFindings, ProtocolContextFindings, EnvironmentFindings, SparseMapFindings, UpgradeFindings,
         VersionFindings, InterfaceFindings, HistoryPart, StoragePart, ImpactLimitExceeded;
    var a := PolicyFindings(e.policy);
    var b := a + ProtocolContextFindings(e.context);
    var c := b + EnvironmentFindings(e.target, e.context);
    var d := c + SparseMapFindings(e.target, e.context);
    var f := d + UpgradeFindings(e.source, e.target, e.policy);
    var g := f + VersionFindings(versions, e.source, e.target, e.policy);
    var h := g + InterfaceFindings(e.source, e.target, e.policy, e.context);
    var i := h + HistoryPart(versions, e);
    var j := i + StoragePart(versions, e);
    BothParts(a, ProtocolContextFindings(e.context));
    BothParts(b, EnvironmentFindings(e.target, e.context));
    BothParts(c, SparseMapFindings(e.target, e.context));
    BothParts(d, UpgradeFindings(e.source, e.target, e.policy));
    BothParts(f, VersionFindings(versions, e.source, e.target, e.policy));
    BothParts(g, InterfaceFindings(e.source, e.target, e.policy, e.context));
    BothParts(h, HistoryPart(versions, e));
    BothParts(i, StoragePart(versions, e));
    var last := When(ImpactLimitExceeded(e.source, e.target), Fail(RES001, []));
    BothParts(j, last);
    assert NoErrors(last) <==> !ImpactLimitExceeded(e.source, e.target) by {
      assert ImpactLimitExceeded(e.source, e.target) ==> Fail(RES001, []) in last;
    }
  }

  // ----- Weaker policies -----

  /** Every protection of `weak` is also one of `strong`. */
  predicate NoStrongerThan(weak: Policy, strong: Policy) {
    && weak.formatVersion == strong.formatVersion
    && (weak.requireUpgradeFunction ==> strong.requireUpgradeFunction)
    && (weak.forbidConstructor ==> strong.forbidConstructor)
    && (weak.requireSemverIncrease ==> strong.requireSemverIncrease)
    && (weak.requireStorageSchema ==> strong.requireStorageSchema)
    && (weak.requireSchemaHistory ==> strong.requireSchemaHistory)
    && (weak.denyRemovedFunctions ==> strong.denyRemovedFunctions)
    && (weak.denyChangedFunctions ==> strong.denyChangedFunctions)
    && (weak.denyRemovedEvents ==> strong.denyRemovedEvents)
    && (weak.denyChangedEvents ==> strong.denyChangedEvents)
    && (weak.denyChangedUserTypes ==> strong.denyChangedUserTypes)
  }

  lemma InterfaceErrorsShrink(source: Artifact, target: Artifact, weak: Policy, strong: Policy, c: ValidationContext)
    requires NoStrongerThan(weak, strong)
    ensures InterfaceFindings(source, target, weak, c) <= InterfaceFindings(source, target, strong, c)
  {
    forall name
      ensures FunctionFindings(source, target, weak, name) <= FunctionFindings(source, target, strong, name)
      ensures EventFindings(source, target, weak, name) <= EventFindings(source, target, strong, name)
      ensures TypeFindings(source, target, weak, c, name) <= TypeFindings(source, target, strong, c, name)
    {
    }
  }

  lemma PartErrorsShrink(versions: VersionRanks, e: Evidence, weak: Policy, strong: Policy)
    requires NoStrongerThan(weak, strong)
    ensures Errors(HistoryPart(versions, e.(policy := weak))) <= Errors(HistoryPart(versions, e.(policy := strong)))
    ensures Errors(StoragePart(versions, e.(policy := weak))) <= Errors(StoragePart(versions, e.(policy := strong)))
    ensures Errors(UpgradeFindings(e.source, e.target, weak)) <= Errors(UpgradeFindings(e.source, e.target, strong))
    ensures VersionFindings(versions, e.source, e.target, weak) <= VersionFindings(versions, e.source, e.target, strong)
  {
  }

  lemma PolicyErrorsShrink(weak: Policy, strong: Policy)
    requires weak.formatVersion == strong.formatVersion && (weak.formatVersion == 1 || weak.name == strong.name)
    ensures Errors(PolicyFindings(weak)) <= Errors(PolicyFindings(strong))
  {
    hide DisabledProtections;
  }

  /** Policy monotonicity: clearing protections only removes error findings. The finding of an unsupported policy
      format names the policy, so there the names must agree. */
  lemma WeakerPoliciesReportFewerErrors(versions: VersionRanks, e: Evidence, weak: Policy, strong: Policy)
    requires NoStrongerThan(weak, strong) && (weak.formatVersion == 1 || weak.name == strong.name)
    ensures Errors(GateFindings(versions, e.(policy := weak))) <= Errors(GateFindings(versions, e.(policy := strong)))
  {
    InterfaceErrorsShrink(e.source, e.target, weak, strong, e.context);
    PartErrorsShrink(versions, e, weak, strong);
    PolicyErrorsShrink(weak, strong);
    hide PolicyFindings, ProtocolContextFindings, EnvironmentFindings, SparseMapFindings, UpgradeFindings,
         VersionFindings, InterfaceFindings, HistoryPart, StoragePart, ImpactLimitExceeded, NoStrongerThan;
    var w, s := e.(policy := weak), e.(policy := strong);
    var n := ProtocolContextFindings(e.context);
    Join(PolicyFindings(weak), PolicyFindings(strong), n, n);
    var w1, s1 := PolicyFindings(weak) + n, PolicyFindings(strong) + n;
    var w2, s2 := w1 + EnvironmentFindings(e.target, e.context), s1 + EnvironmentFindings(e.target, e.context);
    var w3, s3 := w2 + SparseMapFindings(e.target, e.context), s2 + SparseMapFindings(e.target, e.context);
    var w4, s4 := w3 + UpgradeFindings(e.source, e.target, weak), s3 + UpgradeFindings(e.source, e.target, strong);
    var w5, s5 := w4 + VersionFindings(versions, e.source, e.target, weak),
        s4 + VersionFindings(versions, e.source, e.target, strong);
    var wi, si := InterfaceFindings(e.source, e.target, weak, e.context),
        InterfaceFindings(e.source, e.target, strong, e.context);
    var last := When(ImpactLimitExceeded(e.source, e.target), Fail(RES001, []));
    Join(w1, s1, EnvironmentFindings(e.target, e.context), EnvironmentFindings(e.target, e.context));
    Join(w2, s2, SparseMapFindings(e.target, e.context), SparseMapFindings(e.target, e.context));
    Join(w3, s3, UpgradeFindings(e.source, e.target, weak), UpgradeFindings(e.source, e.target, strong));
    Join(w4, s4, VersionFindings(versions, e.source, e.target, weak),
      VersionFindings(versions, e.source, e.target, strong));
    Join(w5, s5, wi, si);
    Join(w5 + wi, s5 + si, HistoryPart(versions, w), HistoryPart(versions, s));
    Join(w5 + wi + HistoryPart(versions, w), s5 + si + HistoryPart(versions, s), StoragePart(versions, w),
      StoragePart(versions, s));
    Join(w5 + wi + HistoryPart(versions, w) + StoragePart(versions, w),
         s5 + si + HistoryPart(versions, s) + StoragePart(versions, s), last, last);
  }

  lemma Join(a: set<Finding>, a': set<Finding>, b: set<Finding>, b': set<Finding>)
    requires Errors(a) <= Errors(a') && Errors(b) <= Errors(b')
    ensures Errors(a + b) <= Errors(a' + b')
  {
    assert Errors(a + b) == Errors(a) + Errors(b);
    assert Errors(a' + b') == Errors(a') + Errors(b');
  }

  /** Clearing protections never turns a safe report unsafe, whatever the policies are called. */
  lemma WeakerPoliciesStaySafe(versions: VersionRanks, e: Evidence, weak: Policy, strong: Policy)
    requires NoStrongerThan(weak, strong) && IsSafe(versions, e.(policy := strong))
    ensures IsSafe(versions, e.(policy := weak))
  {
    hide IsSafe, ContextIsUsable, RunsOnNetwork, CanReplaceWasm, VersionsIncrease, Retained, Unchanged, Consistent,
         ManifestIsSound, MigrationsAreDeclared, StorageEvolves, ImpactLimitExceeded;
    SafeIffAcceptable(versions, e.(policy := strong));
    SafeIffAcceptable(versions, e.(policy := weak));
  }

  // ----- Chains of safe reports -----

  /** Each upgrade starts from the artifact and the storage schema that the one before it ended with. */
  ghost predicate LinksTo(before: Evidence, after: Evidence) {
    before.target == after.source && before.targetSchema == after.sourceSchema
  }

  ghost predicate SafeStep(versions: VersionRanks, es: seq<Evidence>, k: int) {
    0 <= k < |es| ==> IsSafe(versions, es[k]) && (k > 0 ==> LinksTo(es[k - 1], es[k]))
  }

  ghost predicate SafeChain(versions: VersionRanks, es: seq<Evidence>) {
    forall k :: SafeStep(versions, es, k)
  }

  /** The protections of the default policy. */
  predicate HasDefaultProtections(p: Policy) {
    && p.requireUpgradeFunction && p.requireSemverIncrease && p.requireStorageSchema && p.requireSchemaHistory
    && p.denyRemovedFunctions && p.denyChangedFunctions && p.denyRemovedEvents && p.denyChangedEvents
    && p.denyChangedUserTypes
  }

  lemma DefaultPolicyHasThem()
    ensures HasDefaultProtections(DEFAULT_POLICY)
  {
  }

  ghost predicate UnderDefaultPolicy(es: seq<Evidence>) {
    forall k :: 0 <= k < |es| ==> HasDefaultProtections(es[k].policy)
  }

  ghost predicate Survives(before: map<string, InterfaceEntry>, after: map<string, InterfaceEntry>) {
    forall name :: name in before ==> name in after && after[name].canonical == before[name].canonical
  }

  /** What the default policy keeps from one artifact and schema to a later one. */
  ghost predicate KeepsInterface(from: Artifact, to: Artifact) {
    Survives(from.functions, to.functions) && Survives(from.events, to.events) && Survives(from.userTypes, to.userTypes)
  }

  ghost predicate KeepsKeys(from: Option<StorageSchema>, to: Option<StorageSchema>) {
    from.Some? && to.Some? && ByKey(from.value.entries).Keys <= ByKey(to.value.entries).Keys
  }

  lemma KeptMeansSurvives(before: map<string, InterfaceEntry>, after: map<string, InterfaceEntry>)
    requires Retained(before, after) && Unchanged(before, after)
    ensures Survives(before, after)
  {
    forall name | name in before ensures name in after && after[name].canonical == before[name].canonical {
      assert !Dropped(before, after, name) && !Changed(before, after, name);
    }
  }

  /** What one safe upgrade under the default policy keeps. */
  ghost predicate StepKeeps(versions: VersionRanks, e: Evidence) {
    && KeepsInterface(e.source, e.target) && KeepsKeys(e.sourceSchema, e.targetSchema)
    && VersionsIncrease(versions, ReleaseOf(e.source), ReleaseOf(e.target))
    && CanReplaceWasm(e.source) && CanReplaceWasm(e.target)
    && Impacts(e.source, e.target) == {}
  }

  lemma SafeStepKeeps(versions: VersionRanks, e: Evidence)
    requires HasDefaultProtections(e.policy) && IsSafe(versions, e)
    ensures StepKeeps(versions, e)
  {
    SafeIffAcceptable(versions, e);
    AcceptableStepKeeps(versions, e);
  }

  lemma AcceptableStepKeeps(versions: VersionRanks, e: Evidence)
    requires HasDefaultProtections(e.policy) && IsAcceptable(versions, e)
    ensures StepKeeps(versions, e)
  {
    KeptMeansSurvives(e.source.functions, e.target.functions);
    KeptMeansSurvives(e.source.events, e.target.events);
    KeptMeansSurvives(e.source.userTypes, e.target.userTypes);
    assert ChangedTypes(e.source, e.target) == {};
  }

  lemma SurvivalGoesOn(a: map<string, InterfaceEntry>, b: map<string, InterfaceEntry>, c: map<string, InterfaceEntry>)
    requires Survives(a, b) && Survives(b, c)
    ensures Survives(a, c)
  {
  }

  /** What lies between the start of one upgrade and the end of a later one. */
  ghost predicate KeepsAcross(versions: VersionRanks, first: Evidence, last: Evidence) {
    && KeepsInterface(first.source, last.target) && KeepsKeys(first.sourceSchema, last.targetSchema)
    && VersionsIncrease(versions, ReleaseOf(first.source), ReleaseOf(last.target))
  }

  lemma KeepingGoesOn(versions: VersionRanks, first: Evidence, before: Evidence, last: Evidence)
    requires KeepsAcross(versions, first, before) && LinksTo(before, last) && StepKeeps(versions, last)
    ensures KeepsAcross(versions, first, last)
  {
    SurvivalGoesOn(first.source.functions, last.source.functions, last.target.functions);
    SurvivalGoesOn(first.source.events, last.source.events, last.target.events);
    SurvivalGoesOn(first.source.userTypes, last.source.userTypes, last.target.userTypes);
  }

  ghost predicate KeptStep(versions: VersionRanks, es: seq<Evidence>, k: int) {
    0 <= k < |es| ==> StepKeeps(versions, es[k]) && (k > 0 ==> LinksTo(es[k - 1], es[k]))
  }

  lemma {:induction false} KeptStepsAddUp(versions: VersionRanks, es: seq<Evidence>, i: nat, j: nat)
    requires (forall k :: KeptStep(versions, es, k)) && i <= j < |es|
    ensures KeepsAcross(versions, es[i], es[j])
    decreases j - i
  {
    assert KeptStep(versions, es, j);
    if i < j {
      KeptStepsAddUp(versions, es, i, j - 1);
      KeepingGoesOn(versions, es[i], es[j - 1], es[j]);
    }
  }

  lemma SafeStepIsKept(versions: VersionRanks, es: seq<Evidence>, k: int)
    requires SafeChain(versions, es) && UnderDefaultPolicy(es)
    ensures KeptStep(versions, es, k)
  {
    assert SafeStep(versions, es, k);
    if 0 <= k < |es| { SafeStepKeeps(versions, es[k]); }
  }

  /** Chain compatibility under the default policy: from any release to any later one every function,
      event and user type survives unchanged, no storage key disappears and the version increases, so
      no version repeats; each release can be upgraded again, and no upgrade has a public impact. */
  lemma DefaultChainKeepsEverything(versions: VersionRanks, es: seq<Evidence>, i: nat, j: nat)
    requires SafeChain(versions, es) && UnderDefaultPolicy(es) && i <= j < |es|
    ensures KeepsAcross(versions, es[i], es[j]) && StepKeeps(versions, es[j])
    ensures es[i].source.Version() != es[j].target.Version()
  {
    forall k ensures KeptStep(versions, es, k) { SafeStepIsKept(versions, es, k); }
    KeptStepsAddUp(versions, es, i, j);
    assert KeptStep(versions, es, j);
  }

  // ----- Chains under any policy that asks for history -----

  /** The releases that a chain of upgrades goes through. */
  function ReleasesOf(es: seq<Evidence>): seq<Release>
    requires es != []
  {
    [ReleaseOf(es[0].source)] + seq(|es|, k requires 0 <= k < |es| => ReleaseOf(es[k].target))
  }

  ghost predicate AppendOnlyHistories(es: seq<Evidence>) {
    && (forall k :: 0 <= k < |es| ==> es[k].schemaHistory.Some?)
    && (forall k :: HistoryAppends(HistoriesOf(es), k))
  }

  function HistoriesOf(es: seq<Evidence>): seq<SchemaHistory> {
    seq(|es|, k requires 0 <= k < |es| =>
      match es[k].schemaHistory case Some(h) => h case None => MaintainedHistories.NO_HISTORY)
  }

  /** Safe reports with append-only histories, whatever else their policies allow, make a checked
      chain: no field of any release is reinterpreted or reused by a later one. */
  lemma SafeChainIsChecked(versions: VersionRanks, es: seq<Evidence>)
    requires es != [] && SafeChain(versions, es) && AppendOnlyHistories(es)
    ensures CheckedChain(versions, ReleasesOf(es), HistoriesOf(es))
    ensures MaintainedHistories.FieldsKeepTheirMeaning(ReleasesOf(es))
  {
    hide IsSafe, Consistent, ErrorFree, HistoryAppends, MaintainedHistories.FieldsKeepTheirMeaning;
    var releases, histories := ReleasesOf(es), HistoriesOf(es);
    forall k ensures StepChecked(versions, releases, histories, k) {
      if 0 <= k < |es| {
        assert SafeStep(versions, es, k);
        SafeIffAcceptable(versions, es[k]);
        assert releases[k] == ReleaseOf(es[k].source) && releases[k + 1] == ReleaseOf(es[k].target);
        ErrorFreeIffConsistent(versions, releases[k], releases[k + 1], histories[k]);
      }
    }
    MaintainedHistories.CheckedChainsKeepMeaning(versions, releases, histories);
  }
}
