/** What the upgrade check of the gate means for runs of the modules behind the artifacts. */
module UpgradeRuns {
  import opened Artifacts
  import opened CallGraph
  import CallRuns
  import SchemaHistories
  import opened Gate
  import opened GateProperties

  /** The artifact carries the call evidence that inspection finds in the module. */
  ghost predicate IsInspectionOf(a: Artifact, w: Wasm) {
    && a.exportCallEvidence.Keys == w.exports.Keys
    && forall x :: x in w.exports ==> IsEvidence(w, w.exports[x], a.exportCallEvidence[x])
  }

  /** Some run of the module's `upgrade` export invokes the WASM update. */
  ghost predicate CanUpgrade(w: Wasm) {
    UPGRADE in w.exports && CallRuns.Invokes(w, w.exports[UPGRADE], UPDATE_CURRENT_CONTRACT_WASM_IMPORT)
  }

  /** The gate's check implies a run that replaces the WASM, and it is exact when `upgrade` cannot reach
      dynamic dispatch. */
  lemma UpgradeCheckMeansARun(a: Artifact, w: Wasm)
    requires IsInspectionOf(a, w)
    ensures CanReplaceWasm(a) ==> CanUpgrade(w)
    ensures a.HasFunction(UPGRADE)
            && (UPGRADE in w.exports ==> !a.exportCallEvidence[UPGRADE].dynamicDispatchReachable)
            ==> (CanReplaceWasm(a) <==> CanUpgrade(w))
  {
    hide IsEvidence, CallRuns.Invokes;
    if UPGRADE in w.exports {
      var e := a.exportCallEvidence[UPGRADE];
      CallRuns.EvidenceIsExactForRuns(w, w.exports[UPGRADE], e, UPDATE_CURRENT_CONTRACT_WASM_IMPORT);
    }
  }

  ghost predicate AreInspectionsOf(es: seq<Evidence>, modules: seq<Wasm>) {
    && |modules| == |es| + 1
    && (es != [] ==> IsInspectionOf(es[0].source, modules[0]))
    && forall k :: 0 <= k < |es| ==> IsInspectionOf(es[k].target, modules[k + 1])
  }

  /** No safe chain ends where it cannot be upgraded: when the policies ask for a retained upgrade entrypoint,
      every module of the chain has a run of its `upgrade` export that invokes the WASM update. */
  lemma EveryReleaseCanUpgrade(versions: SchemaHistories.VersionRanks, es: seq<Evidence>, modules: seq<Wasm>, k: nat)
    requires es != [] && SafeChain(versions, es) && AreInspectionsOf(es, modules) && k < |modules|
    requires forall i :: 0 <= i < |es| ==> es[i].policy.requireUpgradeFunction
    ensures CanUpgrade(modules[k])
  {
    hide IsSafe, IsInspectionOf, CanUpgrade, CanReplaceWasm, ContextIsUsable, RunsOnNetwork, HistoryIsAcceptable,
         StorageIsAcceptable;
    var step := if k == 0 then 0 else k - 1;
    assert SafeStep(versions, es, step);
    SafeIffAcceptable(versions, es[step]);
    UpgradeCheckMeansARun(if k == 0 then es[0].source else es[step].target, modules[k]);
  }
}
