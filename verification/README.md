# Soroban Upgrades: verified model

Soroban Upgrades compares two compiled releases of a smart contract and decides whether
replacing one by the other is safe. This project models its decision logic in Dafny and
proves what a decision guarantees: for one upgrade, for a whole chain of releases, for the
review plan that signers see, and for the example contract that migrates its own storage.

`dafny verify dfyconfig.toml` checks everything.

## What is modelled

| modules | part of the system |
|---|---|
| `TypeGraph`, `PublicImpacts` | the bounded depth-first search for routes through the type-reference graph, and public-impact tracing |
| `SearchLimits`, `LimitWitnesses` | exactly when the search reports a limit, and two graphs at that edge |
| `SchemaHistories`, `ReleaseChains`, `MaintainedHistories`, `HistoryWitnesses` | the cumulative field-history check, what it guarantees along a chain of releases, and what it does not look at |
| `CallGraph`, `CallRuns`, `UpgradeRuns` | direct-call reachability from each WASM export, a call-stack semantics to judge it by, and what the upgrade check means for runs |
| `InterfaceChecks`, `StorageChecks`, `StorageChains`, `Gate`, `GateProperties`, `FindingMeanings` | every check of the release gate, the report, what each finding means, and what safe reports mean, one by one and in chains |
| `Texts`, `Shell`, `Plans`, `PlanProperties`, `PlanContents` | plan creation, plan verification, what a plan tells its signers to do, command rendering, private-key scanning |
| `JsonValues`, `StrictJson`, `SpecEntries`, `ContractSpecs`, `SpecProperties` | the documentation stripper, the duplicate-key visitor, Contract Spec entries and their JSON, the interface derived from them, and what reports say about derived artifacts |
| `Counter`, `CounterRuns`, `CounterBehaviour` | the counter contract, version 1 and version 2, with lazy migration, and as its callers see it |

Loops of the program are methods with loops, proved against functions of their inputs; the
theorems are about those functions. The stack of the route search, the call-graph worklist,
the loops over interfaces, histories and manifests, the plan builder and the contract's
storage updates keep the form that they have in the source. `Artifacts` holds the entities,
`Listings` ordered collections, and `Wrappers` the option and result types.

What the program takes from libraries enters as data: the texts that parse as versions with
their rank in the version order (`VersionRanks`; every countable strict total order fits in
the reals), SHA-256 and JSON text as arbitrary functions, valid contract ids and secret seeds
as arbitrary sets of texts. The JSON form of spec entries is written out (`SpecEntries`). A
finding is its code, its severity and the names of the entries, keys, fields, functions or
protections that it is about.

## Main results

- **No missed change.** In every report that names no search limit, safe or not, every walk from a
  boundary of an unchanged function to a changed type, along mentions of types in the two specs, has
  an impact (`ReportMissesNoChange`). Behind it: the search with its three limits returns exactly the
  simple routes unless it says that a limit was hit (`SearchIsExact`), it says so exactly when the
  graph is too large (`SearchIsLimitedIffTooLarge`), and the derived references and boundaries are
  the mentions in the spec (`ReferencesAreMentions`, `BoundariesAreMentions`).
- **Documentation erasure.** Canonical forms agree exactly for entries that differ only in
  comments (`CanonicalFormsAgreeIffSameWithoutDocs`), and comment edits on either side of an
  upgrade change nothing in its report but the artifacts that it embeds
  (`DocumentationEditsChangeNothingReported`).
- **Field history is exact on chains.** With increasing versions, append-only histories that
  pass every step exist if and only if no field is ever reinterpreted or reused
  (`ChainIsCheckableIffFieldsKeepTheirMeaning`), and for every record
  the declared lifetime is the actual one under an exact condition (`DeclaredLifetimeIsActualIff`).
- **Call evidence.** Without reachable dynamic dispatch, the recorded host imports of an
  export are exactly the imports that some run of it invokes (`EvidenceIsExactForRuns`); in a chain
  of safe reports that ask for the upgrade entrypoint, some run of every release's `upgrade` replaces
  the WASM (`EveryReleaseCanUpgrade`).
- **The gate** reports exactly the findings that their meaning calls for, code by code, with severity
  and subject (`FindingsAreExact`), and approves exactly the acceptable upgrades
  (`SafeIffAcceptable`). Weaker policies never block more; under the default protections, chains of
  safe reports keep interfaces, keys, versions and upgradeability (`DefaultChainKeepsEverything`). Schema versions tell layouts apart
  along every safe chain that never lowers them (`SafeChainTellsLayoutsApart`). A chain that does
  lower one can reuse it (`LoweredVersionsAreReused`); the two manifests of an upgrade tell exactly
  when a later release can (`VersionCanBeReusedIff`).
- **Plans.** The verifier accepts exactly the plans that creation gives for a fresh validation
  of the plan's own evidence (`AcceptedIffCanonical`); a plan is made exactly for plannable
  requests (`PlanIsMadeIffPlannable`). Every accepted plan simulates and executes one upgrade to the
  hash of the target that its evidence is about, in its own network, contract and identity
  (`AcceptedPlansFollowTheirEvidence`); a needed migration is never dropped; every command text
  reads back, by POSIX word splitting and quote removal, as its program and arguments.
- **The counter.** Lazy equals eager migration for every run from every reachable storage, and every
  reply of every run follows from the calls and replies before it (`EveryReplyIsDetermined`).

## Where code and documentation differ

- `docs/ADOPTION.md:49-55` asks for the first release of every recorded field. The code checks
  `firstSeen` only for fields that the target introduces (lib.rs:2024-2028). A field of the first
  release can be dated later than that release, and a record of a field that no release ever had
  passes. `BaselineFirstSeenIsNotChecked` and `PhantomRecordsAreNotChecked` give the inputs;
  `DeclaredLifetimeIsActualIff` gives the condition under which lifetimes do coincide.
- `docs/CHECKS.md:44-50` speaks of analysis that stops at 256 public-impact paths. The code counts
  routes for one boundary and one changed type, so a report can hold more impacts without a limit
  (`ManyImpactsWithoutLimit` gives 512). It reports the limit when a chain is left after the 256th
  route, whether or not it leads to another route (lib.rs:1426-1432): `LimitWithoutMoreRoutes` gives
  a graph of exactly 256 routes. `SearchIsLimitedIffTooLarge` says when the flag is set, for all
  graphs.

## Model

| member | source | states |
|---|---|---|
| TypeGraph.RoutesToType | crates/soroban-upgrades-core/src/lib.rs:1410-1462 | the stack search returns only routes; without a limit it returns every route; at most 256 routes of at most 64 edges; the stack and the turns taken together stay within 10,000 at every loop head |
| TypeGraph.SearchIsExact | crates/soroban-upgrades-core/src/lib.rs:1410-1462 | the same exactness for the search as a function: result = all chains from root to target that leave no type twice and never leave the target |
| TypeGraph.TurnKeeps | crates/soroban-upgrades-core/src/lib.rs:1424-1460 | one turn keeps every entry a simple chain with as many steps as active types, keeps the work budget, and stops only for one of the three limits |
| TypeGraph.TurnCovers | crates/soroban-upgrades-core/src/lib.rs:1424-1460 | one turn loses no route: each is found already or still has a prefix on the stack |
| TypeGraph.FinishKeeps | crates/soroban-upgrades-core/src/lib.rs:1424-1461 | soundness, coverage and the work budget hold when the search ends |
| TypeGraph.LimitsWithFewOwners | crates/soroban-upgrades-core/src/lib.rs:26-28 | with at most 64 owner types the depth limit cannot stop the search: a limit means 256 routes or a spent budget |
| SearchLimits.AllChainsAreTheDirectChains | crates/soroban-upgrades-core/src/lib.rs:1424-1460 | the chains explored without limits are exactly those from a user type that leave no type twice and never leave the target |
| SpecProperties.DirectChainsAreCounted | crates/soroban-upgrades-core/src/lib.rs:1424-1460 | for derived artifacts that list holds each direct chain once, so its length is their number |
| SearchLimits.TurnFollows | crates/soroban-upgrades-core/src/lib.rs:1424-1460 | each turn takes the next of these chains in depth-first order, or meets a limit that is really there |
| SearchLimits.SearchIsLimitedIffTooLarge | crates/soroban-upgrades-core/src/lib.rs:1421-1460 | the limit flag is set iff there are more than 10,000 chains, a chain of more than 64 edges, or 256 routes before the last chain; without it the result is all routes |
| SearchLimits.TraceIsLimitedIffTooLarge | crates/soroban-upgrades-core/src/lib.rs:1385-1392 | tracing is limited iff some boundary listed in both artifacts, with its function equal or absent on both sides, and some type with two forms open a graph that is too large on either side |
| LimitWitnesses.LimitWithoutMoreRoutes | crates/soroban-upgrades-core/src/lib.rs:1426-1432 | a derived artifact with exactly 256 routes for which the limit is reported |
| LimitWitnesses.ManyImpactsWithoutLimit | crates/soroban-upgrades-core/src/lib.rs:1385-1407 | two derived artifacts with 512 shared impacts for which no limit is reported |
| PublicImpacts.TracePublicImpacts | crates/soroban-upgrades-core/src/lib.rs:1349-1408 | every impact reported is a simple route of both type graphs from a boundary listed on both sides, whose function is the same or absent on both, to a type with two forms; without a limit all of them are reported; the flag is set iff some search was limited |
| PublicImpacts.TraceIsExact | crates/soroban-upgrades-core/src/lib.rs:1385-1407 | without a limit an impact is reported iff its boundary is listed in both artifacts with its function equal or absent on both sides, its type has different forms, its steps are a simple route of both graphs, reachability is a fact and run-time compatibility unknown |
| PublicImpacts.NoMissedChange | crates/soroban-upgrades-core/src/lib.rs:1349-1408 | a boundary retained in that sense, whose root leads in both graphs to a type with two forms, has an impact for such a type on the way |
| PublicImpacts.CutCycles | crates/soroban-upgrades-core/src/lib.rs:1433-1439 | every walk that never leaves its last type contains a simple route |
| SchemaHistories.ValidateSchemaHistory | crates/soroban-upgrades-core/src/lib.rs:1844-2078 | the nested loops add exactly the findings HIS001 to HIS016 of each record, source field, target field and removed field |
| ReleaseChains.ErrorFreeIffConsistent | crates/soroban-upgrades-core/src/lib.rs:1844-2078 | no history error iff the history is complete and sound, records the source's types, holds the target's fields live and first seen here if new, and retires and reserves what is removed |
| ReleaseChains.RecordIsKept | docs/ADOPTION.md:49-55 | along append-only histories a record keeps its type, first release and retirement |
| ReleaseChains.NoReinterpretation | crates/soroban-upgrades-core/src/lib.rs:1933-1962 | a field has one type in all releases of an error-free chain |
| ReleaseChains.NoReuse | crates/soroban-upgrades-core/src/lib.rs:1979-2008 | once absent after being present, a field never reappears in an error-free chain |
| ReleaseChains.RetirementIsRemoval | crates/soroban-upgrades-core/src/lib.rs:2041-2065 | the last history retires a field iff the last release lacks it, and in the release that removed it |
| ReleaseChains.IntroductionIsFirstSeen | crates/soroban-upgrades-core/src/lib.rs:2024-2040 | a field introduced inside the chain is recorded as first seen in that release |
| ReleaseChains.DeclaredLifetimeIsActual | crates/soroban-upgrades-core/src/lib.rs:1927-2077 | a field is present exactly when its record declares it live, at every release, iff a field of the first release is declared no later than it |
| ReleaseChains.DeclaredLifetimeIsActualIff | crates/soroban-upgrades-core/src/lib.rs:1927-2077 | for every record: the declared lifetime is the actual one iff a field of the first release is dated no later than it and, for a field that no release had, the record is retired before any release can use it |
| HistoryWitnesses.BaselineFirstSeenIsNotChecked | crates/soroban-upgrades-core/src/lib.rs:2024-2028 | two derived artifacts and a history that pass the check, where the history declares a present field dead throughout |
| HistoryWitnesses.PhantomRecordsAreNotChecked | crates/soroban-upgrades-core/src/lib.rs:1870-1907 | two derived artifacts and a history that pass the check, where the history declares a field live that no release has |
| MaintainedHistories.HistoryTracks | docs/ADOPTION.md:49-55 | keeping the history release by release passes every step and appends, when fields keep their meaning |
| MaintainedHistories.CheckedChainsKeepMeaning | crates/soroban-upgrades-core/src/lib.rs:1844-2078 | an error-free chain never reinterprets a field and never brings one back |
| MaintainedHistories.ChainIsCheckableIffFieldsKeepTheirMeaning | crates/soroban-upgrades-core/src/lib.rs:1844-2078 | with increasing versions, append-only error-free histories exist iff no field is reinterpreted or reused |
| CallGraph.ReadBody | crates/soroban-upgrades-core/src/lib.rs:711-733 | one body's direct calls and tail calls in order, and whether it dispatches dynamically |
| CallGraph.CollectExportCallEvidence | crates/soroban-upgrades-core/src/lib.rs:756-787 | succeeds iff no reachable index is out of range; then the imports are exactly the reachable ones and the flag is set iff a reachable body dispatches dynamically; at most 1 plus the reachable bodies' direct calls iterations |
| CallGraph.InspectExportCallEvidence | crates/soroban-upgrades-core/src/lib.rs:688-754 | every export has its evidence, or an error is returned iff the import count or a reachable index is out of range |
| CallGraph.EvidenceIsWithinArtifact | crates/soroban-upgrades-core/src/lib.rs:659-664 | an export's imports are among the imports of the artifact |
| CallRuns.RunsStayWithinEvidence | crates/soroban-upgrades-core/src/lib.rs:713-787 | without reachable dynamic dispatch no run of any length invokes an import outside the evidence |
| CallRuns.EvidenceIsExactForRuns | crates/soroban-upgrades-core/src/lib.rs:713-787 | each recorded import is invoked by some run, and without dynamic dispatch by nothing else |
| CallRuns.DynamicFlagIsExact | crates/soroban-upgrades-core/src/lib.rs:719-728 | the dynamic flag of an export is set iff some run of it comes to an operator that can enter any function |
| UpgradeRuns.UpgradeCheckMeansARun | crates/soroban-upgrades-core/src/lib.rs:1188-1223 | the upgrade check passes only for modules where some run of `upgrade` invokes the WASM update, and exactly for those when `upgrade` reaches no dynamic dispatch |
| UpgradeRuns.EveryReleaseCanUpgrade | crates/soroban-upgrades-core/src/lib.rs:1188-1223 | along safe reports that ask for the upgrade entrypoint, every module has such a run |
| InterfaceChecks.CompareInterfaces | crates/soroban-upgrades-core/src/lib.rs:2129-2227 | the three loops add exactly the findings of each removed or changed function, event and user type |
| InterfaceChecks.NoInterfaceErrorIffKept | crates/soroban-upgrades-core/src/lib.rs:2129-2249 | no interface error iff every protected entry is kept, whatever the optional fields, the protocol or the imports |
| StorageChecks.ValidateSchemaManifests | crates/soroban-upgrades-core/src/lib.rs:1713-1842 | the loops add exactly the findings of both manifests and of the migration declarations |
| StorageChecks.CountKeys | crates/soroban-upgrades-core/src/lib.rs:1783-1786 | each key is counted as often as it is declared |
| StorageChecks.ManifestPairErrors | crates/soroban-upgrades-core/src/lib.rs:1713-1842 | no manifest error iff both manifests are complete, versioned, tied to their WASM and without repeated keys, and every migration names an exported function |
| StorageChecks.CompareStorageSchemas | crates/soroban-upgrades-core/src/lib.rs:2272-2341 | the loop adds exactly the findings of dropped and changed keys and of the schema version |
| StorageChecks.StorageErrors | crates/soroban-upgrades-core/src/lib.rs:2272-2341 | no storage error iff every key survives, each layout change declares a migration, and a change raises the schema version |
| StorageChains.LaterLayoutsHaveHigherVersions | crates/soroban-upgrades-core/src/lib.rs:2272-2341 | along upgrades that never lower the schema version, a key with another layout in any later release comes with a higher version |
| StorageChains.SafeChainTellsLayoutsApart | crates/soroban-upgrades-core/src/lib.rs:2272-2341 | the same for chains of safe reports under any policies |
| StorageChains.LoweredVersionsAreReused | crates/soroban-upgrades-core/src/lib.rs:2330-2340 | two safe upgrades of derived artifacts under the default policy after which two layouts share a schema version |
| StorageChains.VersionCanBeReusedIff | crates/soroban-upgrades-core/src/lib.rs:2272-2341 | after an upgrade that passes, some later release can pass with the schema version from before it and another layout, iff the upgrade changes a layout itself or lowers the version of a schema that has keys |
| Gate.ValidateWithHistory | crates/soroban-upgrades-core/src/lib.rs:1046-1186 | the report holds all findings, the traced impacts, the verdict and the evidence it was made from |
| FindingMeanings.FindingsAreExact | crates/soroban-upgrades-core/src/lib.rs:1055-1159 | a finding is in a report iff its code, severity and subject say what is so: for every code of every check, stated over policy, context, artifacts, manifests and history |
| FindingMeanings.ReportIsFaithful | crates/soroban-upgrades-core/src/lib.rs:1164-1186 | the report repeats the evidence and its digests, is safe iff no finding is an error, and lists exactly the impacts when no graph is too large |
| FindingMeanings.CoverageIsExact | crates/soroban-upgrades-core/src/lib.rs:1245-1320 | the network protocol is a fact iff the live evidence is complete and an inference iff it is an offline assertion; manifests and history are facts iff supplied |
| FindingMeanings.PolicyFindingsMean | crates/soroban-upgrades-core/src/lib.rs:1464-1513 | POL002 is reported iff some protection is off, and names exactly those that are off, in order; POL001 iff the format is not 1 |
| FindingMeanings.ContextFindingsMean | crates/soroban-upgrades-core/src/lib.rs:1549-1606 | the protocol context findings, code by code |
| FindingMeanings.EnvironmentFindingsMean | crates/soroban-upgrades-core/src/lib.rs:1515-1711 | the environment and sparse-map findings, code by code, each with the import or protocol that calls for it |
| FindingMeanings.UpgradeFindingsMean | crates/soroban-upgrades-core/src/lib.rs:1060-1101 | the upgrade entrypoint and constructor findings, code by code |
| FindingMeanings.VersionFindingsMean | crates/soroban-upgrades-core/src/lib.rs:2094-2127 | VER001 to VER003: missing, unparsable and not increasing versions |
| FindingMeanings.InterfaceFindingsMean | crates/soroban-upgrades-core/src/lib.rs:2129-2249 | one code for what is removed and another for what is changed, in functions, events and types, and the optional-field cases by protocol |
| FindingMeanings.HistoryFindingsMean | crates/soroban-upgrades-core/src/lib.rs:1844-2078 | HIS001 to HIS016 field by field: HIS011 iff a removed field is retired and reserved for this release, HIS010 and the other codes iff it is not |
| FindingMeanings.StorageFindingsMean | crates/soroban-upgrades-core/src/lib.rs:1125-1151 | the manifest, migration, key and schema-version findings, code by code, over places in the manifests |
| FindingMeanings.LayoutWarningsMean | crates/soroban-upgrades-core/src/lib.rs:2272-2341 | a migration warning is about a key whose layout changed and whose declaration names a migration |
| GateProperties.SafeIffAcceptable | crates/soroban-upgrades-core/src/lib.rs:1055-1186 | a report is safe iff policy format, context, network, upgrade path, constructor, version, interface, history and storage are acceptable and no search was limited |
| GateProperties.WeakerPoliciesReportFewerErrors | crates/soroban-upgrades-core/src/lib.rs:1055-1159 | clearing protections only removes error findings; the names of the policies matter only for an unsupported format |
| GateProperties.WeakerPoliciesStaySafe | crates/soroban-upgrades-core/src/lib.rs:1464-1513 | clearing protections never turns a safe report unsafe |
| GateProperties.DefaultChainKeepsEverything | crates/soroban-upgrades-core/src/lib.rs:1046-1223 | along safe reports under the default policy every function, event and type survives unchanged, no key disappears, versions increase and never repeat, every release can be upgraded, no upgrade has impacts |
| GateProperties.SafeChainIsChecked | crates/soroban-upgrades-core/src/lib.rs:1105-1122 | safe reports with append-only histories, under any policies, never reinterpret or reuse a field |
| SpecProperties.ReportMissesNoChange | crates/soroban-upgrades-core/src/lib.rs:1154-1162 | in every report without the limit finding, safe or not, every walk from mention to mention in both specs, from an input or output of an unchanged function to a type that changed in more than comments, has an impact along such mentions |
| SpecProperties.DocumentationEditsKeepTheArtifact | crates/soroban-upgrades-core/src/lib.rs:532-538 | comment-only edits of the spec change nothing in the artifact but its hash and size |
| SpecProperties.DocumentationEditsChangeNothingReported | crates/soroban-upgrades-core/src/lib.rs:538-555 | comment-only edits on either side leave the whole report as it was: findings, impacts, limit and verdict; only the embedded artifacts differ |
| ContractSpecs.CollectUdtNames | crates/soroban-upgrades-core/src/lib.rs:475-516 | adds exactly the user types that occur in a type, at the end of some path into it |
| ContractSpecs.EnsureUniqueMembers | crates/soroban-upgrades-core/src/lib.rs:557-573 | accepts iff no member name repeats |
| ContractSpecs.DeriveInterface | crates/soroban-upgrades-core/src/lib.rs:271-455 | succeeds iff no name repeats in its namespace and no member in its owner, and otherwise names a repetition that is there; the tables hold every entry with its kind; references and boundaries are exactly the mentions of user types in fields, case payloads, inputs and outputs, each listed once and in order |
| ContractSpecs.ReferencesAreMentions | crates/soroban-upgrades-core/src/lib.rs:334-391 | a reference is derived iff a struct of the owner's name has a field of the member's name that mentions the target, or a union has a tuple case whose payload j mentions it and the member is `case[j]` |
| ContractSpecs.BoundariesAreMentions | crates/soroban-upgrades-core/src/lib.rs:294-330 | a boundary is derived iff the function has that input, with its label, or that output, at that place, and it mentions the root type |
| ContractSpecs.DecimalReadsBack | crates/soroban-upgrades-core/src/lib.rs:379 | payload indices read back from their decimal text |
| ContractSpecs.TablesHoldEntries | crates/soroban-upgrades-core/src/lib.rs:271-440 | each table holds every entry of its namespace, with kind and canonical form, and nothing else |
| ContractSpecs.HistoryReadsTheStructs | crates/soroban-upgrades-core/src/lib.rs:2251-2264 | the history check reads exactly the structs of the spec, with their field names and types |
| ContractSpecs.DerivedReferencesFollowEntries | crates/soroban-upgrades-core/src/lib.rs:334-391 | equal canonical entries have equal references in any two derived artifacts |
| ContractSpecs.DocumentationEditsAreInvisible | crates/soroban-upgrades-core/src/lib.rs:532-555 | specs that differ only in comments derive the same interface, in content and order |
| JsonValues.StripDocumentation | crates/soroban-upgrades-core/src/lib.rs:540-555 | the in-place walk leaves the value without any `doc` member |
| JsonValues.StrippingIsIdempotent | crates/soroban-upgrades-core/src/lib.rs:540-555 | stripping twice is stripping once |
| JsonValues.CanonicalFormsAgreeIffSameExceptDocumentation | crates/soroban-upgrades-core/src/lib.rs:532-555 | canonical forms are equal iff the trees look the same at every place not under a `doc` member |
| SpecEntries.CanonicalFormsAgreeIffSameWithoutDocs | crates/soroban-upgrades-core/src/lib.rs:532-555 | two spec entries have the same canonical form iff they are the same entry once comments are erased |
| StrictJson.VisitUnique | crates/soroban-upgrades-core/src/lib.rs:131-153 | accepts iff no object at any depth repeats a key |
| StrictJson.AcceptedTextsAreUnambiguous | crates/soroban-upgrades-core/src/lib.rs:131-164 | on accepted texts first-wins and last-wins readers agree |
| Texts.ScanFindsExactlyTheSeeds | crates/soroban-upgrades-core/src/lib.rs:2972-2986 | the byte-window scan reports a key iff the text holds a seed, at any offset and next to any character |
| Texts.EveryCharIsRead | crates/soroban-upgrades-core/src/lib.rs:2972-2986 | the UTF-8 bytes that the scan reads decode to the character that they stand for |
| Texts.SortNames | crates/soroban-upgrades-core/src/lib.rs:2405-2408 | the iteration order of a sorted map of arguments |
| Listings.ListInOrder | crates/soroban-upgrades-core/src/lib.rs:452-453 | the iteration of an ordered set lists each item once, in strictly ascending order |
| Listings.OnlyOneListing | crates/soroban-upgrades-core/src/lib.rs:452-453 | a set has only one such listing |
| Shell.RenderedCommandReadsBack | crates/soroban-upgrades-core/src/lib.rs:2455-2473 | word splitting and quote removal read a rendered command as exactly its program and arguments |
| Shell.RenderingIsInjective | crates/soroban-upgrades-core/src/lib.rs:2455-2473 | one text never stands for two commands |
| Shell.BareIffPlain | crates/soroban-upgrades-core/src/lib.rs:2455-2473 | a word is shown without quotes iff it is nonempty and made of letters, digits and the plain punctuation |
| Plans.CreatePlanWithPaths | crates/soroban-upgrades-core/src/lib.rs:2537-2808 | the first failing check, or the plan with its steps and digest |
| Plans.PushFlags | crates/soroban-upgrades-core/src/lib.rs:2737-2740 | every migration argument as a flag and its value, in name order |
| Plans.ValidatePlanStructure | crates/soroban-upgrades-core/src/lib.rs:2829-2906 | the first structural problem of a plan: format, stale report, shape, refusal, or difference from the canonical plan |
| Plans.VerifyPlanDigest | crates/soroban-upgrades-core/src/lib.rs:2824-2827 | the problem, or whether the digest covers the plan |
| PlanProperties.PlanStepsAreInOrder | crates/soroban-upgrades-core/src/lib.rs:2644-2776 | steps are numbered from one in one fixed order, each with the text of its own command |
| PlanProperties.AcceptedIffCanonical | crates/soroban-upgrades-core/src/lib.rs:2814-2906 | a plan is accepted iff it is, digest included, what creation gives for a fresh validation of its own evidence |
| PlanProperties.CreatedPlansAreAccepted | crates/soroban-upgrades-core/src/lib.rs:2537-2906 | every plan made from a validation report is accepted |
| PlanProperties.AcceptedPlansAreDetermined | crates/soroban-upgrades-core/src/lib.rs:2894-2904 | accepted plans that agree on evidence and request are equal |
| PlanProperties.RefusedByDigestIffCanonicalOtherwise | crates/soroban-upgrades-core/src/lib.rs:2824-2827 | the answer "digest differs" is given iff everything but the digest is canonical |
| PlanProperties.AcceptedPlansAreSound | crates/soroban-upgrades-core/src/lib.rs:2829-2906 | an accepted plan embeds an acceptable upgrade, its command texts read back as their programs and arguments, its text without the digest holds no private key |
| PlanContents.CreatedPlanFollowsItsEvidence | crates/soroban-upgrades-core/src/lib.rs:2644-2805 | the written-out commands of every created plan: fetch the source, upload the target, simulate and execute the same upgrade to the target's hash, migrate, fetch the target, check invariants; hashes, versions and status are those of the evidence |
| PlanContents.AcceptedPlansFollowTheirEvidence | crates/soroban-upgrades-core/src/lib.rs:2814-2906 | the same for every plan that the verifier accepts |
| PlanContents.RefusalNamesTheFirstUnmet | crates/soroban-upgrades-core/src/lib.rs:2537-2643 | creation refuses for the first requirement that is not met, in order, with a reason that is so |
| PlanContents.VerifierTellsWhy | crates/soroban-upgrades-core/src/lib.rs:2829-2906 | the verifier tells the first thing that is wrong, and a wrong upload argument is really missing or different |
| PlanProperties.PlanIsMadeIffPlannable | crates/soroban-upgrades-core/src/lib.rs:2537-2805 | a plan is made iff the upgrade is acceptable, evidence is complete and bound to the network, supplied texts are clean, both upgrade signatures are standard, the migration is settled and no text holds a key |
| PlanProperties.StandardUpgrade | crates/soroban-upgrades-core/src/lib.rs:2988-3031 | the entrypoint check passes iff the input names, as a set, are the two standard ones, their last types are standard, and the function reaches the WASM update |
| SpecProperties.StandardUpgradeIffSignature | crates/soroban-upgrades-core/src/lib.rs:2988-3031 | for derived artifacts it passes iff the spec has `upgrade` with exactly the two standard inputs, in either order, and it reaches the WASM update |
| PlanProperties.FittingCall | crates/soroban-upgrades-core/src/lib.rs:3033-3075 | the argument check passes iff each declared input gets exactly one argument without private keys |
| SpecProperties.CallFitsIffSignature | crates/soroban-upgrades-core/src/lib.rs:3033-3075 | for derived artifacts a call is accepted iff the spec has the function and the call gives each input one argument and no others, without private keys |
| PlanProperties.MigrationRequiredIffLayoutChanged | crates/soroban-upgrades-core/src/lib.rs:2600-2608 | for a safe report a migration is required iff some declared key changed its layout |
| PlanProperties.MigrationIsNeverDropped | crates/soroban-upgrades-core/src/lib.rs:2600-2749 | then the plan has exactly one migration step, between execution and verification, calling the exported function that every declaration names, with every argument |
| PlanProperties.FlagsAt | crates/soroban-upgrades-core/src/lib.rs:2737-2740 | the flag list holds each argument's name and value at its place |
| Counter.Instance.LoadV2 | examples/counter-v2/src/lib.rs:107-127 | the in-place conversion of a version 1 layout, or the stored version 2 value |
| Counter.Instance.RunV1 | examples/counter-v1/src/lib.rs:47-66 | the version 1 calls as functions of the storage |
| Counter.Instance.RunV2 | examples/counter-v2/src/lib.rs:61-97 | the version 2 calls as functions of the storage |
| Counter.Instance.RequireAdmin | examples/counter-v2/src/lib.rs:99-105 | no trap iff the operator is the stored admin and signed; otherwise the trap of the first failing test |
| CounterRuns.OnlyTheAdminOperates | examples/counter-v2/src/lib.rs:61-105 | after every run, pausing, migrating and upgrading succeed iff the deployed admin calls and signs, and change nothing otherwise |
| Counter.Instance.Invoke | examples/counter-v2/src/lib.rs:61-97 | a call with roll-back of a trapped one |
| CounterRuns.LazyEqualsEager | examples/counter-v2/src/lib.rs:61-127 | any run gives the same replies and traps with or without migration first, and one more load leaves the same storage |
| CounterRuns.LazyEqualsEagerAfterEveryRun | examples/counter-v2/src/lib.rs:86-127 | the same from every storage that a deployment can reach |
| CounterRuns.EveryRunIsSound | examples/counter-v1/src/lib.rs:37-57 | in every run across the upgrade the schema version tells the layout, no read fails to decode, the admin never changes, the count is the number of successful increments within u32 |
| CounterBehaviour.EveryReplyIsDetermined | examples/counter-v2/src/lib.rs:61-127 | every reply of every run from the calls and replies before it: reading gives the last flag and the count, counting traps iff paused or at the limit, an upgrade installs what it names |
| CounterBehaviour.PausedIsTheLastSetting | examples/counter-v2/src/lib.rs:74-83 | the flag is that of the last successful setting, false before any; the count is the number of successful increments |
| CounterRuns.UpgradeKeepsTheCount | examples/counter-v2/src/lib.rs:107-127 | after every run that stays at version 1, version 2 counts what version 1 counts |

## Left out

- Gate.ValidateWithHistory: a report holds a set of findings, so the order in which they are listed (lib.rs:1158), and a finding that is listed twice, are not modelled.
- Titles, details and remediation texts of findings, and the wording of the evidence coverage, are reduced to codes, severities, subjects and statuses; coverage entries that are the same in every report are not modelled.
- SHA-256, JSON text, contract-id checksums, seed checksums and version parsing are parameters; nothing is assumed about them beyond what a theorem states.
- `SpecEntries` writes out the JSON form of spec entries. The serializer itself is the stellar-xdr library: the member names that lib.rs reads are taken from there (`function_v0`, `udt_struct_v0`, `name`, `type_`, `bytes_n`, `option`), the others from the XDR definitions of Contract Spec entries. Names that are not UTF-8 are not modelled.
- PlanProperties.AcceptedPlansAreSound: says that the plan's text without its digest holds no private key, which is the text that the code scans; the digest is hexadecimal text from a parameter.
- PlanProperties.StandardUpgrade: repeated input names, which no derived artifact has, collapse in the check as they do in the code.
- WASM and XDR decoding, section counts, the artifact size limit and metadata reading are not part of this model; it starts from imports, exports, operators and spec entries.
- Integers of the source that are only stored or compared (protocol and format versions, sizes, function indices) are unbounded here; the counter's u32 and the u32 limit on imports are explicit.
- Shell.RenderedCommandReadsBack: is about word splitting and quote removal; a first word that the shell would take for an assignment or a reserved word, and alias substitution, are not modelled.
- CallRuns.RunsStayWithinEvidence: a host import that calls back into the contract counts as a new run of the export it calls.
- `validate`, `validate_with_context` and `create_plan` only fill in defaults for the modelled functions.
- CounterRuns.EveryRunIsSound: covers installed upgrades that stay at a version or go from version 1 to version 2; downgrades and foreign code that an upgrade installs are not modelled, nor is storage expiry. Refused upgrade calls may name any executable.
- The command-line program, `stellar` subprocesses, file reading, scripts, the CAP-0086 runtime witness and the deliberately unsafe example contracts are not modelled.
