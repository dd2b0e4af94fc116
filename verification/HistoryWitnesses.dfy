/** What the history check does not look at: releases that it accepts and whose histories are wrong. */
module HistoryWitnesses {
  import opened Wrappers
  import opened JsonValues
  import opened Artifacts
  import opened SpecEntries
  import opened ContractSpecs
  import opened SchemaHistories
  import opened ReleaseChains

  /** Version ranks of a library that orders these three releases as it should. */
  ghost predicate OrdersReleases(versions: VersionRanks) {
    && "1.0.0" in versions && "2.0.0" in versions && "3.0.0" in versions
    && versions["1.0.0"] < versions["2.0.0"] < versions["3.0.0"]
  }

  /** One struct T with one field f of type u32. */
  const ONE_STRUCT := [StructSpec("", "", "T", [Field("", "f", Basic("u32"))])]

  function ArtifactOf(spec: seq<SpecEntry>, version: string): Artifact {
    Artifact(1, "", 0, 27, 0, map["binver" := version], {}, map[], map[], Table(spec, UserTypes), [], [], map[])
  }

  function HistoryOf(record: HistoricalField): SchemaHistory {
    SchemaHistory(1, true, map["T" := TypeHistory(map["f" := record], {})], "")
  }

  const NO_STRUCT: Structs := map[]
  const STRUCT_T: Structs := map["T" := map["f" := Text("u32")]]

  lemma OneStructIsDerived(version: string)
    ensures DerivedFrom(ArtifactOf(ONE_STRUCT, version), ONE_STRUCT)
  {
    hide Canonical;
    var e := ONE_STRUCT[0];
    assert ONE_STRUCT == [e] && ONE_STRUCT[..0] == [];
    assert Table([], Functions) == map[] && Table([], Events) == map[];
    assert BoundariesOf(e) == {} && ReferencesOf(e) == {};
    assert AllBoundaries(ONE_STRUCT) == {} && AllReferences(ONE_STRUCT) == {};
  }

  lemma OneFieldIsRead()
    ensures FieldTable(ONE_STRUCT[0].fields) == map["f" := Text("u32")]
  {
    assert FieldTable(ONE_STRUCT[0].fields[..0]) == map[];
  }

  lemma OneStructIsRead(version: string)
    ensures ReleaseOf(ArtifactOf(ONE_STRUCT, version)) == Release(Some(version), STRUCT_T)
  {
    hide DerivedFrom, ArtifactStructs, Table, FieldTable;
    var a, e := ArtifactOf(ONE_STRUCT, version), ONE_STRUCT[0];
    OneStructIsDerived(version);
    OneFieldIsRead();
    assert e in ONE_STRUCT && forall d :: d in ONE_STRUCT ==> d == e;
    forall t ensures t in ArtifactStructs(a) <==> t == "T" {
      HistoryReadsTheStructs(a, ONE_STRUCT, t);
    }
    HistoryReadsTheStructs(a, ONE_STRUCT, "T");
    assert ArtifactStructs(a) == map["T" := map["f" := Text("u32")]];
  }

  lemma NothingIsRead(version: string)
    ensures DerivedFrom(ArtifactOf([], version), [])
    ensures ReleaseOf(ArtifactOf([], version)) == Release(Some(version), NO_STRUCT)
  {
  }

  /** A live record suits two releases that both have the field, or both have nothing. */
  lemma LiveRecordSuits(versions: VersionRanks, from: string, to: string, structs: Structs, firstSeen: string)
    requires structs == NO_STRUCT || structs == STRUCT_T
    requires firstSeen in versions
    ensures var h := HistoryOf(HistoricalField(Text("u32"), firstSeen, None));
            Consistent(versions, Release(Some(from), structs), Release(Some(to), structs), h)
  {
  }

  lemma TwoReleases(versions: VersionRanks, from: Release, to: Release, h: SchemaHistory)
    requires Consistent(versions, from, to, h) && VersionsIncrease(versions, from, to)
    ensures CheckedChain(versions, [from, to], [h]) && IncreasingVersions(versions, [from, to])
  {
    hide ErrorFree, Consistent;
    ErrorFreeIffConsistent(versions, from, to, h);
    forall k ensures StepChecked(versions, [from, to], [h], k) {}
    forall k ensures VersionIncreasesAt(versions, [from, to], k) {}
  }

  /** The condition on baseline fields is needed: a history that dates a field of the first release
      later than both releases passes the check, and then declares the field dead while it is there. */
  lemma BaselineFirstSeenIsNotChecked(versions: VersionRanks)
    requires OrdersReleases(versions)
    ensures var source, target := ArtifactOf(ONE_STRUCT, "1.0.0"), ArtifactOf(ONE_STRUCT, "2.0.0");
            var releases := [ReleaseOf(source), ReleaseOf(target)];
            var h := HistoryOf(HistoricalField(Text("u32"), "3.0.0", None));
            && DerivedFrom(source, ONE_STRUCT) && DerivedFrom(target, ONE_STRUCT)
            && NoErrors(HistoryFindings(versions, ReleaseOf(source), ReleaseOf(target), h))
            && CheckedChain(versions, releases, [h]) && IncreasingVersions(versions, releases)
            && RecordOf(h, "T", "f").Some?
            && forall k: nat :: k < 2 ==>
                 && Has(releases, k, "T", "f")
                 && !DeclaredLive(versions, RecordOf(h, "T", "f").value, RankOf(versions, releases, k))
  {
    hide DerivedFrom, ArtifactOf, Consistent, HistoryFindings, StepChecked, HistoryAppends, VersionIncreasesAt,
         ReleaseOf;
    OneStructIsDerived("1.0.0");
    OneStructIsDerived("2.0.0");
    OneStructIsRead("1.0.0");
    OneStructIsRead("2.0.0");
    var from, to := Release(Some("1.0.0"), STRUCT_T), Release(Some("2.0.0"), STRUCT_T);
    var h := HistoryOf(HistoricalField(Text("u32"), "3.0.0", None));
    LiveRecordSuits(versions, "1.0.0", "2.0.0", STRUCT_T, "3.0.0");
    ErrorFreeIffConsistent(versions, from, to, h);
    TwoReleases(versions, from, to, h);
  }

  /** The condition on other records is needed too: a record of a field that no release ever had passes
      the check, and then declares it live. */
  lemma PhantomRecordsAreNotChecked(versions: VersionRanks)
    requires OrdersReleases(versions)
    ensures var source, target := ArtifactOf([], "1.0.0"), ArtifactOf([], "2.0.0");
            var releases := [ReleaseOf(source), ReleaseOf(target)];
            var h := HistoryOf(HistoricalField(Text("u32"), "1.0.0", None));
            && DerivedFrom(source, []) && DerivedFrom(target, [])
            && NoErrors(HistoryFindings(versions, ReleaseOf(source), ReleaseOf(target), h))
            && CheckedChain(versions, releases, [h]) && IncreasingVersions(versions, releases)
            && RecordOf(h, "T", "f").Some? && NeverHad(releases, "T", "f")
            && forall k: nat :: k < 2 ==>
                 DeclaredLive(versions, RecordOf(h, "T", "f").value, RankOf(versions, releases, k))
  {
    hide DerivedFrom, ArtifactOf, Consistent, HistoryFindings, StepChecked, HistoryAppends, VersionIncreasesAt,
         ReleaseOf;
    NothingIsRead("1.0.0");
    NothingIsRead("2.0.0");
    var from, to := Release(Some("1.0.0"), NO_STRUCT), Release(Some("2.0.0"), NO_STRUCT);
    var h := HistoryOf(HistoricalField(Text("u32"), "1.0.0", None));
    LiveRecordSuits(versions, "1.0.0", "2.0.0", NO_STRUCT, "1.0.0");
    ErrorFreeIffConsistent(versions, from, to, h);
    TwoReleases(versions, from, to, h);
  }
}
