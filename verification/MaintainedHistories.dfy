/** The other direction of the chain theorems: a chain that never reinterprets or reuses a field
    can always be given histories that the check accepts. */
module MaintainedHistories {
  import opened Wrappers
  import JsonValues
  import opened Artifacts
  import opened SchemaHistories
  import opened ReleaseChains

  // ----- Keeping the history, release by release -----

  function TypeHistoryOf(h: SchemaHistory, t: string): TypeHistory {
    if t in h.types then h.types[t] else TypeHistory(map[], {})
  }

  function FieldsOf(structs: Structs, t: string): map<string, JsonValues.Json> {
    if t in structs then structs[t] else map[]
  }

  predicate Removed(source: Structs, target: Structs, t: string, f: string) {
    HasField(source, t, f) && !HasField(target, t, f)
  }

  /** Records the new fields as first seen in `version`, and retires and reserves the removed ones. */
  function MaintainType(h: SchemaHistory, source: Structs, target: Structs, version: string, t: string): TypeHistory {
    var kept, fields := TypeHistoryOf(h, t), FieldsOf(target, t);
    TypeHistory(
      map f | f in kept.fields.Keys + fields.Keys ::
        if f !in kept.fields then HistoricalField(fields[f], version, None)
        else if Removed(source, target, t, f) then kept.fields[f].(retiredIn := Some(version))
        else kept.fields[f],
      kept.reservedFields + set f | f in FieldsOf(source, t) && Removed(source, target, t, f))
  }

  function Maintain(h: SchemaHistory, source: Structs, target: Structs, version: string): SchemaHistory {
    SchemaHistory(1, true, map t | t in h.types.Keys + target.Keys :: MaintainType(h, source, target, version, t),
      h.sourceSha256)
  }

  const NO_HISTORY := SchemaHistory(1, true, map[], "")

  /** The history after release `k`, when every release maintains the one before it. */
  function HistoryAfter(releases: seq<Release>, k: nat): SchemaHistory
    requires k < |releases|
  {
    var version := releases[k].VersionText();
    if k == 0 then Maintain(NO_HISTORY, map[], releases[0].structs, version)
    else Maintain(HistoryAfter(releases, k - 1), releases[k - 1].structs, releases[k].structs, version)
  }

  // ----- Chains without reinterpretation or reuse -----

  ghost predicate NeverReinterprets(releases: seq<Release>, t: string, f: string) {
    forall i, j :: Has(releases, i, t, f) && Has(releases, j, t, f) ==>
      TypeIn(releases, i, t, f) == TypeIn(releases, j, t, f)
  }

  ghost predicate NeverReturns(releases: seq<Release>, t: string, f: string) {
    forall i, j, k :: i < j < k && Has(releases, i, t, f) && Has(releases, k, t, f) ==> Has(releases, j, t, f)
  }

  ghost predicate FieldsKeepTheirMeaning(releases: seq<Release>) {
    forall t, f :: NeverReinterprets(releases, t, f) && NeverReturns(releases, t, f)
  }

  ghost predicate EverHad(releases: seq<Release>, k: int, t: string, f: string) {
    exists i :: i <= k && Has(releases, i, t, f)
  }

  /** What a maintained history says about one field after release `k`. */
  ghost predicate Tracks(versions: VersionRanks, releases: seq<Release>, k: nat, h: SchemaHistory, t: string, f: string)
    requires IncreasingVersions(versions, releases) && k < |releases|
  {
    var r := RecordOf(h, t, f);
    && (r.Some? <==> EverHad(releases, k, t, f))
    && (IsReserved(h, t, f) <==> r.Some? && r.value.retiredIn.Some?)
    && (r.Some? ==>
          && (forall i :: i <= k && Has(releases, i, t, f) ==> r.value.valueType == TypeIn(releases, i, t, f))
          && r.value.firstSeen in versions && versions[r.value.firstSeen] <= RankOf(versions, releases, k)
          && (r.value.retiredIn.None? <==> Has(releases, k, t, f))
          && (r.value.retiredIn.Some? ==>
                && r.value.retiredIn.value in versions
                && versions[r.value.firstSeen] <= versions[r.value.retiredIn.value]))
  }

  ghost predicate TracksAll(versions: VersionRanks, releases: seq<Release>, k: nat, h: SchemaHistory)
    requires IncreasingVersions(versions, releases) && k < |releases|
  {
    && h.formatVersion == 1 && h.complete
    && releases[k].structs.Keys <= h.types.Keys
    && forall t, f :: Tracks(versions, releases, k, h, t, f)
  }

  lemma MaintainedRecord(h: SchemaHistory, source: Structs, target: Structs, version: string, t: string, f: string)
    ensures var h' := Maintain(h, source, target, version);
            && RecordOf(h', t, f) ==
                 (if RecordOf(h, t, f).Some? then
                    if Removed(source, target, t, f) then Some(RecordOf(h, t, f).value.(retiredIn := Some(version)))
                    else RecordOf(h, t, f)
                  else if HasField(target, t, f) then Some(HistoricalField(target[t][f], version, None))
                  else None)
            && (IsReserved(h', t, f) <==>
                  IsReserved(h, t, f) || ((t in h.types || t in target) && Removed(source, target, t, f)))
  {
  }

  lemma FirstHistoryTracks(versions: VersionRanks, releases: seq<Release>)
    requires IncreasingVersions(versions, releases) && releases != []
    ensures TracksAll(versions, releases, 0, HistoryAfter(releases, 0))
  {
    forall t, f ensures Tracks(versions, releases, 0, HistoryAfter(releases, 0), t, f) {
      MaintainedRecord(NO_HISTORY, map[], releases[0].structs, releases[0].VersionText(), t, f);
      assert EverHad(releases, 0, t, f) <==> Has(releases, 0, t, f);
    }
  }

  /** Maintaining the history across one step passes the check and keeps on tracking the chain. */
  lemma StepMaintains(versions: VersionRanks, releases: seq<Release>, k: nat, h: SchemaHistory, t: string, f: string)
    requires IncreasingVersions(versions, releases) && k + 1 < |releases|
    requires NeverReinterprets(releases, t, f) && NeverReturns(releases, t, f)
    requires Tracks(versions, releases, k, h, t, f) && releases[k].structs.Keys <= h.types.Keys
    ensures var source, target, version := releases[k].structs, releases[k + 1].structs, releases[k + 1].VersionText();
            var h' := Maintain(h, source, target, version);
            && Tracks(versions, releases, k + 1, h', t, f) && KeepsRecord(h, h', t, f)
            && RecordIsSound(versions, h', t, f) && SourceIsRecorded(h', source, t, f)
            && TargetIsLive(h', source, target, version, t, f) && RemovalIsRetired(h', source, target, version, t, f)
  {
    MaintainedRecord(h, releases[k].structs, releases[k + 1].structs, releases[k + 1].VersionText(), t, f);
    RanksIncrease(versions, releases, k, k + 1);
    assert Has(releases, k, t, f) ==> EverHad(releases, k, t, f);
    assert HasField(releases[k].structs, t, f) ==> Has(releases, k, t, f);
    assert EverHad(releases, k + 1, t, f) <==> EverHad(releases, k, t, f) || Has(releases, k + 1, t, f);
    if EverHad(releases, k, t, f) {
      var i :| i <= k && Has(releases, i, t, f);
      assert Has(releases, k + 1, t, f) ==> Has(releases, k, t, f);
    }
  }

  lemma {:induction false} HistoryTracks(versions: VersionRanks, releases: seq<Release>, k: nat)
    requires IncreasingVersions(versions, releases) && FieldsKeepTheirMeaning(releases) && k < |releases|
    ensures TracksAll(versions, releases, k, HistoryAfter(releases, k))
    ensures k > 0 ==> Consistent(versions, releases[k - 1], releases[k], HistoryAfter(releases, k))
    ensures k > 0 ==> AppendsTo(HistoryAfter(releases, k - 1), HistoryAfter(releases, k))
  {
    hide Tracks, KeepsRecord, RecordIsSound, SourceIsRecorded, TargetIsLive, RemovalIsRetired, NeverReinterprets,
         NeverReturns, VersionIncreasesAt, MaintainType;
    if k == 0 {
      FirstHistoryTracks(versions, releases);
    } else {
      HistoryTracks(versions, releases, k - 1);
      var h, h' := HistoryAfter(releases, k - 1), HistoryAfter(releases, k);
      var source, target, version := releases[k - 1].structs, releases[k].structs, releases[k].VersionText();
      forall t, f
        ensures Tracks(versions, releases, k, h', t, f) && KeepsRecord(h, h', t, f)
        ensures RecordIsSound(versions, h', t, f) && SourceIsRecorded(h', source, t, f)
        ensures TargetIsLive(h', source, target, version, t, f) && RemovalIsRetired(h', source, target, version, t, f)
      {
        assert NeverReinterprets(releases, t, f) && Tracks(versions, releases, k - 1, h, t, f);
        StepMaintains(versions, releases, k - 1, h, t, f);
      }
    }
  }

  /** A checked chain never reinterprets a field and never brings one back. */
  lemma CheckedChainsKeepMeaning(versions: VersionRanks, releases: seq<Release>, histories: seq<SchemaHistory>)
    requires CheckedChain(versions, releases, histories)
    ensures FieldsKeepTheirMeaning(releases)
  {
    forall t, f ensures NeverReinterprets(releases, t, f) && NeverReturns(releases, t, f) {
      forall i, j | Has(releases, i, t, f) && Has(releases, j, t, f)
        ensures TypeIn(releases, i, t, f) == TypeIn(releases, j, t, f)
      {
        NoReinterpretation(versions, releases, histories, i, j, t, f);
      }
      forall i, j, k | i < j < k && Has(releases, i, t, f) && Has(releases, k, t, f) ensures Has(releases, j, t, f) {
        if !Has(releases, j, t, f) { NoReuse(versions, releases, histories, i, j, k, t, f); }
      }
    }
  }

  /** The history check is exact on chains: with increasing versions, append-only histories that pass
      every step exist exactly when no field is ever reinterpreted and none ever returns. */
  lemma ChainIsCheckableIffFieldsKeepTheirMeaning(versions: VersionRanks, releases: seq<Release>)
    requires IncreasingVersions(versions, releases) && releases != []
    ensures (exists histories :: CheckedChain(versions, releases, histories)) <==> FieldsKeepTheirMeaning(releases)
  {
    hide FieldsKeepTheirMeaning, VersionIncreasesAt, Consistent, ErrorFree, AppendsTo, TracksAll, HistoryAfter;
    if histories :| CheckedChain(versions, releases, histories) {
      CheckedChainsKeepMeaning(versions, releases, histories);
    }
    if FieldsKeepTheirMeaning(releases) {
      var n := |releases| - 1;
      var histories := seq(n, k requires 0 <= k < n => HistoryAfter(releases, k + 1));
      forall k ensures StepChecked(versions, releases, histories, k) {
        if 0 <= k < n {
          HistoryTracks(versions, releases, k + 1);
          ErrorFreeIffConsistent(versions, releases[k], releases[k + 1], histories[k]);
        }
      }
      forall k ensures HistoryAppends(histories, k) {
        if 0 < k < n { HistoryTracks(versions, releases, k + 1); }
      }
      assert CheckedChain(versions, releases, histories);
    }
  }
}
