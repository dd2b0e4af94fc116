/** What the history check guarantees over a whole chain of releases. */
module ReleaseChains {
  import opened Wrappers
  import JsonValues
  import opened Artifacts
  import opened SchemaHistories

  // ----- One step: when the history check reports no error -----

  ghost predicate ErrorFree(versions: VersionRanks, source: Release, target: Release, h: SchemaHistory) {
    NoErrors(HistoryFindings(versions, source, target, h))
  }

  /** A record has sound versions, and exactly the retired fields are reserved. */
  ghost predicate RecordIsSound(versions: VersionRanks, h: SchemaHistory, t: string, f: string) {
    var r := RecordOf(h, t, f);
    && (r.Some? ==>
          && VersionsParse(versions, r.value)
          && (r.value.retiredIn.Some? ==>
                versions[r.value.firstSeen] <= versions[r.value.retiredIn.value] && IsReserved(h, t, f)))
    && (IsReserved(h, t, f) ==> r.Some? && r.value.retiredIn.Some?)
  }

  /** The record fixes the type of a field that the source has. */
  ghost predicate SourceIsRecorded(h: SchemaHistory, source: Structs, t: string, f: string) {
    HasField(source, t, f) ==> RecordOf(h, t, f).Some? && RecordOf(h, t, f).value.valueType == source[t][f]
  }

  /** A field of the target is live, keeps its type and, if new, is first seen in this release. */
  ghost predicate TargetIsLive(
    h: SchemaHistory, source: Structs, target: Structs, version: string, t: string, f: string)
  {
    HasField(target, t, f) ==>
      && !IsReserved(h, t, f) && RecordOf(h, t, f).Some?
      && var r := RecordOf(h, t, f).value;
         && r.retiredIn.None? && r.valueType == target[t][f]
         && (!HasField(source, t, f) ==> r.firstSeen == version)
  }

  /** A field that the target drops is retired in this very release, and reserved. */
  ghost predicate RemovalIsRetired(
    h: SchemaHistory, source: Structs, target: Structs, version: string, t: string, f: string)
  {
    HasField(source, t, f) && !HasField(target, t, f) ==>
      RecordOf(h, t, f).Some? && RecordOf(h, t, f).value.retiredIn == Some(version) && IsReserved(h, t, f)
  }

  ghost predicate RecordsAreSound(versions: VersionRanks, h: SchemaHistory) {
    forall t, f :: RecordIsSound(versions, h, t, f)
  }

  ghost predicate CoversSource(h: SchemaHistory, source: Structs) {
    forall t, f :: SourceIsRecorded(h, source, t, f)
  }

  ghost predicate CoversTarget(h: SchemaHistory, source: Structs, target: Structs, version: string) {
    target.Keys <= h.types.Keys && forall t, f :: TargetIsLive(h, source, target, version, t, f)
  }

  ghost predicate RetiresRemoved(h: SchemaHistory, source: Structs, target: Structs, version: string) {
    forall t, f :: RemovalIsRetired(h, source, target, version, t, f)
  }

  ghost predicate Consistent(versions: VersionRanks, source: Release, target: Release, h: SchemaHistory) {
    var s, t, v := source.structs, target.structs, target.VersionText();
    && h.formatVersion == 1 && h.complete
    && RecordsAreSound(versions, h) && CoversSource(h, s) && CoversTarget(h, s, t, v) && RetiresRemoved(h, s, t, v)
  }

  lemma RecordErrors(versions: VersionRanks, h: SchemaHistory)
    ensures NoErrors(AllRecordFindings(versions, h.types, h.types.Keys)) <==> RecordsAreSound(versions, h)
  {
    var all := AllRecordFindings(versions, h.types, h.types.Keys);
    forall t, f ensures NoErrors(all) ==> RecordIsSound(versions, h, t, f) {
      if t in h.types {
        var found := TypeRecordFindings(versions, t, h.types[t]);
        assert forall x :: x in found ==> x in all;
        if f in h.types[t].fields {
          assert forall x :: x in RecordFindings(versions, t, h.types[t], f) ==> x in found;
          OneRecord(versions, t, h.types[t], f);
        }
        if f in h.types[t].reservedFields {
          assert forall x :: x in ReservationFindings(t, h.types[t], f) ==> x in found;
          OneReservation(t, h.types[t], f);
        }
      }
    }
    if RecordsAreSound(versions, h) {
      forall t, f | t in h.types
        ensures f in h.types[t].fields ==> NoErrors(RecordFindings(versions, t, h.types[t], f))
        ensures f in h.types[t].reservedFields ==> NoErrors(ReservationFindings(t, h.types[t], f))
      {
        assert RecordIsSound(versions, h, t, f);
        if f in h.types[t].fields { OneRecord(versions, t, h.types[t], f); }
      }
      assert forall t :: t in h.types ==> NoErrors(TypeRecordFindings(versions, t, h.types[t]));
    }
  }

  lemma OneRecord(versions: VersionRanks, t: string, th: TypeHistory, f: string)
    requires f in th.fields
    ensures NoErrors(RecordFindings(versions, t, th, f)) <==>
              var r := th.fields[f];
              && VersionsParse(versions, r)
              && (r.retiredIn.Some? ==>
                    versions[r.firstSeen] <= versions[r.retiredIn.value] && f in th.reservedFields)
  {
    var all := RecordFindings(versions, t, th, f);
    assert NoErrors(all) ==>
      Fail(HIS013, [t, f]) !in all && Fail(HIS014, [t, f]) !in all && Fail(HIS015, [t, f]) !in all;
  }

  lemma OneReservation(t: string, th: TypeHistory, f: string)
    ensures NoErrors(ReservationFindings(t, th, f)) <==> f in th.fields && th.fields[f].retiredIn.Some?
  {
    assert NoErrors(ReservationFindings(t, th, f)) ==> Fail(HIS016, [t, f]) !in ReservationFindings(t, th, f);
  }

  lemma SourceErrors(h: SchemaHistory, source: Structs)
    ensures NoErrors(AllSourceFindings(h, source, source.Keys)) <==> CoversSource(h, source)
  {
    var all := AllSourceFindings(h, source, source.Keys);
    forall t, f ensures NoErrors(all) ==> SourceIsRecorded(h, source, t, f) {
      if HasField(source, t, f) {
        var found := SourceFieldFindings(h, t, f, source[t][f]);
        assert forall x :: x in found ==> x in all;
        assert NoErrors(all) ==> Fail(HIS002, [t, f]) !in found && Fail(HIS003, [t, f]) !in found;
      }
    }
    if CoversSource(h, source) {
      forall t, f | t in source && f in source[t] ensures SourceFieldFindings(h, t, f, source[t][f]) == {} {
        assert SourceIsRecorded(h, source, t, f);
      }
    }
  }

  lemma OneTargetField(h: SchemaHistory, source: Structs, target: Structs, version: string, t: string, f: string)
    requires HasField(target, t, f)
    ensures NoErrors(TargetFieldFindings(h, source, version, t, f, target[t][f]))
       <==> TargetIsLive(h, source, target, version, t, f)
  {
    var all := TargetFieldFindings(h, source, version, t, f, target[t][f]);
    assert NoErrors(all) ==>
      && Fail(HIS005, [t, f]) !in all && Fail(HIS006, [t, f]) !in all && Fail(HIS007, [t, f]) !in all
      && Fail(HIS008, [t, f]) !in all && Fail(HIS009, [t, f]) !in all;
  }

  lemma TargetErrors(h: SchemaHistory, source: Structs, target: Structs, version: string)
    ensures NoErrors(AllTargetFindings(h, source, target, version, target.Keys))
       <==> CoversTarget(h, source, target, version)
  {
    var all := AllTargetFindings(h, source, target, version, target.Keys);
    forall t | t in target ensures NoErrors(all) ==> t in h.types {
      var found := TypeTargetFindings(h, source, version, t, target[t]);
      assert forall x :: x in found ==> x in all;
      assert NoErrors(all) ==> Fail(HIS004, [t]) !in found;
    }
    if NoErrors(all) {
      forall t, f ensures TargetIsLive(h, source, target, version, t, f) {
        if HasField(target, t, f) {
          var found := TypeTargetFindings(h, source, version, t, target[t]);
          assert forall x :: x in TargetFieldFindings(h, source, version, t, f, target[t][f]) ==> x in found;
          assert forall x :: x in found ==> x in all;
          OneTargetField(h, source, target, version, t, f);
        }
      }
    }
    if CoversTarget(h, source, target, version) {
      forall t, f | t in target && f in target[t]
        ensures NoErrors(TargetFieldFindings(h, source, version, t, f, target[t][f]))
      {
        assert TargetIsLive(h, source, target, version, t, f);
        OneTargetField(h, source, target, version, t, f);
      }
      assert forall t :: t in target ==> t in h.types && NoErrors(TypeTargetFindings(h, source, version, t, target[t]));
    }
  }

  lemma RemovedErrors(h: SchemaHistory, source: Structs, target: Structs, version: string)
    ensures NoErrors(AllRemovedFindings(h, source, target, version, source.Keys))
       <==> RetiresRemoved(h, source, target, version)
  {
    var all := AllRemovedFindings(h, source, target, version, source.Keys);
    forall t, f ensures NoErrors(all) ==> RemovalIsRetired(h, source, target, version, t, f) {
      if HasField(source, t, f) && !HasField(target, t, f) {
        var found := RemovedFieldFindings(h, target, version, t, f);
        assert forall x :: x in found ==> x in all;
        assert NoErrors(all) ==> Fail(HIS010, [t, f]) !in found;
      }
    }
    if RetiresRemoved(h, source, target, version) {
      forall t, f | t in source && f in source[t] ensures NoErrors(RemovedFieldFindings(h, target, version, t, f)) {
        assert RemovalIsRetired(h, source, target, version, t, f);
      }
    }
  }

  /** The history check is error free exactly when the history is consistent with the step. */
  lemma ErrorFreeIffConsistent(versions: VersionRanks, source: Release, target: Release, h: SchemaHistory)
    ensures ErrorFree(versions, source, target, h) <==> Consistent(versions, source, target, h)
  {
    var s, t, v := source.structs, target.structs, target.VersionText();
    var all := HistoryFindings(versions, source, target, h);
    assert NoErrors(all) ==> Fail(HIS001, []) !in all && Fail(HIS012, []) !in all;
    RecordErrors(versions, h);
    SourceErrors(h, s);
    TargetErrors(h, s, t, v);
    RemovedErrors(h, s, t, v);
    if h.formatVersion == 1 && h.complete {
      FourParts(AllRecordFindings(versions, h.types, h.types.Keys), AllSourceFindings(h, s, s.Keys),
                AllTargetFindings(h, s, t, v, t.Keys), AllRemovedFindings(h, s, t, v, s.Keys));
    }
  }

  lemma FourParts(a: set<Finding>, b: set<Finding>, c: set<Finding>, d: set<Finding>)
    ensures NoErrors({} + a + b + c + d) <==> NoErrors(a) && NoErrors(b) && NoErrors(c) && NoErrors(d)
  {
  }

  // ----- Chains of releases -----

  /** What a later history keeps about a field: its type, first release and retirement, and its reservation. */
  ghost predicate KeepsRecord(h: SchemaHistory, h': SchemaHistory, t: string, f: string) {
    && (RecordOf(h, t, f).Some? ==>
          && RecordOf(h', t, f).Some?
          && var r, r' := RecordOf(h, t, f).value, RecordOf(h', t, f).value;
             && r'.valueType == r.valueType && r'.firstSeen == r.firstSeen
             && (r.retiredIn.Some? ==> r'.retiredIn == r.retiredIn))
    && (IsReserved(h, t, f) ==> IsReserved(h', t, f))
  }

  ghost predicate AppendsTo(h: SchemaHistory, h': SchemaHistory) {
    forall t, f :: KeepsRecord(h, h', t, f)
  }

  /** Release k + 1 was checked against release k with the history that was current then. */
  ghost predicate StepChecked(versions: VersionRanks, releases: seq<Release>, histories: seq<SchemaHistory>, k: int) {
    0 <= k < |histories| < |releases| ==> ErrorFree(versions, releases[k], releases[k + 1], histories[k])
  }

  ghost predicate HistoryAppends(histories: seq<SchemaHistory>, k: int) {
    0 < k < |histories| ==> AppendsTo(histories[k - 1], histories[k])
  }

  ghost predicate CheckedChain(versions: VersionRanks, releases: seq<Release>, histories: seq<SchemaHistory>) {
    && |releases| == |histories| + 1
    && (forall k :: StepChecked(versions, releases, histories, k))
    && (forall k :: HistoryAppends(histories, k))
  }

  ghost predicate Has(releases: seq<Release>, k: int, t: string, f: string) {
    0 <= k < |releases| && HasField(releases[k].structs, t, f)
  }

  ghost function TypeIn(releases: seq<Release>, k: int, t: string, f: string): JsonValues.Json
    requires Has(releases, k, t, f)
  {
    releases[k].structs[t][f]
  }

  /** What one checked step says about one field. */
  lemma StepSays(
    versions: VersionRanks, releases: seq<Release>, histories: seq<SchemaHistory>, k: nat, t: string, f: string)
    requires CheckedChain(versions, releases, histories) && k < |histories|
    ensures var r := RecordOf(histories[k], t, f);
            && (Has(releases, k, t, f) ==> r.Some? && r.value.valueType == TypeIn(releases, k, t, f))
            && (Has(releases, k + 1, t, f) ==>
                  && r.Some? && r.value.valueType == TypeIn(releases, k + 1, t, f) && r.value.retiredIn.None?
                  && (!Has(releases, k, t, f) ==> r.value.firstSeen == releases[k + 1].VersionText()))
            && (Has(releases, k, t, f) && !Has(releases, k + 1, t, f) ==>
                  r.value.retiredIn == Some(releases[k + 1].VersionText()))
  {
    var source, target, h := releases[k], releases[k + 1], histories[k];
    assert StepChecked(versions, releases, histories, k);
    ErrorFreeIffConsistent(versions, source, target, h);
    assert SourceIsRecorded(h, source.structs, t, f);
    assert TargetIsLive(h, source.structs, target.structs, target.VersionText(), t, f);
    assert RemovalIsRetired(h, source.structs, target.structs, target.VersionText(), t, f);
  }

  /** What a record says stays said. */
  lemma {:induction false} RecordIsKept(
    versions: VersionRanks, releases: seq<Release>, histories: seq<SchemaHistory>, i: nat, j: nat, t: string, f: string)
    requires CheckedChain(versions, releases, histories) && i <= j < |histories|
    ensures KeepsRecord(histories[i], histories[j], t, f)
    decreases j - i
  {
    hide StepChecked, RecordOf, IsReserved, HasField;
    if i < j {
      RecordIsKept(versions, releases, histories, i, j - 1, t, f);
      assert HistoryAppends(histories, j);
      assert KeepsRecord(histories[j - 1], histories[j], t, f);
    }
  }

  /** The last history of a chain records every field that any release had, with its type. */
  lemma LastHistoryRecords(
    versions: VersionRanks, releases: seq<Release>, histories: seq<SchemaHistory>, k: nat, t: string, f: string)
    requires CheckedChain(versions, releases, histories) && histories != [] && Has(releases, k, t, f)
    ensures var r := RecordOf(histories[|histories| - 1], t, f);
            r.Some? && r.value.valueType == TypeIn(releases, k, t, f)
  {
    hide StepChecked, HistoryAppends, RecordOf, IsReserved, HasField;
    var step := if k < |histories| then k else k - 1;
    StepSays(versions, releases, histories, step, t, f);
    RecordIsKept(versions, releases, histories, step, |histories| - 1, t, f);
  }

  /** No reinterpretation: a field has the same type in any two releases of an error-free chain. */
  lemma NoReinterpretation(
    versions: VersionRanks, releases: seq<Release>, histories: seq<SchemaHistory>, i: nat, j: nat, t: string, f: string)
    requires CheckedChain(versions, releases, histories) && Has(releases, i, t, f) && Has(releases, j, t, f)
    ensures TypeIn(releases, i, t, f) == TypeIn(releases, j, t, f)
  {
    hide StepChecked, HistoryAppends, RecordOf, IsReserved, HasField;
    if histories != [] {
      LastHistoryRecords(versions, releases, histories, i, t, f);
      LastHistoryRecords(versions, releases, histories, j, t, f);
    }
  }

  /** Between a release with a field and a later one without it, some release removed it. */
  lemma {:induction false} FindRemoval(releases: seq<Release>, i: nat, j: nat, t: string, f: string) returns (m: nat)
    requires Has(releases, i, t, f) && i < j < |releases| && !Has(releases, j, t, f)
    ensures i <= m < j && Has(releases, m, t, f) && !Has(releases, m + 1, t, f)
    decreases j - i
  {
    if Has(releases, i + 1, t, f) { m := FindRemoval(releases, i + 1, j, t, f); } else { m := i; }
  }

  /** Between a release without a field and a later one with it, some release introduced it. */
  lemma {:induction false} FindIntroduction(
    releases: seq<Release>, i: nat, j: nat, t: string, f: string) returns (m: nat)
    requires i < j && !Has(releases, i, t, f) && Has(releases, j, t, f)
    ensures i < m <= j && !Has(releases, m - 1, t, f) && Has(releases, m, t, f)
    decreases j - i
  {
    if Has(releases, j - 1, t, f) { m := FindIntroduction(releases, i, j - 1, t, f); } else { m := j; }
  }

  /** A removal stays on record to the end of the chain. */
  lemma RemovalIsRecorded(
    versions: VersionRanks, releases: seq<Release>, histories: seq<SchemaHistory>, m: nat, later: nat,
    t: string, f: string)
    requires CheckedChain(versions, releases, histories) && m <= later < |histories|
    requires Has(releases, m, t, f) && !Has(releases, m + 1, t, f)
    ensures var r := RecordOf(histories[later], t, f);
            r.Some? && r.value.retiredIn == Some(releases[m + 1].VersionText())
  {
    hide StepChecked, HistoryAppends, RecordOf, IsReserved, HasField;
    StepSays(versions, releases, histories, m, t, f);
    RecordIsKept(versions, releases, histories, m, later, t, f);
  }

  /** No reuse: once a field is gone it never comes back. */
  lemma NoReuse(
    versions: VersionRanks, releases: seq<Release>, histories: seq<SchemaHistory>,
    i: nat, j: nat, k: nat, t: string, f: string)
    requires CheckedChain(versions, releases, histories)
    requires i < j <= k < |releases| && Has(releases, i, t, f) && !Has(releases, j, t, f)
    ensures !Has(releases, k, t, f)
  {
    hide StepChecked, HistoryAppends, RecordOf, IsReserved, HasField;
    if Has(releases, k, t, f) {
      var m := FindRemoval(releases, i, j, t, f);
      RemovalIsRecorded(versions, releases, histories, m, k - 1, t, f);
      StepSays(versions, releases, histories, k - 1, t, f);
      assert false;
    }
  }

  // ----- Lifetimes -----

  ghost predicate VersionsIncrease(versions: VersionRanks, source: Release, target: Release) {
    && source.version.Some? && target.version.Some?
    && source.VersionText() in versions && target.VersionText() in versions
    && versions[source.VersionText()] < versions[target.VersionText()]
  }

  ghost predicate VersionIncreasesAt(versions: VersionRanks, releases: seq<Release>, k: int) {
    0 < k < |releases| ==> VersionsIncrease(versions, releases[k - 1], releases[k])
  }

  ghost predicate IncreasingVersions(versions: VersionRanks, releases: seq<Release>) {
    && (forall k :: 0 <= k < |releases| ==> releases[k].VersionText() in versions)
    && (forall k :: VersionIncreasesAt(versions, releases, k))
  }

  ghost function RankOf(versions: VersionRanks, releases: seq<Release>, k: nat): real
    requires IncreasingVersions(versions, releases) && k < |releases|
  {
    versions[releases[k].VersionText()]
  }

  lemma {:induction false} RanksIncrease(versions: VersionRanks, releases: seq<Release>, i: nat, j: nat)
    requires IncreasingVersions(versions, releases) && i < j < |releases|
    ensures RankOf(versions, releases, i) < RankOf(versions, releases, j)
    decreases j - i
  {
    assert VersionIncreasesAt(versions, releases, j);
    if i + 1 < j { RanksIncrease(versions, releases, i, j - 1); }
  }

  ghost predicate Introduced(versions: VersionRanks, r: HistoricalField, rank: real) {
    r.firstSeen in versions && versions[r.firstSeen] <= rank
  }

  /** The lifetime that a record declares: from its first release up to its retirement. */
  ghost predicate DeclaredLive(versions: VersionRanks, r: HistoricalField, rank: real) {
    && Introduced(versions, r, rank)
    && (r.retiredIn.Some? ==> r.retiredIn.value in versions && rank < versions[r.retiredIn.value])
  }

  /** What the last history of a chain says about a field that some release had: it is retired
      exactly when a release removed the field, and in that release. */
  lemma RetirementIsRemoval(
    versions: VersionRanks, releases: seq<Release>, histories: seq<SchemaHistory>, p: nat, t: string, f: string)
    requires CheckedChain(versions, releases, histories) && histories != [] && Has(releases, p, t, f)
    ensures var last := |histories| - 1;
            var r := RecordOf(histories[last], t, f);
            && r.Some?
            && (r.value.retiredIn.None? <==> Has(releases, last + 1, t, f))
            && forall m: nat :: m <= last && Has(releases, m, t, f) && !Has(releases, m + 1, t, f) ==>
                 r.value.retiredIn == Some(releases[m + 1].VersionText())
  {
    hide StepChecked, HistoryAppends, RecordOf, IsReserved, HasField;
    var last := |histories| - 1;
    LastHistoryRecords(versions, releases, histories, p, t, f);
    forall m: nat | m <= last && Has(releases, m, t, f) && !Has(releases, m + 1, t, f)
      ensures RecordOf(histories[last], t, f).value.retiredIn == Some(releases[m + 1].VersionText())
    {
      RemovalIsRecorded(versions, releases, histories, m, last, t, f);
    }
    if Has(releases, last + 1, t, f) {
      StepSays(versions, releases, histories, last, t, f);
    } else {
      var m := FindRemoval(releases, p, last + 1, t, f);
    }
  }

  /** A field that a release introduced is recorded as first seen in that release. */
  lemma IntroductionIsFirstSeen(
    versions: VersionRanks, releases: seq<Release>, histories: seq<SchemaHistory>, m: nat, t: string, f: string)
    requires CheckedChain(versions, releases, histories) && 0 < m
    requires !Has(releases, m - 1, t, f) && Has(releases, m, t, f)
    ensures var r := RecordOf(histories[|histories| - 1], t, f);
            r.Some? && r.value.firstSeen == releases[m].VersionText()
  {
    hide StepChecked, HistoryAppends, RecordOf, IsReserved, HasField;
    StepSays(versions, releases, histories, m - 1, t, f);
    RecordIsKept(versions, releases, histories, m - 1, |histories| - 1, t, f);
  }

  /** A release with the field lies before the recorded retirement. */
  lemma PresentBeforeRetirement(
    versions: VersionRanks, releases: seq<Release>, histories: seq<SchemaHistory>, k: nat, t: string, f: string)
    requires CheckedChain(versions, releases, histories) && histories != [] && IncreasingVersions(versions, releases)
    requires Has(releases, k, t, f)
    ensures var r := RecordOf(histories[|histories| - 1], t, f);
            && r.Some?
            && (r.value.retiredIn.Some? ==>
                  && r.value.retiredIn.value in versions
                  && RankOf(versions, releases, k) < versions[r.value.retiredIn.value])
  {
    hide StepChecked, HistoryAppends, VersionIncreasesAt, RecordOf, IsReserved, HasField;
    RetirementIsRemoval(versions, releases, histories, k, t, f);
    var last := |releases| - 1;
    if !Has(releases, last, t, f) {
      var m := FindRemoval(releases, k, last, t, f);
      RanksIncrease(versions, releases, k, m + 1);
    }
  }

  /** A release without a field that some release had lies outside the recorded lifetime. */
  lemma AbsentIsNotDeclaredLive(
    versions: VersionRanks, releases: seq<Release>, histories: seq<SchemaHistory>, p: nat, k: nat, t: string, f: string)
    requires CheckedChain(versions, releases, histories) && histories != [] && IncreasingVersions(versions, releases)
    requires Has(releases, p, t, f) && k < |releases| && !Has(releases, k, t, f)
    ensures var r := RecordOf(histories[|histories| - 1], t, f);
            r.Some? && !DeclaredLive(versions, r.value, RankOf(versions, releases, k))
  {
    hide StepChecked, HistoryAppends, VersionIncreasesAt, RecordOf, IsReserved, HasField;
    if k < p {
      var m := FindIntroduction(releases, k, p, t, f);
      IntroductionIsFirstSeen(versions, releases, histories, m, t, f);
      RanksIncrease(versions, releases, k, m);
    } else {
      var m := FindRemoval(releases, p, k, t, f);
      RemovalIsRecorded(versions, releases, histories, m, |histories| - 1, t, f);
      if m + 1 < k { RanksIncrease(versions, releases, m + 1, k); }
    }
  }

  /** Lifetime exactness. For a field that some release had, the declared lifetime is the actual one
      at every release exactly when a field of the first release is declared no later than it. A field
      introduced inside the chain always meets that condition. */
  lemma DeclaredLifetimeIsActual(
    versions: VersionRanks, releases: seq<Release>, histories: seq<SchemaHistory>, p: nat, t: string, f: string)
    requires CheckedChain(versions, releases, histories) && histories != [] && IncreasingVersions(versions, releases)
    requires Has(releases, p, t, f)
    ensures RecordOf(histories[|histories| - 1], t, f).Some?
    ensures var r := RecordOf(histories[|histories| - 1], t, f).value;
            (forall k: nat :: k < |releases| ==>
               (Has(releases, k, t, f) <==> DeclaredLive(versions, r, RankOf(versions, releases, k))))
            <==> (Has(releases, 0, t, f) ==> Introduced(versions, r, RankOf(versions, releases, 0)))
  {
    hide StepChecked, HistoryAppends, VersionIncreasesAt, RecordOf, IsReserved, HasField;
    LastHistoryRecords(versions, releases, histories, p, t, f);
    var r := RecordOf(histories[|histories| - 1], t, f).value;
    if Has(releases, 0, t, f) ==> Introduced(versions, r, RankOf(versions, releases, 0)) {
      forall k: nat | k < |releases|
        ensures Has(releases, k, t, f) <==> DeclaredLive(versions, r, RankOf(versions, releases, k))
      {
        if Has(releases, k, t, f) {
          PresentBeforeRetirement(versions, releases, histories, k, t, f);
          if Has(releases, 0, t, f) {
            if 0 < k { RanksIncrease(versions, releases, 0, k); }
          } else {
            var m := FindIntroduction(releases, 0, k, t, f);
            IntroductionIsFirstSeen(versions, releases, histories, m, t, f);
            if m < k { RanksIncrease(versions, releases, m, k); }
          }
        } else {
          AbsentIsNotDeclaredLive(versions, releases, histories, p, k, t, f);
        }
      }
    }
  }

  ghost predicate NeverHad(releases: seq<Release>, t: string, f: string) {
    forall k :: !Has(releases, k, t, f)
  }

  /** Release k is the first that is not before the record's first release. */
  ghost predicate IsFirstIntroduced(versions: VersionRanks, releases: seq<Release>, r: HistoricalField, k: nat)
    requires IncreasingVersions(versions, releases)
  {
    && k < |releases| && Introduced(versions, r, RankOf(versions, releases, k))
    && (k > 0 ==> !Introduced(versions, r, RankOf(versions, releases, k - 1)))
  }

  /** The record is retired before any release can use it. */
  ghost predicate RetiredBeforeUse(versions: VersionRanks, releases: seq<Release>, r: HistoricalField)
    requires IncreasingVersions(versions, releases)
  {
    forall k: nat :: IsFirstIntroduced(versions, releases, r, k) ==>
      r.retiredIn.Some? && r.retiredIn.value in versions
      && versions[r.retiredIn.value] <= RankOf(versions, releases, k)
  }

  lemma {:induction false} FindFirstIntroduced(
    versions: VersionRanks, releases: seq<Release>, r: HistoricalField, k: nat) returns (m: nat)
    requires IncreasingVersions(versions, releases)
    requires k < |releases| && Introduced(versions, r, RankOf(versions, releases, k))
    ensures m <= k && IsFirstIntroduced(versions, releases, r, m)
  {
    if k > 0 && Introduced(versions, r, RankOf(versions, releases, k - 1)) {
      m := FindFirstIntroduced(versions, releases, r, k - 1);
    } else {
      m := k;
    }
  }

  /** A record is live at no release exactly when it is retired before use. */
  lemma NeverLiveIffRetiredBeforeUse(versions: VersionRanks, releases: seq<Release>, r: HistoricalField)
    requires IncreasingVersions(versions, releases) && VersionsParse(versions, r)
    ensures (forall k: nat :: k < |releases| ==> !DeclaredLive(versions, r, RankOf(versions, releases, k))) <==>
            RetiredBeforeUse(versions, releases, r)
  {
    if RetiredBeforeUse(versions, releases, r) {
      forall k: nat | k < |releases| ensures !DeclaredLive(versions, r, RankOf(versions, releases, k)) {
        if Introduced(versions, r, RankOf(versions, releases, k)) {
          var m := FindFirstIntroduced(versions, releases, r, k);
          if m < k { RanksIncrease(versions, releases, m, k); }
        }
      }
    }
  }

  /** Lifetime exactness for every record. The declared lifetime is the actual one at every release exactly when,
      for a field that some release had, a field of the first release is declared no later than it, and, for a
      field that no release had, the record is retired before any release can use it. */
  lemma DeclaredLifetimeIsActualIff(
    versions: VersionRanks, releases: seq<Release>, histories: seq<SchemaHistory>, t: string, f: string)
    requires CheckedChain(versions, releases, histories) && histories != [] && IncreasingVersions(versions, releases)
    requires RecordOf(histories[|histories| - 1], t, f).Some?
    ensures var r := RecordOf(histories[|histories| - 1], t, f).value;
            (forall k: nat :: k < |releases| ==>
               (Has(releases, k, t, f) <==> DeclaredLive(versions, r, RankOf(versions, releases, k))))
            <==> if NeverHad(releases, t, f) then RetiredBeforeUse(versions, releases, r)
                 else Has(releases, 0, t, f) ==> Introduced(versions, r, RankOf(versions, releases, 0))
  {
    var r := RecordOf(histories[|histories| - 1], t, f).value;
    LastRecordParses(versions, releases, histories, t, f);
    hide StepChecked, HistoryAppends, VersionIncreasesAt, RecordOf, IsReserved, HasField, RetiredBeforeUse,
         DeclaredLive;
    if NeverHad(releases, t, f) {
      NeverLiveIffRetiredBeforeUse(versions, releases, r);
    } else {
      var p :| Has(releases, p, t, f);
      DeclaredLifetimeIsActual(versions, releases, histories, p, t, f);
    }
  }

  lemma LastRecordParses(
    versions: VersionRanks, releases: seq<Release>, histories: seq<SchemaHistory>, t: string, f: string)
    requires CheckedChain(versions, releases, histories) && histories != []
    requires RecordOf(histories[|histories| - 1], t, f).Some?
    ensures VersionsParse(versions, RecordOf(histories[|histories| - 1], t, f).value)
  {
    var last := |histories| - 1;
    assert StepChecked(versions, releases, histories, last);
    ErrorFreeIffConsistent(versions, releases[last], releases[last + 1], histories[last]);
    assert RecordIsSound(versions, histories[last], t, f);
  }
}
