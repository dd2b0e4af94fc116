/** The storage declarations: each manifest on its own, and the two against each other. */
module StorageChecks {
  import opened Artifacts
  import opened SchemaHistories
  import Texts

  // ----- One manifest -----

  function Keys(entries: seq<StorageEntry>): seq<string> {
    seq(|entries|, i requires 0 <= i < |entries| => entries[i].key)
  }

  predicate IsRepeated(entries: seq<StorageEntry>, key: string) {
    multiset(Keys(entries))[key] > 1
  }

  function RepeatFindings(side: string, entries: seq<StorageEntry>, keys: set<string>): set<Finding> {
    set k | k in keys && IsRepeated(entries, k) :: Fail(STO008, [side, k])
  }

  function ManifestFindings(versions: VersionRanks, side: string, a: Artifact, schema: StorageSchema): set<Finding> {
    When(schema.formatVersion != 1, Fail(STO006, [side]))
    + When(!schema.complete, Fail(STO010, [side]))
    + When(schema.schemaVersion == 0, Fail(STO011, [side]))
    + When(schema.contractVersion !in versions, Fail(STO012, [side]))
    + When(a.Version().Some? && a.Version().value != schema.contractVersion, Fail(STO007, [side]))
    + RepeatFindings(side, schema.entries, set k | k in Keys(schema.entries))
  }

  predicate StrategyIsValid(strategy: string) {
    !Texts.IsBlank(strategy) && Texts.ByteLength(strategy) <= 128 && !Texts.HasControl(strategy)
  }

  function MigrationFindings(target: Artifact, entry: StorageEntry): set<Finding> {
    match entry.migration
    case None => {}
    case Some(migration) =>
      When(!StrategyIsValid(migration.strategy), Fail(STO013, [entry.key])) +
      match migration.entrypoint
      case None => {Fail(STO014, [entry.key])}
      case Some(entrypoint) => When(!target.HasFunction(entrypoint), Fail(STO009, [entry.key, entrypoint]))
  }

  function ManifestPairFindings(
    versions: VersionRanks, source: Artifact, target: Artifact, from: StorageSchema, to: StorageSchema): set<Finding>
  {
    ManifestFindings(versions, "source", source, from)
    + ManifestFindings(versions, "target", target, to)
    + (set e, x | e in to.entries && x in MigrationFindings(target, e) :: x)
  }

  method ValidateSchemaManifests(
    versions: VersionRanks, source: Artifact, target: Artifact, from: StorageSchema, to: StorageSchema,
    findings: set<Finding>)
    returns (out: set<Finding>)
    ensures out == findings + ManifestPairFindings(versions, source, target, from, to)
  {
    hide ManifestFindings, MigrationFindings;
    out := ValidateManifest(versions, "source", source, from, findings);
    out := ValidateManifest(versions, "target", target, to, out);
    ghost var before := out;
    for i := 0 to |to.entries|
      invariant out == before + set e, x | e in to.entries[..i] && x in MigrationFindings(target, e) :: x
    {
      assert to.entries[..i + 1] == to.entries[..i] + [to.entries[i]];
      out := out + MigrationFindings(target, to.entries[i]);
    }
    assert to.entries[..|to.entries|] == to.entries;
  }

  method ValidateManifest(
    versions: VersionRanks, side: string, a: Artifact, schema: StorageSchema, findings: set<Finding>)
    returns (out: set<Finding>)
    ensures out == findings + ManifestFindings(versions, side, a, schema)
  {
    hide RepeatFindings;
    out := findings;
    if schema.formatVersion != 1 { out := out + {Fail(STO006, [side])}; }
    if !schema.complete { out := out + {Fail(STO010, [side])}; }
    if schema.schemaVersion == 0 { out := out + {Fail(STO011, [side])}; }
    if schema.contractVersion !in versions { out := out + {Fail(STO012, [side])}; }
    if a.Version().Some? && a.Version().value != schema.contractVersion { out := out + {Fail(STO007, [side])}; }
    out := CheckDuplicates(side, schema.entries, out);
  }

  method CheckDuplicates(side: string, entries: seq<StorageEntry>, findings: set<Finding>) returns (out: set<Finding>)
    ensures out == findings + RepeatFindings(side, entries, set k | k in Keys(entries))
  {
    out := findings;
    var counts := CountKeys(entries);
    var todo := counts.Keys;
    while todo != {}
      invariant todo <= counts.Keys
      invariant out == findings + RepeatFindings(side, entries, counts.Keys - todo)
      decreases todo
    {
      var key :| key in todo;
      ghost var done := counts.Keys - todo;
      if counts[key] > 1 {
        out := out + {Fail(STO008, [side, key])};
      }
      todo := todo - {key};
      assert counts.Keys - todo == done + {key};
      OneMoreKey(side, entries, done, key);
    }
    assert counts.Keys - todo == counts.Keys;
  }

  lemma OneMoreKey(side: string, entries: seq<StorageEntry>, done: set<string>, key: string)
    ensures RepeatFindings(side, entries, done + {key})
         == RepeatFindings(side, entries, done) + When(IsRepeated(entries, key), Fail(STO008, [side, key]))
  {
  }

  method CountKeys(entries: seq<StorageEntry>) returns (counts: map<string, nat>)
    ensures counts.Keys == set k | k in Keys(entries)
    ensures forall k :: k in counts ==> counts[k] == multiset(Keys(entries))[k]
  {
    counts := map[];
    for i := 0 to |entries|
      invariant counts.Keys == set k | k in Keys(entries[..i])
      invariant forall k :: k in counts ==> counts[k] == multiset(Keys(entries[..i]))[k]
    {
      var key := entries[i].key;
      assert Keys(entries[..i + 1]) == Keys(entries[..i]) + [key];
      counts := counts[key := if key in counts then counts[key] + 1 else 1];
    }
    assert entries[..|entries|] == entries;
  }

  // ----- Two manifests -----

  /** The entries by key; a later declaration of the same key replaces an earlier one. */
  function ByKey(entries: seq<StorageEntry>): map<string, StorageEntry> {
    if entries == [] then map[]
    else
      var last := entries[|entries| - 1];
      ByKey(entries[..|entries| - 1])[last.key := last]
  }

  predicate LayoutDiffers(a: StorageEntry, b: StorageEntry) {
    a.durability != b.durability || a.valueType != b.valueType
  }

  predicate KeyDropped(before: map<string, StorageEntry>, after: map<string, StorageEntry>, key: string) {
    key in before && key !in after
  }

  predicate KeyChanged(before: map<string, StorageEntry>, after: map<string, StorageEntry>, key: string) {
    key in before && key in after && LayoutDiffers(before[key], after[key])
  }

  function KeyFindings(before: map<string, StorageEntry>, after: map<string, StorageEntry>, key: string): set<Finding> {
    if KeyDropped(before, after, key) then {Fail(STO001, [key])}
    else if !KeyChanged(before, after, key) then {}
    else if after[key].migration.Some? then {Warn(STO002, [key])}
    else {Fail(STO003, [key])}
  }

  predicate LayoutChanged(before: map<string, StorageEntry>, after: map<string, StorageEntry>, keys: set<string>) {
    exists key :: key in keys && (KeyDropped(before, after, key) || KeyChanged(before, after, key))
  }

  function StorageFindings(from: StorageSchema, to: StorageSchema): set<Finding> {
    var before, after := ByKey(from.entries), ByKey(to.entries);
    (set key, x | key in before && x in KeyFindings(before, after, key) :: x)
    + When(LayoutChanged(before, after, before.Keys) && to.schemaVersion <= from.schemaVersion, Fail(STO005, []))
  }

  method EntriesByKey(entries: seq<StorageEntry>) returns (m: map<string, StorageEntry>)
    ensures m == ByKey(entries)
  {
    m := map[];
    for i := 0 to |entries|
      invariant m == ByKey(entries[..i])
    {
      assert entries[..i + 1][..i] == entries[..i];
      m := m[entries[i].key := entries[i]];
    }
    assert entries[..|entries|] == entries;
  }

  method CompareStorageSchemas(from: StorageSchema, to: StorageSchema, findings: set<Finding>)
    returns (out: set<Finding>)
    ensures out == findings + StorageFindings(from, to)
  {
    var before := EntriesByKey(from.entries);
    var after := EntriesByKey(to.entries);
    var layoutChanged := false;
    out := findings;
    var todo := before.Keys;
    while todo != {}
      invariant todo <= before.Keys
      invariant out == findings + set key, x | key in before.Keys - todo && x in KeyFindings(before, after, key) :: x
      invariant layoutChanged == LayoutChanged(before, after, before.Keys - todo)
      decreases todo
    {
      var key :| key in todo;
      ghost var done, start := before.Keys - todo, out;
      if key !in after {
        layoutChanged := true;
        out := out + {Fail(STO001, [key])};
      } else if LayoutDiffers(before[key], after[key]) {
        layoutChanged := true;
        if after[key].migration.Some? {
          out := out + {Warn(STO002, [key])};
        } else {
          out := out + {Fail(STO003, [key])};
        }
      }
      assert out == start + KeyFindings(before, after, key);
      todo := todo - {key};
      assert before.Keys - todo == done + {key};
    }
    assert before.Keys - todo == before.Keys;
    if layoutChanged && to.schemaVersion <= from.schemaVersion {
      out := out + {Fail(STO005, [])};
    }
  }

  // ----- What declarations without errors say -----

  ghost predicate ManifestIsSound(versions: VersionRanks, a: Artifact, schema: StorageSchema) {
    && schema.formatVersion == 1 && schema.complete && schema.schemaVersion > 0
    && schema.contractVersion in versions
    && (a.Version().Some? ==> a.Version().value == schema.contractVersion)
    && forall i, j :: 0 <= i < j < |schema.entries| ==> schema.entries[i].key != schema.entries[j].key
  }

  ghost predicate MigrationsAreDeclared(target: Artifact, schema: StorageSchema) {
    forall e :: e in schema.entries && e.migration.Some? ==>
      && StrategyIsValid(e.migration.value.strategy)
      && e.migration.value.entrypoint.Some? && target.HasFunction(e.migration.value.entrypoint.value)
  }

  ghost predicate StorageEvolves(from: StorageSchema, to: StorageSchema) {
    var before, after := ByKey(from.entries), ByKey(to.entries);
    && before.Keys <= after.Keys
    && (forall key :: KeyChanged(before, after, key) ==> after[key].migration.Some?)
    && ((exists key :: KeyChanged(before, after, key)) ==> to.schemaVersion > from.schemaVersion)
  }

  lemma {:induction false} NoRepeats(keys: seq<string>)
    ensures (forall k :: multiset(keys)[k] <= 1) <==> forall i, j :: 0 <= i < j < |keys| ==> keys[i] != keys[j]
  {
    if keys != [] {
      var n := |keys| - 1;
      var init := keys[..n];
      assert keys == init + [keys[n]];
      NoRepeats(init);
      assert forall i :: 0 <= i < n ==> init[i] == keys[i] && keys[i] in init;
      if i :| 0 <= i < n && init[i] == keys[n] {
        assert multiset(keys)[keys[n]] > 1;
      } else {
        assert multiset(init)[keys[n]] == 0;
        assert forall k :: multiset(keys)[k] == if k == keys[n] then 1 else multiset(init)[k];
      }
    }
  }

  lemma NoRepeatedKeys(entries: seq<StorageEntry>)
    ensures (forall k :: !IsRepeated(entries, k)) <==>
            forall i, j :: 0 <= i < j < |entries| ==> entries[i].key != entries[j].key
  {
    var keys := Keys(entries);
    NoRepeats(keys);
    assert forall k :: !IsRepeated(entries, k) <==> multiset(keys)[k] <= 1;
    assert forall i :: 0 <= i < |entries| ==> entries[i].key == keys[i];
  }

  lemma ManifestErrors(versions: VersionRanks, side: string, a: Artifact, schema: StorageSchema)
    ensures NoErrors(ManifestFindings(versions, side, a, schema)) <==> ManifestIsSound(versions, a, schema)
  {
    var all := ManifestFindings(versions, side, a, schema);
    NoRepeatedKeys(schema.entries);
    assert NoErrors(all) ==>
      && Fail(STO006, [side]) !in all && Fail(STO010, [side]) !in all && Fail(STO011, [side]) !in all
      && Fail(STO012, [side]) !in all && Fail(STO007, [side]) !in all;
    assert forall k :: IsRepeated(schema.entries, k) ==> k in Keys(schema.entries) && Fail(STO008, [side, k]) in all;
  }

  lemma OneMigration(target: Artifact, e: StorageEntry)
    ensures NoErrors(MigrationFindings(target, e)) <==>
            (e.migration.Some? ==>
               && StrategyIsValid(e.migration.value.strategy)
               && e.migration.value.entrypoint.Some? && target.HasFunction(e.migration.value.entrypoint.value))
  {
    var all := MigrationFindings(target, e);
    assert NoErrors(all) ==> Fail(STO013, [e.key]) !in all && Fail(STO014, [e.key]) !in all;
    assert NoErrors(all) && e.migration.Some? && e.migration.value.entrypoint.Some? ==>
      Fail(STO009, [e.key, e.migration.value.entrypoint.value]) !in all;
  }

  lemma ManifestPairErrors(
    versions: VersionRanks, source: Artifact, target: Artifact, from: StorageSchema, to: StorageSchema)
    ensures NoErrors(ManifestPairFindings(versions, source, target, from, to)) <==>
            && ManifestIsSound(versions, source, from) && ManifestIsSound(versions, target, to)
            && MigrationsAreDeclared(target, to)
  {
    var s, t := ManifestFindings(versions, "source", source, from), ManifestFindings(versions, "target", target, to);
    var m := set e, x | e in to.entries && x in MigrationFindings(target, e) :: x;
    assert NoErrors(s + t + m) <==> NoErrors(s) && NoErrors(t) && NoErrors(m);
    ManifestErrors(versions, "source", source, from);
    ManifestErrors(versions, "target", target, to);
    forall e | e in to.entries
      ensures NoErrors(m) ==> NoErrors(MigrationFindings(target, e))
    {
      assert forall x :: x in MigrationFindings(target, e) ==> x in m;
    }
    forall e { OneMigration(target, e); }
  }

  /** No storage error exactly when every key survives, every layout change declares a migration,
      and a layout change raises the schema version. */
  lemma StorageErrors(from: StorageSchema, to: StorageSchema)
    ensures NoErrors(StorageFindings(from, to)) <==> StorageEvolves(from, to)
  {
    var before, after := ByKey(from.entries), ByKey(to.entries);
    var all := StorageFindings(from, to);
    forall key | key in before
      ensures NoErrors(all) ==> !KeyDropped(before, after, key)
      ensures NoErrors(all) && KeyChanged(before, after, key) ==> after[key].migration.Some?
    {
      var found := KeyFindings(before, after, key);
      assert forall x :: x in found ==> x in all;
      assert NoErrors(all) ==> Fail(STO001, [key]) !in found && Fail(STO003, [key]) !in found;
    }
    assert NoErrors(all) ==> Fail(STO005, []) !in all;
    if StorageEvolves(from, to) {
      assert forall key :: key in before ==> NoErrors(KeyFindings(before, after, key));
    }
  }
}
