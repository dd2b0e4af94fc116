/** Two type graphs at the route limit of the search. */
module LimitWitnesses {
  import opened Wrappers
  import Listings
  import Texts
  import opened Artifacts
  import opened SpecEntries
  import opened ContractSpecs
  import opened TypeGraph
  import opened PublicImpacts
  import opened SearchLimits

  // ----- A type with 256 members of one type -----

  function MemberName(i: nat): (name: string)
    requires i < 256
    ensures |name| == 2
  {
    [('a' as int + i / 16) as char, ('a' as int + i % 16) as char]
  }

  function Direct(i: nat): TypeReference
    requires i < 256
  {
    TypeReference("R", MemberName(i), "T")
  }

  const DEAD_END := TypeReference("R", "z", "Z")

  /** 256 references from R to T and, when asked for, one more that leads nowhere. */
  function Fan(deadEnd: bool): (references: seq<TypeReference>)
    ensures |references| == if deadEnd then 257 else 256
  {
    seq(256, i requires 0 <= i < 256 => Direct(i)) + if deadEnd then [DEAD_END] else []
  }

  function BoundaryOf(name: string): PublicTypeBoundary {
    PublicTypeBoundary(name, Input, 0, Some("r"), "R")
  }

  /** The fields of R: 256 of type T and, when asked for, one of type Z. */
  function FanFields(deadEnd: bool): (fields: seq<Field>)
    ensures |fields| == if deadEnd then 257 else 256
  {
    seq(256, i requires 0 <= i < 256 => Field("", MemberName(i), Udt("T")))
    + if deadEnd then [Field("", "z", Udt("Z"))] else []
  }

  function TakesR(name: string): SpecEntry {
    FunctionSpec("", name, [Field("", "r", Udt("R"))], [])
  }

  function StructT(fieldType: string): SpecEntry {
    StructSpec("", "", "T", [Field("", "x", Basic(fieldType))])
  }

  /** Two functions that take an R, whose members are of type T; the one member of T has the given type. */
  function FanSpec(deadEnd: bool, fieldType: string): seq<SpecEntry> {
    [TakesR("f"), TakesR("g"),
     StructSpec("", "", "R", FanFields(deadEnd)), StructT(fieldType), StructSpec("", "", "Z", [])]
  }

  function FanArtifact(deadEnd: bool, fieldType: string): Artifact {
    var spec := FanSpec(deadEnd, fieldType);
    Artifact(1, "", 0, 0, 0, map[], {}, Table(spec, Functions), Table(spec, Events), Table(spec, UserTypes),
             [BoundaryOf("f"), BoundaryOf("g")], Fan(deadEnd), map[])
  }

  // ----- It is derived from its spec -----

  lemma MembersAreDistinct(i: nat, j: nat)
    requires i < 256 && j < 256 && i != j
    ensures MemberName(i) != MemberName(j)
  {
    assert MemberName(i)[0] == MemberName(j)[0] ==> i / 16 == j / 16;
    assert MemberName(i)[1] == MemberName(j)[1] ==> i % 16 == j % 16;
  }

  lemma MembersAscend(i: nat, j: nat)
    requires i < j < 256
    ensures Texts.Before(MemberName(i), MemberName(j))
  {
    var a, b := MemberName(i), MemberName(j);
    assert a[1..] == [a[1]] && b[1..] == [b[1]];
    assert i / 16 <= j / 16 && (i / 16 == j / 16 ==> i % 16 < j % 16);
  }

  lemma FanIsSorted(deadEnd: bool)
    ensures Listings.Lists(ReferenceBefore, Fan(deadEnd), set r | r in Fan(deadEnd)) && NoRepeats(Fan(deadEnd))
  {
    hide Texts.Before, MemberName;
    var fan := Fan(deadEnd);
    forall i, j | 0 <= i < j < |fan| ensures ReferenceBefore(fan[i], fan[j]) && fan[i] != fan[j] {
      assert fan[i] == Direct(i);
      if j < 256 {
        MembersAscend(i, j);
        MembersAreDistinct(i, j);
      } else {
        DeadEndIsLast(i);
      }
    }
  }

  lemma DeadEndIsLast(i: nat)
    requires i < 256
    ensures Texts.Before(MemberName(i), "z") && MemberName(i) != "z"
  {
  }

  lemma FanSpecIsUnique(deadEnd: bool, fieldType: string)
    ensures NamesAreUnique(FanSpec(deadEnd, fieldType))
    ensures forall e :: e in FanSpec(deadEnd, fieldType) ==> MembersAreUnique(e)
  {
    hide FanFields;
    assert "f"[0] != "g"[0] && "R"[0] != "T"[0] && "R"[0] != "Z"[0] && "T"[0] != "Z"[0];
    RIsUnique(deadEnd);
  }

  lemma RIsUnique(deadEnd: bool)
    ensures MembersAreUnique(StructSpec("", "", "R", FanFields(deadEnd)))
  {
    hide MemberName;
    var fields := FanFields(deadEnd);
    forall i, j | 0 <= i < j < |fields| ensures fields[i].name != fields[j].name {
      assert fields[i].name == MemberName(i);
      if j < 256 { MembersAreDistinct(i, j); } else { DeadEndIsLast(i); }
    }
  }

  lemma FanReferences(deadEnd: bool, fieldType: string)
    ensures AllReferences(FanSpec(deadEnd, fieldType)) == set r | r in Fan(deadEnd)
  {
    var spec, fields, fan := FanSpec(deadEnd, fieldType), FanFields(deadEnd), Fan(deadEnd);
    var r := StructSpec("", "", "R", fields);
    assert spec[2] == r;
    assert forall e :: e in spec && e != r ==> ReferencesOf(e) == {};
    assert forall i :: 0 <= i < |fields| ==>
        UdtNames(fields[i].fieldType) == {fan[i].target} && fields[i].name == fan[i].member && fan[i].owner == "R";
    hide FanFields, Fan, UdtNames, FanSpec;
    assert forall x :: x in ReferencesOf(r) <==> x in fan;
    assert AllReferences(spec) == ReferencesOf(r);
  }

  lemma FanBoundaries(deadEnd: bool, fieldType: string)
    ensures AllBoundaries(FanSpec(deadEnd, fieldType)) == {BoundaryOf("f"), BoundaryOf("g")}
    ensures Listings.Lists(BoundaryBefore, [BoundaryOf("f"), BoundaryOf("g")], {BoundaryOf("f"), BoundaryOf("g")})
  {
    hide FanFields;
    var spec := FanSpec(deadEnd, fieldType);
    assert spec[0] == TakesR("f") && spec[1] == TakesR("g");
    OneBoundary("f");
    OneBoundary("g");
    assert forall e :: e in spec && e != TakesR("f") && e != TakesR("g") ==> BoundariesOf(e) == {};
    hide BoundariesOf, FanSpec, BoundaryOf, TakesR;
    FThenG();
  }

  lemma OneBoundary(name: string)
    ensures BoundariesOf(TakesR(name)) == {BoundaryOf(name)}
  {
    var inputs := TakesR(name).inputs;
    assert |inputs| == 1 && inputs[0].name == "r" && UdtNames(inputs[0].fieldType) == {"R"};
    assert BoundaryOf(name) in BoundariesOf(TakesR(name));
  }

  lemma FThenG()
    ensures BoundaryBefore(BoundaryOf("f"), BoundaryOf("g"))
  {
  }

  lemma FanIsDerived(deadEnd: bool, fieldType: string)
    ensures DerivedFrom(FanArtifact(deadEnd, fieldType), FanSpec(deadEnd, fieldType))
  {
    hide Fan, FanSpec, Listings.Lists, NamesAreUnique, MembersAreUnique, AllReferences, AllBoundaries, Table,
         BoundaryOf;
    FanSpecIsUnique(deadEnd, fieldType);
    FanReferences(deadEnd, fieldType);
    FanBoundaries(deadEnd, fieldType);
    FanIsSorted(deadEnd);
  }

  /** What the tables hold. */
  lemma FanTables(deadEnd: bool, fieldType: string)
    ensures var a := FanArtifact(deadEnd, fieldType);
            && a.userTypes.Keys == {"R", "T", "Z"}
            && a.userTypes["R"].canonical == Canonical(StructSpec("", "", "R", FanFields(deadEnd)))
            && a.userTypes["T"].canonical == Canonical(StructT(fieldType))
            && a.userTypes["Z"].canonical == Canonical(StructSpec("", "", "Z", []))
            && CanonicalOf(a.functions, "f") == Some(Canonical(TakesR("f")))
            && CanonicalOf(a.functions, "g") == Some(Canonical(TakesR("g")))
  {
    hide FanFields, Fan, Canonical, Table, NamesAreUnique, MembersAreUnique;
    var spec := FanSpec(deadEnd, fieldType);
    FanSpecIsUnique(deadEnd, fieldType);
    EntryIsInTable(spec, 0);
    EntryIsInTable(spec, 1);
    EntryIsInTable(spec, 2);
    EntryIsInTable(spec, 3);
    EntryIsInTable(spec, 4);
    FanTypeNames(deadEnd, fieldType);
  }

  lemma EntryIsInTable(spec: seq<SpecEntry>, i: nat)
    requires NamesAreUnique(spec) && i < |spec|
    ensures var e := spec[i];
            CanonicalOf(Table(spec, NamespaceOf(e)), e.name) == Some(Canonical(e))
  {
    hide NamesAreUnique, Table, Canonical, KindOf;
    TableHolds(spec, NamespaceOf(spec[i]));
    assert spec[i] in spec;
  }

  lemma FanTypeNames(deadEnd: bool, fieldType: string)
    ensures Table(FanSpec(deadEnd, fieldType), UserTypes).Keys == {"R", "T", "Z"}
  {
    hide FanFields, Canonical, Table, NamesAreUnique, MembersAreUnique;
    var spec := FanSpec(deadEnd, fieldType);
    FanSpecIsUnique(deadEnd, fieldType);
    TableHolds(spec, UserTypes);
    assert spec[2] in spec && spec[3] in spec && spec[4] in spec;
  }

  // ----- Its chains and routes -----

  function Singles(edges: seq<TypeReference>): (chains: seq<Route>)
    ensures |chains| == |edges|
  {
    seq(|edges|, i requires 0 <= i < |edges| => [edges[i]])
  }

  lemma {:induction false} EachMemberIsAChain(references: seq<TypeReference>, edges: seq<TypeReference>)
    requires forall e :: e in references ==> e.owner == "R" && e.target != "R"
    requires forall e :: e in edges ==> e in references
    ensures ChainsOver(references, edges, "T", Entry("R", [], {"R"})) == Singles(edges)
  {
    if edges != [] {
      var last := edges[|edges| - 1];
      EachMemberIsAChain(references, edges[..|edges| - 1]);
      assert last.target !in Owners(references);
      assert Successor(Entry("R", [], {"R"}), last).steps == [last];
      assert Singles(edges) == Singles(edges[..|edges| - 1]) + [[last]];
    }
  }

  lemma FanChains(deadEnd: bool, fieldType: string)
    ensures AllChains(FanArtifact(deadEnd, fieldType), "R", "T") == [[]] + Singles(Fan(deadEnd))
  {
    var a := FanArtifact(deadEnd, fieldType);
    FanTables(deadEnd, fieldType);
    EachMemberIsAChain(a.typeReferences, a.typeReferences);
    assert a.typeReferences[0].owner == "R";
    hide Fan, FanSpec, Table;
    assert "R" in Owners(a.typeReferences);
    assert Leaving(Entry("R", [], {})) == Entry("R", [], {"R"});
  }

  /** The first `n` members of R are `n` routes to T. */
  lemma FirstRoutes(deadEnd: bool, n: nat)
    requires n <= 256
    ensures |RoutesAmong(([[]] + Singles(Fan(deadEnd)))[..n + 1], "R", "T")| == n
  {
    var chains := ([[]] + Singles(Fan(deadEnd)))[..n + 1];
    var routes := seq(n, i requires 0 <= i < n => [Direct(i)]);
    assert chains == [[]] + routes;
    hide Fan, Singles;
    forall i: nat, j: nat | i < j < n ensures routes[i] != routes[j] {
      MembersAreDistinct(i, j);
      assert routes[i][0] != routes[j][0];
    }
    DistinctCount(routes);
    RoutesAfterTheFirst(routes);
  }

  lemma RoutesAfterTheFirst(routes: seq<Route>)
    requires forall c :: c in routes ==> End("R", c) == "T"
    ensures RoutesAmong([[]] + routes, "R", "T") == set c | c in routes
  {
    assert End("R", []) == "R";
  }

  /** The limit of 256 routes is reported although there are no more than 256: it is enough that one more
      chain, which leads elsewhere, comes after them. */
  lemma LimitWithoutMoreRoutes(fieldType: string)
    ensures var a := FanArtifact(true, fieldType);
            && DerivedFrom(a, FanSpec(true, fieldType))
            && SearchRoutes(a, "R", "T").1
            && |RoutesAmong(AllChains(a, "R", "T"), "R", "T")| == 256
  {
    var a, chains := FanArtifact(true, fieldType), [[]] + Singles(Fan(true));
    FanIsDerived(true, fieldType);
    FanChains(true, fieldType);
    hide FanArtifact, DerivedFrom, FanSpec;
    FirstRoutes(true, 256);
    assert chains == chains[..257] + [[DEAD_END]];
    assert End("R", [DEAD_END]) == "Z";
    assert RoutesAmong(chains, "R", "T") == RoutesAmong(chains[..257], "R", "T");
    SearchIsLimitedIffTooLarge(a, "R", "T");
  }

  /** Without the last chain the same 256 routes are no limit. */
  lemma NoLimitAtTheLastRoute(fieldType: string)
    ensures !SearchRoutes(FanArtifact(false, fieldType), "R", "T").1
  {
    FanChains(false, fieldType);
    hide FanArtifact;
    FirstRoutes(false, 255);
    var chains := [[]] + Singles(Fan(false));
    assert |chains| == 257 && forall i :: 0 <= i < |chains| ==> |chains[i]| <= 1;
    SearchIsLimitedIffTooLarge(FanArtifact(false, fieldType), "R", "T");
  }

  // ----- More impacts than the limit, none of them cut off -----

  function ImpactAt(i: nat): PublicImpact
    requires i < 512
  {
    Impact(BoundaryOf(if i < 256 then "f" else "g"), "T", [Direct(i % 256)])
  }

  const SOURCE := FanArtifact(false, "u32")
  const TARGET := FanArtifact(false, "u64")

  lemma OnlyTChanges()
    ensures ChangedTypes(SOURCE, TARGET) == {"T"}
    ensures RetainedBoundaries(SOURCE, TARGET) == {BoundaryOf("f"), BoundaryOf("g")}
  {
    hide Fan, FanSpec, Table, Canonical, WithoutDocs, FanFields;
    FanTables(false, "u32");
    FanTables(false, "u64");
    TypesOfTDiffer();
    CanonicalFormsAgreeIffSameWithoutDocs(StructT("u32"), StructT("u64"));
    assert SOURCE.publicTypeBoundaries == TARGET.publicTypeBoundaries == [BoundaryOf("f"), BoundaryOf("g")];
  }

  lemma TypesOfTDiffer()
    ensures WithoutDocs(StructT("u32")) != WithoutDocs(StructT("u64"))
  {
    assert WithoutDocs(StructT("u32")).fields[0].fieldType == Basic("u32");
    assert "u32"[1] != "u64"[1];
  }

  lemma FanIsNotLimited()
    ensures !ImpactLimitExceeded(SOURCE, TARGET)
  {
    hide SearchRoutes, FanArtifact, ChangedTypes, RetainedBoundaries;
    OnlyTChanges();
    NoLimitAtTheLastRoute("u32");
    NoLimitAtTheLastRoute("u64");
  }

  /** The limit counts routes for one boundary and one changed type: two boundaries of derived artifacts share
      512 impacts, and no limit is reported. */
  lemma ManyImpactsWithoutLimit()
    ensures DerivedFrom(SOURCE, FanSpec(false, "u32")) && DerivedFrom(TARGET, FanSpec(false, "u64"))
    ensures !ImpactLimitExceeded(SOURCE, TARGET) && |Impacts(SOURCE, TARGET)| >= 512
  {
    FanIsDerived(false, "u32");
    FanIsDerived(false, "u64");
    FanIsNotLimited();
    ImpactsAreDistinct();
    var impacts := seq(512, i requires 0 <= i < 512 => ImpactAt(i));
    hide ImpactAt, FanArtifact, FanSpec, Impacts, ImpactLimitExceeded, DerivedFrom;
    DistinctCount(impacts);
    forall i: nat | i < 512 ensures impacts[i] in Impacts(SOURCE, TARGET) {
      FanImpact(i);
    }
    SubsetIsSmaller((set x | x in impacts), Impacts(SOURCE, TARGET));
  }

  lemma ImpactsAreDistinct()
    ensures forall i: nat, j: nat :: i < j < 512 ==> ImpactAt(i) != ImpactAt(j)
  {
    forall i: nat, j: nat | i < j < 512 ensures ImpactAt(i) != ImpactAt(j) {
      if i % 256 != j % 256 {
        MembersAreDistinct(i % 256, j % 256);
        assert ImpactAt(i).steps[0] != ImpactAt(j).steps[0];
      } else {
        assert i < 256 <= j && "f"[0] != "g"[0];
      }
    }
  }

  lemma DirectIsARoute(k: nat)
    requires k < 256
    ensures IsRoute(Edges(Fan(false)), "R", "T", [Direct(k)])
  {
    assert Fan(false)[k] == Direct(k);
    hide Fan;
    assert Direct(k) in Edges(Fan(false));
  }

  lemma FanImpact(i: nat)
    requires i < 512 && !ImpactLimitExceeded(SOURCE, TARGET)
    ensures ImpactAt(i) in Impacts(SOURCE, TARGET)
  {
    hide IsRoute, Fan, FanSpec, Table, ImpactLimitExceeded, Impacts, ChangedTypes, RetainedBoundaries, IsRetained,
         IsChanged;
    var b, k := ImpactAt(i).boundary, i % 256;
    FanTables(false, "u32");
    FanTables(false, "u64");
    OnlyTChanges();
    DirectIsARoute(k);
    WhatIsTraced(SOURCE, TARGET);
    TraceIsExact(SOURCE, TARGET, ImpactAt(i));
  }
}
