/** Public-impact tracing: which retained function boundaries reach a changed type. */
module PublicImpacts {
  import opened Wrappers
  import JsonValues
  import opened Artifacts
  import opened TypeGraph

  function CanonicalOf(entries: map<string, InterfaceEntry>, name: string): Option<JsonValues.Json> {
    if name in entries then Some(entries[name].canonical) else None
  }

  function ChangedTypes(source: Artifact, target: Artifact): set<string> {
    set n | n in source.userTypes && n in target.userTypes
            && source.userTypes[n].canonical != target.userTypes[n].canonical
  }

  function Boundaries(a: Artifact): set<PublicTypeBoundary> {
    set b | b in a.publicTypeBoundaries
  }

  /** Boundaries of both artifacts whose function did not change. */
  function RetainedBoundaries(source: Artifact, target: Artifact): set<PublicTypeBoundary> {
    set b | b in Boundaries(source) * Boundaries(target)
            && CanonicalOf(source.functions, b.functionName) == CanonicalOf(target.functions, b.functionName)
  }

  function Impact(b: PublicTypeBoundary, changed: string, steps: Route): PublicImpact {
    PublicImpact(changed, b, steps, Fact, Unknown)
  }

  /** The routes that the search finds in both artifacts. */
  function SharedRoutes(source: Artifact, target: Artifact, b: PublicTypeBoundary, changed: string): set<Route> {
    SearchRoutes(source, b.rootType, changed).0 * SearchRoutes(target, b.rootType, changed).0
  }

  predicate SearchLimited(source: Artifact, target: Artifact, b: PublicTypeBoundary, changed: string) {
    SearchRoutes(source, b.rootType, changed).1 || SearchRoutes(target, b.rootType, changed).1
  }

  function ImpactsOf(
    source: Artifact, target: Artifact, boundaries: set<PublicTypeBoundary>, changes: set<string>): set<PublicImpact>
  {
    set b, c, steps | b in boundaries && c in changes && steps in SharedRoutes(source, target, b, c) ::
      Impact(b, c, steps)
  }

  function Impacts(source: Artifact, target: Artifact): set<PublicImpact> {
    ImpactsOf(source, target, RetainedBoundaries(source, target), ChangedTypes(source, target))
  }

  predicate AnyLimited(source: Artifact, target: Artifact,
                       boundaries: set<PublicTypeBoundary>, changes: set<string>) {
    exists b, c :: b in boundaries && c in changes && SearchLimited(source, target, b, c)
  }

  predicate ImpactLimitExceeded(source: Artifact, target: Artifact) {
    AnyLimited(source, target, RetainedBoundaries(source, target), ChangedTypes(source, target))
  }

  // ----- What an impact is -----

  /** The boundary is listed in both artifacts, and its function is the same on both sides or missing on both. */
  ghost predicate IsRetained(source: Artifact, target: Artifact, b: PublicTypeBoundary) {
    var f := b.functionName;
    && b in source.publicTypeBoundaries && b in target.publicTypeBoundaries
    && (f in source.functions <==> f in target.functions)
    && (f in source.functions && f in target.functions ==>
          source.functions[f].canonical == target.functions[f].canonical)
  }

  /** The type is in both artifacts, in two forms. */
  ghost predicate IsChanged(source: Artifact, target: Artifact, t: string) {
    && t in source.userTypes && t in target.userTypes
    && source.userTypes[t].canonical != target.userTypes[t].canonical
  }

  /** A simple route of both type graphs from a retained boundary to a changed type, graded as the fact that it is
      and without a claim about run time. */
  ghost predicate IsImpact(source: Artifact, target: Artifact, i: PublicImpact) {
    && IsRetained(source, target, i.boundary) && IsChanged(source, target, i.changedType)
    && IsArtifactRoute(source, i.boundary.rootType, i.changedType, i.steps)
    && IsArtifactRoute(target, i.boundary.rootType, i.changedType, i.steps)
    && i.structuralReachability == Fact && i.runtimeCompatibility == Unknown
  }

  lemma WhatIsTraced(source: Artifact, target: Artifact)
    ensures forall b :: b in RetainedBoundaries(source, target) <==> IsRetained(source, target, b)
    ensures forall t :: t in ChangedTypes(source, target) <==> IsChanged(source, target, t)
  {
  }

  /** Every reported impact is one, and without a limit every impact is reported. */
  lemma TraceIsExact(source: Artifact, target: Artifact, i: PublicImpact)
    ensures i in Impacts(source, target) ==> IsImpact(source, target, i)
    ensures !ImpactLimitExceeded(source, target) && IsImpact(source, target, i) ==> i in Impacts(source, target)
  {
    var b, changed := i.boundary, i.changedType;
    WhatIsTraced(source, target);
    SearchIsExact(source, b.rootType, changed);
    SearchIsExact(target, b.rootType, changed);
    hide IsRetained, IsChanged, RetainedBoundaries, ChangedTypes, SearchRoutes, IsArtifactRoute;
    if i in Impacts(source, target) {
      assert i.steps in SharedRoutes(source, target, b, changed);
    }
    if !ImpactLimitExceeded(source, target) && IsImpact(source, target, i) {
      assert !SearchLimited(source, target, b, changed);
      assert i == Impact(b, changed, i.steps) && i.steps in SharedRoutes(source, target, b, changed);
    }
  }

  // ----- Tracing -----

  method TracePublicImpacts(source: Artifact, target: Artifact)
    returns (impacts: set<PublicImpact>, limitExceeded: bool)
    ensures impacts == Impacts(source, target)
    ensures limitExceeded == ImpactLimitExceeded(source, target)
    ensures forall i :: i in impacts ==> IsImpact(source, target, i)
    ensures !limitExceeded ==> forall i :: IsImpact(source, target, i) ==> i in impacts
  {
    hide IsImpact, SearchRoutes;
    forall i
      ensures i in Impacts(source, target) ==> IsImpact(source, target, i)
      ensures !ImpactLimitExceeded(source, target) && IsImpact(source, target, i) ==> i in Impacts(source, target)
    {
      TraceIsExact(source, target, i);
    }
    var changes, boundaries := ChangedTypes(source, target), RetainedBoundaries(source, target);
    impacts := {};
    limitExceeded := false;
    var todo := boundaries;
    while todo != {}
      invariant todo <= boundaries
      invariant impacts == ImpactsOf(source, target, boundaries - todo, changes)
      invariant limitExceeded == AnyLimited(source, target, boundaries - todo, changes)
      decreases todo
    {
      var b :| b in todo;
      ghost var done := boundaries - todo;
      var found, limited := TraceBoundary(source, target, b, changes);
      impacts := impacts + found;
      limitExceeded := limitExceeded || limited;
      todo := todo - {b};
      assert boundaries - todo == done + {b};
    }
    assert boundaries - todo == boundaries;
  }

  /** The inner loop: one boundary against every changed type. */
  method TraceBoundary(source: Artifact, target: Artifact, b: PublicTypeBoundary, changes: set<string>)
    returns (impacts: set<PublicImpact>, limitExceeded: bool)
    ensures impacts == ImpactsOf(source, target, {b}, changes)
    ensures limitExceeded == AnyLimited(source, target, {b}, changes)
  {
    impacts := {};
    limitExceeded := false;
    var todo := changes;
    while todo != {}
      invariant todo <= changes
      invariant impacts == ImpactsOf(source, target, {b}, changes - todo)
      invariant limitExceeded == AnyLimited(source, target, {b}, changes - todo)
      decreases todo
    {
      var changed :| changed in todo;
      ghost var done := changes - todo;
      var sourceRoutes, sourceLimited := RoutesToType(source, b.rootType, changed);
      var targetRoutes, targetLimited := RoutesToType(target, b.rootType, changed);
      limitExceeded := limitExceeded || sourceLimited || targetLimited;
      var shared := sourceRoutes * targetRoutes;
      impacts := impacts + set steps | steps in shared :: Impact(b, changed, steps);
      todo := todo - {changed};
      assert changes - todo == done + {changed};
      AddChange(source, target, b, done, changed);
    }
    assert changes - todo == changes;
  }

  lemma AddChange(source: Artifact, target: Artifact, b: PublicTypeBoundary, done: set<string>, c: string)
    ensures ImpactsOf(source, target, {b}, done + {c})
         == ImpactsOf(source, target, {b}, done) + set r | r in SharedRoutes(source, target, b, c) :: Impact(b, c, r)
    ensures AnyLimited(source, target, {b}, done + {c})
        <==> AnyLimited(source, target, {b}, done) || SearchLimited(source, target, b, c)
  {
  }

  // ----- What a completed trace cannot miss -----

  /** An owner with the same canonical entry on both sides has the same references on both sides. */
  ghost predicate ReferencesFollowEntries(source: Artifact, target: Artifact) {
    forall e: TypeReference :: e.owner in source.userTypes && e.owner in target.userTypes
         && source.userTypes[e.owner].canonical == target.userTypes[e.owner].canonical
      ==> (e in source.typeReferences <==> e in target.typeReferences)
  }

  /** A walk through the source graph that stays within the types of both artifacts. */
  ghost predicate IsSharedWalk(source: Artifact, target: Artifact, root: string, path: Route) {
    && root in source.userTypes && root in target.userTypes
    && IsChain(Edges(source.typeReferences), root, path)
    && forall i :: 0 <= i < |path| ==> path[i].target in source.userTypes && path[i].target in target.userTypes
  }

  /** No missed change: when no limit is hit, a retained boundary whose root leads to a changed
      type has at least one impact, for a changed type on the way there. */
  lemma NoMissedChange(source: Artifact, target: Artifact, b: PublicTypeBoundary, path: Route)
    requires ReferencesFollowEntries(source, target) && !ImpactLimitExceeded(source, target)
    requires IsRetained(source, target, b) && IsSharedWalk(source, target, b.rootType, path)
    requires IsChanged(source, target, End(b.rootType, path))
    ensures exists i, k :: i in Impacts(source, target) && i.boundary == b
                           && 0 <= k <= |path| && i.changedType == End(b.rootType, path[..k])
  {
    var k := FirstChange(source, target, b.rootType, path, 0);
    var changed, shared := End(b.rootType, path[..k]), Edges(source.typeReferences) * Edges(target.typeReferences);
    assert IsChain(shared, b.rootType, path[..k]);
    var steps := CutCycles(shared, b.rootType, changed, path[..k]);
    assert IsArtifactRoute(source, b.rootType, changed, steps) && IsArtifactRoute(target, b.rootType, changed, steps);
    var i := PublicImpact(changed, b, steps, Fact, Unknown);
    TraceIsExact(source, target, i);
    assert i.changedType == End(b.rootType, path[..k]);
  }

  /** The first changed type on a walk; what comes before it is unchanged and shared. */
  lemma {:induction false} FirstChange(
    source: Artifact, target: Artifact, root: string, path: Route, from: nat) returns (k: nat)
    requires ReferencesFollowEntries(source, target) && IsSharedWalk(source, target, root, path)
    requires IsChanged(source, target, End(root, path))
    requires from <= |path|
    requires forall i :: 0 <= i < from ==> !IsChanged(source, target, path[i].owner)
    ensures k <= |path| && IsChanged(source, target, End(root, path[..k]))
    ensures forall i :: 0 <= i < k ==> !IsChanged(source, target, path[i].owner)
    ensures forall i :: 0 <= i < k ==> path[i] in Edges(target.typeReferences)
    decreases |path| - from
  {
    if IsChanged(source, target, End(root, path[..from])) {
      k := from;
      forall i | 0 <= i < k ensures path[i] in target.typeReferences {
        assert path[i] in source.typeReferences;
        if i > 0 { assert path[i].owner == path[i - 1].target; }
      }
    } else {
      assert path[..|path|] == path;
      assert from < |path| && path[from].owner == End(root, path[..from]);
      k := FirstChange(source, target, root, path, from + 1);
    }
  }

  /** A walk that never leaves its last type can be shortened to a route. */
  lemma {:induction false} CutCycles(edges: set<TypeReference>, root: string, target: string, path: Route)
    returns (steps: Route)
    requires IsChain(edges, root, path) && End(root, path) == target
    requires forall i :: 0 <= i < |path| ==> path[i].owner != target
    ensures IsRoute(edges, root, target, steps)
    decreases |path|
  {
    if i, j :| 0 <= i < j < |path| && path[i].owner == path[j].owner {
      var shorter := path[..i] + path[j..];
      assert forall k :: 0 <= k < |shorter| ==> shorter[k] == if k < i then path[k] else path[k - i + j];
      steps := CutCycles(edges, root, target, shorter);
    } else {
      steps := path;
    }
  }
}
