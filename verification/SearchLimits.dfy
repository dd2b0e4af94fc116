/** Exactly when the bounded route search reports a limit. */
module SearchLimits {
  import opened Artifacts
  import opened TypeGraph
  import opened PublicImpacts

  // ----- The chains of a type graph, without limits -----

  /** The chains that go on from `e`, itself first, each before its own continuations. */
  ghost function ChainsFrom(references: seq<TypeReference>, target: string, e: Entry): (chains: seq<Route>)
    ensures chains != [] && chains[0] == e.steps
    decreases |Owners(references) - e.active|, 0
  {
    if e.current == target || e.current in e.active || e.current !in Owners(references) then [e.steps]
    else
      LeavingShrinks(references, e);
      [e.steps] + ChainsOver(references, references, target, Leaving(e))
  }

  /** The chains that leave `from` over one of `edges`, in their order. */
  ghost function ChainsOver(
    references: seq<TypeReference>, edges: seq<TypeReference>, target: string, from: Entry): seq<Route>
    decreases |Owners(references) - from.active|, 1 + |edges|
  {
    if edges == [] then []
    else
      var last := |edges| - 1;
      ChainsOver(references, edges[..last], target, from)
      + if edges[last].owner == from.current then ChainsFrom(references, target, Successor(from, edges[last])) else []
  }

  lemma LeavingShrinks(references: seq<TypeReference>, e: Entry)
    requires e.current in Owners(references) && e.current !in e.active
    ensures |Owners(references) - Leaving(e).active| < |Owners(references) - e.active|
  {
    assert Owners(references) - e.active == (Owners(references) - Leaving(e).active) + {e.current};
  }

  /** All chains from `root` that leave no type twice and never leave the target. */
  ghost function AllChains(a: Artifact, root: string, target: string): seq<Route> {
    if root in a.userTypes then ChainsFrom(a.typeReferences, target, Entry(root, [], {})) else []
  }

  /** The chains among `chains` that end at the target. */
  ghost function RoutesAmong(chains: seq<Route>, root: string, target: string): set<Route> {
    set c | c in chains && End(root, c) == target
  }

  // ----- They are the chains that the declarative routes speak of -----

  lemma {:induction false} ChainsFromAreChains(
    references: seq<TypeReference>, root: string, target: string, e: Entry, c: Route)
    requires EntryOk(Edges(references), root, target, e) && c in ChainsFrom(references, target, e)
    ensures e.steps <= c && IsChain(Edges(references), root, c) && IsDirect(target, c)
    decreases |Owners(references) - e.active|, 0
  {
    if c != e.steps {
      LeavingShrinks(references, e);
      ChainsOverAreChains(references, references, root, target, e, c);
    }
  }

  lemma {:induction false} ChainsOverAreChains(
    references: seq<TypeReference>, edges: seq<TypeReference>, root: string, target: string, e: Entry, c: Route)
    requires EntryOk(Edges(references), root, target, e) && e.current != target && e.current !in e.active
    requires e.current in Owners(references)
    requires (forall x :: x in edges ==> x in references) && c in ChainsOver(references, edges, target, Leaving(e))
    ensures e.steps <= c && IsChain(Edges(references), root, c) && IsDirect(target, c)
    decreases |Owners(references) - Leaving(e).active|, 1 + |edges|
  {
    var last := |edges| - 1;
    if c in ChainsOver(references, edges[..last], target, Leaving(e)) {
      ChainsOverAreChains(references, edges[..last], root, target, e, c);
    } else {
      SuccessorOk(Edges(references), root, target, e, edges[last]);
      ChainsFromAreChains(references, root, target, Successor(Leaving(e), edges[last]), c);
    }
  }

  lemma {:induction false} ChainsFromHoldAll(
    references: seq<TypeReference>, root: string, target: string, e: Entry, c: Route)
    requires EntryOk(Edges(references), root, target, e) && e.steps <= c
    requires IsChain(Edges(references), root, c) && IsDirect(target, c)
    ensures c in ChainsFrom(references, target, e)
    decreases |c| - |e.steps|
  {
    var n := |e.steps|;
    if n == |c| {
      assert c == e.steps == ChainsFrom(references, target, e)[0];
    } else {
      var edge := c[n];
      NextStepLeaves(references, root, target, e, c);
      SuccessorOk(Edges(references), root, target, e, edge);
      NextIsPrefix(Leaving(e), c);
      ChainsFromHoldAll(references, root, target, Successor(Leaving(e), edge), c);
      EachEdgeIsFollowed(references, references, target, Leaving(e), edge, c);
      assert c in ChainsOver(references, references, target, Leaving(e));
    }
  }

  lemma NextStepLeaves(references: seq<TypeReference>, root: string, target: string, e: Entry, c: Route)
    requires EntryOk(Edges(references), root, target, e) && e.steps <= c && |e.steps| < |c|
    requires IsChain(Edges(references), root, c) && IsDirect(target, c)
    ensures var edge := c[|e.steps|];
            edge in references && edge.owner == e.current && e.current in Owners(references)
            && e.current != target && e.current !in e.active
  {
    var n := |e.steps|;
    assert c[n] in Edges(references);
    assert forall i :: 0 <= i < n ==> e.steps[i] == c[i];
    assert c[n].owner == e.current by {
      if n > 0 { assert c[n].owner == c[n - 1].target; }
    }
  }

  lemma {:induction false} EachEdgeIsFollowed(
    references: seq<TypeReference>, edges: seq<TypeReference>, target: string, from: Entry, edge: TypeReference,
    c: Route)
    requires edge in edges && edge.owner == from.current && c in ChainsFrom(references, target, Successor(from, edge))
    ensures c in ChainsOver(references, edges, target, from)
  {
    var last := |edges| - 1;
    if edges[last] != edge {
      assert edge in edges[..last];
      EachEdgeIsFollowed(references, edges[..last], target, from, edge, c);
    }
  }

  /** `AllChains` lists exactly the chains from a user type that leave no type twice and never leave the target. */
  lemma AllChainsAreTheDirectChains(a: Artifact, root: string, target: string, c: Route)
    ensures c in AllChains(a, root, target) <==>
            root in a.userTypes && IsChain(Edges(a.typeReferences), root, c) && IsDirect(target, c)
  {
    if root in a.userTypes {
      var start := Entry(root, [], {});
      assert EntryOk(Edges(a.typeReferences), root, target, start);
      if c in AllChains(a, root, target) {
        ChainsFromAreChains(a.typeReferences, root, target, start, c);
      }
      if IsChain(Edges(a.typeReferences), root, c) && IsDirect(target, c) {
        ChainsFromHoldAll(a.typeReferences, root, target, start, c);
      }
    }
  }

  // ----- Each of them is listed once -----

  predicate NoRepeats<T(==)>(s: seq<T>) {
    forall i, j :: 0 <= i < j < |s| ==> s[i] != s[j]
  }

  lemma {:induction false} DistinctCount<T>(s: seq<T>)
    requires NoRepeats(s)
    ensures |set x | x in s| == |s|
  {
    if s != [] {
      var n := |s| - 1;
      DistinctCount(s[..n]);
      assert s == s[..n] + [s[n]];
      assert (set x | x in s) == (set x | x in s[..n]) + {s[n]};
      assert s[n] !in s[..n];
    }
  }

  lemma JoinedWithoutRepeats<T>(a: seq<T>, b: seq<T>)
    requires NoRepeats(a) && NoRepeats(b) && forall x :: x in a ==> x !in b
    ensures NoRepeats(a + b)
  {
    assert forall i :: 0 <= i < |a| ==> a[i] in a;
    assert forall i :: 0 <= i < |b| ==> b[i] in b;
  }

  /** A chain that goes on from `steps` over one of `edges`. */
  ghost predicate GoesOnOver(steps: Route, edges: seq<TypeReference>, c: Route) {
    |c| > |steps| && steps <= c && c[|steps|] in edges
  }

  lemma NextStepIs(steps: Route, edge: TypeReference, c: Route)
    requires steps + [edge] <= c
    ensures |c| > |steps| && steps <= c && c[|steps|] == edge
  {
    assert (steps + [edge])[|steps|] == edge && steps <= steps + [edge];
  }

  lemma {:induction false} ChainsGoOn(references: seq<TypeReference>, target: string, e: Entry, c: Route)
    requires c in ChainsFrom(references, target, e)
    ensures e.steps <= c
    ensures c == e.steps || GoesOnOver(e.steps, references, c)
    decreases |Owners(references) - e.active|, 0
  {
    if c != e.steps {
      LeavingShrinks(references, e);
      ChainsGoOnOver(references, references, target, Leaving(e), c);
    }
  }

  lemma {:induction false} ChainsGoOnOver(
    references: seq<TypeReference>, edges: seq<TypeReference>, target: string, from: Entry, c: Route)
    requires c in ChainsOver(references, edges, target, from)
    ensures GoesOnOver(from.steps, edges, c)
    decreases |Owners(references) - from.active|, 1 + |edges|
  {
    var last := |edges| - 1;
    if c in ChainsOver(references, edges[..last], target, from) {
      ChainsGoOnOver(references, edges[..last], target, from, c);
    } else {
      ChainsGoOn(references, target, Successor(from, edges[last]), c);
      NextStepIs(from.steps, edges[last], c);
    }
  }

  lemma {:induction false} ChainsFromAreDistinct(references: seq<TypeReference>, target: string, e: Entry)
    requires NoRepeats(references)
    ensures NoRepeats(ChainsFrom(references, target, e))
    decreases |Owners(references) - e.active|, 0
  {
    if e.current != target && e.current !in e.active && e.current in Owners(references) {
      LeavingShrinks(references, e);
      ChainsOverAreDistinct(references, references, target, Leaving(e));
      var over := ChainsOver(references, references, target, Leaving(e));
      if e.steps in over { ChainsGoOnOver(references, references, target, Leaving(e), e.steps); }
      JoinedWithoutRepeats([e.steps], over);
    }
  }

  lemma {:induction false} ChainsOverAreDistinct(
    references: seq<TypeReference>, edges: seq<TypeReference>, target: string, from: Entry)
    requires NoRepeats(references) && NoRepeats(edges)
    ensures NoRepeats(ChainsOver(references, edges, target, from))
    decreases |Owners(references) - from.active|, 1 + |edges|
  {
    if edges != [] {
      var last := |edges| - 1;
      ChainsOverAreDistinct(references, edges[..last], target, from);
      if edges[last].owner == from.current {
        var before, next := ChainsOver(references, edges[..last], target, from), Successor(from, edges[last]);
        var after := ChainsFrom(references, target, next);
        ChainsFromAreDistinct(references, target, next);
        forall c | c in before ensures c !in after {
          if c in after {
            ChainsGoOn(references, target, next, c);
            NextStepIs(from.steps, edges[last], c);
          }
          ChainsGoOnOver(references, edges[..last], target, from, c);
        }
        JoinedWithoutRepeats(before, after);
      }
    }
  }

  /** Over references without repeats, such as derived artifacts have, each direct chain is listed once, so that
      the length of the list is the number of direct chains. */
  lemma AllChainsAreCounted(a: Artifact, root: string, target: string)
    requires NoRepeats(a.typeReferences)
    ensures NoRepeats(AllChains(a, root, target))
    ensures |set c | c in AllChains(a, root, target)| == |AllChains(a, root, target)|
  {
    if root in a.userTypes { ChainsFromAreDistinct(a.typeReferences, target, Entry(root, [], {})); }
    DistinctCount(AllChains(a, root, target));
  }

  // ----- The search follows their order -----

  /** The chains that the stack still stands for, the top entry's first. */
  ghost function Ahead(references: seq<TypeReference>, target: string, pending: seq<Entry>): (chains: seq<Route>)
    ensures |chains| >= |pending|
  {
    if pending == [] then []
    else
      var last := |pending| - 1;
      ChainsFrom(references, target, pending[last]) + Ahead(references, target, pending[..last])
  }

  /** The search has dealt with the first chains of `order`, and its stack stands for the others. */
  ghost predicate Follows(references: seq<TypeReference>, root: string, target: string, s: Search, order: seq<Route>) {
    && !s.limited && WithinBudget(s) && s.visited <= |order|
    && order[s.visited..] == Ahead(references, target, s.pending)
    && s.result == RoutesAmong(order[..s.visited], root, target)
    && KnowTheirEnds(root, s.pending)
  }

  ghost predicate KnowTheirEnds(root: string, pending: seq<Entry>) {
    forall i :: 0 <= i < |pending| ==> pending[i].current == End(root, pending[i].steps)
  }

  /** Some limit is in the way of the chains of `order` from number `at` on: there are too many of them, one
      of them is too long, or routes enough are found before the last of them. */
  ghost predicate Overruns(order: seq<Route>, root: string, target: string, at: nat) {
    || |order| > MAX_STEPS
    || (exists i :: at <= i < |order| && |order[i]| > MAX_DEPTH)
    || (at < |order| && |RoutesAmong(order[..|order| - 1], root, target)| >= MAX_PATHS)
  }

  lemma {:induction false} NothingToFollow(
    references: seq<TypeReference>, edges: seq<TypeReference>, target: string, from: Entry)
    requires (forall x :: x in edges ==> x in references) && from.current !in Owners(references)
    ensures ChainsOver(references, edges, target, from) == []
  {
    if edges != [] {
      assert edges[|edges| - 1] in references;
      NothingToFollow(references, edges[..|edges| - 1], target, from);
    }
  }

  lemma {:induction false} PushingKeepsEnds(edges: seq<TypeReference>, root: string, from: Entry, s: Search)
    requires KnowTheirEnds(root, s.pending) && WithinBudget(s)
    ensures var r := PushSuccessors(edges, from, s); KnowTheirEnds(root, r.pending) && WithinBudget(r)
  {
    if edges != [] {
      var last := |edges| - 1;
      PushingKeepsEnds(edges[..last], root, from, s);
      if |s.pending| + s.visited < MAX_STEPS {
        PushingKeepsEnds(edges[..last], root, from, s.(pending := s.pending + [Successor(from, edges[last])]));
      }
    }
  }

  lemma {:induction false} PushingFollows(
    references: seq<TypeReference>, edges: seq<TypeReference>, target: string, from: Entry, s: Search)
    requires !s.limited
    ensures var r, over := PushSuccessors(edges, from, s), ChainsOver(references, edges, target, from);
            && (!r.limited ==> Ahead(references, target, r.pending) == over + Ahead(references, target, s.pending))
            && (r.limited ==> s.visited + |over| + |Ahead(references, target, s.pending)| > MAX_STEPS)
    decreases |edges|
  {
    hide ChainsFrom;
    if edges != [] {
      var last := |edges| - 1;
      if edges[last].owner != from.current {
        PushingFollows(references, edges[..last], target, from, s);
      } else if |s.pending| + s.visited < MAX_STEPS {
        var next := Successor(from, edges[last]);
        var pushed := s.(pending := s.pending + [next]);
        assert pushed.pending[..|s.pending|] == s.pending;
        PushingFollows(references, edges[..last], target, from, pushed);
        assert Ahead(references, target, pushed.pending)
            == ChainsFrom(references, target, next) + Ahead(references, target, s.pending);
      }
    }
  }

  lemma NextChain(references: seq<TypeReference>, root: string, target: string, s: Search, order: seq<Route>)
    requires s.pending != [] && Follows(references, root, target, s, order)
    ensures s.visited < |order| && order[s.visited] == Top(s).steps
    ensures order[s.visited..] == ChainsFrom(references, target, Top(s)) + Ahead(references, target, Popped(s).pending)
    ensures RoutesAmong(order[..s.visited + 1], root, target)
         == s.result + if Top(s).current == target then {Top(s).steps} else {}
  {
    hide ChainsFrom;
    var chains := ChainsFrom(references, target, Top(s)) + Ahead(references, target, Popped(s).pending);
    assert order[s.visited..] == chains;
    assert chains[0] == Top(s).steps == order[s.visited];
    assert order[..s.visited + 1] == order[..s.visited] + [Top(s).steps];
  }

  lemma ChainsWhenExpanding(references: seq<TypeReference>, target: string, e: Entry)
    requires e.current != target && e.current !in e.active
    ensures ChainsFrom(references, target, e) == [e.steps] + ChainsOver(references, references, target, Leaving(e))
  {
    if e.current !in Owners(references) { NothingToFollow(references, references, target, Leaving(e)); }
  }

  lemma ChainsAfterExpanding(references: seq<TypeReference>, root: string, target: string, s: Search, order: seq<Route>)
    requires s.pending != [] && Follows(references, root, target, s, order) && Expands(target, s)
    ensures order[s.visited + 1..] == ChainsOver(references, references, target, Leaving(Top(s)))
                                      + Ahead(references, target, Popped(s).pending)
  {
    hide ChainsFrom, ChainsOver, Ahead, RoutesAmong, Owners;
    NextChain(references, root, target, s, order);
    ChainsWhenExpanding(references, target, Top(s));
    var over := ChainsOver(references, references, target, Leaving(Top(s)));
    assert order[s.visited..] == [Top(s).steps] + over + Ahead(references, target, Popped(s).pending);
  }

  lemma ExpandingFollows(references: seq<TypeReference>, root: string, target: string, s: Search, order: seq<Route>)
    requires s.pending != [] && Follows(references, root, target, s, order) && Expands(target, s)
    ensures var next := Turn(references, target, s);
            if next.limited then |order| > MAX_STEPS else Follows(references, root, target, next, order)
  {
    hide ChainsFrom, ChainsOver, Ahead, RoutesAmong, PushSuccessors, Owners;
    var top, popped := Top(s), Popped(s);
    NextChain(references, root, target, s, order);
    ChainsAfterExpanding(references, root, target, s, order);
    PushingFollows(references, references, target, Leaving(top), popped);
    PushingKeepsEnds(references, root, Leaving(top), popped);
    PushSuccessorsKeeps(references, Leaving(top), popped);
    assert Turn(references, target, s) == PushSuccessors(references, Leaving(top), popped);
  }

  /** A turn takes the next chain, or meets a limit that is really there. */
  lemma TurnFollows(references: seq<TypeReference>, root: string, target: string, s: Search, order: seq<Route>)
    requires s.pending != [] && Follows(references, root, target, s, order)
    ensures var next := Turn(references, target, s);
            && (next.limited ==> Overruns(order, root, target, s.visited))
            && (!next.limited ==>
                  && s.visited < |order| && |order[s.visited]| <= MAX_DEPTH && |s.result| < MAX_PATHS
                  && Follows(references, root, target, next, order))
  {
    hide RoutesAmong, Ahead;
    NextChain(references, root, target, s, order);
    if |s.result| >= MAX_PATHS {
      EarlierRoutesAreFewer(order, s.visited, |order| - 1, root, target);
    } else if Expands(target, s) {
      ExpandingFollows(references, root, target, s, order);
    } else if |Top(s).steps| <= MAX_DEPTH {
      var rest := Ahead(references, target, Popped(s).pending);
      assert order[s.visited + 1..] == rest by { assert order[s.visited..] == [Top(s).steps] + rest; }
    }
  }

  lemma EarlierRoutesAreFewer(order: seq<Route>, i: nat, j: nat, root: string, target: string)
    requires i <= j <= |order|
    ensures |RoutesAmong(order[..i], root, target)| <= |RoutesAmong(order[..j], root, target)|
  {
    assert forall c :: c in order[..i] ==> c in order[..j];
    SubsetIsSmaller(RoutesAmong(order[..i], root, target), RoutesAmong(order[..j], root, target));
  }

  lemma {:induction false} FinishFollows(
    references: seq<TypeReference>, root: string, target: string, s: Search, order: seq<Route>)
    requires Follows(references, root, target, s, order)
    ensures var end := Finish(references, target, s);
            && (end.limited <==> Overruns(order, root, target, s.visited))
            && (!end.limited ==> end.result == RoutesAmong(order, root, target))
    decreases MAX_STEPS - s.visited
  {
    if s.pending == [] {
      assert order[..s.visited] == order;
    } else {
      var next := Turn(references, target, s);
      TurnAdvances(references, target, s);
      TurnFollows(references, root, target, s, order);
      if !next.limited {
        FinishFollows(references, root, target, next, order);
        OneChainLess(order, root, target, s);
      }
    }
  }

  /** A chain that is short enough and comes before the route limit is in nobody's way. */
  lemma OneChainLess(order: seq<Route>, root: string, target: string, s: Search)
    requires s.visited < |order| && |order[s.visited]| <= MAX_DEPTH && |s.result| < MAX_PATHS
    requires s.result == RoutesAmong(order[..s.visited], root, target)
    ensures Overruns(order, root, target, s.visited) <==> Overruns(order, root, target, s.visited + 1)
  {
    hide RoutesAmong;
  }

  /** The graph that `root` opens up is beyond the limits of a search for `target`: more than 10,000 chains,
      a chain of more than 64 edges, or 256 routes before the last chain. */
  ghost predicate IsTooLarge(a: Artifact, root: string, target: string) {
    Overruns(AllChains(a, root, target), root, target, 0)
  }

  /** The limit flag is exact: the search sets it when and only when the graph is too large. */
  lemma SearchIsLimitedIffTooLarge(a: Artifact, root: string, target: string)
    ensures SearchRoutes(a, root, target).1 <==> IsTooLarge(a, root, target)
    ensures !SearchRoutes(a, root, target).1 ==>
              SearchRoutes(a, root, target).0 == RoutesAmong(AllChains(a, root, target), root, target)
  {
    var s, order := Start(a, root), AllChains(a, root, target);
    assert order[0..] == order;
    if root in a.userTypes {
      assert Ahead(a.typeReferences, target, []) == [];
    }
    FinishFollows(a.typeReferences, root, target, s, order);
  }

  /** Tracing is limited exactly when some search that it needs is too large. */
  lemma TraceIsLimitedIffTooLarge(source: Artifact, target: Artifact)
    ensures ImpactLimitExceeded(source, target) <==>
            exists b, c :: IsRetained(source, target, b) && IsChanged(source, target, c)
                           && (IsTooLarge(source, b.rootType, c) || IsTooLarge(target, b.rootType, c))
  {
    WhatIsTraced(source, target);
    hide SearchRoutes, RetainedBoundaries, ChangedTypes, IsRetained, IsChanged, IsTooLarge;
    forall b, c
      ensures SearchLimited(source, target, b, c) <==>
              IsTooLarge(source, b.rootType, c) || IsTooLarge(target, b.rootType, c)
    {
      SearchIsLimitedIffTooLarge(source, b.rootType, c);
      SearchIsLimitedIffTooLarge(target, b.rootType, c);
    }
  }
}
