/** The bounded search for routes through the type-reference graph. */
module TypeGraph {
  import opened Artifacts

  const MAX_DEPTH := 64
  const MAX_PATHS := 256
  const MAX_STEPS := 10_000

  type Route = seq<TypeReference>

  // ----- Routes, declaratively -----

  function Edges(references: seq<TypeReference>): set<TypeReference> {
    set e | e in references
  }

  /** The type where a walk from `root` ends. */
  function End(root: string, steps: Route): string {
    if steps == [] then root else steps[|steps| - 1].target
  }

  /** Each step is an edge and leaves the type where the walk stands. */
  ghost predicate IsChain(edges: set<TypeReference>, root: string, steps: Route) {
    && (forall i :: 0 <= i < |steps| ==> steps[i] in edges)
    && (steps != [] ==> steps[0].owner == root)
    && (forall i, j :: 0 <= i && i + 1 == j < |steps| ==> steps[j].owner == steps[i].target)
  }

  /** No type is left twice, and the target is never left. */
  ghost predicate IsDirect(target: string, steps: Route) {
    && (forall i :: 0 <= i < |steps| ==> steps[i].owner != target)
    && (forall i, j :: 0 <= i < j < |steps| ==> steps[i].owner != steps[j].owner)
  }

  ghost predicate IsRoute(edges: set<TypeReference>, root: string, target: string, steps: Route) {
    IsChain(edges, root, steps) && IsDirect(target, steps) && End(root, steps) == target
  }

  /** Routes start at a user type of the artifact. */
  ghost predicate IsArtifactRoute(a: Artifact, root: string, target: string, steps: Route) {
    root in a.userTypes && IsRoute(Edges(a.typeReferences), root, target, steps)
  }

  // ----- The search, one step at a time -----

  /** A stack entry: where it stands, how it got there and the types it left behind. */
  datatype Entry = Entry(current: string, steps: Route, active: set<string>)

  datatype Search = Search(pending: seq<Entry>, visited: nat, result: set<Route>, limited: bool)

  /** The entry that the search pushes for `edge` when it leaves `from`. */
  function Successor(from: Entry, edge: TypeReference): Entry {
    Entry(edge.target, from.steps + [edge], from.active)
  }

  /** Pushes the successors of `from`, last reference first, until the work budget is spent. */
  function PushSuccessors(references: seq<TypeReference>, from: Entry, s: Search): Search {
    if references == [] then s
    else
      var last := |references| - 1;
      var edge := references[last];
      if edge.owner != from.current then PushSuccessors(references[..last], from, s)
      else if |s.pending| + s.visited >= MAX_STEPS then s.(limited := true)
      else PushSuccessors(references[..last], from, s.(pending := s.pending + [Successor(from, edge)]))
  }

  /** One turn of the search loop. */
  function Turn(references: seq<TypeReference>, target: string, s: Search): Search
    requires s.pending != []
  {
    var last := |s.pending| - 1;
    var top := s.pending[last];
    var s := s.(pending := s.pending[..last], visited := s.visited + 1);
    if s.visited > MAX_STEPS || |top.steps| > MAX_DEPTH || |s.result| >= MAX_PATHS then s.(limited := true)
    else if top.current == target then s.(result := s.result + {top.steps})
    else if top.current in top.active then s
    else PushSuccessors(references, top.(active := top.active + {top.current}), s)
  }

  /** The search run to its end: an empty stack or a limit. */
  function Finish(references: seq<TypeReference>, target: string, s: Search): Search
    requires s.visited <= MAX_STEPS || s.limited
    decreases MAX_STEPS + 1 - s.visited
  {
    if s.pending == [] || s.limited then s
    else
      TurnAdvances(references, target, s);
      Finish(references, target, Turn(references, target, s))
  }

  lemma {:induction false} PushSuccessorsKeeps(references: seq<TypeReference>, from: Entry, s: Search)
    ensures var r := PushSuccessors(references, from, s);
            r.visited == s.visited && r.result == s.result && s.pending <= r.pending
  {
    if references != [] {
      var last := |references| - 1;
      PushSuccessorsKeeps(references[..last], from, s);
      PushSuccessorsKeeps(references[..last], from, s.(pending := s.pending + [Successor(from, references[last])]));
    }
  }

  lemma TurnAdvances(references: seq<TypeReference>, target: string, s: Search)
    requires s.pending != []
    ensures Turn(references, target, s).visited == s.visited + 1
    ensures s.result <= Turn(references, target, s).result
    ensures s.pending[..|s.pending| - 1] <= Turn(references, target, s).pending
  {
    var last := |s.pending| - 1;
    var top := s.pending[last];
    PushSuccessorsKeeps(references, top.(active := top.active + {top.current}),
                        s.(pending := s.pending[..last], visited := s.visited + 1));
  }

  function Start(a: Artifact, root: string): Search {
    Search(if root in a.userTypes then [Entry(root, [], {})] else [], 0, {}, false)
  }

  /** What the bounded search returns: its routes and whether a limit cut it short. */
  function SearchRoutes(a: Artifact, root: string, target: string): (set<Route>, bool) {
    var end := Finish(a.typeReferences, target, Start(a, root));
    (end.result, end.limited)
  }

  // ----- What every turn keeps -----

  function TypesLeft(steps: Route): set<string> {
    set s | s in steps :: s.owner
  }

  lemma TypesLeftGrows(steps: Route, e: TypeReference)
    ensures TypesLeft(steps + [e]) == TypesLeft(steps) + {e.owner}
  {
    assert e in steps + [e];
    assert forall s :: s in steps + [e] <==> s in steps || s == e;
  }

  lemma ChainGrows(edges: set<TypeReference>, root: string, target: string, steps: Route, e: TypeReference)
    requires IsChain(edges, root, steps) && IsDirect(target, steps)
    requires e in edges && e.owner == End(root, steps) && e.owner != target && e.owner !in TypesLeft(steps)
    ensures IsChain(edges, root, steps + [e]) && IsDirect(target, steps + [e])
  {
    assert forall i :: 0 <= i < |steps| ==> steps[i] in steps && steps[i].owner in TypesLeft(steps);
  }

  ghost predicate EntryOk(edges: set<TypeReference>, root: string, target: string, e: Entry) {
    && IsChain(edges, root, e.steps)
    && IsDirect(target, e.steps)
    && e.current == End(root, e.steps)
    && e.active == TypesLeft(e.steps)
    && |e.active| == |e.steps|
  }

  ghost predicate Sound(edges: set<TypeReference>, root: string, target: string, s: Search) {
    && (forall i :: 0 <= i < |s.pending| ==> EntryOk(edges, root, target, s.pending[i]))
    && (forall r :: r in s.result ==> IsRoute(edges, root, target, r) && |r| <= MAX_DEPTH)
    && |s.result| <= MAX_PATHS
  }

  /** The work budget: the stack and the turns taken never exceed it together. */
  ghost predicate WithinBudget(s: Search) {
    |s.pending| + s.visited <= MAX_STEPS
  }

  /** Every route is found already or still has a prefix on the stack. */
  ghost predicate Covers(edges: set<TypeReference>, root: string, target: string, s: Search) {
    forall r :: IsRoute(edges, root, target, r) ==> r in s.result || Pending(s.pending, r)
  }

  ghost predicate Pending(pending: seq<Entry>, r: Route) {
    exists i :: 0 <= i < |pending| && pending[i].steps <= r
  }

  lemma {:induction false} PushingKeeps(
    edges: set<TypeReference>, root: string, target: string, references: seq<TypeReference>, from: Entry, s: Search)
    requires Sound(edges, root, target, s) && WithinBudget(s) && !s.limited
    requires forall e :: e in references && e.owner == from.current ==>
                           EntryOk(edges, root, target, Successor(from, e))
    ensures var r := PushSuccessors(references, from, s);
            && Sound(edges, root, target, r) && WithinBudget(r)
            && (r.limited ==> |r.pending| + r.visited >= MAX_STEPS)
            && (!r.limited ==> forall e :: e in references && e.owner == from.current ==>
              Successor(from, e) in r.pending)
  {
    if references != [] {
      var last := |references| - 1;
      var edge := references[last];
      assert references == references[..last] + [edge];
      if edge.owner != from.current {
        PushingKeeps(edges, root, target, references[..last], from, s);
      } else if |s.pending| + s.visited < MAX_STEPS {
        var pushed := s.(pending := s.pending + [Successor(from, edge)]);
        PushingKeeps(edges, root, target, references[..last], from, pushed);
        PushSuccessorsKeeps(references[..last], from, pushed);
        assert pushed.pending[|s.pending|] == Successor(from, edge);
      }
    }
  }

  lemma SuccessorOk(edges: set<TypeReference>, root: string, target: string, top: Entry, e: TypeReference)
    requires EntryOk(edges, root, target, top)
    requires top.current != target && top.current !in top.active
    requires e in edges && e.owner == top.current
    ensures EntryOk(edges, root, target, Successor(top.(active := top.active + {top.current}), e))
  {
    ChainGrows(edges, root, target, top.steps, e);
    TypesLeftGrows(top.steps, e);
  }

  function Popped(s: Search): Search
    requires s.pending != []
  {
    s.(pending := s.pending[..|s.pending| - 1], visited := s.visited + 1)
  }

  function Top(s: Search): Entry
    requires s.pending != []
  {
    s.pending[|s.pending| - 1]
  }

  function Leaving(e: Entry): Entry {
    e.(active := e.active + {e.current})
  }

  /** The turns that push successors. */
  predicate Expands(target: string, s: Search)
    requires s.pending != []
  {
    && s.visited < MAX_STEPS && |Top(s).steps| <= MAX_DEPTH && |s.result| < MAX_PATHS
    && Top(s).current != target && Top(s).current !in Top(s).active
  }

  lemma ExpandingKeeps(a: Artifact, root: string, target: string, s: Search)
    requires s.pending != [] && !s.limited && Expands(target, s)
    requires Sound(Edges(a.typeReferences), root, target, s) && WithinBudget(s)
    ensures var r := Turn(a.typeReferences, target, s);
            && Sound(Edges(a.typeReferences), root, target, r) && WithinBudget(r)
            && Popped(s).pending <= r.pending && r.result == s.result
            && (r.limited ==> |r.pending| + r.visited >= MAX_STEPS)
            && (!r.limited ==> forall e :: e in a.typeReferences && e.owner == Top(s).current ==>
                                             Successor(Leaving(Top(s)), e) in r.pending)
  {
    hide EntryOk, IsRoute;
    var edges := Edges(a.typeReferences);
    forall e | e in a.typeReferences && e.owner == Top(s).current
      ensures EntryOk(edges, root, target, Successor(Leaving(Top(s)), e))
    {
      SuccessorOk(edges, root, target, Top(s), e);
    }
    PushingKeeps(edges, root, target, a.typeReferences, Leaving(Top(s)), Popped(s));
    PushSuccessorsKeeps(a.typeReferences, Leaving(Top(s)), Popped(s));
  }

  lemma TurnKeeps(a: Artifact, root: string, target: string, s: Search)
    requires s.pending != [] && !s.limited
    requires Sound(Edges(a.typeReferences), root, target, s) && WithinBudget(s)
    ensures var r := Turn(a.typeReferences, target, s);
            && Sound(Edges(a.typeReferences), root, target, r) && WithinBudget(r)
            && (r.limited ==>
              |Top(s).steps| > MAX_DEPTH || |r.result| >= MAX_PATHS || |r.pending| + r.visited >= MAX_STEPS)
  {
    if Expands(target, s) { ExpandingKeeps(a, root, target, s); }
  }

  lemma TurnCovers(a: Artifact, root: string, target: string, s: Search, route: Route)
    requires s.pending != [] && !s.limited && !Turn(a.typeReferences, target, s).limited
    requires Sound(Edges(a.typeReferences), root, target, s) && WithinBudget(s)
    requires IsRoute(Edges(a.typeReferences), root, target, route) && Pending(s.pending, route)
    ensures var r := Turn(a.typeReferences, target, s);
            route in r.result || Pending(r.pending, route)
  {
    var i :| 0 <= i < |s.pending| && s.pending[i].steps <= route;
    if i < |s.pending| - 1 {
      TurnAdvances(a.typeReferences, target, s);
      assert Popped(s).pending[i] == s.pending[i];
      assert Turn(a.typeReferences, target, s).pending[i] == s.pending[i];
    } else {
      TopCovers(a, root, target, s, route);
    }
  }

  lemma TopCovers(a: Artifact, root: string, target: string, s: Search, route: Route)
    requires s.pending != [] && !s.limited && !Turn(a.typeReferences, target, s).limited
    requires Sound(Edges(a.typeReferences), root, target, s) && WithinBudget(s)
    requires IsRoute(Edges(a.typeReferences), root, target, route) && Top(s).steps <= route
    ensures var r := Turn(a.typeReferences, target, s);
            route in r.result || Pending(r.pending, route)
  {
    PrefixOfRoute(Edges(a.typeReferences), root, target, Top(s), route);
    if Top(s).current != target {
      ExpandingKeeps(a, root, target, s);
      NextIsPrefix(Leaving(Top(s)), route);
      NowPending(Turn(a.typeReferences, target, s).pending, Successor(Leaving(Top(s)), route[|Top(s).steps|]), route);
    }
  }

  lemma NextIsPrefix(e: Entry, route: Route)
    requires e.steps <= route && |e.steps| < |route|
    ensures Successor(e, route[|e.steps|]).steps <= route
  {
    assert e.steps == route[..|e.steps|];
  }

  lemma NowPending(pending: seq<Entry>, e: Entry, route: Route)
    requires e in pending && e.steps <= route
    ensures Pending(pending, route)
  {
    var i :| 0 <= i < |pending| && pending[i] == e;
    assert pending[i].steps <= route;
  }

  /** An entry whose steps begin a route is at its end, or can go on along it. */
  lemma PrefixOfRoute(edges: set<TypeReference>, root: string, target: string, e: Entry, route: Route)
    requires EntryOk(edges, root, target, e) && IsRoute(edges, root, target, route) && e.steps <= route
    ensures e.current == target ==> e.steps == route
    ensures e.current != target ==>
              && e.current !in e.active && |e.steps| < |route|
              && route[|e.steps|] in edges && route[|e.steps|].owner == e.current
  {
    var n := |e.steps|;
    assert forall i :: 0 <= i < n ==> e.steps[i] == route[i];
    if n == |route| {
      assert e.steps == route;
    } else {
      assert route[n].owner == e.current;
    }
  }

  lemma {:induction false} FinishKeeps(a: Artifact, root: string, target: string, s: Search)
    requires Sound(Edges(a.typeReferences), root, target, s) && WithinBudget(s) && !s.limited
    ensures var end := Finish(a.typeReferences, target, s);
            && Sound(Edges(a.typeReferences), root, target, end) && WithinBudget(end)
            && (end.limited || end.pending == [])
            && (Covers(Edges(a.typeReferences), root, target, s) && !end.limited ==>
                  Covers(Edges(a.typeReferences), root, target, end))
            && (end.limited && |Owners(a.typeReferences)| <= MAX_DEPTH ==>
                  |end.result| >= MAX_PATHS || |end.pending| + end.visited >= MAX_STEPS)
    decreases MAX_STEPS - s.visited
  {
    if s.pending != [] {
      var next := Turn(a.typeReferences, target, s);
      TurnKeeps(a, root, target, s);
      StepsWithinOwners(a.typeReferences, root, target, Top(s));
      if !next.limited {
        TurnAdvances(a.typeReferences, target, s);
        var edges := Edges(a.typeReferences);
        if Covers(edges, root, target, s) {
          forall r | IsRoute(edges, root, target, r) ensures r in next.result || Pending(next.pending, r) {
            if r !in s.result { TurnCovers(a, root, target, s, r); }
          }
        }
        FinishKeeps(a, root, target, next);
      }
    }
  }

  // ----- Exactness and limits -----

  lemma StartIsGood(a: Artifact, root: string, target: string)
    ensures Sound(Edges(a.typeReferences), root, target, Start(a, root))
    ensures root in a.userTypes ==> Covers(Edges(a.typeReferences), root, target, Start(a, root))
  {
    var s := Start(a, root);
    if root in a.userTypes {
      forall r | IsRoute(Edges(a.typeReferences), root, target, r) ensures Pending(s.pending, r) {
        assert s.pending[0].steps <= r;
      }
    }
  }

  /** Route exactness: without a limit the search returns every route and nothing else;
      with one, what it did return is still made of routes. */
  lemma SearchIsExact(a: Artifact, root: string, target: string)
    ensures var (routes, limited) := SearchRoutes(a, root, target);
            && (forall r :: r in routes ==> IsArtifactRoute(a, root, target, r))
            && (!limited ==> forall r :: IsArtifactRoute(a, root, target, r) ==> r in routes)
            && |routes| <= MAX_PATHS
            && (forall r :: r in routes ==> |r| <= MAX_DEPTH)
  {
    StartIsGood(a, root, target);
    FinishKeeps(a, root, target, Start(a, root));
  }

  function Owners(references: seq<TypeReference>): set<string> {
    set e | e in references :: e.owner
  }

  lemma StepsWithinOwners(references: seq<TypeReference>, root: string, target: string, e: Entry)
    requires EntryOk(Edges(references), root, target, e)
    ensures |e.steps| <= |Owners(references)|
  {
    assert e.active <= Owners(references);
    SubsetIsSmaller(e.active, Owners(references));
  }

  lemma SubsetIsSmaller<T>(small: set<T>, large: set<T>)
    requires small <= large
    ensures |small| <= |large|
  {
    assert large == small + (large - small);
  }

  /** The depth limit is not what stops a search over at most 64 distinct owner types:
      there a limit means 256 routes or a spent work budget. */
  lemma LimitsWithFewOwners(a: Artifact, root: string, target: string)
    requires |Owners(a.typeReferences)| <= MAX_DEPTH
    ensures var end := Finish(a.typeReferences, target, Start(a, root));
            end.limited ==> |end.result| == MAX_PATHS || |end.pending| + end.visited == MAX_STEPS
  {
    StartIsGood(a, root, target);
    FinishKeeps(a, root, target, Start(a, root));
  }

  // ----- The loop -----

  /** The depth-first search over an explicit stack, with its three limits. */
  method RoutesToType(a: Artifact, root: string, target: string) returns (result: set<Route>, limitExceeded: bool)
    ensures (result, limitExceeded) == SearchRoutes(a, root, target)
    ensures forall steps :: steps in result ==> IsArtifactRoute(a, root, target, steps)
    ensures !limitExceeded ==> forall steps :: IsArtifactRoute(a, root, target, steps) ==> steps in result
    ensures |result| <= MAX_PATHS
    ensures forall steps :: steps in result ==> |steps| <= MAX_DEPTH
  {
    hide IsArtifactRoute, IsRoute;
    result := {};
    var visitedSteps := 0;
    limitExceeded := false;
    var pending: seq<Entry> := [];
    if root in a.userTypes {
      pending := pending + [Entry(root, [], {})];
    }
    ghost var goal := SearchRoutes(a, root, target);

    while pending != []
      invariant |pending| + visitedSteps <= MAX_STEPS
      invariant !limitExceeded
      invariant Finish(a.typeReferences, target, Search(pending, visitedSteps, result, limitExceeded))
             == Finish(a.typeReferences, target, Start(a, root))
      decreases MAX_STEPS - visitedSteps
    {
      ghost var before := Search(pending, visitedSteps, result, limitExceeded);
      var Entry(current, steps, activeTypes) := pending[|pending| - 1];
      pending := pending[..|pending| - 1];
      visitedSteps := visitedSteps + 1;
      if visitedSteps > MAX_STEPS || |steps| > MAX_DEPTH || |result| >= MAX_PATHS {
        limitExceeded := true;
        break;
      }
      if current == target {
        result := result + {steps};
        continue;
      }
      if current in activeTypes {
        continue;
      }
      activeTypes := activeTypes + {current};
      ghost var popped := Search(pending, visitedSteps, result, limitExceeded);
      var i := |a.typeReferences|;
      assert a.typeReferences[..i] == a.typeReferences;
      while i > 0
        invariant 0 <= i <= |a.typeReferences|
        invariant |pending| + visitedSteps <= MAX_STEPS
        invariant PushSuccessors(a.typeReferences[..i], Entry(current, steps, activeTypes),
                                 Search(pending, visitedSteps, result, limitExceeded))
               == PushSuccessors(a.typeReferences, Entry(current, steps, activeTypes), popped)
      {
        i := i - 1;
        var edge := a.typeReferences[i];
        assert a.typeReferences[..i + 1][..i] == a.typeReferences[..i];
        if edge.owner != current {
          continue;
        }
        if |pending| + visitedSteps >= MAX_STEPS {
          limitExceeded := true;
          break;
        }
        pending := pending + [Entry(edge.target, steps + [edge], activeTypes)];
      }
      assert Search(pending, visitedSteps, result, limitExceeded) == Turn(a.typeReferences, target, before);
      if limitExceeded {
        break;
      }
    }
    SearchIsExact(a, root, target);
  }
}
