/** Direct-call reachability from each exported function of a WASM module. */
module CallGraph {
  import opened Wrappers
  import opened Artifacts

  /** The operators that matter to the call graph. */
  datatype Operator =
    | Call(functionIndex: nat)
    | ReturnCall(functionIndex: nat)
    | CallIndirect
    | ReturnCallIndirect
    | CallRef
    | ReturnCallRef
    | OtherOperator

  /** A decoded module: the canonical names of its function imports, its function exports
      and the operators of each body. Function indices count imports first, then bodies. */
  datatype Wasm = Wasm(imports: seq<string>, exports: map<string, nat>, bodies: seq<seq<Operator>>)

  datatype FunctionBodyCalls = FunctionBodyCalls(directCalls: seq<nat>, hasDynamicDispatch: bool)

  datatype CallGraphError = TooManyImports | BodyOutOfRange

  predicate IsDynamic(op: Operator) {
    op.CallIndirect? || op.ReturnCallIndirect? || op.CallRef? || op.ReturnCallRef?
  }

  function DirectCalls(body: seq<Operator>): seq<nat> {
    if body == [] then []
    else
      var op, before := body[|body| - 1], DirectCalls(body[..|body| - 1]);
      if op.Call? || op.ReturnCall? then before + [op.functionIndex] else before
  }

  predicate HasDynamicDispatch(body: seq<Operator>) {
    exists op :: op in body && IsDynamic(op)
  }

  /** Reads one body's operators. */
  method ReadBody(body: seq<Operator>) returns (calls: FunctionBodyCalls)
    ensures calls == FunctionBodyCalls(DirectCalls(body), HasDynamicDispatch(body))
  {
    calls := FunctionBodyCalls([], false);
    for i := 0 to |body|
      invariant calls == FunctionBodyCalls(DirectCalls(body[..i]), HasDynamicDispatch(body[..i]))
    {
      assert body[..i + 1][..i] == body[..i] && body[..i + 1] == body[..i] + [body[i]];
      if body[i].Call? || body[i].ReturnCall? {
        calls := calls.(directCalls := calls.directCalls + [body[i].functionIndex]);
      } else if IsDynamic(body[i]) {
        assert body[i] in body[..i + 1];
        calls := calls.(hasDynamicDispatch := true);
      }
    }
    assert body[..|body|] == body;
  }

  lemma {:induction false} DirectCallsAreCallOperators(body: seq<Operator>, callee: nat)
    ensures callee in DirectCalls(body) <==> Call(callee) in body || ReturnCall(callee) in body
  {
    if body != [] {
      DirectCallsAreCallOperators(body[..|body| - 1], callee);
      assert body == body[..|body| - 1] + [body[|body| - 1]];
    }
  }

  // ----- Reachability, declaratively -----

  predicate IsImport(w: Wasm, f: nat) {
    f < |w.imports|
  }

  predicate IsBody(w: Wasm, f: nat) {
    |w.imports| <= f < |w.imports| + |w.bodies|
  }

  function Body(w: Wasm, f: nat): seq<Operator> {
    if IsBody(w, f) then w.bodies[f - |w.imports|] else []
  }

  ghost predicate IsCallPath(w: Wasm, path: seq<nat>) {
    && path != []
    && forall i, j :: 0 <= i && i + 1 == j < |path| ==> path[j] in DirectCalls(Body(w, path[i]))
  }

  ghost predicate Reaches(w: Wasm, entry: nat, f: nat) {
    exists path :: IsCallPath(w, path) && path[0] == entry && path[|path| - 1] == f
  }

  /** Every function that direct calls can lead to exists. */
  ghost predicate ReachesOnlyFunctions(w: Wasm, entry: nat) {
    forall f: nat :: Reaches(w, entry, f) ==> IsImport(w, f) || IsBody(w, f)
  }

  /** What the evidence of an export means. */
  ghost predicate IsEvidence(w: Wasm, entry: nat, e: ExportCallEvidence) {
    && (forall name :: name in e.hostImports <==>
          exists f: nat :: Reaches(w, entry, f) && IsImport(w, f) && w.imports[f] == name)
    && (e.dynamicDispatchReachable <==>
          exists f: nat :: Reaches(w, entry, f) && HasDynamicDispatch(Body(w, f)))
  }

  lemma ReachesItself(w: Wasm, entry: nat)
    ensures Reaches(w, entry, entry)
  {
    assert IsCallPath(w, [entry]);
  }

  lemma ReachesCallee(w: Wasm, entry: nat, f: nat, callee: nat)
    requires Reaches(w, entry, f) && callee in DirectCalls(Body(w, f))
    ensures Reaches(w, entry, callee)
  {
    var path :| IsCallPath(w, path) && path[0] == entry && path[|path| - 1] == f;
    assert IsCallPath(w, path + [callee]);
  }

  /** A set that holds the entry and is closed under direct calls holds everything reachable. */
  lemma {:induction false} ClosedSetHoldsPath(w: Wasm, seen: set<nat>, path: seq<nat>)
    requires IsCallPath(w, path) && path[0] in seen
    requires forall f, c :: f in seen && c in DirectCalls(Body(w, f)) ==> c in seen
    ensures path[|path| - 1] in seen
  {
    if |path| > 1 {
      var shorter := path[..|path| - 1];
      assert IsCallPath(w, shorter);
      ClosedSetHoldsPath(w, seen, shorter);
    }
  }

  lemma ClosedSetHoldsReachable(w: Wasm, seen: set<nat>, entry: nat)
    requires entry in seen && forall f, c :: f in seen && c in DirectCalls(Body(w, f)) ==> c in seen
    ensures forall f: nat :: Reaches(w, entry, f) ==> f in seen
  {
    forall f: nat | Reaches(w, entry, f) ensures f in seen {
      var path :| IsCallPath(w, path) && path[0] == entry && path[|path| - 1] == f;
      ClosedSetHoldsPath(w, seen, path);
    }
  }

  // ----- The worklist -----

  /** The direct calls in the bodies of `visited`, counted with repetition. */
  ghost function CallCount(w: Wasm, visited: set<nat>, upTo: nat): nat
    requires upTo <= |w.bodies|
  {
    if upTo == 0 then 0
    else
      var f := |w.imports| + upTo - 1;
      CallCount(w, visited, upTo - 1) + if f in visited then |DirectCalls(Body(w, f))| else 0
  }

  lemma {:induction false} CallCountGrows(w: Wasm, visited: set<nat>, f: nat, upTo: nat)
    requires upTo <= |w.bodies| && f !in visited && IsBody(w, f)
    ensures CallCount(w, visited + {f}, upTo)
         == CallCount(w, visited, upTo) + if f < |w.imports| + upTo then |DirectCalls(Body(w, f))| else 0
  {
    if upTo > 0 { CallCountGrows(w, visited, f, upTo - 1); }
  }

  lemma {:induction false} CallCountIsMonotone(w: Wasm, small: set<nat>, large: set<nat>, upTo: nat)
    requires upTo <= |w.bodies| && small <= large
    ensures CallCount(w, small, upTo) <= CallCount(w, large, upTo)
  {
    if upTo > 0 { CallCountIsMonotone(w, small, large, upTo - 1); }
  }

  lemma {:induction false} NothingVisitedYet(w: Wasm, upTo: nat)
    requires upTo <= |w.bodies|
    ensures CallCount(w, {}, upTo) == 0
  {
    if upTo > 0 { NothingVisitedYet(w, upTo - 1); }
  }

  ghost function ReachableBodies(w: Wasm, entry: nat): set<nat> {
    set f | 0 <= f < |w.imports| + |w.bodies| && IsBody(w, f) && Reaches(w, entry, f)
  }

  ghost predicate ReadFrom(w: Wasm, bodies: seq<FunctionBodyCalls>) {
    && |bodies| == |w.bodies|
    && forall i :: 0 <= i < |bodies| ==>
         bodies[i] == FunctionBodyCalls(DirectCalls(w.bodies[i]), HasDynamicDispatch(w.bodies[i]))
  }

  function Reversed(s: seq<nat>): (r: seq<nat>)
    ensures |r| == |s|
    ensures forall x :: x in r <==> x in s
  {
    if s == [] then [] else
      assert s == [s[0]] + s[1..];
      Reversed(s[1..]) + [s[0]]
  }

  /** What the worklist knows: `seen` are the functions it has dealt with, `visited` the bodies among them. */
  ghost predicate Tracks(
    w: Wasm, entry: nat, pending: seq<nat>, seen: set<nat>, visited: set<nat>, e: ExportCallEvidence)
  {
    && (entry in pending || entry in seen)
    && (forall f :: f in pending || f in seen ==> Reaches(w, entry, f))
    && (forall f :: f in seen ==> IsImport(w, f) || IsBody(w, f))
    && (forall f, c :: f in seen && c in DirectCalls(Body(w, f)) ==> c in seen || c in pending)
    && visited == (set f | f in seen && !IsImport(w, f))
    && e.hostImports == (set f | f in seen && IsImport(w, f) :: w.imports[f])
    && (e.dynamicDispatchReachable <==> exists f :: f in seen && HasDynamicDispatch(Body(w, f)))
  }

  lemma PopImport(
    w: Wasm, entry: nat, pending: seq<nat>, f: nat, seen: set<nat>, visited: set<nat>, e: ExportCallEvidence)
    requires Tracks(w, entry, pending + [f], seen, visited, e) && IsImport(w, f)
    ensures Tracks(w, entry, pending, seen + {f}, visited, e.(hostImports := e.hostImports + {w.imports[f]}))
  {
    hide Reaches;
    assert f in pending + [f];
  }

  lemma PopVisited(
    w: Wasm, entry: nat, pending: seq<nat>, f: nat, seen: set<nat>, visited: set<nat>, e: ExportCallEvidence)
    requires Tracks(w, entry, pending + [f], seen, visited, e) && f in visited
    ensures Tracks(w, entry, pending, seen, visited, e)
  {
  }

  lemma PopBody(
    w: Wasm, entry: nat, pending: seq<nat>, f: nat, body: FunctionBodyCalls,
    seen: set<nat>, visited: set<nat>, e: ExportCallEvidence, e': ExportCallEvidence)
    requires Tracks(w, entry, pending + [f], seen, visited, e) && IsBody(w, f)
    requires body == FunctionBodyCalls(DirectCalls(Body(w, f)), HasDynamicDispatch(Body(w, f)))
    requires e'.hostImports == e.hostImports
    requires e'.dynamicDispatchReachable == (e.dynamicDispatchReachable || body.hasDynamicDispatch)
    ensures Tracks(w, entry, pending + Reversed(body.directCalls), seen + {f}, visited + {f}, e')
  {
    hide DirectCalls, HasDynamicDispatch, Reversed, Reaches, Body;
    assert f in pending + [f];
    forall c | c in DirectCalls(Body(w, f)) ensures Reaches(w, entry, c) { ReachesCallee(w, entry, f, c); }
  }

  lemma VisitedAreReachable(
    w: Wasm, entry: nat, pending: seq<nat>, seen: set<nat>, visited: set<nat>, e: ExportCallEvidence)
    requires Tracks(w, entry, pending, seen, visited, e)
    ensures visited <= ReachableBodies(w, entry)
    ensures CallCount(w, visited, |w.bodies|) <= CallCount(w, ReachableBodies(w, entry), |w.bodies|)
  {
    CallCountIsMonotone(w, visited, ReachableBodies(w, entry), |w.bodies|);
  }

  /** Everything that visiting a body changes. */
  lemma VisitBody(
    w: Wasm, entry: nat, pending: seq<nat>, f: nat, body: FunctionBodyCalls,
    seen: set<nat>, visited: set<nat>, e: ExportCallEvidence, e': ExportCallEvidence)
    requires Tracks(w, entry, pending + [f], seen, visited, e) && IsBody(w, f) && f !in visited
    requires body == FunctionBodyCalls(DirectCalls(Body(w, f)), HasDynamicDispatch(Body(w, f)))
    requires e'.hostImports == e.hostImports
    requires e'.dynamicDispatchReachable == (e.dynamicDispatchReachable || body.hasDynamicDispatch)
    ensures Tracks(w, entry, pending + Reversed(body.directCalls), seen + {f}, visited + {f}, e')
    ensures CallCount(w, visited + {f}, |w.bodies|) == CallCount(w, visited, |w.bodies|) + |body.directCalls|
    ensures visited + {f} <= ReachableBodies(w, entry)
  {
    hide Tracks, CallCount, ReachableBodies, DirectCalls, HasDynamicDispatch, Reversed;
    PopBody(w, entry, pending, f, body, seen, visited, e, e');
    CallCountGrows(w, visited, f, |w.bodies|);
    VisitedAreReachable(w, entry, pending + Reversed(body.directCalls), seen + {f}, visited + {f}, e');
  }

  lemma StartsTracking(w: Wasm, entry: nat)
    ensures Tracks(w, entry, [entry], {}, {}, ExportCallEvidence({}, false))
    ensures CallCount(w, {}, |w.bodies|) == 0
  {
    ReachesItself(w, entry);
    NothingVisitedYet(w, |w.bodies|);
  }

  lemma PendingIsReachable(
    w: Wasm, entry: nat, pending: seq<nat>, f: nat, seen: set<nat>, visited: set<nat>, e: ExportCallEvidence)
    requires Tracks(w, entry, pending + [f], seen, visited, e)
    ensures Reaches(w, entry, f)
    ensures !IsImport(w, f) && !IsBody(w, f) ==> !ReachesOnlyFunctions(w, entry)
  {
    assert f in pending + [f];
  }

  lemma NothingPending(w: Wasm, entry: nat, seen: set<nat>, visited: set<nat>, e: ExportCallEvidence)
    requires Tracks(w, entry, [], seen, visited, e)
    ensures ReachesOnlyFunctions(w, entry) && IsEvidence(w, entry, e)
  {
    ClosedSetHoldsReachable(w, seen, entry);
  }

  lemma BodyIsRead(w: Wasm, bodies: seq<FunctionBodyCalls>, f: nat)
    requires ReadFrom(w, bodies) && IsBody(w, f)
    ensures bodies[f - |w.imports|] == FunctionBodyCalls(DirectCalls(Body(w, f)), HasDynamicDispatch(Body(w, f)))
  {
  }

  /** The worklist over the combined index space of imports and bodies. */
  method CollectExportCallEvidence(w: Wasm, entry: nat, functionBodies: seq<FunctionBodyCalls>)
    returns (r: Result<ExportCallEvidence, CallGraphError>, ghost iterations: nat)
    requires ReadFrom(w, functionBodies)
    ensures r.Ok? <==> ReachesOnlyFunctions(w, entry)
    ensures r.Ok? ==> IsEvidence(w, entry, r.value)
    ensures r.Err? ==> r.error == BodyOutOfRange
    ensures iterations <= 1 + CallCount(w, ReachableBodies(w, entry), |w.bodies|)
  {
    hide Tracks, Reaches, IsEvidence, ReachesOnlyFunctions, ReachableBodies, CallCount, DirectCalls,
         HasDynamicDispatch, Reversed, Body;
    var importedFunctionCount := |w.imports|;
    var pending: seq<nat> := [entry];
    var visited: set<nat> := {};
    var evidence := ExportCallEvidence({}, false);
    iterations := 0;
    ghost var seen: set<nat> := {};
    StartsTracking(w, entry);
    while pending != []
      invariant Tracks(w, entry, pending, seen, visited, evidence)
      invariant iterations + |pending| == 1 + CallCount(w, visited, |w.bodies|)
      decreases ReachableBodies(w, entry) - visited, |pending|
    {
      VisitedAreReachable(w, entry, pending, seen, visited, evidence);
      var current := pending[|pending| - 1];
      assert pending == pending[..|pending| - 1] + [current];
      pending := pending[..|pending| - 1];
      iterations := iterations + 1;
      if current < importedFunctionCount {
        PopImport(w, entry, pending, current, seen, visited, evidence);
        evidence := evidence.(hostImports := evidence.hostImports + {w.imports[current]});
        seen := seen + {current};
        continue;
      }
      if current in visited {
        PopVisited(w, entry, pending, current, seen, visited, evidence);
        continue;
      }
      var bodyIndex := current - importedFunctionCount;
      if bodyIndex >= |functionBodies| {
        PendingIsReachable(w, entry, pending, current, seen, visited, evidence);
        r := Err(BodyOutOfRange);
        return;
      }
      var body := functionBodies[bodyIndex];
      assert body == FunctionBodyCalls(DirectCalls(Body(w, current)), HasDynamicDispatch(Body(w, current))) by {
        BodyIsRead(w, functionBodies, current);
      }
      ghost var before := evidence;
      evidence := evidence.(dynamicDispatchReachable := evidence.dynamicDispatchReachable || body.hasDynamicDispatch);
      VisitBody(w, entry, pending, current, body, seen, visited, before, evidence);
      visited := visited + {current};
      seen := seen + {current};
      pending := pending + Reversed(body.directCalls);
    }
    VisitedAreReachable(w, entry, pending, seen, visited, evidence);
    NothingPending(w, entry, seen, visited, evidence);
    r := Ok(evidence);
  }

  /** The evidence of every export, or an error when the graph leaves the module. */
  method InspectExportCallEvidence(w: Wasm)
    returns (r: Result<map<string, ExportCallEvidence>, CallGraphError>)
    ensures r.Ok? <==> |w.imports| <= U32_MAX && forall x :: x in w.exports ==> ReachesOnlyFunctions(w, w.exports[x])
    ensures r.Ok? ==> r.value.Keys == w.exports.Keys
                      && forall x :: x in w.exports ==> IsEvidence(w, w.exports[x], r.value[x])
    ensures r.Err? ==> r.error == if |w.imports| > U32_MAX then TooManyImports else BodyOutOfRange
  {
    var functionBodies: seq<FunctionBodyCalls> := [];
    for i := 0 to |w.bodies|
      invariant |functionBodies| == i
      invariant forall j :: 0 <= j < i ==>
                  functionBodies[j] == FunctionBodyCalls(DirectCalls(w.bodies[j]), HasDynamicDispatch(w.bodies[j]))
    {
      var calls := ReadBody(w.bodies[i]);
      functionBodies := functionBodies + [calls];
    }
    if |w.imports| > U32_MAX {
      return Err(TooManyImports);
    }
    var result: map<string, ExportCallEvidence> := map[];
    var todo := w.exports.Keys;
    while todo != {}
      invariant todo <= w.exports.Keys && result.Keys == w.exports.Keys - todo
      invariant forall x :: x in result ==>
                  ReachesOnlyFunctions(w, w.exports[x]) && IsEvidence(w, w.exports[x], result[x])
      decreases todo
    {
      var name :| name in todo;
      var evidence, _ := CollectExportCallEvidence(w, w.exports[name], functionBodies);
      if evidence.Err? {
        return Err(evidence.error);
      }
      result := result[name := evidence.value];
      todo := todo - {name};
    }
    return Ok(result);
  }

  /** Every export's imports are among the imports of the whole artifact. */
  lemma EvidenceIsWithinArtifact(w: Wasm, entry: nat, e: ExportCallEvidence)
    requires IsEvidence(w, entry, e)
    ensures e.hostImports <= set i | 0 <= i < |w.imports| :: w.imports[i]
  {
    forall name | name in e.hostImports ensures exists i :: 0 <= i < |w.imports| && w.imports[i] == name {
      var f: nat :| Reaches(w, entry, f) && IsImport(w, f) && w.imports[f] == name;
    }
  }
}
