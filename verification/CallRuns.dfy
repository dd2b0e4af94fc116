/** A call-stack semantics of a module, and what the call evidence says about its runs. */
module CallRuns {
  import opened Artifacts
  import opened CallGraph

  /** The functions being executed, innermost last, and the host imports invoked so far. */
  datatype Machine = Machine(stack: seq<nat>, invoked: set<string>)

  function Enter(w: Wasm, m: Machine, f: nat): Machine {
    if IsImport(w, f) then m.(invoked := m.invoked + {w.imports[f]})
    else m.(stack := m.stack + [f])
  }

  function Leave(m: Machine): Machine
    requires m.stack != []
  {
    m.(stack := m.stack[..|m.stack| - 1])
  }

  /** What executing `op` can do. A dynamic call can go anywhere. */
  ghost predicate Executes(w: Wasm, op: Operator, m: Machine, m': Machine)
    requires m.stack != []
  {
    match op
    case Call(f) => m' == Enter(w, m, f)
    case ReturnCall(f) => m' == Enter(w, Leave(m), f)
    case CallIndirect => exists f: nat :: m' == Enter(w, m, f)
    case CallRef => exists f: nat :: m' == Enter(w, m, f)
    case ReturnCallIndirect => exists f: nat :: m' == Enter(w, Leave(m), f)
    case ReturnCallRef => exists f: nat :: m' == Enter(w, Leave(m), f)
    case OtherOperator => m' == m
  }

  /** Control flow inside a body is arbitrary: any of its operators may come next, or a return. */
  ghost predicate Step(w: Wasm, m: Machine, m': Machine) {
    && m.stack != []
    && (|| m' == Leave(m)
        || exists op :: op in Body(w, m.stack[|m.stack| - 1]) && Executes(w, op, m, m'))
  }

  ghost predicate IsRun(w: Wasm, entry: nat, run: seq<Machine>) {
    && run != []
    && run[0] == Enter(w, Machine([], {}), entry)
    && forall i, j :: 0 <= i && i + 1 == j < |run| ==> Step(w, run[i], run[j])
  }

  ghost predicate Invokes(w: Wasm, entry: nat, name: string) {
    exists run: seq<Machine> :: IsRun(w, entry, run) && name in run[|run| - 1].invoked
  }

  ghost predicate WithinEvidence(w: Wasm, entry: nat, e: ExportCallEvidence, m: Machine) {
    m.invoked <= e.hostImports && forall i :: 0 <= i < |m.stack| ==> Reaches(w, entry, m.stack[i])
  }

  lemma EnteringStaysWithin(w: Wasm, entry: nat, e: ExportCallEvidence, m: Machine, f: nat)
    requires IsEvidence(w, entry, e) && WithinEvidence(w, entry, e, m) && Reaches(w, entry, f)
    ensures WithinEvidence(w, entry, e, Enter(w, m, f))
  {
  }

  lemma StepStaysWithin(w: Wasm, entry: nat, e: ExportCallEvidence, m: Machine, m': Machine)
    requires IsEvidence(w, entry, e) && !e.dynamicDispatchReachable
    requires WithinEvidence(w, entry, e, m) && Step(w, m, m')
    ensures WithinEvidence(w, entry, e, m')
  {
    if m' != Leave(m) {
      var f := m.stack[|m.stack| - 1];
      var op :| op in Body(w, f) && Executes(w, op, m, m');
      assert !IsDynamic(op);
      if op.Call? || op.ReturnCall? {
        DirectCallsAreCallOperators(Body(w, f), op.functionIndex);
        ReachesCallee(w, entry, f, op.functionIndex);
        EnteringStaysWithin(w, entry, e, m, op.functionIndex);
        EnteringStaysWithin(w, entry, e, Leave(m), op.functionIndex);
      }
    }
  }

  /** Soundness over runs: without reachable dynamic dispatch, no run of any length
      invokes a host import outside the evidence. */
  lemma {:induction false} RunsStayWithinEvidence(w: Wasm, entry: nat, e: ExportCallEvidence, run: seq<Machine>)
    requires IsEvidence(w, entry, e) && !e.dynamicDispatchReachable && IsRun(w, entry, run)
    ensures WithinEvidence(w, entry, e, run[|run| - 1])
  {
    if |run| == 1 {
      ReachesItself(w, entry);
      EnteringStaysWithin(w, entry, e, Machine([], {}), entry);
    } else {
      var before := run[..|run| - 1];
      assert IsRun(w, entry, before);
      RunsStayWithinEvidence(w, entry, e, before);
      StepStaysWithin(w, entry, e, run[|run| - 2], run[|run| - 1]);
    }
  }

  /** Some run follows a given call path. */
  lemma {:induction false} RunAlong(w: Wasm, entry: nat, path: seq<nat>) returns (run: seq<Machine>)
    requires IsCallPath(w, path) && path[0] == entry
    ensures IsRun(w, entry, run)
    ensures var f, m := path[|path| - 1], run[|run| - 1];
            if IsImport(w, f) then w.imports[f] in m.invoked
            else m.stack != [] && m.stack[|m.stack| - 1] == f
  {
    var last := |path| - 1;
    if last == 0 {
      run := [Enter(w, Machine([], {}), entry)];
    } else {
      assert IsCallPath(w, path[..last]);
      var before := RunAlong(w, entry, path[..last]);
      var caller, m := path[last - 1], before[|before| - 1];
      assert path[last] in DirectCalls(Body(w, caller));
      DirectCallsAreCallOperators(Body(w, caller), path[last]);
      var op := if Call(path[last]) in Body(w, caller) then Call(path[last]) else ReturnCall(path[last]);
      var m' := Enter(w, if op.Call? then m else Leave(m), path[last]);
      assert Executes(w, op, m, m') && Step(w, m, m');
      run := before + [m'];
    }
  }

  /** The evidence is a lower bound always, and exact when no dynamic dispatch is reachable. */
  lemma EvidenceIsExactForRuns(w: Wasm, entry: nat, e: ExportCallEvidence, name: string)
    requires IsEvidence(w, entry, e)
    ensures name in e.hostImports ==> Invokes(w, entry, name)
    ensures !e.dynamicDispatchReachable ==> (name in e.hostImports <==> Invokes(w, entry, name))
  {
    if name in e.hostImports {
      var f: nat :| Reaches(w, entry, f) && IsImport(w, f) && w.imports[f] == name;
      var path :| IsCallPath(w, path) && path[0] == entry && path[|path| - 1] == f;
      var run := RunAlong(w, entry, path);
    }
    if Invokes(w, entry, name) && !e.dynamicDispatchReachable {
      var run: seq<Machine> :| IsRun(w, entry, run) && name in run[|run| - 1].invoked;
      RunsStayWithinEvidence(w, entry, e, run);
    }
  }

  // ----- What the dynamic flag means -----

  /** The operator can enter any function whatever, not just the one it names. */
  ghost predicate CanEnterAnything(w: Wasm, op: Operator, m: Machine)
    requires m.stack != []
  {
    forall f: nat :: Executes(w, op, m, Enter(w, m, f)) || Executes(w, op, m, Enter(w, Leave(m), f))
  }

  /** The dynamic operators are exactly those that can enter anything. */
  lemma DynamicMeansAnything(w: Wasm, op: Operator, m: Machine)
    requires m.stack != []
    ensures IsDynamic(op) <==> CanEnterAnything(w, op, m)
  {
    if CanEnterAnything(w, op, m) {
      var f, g := |w.imports|, |w.imports| + 1;
      EnteringIsTold(w, m, m, f, g);
      EnteringIsTold(w, Leave(m), Leave(m), f, g);
      EnteringIsTold(w, m, Leave(m), f, g);
      EnteringIsTold(w, Leave(m), m, f, g);
      assert Executes(w, op, m, Enter(w, m, f)) || Executes(w, op, m, Enter(w, Leave(m), f));
      assert Executes(w, op, m, Enter(w, m, g)) || Executes(w, op, m, Enter(w, Leave(m), g));
    }
    if IsDynamic(op) {
      forall f: nat ensures Executes(w, op, m, Enter(w, m, f)) || Executes(w, op, m, Enter(w, Leave(m), f)) {}
    }
  }

  lemma EnteringIsTold(w: Wasm, m: Machine, n: Machine, f: nat, g: nat)
    requires !IsImport(w, f) && !IsImport(w, g) && f != g
    ensures Enter(w, m, f) != Enter(w, n, g) && Enter(w, m, f) != m.(stack := m.stack[..|m.stack|])
  {
    var a, b := Enter(w, m, f).stack, Enter(w, n, g).stack;
    assert a[|a| - 1] == f && b[|b| - 1] == g;
    assert |a| == |m.stack| + 1;
  }

  /** The machine stands in a body with such an operator. */
  ghost predicate StandsOpen(w: Wasm, m: Machine) {
    m.stack != [] && exists op :: op in Body(w, m.stack[|m.stack| - 1]) && CanEnterAnything(w, op, m)
  }

  /** Some run comes to stand there. */
  ghost predicate CanGoAnywhere(w: Wasm, entry: nat) {
    exists run: seq<Machine> :: IsRun(w, entry, run) && StandsOpen(w, run[|run| - 1])
  }

  lemma OpenMeansDynamic(w: Wasm, m: Machine)
    requires m.stack != []
    ensures StandsOpen(w, m) <==> HasDynamicDispatch(Body(w, m.stack[|m.stack| - 1]))
  {
    hide CanEnterAnything, IsDynamic, Body;
    forall op ensures IsDynamic(op) <==> CanEnterAnything(w, op, m) { DynamicMeansAnything(w, op, m); }
  }

  /** The dynamic flag is exact: it is set when and only when some run comes to an operator that can enter any
      function whatever. */
  lemma DynamicFlagIsExact(w: Wasm, entry: nat, e: ExportCallEvidence)
    requires IsEvidence(w, entry, e)
    ensures e.dynamicDispatchReachable <==> CanGoAnywhere(w, entry)
  {
    hide StandsOpen, HasDynamicDispatch;
    if e.dynamicDispatchReachable {
      var f: nat :| Reaches(w, entry, f) && HasDynamicDispatch(Body(w, f));
      var path :| IsCallPath(w, path) && path[0] == entry && path[|path| - 1] == f;
      DispatchIsInABody(w, f);
      var run := RunAlong(w, entry, path);
      OpenMeansDynamic(w, run[|run| - 1]);
    } else if run: seq<Machine> :| IsRun(w, entry, run) && StandsOpen(w, run[|run| - 1]) {
      var m := run[|run| - 1];
      RunsStayWithinEvidence(w, entry, e, run);
      OpenStands(w, m);
      OpenMeansDynamic(w, m);
    }
  }

  lemma DispatchIsInABody(w: Wasm, f: nat)
    requires HasDynamicDispatch(Body(w, f))
    ensures !IsImport(w, f)
  {
  }

  lemma OpenStands(w: Wasm, m: Machine)
    requires StandsOpen(w, m)
    ensures m.stack != []
  {
  }
}
