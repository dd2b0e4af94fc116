/** The comparison of two public interfaces. */
module InterfaceChecks {
  import JsonValues
  import opened Artifacts
  import SchemaHistories

  /** Some entry kept its name but not its canonical form. */
  predicate Changed(before: map<string, InterfaceEntry>, after: map<string, InterfaceEntry>, name: string) {
    name in before && name in after && before[name].canonical != after[name].canonical
  }

  predicate Dropped(before: map<string, InterfaceEntry>, after: map<string, InterfaceEntry>, name: string) {
    name in before && name !in after
  }

  predicate IsOptionType(value: JsonValues.Json) {
    value.Object? && "option" in value.members
  }

  /** A struct that kept all its fields and gained some, all of them optional. */
  predicate OnlyOptionalFieldsAdded(before: InterfaceEntry, after: InterfaceEntry) {
    && before.kind == "struct" && after.kind == "struct"
    && SchemaHistories.StructFields(before).Some? && SchemaHistories.StructFields(after).Some?
    && var o, n := SchemaHistories.StructFields(before).value, SchemaHistories.StructFields(after).value;
       && |n| > |o|
       && (forall f :: f in o ==> f in n && n[f] == o[f])
       && (forall f :: f in n && f !in o ==> IsOptionType(n[f]))
  }

  predicate SparseReadAvailable(target: Artifact, context: ValidationContext) {
    && context.targetProtocolVersion.Some? && context.targetProtocolVersion.value >= CAP_0086_PROTOCOL
    && target.UsesSparseRead()
  }

  function FunctionFindings(source: Artifact, target: Artifact, policy: Policy, name: string): set<Finding> {
    When(policy.denyRemovedFunctions && Dropped(source.functions, target.functions, name), Fail(ABI001, [name]))
    + When(policy.denyChangedFunctions && Changed(source.functions, target.functions, name), Fail(ABI002, [name]))
  }

  function EventFindings(source: Artifact, target: Artifact, policy: Policy, name: string): set<Finding> {
    When(policy.denyRemovedEvents && Dropped(source.events, target.events, name), Fail(EVT001, [name]))
    + When(policy.denyChangedEvents && Changed(source.events, target.events, name), Fail(EVT002, [name]))
  }

  function TypeFindings(
    source: Artifact, target: Artifact, policy: Policy, context: ValidationContext, name: string): set<Finding>
  {
    When(policy.denyChangedUserTypes && Dropped(source.userTypes, target.userTypes, name), Fail(ABI003, [name]))
    + if policy.denyChangedUserTypes && Changed(source.userTypes, target.userTypes, name)
      then {ChangedTypeFinding(source, target, context, name)} else {}
  }

  /** How a changed user type is classified. Every class is an error. */
  function ChangedTypeFinding(
    source: Artifact, target: Artifact, context: ValidationContext, name: string): (f: Finding)
    requires Changed(source.userTypes, target.userTypes, name)
    ensures f.severity == Error
  {
    if !OnlyOptionalFieldsAdded(source.userTypes[name], target.userTypes[name]) then Fail(ABI004, [name])
    else if SparseReadAvailable(target, context) then Fail(CAP005, [name])
    else Fail(CAP006, [name])
  }

  function InterfaceFindings(
    source: Artifact, target: Artifact, policy: Policy, context: ValidationContext): set<Finding>
  {
    (set name, x | name in source.functions && x in FunctionFindings(source, target, policy, name) :: x)
    + (set name, x | name in source.events && x in EventFindings(source, target, policy, name) :: x)
    + (set name, x | name in source.userTypes && x in TypeFindings(source, target, policy, context, name) :: x)
  }

  method CompareInterfaces(
    source: Artifact, target: Artifact, policy: Policy, context: ValidationContext, findings: set<Finding>)
    returns (out: set<Finding>)
    ensures out == findings + InterfaceFindings(source, target, policy, context)
  {
    out := CompareFunctions(source, target, policy, findings);
    out := CompareEvents(source, target, policy, out);
    out := CompareTypes(source, target, policy, context, out);
  }

  method CompareFunctions(source: Artifact, target: Artifact, policy: Policy, findings: set<Finding>)
    returns (out: set<Finding>)
    ensures out == findings
                 + set name, x | name in source.functions && x in FunctionFindings(source, target, policy, name) :: x
  {
    out := findings;
    var todo := source.functions.Keys;
    while todo != {}
      invariant todo <= source.functions.Keys
      invariant out == findings + set name, x | name in source.functions.Keys - todo
                                                && x in FunctionFindings(source, target, policy, name) :: x
      decreases todo
    {
      var name :| name in todo;
      ghost var done, before := source.functions.Keys - todo, out;
      if name !in target.functions {
        if policy.denyRemovedFunctions {
          out := out + {Fail(ABI001, [name])};
        }
      } else if policy.denyChangedFunctions && source.functions[name].canonical != target.functions[name].canonical {
        out := out + {Fail(ABI002, [name])};
      }
      assert out == before + FunctionFindings(source, target, policy, name);
      todo := todo - {name};
      assert source.functions.Keys - todo == done + {name};
    }
  }

  method CompareEvents(source: Artifact, target: Artifact, policy: Policy, findings: set<Finding>)
    returns (out: set<Finding>)
    ensures out == findings
                 + set name, x | name in source.events && x in EventFindings(source, target, policy, name) :: x
  {
    out := findings;
    var todo := source.events.Keys;
    while todo != {}
      invariant todo <= source.events.Keys
      invariant out == findings + set name, x | name in source.events.Keys - todo
                                                && x in EventFindings(source, target, policy, name) :: x
      decreases todo
    {
      var name :| name in todo;
      ghost var done, before := source.events.Keys - todo, out;
      if name !in target.events {
        if policy.denyRemovedEvents {
          out := out + {Fail(EVT001, [name])};
        }
      } else if policy.denyChangedEvents && source.events[name].canonical != target.events[name].canonical {
        out := out + {Fail(EVT002, [name])};
      }
      assert out == before + EventFindings(source, target, policy, name);
      todo := todo - {name};
      assert source.events.Keys - todo == done + {name};
    }
  }

  method CompareTypes(
    source: Artifact, target: Artifact, policy: Policy, context: ValidationContext, findings: set<Finding>)
    returns (out: set<Finding>)
    ensures out == findings
                 + set name, x | name in source.userTypes
                   && x in TypeFindings(source, target, policy, context, name) :: x
  {
    out := findings;
    var todo := source.userTypes.Keys;
    while todo != {}
      invariant todo <= source.userTypes.Keys
      invariant out == findings + set name, x | name in source.userTypes.Keys - todo
                                                && x in TypeFindings(source, target, policy, context, name) :: x
      decreases todo
    {
      var name :| name in todo;
      ghost var done, before := source.userTypes.Keys - todo, out;
      if name !in target.userTypes {
        if policy.denyChangedUserTypes {
          out := out + {Fail(ABI003, [name])};
        }
      } else if policy.denyChangedUserTypes && source.userTypes[name].canonical != target.userTypes[name].canonical {
        out := out + {ChangedTypeFinding(source, target, context, name)};
      }
      assert out == before + TypeFindings(source, target, policy, context, name);
      todo := todo - {name};
      assert source.userTypes.Keys - todo == done + {name};
    }
  }

  // ----- What a comparison without errors says -----

  ghost predicate Retained(before: map<string, InterfaceEntry>, after: map<string, InterfaceEntry>) {
    forall name :: !Dropped(before, after, name)
  }

  ghost predicate Unchanged(before: map<string, InterfaceEntry>, after: map<string, InterfaceEntry>) {
    forall name :: !Changed(before, after, name)
  }

  ghost predicate InterfaceKept(source: Artifact, target: Artifact, policy: Policy) {
    && (policy.denyRemovedFunctions ==> Retained(source.functions, target.functions))
    && (policy.denyChangedFunctions ==> Unchanged(source.functions, target.functions))
    && (policy.denyRemovedEvents ==> Retained(source.events, target.events))
    && (policy.denyChangedEvents ==> Unchanged(source.events, target.events))
    && (policy.denyChangedUserTypes ==>
          Retained(source.userTypes, target.userTypes) && Unchanged(source.userTypes, target.userTypes))
  }

  /** No interface error exactly when every protected entry is kept: no optional-field addition,
      protocol version or host import makes a changed user type acceptable. */
  lemma NoInterfaceErrorIffKept(source: Artifact, target: Artifact, policy: Policy, context: ValidationContext)
    ensures NoErrors(InterfaceFindings(source, target, policy, context)) <==> InterfaceKept(source, target, policy)
  {
    hide FunctionFindings, EventFindings, TypeFindings;
    var all := InterfaceFindings(source, target, policy, context);
    forall name ensures NoErrors(all) ==> name in source.functions ==>
      NoErrors(FunctionFindings(source, target, policy, name)) {
      assert name in source.functions ==> forall x :: x in FunctionFindings(source, target, policy, name) ==> x in all;
    }
    forall name ensures NoErrors(all) ==> name in source.events ==>
      NoErrors(EventFindings(source, target, policy, name)) {
      assert name in source.events ==> forall x :: x in EventFindings(source, target, policy, name) ==> x in all;
    }
    forall name ensures NoErrors(all) ==> name in source.userTypes ==>
      NoErrors(TypeFindings(source, target, policy, context, name)) {
      assert name in source.userTypes ==>
          forall x :: x in TypeFindings(source, target, policy, context, name) ==> x in all;
    }
    forall name
      ensures NoErrors(FunctionFindings(source, target, policy, name)) <==>
                && !(policy.denyRemovedFunctions && Dropped(source.functions, target.functions, name))
                && !(policy.denyChangedFunctions && Changed(source.functions, target.functions, name))
      ensures NoErrors(EventFindings(source, target, policy, name)) <==>
                && !(policy.denyRemovedEvents && Dropped(source.events, target.events, name))
                && !(policy.denyChangedEvents && Changed(source.events, target.events, name))
      ensures NoErrors(TypeFindings(source, target, policy, context, name)) <==>
                !policy.denyChangedUserTypes
                || (!Dropped(source.userTypes, target.userTypes, name)
                  && !Changed(source.userTypes, target.userTypes, name))
    {
      OneName(source, target, policy, context, name);
    }
  }

  lemma OneName(source: Artifact, target: Artifact, policy: Policy, context: ValidationContext, name: string)
    ensures NoErrors(FunctionFindings(source, target, policy, name)) <==>
              && !(policy.denyRemovedFunctions && Dropped(source.functions, target.functions, name))
              && !(policy.denyChangedFunctions && Changed(source.functions, target.functions, name))
    ensures NoErrors(EventFindings(source, target, policy, name)) <==>
              && !(policy.denyRemovedEvents && Dropped(source.events, target.events, name))
              && !(policy.denyChangedEvents && Changed(source.events, target.events, name))
    ensures NoErrors(TypeFindings(source, target, policy, context, name)) <==>
              !policy.denyChangedUserTypes
              || (!Dropped(source.userTypes, target.userTypes, name)
                && !Changed(source.userTypes, target.userTypes, name))
  {
    var f, e, t := FunctionFindings(source, target, policy, name), EventFindings(source, target, policy, name),
                   TypeFindings(source, target, policy, context, name);
    assert NoErrors(f) ==> Fail(ABI001, [name]) !in f && Fail(ABI002, [name]) !in f;
    assert NoErrors(e) ==> Fail(EVT001, [name]) !in e && Fail(EVT002, [name]) !in e;
    assert NoErrors(t) ==> Fail(ABI003, [name]) !in t;
    if policy.denyChangedUserTypes && Changed(source.userTypes, target.userTypes, name) {
      assert ChangedTypeFinding(source, target, context, name) in t;
    }
  }
}
