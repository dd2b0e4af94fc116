/** Whole runs of the counter: migration on first use against migration up front, and what
    every run keeps across the upgrade. */
module CounterRuns {
  import opened Wrappers
  import opened Counter

  datatype Run = Run(store: Store, replies: seq<Outcome<Reply>>)

  // ----- Lazy and eager migration -----

  /** Calls to version 2, for as long as it stays installed. */
  function RunV2(v2: WasmHash, s: Store, calls: seq<Invocation>): Run
    decreases calls
  {
    if calls == [] || s.wasm != v2 then Run(s, [])
    else
      var (next, reply) := InvokeV2(s, calls[0]);
      var rest := RunV2(v2, next, calls[1..]);
      Run(rest.store, [reply] + rest.replies)
  }

  /** Two storages that one load makes equal. */
  ghost predicate SameOnceLoaded(a: Store, b: Store) {
    Load(a) == Load(b) && Load(a).1.Return?
  }

  lemma LoadingTwiceIsLoadingOnce(s: Store)
    ensures Load(s).1.Return? ==> Load(Load(s).0) == Load(s)
  {
  }

  /** One call cannot tell the two apart. */
  lemma CallsCannotTell(a: Store, b: Store, i: Invocation)
    requires SameOnceLoaded(a, b)
    ensures InvokeV2(a, i).1 == InvokeV2(b, i).1
    ensures SameOnceLoaded(InvokeV2(a, i).0, InvokeV2(b, i).0)
    ensures InvokeV2(a, i).0.wasm == InvokeV2(b, i).0.wasm
  {
  }

  lemma {:induction false} RunsCannotTell(v2: WasmHash, a: Store, b: Store, calls: seq<Invocation>)
    requires SameOnceLoaded(a, b)
    ensures RunV2(v2, a, calls).replies == RunV2(v2, b, calls).replies
    ensures SameOnceLoaded(RunV2(v2, a, calls).store, RunV2(v2, b, calls).store)
    decreases calls
  {
    assert a.wasm == Load(a).0.wasm == Load(b).0.wasm == b.wasm;
    if calls != [] && a.wasm == v2 {
      CallsCannotTell(a, b, calls[0]);
      RunsCannotTell(v2, InvokeV2(a, calls[0]).0, InvokeV2(b, calls[0]).0, calls[1..]);
    }
  }

  /** Lazy equals eager: from any storage that loads, a run of version 2 gives the same replies and traps
      whether or not it is migrated first, and one more load leaves the same storage. */
  lemma LazyEqualsEager(v2: WasmHash, s: Store, calls: seq<Invocation>)
    requires Load(s).1.Return?
    ensures var lazy, eager := RunV2(v2, s, calls), RunV2(v2, Load(s).0, calls);
            && lazy.replies == eager.replies
            && Load(lazy.store) == Load(eager.store) && Load(lazy.store).1.Return?
  {
    LoadingTwiceIsLoadingOnce(s);
    RunsCannotTell(v2, s, Load(s).0, calls);
  }

  // ----- Runs across the upgrade -----

  /** The versions that can be installed: each hash names one, and they differ. */
  datatype Versions = Versions(v1: WasmHash, v2: WasmHash)

  /** The host runs whichever version is installed. */
  function Dispatch(v: Versions, s: Store, i: Invocation): (Store, Outcome<Reply>) {
    if s.wasm == v.v1 then InvokeV1(s, i) else InvokeV2(s, i)
  }

  /** Upgrades that are not refused stay at the installed version or go from version 1 to version 2. A refused
      call may name any executable. */
  predicate GoesForward(v: Versions, s: Store, i: Invocation) {
    i.call.Upgrade? && AdminTrap(s, i.call.operator, i.signers).None? ==>
      i.call.newWasmHash == v.v2 || (i.call.newWasmHash == v.v1 && s.wasm == v.v1)
  }

  function Play(v: Versions, s: Store, calls: seq<Invocation>): Run {
    if calls == [] then Run(s, [])
    else
      var before := Play(v, s, calls[..|calls| - 1]);
      var (next, reply) := Dispatch(v, before.store, calls[|calls| - 1]);
      Run(next, before.replies + [reply])
  }

  predicate PlaysForward(v: Versions, s: Store, calls: seq<Invocation>) {
    calls == [] ||
    (PlaysForward(v, s, calls[..|calls| - 1])
     && GoesForward(v, Play(v, s, calls[..|calls| - 1]).store, calls[|calls| - 1]))
  }

  function SuccessfulIncrements(calls: seq<Invocation>, replies: seq<Outcome<Reply>>): nat
    requires |calls| == |replies|
  {
    if calls == [] then 0
    else
      var last := |calls| - 1;
      SuccessfulIncrements(calls[..last], replies[..last])
      + if calls[last].call.Increment? && replies[last].Return? then 1 else 0
  }

  /** The schema version tells the layout, the installed version can read it, and the count is within u32. */
  ghost predicate Sound(v: Versions, s: Store, admin: Address, increments: nat) {
    && s.admin == Some(admin) && s.config.Some? && s.schemaVersion.Some?
    && (s.schemaVersion.value < 2 <==> s.config.value.ConfigV1?)
    && (s.wasm == v.v1 || s.wasm == v.v2)
    && (s.wasm == v.v1 ==> s.config.value.ConfigV1?)
    && s.config.value.count == increments <= U32_MAX
  }

  predicate IsDecodeTrap(r: Outcome<Reply>) {
    r == Trapped(MissingKey) || r == Trapped(Undecodable)
  }

  lemma CallKeepsSound(v: Versions, s: Store, admin: Address, increments: nat, i: Invocation)
    requires v.v1 != v.v2 && Sound(v, s, admin, increments) && GoesForward(v, s, i)
    ensures var (next, reply) := Dispatch(v, s, i);
            && !IsDecodeTrap(reply)
            && Sound(v, next, admin, increments + if i.call.Increment? && reply.Return? then 1 else 0)
  {
  }

  /** What every run keeps, from a version 1 or a version 2 deployment, across any forward upgrades:
      the schema version is below 2 exactly while Config has the version 1 layout, so no read ever fails
      to decode; the admin never changes; and the count is the number of successful increments. */
  lemma {:induction false} EveryRunIsSound(v: Versions, admin: Address, startsAtV1: bool, calls: seq<Invocation>)
    requires v.v1 != v.v2
    requires var start := if startsAtV1 then ConstructedV1(admin, v.v1) else ConstructedV2(admin, v.v2);
             PlaysForward(v, start, calls)
    ensures var start := if startsAtV1 then ConstructedV1(admin, v.v1) else ConstructedV2(admin, v.v2);
            var run := Play(v, start, calls);
            && |run.replies| == |calls|
            && Sound(v, run.store, admin, SuccessfulIncrements(calls, run.replies))
            && Load(run.store).1.Return?
            && forall k :: 0 <= k < |calls| ==> !IsDecodeTrap(run.replies[k])
  {
    var start := if startsAtV1 then ConstructedV1(admin, v.v1) else ConstructedV2(admin, v.v2);
    if calls != [] {
      var init := calls[..|calls| - 1];
      EveryRunIsSound(v, admin, startsAtV1, init);
      var before, run := Play(v, start, init), Play(v, start, calls);
      CallKeepsSound(v, before.store, admin, SuccessfulIncrements(init, before.replies), calls[|calls| - 1]);
      assert run.replies[..|init|] == before.replies;
    }
  }

  /** The operator that a call names, for the calls that only the admin may make. */
  function OperatorOf(call: Call): Option<Address> {
    match call
    case SetPaused(operator, _) => Some(operator)
    case Migrate(operator) => Some(operator)
    case Upgrade(_, operator) => Some(operator)
    case _ => None
  }

  /** Only the admin of the deployment operates it, after every run: pausing, migrating and upgrading succeed
      exactly when the call names that admin and carries that admin's authorization, and change nothing otherwise.
      Version 1 has upgrading only. */
  lemma OnlyTheAdminOperates(v: Versions, admin: Address, startsAtV1: bool, before: seq<Invocation>, i: Invocation)
    requires v.v1 != v.v2 && OperatorOf(i.call).Some?
    requires var start := if startsAtV1 then ConstructedV1(admin, v.v1) else ConstructedV2(admin, v.v2);
             PlaysForward(v, start, before)
    ensures var start := if startsAtV1 then ConstructedV1(admin, v.v1) else ConstructedV2(admin, v.v2);
            var s := Play(v, start, before).store;
            var (next, reply) := Dispatch(v, s, i);
            && (reply.Return? <==>
                  && OperatorOf(i.call) == Some(admin) && admin in i.signers
                  && (s.wasm == v.v1 ==> i.call.Upgrade?))
            && (!reply.Return? ==> next == s)
  {
    EveryRunIsSound(v, admin, startsAtV1, before);
  }

  /** The upgrade is invisible to readers: after every run that stays at version 1, version 2 counts what
      version 1 counts, which is the number of successful increments, and reports that it is not paused. */
  lemma UpgradeKeepsTheCount(v: Versions, admin: Address, before: seq<Invocation>, signers: set<Address>)
    requires v.v1 != v.v2 && PlaysForward(v, ConstructedV1(admin, v.v1), before)
    requires Play(v, ConstructedV1(admin, v.v1), before).store.wasm == v.v1
    ensures var run := Play(v, ConstructedV1(admin, v.v1), before);
            && |run.replies| == |before|
            && InvokeV1(run.store, Invocation(GetCount, signers)).1
               == InvokeV2(run.store, Invocation(GetCount, signers)).1
               == Return(Count(SuccessfulIncrements(before, run.replies)))
            && InvokeV2(run.store, Invocation(GetPaused, signers)).1 == Return(Flag(false))
  {
    EveryRunIsSound(v, admin, true, before);
  }

  /** Lazy equals eager from every storage that a deployment can reach. */
  lemma LazyEqualsEagerAfterEveryRun(
    v: Versions, admin: Address, startsAtV1: bool, before: seq<Invocation>, calls: seq<Invocation>)
    requires v.v1 != v.v2
    requires var start := if startsAtV1 then ConstructedV1(admin, v.v1) else ConstructedV2(admin, v.v2);
             PlaysForward(v, start, before)
    ensures var start := if startsAtV1 then ConstructedV1(admin, v.v1) else ConstructedV2(admin, v.v2);
            var s := Play(v, start, before).store.(wasm := v.v2);
            var lazy, eager := RunV2(v.v2, s, calls), RunV2(v.v2, Load(s).0, calls);
            && lazy.replies == eager.replies
            && Load(lazy.store) == Load(eager.store) && Load(lazy.store).1.Return?
  {
    var start := if startsAtV1 then ConstructedV1(admin, v.v1) else ConstructedV2(admin, v.v2);
    EveryRunIsSound(v, admin, startsAtV1, before);
    LazyEqualsEager(v.v2, Play(v, start, before).store.(wasm := v.v2), calls);
  }
}
