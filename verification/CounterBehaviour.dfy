/** The counter as its callers see it: what every reply is, from the calls and replies before it. */
module CounterBehaviour {
  import opened Wrappers
  import opened Counter
  import opened CounterRuns

  /** What the calls and replies so far tell about the contract. */
  datatype Seen = Seen(installed: WasmHash, count: nat, paused: bool)

  /** A successful increment counts one, a successful pause or unpause sets the flag, and a successful upgrade
      installs what it names. A refused call changes nothing. */
  function Learn(seen: Seen, call: Call, reply: Outcome<Reply>): Seen {
    if reply.Trapped? then seen
    else
      match call
      case Increment => seen.(count := seen.count + 1)
      case SetPaused(_, paused) => seen.(paused := paused)
      case Upgrade(hash, _) => seen.(installed := hash)
      case _ => seen
  }

  function SeenAfter(start: WasmHash, calls: seq<Invocation>, replies: seq<Outcome<Reply>>): Seen
    requires |calls| == |replies|
  {
    if calls == [] then Seen(start, 0, false)
    else
      var last := |calls| - 1;
      Learn(SeenAfter(start, calls[..last], replies[..last]), calls[last].call, replies[last])
  }

  /** What a call that only the admin may make answers. */
  function AdminAnswer(admin: Address, operator: Address, signers: set<Address>): Outcome<Reply> {
    if operator !in signers then Trapped(AuthFailed)
    else if operator != admin then Trapped(Unauthorized)
    else Return(Nothing)
  }

  /** What a call answers. Version 1 knows reading, counting and upgrading; version 2 can also be paused, and then
      does not count. */
  function Answer(v: Versions, admin: Address, seen: Seen, i: Invocation): Outcome<Reply> {
    var isV1 := seen.installed == v.v1;
    match i.call
    case GetCount => Return(Count(seen.count))
    case Increment =>
      if !isV1 && seen.paused then Trapped(Paused)
      else if seen.count == 0xFFFF_FFFF then Trapped(Overflow)
      else Return(Count(seen.count + 1))
    case GetPaused => if isV1 then Trapped(NoSuchFunction) else Return(Flag(seen.paused))
    case SetPaused(operator, _) =>
      if isV1 then Trapped(NoSuchFunction) else AdminAnswer(admin, operator, i.signers)
    case Migrate(operator) =>
      if isV1 then Trapped(NoSuchFunction) else AdminAnswer(admin, operator, i.signers)
    case Upgrade(_, operator) => AdminAnswer(admin, operator, i.signers)
  }

  // ----- The contract does what its callers see -----

  /** The storage holds what was seen. A version 1 layout is never paused. */
  ghost predicate Holds(v: Versions, s: Store, admin: Address, seen: Seen) {
    && Sound(v, s, admin, seen.count) && s.wasm == seen.installed
    && match s.config
       case Some(ConfigV1(_)) => !seen.paused
       case Some(ConfigV2(_, paused)) => paused == seen.paused
       case None => false
  }

  lemma OneCall(v: Versions, s: Store, admin: Address, seen: Seen, i: Invocation)
    requires v.v1 != v.v2 && Holds(v, s, admin, seen) && GoesForward(v, s, i)
    ensures var (next, reply) := Dispatch(v, s, i);
            reply == Answer(v, admin, seen, i) && Holds(v, next, admin, Learn(seen, i.call, reply))
  {
    CallKeepsSound(v, s, admin, seen.count, i);
  }

  function StartOf(v: Versions, admin: Address, startsAtV1: bool): Store {
    if startsAtV1 then ConstructedV1(admin, v.v1) else ConstructedV2(admin, v.v2)
  }

  lemma {:induction false} PrefixesPlay(v: Versions, s: Store, calls: seq<Invocation>, k: nat)
    requires PlaysForward(v, s, calls) && k <= |calls|
    ensures PlaysForward(v, s, calls[..k])
    ensures |Play(v, s, calls).replies| == |calls|
    ensures Play(v, s, calls[..k]).replies == Play(v, s, calls).replies[..k]
  {
    hide Dispatch, GoesForward;
    if calls != [] {
      var n := |calls| - 1;
      PrefixesPlay(v, s, calls[..n], if k < n then k else n);
      if k <= n {
        assert calls[..n][..k] == calls[..k];
      } else {
        assert calls[..k] == calls;
      }
    }
  }

  lemma {:induction false} RunHolds(v: Versions, admin: Address, startsAtV1: bool, calls: seq<Invocation>)
    requires v.v1 != v.v2 && PlaysForward(v, StartOf(v, admin, startsAtV1), calls)
    ensures var start := StartOf(v, admin, startsAtV1);
            var run := Play(v, start, calls);
            && |run.replies| == |calls|
            && Holds(v, run.store, admin, SeenAfter(start.wasm, calls, run.replies))
  {
    var start := StartOf(v, admin, startsAtV1);
    if calls != [] {
      var n := |calls| - 1;
      var before := Play(v, start, calls[..n]);
      PrefixesPlay(v, start, calls, n);
      RunHolds(v, admin, startsAtV1, calls[..n]);
      OneCall(v, before.store, admin, SeenAfter(start.wasm, calls[..n], before.replies), calls[n]);
      hide Holds, Answer, Learn, Dispatch, GoesForward;
    }
  }

  /** Every reply of every run, from a version 1 or a version 2 deployment and across any forward upgrades, is
      the answer that the calls and replies before it call for. So reading the flag gives the last successful pause
      or unpause, or false when there was none; counting traps exactly when version 2 is paused or the count is at
      its limit, and otherwise returns the next count; and an upgrade installs exactly the executable it names. */
  lemma EveryReplyIsDetermined(
    v: Versions, admin: Address, startsAtV1: bool, calls: seq<Invocation>, k: nat)
    requires v.v1 != v.v2 && PlaysForward(v, StartOf(v, admin, startsAtV1), calls) && k < |calls|
    ensures var start := StartOf(v, admin, startsAtV1);
            var run := Play(v, start, calls);
            && |run.replies| == |calls|
            && run.replies[k] == Answer(v, admin, SeenAfter(start.wasm, calls[..k], run.replies[..k]), calls[k])
            && run.store.wasm == SeenAfter(start.wasm, calls, run.replies).installed
  {
    var start := StartOf(v, admin, startsAtV1);
    var run := Play(v, start, calls);
    PrefixesPlay(v, start, calls, k);
    RunHolds(v, admin, startsAtV1, calls);
    RunHolds(v, admin, startsAtV1, calls[..k]);
    var before := Play(v, start, calls[..k]);
    LastCall(v, start, calls, k);
    OneCall(v, before.store, admin, SeenAfter(start.wasm, calls[..k], before.replies), calls[k]);
    hide Answer, SeenAfter, Play, PlaysForward, Dispatch, GoesForward, Learn;
  }

  lemma LastCall(v: Versions, s: Store, calls: seq<Invocation>, k: nat)
    requires PlaysForward(v, s, calls) && k < |calls| == |Play(v, s, calls).replies|
    ensures GoesForward(v, Play(v, s, calls[..k]).store, calls[k])
    ensures Play(v, s, calls).replies[k] == Dispatch(v, Play(v, s, calls[..k]).store, calls[k]).1
  {
    var upTo := calls[..k + 1];
    PrefixesPlay(v, s, calls, k + 1);
    PrefixesPlay(v, s, calls, k);
    hide Dispatch, GoesForward;
    assert upTo[..k] == calls[..k] && upTo[k] == calls[k];
    assert Play(v, s, upTo).replies[k] == Play(v, s, calls).replies[..k + 1][k];
  }

  // ----- What was seen, call by call -----

  /** Call `k` set the flag. */
  ghost predicate Sets(calls: seq<Invocation>, replies: seq<Outcome<Reply>>, k: int) {
    0 <= k < |calls| == |replies| && calls[k].call.SetPaused? && replies[k].Return?
  }

  /** The flag that was seen is the one that the last successful setting named, and false before any. */
  lemma {:induction false} PausedIsTheLastSetting(start: WasmHash, calls: seq<Invocation>, replies: seq<Outcome<Reply>>)
    requires |calls| == |replies|
    ensures SeenAfter(start, calls, replies).paused <==>
            exists k :: Sets(calls, replies, k) && calls[k].call.paused
                        && forall j :: k < j ==> !Sets(calls, replies, j)
    ensures SeenAfter(start, calls, replies).count == SuccessfulIncrements(calls, replies)
  {
    if calls != [] {
      var n := |calls| - 1;
      var earlier, answers := calls[..n], replies[..n];
      PausedIsTheLastSetting(start, earlier, answers);
      assert forall k :: Sets(earlier, answers, k) <==> k < n && Sets(calls, replies, k);
      if Sets(calls, replies, n) {
        assert forall k :: Sets(calls, replies, k) ==> k <= n;
        assert SeenAfter(start, calls, replies).paused == calls[n].call.paused;
      } else {
        assert SeenAfter(start, calls, replies).paused == SeenAfter(start, earlier, answers).paused;
        assert forall k :: Sets(calls, replies, k) ==> k < n && earlier[k] == calls[k];
      }
    }
  }
}
