/** The example counter contract, version 1 and version 2, over one instance storage. */
module Counter {
  import opened Wrappers

  type Address = string
  type WasmHash = nat

  /** The two layouts that the Config key can hold. */
  datatype Config = ConfigV1(count: nat) | ConfigV2(count: nat, paused: bool)

  /** Instance storage and the executable. */
  datatype Store = Store(
    admin: Option<Address>, config: Option<Config>, schemaVersion: Option<nat>, wasm: WasmHash)

  datatype Trap = MissingKey | Undecodable | AuthFailed | Unauthorized | Paused | Overflow | NoSuchFunction

  datatype Outcome<+T> = Return(value: T) | Trapped(trap: Trap)

  datatype Reply = Nothing | Count(count: nat) | Flag(flag: bool)

  datatype Call =
    | GetCount
    | Increment
    | GetPaused
    | SetPaused(operator: Address, paused: bool)
    | Migrate(operator: Address)
    | Upgrade(newWasmHash: WasmHash, operator: Address)

  /** A call with the addresses that authorized it. */
  datatype Invocation = Invocation(call: Call, signers: set<Address>)

  // ----- What each call does, as a function of the storage -----

  function DecodeV1(s: Store): Outcome<Config> {
    match s.config
    case None => Trapped(MissingKey)
    case Some(ConfigV1(n)) => Return(ConfigV1(n))
    case Some(ConfigV2(_, _)) => Trapped(Undecodable)
  }

  function DecodeV2(s: Store): Outcome<Config> {
    match s.config
    case None => Trapped(MissingKey)
    case Some(ConfigV1(_)) => Trapped(Undecodable)
    case Some(ConfigV2(n, p)) => Return(ConfigV2(n, p))
  }

  function AdminTrap(s: Store, operator: Address, signers: set<Address>): Option<Trap> {
    if operator !in signers then Some(AuthFailed)
    else if s.admin.None? then Some(MissingKey)
    else if s.admin.value != operator then Some(Unauthorized)
    else None
  }

  function SchemaVersion(s: Store): nat {
    if s.schemaVersion.Some? then s.schemaVersion.value else 0
  }

  /** Reads the configuration in the version 2 layout, and converts a version 1 layout in place. */
  function Load(s: Store): (Store, Outcome<Config>) {
    if SchemaVersion(s) < 2 then
      match DecodeV1(s)
      case Trapped(t) => (s, Trapped(t))
      case Return(legacy) =>
        var migrated := ConfigV2(legacy.count, false);
        (s.(config := Some(migrated), schemaVersion := Some(2)), Return(migrated))
    else (s, DecodeV2(s))
  }

  function UpgradeBody(s: Store, hash: WasmHash, operator: Address, signers: set<Address>): (Store, Outcome<Reply>) {
    match AdminTrap(s, operator, signers)
    case Some(t) => (s, Trapped(t))
    case None => (s.(wasm := hash), Return(Nothing))
  }

  function BodyV1(s: Store, i: Invocation): (Store, Outcome<Reply>) {
    match i.call
    case GetCount =>
      (match DecodeV1(s) case Trapped(t) => (s, Trapped(t)) case Return(c) => (s, Return(Count(c.count))))
    case Increment =>
      (match DecodeV1(s)
       case Trapped(t) => (s, Trapped(t))
       case Return(c) =>
         if c.count == U32_MAX then (s, Trapped(Overflow))
         else (s.(config := Some(ConfigV1(c.count + 1))), Return(Count(c.count + 1))))
    case Upgrade(hash, operator) => UpgradeBody(s, hash, operator, i.signers)
    case _ => (s, Trapped(NoSuchFunction))
  }

  function BodyV2(s: Store, i: Invocation): (Store, Outcome<Reply>) {
    match i.call
    case GetCount =>
      var (l, r) := Load(s);
      (match r case Trapped(t) => (l, Trapped(t)) case Return(c) => (l, Return(Count(c.count))))
    case Increment =>
      var (l, r) := Load(s);
      (match r
       case Trapped(t) => (l, Trapped(t))
       case Return(c) =>
         if c.ConfigV2? && c.paused then (l, Trapped(Paused))
         else if c.count == U32_MAX then (l, Trapped(Overflow))
         else (l.(config := Some(c.(count := c.count + 1))), Return(Count(c.count + 1))))
    case GetPaused =>
      var (l, r) := Load(s);
      (match r case Trapped(t) => (l, Trapped(t)) case Return(c) => (l, Return(Flag(c.ConfigV2? && c.paused))))
    case SetPaused(operator, paused) =>
      (match AdminTrap(s, operator, i.signers)
       case Some(t) => (s, Trapped(t))
       case None =>
         var (l, r) := Load(s);
         match r
         case Trapped(t) => (l, Trapped(t))
         case Return(c) => (l.(config := Some(ConfigV2(c.count, paused))), Return(Nothing)))
    case Migrate(operator) =>
      (match AdminTrap(s, operator, i.signers)
       case Some(t) => (s, Trapped(t))
       case None =>
         var (l, r) := Load(s);
         match r case Trapped(t) => (l, Trapped(t)) case Return(_) => (l, Return(Nothing)))
    case Upgrade(hash, operator) => UpgradeBody(s, hash, operator, i.signers)
  }

  /** A trapped call leaves no trace. */
  function Settle(before: Store, after: (Store, Outcome<Reply>)): (Store, Outcome<Reply>) {
    (if after.1.Trapped? then before else after.0, after.1)
  }

  function InvokeV1(s: Store, i: Invocation): (Store, Outcome<Reply>) {
    Settle(s, BodyV1(s, i))
  }

  function InvokeV2(s: Store, i: Invocation): (Store, Outcome<Reply>) {
    Settle(s, BodyV2(s, i))
  }

  function ConstructedV1(admin: Address, wasm: WasmHash): Store {
    Store(Some(admin), Some(ConfigV1(0)), Some(1), wasm)
  }

  function ConstructedV2(admin: Address, wasm: WasmHash): Store {
    Store(Some(admin), Some(ConfigV2(0, false)), Some(2), wasm)
  }

  // ----- The contract as it runs, updating its storage in place -----

  class Instance {
    var admin: Option<Address>
    var config: Option<Config>
    var schemaVersion: Option<nat>
    var wasm: WasmHash

    function Contents(): Store
      reads this
    {
      Store(admin, config, schemaVersion, wasm)
    }

    constructor V1(operator: Address, hash: WasmHash)
      ensures Contents() == ConstructedV1(operator, hash)
    {
      admin := Some(operator);
      config := Some(ConfigV1(0));
      schemaVersion := Some(1);
      wasm := hash;
    }

    constructor V2(operator: Address, hash: WasmHash)
      ensures Contents() == ConstructedV2(operator, hash)
    {
      admin := Some(operator);
      config := Some(ConfigV2(0, false));
      schemaVersion := Some(2);
      wasm := hash;
    }

    method LoadV2() returns (r: Outcome<Config>)
      modifies this
      ensures (Contents(), r) == Load(old(Contents()))
    {
      var version := if schemaVersion.Some? then schemaVersion.value else 0;
      if version < 2 {
        r := DecodeV1(Contents());
        if r.Return? {
          config := Some(ConfigV2(r.value.count, false));
          schemaVersion := Some(2);
          r := Return(ConfigV2(r.value.count, false));
        }
      } else {
        r := DecodeV2(Contents());
      }
    }

    method RequireAdmin(operator: Address, signers: set<Address>) returns (trap: Option<Trap>)
      ensures trap == AdminTrap(Contents(), operator, signers)
      ensures trap == None <==> operator in signers && admin == Some(operator)
      ensures trap == Some(AuthFailed) <==> operator !in signers
      ensures trap == Some(Unauthorized) <==> operator in signers && admin.Some? && admin.value != operator
    {
      if operator !in signers {
        return Some(AuthFailed);
      }
      if admin.None? {
        return Some(MissingKey);
      }
      return if admin.value != operator then Some(Unauthorized) else None;
    }

    method RunV1(i: Invocation) returns (r: Outcome<Reply>)
      modifies this
      ensures (Contents(), r) == BodyV1(old(Contents()), i)
    {
      match i.call
      case GetCount =>
        var c := DecodeV1(Contents());
        r := if c.Trapped? then Trapped(c.trap) else Return(Count(c.value.count));
      case Increment =>
        var c := DecodeV1(Contents());
        if c.Trapped? {
          return Trapped(c.trap);
        }
        if c.value.count == U32_MAX {
          return Trapped(Overflow);
        }
        config := Some(ConfigV1(c.value.count + 1));
        r := Return(Count(c.value.count + 1));
      case Upgrade(hash, operator) =>
        var trap := RequireAdmin(operator, i.signers);
        if trap.Some? {
          return Trapped(trap.value);
        }
        wasm := hash;
        r := Return(Nothing);
      case _ =>
        r := Trapped(NoSuchFunction);
    }

    method RunV2(i: Invocation) returns (r: Outcome<Reply>)
      modifies this
      ensures (Contents(), r) == BodyV2(old(Contents()), i)
    {
      match i.call
      case GetCount =>
        var c := LoadV2();
        r := if c.Trapped? then Trapped(c.trap) else Return(Count(c.value.count));
      case Increment =>
        var c := LoadV2();
        if c.Trapped? {
          return Trapped(c.trap);
        }
        if c.value.ConfigV2? && c.value.paused {
          return Trapped(Paused);
        }
        if c.value.count == U32_MAX {
          return Trapped(Overflow);
        }
        config := Some(c.value.(count := c.value.count + 1));
        r := Return(Count(c.value.count + 1));
      case GetPaused =>
        var c := LoadV2();
        r := if c.Trapped? then Trapped(c.trap) else Return(Flag(c.value.ConfigV2? && c.value.paused));
      case SetPaused(operator, paused) =>
        var trap := RequireAdmin(operator, i.signers);
        if trap.Some? {
          return Trapped(trap.value);
        }
        var c := LoadV2();
        if c.Trapped? {
          return Trapped(c.trap);
        }
        config := Some(ConfigV2(c.value.count, paused));
        r := Return(Nothing);
      case Migrate(operator) =>
        var trap := RequireAdmin(operator, i.signers);
        if trap.Some? {
          return Trapped(trap.value);
        }
        var c := LoadV2();
        r := if c.Trapped? then Trapped(c.trap) else Return(Nothing);
      case Upgrade(hash, operator) =>
        var trap := RequireAdmin(operator, i.signers);
        if trap.Some? {
          return Trapped(trap.value);
        }
        wasm := hash;
        r := Return(Nothing);
    }

    /** The host runs the installed version and rolls a trapped call back. */
    method Invoke(isV1: bool, i: Invocation) returns (r: Outcome<Reply>)
      modifies this
      ensures (Contents(), r) == if isV1 then InvokeV1(old(Contents()), i) else InvokeV2(old(Contents()), i)
    {
      var before := Contents();
      if isV1 {
        r := RunV1(i);
      } else {
        r := RunV2(i);
      }
      if r.Trapped? {
        admin, config, schemaVersion, wasm := before.admin, before.config, before.schemaVersion, before.wasm;
      }
    }
  }
}
