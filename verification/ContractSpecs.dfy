/** How an artifact's interface, boundaries and type references come from its Contract Spec. */
module ContractSpecs {
  import opened Wrappers
  import opened JsonValues
  import opened Listings
  import opened Texts
  import opened Artifacts
  import opened SpecEntries
  import PublicImpacts
  import opened SchemaHistories

  // ----- Names of user types -----

  function UdtNames(t: SpecType): set<string> {
    match t
    case Udt(name) => {name}
    case OptionOf(v) => UdtNames(v)
    case ResultOf(o, e) => UdtNames(o) + UdtNames(e)
    case VecOf(e) => UdtNames(e)
    case MapOf(k, v) => UdtNames(k) + UdtNames(v)
    case TupleOf(ms) => NamesInAll(ms)
    case _ => {}
  }

  function NamesInAll(types: seq<SpecType>): set<string> {
    if types == [] then {} else NamesInAll(types[..|types| - 1]) + UdtNames(types[|types| - 1])
  }

  /** The types that a type is directly made of. */
  function Parts(t: SpecType): seq<SpecType> {
    match t
    case OptionOf(v) => [v]
    case ResultOf(o, e) => [o, e]
    case VecOf(e) => [e]
    case MapOf(k, v) => [k, v]
    case TupleOf(ms) => ms
    case _ => []
  }

  /** The part at the end of a path of part numbers. */
  function PartAt(t: SpecType, path: seq<nat>): Option<SpecType>
    decreases path
  {
    if path == [] then Some(t)
    else if path[0] < |Parts(t)| then PartAt(Parts(t)[path[0]], path[1..])
    else None
  }

  /** The user type `name` occurs in `t`, at some depth. */
  ghost predicate Mentions(t: SpecType, name: string) {
    exists path :: PartAt(t, path) == Some(Udt(name))
  }

  lemma {:induction false} NamesInParts(types: seq<SpecType>, name: string)
    ensures name in NamesInAll(types) <==> exists i :: 0 <= i < |types| && name in UdtNames(types[i])
  {
    if types != [] { NamesInParts(types[..|types| - 1], name); }
  }

  lemma NamesComeFromParts(t: SpecType, name: string)
    requires !t.Udt?
    ensures name in UdtNames(t) <==> exists i :: 0 <= i < |Parts(t)| && name in UdtNames(Parts(t)[i])
  {
    match t
    case OptionOf(v) => assert Parts(t)[0] == v;
    case ResultOf(o, e) => assert Parts(t)[0] == o && Parts(t)[1] == e;
    case VecOf(e) => assert Parts(t)[0] == e;
    case MapOf(k, v) => assert Parts(t)[0] == k && Parts(t)[1] == v;
    case TupleOf(ms) => NamesInParts(Parts(t), name);
    case _ =>
  }

  lemma {:induction false} NamesAreMentions(t: SpecType, name: string)
    ensures name in UdtNames(t) <==> Mentions(t, name)
  {
    if t.Udt? {
      assert PartAt(t, []) == Some(t);
    } else {
      NamesComeFromParts(t, name);
      if i :| 0 <= i < |Parts(t)| && name in UdtNames(Parts(t)[i]) {
        NamesAreMentions(Parts(t)[i], name);
        var path :| PartAt(Parts(t)[i], path) == Some(Udt(name));
        assert ([i] + path)[1..] == path;
        assert PartAt(t, [i] + path) == Some(Udt(name));
      }
      if path :| PartAt(t, path) == Some(Udt(name)) {
        assert PartAt(Parts(t)[path[0]], path[1..]) == Some(Udt(name));
        NamesAreMentions(Parts(t)[path[0]], name);
      }
    }
  }

  method CollectUdtNames(t: SpecType, destination: set<string>) returns (out: set<string>)
    ensures out == destination + UdtNames(t)
    ensures forall name :: name in out <==> name in destination || Mentions(t, name)
  {
    hide Mentions;
    forall name ensures name in UdtNames(t) <==> Mentions(t, name) { NamesAreMentions(t, name); }
    out := destination;
    match t
    case Udt(name) => out := out + {name};
    case OptionOf(v) => out := CollectUdtNames(v, out);
    case ResultOf(o, e) =>
      out := CollectUdtNames(o, out);
      out := CollectUdtNames(e, out);
    case VecOf(e) => out := CollectUdtNames(e, out);
    case MapOf(k, v) =>
      out := CollectUdtNames(k, out);
      out := CollectUdtNames(v, out);
    case TupleOf(ms) =>
      for i := 0 to |ms|
        invariant out == destination + NamesInAll(ms[..i])
      {
        assert ms[..i + 1][..i] == ms[..i];
        out := CollectUdtNames(ms[i], out);
      }
      assert ms[..|ms|] == ms;
    case _ =>
  }

  // ----- What each entry contributes -----

  datatype Namespace = Functions | Events | UserTypes

  function NamespaceOf(e: SpecEntry): Namespace {
    if e.FunctionSpec? then Functions else if e.EventSpec? then Events else UserTypes
  }

  function LabelOf(n: Namespace): string {
    match n
    case Functions => "function"
    case Events => "event"
    case UserTypes => "user-defined type"
  }

  function KindOf(e: SpecEntry): string {
    match e
    case FunctionSpec(_, _, _, _) => "function"
    case StructSpec(_, _, _, _) => "struct"
    case UnionSpec(_, _, _, _) => "union"
    case EnumSpec(_, _, _, _) => "enum"
    case ErrorEnumSpec(_, _, _, _) => "error_enum"
    case EventSpec(_, _, _, _, _, _) => "event"
  }

  function MemberNames(e: SpecEntry): seq<string> {
    match e
    case FunctionSpec(_, _, inputs, _) => seq(|inputs|, i requires 0 <= i < |inputs| => inputs[i].name)
    case StructSpec(_, _, _, fields) => seq(|fields|, i requires 0 <= i < |fields| => fields[i].name)
    case UnionSpec(_, _, _, cases) => seq(|cases|, i requires 0 <= i < |cases| => cases[i].name)
    case EnumSpec(_, _, _, values) => seq(|values|, i requires 0 <= i < |values| => values[i].name)
    case ErrorEnumSpec(_, _, _, values) => seq(|values|, i requires 0 <= i < |values| => values[i].name)
    case EventSpec(_, _, _, _, params, _) => seq(|params|, i requires 0 <= i < |params| => params[i].name)
  }

  /** Decimal digits, most significant first and without a leading zero. */
  function Decimal(n: nat): (digits: string)
    ensures digits != [] && forall c :: c in digits ==> '0' <= c <= '9'
    ensures digits[0] == '0' ==> n == 0
  {
    var digit := [('0' as int + n % 10) as char];
    if n < 10 then digit else Decimal(n / 10) + digit
  }

  /** The number that decimal digits stand for. */
  function NumberOf(digits: string): int {
    if digits == [] then 0
    else 10 * NumberOf(digits[..|digits| - 1]) + (digits[|digits| - 1] as int - '0' as int)
  }

  lemma {:induction false} DecimalReadsBack(n: nat)
    ensures NumberOf(Decimal(n)) == n
  {
    if n >= 10 {
      DecimalReadsBack(n / 10);
      assert Decimal(n)[..|Decimal(n)| - 1] == Decimal(n / 10);
    }
  }

  function ReferencesOf(e: SpecEntry): set<TypeReference> {
    match e
    case StructSpec(_, _, name, fields) =>
      set i, t | 0 <= i < |fields| && t in UdtNames(fields[i].fieldType) :: TypeReference(name, fields[i].name, t)
    case UnionSpec(_, _, name, cases) =>
      set i, j, t | 0 <= i < |cases| && cases[i].TupleCase? && 0 <= j < |cases[i].types|
        && t in UdtNames(cases[i].types[j]) ::
        TypeReference(name, cases[i].name + "[" + Decimal(j) + "]", t)
    case _ => {}
  }

  function BoundariesOf(e: SpecEntry): set<PublicTypeBoundary> {
    match e
    case FunctionSpec(_, name, inputs, outputs) =>
      (set i, t | 0 <= i < |inputs| && t in UdtNames(inputs[i].fieldType) ::
        PublicTypeBoundary(name, Input, i, Some(inputs[i].name), t))
      + (set i, t | 0 <= i < |outputs| && t in UdtNames(outputs[i]) :: PublicTypeBoundary(name, Output, i, None, t))
    case _ => {}
  }

  // ----- What an artifact derives from its spec -----

  ghost predicate NamesAreUnique(spec: seq<SpecEntry>) {
    forall i, j :: 0 <= i < j < |spec| && NamespaceOf(spec[i]) == NamespaceOf(spec[j]) ==> spec[i].name != spec[j].name
  }

  function Table(spec: seq<SpecEntry>, n: Namespace): map<string, InterfaceEntry> {
    if spec == [] then map[]
    else
      var last, before := spec[|spec| - 1], Table(spec[..|spec| - 1], n);
      if NamespaceOf(last) == n then before[last.name := InterfaceEntry(KindOf(last), last.name, Canonical(last))]
      else before
  }

  function AllReferences(spec: seq<SpecEntry>): set<TypeReference> {
    set e, r | e in spec && r in ReferencesOf(e) :: r
  }

  function AllBoundaries(spec: seq<SpecEntry>): set<PublicTypeBoundary> {
    set e, b | e in spec && b in BoundariesOf(e) :: b
  }

  // ----- What the contributions mean -----

  /** The spec has a struct called like the owner, with a field called like the member whose type mentions the
      target; or a union called like the owner, with a tuple case whose payload at some index does, and the
      member names the case and the index. */
  ghost predicate Refers(spec: seq<SpecEntry>, r: TypeReference) {
    || (exists e, i :: e in spec && FieldRefers(e, i, r))
    || (exists e, i, j :: e in spec && PayloadRefers(e, i, j, r))
  }

  ghost predicate FieldRefers(e: SpecEntry, i: nat, r: TypeReference) {
    && e.StructSpec? && e.name == r.owner && i < |e.fields|
    && e.fields[i].name == r.member && Mentions(e.fields[i].fieldType, r.target)
  }

  ghost predicate PayloadRefers(e: SpecEntry, i: nat, j: nat, r: TypeReference) {
    && e.UnionSpec? && e.name == r.owner && i < |e.cases| && e.cases[i].TupleCase? && j < |e.cases[i].types|
    && r.member == e.cases[i].name + "[" + Decimal(j) + "]" && Mentions(e.cases[i].types[j], r.target)
  }

  /** The named function has an input at the index, with the label for its name, or an output at the index without
      a label, whose type mentions the root type. */
  ghost predicate IsBoundaryOf(spec: seq<SpecEntry>, b: PublicTypeBoundary) {
    exists e :: e in spec && IsBoundaryIn(e, b)
  }

  ghost predicate IsBoundaryIn(e: SpecEntry, b: PublicTypeBoundary) {
    && e.FunctionSpec? && e.name == b.functionName
    && (match b.position
        case Input =>
          b.index < |e.inputs| && b.argument == Some(e.inputs[b.index].name)
          && Mentions(e.inputs[b.index].fieldType, b.rootType)
        case Output =>
          b.index < |e.outputs| && b.argument == None && Mentions(e.outputs[b.index], b.rootType))
  }

  lemma ReferencesAreMentions(spec: seq<SpecEntry>, r: TypeReference)
    ensures r in AllReferences(spec) <==> Refers(spec, r)
  {
    forall t, name ensures name in UdtNames(t) <==> Mentions(t, name) { NamesAreMentions(t, name); }
    hide Mentions, UdtNames, Decimal;
    forall e | e in spec
      ensures r in ReferencesOf(e) <==>
              (exists i :: FieldRefers(e, i, r)) || (exists i, j :: PayloadRefers(e, i, j, r))
    {
      match e
      case StructSpec(_, _, _, fields) =>
        if i :| 0 <= i < |fields|
                && fields[i].name == r.member && e.name == r.owner && r.target in UdtNames(fields[i].fieldType) {
          assert FieldRefers(e, i, r);
        }
      case UnionSpec(_, _, _, cases) =>
        if i, j :| 0 <= i < |cases| && cases[i].TupleCase? && 0 <= j < |cases[i].types| && e.name == r.owner
                   && r.member == cases[i].name + "[" + Decimal(j) + "]" && r.target in UdtNames(cases[i].types[j]) {
          assert PayloadRefers(e, i, j, r);
        }
      case _ =>
    }
    hide ReferencesOf, FieldRefers, PayloadRefers;
  }

  lemma BoundariesAreMentions(spec: seq<SpecEntry>, b: PublicTypeBoundary)
    ensures b in AllBoundaries(spec) <==> IsBoundaryOf(spec, b)
  {
    forall t, name ensures name in UdtNames(t) <==> Mentions(t, name) { NamesAreMentions(t, name); }
    hide Mentions, UdtNames;
    forall e | e in spec ensures b in BoundariesOf(e) <==> IsBoundaryIn(e, b) {}
    hide BoundariesOf, IsBoundaryIn;
  }

  // ----- The order of what an artifact lists -----

  /** The order of references: by owner, then by member, then by target. */
  predicate ReferenceBefore(a: TypeReference, b: TypeReference) {
    Before(a.owner, b.owner)
    || (a.owner == b.owner
        && (Before(a.member, b.member) || (a.member == b.member && Before(a.target, b.target))))
  }

  predicate LabelBefore(a: Option<string>, b: Option<string>) {
    b.Some? && (a.None? || Before(a.value, b.value))
  }

  /** The order of boundaries: by function, position, index, label and root type. */
  predicate BoundaryBefore(a: PublicTypeBoundary, b: PublicTypeBoundary) {
    if a.functionName != b.functionName then Before(a.functionName, b.functionName)
    else if a.position != b.position then a.position.Input?
    else if a.index != b.index then a.index < b.index
    else if a.argument != b.argument then LabelBefore(a.argument, b.argument)
    else Before(a.rootType, b.rootType)
  }

  lemma ReferencesAreOrdered()
    ensures IsOrder(ReferenceBefore)
  {
    NamesAreOrdered();
    forall a, b, c | ReferenceBefore(a, b) && ReferenceBefore(b, c) ensures ReferenceBefore(a, c) {
    }
  }

  lemma BoundariesAreOrdered()
    ensures IsOrder(BoundaryBefore)
  {
    NamesAreOrdered();
    forall a, b, c | BoundaryBefore(a, b) && BoundaryBefore(b, c) ensures BoundaryBefore(a, c) {
    }
  }

  lemma {:induction false} TableHolds(spec: seq<SpecEntry>, n: Namespace)
    requires NamesAreUnique(spec)
    ensures forall name :: name in Table(spec, n) ==> exists e :: e in spec && NamespaceOf(e) == n && e.name == name
    ensures forall e :: e in spec && NamespaceOf(e) == n ==>
              && e.name in Table(spec, n)
              && Table(spec, n)[e.name] == InterfaceEntry(KindOf(e), e.name, Canonical(e))
  {
    if spec != [] {
      var init, last := spec[..|spec| - 1], spec[|spec| - 1];
      assert spec == init + [last];
      assert NamesAreUnique(init);
      forall e | e in init && NamespaceOf(e) == NamespaceOf(last) ensures e.name != last.name {
        var i :| 0 <= i < |init| && init[i] == e;
        assert spec[i] == e;
      }
      TableHolds(init, n);
      hide Canonical, KindOf, NamespaceOf, NamesAreUnique;
      var before, after := Table(init, n), Table(spec, n);
      var entry := InterfaceEntry(KindOf(last), last.name, Canonical(last));
      assert after == if NamespaceOf(last) == n then before[last.name := entry] else before;
      hide Table;
      forall name | name in after ensures exists e :: e in spec && NamespaceOf(e) == n && e.name == name {
        if name in before {
          var e :| e in init && NamespaceOf(e) == n && e.name == name;
          assert e in spec;
        } else {
          assert last in spec;
        }
      }
    }
  }

  // ----- The derivation as it runs -----

  datatype Interface = Interface(
    functions: map<string, InterfaceEntry>, events: map<string, InterfaceEntry>, userTypes: map<string, InterfaceEntry>,
    boundaries: seq<PublicTypeBoundary>, references: seq<TypeReference>)

  /** What the entries of a spec say together: a table for each namespace, and the boundaries and
      references of all entries, each listed once and in order. */
  ghost predicate IsInterfaceOf(i: Interface, spec: seq<SpecEntry>) {
    && i.functions == Table(spec, Functions) && i.events == Table(spec, Events) && i.userTypes == Table(spec, UserTypes)
    && Lists(BoundaryBefore, i.boundaries, AllBoundaries(spec))
    && Lists(ReferenceBefore, i.references, AllReferences(spec))
  }

  /** The parts of an artifact that come from its spec. */
  ghost predicate DerivedFrom(a: Artifact, spec: seq<SpecEntry>) {
    && NamesAreUnique(spec) && (forall e :: e in spec ==> MembersAreUnique(e))
    && IsInterfaceOf(Interface(a.functions, a.events, a.userTypes, a.publicTypeBoundaries, a.typeReferences), spec)
  }

  /** A spec has one interface. */
  lemma InterfaceIsDetermined(i: Interface, j: Interface, spec: seq<SpecEntry>)
    requires IsInterfaceOf(i, spec) && IsInterfaceOf(j, spec)
    ensures i == j
  {
    BoundariesAreOrdered();
    ReferencesAreOrdered();
    OnlyOneListing(BoundaryBefore, i.boundaries, j.boundaries, AllBoundaries(spec));
    OnlyOneListing(ReferenceBefore, i.references, j.references, AllReferences(spec));
  }

  datatype SpecError = DuplicateName(kind: string, name: string) | DuplicateMember(owner: string)

  predicate MembersAreUnique(e: SpecEntry) {
    forall i, j :: 0 <= i < j < |MemberNames(e)| ==> MemberNames(e)[i] != MemberNames(e)[j]
  }

  method EnsureUniqueMembers(e: SpecEntry) returns (ok: bool)
    ensures ok == MembersAreUnique(e)
  {
    var names, unique: set<string> := MemberNames(e), {};
    for i := 0 to |names|
      invariant unique == set j | 0 <= j < i :: names[j]
      invariant forall j, k :: 0 <= j < k < i ==> names[j] != names[k]
    {
      if names[i] in unique {
        return false;
      }
      unique := unique + {names[i]};
    }
    return true;
  }

  ghost predicate EntryIn(table: map<string, InterfaceEntry>, kind: string, e: SpecEntry) {
    e.name in table && table[e.name] == InterfaceEntry(kind, e.name, Canonical(e))
  }

  /** Every entry of the spec is in the table of its sort, under its name and kind, and nothing else is. */
  ghost predicate HoldsEntries(i: Interface, spec: seq<SpecEntry>) {
    && (forall e :: e in spec ==>
          match e
          case FunctionSpec(_, _, _, _) => EntryIn(i.functions, "function", e)
          case StructSpec(_, _, _, _) => EntryIn(i.userTypes, "struct", e)
          case UnionSpec(_, _, _, _) => EntryIn(i.userTypes, "union", e)
          case EnumSpec(_, _, _, _) => EntryIn(i.userTypes, "enum", e)
          case ErrorEnumSpec(_, _, _, _) => EntryIn(i.userTypes, "error_enum", e)
          case EventSpec(_, _, _, _, _, _) => EntryIn(i.events, "event", e))
    && (forall name :: name in i.functions ==> exists e :: e in spec && e.FunctionSpec? && e.name == name)
    && (forall name :: name in i.events ==> exists e :: e in spec && e.EventSpec? && e.name == name)
    && (forall name :: name in i.userTypes ==>
          exists e :: e in spec && !e.FunctionSpec? && !e.EventSpec? && e.name == name)
  }

  lemma TablesHoldEntries(i: Interface, spec: seq<SpecEntry>)
    requires NamesAreUnique(spec) && IsInterfaceOf(i, spec)
    ensures HoldsEntries(i, spec)
  {
    hide Table, Canonical, AllBoundaries, AllReferences, BoundaryBefore, ReferenceBefore, NamesAreUnique;
    TableHolds(spec, Functions);
    TableHolds(spec, Events);
    TableHolds(spec, UserTypes);
  }

  /** What an error says is so. */
  ghost predicate Explains(spec: seq<SpecEntry>, error: SpecError) {
    match error
    case DuplicateMember(owner) => exists e :: e in spec && e.name == owner && !MembersAreUnique(e)
    case DuplicateName(kind, name) =>
      exists i, j :: 0 <= i < j < |spec| && spec[i].name == spec[j].name == name
                     && (if spec[i].FunctionSpec? then spec[j].FunctionSpec? && kind == "function"
                         else if spec[i].EventSpec? then spec[j].EventSpec? && kind == "event"
                         else !spec[j].FunctionSpec? && !spec[j].EventSpec? && kind == "user-defined type")
  }

  lemma MembersExplain(spec: seq<SpecEntry>, e: SpecEntry)
    requires e in spec && !MembersAreUnique(e)
    ensures Explains(spec, DuplicateMember(e.name))
  {
  }

  lemma NamesExplain(spec: seq<SpecEntry>, n: nat, e: SpecEntry)
    requires n < |spec| && spec[n] == e
    requires exists d :: d in spec[..n] && NamespaceOf(d) == NamespaceOf(e) && d.name == e.name
    ensures Explains(spec, DuplicateName(LabelOf(NamespaceOf(e)), e.name))
  {
    var d :| d in spec[..n] && NamespaceOf(d) == NamespaceOf(e) && d.name == e.name;
    var i :| 0 <= i < n && spec[i] == d;
  }

  /** The interface that a spec gives, or the first repeated name. */
  method DeriveInterface(spec: seq<SpecEntry>) returns (r: Result<Interface, SpecError>)
    ensures r.Ok? <==> NamesAreUnique(spec) && forall e :: e in spec ==> MembersAreUnique(e)
    ensures r.Ok? ==> IsInterfaceOf(r.value, spec)
    ensures r.Ok? ==> forall x :: x in r.value.references <==> Refers(spec, x)
    ensures r.Ok? ==> forall x :: x in r.value.boundaries <==> IsBoundaryOf(spec, x)
    ensures r.Ok? ==> HoldsEntries(r.value, spec)
    ensures r.Err? ==> Explains(spec, r.error)
  {
    hide Refers, IsBoundaryOf, HoldsEntries, Explains, MembersAreUnique, NamesAreUnique, Table, AllReferences,
         AllBoundaries, ReferenceBefore, BoundaryBefore;
    r := ReadEntries(spec);
    if r.Ok? {
      forall x ensures x in r.value.references <==> Refers(spec, x) { ReferencesAreMentions(spec, x); }
      forall x ensures x in r.value.boundaries <==> IsBoundaryOf(spec, x) { BoundariesAreMentions(spec, x); }
      TablesHoldEntries(r.value, spec);
    }
  }

  /** One pass over the entries; it stops at the first repeated name. */
  method ReadEntries(spec: seq<SpecEntry>) returns (r: Result<Interface, SpecError>)
    ensures r.Ok? <==> NamesAreUnique(spec) && forall e :: e in spec ==> MembersAreUnique(e)
    ensures r.Ok? ==> IsInterfaceOf(r.value, spec)
    ensures r.Err? ==> Explains(spec, r.error)
  {
    hide Explains, ReferencesOf, BoundariesOf, Canonical, KindOf, MembersAreUnique, ReferenceBefore, BoundaryBefore,
         Before;
    var functions: map<string, InterfaceEntry>, events: map<string, InterfaceEntry> := map[], map[];
    var userTypes: map<string, InterfaceEntry> := map[];
    var boundaries: set<PublicTypeBoundary>, references: set<TypeReference> := {}, {};
    for n := 0 to |spec|
      invariant NamesAreUnique(spec[..n]) && forall e :: e in spec[..n] ==> MembersAreUnique(e)
      invariant functions == Table(spec[..n], Functions) && events == Table(spec[..n], Events)
      invariant userTypes == Table(spec[..n], UserTypes)
      invariant boundaries == AllBoundaries(spec[..n]) && references == AllReferences(spec[..n])
    {
      var e := spec[n];
      assert spec[..n + 1] == spec[..n] + [e];
      OneMoreEntry(spec[..n + 1]);
      TableHolds(spec[..n], NamespaceOf(e));
      var unique := EnsureUniqueMembers(e);
      if !unique {
        MembersExplain(spec, e);
        return Err(DuplicateMember(e.name));
      }
      boundaries := boundaries + BoundariesOf(e);
      references := references + ReferencesOf(e);
      var entry := InterfaceEntry(KindOf(e), e.name, Canonical(e));
      var table := match NamespaceOf(e) case Functions => functions case Events => events case UserTypes => userTypes;
      if e.name in table {
        RepeatedName(spec, n, e);
        NamesExplain(spec, n, e);
        return Err(DuplicateName(LabelOf(NamespaceOf(e)), e.name));
      }
      match NamespaceOf(e)
      case Functions => functions := functions[e.name := entry];
      case Events => events := events[e.name := entry];
      case UserTypes => userTypes := userTypes[e.name := entry];
    }
    assert spec[..|spec|] == spec;
    BoundariesAreOrdered();
    ReferencesAreOrdered();
    var publicTypeBoundaries := ListInOrder(BoundaryBefore, boundaries);
    var typeReferences := ListInOrder(ReferenceBefore, references);
    return Ok(Interface(functions, events, userTypes, publicTypeBoundaries, typeReferences));
  }

  lemma RepeatedName(spec: seq<SpecEntry>, n: nat, e: SpecEntry)
    requires n < |spec| && spec[n] == e
    requires exists d :: d in spec[..n] && NamespaceOf(d) == NamespaceOf(e) && d.name == e.name
    ensures !NamesAreUnique(spec)
  {
    var d :| d in spec[..n] && NamespaceOf(d) == NamespaceOf(e) && d.name == e.name;
    var j :| 0 <= j < n && spec[j] == d;
  }

  // ----- Documentation -----

  lemma CommentsAddNothing(e: SpecEntry)
    ensures var p := WithoutDocs(e);
            && p.name == e.name && NamespaceOf(p) == NamespaceOf(e) && KindOf(p) == KindOf(e)
            && ReferencesOf(p) == ReferencesOf(e) && BoundariesOf(p) == BoundariesOf(e)
  {
    var p := WithoutDocs(e);
    match e
    case FunctionSpec(_, _, inputs, _) =>
      assert forall i :: 0 <= i < |inputs| ==>
        p.inputs[i].name == inputs[i].name && p.inputs[i].fieldType == inputs[i].fieldType;
      assert BoundariesOf(p) == BoundariesOf(e);
    case StructSpec(_, _, _, fields) =>
      assert forall i :: 0 <= i < |fields| ==>
        p.fields[i].name == fields[i].name && p.fields[i].fieldType == fields[i].fieldType;
      assert ReferencesOf(p) == ReferencesOf(e);
    case UnionSpec(_, _, _, cases) =>
      assert forall i :: 0 <= i < |cases| ==>
        && p.cases[i].name == cases[i].name && p.cases[i].TupleCase? == cases[i].TupleCase?
        && (cases[i].TupleCase? ==> p.cases[i].types == cases[i].types);
      assert ReferencesOf(p) == ReferencesOf(e);
    case _ =>
  }

  /** An owner's references are determined by its canonical entry: what impact tracing relies on
      holds of every two artifacts that are derived from their specs. */
  lemma DerivedReferencesFollowEntries(
    source: Artifact, target: Artifact, before: seq<SpecEntry>, after: seq<SpecEntry>)
    requires DerivedFrom(source, before) && DerivedFrom(target, after)
    ensures PublicImpacts.ReferencesFollowEntries(source, target)
  {
    hide Canonical, WithoutDocs, ReferencesOf, BoundariesOf, MembersAreUnique, ReferenceBefore, BoundaryBefore;
    TableHolds(before, UserTypes);
    TableHolds(after, UserTypes);
    forall r: TypeReference | r.owner in source.userTypes && r.owner in target.userTypes
                              && source.userTypes[r.owner].canonical == target.userTypes[r.owner].canonical
      ensures r in source.typeReferences <==> r in target.typeReferences
    {
      var e :| e in before && NamespaceOf(e) == UserTypes && e.name == r.owner;
      var f :| f in after && NamespaceOf(f) == UserTypes && f.name == r.owner;
      CanonicalFormsAgreeIffSameWithoutDocs(e, f);
      CommentsAddNothing(e);
      CommentsAddNothing(f);
      OnlyTheOwnerRefers(source, before, e, r);
      OnlyTheOwnerRefers(target, after, f, r);
    }
  }

  lemma OnlyTheOwnerRefers(a: Artifact, spec: seq<SpecEntry>, e: SpecEntry, r: TypeReference)
    requires DerivedFrom(a, spec) && e in spec && NamespaceOf(e) == UserTypes && e.name == r.owner
    ensures r in a.typeReferences <==> r in ReferencesOf(e)
  {
    hide MembersAreUnique, ReferenceBefore, BoundaryBefore;
    assert r in ReferencesOf(e) ==> r in AllReferences(spec);
    if r in a.typeReferences {
      var o :| o in spec && r in ReferencesOf(o);
      assert o.name == r.owner && NamespaceOf(o) == UserTypes;
      var i :| 0 <= i < |spec| && spec[i] == e;
      var j :| 0 <= j < |spec| && spec[j] == o;
      assert i == j;
    }
  }

  lemma OneMoreEntry(spec: seq<SpecEntry>)
    requires spec != []
    ensures var init, last := spec[..|spec| - 1], spec[|spec| - 1];
            && AllReferences(spec) == AllReferences(init) + ReferencesOf(last)
            && AllBoundaries(spec) == AllBoundaries(init) + BoundariesOf(last)
  {
    assert spec == spec[..|spec| - 1] + [spec[|spec| - 1]];
  }

  /** Two specs that differ only in comments. */
  ghost predicate SameButComments(before: seq<SpecEntry>, after: seq<SpecEntry>) {
    |before| == |after| && forall i :: 0 <= i < |before| ==> WithoutDocs(before[i]) == WithoutDocs(after[i])
  }

  lemma {:induction false} CommentsChangeNoTable(before: seq<SpecEntry>, after: seq<SpecEntry>, n: Namespace)
    requires SameButComments(before, after)
    ensures Table(before, n) == Table(after, n)
    ensures AllBoundaries(before) == AllBoundaries(after) && AllReferences(before) == AllReferences(after)
  {
    hide WithoutDocs, Canonical, ReferencesOf, BoundariesOf;
    if before != [] {
      var last := |before| - 1;
      CommentsChangeNoTable(before[..last], after[..last], n);
      CommentsAddNothing(before[last]);
      CommentsAddNothing(after[last]);
      CanonicalFormsAgreeIffSameWithoutDocs(before[last], after[last]);
      OneMoreEntry(before);
      OneMoreEntry(after);
    }
  }

  /** A documentation-only edit leaves everything that is derived from the spec as it was, in content
      and in order. */
  lemma DocumentationEditsAreInvisible(before: seq<SpecEntry>, after: seq<SpecEntry>, i: Interface, j: Interface)
    requires SameButComments(before, after)
    requires IsInterfaceOf(i, before) && IsInterfaceOf(j, after)
    ensures i == j
  {
    hide SameButComments, Table, AllBoundaries, AllReferences, ReferenceBefore, BoundaryBefore;
    CommentsChangeNoTable(before, after, Functions);
    CommentsChangeNoTable(before, after, Events);
    CommentsChangeNoTable(before, after, UserTypes);
    InterfaceIsDetermined(i, j, before);
  }

  // ----- What the checks read from derived artifacts -----

  /** The fields by name, with the JSON of their types. */
  function FieldTable(fields: seq<Field>): map<string, Json> {
    if fields == [] then map[]
    else
      var last := fields[|fields| - 1];
      FieldTable(fields[..|fields| - 1])[last.name := TypeJson(last.fieldType)]
  }

  /** The canonical forms of the fields. */
  function FieldItems(fields: seq<Field>): seq<Json> {
    seq(|fields|, i requires 0 <= i < |fields| => Stripped(FieldJson(fields[i])))
  }

  lemma {:induction false} FieldsAreRead(fields: seq<Field>)
    ensures FieldsFrom(FieldItems(fields)) == Some(FieldTable(fields))
  {
    if fields != [] {
      var last := |fields| - 1;
      FieldsAreRead(fields[..last]);
      FieldIsRead(fields[last]);
      assert FieldItems(fields)[..last] == FieldItems(fields[..last]);
    }
  }

  lemma ItemsAreRead(e: SpecEntry, inner: string, fields: seq<Field>)
    requires inner != DOC && inner in EntryMembers(e) && EntryMembers(e)[inner] == Array(FieldsJson(fields))
    ensures ArrayAt(Canonical(e), EntryTag(e), inner) == Some(FieldItems(fields))
  {
    ListIsRead(e, inner, FieldsJson(fields));
    assert Stripped(Array(FieldsJson(fields))).items == FieldItems(fields);
  }

  lemma StructFieldsAreRead(e: SpecEntry)
    ensures var fields := StructFields(InterfaceEntry(KindOf(e), e.name, Canonical(e)));
            fields == if e.StructSpec? then Some(FieldTable(e.fields)) else None
  {
    if e.StructSpec? {
      ItemsAreRead(e, "fields", e.fields);
      FieldsAreRead(e.fields);
    } else {
      StrippedEntry(e);
      assert Canonical(e).members.Keys == {EntryTag(e)};
    }
  }

  /** The history check reads exactly the struct fields of the spec. */
  lemma HistoryReadsTheStructs(a: Artifact, spec: seq<SpecEntry>, t: string)
    requires DerivedFrom(a, spec)
    ensures t in ArtifactStructs(a) <==> exists e :: e in spec && e.StructSpec? && e.name == t
    ensures forall e :: e in spec && e.StructSpec? && e.name == t ==>
              t in ArtifactStructs(a) && ArtifactStructs(a)[t] == FieldTable(e.fields)
  {
    hide Canonical, StructFields, ReferencesOf, BoundariesOf, ReferenceBefore, BoundaryBefore, MembersAreUnique;
    TableHolds(spec, UserTypes);
    forall e | e in spec && NamespaceOf(e) == UserTypes
      ensures StructFields(a.userTypes[e.name]) == if e.StructSpec? then Some(FieldTable(e.fields)) else None
    {
      StructFieldsAreRead(e);
    }
  }
}
