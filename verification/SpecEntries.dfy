/** Contract Spec entries, their JSON form, and what is left of it without comments. */
module SpecEntries {
  import opened Wrappers
  import opened JsonValues

  datatype SpecType =
    | Basic(name: string)
    | BytesN(n: nat)
    | Udt(name: string)
    | OptionOf(value: SpecType)
    | ResultOf(ok: SpecType, error: SpecType)
    | VecOf(element: SpecType)
    | MapOf(key: SpecType, value: SpecType)
    | TupleOf(members: seq<SpecType>)

  datatype Field = Field(doc: string, name: string, fieldType: SpecType)

  datatype UnionCase =
    | VoidCase(doc: string, name: string)
    | TupleCase(doc: string, name: string, types: seq<SpecType>)

  datatype EnumCase = EnumCase(doc: string, name: string, value: nat)

  datatype EventParam = EventParam(doc: string, name: string, paramType: SpecType, location: string)

  datatype SpecEntry =
    | FunctionSpec(doc: string, name: string, inputs: seq<Field>, outputs: seq<SpecType>)
    | StructSpec(doc: string, lib: string, name: string, fields: seq<Field>)
    | UnionSpec(doc: string, lib: string, name: string, cases: seq<UnionCase>)
    | EnumSpec(doc: string, lib: string, name: string, values: seq<EnumCase>)
    | ErrorEnumSpec(doc: string, lib: string, name: string, values: seq<EnumCase>)
    | EventSpec(doc: string, lib: string, name: string, prefixTopics: seq<string>, params: seq<EventParam>,
                dataFormat: string)

  // ----- The JSON form -----

  function Tagged(tag: string, members: map<string, Json>): Json {
    Object(map[tag := Object(members)])
  }

  function TypeTag(t: SpecType): string {
    match t
    case Basic(name) => name
    case BytesN(_) => "bytes_n"
    case Udt(_) => "udt"
    case OptionOf(_) => "option"
    case ResultOf(_, _) => "result"
    case VecOf(_) => "vec"
    case MapOf(_, _) => "map"
    case TupleOf(_) => "tuple"
  }

  function TypeMembers(t: SpecType): map<string, Json>
    decreases t, 0
  {
    match t
    case Basic(_) => map[]
    case BytesN(n) => map["n" := Integer(n)]
    case Udt(name) => map["name" := Text(name)]
    case OptionOf(v) => map["value_type" := TypeJson(v)]
    case ResultOf(o, e) => map["ok_type" := TypeJson(o), "error_type" := TypeJson(e)]
    case VecOf(e) => map["element_type" := TypeJson(e)]
    case MapOf(k, v) => map["key_type" := TypeJson(k), "value_type" := TypeJson(v)]
    case TupleOf(ms) => map["value_types" := Array(TypesJson(ms))]
  }

  function TypeJson(t: SpecType): Json
    decreases t, 1
  {
    if t.Basic? then Text(t.name) else Tagged(TypeTag(t), TypeMembers(t))
  }

  function TypesJson(types: seq<SpecType>): seq<Json> {
    seq(|types|, i requires 0 <= i < |types| => TypeJson(types[i]))
  }

  function FieldJson(f: Field): Json {
    Object(map["doc" := Text(f.doc), "name" := Text(f.name), "type_" := TypeJson(f.fieldType)])
  }

  function FieldsJson(fields: seq<Field>): seq<Json> {
    seq(|fields|, i requires 0 <= i < |fields| => FieldJson(fields[i]))
  }

  function CaseTag(c: UnionCase): string {
    if c.VoidCase? then "void_v0" else "tuple_v0"
  }

  function CaseMembers(c: UnionCase): map<string, Json> {
    match c
    case VoidCase(doc, name) => map["doc" := Text(doc), "name" := Text(name)]
    case TupleCase(doc, name, types) =>
      map["doc" := Text(doc), "name" := Text(name), "type_" := Array(TypesJson(types))]
  }

  function CaseJson(c: UnionCase): Json {
    Tagged(CaseTag(c), CaseMembers(c))
  }

  function CasesJson(cases: seq<UnionCase>): seq<Json> {
    seq(|cases|, i requires 0 <= i < |cases| => CaseJson(cases[i]))
  }

  function ValueJson(v: EnumCase): Json {
    Object(map["doc" := Text(v.doc), "name" := Text(v.name), "value" := Integer(v.value)])
  }

  function ValuesJson(values: seq<EnumCase>): seq<Json> {
    seq(|values|, i requires 0 <= i < |values| => ValueJson(values[i]))
  }

  function ParamJson(p: EventParam): Json {
    Object(map["doc" := Text(p.doc), "name" := Text(p.name), "type_" := TypeJson(p.paramType),
               "location" := Text(p.location)])
  }

  function ParamsJson(params: seq<EventParam>): seq<Json> {
    seq(|params|, i requires 0 <= i < |params| => ParamJson(params[i]))
  }

  function TextsJson(texts: seq<string>): seq<Json> {
    seq(|texts|, i requires 0 <= i < |texts| => Text(texts[i]))
  }

  function EntryTag(e: SpecEntry): string {
    match e
    case FunctionSpec(_, _, _, _) => "function_v0"
    case StructSpec(_, _, _, _) => "udt_struct_v0"
    case UnionSpec(_, _, _, _) => "udt_union_v0"
    case EnumSpec(_, _, _, _) => "udt_enum_v0"
    case ErrorEnumSpec(_, _, _, _) => "udt_error_enum_v0"
    case EventSpec(_, _, _, _, _, _) => "event_v0"
  }

  function UdtMembers(doc: string, lib: string, name: string, listName: string, list: seq<Json>): map<string, Json> {
    map["doc" := Text(doc), "lib" := Text(lib), "name" := Text(name), listName := Array(list)]
  }

  function EntryMembers(e: SpecEntry): map<string, Json> {
    match e
    case FunctionSpec(doc, name, inputs, outputs) =>
      map["doc" := Text(doc), "name" := Text(name),
          "inputs" := Array(FieldsJson(inputs)), "outputs" := Array(TypesJson(outputs))]
    case StructSpec(doc, lib, name, fields) => UdtMembers(doc, lib, name, "fields", FieldsJson(fields))
    case UnionSpec(doc, lib, name, cases) => UdtMembers(doc, lib, name, "cases", CasesJson(cases))
    case EnumSpec(doc, lib, name, values) => UdtMembers(doc, lib, name, "cases", ValuesJson(values))
    case ErrorEnumSpec(doc, lib, name, values) => UdtMembers(doc, lib, name, "cases", ValuesJson(values))
    case EventSpec(doc, lib, name, prefixTopics, params, dataFormat) =>
      map["doc" := Text(doc), "lib" := Text(lib), "name" := Text(name),
          "prefix_topics" := Array(TextsJson(prefixTopics)), "params" := Array(ParamsJson(params)),
          "data_format" := Text(dataFormat)]
  }

  function EntryJson(e: SpecEntry): Json {
    Tagged(EntryTag(e), EntryMembers(e))
  }

  /** The form in which entries are compared. */
  function Canonical(e: SpecEntry): Json {
    Stripped(EntryJson(e))
  }

  // ----- Erasing comments -----

  function FieldsWithoutDocs(fields: seq<Field>): seq<Field> {
    seq(|fields|, i requires 0 <= i < |fields| => fields[i].(doc := ""))
  }

  function CasesWithoutDocs(cases: seq<UnionCase>): seq<UnionCase> {
    seq(|cases|, i requires 0 <= i < |cases| => cases[i].(doc := ""))
  }

  function ParamsWithoutDocs(params: seq<EventParam>): seq<EventParam> {
    seq(|params|, i requires 0 <= i < |params| => params[i].(doc := ""))
  }

  function ValuesWithoutDocs(values: seq<EnumCase>): seq<EnumCase> {
    seq(|values|, i requires 0 <= i < |values| => values[i].(doc := ""))
  }

  /** The entry with every comment erased. */
  function WithoutDocs(e: SpecEntry): SpecEntry {
    match e
    case FunctionSpec(_, name, inputs, outputs) => FunctionSpec("", name, FieldsWithoutDocs(inputs), outputs)
    case StructSpec(_, lib, name, fields) => StructSpec("", lib, name, FieldsWithoutDocs(fields))
    case UnionSpec(_, lib, name, cases) => UnionSpec("", lib, name, CasesWithoutDocs(cases))
    case EnumSpec(_, lib, name, values) => EnumSpec("", lib, name, ValuesWithoutDocs(values))
    case ErrorEnumSpec(_, lib, name, values) => ErrorEnumSpec("", lib, name, ValuesWithoutDocs(values))
    case EventSpec(_, lib, name, prefixTopics, params, dataFormat) =>
      EventSpec("", lib, name, prefixTopics, ParamsWithoutDocs(params), dataFormat)
  }

  // ----- Types -----

  lemma TagsTell(tag: string, members: map<string, Json>, tag': string, members': map<string, Json>)
    ensures Tagged(tag, members) == Tagged(tag', members') <==> tag == tag' && members == members'
    ensures tag != DOC ==> Stripped(Tagged(tag, members)) == Tagged(tag, Stripped(Object(members)).members)
  {
    if Tagged(tag, members) == Tagged(tag', members') {
      assert tag in Tagged(tag, members).members.Keys;
      assert tag in Tagged(tag', members').members.Keys;
      assert Tagged(tag, members).members[tag] == Object(members);
    }
    assert tag != DOC ==> Stripped(Tagged(tag, members)).members == map[tag := Stripped(Object(members))];
  }

  /** Types hold no comments. */
  lemma {:induction false} TypesHaveNoDocs(t: SpecType)
    ensures Stripped(TypeJson(t)) == TypeJson(t)
    decreases t, 1
  {
    if !t.Basic? {
      TypeMembersHaveNoDocs(t);
      TagsTell(TypeTag(t), TypeMembers(t), "", map[]);
    }
  }

  lemma {:induction false} TypeMembersHaveNoDocs(t: SpecType)
    ensures Stripped(Object(TypeMembers(t))) == Object(TypeMembers(t))
    decreases t, 0
  {
    match t
    case OptionOf(v) => TypesHaveNoDocs(v);
    case ResultOf(o, e) =>
      TypesHaveNoDocs(o);
      TypesHaveNoDocs(e);
    case VecOf(e) => TypesHaveNoDocs(e);
    case MapOf(k, v) =>
      TypesHaveNoDocs(k);
      TypesHaveNoDocs(v);
    case TupleOf(ms) =>
      forall i | 0 <= i < |ms| { TypesHaveNoDocs(ms[i]); }
      assert Stripped(Array(TypesJson(ms))).items == TypesJson(ms);
    case _ =>
    hide TypeJson, Stripped;
    UndocumentedStays(TypeMembers(t));
  }

  lemma UndocumentedStays(m: map<string, Json>)
    requires forall k :: k in m ==> k != DOC && Stripped(m[k]) == m[k]
    ensures Stripped(Object(m)) == Object(m)
  {
    assert Stripped(Object(m)).members == m;
  }

  /** Different types look different. */
  lemma {:induction false} TypesAreTold(a: SpecType, b: SpecType)
    ensures TypeJson(a) == TypeJson(b) <==> a == b
  {
    if TypeJson(a) == TypeJson(b) && !a.Basic? && !b.Basic? {
      TagsTell(TypeTag(a), TypeMembers(a), TypeTag(b), TypeMembers(b));
      var m, m' := TypeMembers(a), TypeMembers(b);
      assert m == m';
      match (a, b)
      case (BytesN(_), BytesN(_)) => assert m["n"] == m'["n"];
      case (Udt(_), Udt(_)) => assert m["name"] == m'["name"];
      case (OptionOf(v), OptionOf(w)) =>
        assert m["value_type"] == m'["value_type"];
        TypesAreTold(v, w);
      case (ResultOf(o, e), ResultOf(o', e')) =>
        assert m["ok_type"] == m'["ok_type"] && m["error_type"] == m'["error_type"];
        TypesAreTold(o, o');
        TypesAreTold(e, e');
      case (VecOf(e), VecOf(e')) =>
        assert m["element_type"] == m'["element_type"];
        TypesAreTold(e, e');
      case (MapOf(k, v), MapOf(k', v')) =>
        assert m["key_type"] == m'["key_type"] && m["value_type"] == m'["value_type"];
        TypesAreTold(k, k');
        TypesAreTold(v, v');
      case (TupleOf(ms), TupleOf(ns)) =>
        assert m["value_types"].items == m'["value_types"].items;
        assert |ms| == |TypesJson(ms)| == |TypesJson(ns)| == |ns|;
        forall i | 0 <= i < |ms| ensures ms[i] == ns[i] {
          assert TypesJson(ms)[i] == TypesJson(ns)[i];
          TypesAreTold(ms[i], ns[i]);
        }
      case (_, _) =>
    }
  }

  // ----- Entries -----

  lemma ObjectsAreTold(m: map<string, Json>, m': map<string, Json>)
    requires m.Keys == m'.Keys
    ensures Stripped(Object(m)) == Stripped(Object(m')) <==>
            forall k :: k in m && k != DOC ==> Stripped(m[k]) == Stripped(m'[k])
  {
    var s, s' := Stripped(Object(m)).members, Stripped(Object(m')).members;
    assert s.Keys == m.Keys - {DOC} == s'.Keys;
    assert forall k :: k in m && k != DOC ==> k in s && s[k] == Stripped(m[k]) && s'[k] == Stripped(m'[k]);
    assert s == s' <==> forall k :: k in s ==> s[k] == s'[k];
  }

  lemma ListsAreTold(a: seq<Json>, b: seq<Json>)
    ensures Stripped(Array(a)) == Stripped(Array(b)) <==>
            |a| == |b| && forall i :: 0 <= i < |a| ==> Stripped(a[i]) == Stripped(b[i])
  {
    var s, t := Stripped(Array(a)).items, Stripped(Array(b)).items;
    assert s == t <==> |s| == |t| && forall i :: 0 <= i < |s| ==> s[i] == t[i];
    assert forall i :: 0 <= i < |a| ==> s[i] == Stripped(a[i]);
    assert forall i :: 0 <= i < |b| ==> t[i] == Stripped(b[i]);
  }

  lemma StrippedIsObject(m: map<string, Json>)
    ensures Stripped(Object(m)).Object?
  {
  }

  lemma ScalarsStay(text: string)
    ensures Stripped(Text(text)) == Text(text)
  {
  }

  lemma NumbersStay(n: int)
    ensures Stripped(Integer(n)) == Integer(n)
  {
  }

  lemma FieldsAreTold(f: Field, g: Field)
    ensures Stripped(FieldJson(f)) == Stripped(FieldJson(g)) <==> f.(doc := "") == g.(doc := "")
  {
    hide Stripped, TypeJson;
    ObjectsAreTold(FieldJson(f).members, FieldJson(g).members);
    ScalarsStay(f.name);
    ScalarsStay(g.name);
    TypesHaveNoDocs(f.fieldType);
    TypesHaveNoDocs(g.fieldType);
    TypesAreTold(f.fieldType, g.fieldType);
    assert "name" in FieldJson(f).members && "type_" in FieldJson(f).members;
  }

  lemma ValuesAreTold(v: EnumCase, w: EnumCase)
    ensures Stripped(ValueJson(v)) == Stripped(ValueJson(w)) <==> v.(doc := "") == w.(doc := "")
  {
    hide Stripped;
    ObjectsAreTold(ValueJson(v).members, ValueJson(w).members);
    ScalarsStay(v.name);
    ScalarsStay(w.name);
    NumbersStay(v.value);
    NumbersStay(w.value);
    assert "name" in ValueJson(v).members && "value" in ValueJson(v).members;
  }

  lemma ParamsAreTold(p: EventParam, q: EventParam)
    ensures Stripped(ParamJson(p)) == Stripped(ParamJson(q)) <==> p.(doc := "") == q.(doc := "")
  {
    hide Stripped, TypeJson;
    ObjectsAreTold(ParamJson(p).members, ParamJson(q).members);
    ScalarsStay(p.name);
    ScalarsStay(q.name);
    ScalarsStay(p.location);
    ScalarsStay(q.location);
    TypesHaveNoDocs(p.paramType);
    TypesHaveNoDocs(q.paramType);
    TypesAreTold(p.paramType, q.paramType);
    assert "name" in ParamJson(p).members && "type_" in ParamJson(p).members && "location" in ParamJson(p).members;
  }

  lemma TypeListsAreTold(a: seq<SpecType>, b: seq<SpecType>)
    ensures Stripped(Array(TypesJson(a))) == Stripped(Array(TypesJson(b))) <==> a == b
  {
    ListsAreTold(TypesJson(a), TypesJson(b));
    if |a| == |b| {
      forall i | 0 <= i < |a|
        ensures Stripped(TypesJson(a)[i]) == Stripped(TypesJson(b)[i]) <==> a[i] == b[i]
      {
        TypesHaveNoDocs(a[i]);
        TypesHaveNoDocs(b[i]);
        TypesAreTold(a[i], b[i]);
      }
    }
  }

  lemma FieldListsAreTold(a: seq<Field>, b: seq<Field>)
    ensures Stripped(Array(FieldsJson(a))) == Stripped(Array(FieldsJson(b))) <==>
            FieldsWithoutDocs(a) == FieldsWithoutDocs(b)
  {
    ListsAreTold(FieldsJson(a), FieldsJson(b));
    if |a| == |b| {
      forall i | 0 <= i < |a|
        ensures Stripped(FieldsJson(a)[i]) == Stripped(FieldsJson(b)[i]) <==>
                FieldsWithoutDocs(a)[i] == FieldsWithoutDocs(b)[i]
      {
        FieldsAreTold(a[i], b[i]);
      }
    }
  }

  lemma ValueListsAreTold(a: seq<EnumCase>, b: seq<EnumCase>)
    ensures Stripped(Array(ValuesJson(a))) == Stripped(Array(ValuesJson(b))) <==>
            ValuesWithoutDocs(a) == ValuesWithoutDocs(b)
  {
    ListsAreTold(ValuesJson(a), ValuesJson(b));
    if |a| == |b| {
      forall i | 0 <= i < |a|
        ensures Stripped(ValuesJson(a)[i]) == Stripped(ValuesJson(b)[i]) <==>
                ValuesWithoutDocs(a)[i] == ValuesWithoutDocs(b)[i]
      {
        ValuesAreTold(a[i], b[i]);
      }
    }
  }

  lemma ParamListsAreTold(a: seq<EventParam>, b: seq<EventParam>)
    ensures Stripped(Array(ParamsJson(a))) == Stripped(Array(ParamsJson(b))) <==>
            ParamsWithoutDocs(a) == ParamsWithoutDocs(b)
  {
    ListsAreTold(ParamsJson(a), ParamsJson(b));
    if |a| == |b| {
      forall i | 0 <= i < |a|
        ensures Stripped(ParamsJson(a)[i]) == Stripped(ParamsJson(b)[i]) <==>
                ParamsWithoutDocs(a)[i] == ParamsWithoutDocs(b)[i]
      {
        ParamsAreTold(a[i], b[i]);
      }
    }
  }

  lemma TextListsAreTold(a: seq<string>, b: seq<string>)
    ensures Stripped(Array(TextsJson(a))) == Stripped(Array(TextsJson(b))) <==> a == b
  {
    ListsAreTold(TextsJson(a), TextsJson(b));
    if |a| == |b| {
      forall i | 0 <= i < |a|
        ensures Stripped(TextsJson(a)[i]) == Stripped(TextsJson(b)[i]) <==> a[i] == b[i]
      {
      }
    }
  }

  lemma CasesAreTold(c: UnionCase, d: UnionCase)
    ensures Stripped(CaseJson(c)) == Stripped(CaseJson(d)) <==> c.(doc := "") == d.(doc := "")
  {
    hide Stripped;
    var m, m' := CaseMembers(c), CaseMembers(d);
    TagsTell(CaseTag(c), m, CaseTag(d), m');
    TagsTell(CaseTag(d), m', CaseTag(c), m);
    var s, s' := Stripped(Object(m)), Stripped(Object(m'));
    StrippedIsObject(m);
    StrippedIsObject(m');
    TagsTell(CaseTag(c), s.members, CaseTag(d), s'.members);
    if CaseTag(c) == CaseTag(d) {
      ObjectsAreTold(m, m');
      assert "name" in m;
      ScalarsStay(c.name);
      ScalarsStay(d.name);
      if c.TupleCase? {
        TypeListsAreTold(c.types, d.types);
        assert "type_" in m;
      }
    }
  }

  lemma CaseListsAreTold(a: seq<UnionCase>, b: seq<UnionCase>)
    ensures Stripped(Array(CasesJson(a))) == Stripped(Array(CasesJson(b))) <==>
            CasesWithoutDocs(a) == CasesWithoutDocs(b)
  {
    ListsAreTold(CasesJson(a), CasesJson(b));
    if |a| == |b| {
      forall i | 0 <= i < |a|
        ensures Stripped(CasesJson(a)[i]) == Stripped(CasesJson(b)[i]) <==>
                CasesWithoutDocs(a)[i] == CasesWithoutDocs(b)[i]
      {
        CasesAreTold(a[i], b[i]);
      }
    }
  }

  lemma FunctionMembersAreTold(a: SpecEntry, b: SpecEntry)
    requires a.FunctionSpec? && b.FunctionSpec?
    ensures Stripped(Object(EntryMembers(a))) == Stripped(Object(EntryMembers(b))) <==> WithoutDocs(a) == WithoutDocs(b)
  {
    hide Stripped, FieldsJson, TypesJson, FieldsWithoutDocs;
    var m := EntryMembers(a);
    ObjectsAreTold(m, EntryMembers(b));
    ScalarsStay(a.name);
    ScalarsStay(b.name);
    FieldListsAreTold(a.inputs, b.inputs);
    TypeListsAreTold(a.outputs, b.outputs);
    assert "name" in m && "inputs" in m && "outputs" in m;
  }

  lemma EventMembersAreTold(a: SpecEntry, b: SpecEntry)
    requires a.EventSpec? && b.EventSpec?
    ensures Stripped(Object(EntryMembers(a))) == Stripped(Object(EntryMembers(b))) <==> WithoutDocs(a) == WithoutDocs(b)
  {
    hide Stripped, ParamsJson, TextsJson, ParamsWithoutDocs;
    var m := EntryMembers(a);
    ObjectsAreTold(m, EntryMembers(b));
    ScalarsStay(a.name);
    ScalarsStay(b.name);
    ScalarsStay(a.lib);
    ScalarsStay(b.lib);
    ScalarsStay(a.dataFormat);
    ScalarsStay(b.dataFormat);
    TextListsAreTold(a.prefixTopics, b.prefixTopics);
    ParamListsAreTold(a.params, b.params);
    assert "name" in m && "lib" in m && "prefix_topics" in m && "params" in m && "data_format" in m;
  }

  /** The one list that a user type consists of. */
  function UdtList(e: SpecEntry): seq<Json> {
    match e
    case StructSpec(_, _, _, fields) => FieldsJson(fields)
    case UnionSpec(_, _, _, cases) => CasesJson(cases)
    case EnumSpec(_, _, _, values) => ValuesJson(values)
    case ErrorEnumSpec(_, _, _, values) => ValuesJson(values)
    case _ => []
  }

  lemma UdtListsAreTold(a: SpecEntry, b: SpecEntry)
    requires EntryTag(a) == EntryTag(b) && !a.FunctionSpec? && !a.EventSpec?
    ensures Stripped(Array(UdtList(a))) == Stripped(Array(UdtList(b))) && a.name == b.name && a.lib == b.lib <==>
            WithoutDocs(a) == WithoutDocs(b)
  {
    hide Stripped, FieldsJson, CasesJson, ValuesJson, FieldsWithoutDocs, CasesWithoutDocs, ValuesWithoutDocs;
    match a
    case StructSpec(_, _, _, fields) => FieldListsAreTold(fields, b.fields);
    case UnionSpec(_, _, _, cases) => CaseListsAreTold(cases, b.cases);
    case EnumSpec(_, _, _, values) => ValueListsAreTold(values, b.values);
    case ErrorEnumSpec(_, _, _, values) => ValueListsAreTold(values, b.values);
  }

  lemma UdtMembersAreTold(
    doc: string, lib: string, name: string, list: seq<Json>, doc': string, lib': string, name': string,
    list': seq<Json>, listName: string)
    requires listName == "fields" || listName == "cases"
    ensures var m, m' := UdtMembers(doc, lib, name, listName, list), UdtMembers(doc', lib', name', listName, list');
            Stripped(Object(m)) == Stripped(Object(m')) <==>
            lib == lib' && name == name' && Stripped(Array(list)) == Stripped(Array(list'))
  {
    hide Stripped;
    var m := UdtMembers(doc, lib, name, listName, list);
    ObjectsAreTold(m, UdtMembers(doc', lib', name', listName, list'));
    ScalarsStay(name);
    ScalarsStay(name');
    ScalarsStay(lib);
    ScalarsStay(lib');
    assert "name" in m && "lib" in m && listName in m;
  }

  lemma UdtEntry(e: SpecEntry)
    requires !e.FunctionSpec? && !e.EventSpec?
    ensures EntryMembers(e)
         == UdtMembers(e.doc, e.lib, e.name, if e.StructSpec? then "fields" else "cases", UdtList(e))
  {
    hide UdtMembers, FieldsJson, CasesJson, ValuesJson;
  }

  lemma EntryMembersAreTold(a: SpecEntry, b: SpecEntry)
    requires EntryTag(a) == EntryTag(b)
    ensures Stripped(Object(EntryMembers(a))) == Stripped(Object(EntryMembers(b))) <==> WithoutDocs(a) == WithoutDocs(b)
  {
    hide Stripped, EntryMembers, WithoutDocs;
    if a.FunctionSpec? {
      FunctionMembersAreTold(a, b);
    } else if a.EventSpec? {
      EventMembersAreTold(a, b);
    } else {
      UdtListsAreTold(a, b);
      var listName := if a.StructSpec? then "fields" else "cases";
      UdtMembersAreTold(a.doc, a.lib, a.name, UdtList(a), b.doc, b.lib, b.name, UdtList(b), listName);
      UdtEntry(a);
      UdtEntry(b);
    }
  }

  /** Stripping an entry's JSON erases its comments and nothing else: canonical forms agree exactly for
      entries that differ only in comments, which is when the JSON forms show no difference outside `doc`. */
  lemma CanonicalFormsAgreeIffSameWithoutDocs(a: SpecEntry, b: SpecEntry)
    ensures Canonical(a) == Canonical(b) <==> WithoutDocs(a) == WithoutDocs(b)
    ensures SameExceptDocumentation(EntryJson(a), EntryJson(b)) <==> WithoutDocs(a) == WithoutDocs(b)
  {
    hide Stripped, EntryMembers, WithoutDocs, SameExceptDocumentation;
    CanonicalFormsAgreeIffSameExceptDocumentation(EntryJson(a), EntryJson(b));
    StrippedEntry(a);
    StrippedEntry(b);
    StrippedIsObject(EntryMembers(a));
    StrippedIsObject(EntryMembers(b));
    TagsTell(EntryTag(a), Stripped(Object(EntryMembers(a))).members,
             EntryTag(b), Stripped(Object(EntryMembers(b))).members);
    if EntryTag(a) == EntryTag(b) {
      EntryMembersAreTold(a, b);
    } else {
      ErasingKeepsTheKind(a);
      ErasingKeepsTheKind(b);
    }
  }

  lemma StrippedEntry(e: SpecEntry)
    ensures Stripped(Object(EntryMembers(e))).Object?
    ensures Canonical(e) == Tagged(EntryTag(e), Stripped(Object(EntryMembers(e))).members)
  {
    hide EntryMembers;
    TagsTell(EntryTag(e), EntryMembers(e), "", map[]);
  }

  lemma ErasingKeepsTheKind(e: SpecEntry)
    ensures EntryTag(WithoutDocs(e)) == EntryTag(e)
  {
  }

  // ----- What is read from canonical forms -----

  lemma FieldIsRead(f: Field)
    ensures var v := Stripped(FieldJson(f));
            v.Get("name") == Some(Text(f.name)) && v.Get("type_") == Some(TypeJson(f.fieldType))
  {
    TypesHaveNoDocs(f.fieldType);
    assert "name" in FieldJson(f).members && "type_" in FieldJson(f).members;
  }

  lemma ListIsRead(e: SpecEntry, inner: string, list: seq<Json>)
    requires inner != DOC && inner in EntryMembers(e) && EntryMembers(e)[inner] == Array(list)
    ensures ArrayAt(Canonical(e), EntryTag(e), inner) == Some(Stripped(Array(list)).items)
  {
    hide EntryMembers, EntryTag;
    StrippedEntry(e);
  }
}
