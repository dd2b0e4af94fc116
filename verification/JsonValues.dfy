/** JSON values after parsing, and the documentation stripper that turns a
    Contract Spec entry into its canonical form. */
module JsonValues {
  import opened Wrappers

  datatype Json =
    | Null
    | Bool(flag: bool)
    | Integer(value: int)
    | Float(number: real)
    | Text(text: string)
    | Array(items: seq<Json>)
    | Object(members: map<string, Json>)
  {
    /** The member called `name`, or None for a missing member or a value that is not an object. */
    function Get(name: string): Option<Json> {
      if Object? && name in members then Some(members[name]) else None
    }

    function AsArray(): Option<seq<Json>> {
      if Array? then Some(items) else None
    }
  }

  /** The array two members deep, such as `/udt_struct_v0/fields`. */
  function ArrayAt(v: Json, outer: string, inner: string): Option<seq<Json>> {
    match v.Get(outer)
    case None => None
    case Some(o) =>
      match o.Get(inner)
      case None => None
      case Some(i) => i.AsArray()
  }

  const DOC := "doc"

  /** What the stripper leaves: the same value without any `doc` member at any depth. */
  function Stripped(v: Json): Json {
    match v
    case Array(items) => Array(seq(|items|, i requires 0 <= i < |items| => Stripped(items[i])))
    case Object(members) => Object(map k | k in members && k != DOC :: Stripped(members[k]))
    case _ => v
  }

  /** The stripper: it removes the object's own `doc`, then walks the children. */
  method StripDocumentation(value: Json) returns (r: Json)
    ensures r == Stripped(value)
  {
    match value
    case Object(members) =>
      var kept := members - {DOC};
      var rest := kept.Keys;
      while rest != {}
        invariant rest <= kept.Keys == members.Keys - {DOC}
        invariant forall k :: k in kept ==> kept[k] == if k in rest then members[k] else Stripped(members[k])
        decreases rest
      {
        var k :| k in rest;
        var child := StripDocumentation(members[k]);
        kept := kept[k := child];
        rest := rest - {k};
      }
      r := Object(kept);
    case Array(items) =>
      var values := items;
      for i := 0 to |items|
        invariant |values| == |items|
        invariant forall j :: 0 <= j < |items| ==> values[j] == if j < i then Stripped(items[j]) else items[j]
      {
        var child := StripDocumentation(items[i]);
        values := values[i := child];
      }
      r := Array(values);
    case _ =>
      r := value;
  }

  lemma {:induction false} StrippingIsIdempotent(v: Json)
    ensures Stripped(Stripped(v)) == Stripped(v)
  {
    match v
    case Array(items) =>
      forall i | 0 <= i < |items| { StrippingIsIdempotent(items[i]); }
      assert Stripped(Stripped(v)).items == Stripped(v).items;
    case Object(members) =>
      forall k | k in members { StrippingIsIdempotent(members[k]); }
      assert Stripped(Stripped(v)).members == Stripped(v).members;
    case _ =>
  }

  // ----- An independent reading of "equal up to documentation" -----
  //
  // Two trees say the same thing when every place that can be reached without
  // going through a `doc` member looks the same in both.

  datatype Step = Member(name: string) | Item(index: nat)

  datatype View =
    | Missing
    | Scalar(value: Json)
    | ArrayOf(length: nat)
    | ObjectOf(names: set<string>)

  /** What is seen at a place: the scalar, the array length, or the member names other than `doc`. */
  function Look(v: Json, path: seq<Step>): View {
    if path == [] then
      match v
      case Array(items) => ArrayOf(|items|)
      case Object(members) => ObjectOf(members.Keys - {DOC})
      case _ => Scalar(v)
    else
      match (v, path[0])
      case (Array(items), Item(i)) => if i < |items| then Look(items[i], path[1..]) else Missing
      case (Object(members), Member(k)) => if k in members && k != DOC then Look(members[k], path[1..]) else Missing
      case _ => Missing
  }

  ghost predicate SameExceptDocumentation(a: Json, b: Json) {
    forall path :: Look(a, path) == Look(b, path)
  }

  lemma {:induction false} StrippingKeepsEveryView(v: Json, path: seq<Step>)
    ensures Look(Stripped(v), path) == Look(v, path)
    decreases path
  {
    if path == [] {
      match v
      case Object(members) => assert Stripped(v).members.Keys == members.Keys - {DOC};
      case _ =>
    } else {
      match (v, path[0])
      case (Array(items), Item(i)) => if i < |items| { StrippingKeepsEveryView(items[i], path[1..]); }
      case (Object(members), Member(k)) => if k in members { StrippingKeepsEveryView(members[k], path[1..]); }
      case _ =>
    }
  }

  /** Canonical forms agree exactly when the trees differ only in documentation. */
  lemma {:induction false} CanonicalFormsAgreeIffSameExceptDocumentation(a: Json, b: Json)
    ensures Stripped(a) == Stripped(b) <==> SameExceptDocumentation(a, b)
  {
    if Stripped(a) == Stripped(b) {
      forall path ensures Look(a, path) == Look(b, path) {
        StrippingKeepsEveryView(a, path);
        StrippingKeepsEveryView(b, path);
      }
    }
    if SameExceptDocumentation(a, b) {
      SameViewsGiveSameCanonicalForm(a, b);
    }
  }

  lemma {:induction false} SameViewsGiveSameCanonicalForm(a: Json, b: Json)
    requires SameExceptDocumentation(a, b)
    ensures Stripped(a) == Stripped(b)
    decreases a
  {
    assert Look(a, []) == Look(b, []);
    match a
    case Array(items) =>
      forall i: nat | i < |items| ensures Stripped(items[i]) == Stripped(b.items[i]) {
        forall path ensures Look(items[i], path) == Look(b.items[i], path) {
          var whole := [Item(i)] + path;
          assert Look(a, whole) == Look(b, whole) && whole[1..] == path;
        }
        SameViewsGiveSameCanonicalForm(items[i], b.items[i]);
      }
      assert Stripped(a).items == Stripped(b).items;
    case Object(members) =>
      assert members.Keys - {DOC} == b.members.Keys - {DOC};
      forall k | k in members && k != DOC ensures k in b.members && Stripped(members[k]) == Stripped(b.members[k]) {
        assert k in members.Keys - {DOC};
        forall path ensures Look(members[k], path) == Look(b.members[k], path) {
          var whole := [Member(k)] + path;
          assert Look(a, whole) == Look(b, whole) && whole[1..] == path;
        }
        SameViewsGiveSameCanonicalForm(members[k], b.members[k]);
      }
      assert Stripped(a).members.Keys == members.Keys - {DOC};
      assert Stripped(b).members.Keys == b.members.Keys - {DOC};
      assert Stripped(a).members == Stripped(b).members;
    case _ =>
  }
}
