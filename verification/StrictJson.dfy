/** The strict JSON check: a first pass over the input that refuses repeated object keys. */
module StrictJson {
  import opened JsonValues

  /** A JSON text as read, members in textual order and keys possibly repeated. */
  datatype Tree =
    | Leaf(scalar: Json)
    | Sequence(items: seq<Tree>)
    | Mapping(members: seq<Entry>)

  datatype Entry = Entry(key: string, value: Tree)

  ghost predicate NoRepeatedKey(t: Tree) {
    match t
    case Leaf(_) => true
    case Sequence(items) => forall i :: 0 <= i < |items| ==> NoRepeatedKey(items[i])
    case Mapping(members) =>
      && (forall i, j :: 0 <= i < j < |members| ==> members[i].key != members[j].key)
      && (forall i :: 0 <= i < |members| ==> NoRepeatedKey(members[i].value))
  }

  /** The visitor. It stops at the first repeated key, before it reads that key's value. */
  method VisitUnique(t: Tree) returns (ok: bool)
    ensures ok <==> NoRepeatedKey(t)
  {
    match t
    case Leaf(_) =>
      return true;
    case Sequence(items) =>
      for i := 0 to |items|
        invariant forall j :: 0 <= j < i ==> NoRepeatedKey(items[j])
      {
        var inner := VisitUnique(items[i]);
        if !inner { return false; }
      }
      return true;
    case Mapping(members) =>
      var keys: set<string> := {};
      for i := 0 to |members|
        invariant keys == set j | 0 <= j < i :: members[j].key
        invariant forall j, k :: 0 <= j < k < i ==> members[j].key != members[k].key
        invariant forall j :: 0 <= j < i ==> NoRepeatedKey(members[j].value)
      {
        if members[i].key in keys { return false; }
        keys := keys + {members[i].key};
        var inner := VisitUnique(members[i].value);
        if !inner { return false; }
      }
      return true;
  }

  /** Object semantics of a reader that keeps the first value of a repeated key. */
  function FirstWins(t: Tree): Json {
    match t
    case Leaf(scalar) => scalar
    case Sequence(items) => Array(seq(|items|, i requires 0 <= i < |items| => FirstWins(items[i])))
    case Mapping(members) => Object(FirstMembers(members))
  }

  function FirstMembers(members: seq<Entry>): map<string, Json> {
    if members == [] then map[]
    else FirstMembers(members[1..])[members[0].key := FirstWins(members[0].value)]
  }

  /** Object semantics of a reader that keeps the last value of a repeated key. */
  function LastWins(t: Tree): Json {
    match t
    case Leaf(scalar) => scalar
    case Sequence(items) => Array(seq(|items|, i requires 0 <= i < |items| => LastWins(items[i])))
    case Mapping(members) => Object(LastMembers(members))
  }

  function LastMembers(members: seq<Entry>): map<string, Json> {
    if members == [] then map[]
    else
      var last := |members| - 1;
      LastMembers(members[..last])[members[last].key := LastWins(members[last].value)]
  }

  lemma {:induction false} FirstMembersAt(members: seq<Entry>)
    requires forall i, j :: 0 <= i < j < |members| ==> members[i].key != members[j].key
    ensures FirstMembers(members).Keys == set i | 0 <= i < |members| :: members[i].key
    ensures forall i :: 0 <= i < |members| ==> FirstMembers(members)[members[i].key] == FirstWins(members[i].value)
  {
    if members != [] {
      var rest := members[1..];
      FirstMembersAt(rest);
      assert forall i :: 0 < i < |members| ==> members[i] == rest[i - 1];
    }
  }

  lemma {:induction false} LastMembersAt(members: seq<Entry>)
    requires forall i, j :: 0 <= i < j < |members| ==> members[i].key != members[j].key
    ensures LastMembers(members).Keys == set i | 0 <= i < |members| :: members[i].key
    ensures forall i :: 0 <= i < |members| ==> LastMembers(members)[members[i].key] == LastWins(members[i].value)
  {
    if members != [] {
      var last := |members| - 1;
      var init := members[..last];
      LastMembersAt(init);
      var before, after := LastMembers(init), LastMembers(members);
      assert after == before[members[last].key := LastWins(members[last].value)];
      hide LastWins, LastMembers;
      forall i | 0 <= i < |members|
        ensures members[i].key in after && after[members[i].key] == LastWins(members[i].value)
      {
        if i < last { assert init[i] == members[i] && init[i].key in before; }
      }
      forall k | k in after ensures exists i :: 0 <= i < |members| && members[i].key == k {
        if k in before {
          var i :| 0 <= i < |init| && init[i].key == k;
          assert members[i].key == k;
        }
      }
    }
  }

  /** An accepted text has one meaning: both object semantics give the same value. */
  lemma {:induction false} AcceptedTextsAreUnambiguous(t: Tree)
    requires NoRepeatedKey(t)
    ensures FirstWins(t) == LastWins(t)
  {
    match t
    case Leaf(_) =>
    case Sequence(items) =>
      forall i | 0 <= i < |items| { AcceptedTextsAreUnambiguous(items[i]); }
      assert FirstWins(t).items == LastWins(t).items;
    case Mapping(members) =>
      FirstMembersAt(members);
      LastMembersAt(members);
      forall i | 0 <= i < |members| { AcceptedTextsAreUnambiguous(members[i].value); }
      assert FirstMembers(members) == LastMembers(members);
  }
}
