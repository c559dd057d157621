/**
 * The values that `JSON.parse` produces, and the few JavaScript operations
 * on them that the preload script and the settings panel rely on: property
 * lookup, property assignment, truthiness and strict equality.
 */
module Json {
  import opened Wrappers

  /** A parsed value. An object keeps its members in property order. */
  datatype Json =
    | Null
    | Bool(b: bool)
    | Num(n: real)
    | Str(s: string)
    | Arr(items: seq<Json>)
    | Obj(members: seq<(string, Json)>)

  /** The errors the modelled code can throw. */
  datatype Error = TypeError

  /** JavaScript truthiness: `null`, `false`, `0` and `""` are falsy. */
  predicate Truthy(v: Json) {
    match v
    case Null => false
    case Bool(b) => b
    case Num(n) => n != 0.0
    case Str(s) => s != ""
    case Arr(_) => true
    case Obj(_) => true
  }

  /** The value of the first member called `key`; None stands for `undefined`. */
  function Lookup(members: seq<(string, Json)>, key: string): (r: Option<Json>)
    ensures r.Some? <==> exists i :: 0 <= i < |members| && members[i].0 == key
    ensures r.Some? ==> exists i :: 0 <= i < |members| && members[i] == (key, r.value)
  {
    if members == [] then None
    else if members[0].0 == key then Some(members[0].1)
    else
      var r := Lookup(members[1..], key);
      assert forall i :: 1 <= i < |members| ==> members[i] == members[1..][i - 1];
      r
  }

  /** Looking up a key in members with one more member in front. */
  lemma LookupCons(k: string, v: Json, rest: seq<(string, Json)>)
    ensures Lookup([(k, v)] + rest, k) == Some(v)
    ensures forall key :: key != k ==> Lookup([(k, v)] + rest, key) == Lookup(rest, key)
  {
    assert ([(k, v)] + rest)[1..] == rest;
  }

  /**
   * `v.key` for a value that is not `null`: only objects have the
   * properties used here, so on every other value it is `undefined`.
   */
  function Member(v: Json, key: string): Option<Json> {
    if v.Obj? then Lookup(v.members, key) else None
  }

  function Keys(members: seq<(string, Json)>): seq<string> {
    seq(|members|, i requires 0 <= i < |members| => members[i].0)
  }

  /**
   * `o[key] = value` on an object's members: an existing property keeps its
   * place and takes the new value, a new one goes to the end.
   */
  function Assign(members: seq<(string, Json)>, key: string, value: Json): (r: seq<(string, Json)>)
    ensures Lookup(r, key) == Some(value)
    ensures forall k :: k != key ==> Lookup(r, k) == Lookup(members, k)
    ensures Lookup(members, key).Some? ==> Keys(r) == Keys(members)
    ensures Lookup(members, key).None? ==> Keys(r) == Keys(members) + [key]
  {
    if members == [] then [(key, value)]
    else if members[0].0 == key then [(key, value)] + members[1..]
    else
      var rest := Assign(members[1..], key, value);
      assert Keys([members[0]] + rest) == [members[0].0] + Keys(rest);
      assert Keys(members) == [members[0].0] + Keys(members[1..]);
      [members[0]] + rest
  }

  /** No two members share a key: what every object's own properties satisfy. */
  predicate DistinctKeys(members: seq<(string, Json)>) {
    forall i, j :: 0 <= i < j < |members| ==> members[i].0 != members[j].0
  }

  /** With distinct keys, looking up the key of any member finds that member's value. */
  lemma {:induction false} LookupDistinct(members: seq<(string, Json)>, i: int)
    requires DistinctKeys(members) && 0 <= i < |members|
    ensures Lookup(members, members[i].0) == Some(members[i].1)
  {
    if i > 0 {
      assert members[0].0 != members[i].0;
      assert DistinctKeys(members[1..]) by {
        forall a, b | 0 <= a < b < |members[1..]|
          ensures members[1..][a].0 != members[1..][b].0
        {
          assert members[1..][a] == members[a + 1] && members[1..][b] == members[b + 1];
        }
      }
      LookupDistinct(members[1..], i - 1);
    }
  }

  /** Assignment keeps keys distinct. */
  lemma AssignDistinct(members: seq<(string, Json)>, key: string, value: Json)
    requires DistinctKeys(members)
    ensures DistinctKeys(Assign(members, key, value))
  {
    var r := Assign(members, key, value);
    var ks, rs := Keys(members), Keys(r);
    assert forall i, j :: 0 <= i < j < |ks| ==> ks[i] != ks[j];
    if Lookup(members, key).None? {
      assert rs == ks + [key];
      assert key !in ks;
    }
    assert forall i, j :: 0 <= i < j < |rs| ==> rs[i] != rs[j];
    assert forall i :: 0 <= i < |r| ==> r[i].0 == rs[i];
  }

  /**
   * An object literal `{ k1: v1, k2: v2, ... }`: the properties are defined
   * one after another, a repeated key overwriting the earlier value in place.
   */
  function ObjectLiteral(props: seq<(string, Json)>): (r: seq<(string, Json)>)
    ensures DistinctKeys(r)
    decreases |props|
  {
    if props == [] then []
    else
      var last := props[|props| - 1];
      AssignDistinct(ObjectLiteral(props[..|props| - 1]), last.0, last.1);
      Assign(ObjectLiteral(props[..|props| - 1]), last.0, last.1)
  }

  /** `v[key] = value` on an object. */
  function SetMember(v: Json, key: string, value: Json): (r: Json)
    requires v.Obj?
    ensures r.Obj?
    ensures Member(r, key) == Some(value)
    ensures forall k :: k != key ==> Member(r, k) == Member(v, k)
  {
    Obj(Assign(v.members, key, value))
  }

  /** Values compared by value under `===`; arrays and objects are compared by identity. */
  predicate Primitive(v: Json) {
    !v.Arr? && !v.Obj?
  }

  /**
   * `a === b` where `a` may be `undefined`. Each call of the parser builds
   * fresh arrays and objects, so an array or object never equals another
   * value built separately.
   */
  predicate StrictEq(a: Option<Json>, b: Json) {
    a == Some(b) && Primitive(b)
  }

  lemma {:induction false} AssignTwice(members: seq<(string, Json)>, key: string, value: Json)
    ensures Assign(Assign(members, key, value), key, value) == Assign(members, key, value)
  {
    if members != [] && members[0].0 != key {
      AssignTwice(members[1..], key, value);
    }
  }

  lemma {:induction false} AssignExisting(members: seq<(string, Json)>, key: string)
    requires Lookup(members, key).Some?
    ensures Assign(members, key, Lookup(members, key).value) == members
  {
    if members[0].0 != key {
      AssignExisting(members[1..], key);
    }
  }
}
