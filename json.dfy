/** The parsed JavaScript values the dispatch inspects: what `JSON.parse`
    and the converters hand back, with JavaScript's truthiness, property
    reads and `for…in` enumeration. */
module Json {
  import opened Base

  /** A parsed value. An object's members are listed in its enumeration
      order and carry distinct keys. */
  datatype Json =
    | JNull
    | JBool(b: bool)
    | JNum(n: real)
    | JStr(s: string)
    | JArr(items: seq<Json>)
    | JObj(members: seq<(string, Json)>)

  /** JavaScript's `ToBoolean` on a parsed value. */
  predicate Truthy(v: Json)
  {
    match v
    case JNull => false
    case JBool(b) => b
    case JNum(n) => n != 0.0
    case JStr(s) => s != ""
    case JArr(_) => true
    case JObj(_) => true
  }

  /** `ToBoolean` of a value that may be `undefined`. */
  predicate Defined(v: Option<Json>)
  {
    v.Some? && Truthy(v.value)
  }

  /** The value of member `key` of an object's member list, `None` when absent. */
  function Lookup(members: seq<(string, Json)>, key: string): (r: Option<Json>)
    ensures r.Some? <==> exists i :: 0 <= i < |members| && members[i].0 == key
    ensures r.Some? ==> (key, r.value) in members
  {
    if members == [] then None
    else if members[0].0 == key then Some(members[0].1)
    else Lookup(members[1..], key)
  }

  /** The property read `v[key]`; only objects have the properties read here. */
  function Get(v: Json, key: string): Option<Json>
  {
    if v.JObj? then Lookup(v.members, key) else None
  }

  /** The values `v[o]` visited by `for (var o in v)`: an object's member
      values, an array's items, a string's characters; nothing otherwise. */
  function ForInValues(v: Json): (r: seq<Json>)
    ensures v.JObj? ==> |r| == |v.members| && forall i :: 0 <= i < |r| ==> r[i] == v.members[i].1
    ensures v.JArr? ==> r == v.items
    ensures v.JStr? ==> |r| == |v.s| && forall i :: 0 <= i < |r| ==> r[i] == JStr([v.s[i]])
    ensures (v.JNull? || v.JBool? || v.JNum?) ==> r == []
  {
    match v
    case JObj(ms) => seq(|ms|, i requires 0 <= i < |ms| => ms[i].1)
    case JArr(items) => items
    case JStr(s) => seq(|s|, i requires 0 <= i < |s| => JStr([s[i]]))
    case _ => []
  }

  /** No two members of an object share a key, as in any value `JSON.parse` builds. */
  predicate DistinctKeys(members: seq<(string, Json)>)
  {
    forall i, j :: 0 <= i < j < |members| ==> members[i].0 != members[j].0
  }

  /** With distinct keys, reading a member's own key finds that member. */
  lemma {:induction false} LookupOwnKey(members: seq<(string, Json)>, i: nat)
    requires i < |members| && DistinctKeys(members)
    ensures Lookup(members, members[i].0) == Some(members[i].1)
  {
    if i > 0 {
      assert members[0].0 != members[i].0;
      assert DistinctKeys(members[1..]) by {
        forall a, b | 0 <= a < b < |members[1..]|
          ensures members[1..][a].0 != members[1..][b].0
        {
          assert members[1..][a] == members[a + 1] && members[1..][b] == members[b + 1];
        }
      }
      LookupOwnKey(members[1..], i - 1);
      assert members[1..][i - 1] == members[i];
    }
  }

  /** What line 64's loop reads: for each key `o` that `for…in` yields, the
      property read `objects[o]`. Over an object with distinct keys this is
      exactly the sequence of its member values, in enumeration order. */
  lemma ForInReadsEachKey(v: Json)
    requires v.JObj? && DistinctKeys(v.members)
    ensures |ForInValues(v)| == |v.members|
    ensures forall i :: 0 <= i < |v.members| ==> Get(v, v.members[i].0) == Some(ForInValues(v)[i])
  {
    forall i | 0 <= i < |v.members|
      ensures Get(v, v.members[i].0) == Some(ForInValues(v)[i])
    {
      LookupOwnKey(v.members, i);
    }
  }

  /** The object `{ type: 'FeatureCollection', features: features }`. */
  function FeatureCollection(features: seq<Json>): Json
  {
    JObj([("type", JStr("FeatureCollection")), ("features", JArr(features))])
  }

  /** The test `gj && gj.type === 'Topology' && gj.objects`. */
  predicate IsTopology(v: Json)
  {
    Truthy(v) && Get(v, "type") == Some(JStr("Topology")) && Defined(Get(v, "objects"))
  }

  /** The values a topology's `for (var o in gj.objects)` loop visits. */
  function TopologyObjects(v: Json): seq<Json>
    requires IsTopology(v)
  {
    ForInValues(Get(v, "objects").value)
  }

  /** A collection is always truthy, whatever its features, and is not
      itself a topology. */
  lemma CollectionShape(features: seq<Json>)
    ensures Truthy(FeatureCollection(features))
    ensures !IsTopology(FeatureCollection(features))
    ensures Get(FeatureCollection(features), "features") == Some(JArr(features))
  {
    var ms := FeatureCollection(features).members;
    assert ms[0].1 == JStr("FeatureCollection");
    assert JStr("FeatureCollection") != JStr("Topology") by {
      assert "FeatureCollection"[0] != "Topology"[0];
    }
    assert ms[1..][0] == ("features", JArr(features));
    assert "type" != "features" by {
      assert "type"[0] != "features"[0];
    }
  }
}
