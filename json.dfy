/**
 * Decoded JSON values, as `json.loads` returns them, with the two Python
 * operations the classifier applies to them: `dict.get` and `str`.
 */
module Json {
  import opened Optional

  /**
   * A decoded value. An object keeps its members in document order; a float
   * is carried by the text Python's `str` gives it.
   */
  datatype Json =
    | JNull
    | JBool(b: bool)
    | JInt(i: int)
    | JFloat(text: string)
    | JStr(s: string)
    | JList(items: seq<Json>)
    | JObj(fields: seq<(string, Json)>)

  /** `d.get(key)` on a decoded object: a repeated member's last value wins, as in `json.loads`. */
  function Get(fields: seq<(string, Json)>, key: string): (r: Option<Json>)
    ensures r.Some? <==> exists i :: 0 <= i < |fields| && fields[i].0 == key
    ensures r.Some? ==> exists i :: 0 <= i < |fields| && fields[i] == (key, r.value)
    decreases |fields|
  {
    if fields == [] then None
    else if fields[|fields| - 1].0 == key then Some(fields[|fields| - 1].1)
    else
      var r := Get(fields[..|fields| - 1], key);
      assert forall i :: 0 <= i < |fields| - 1 ==> fields[..|fields| - 1][i] == fields[i];
      r
  }

  /** `d.get(key, default)` */
  function GetOr(fields: seq<(string, Json)>, key: string, default: Json): Json {
    var r := Get(fields, key);
    if r.Some? then r.value else default
  }

  /** The distinct member names of an object, in order of first appearance, as the decoded `dict` keeps them. */
  function Keys(fields: seq<(string, Json)>): (r: seq<string>)
    ensures forall k :: k in r <==> exists i :: 0 <= i < |fields| && fields[i].0 == k
    ensures forall i, j :: 0 <= i < j < |r| ==> r[i] != r[j]
    decreases |fields|
  {
    if fields == [] then []
    else
      var init := Keys(fields[..|fields| - 1]);
      assert forall i :: 0 <= i < |fields| - 1 ==> fields[..|fields| - 1][i] == fields[i];
      var k := fields[|fields| - 1].0;
      if k in init then init else init + [k]
  }

  /** `d.values()`: one value per distinct name, the last one given for it, in order of first appearance. */
  function Values(fields: seq<(string, Json)>): (r: seq<Json>)
    ensures |r| == |Keys(fields)|
    ensures forall i :: 0 <= i < |r| ==> Get(fields, Keys(fields)[i]) == Some(r[i])
  {
    var ks := Keys(fields);
    assert forall i :: 0 <= i < |ks| ==> Get(fields, ks[i]).Some? by {
      forall i | 0 <= i < |ks| ensures Get(fields, ks[i]).Some? {
        assert ks[i] in ks;
      }
    }
    seq(|ks|, i requires 0 <= i < |ks| => GetOr(fields, ks[i], JNull))
  }

  /** Python truthiness of a decoded value. */
  predicate Truthy(v: Json) {
    match v
    case JNull => false
    case JBool(b) => b
    case JInt(i) => i != 0
    case JFloat(t) => t != "0.0" && t != "-0.0"
    case JStr(s) => s != ""
    case JList(items) => items != []
    case JObj(fields) => fields != []
  }

  /** `isinstance(v, int)`: a Python `bool` is an `int` too, True being 1. */
  function AsInt(v: Json): (r: Option<int>)
    ensures r.Some? <==> v.JInt? || v.JBool?
  {
    match v
    case JInt(i) => Some(i)
    case JBool(b) => Some(if b then 1 else 0)
    case _ => None
  }

  function DigitChar(d: nat): char
    requires d < 10
  {
    ['0', '1', '2', '3', '4', '5', '6', '7', '8', '9'][d]
  }

  function NatToString(n: nat): (r: string)
    ensures r != []
    decreases n
  {
    if n < 10 then [DigitChar(n)] else NatToString(n / 10) + [DigitChar(n % 10)]
  }

  /** `str(i)` for an `int` */
  function IntToString(i: int): string {
    if i < 0 then "-" + NatToString(-i) else NatToString(i)
  }

  /** `str(v)`; strings inside containers are shown in single quotes, without escapes. */
  function Str(v: Json): string
    decreases v, 1
  {
    match v
    case JNull => "None"
    case JBool(b) => if b then "True" else "False"
    case JInt(i) => IntToString(i)
    case JFloat(t) => t
    case JStr(s) => s
    case JList(items) => "[" + ReprItems(v, items) + "]"
    case JObj(fields) => "{" + ReprFields(v, fields) + "}"
  }

  /** `repr(v)` inside a container. */
  function Repr(v: Json): string
    decreases v, 2
  {
    if v.JStr? then "'" + v.s + "'" else Str(v)
  }

  function ReprItems(parent: Json, items: seq<Json>): string
    requires forall x :: x in items ==> x < parent
    decreases parent, 0, |items|
  {
    if items == [] then ""
    else
      assert items[0] in items;
      assert forall x :: x in items[1..] ==> x in items;
      if |items| == 1 then Repr(items[0]) else Repr(items[0]) + ", " + ReprItems(parent, items[1..])
  }

  function ReprFields(parent: Json, fields: seq<(string, Json)>): string
    requires forall i :: 0 <= i < |fields| ==> fields[i].1 < parent
    decreases parent, 0, |fields|
  {
    if fields == [] then ""
    else
      assert forall i :: 0 <= i < |fields| - 1 ==> fields[1..][i] == fields[i + 1];
      var head := "'" + fields[0].0 + "': " + Repr(fields[0].1);
      if |fields| == 1 then head else head + ", " + ReprFields(parent, fields[1..])
  }
}
