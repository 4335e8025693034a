/**
 * Decoded JSON values as Python's `json` module hands them to the backup
 * scripts, and the few Python operations the scripts apply to them:
 * truthiness, `str()`, `dict.get`, subscription and iteration.
 * Objects keep their members in document order, as Python dicts do.
 */
module JsonValue {
  import opened Wrappers

  datatype Json =
    | JNull
    | JBool(b: bool)
    | JInt(i: int)
    | JStr(s: string)
    | JArr(items: seq<Json>)
    | JObj(members: seq<(string, Json)>)

  /** The Python exceptions the modelled code can raise on unexpected data. */
  datatype PyError =
    | AttributeError          // e.g. `.get` on a list, `.strip` on a number
    | TypeError               // e.g. subscripting a string with a key, iterating a number
    | KeyError(key: string)   // dict subscription with a missing key
    | ValueError(detail: string)

  /** Python's truth value of a decoded JSON value. */
  predicate Truthy(v: Json) {
    match v
    case JNull => false
    case JBool(b) => b
    case JInt(i) => i != 0
    case JStr(s) => s != ""
    case JArr(items) => items != []
    case JObj(members) => members != []
  }

  /** The position of the last member named `key`. */
  function LastIndex(members: seq<(string, Json)>, key: string): (r: Option<nat>)
    ensures r.None? <==> forall i :: 0 <= i < |members| ==> members[i].0 != key
    ensures r.Some? ==> (r.value < |members| && members[r.value].0 == key &&
      forall j :: r.value < j < |members| ==> members[j].0 != key)
    decreases |members|
  {
    if members == [] then None
    else if members[|members| - 1].0 == key then Some(|members| - 1)
    else
      assert forall i :: 0 <= i < |members| - 1 ==> members[..|members| - 1][i] == members[i];
      LastIndex(members[..|members| - 1], key)
  }

  /**
   * The value a decoded dict holds for `key`. When a document repeats a key,
   * `json.loads` keeps the last value, so the search runs from the end.
   */
  function Find(members: seq<(string, Json)>, key: string): (r: Option<Json>)
    ensures r.None? <==> forall i :: 0 <= i < |members| ==> members[i].0 != key
  {
    match LastIndex(members, key)
    case Some(i) => Some(members[i].1)
    case None => None
  }

  /** `d.get(key, default)` on a dict's members. */
  function GetOr(members: seq<(string, Json)>, key: string, default: Json): (r: Json)
    ensures (forall i :: 0 <= i < |members| ==> members[i].0 != key) ==> r == default
  {
    match Find(members, key)
    case Some(v) => v
    case None => default
  }

  /** A member added at the end decides `get` for its own key and leaves every other key alone. */
  lemma GetOrAppend(members: seq<(string, Json)>, m: (string, Json), key: string, default: Json)
    ensures GetOr(members + [m], key, default) == if key == m.0 then m.1 else GetOr(members, key, default)
  {
    assert (members + [m])[..|members|] == members;
  }

  /** `v.get(key, default)`: only a dict has a `get` method. */
  function Get(v: Json, key: string, default: Json): (r: Result<Json, PyError>)
    ensures r.Success? <==> v.JObj?
    ensures r.Success? ==> r.value == GetOr(v.members, key, default)
  {
    if v.JObj? then Success(GetOr(v.members, key, default)) else Failure(AttributeError)
  }

  /** `v[key]` with a string key. */
  function Subscript(v: Json, key: string): (r: Result<Json, PyError>)
    ensures r.Success? <==> v.JObj? && Find(v.members, key).Some?
    ensures r.Success? ==> r.value == Find(v.members, key).value
    ensures v.JObj? && Find(v.members, key).None? ==> r == Failure(KeyError(key))
  {
    if !v.JObj? then Failure(TypeError)
    else match Find(v.members, key)
      case Some(x) => Success(x)
      case None => Failure(KeyError(key))
  }

  /**
   * `v.get(k1, {}).get(k2, {}).get(k3, default)`: the two outer keys default
   * to an empty dict, and each step needs a dict to call `get` on.
   */
  function GetNested(v: Json, k1: string, k2: string, k3: string, default: Json): (r: Result<Json, PyError>)
    ensures r.Failure? ==> r.error == AttributeError
    ensures r.Success? ==> v.JObj?
  {
    var outer :- Get(v, k1, JObj([]));
    var inner :- Get(outer, k2, JObj([]));
    Get(inner, k3, default)
  }

  /** The distinct keys of a dict in the order of their first occurrence. */
  function Keys(members: seq<(string, Json)>): (ks: seq<string>)
    decreases |members|
  {
    if members == [] then []
    else
      var ks := Keys(members[..|members| - 1]);
      var k := members[|members| - 1].0;
      if k in ks then ks else ks + [k]
  }

  /**
   * The elements `for x in v` (and so `list.extend(v)`) visits: the items of
   * a list, the one-character strings of a string, the keys of a dict.
   */
  function Iterate(v: Json): (r: Result<seq<Json>, PyError>)
    ensures v.JArr? ==> r == Success(v.items)
    ensures r.Failure? <==> v.JNull? || v.JBool? || v.JInt?
  {
    match v
    case JArr(items) => Success(items)
    case JStr(s) => Success(seq(|s|, i requires 0 <= i < |s| => JStr([s[i]])))
    case JObj(members) =>
      var ks := Keys(members);
      Success(seq(|ks|, i requires 0 <= i < |ks| => JStr(ks[i])))
    case _ => Failure(TypeError)
  }

  function DigitChar(d: nat): char
    requires d < 10
  {
    "0123456789"[d]
  }

  function NatToDecimal(n: nat): string
  {
    if n < 10 then [DigitChar(n)] else NatToDecimal(n / 10) + [DigitChar(n % 10)]
  }

  function IntToDecimal(i: int): string
  {
    if i < 0 then "-" + NatToDecimal(-i) else NatToDecimal(i)
  }

  function JoinWith(parts: seq<string>, sep: string): string
  {
    if parts == [] then ""
    else if |parts| == 1 then parts[0]
    else parts[0] + sep + JoinWith(parts[1..], sep)
  }

  /** `str` of a value that is neither a string nor a container. */
  function ScalarText(v: Json): string
  {
    match v
    case JNull => "None"
    case JBool(b) => if b then "True" else "False"
    case JInt(i) => IntToDecimal(i)
    case _ => ""
  }

  /** `str(v)`, which is what an f-string inserts. */
  function Show(v: Json): string
  {
    match v
    case JStr(s) => s
    case JArr(_) => Repr(v)
    case JObj(_) => Repr(v)
    case _ => ScalarText(v)
  }

  /** `repr(v)` for the values that nest inside a list or a dict. */
  function Repr(v: Json): string
  {
    match v
    case JStr(s) => "'" + s + "'"
    case JArr(items) =>
      "[" + JoinWith(seq(|items|, i requires 0 <= i < |items| => Repr(items[i])), ", ") + "]"
    case JObj(members) =>
      "{" + JoinWith(seq(|members|, i requires 0 <= i < |members| =>
                   "'" + members[i].0 + "': " + Repr(members[i].1)), ", ") + "}"
    case _ => ScalarText(v)
  }
}
