/**
 * The space lookup of the library experiment: an id-to-name dictionary
 * built from the space listing, a search for the id of a space by its
 * name, and the check that turns a name that is not there into an error.
 */
module SpaceLookup {
  import opened Wrappers
  import opened JsonValue

  // ---------------------------------------------------------------------
  // Dictionaries keyed by decoded JSON values

  /** The decoded values that can be dictionary keys: lists and dicts cannot. */
  predicate Hashable(v: Json) {
    v.JNull? || v.JBool? || v.JInt? || v.JStr?
  }

  /** Python compares `True` equal to `1` and `False` equal to `0`, as keys too. */
  function KeyNorm(v: Json): Json {
    if v.JBool? then JInt(if v.b then 1 else 0) else v
  }

  predicate SameKey(a: Json, b: Json) {
    KeyNorm(a) == KeyNorm(b)
  }

  /** A dict as its entries in insertion order. */
  type Mapping = seq<(Json, Json)>

  predicate DistinctKeys(m: Mapping) {
    forall i, j :: 0 <= i < j < |m| ==> !SameKey(m[i].0, m[j].0)
  }

  /** Where `key` sits in `m`, if it is there. */
  function IndexOf(m: Mapping, key: Json): (r: Option<nat>)
    ensures r.None? <==> forall i :: 0 <= i < |m| ==> !SameKey(m[i].0, key)
    ensures r.Some? ==> (r.value < |m| && SameKey(m[r.value].0, key) &&
      forall i :: 0 <= i < r.value ==> !SameKey(m[i].0, key))
    decreases |m|
  {
    if m == [] then None
    else if SameKey(m[0].0, key) then Some(0)
    else
      var r := IndexOf(m[1..], key);
      assert forall i :: 1 <= i < |m| ==> m[1..][i - 1] == m[i];
      if r.None? then None else Some(r.value + 1)
  }

  /** `m.get(key)`. */
  function Lookup(m: Mapping, key: Json): Option<Json> {
    match IndexOf(m, key)
    case Some(i) => Some(m[i].1)
    case None => None
  }

  /**
   * `m[key] = value`: an equal key keeps its place and its original key
   * object and takes the new value; a new key goes at the end.
   */
  function Assign(m: Mapping, key: Json, value: Json): (r: Mapping)
    ensures DistinctKeys(m) ==> DistinctKeys(r)
    ensures |m| <= |r| <= |m| + 1 && forall i :: 0 <= i < |m| ==> r[i].0 == m[i].0
    ensures IndexOf(m, key).None? ==> r == m + [(key, value)]
    ensures IndexOf(m, key).Some? ==> r == m[IndexOf(m, key).value := (m[IndexOf(m, key).value].0, value)]
  {
    match IndexOf(m, key)
    case Some(i) => m[i := (m[i].0, value)]
    case None => m + [(key, value)]
  }

  /** After `m[key] = value`, looking up an equal key gives `value` and any other key is as before. */
  lemma AssignLookup(m: Mapping, key: Json, value: Json, k: Json)
    ensures Lookup(Assign(m, key, value), k) == if SameKey(key, k) then Some(value) else Lookup(m, k)
  {
    var r := Assign(m, key, value);
    if IndexOf(m, key).Some? {
      SameKeysSameIndex(m, r, k);
    } else {
      AppendIndex(m, key, value, k);
    }
  }

  /** Two mappings with the same keys in the same places find every key in the same place. */
  lemma {:induction false} SameKeysSameIndex(m: Mapping, r: Mapping, k: Json)
    requires |m| == |r| && forall i :: 0 <= i < |m| ==> r[i].0 == m[i].0
    ensures IndexOf(r, k) == IndexOf(m, k)
    decreases |m|
  {
    if m != [] && !SameKey(m[0].0, k) {
      assert forall i :: 0 <= i < |m| - 1 ==> r[1..][i].0 == m[1..][i].0;
      SameKeysSameIndex(m[1..], r[1..], k);
    }
  }

  /** A key added at the end is found there unless an equal key is already in place. */
  lemma AppendIndex(m: Mapping, key: Json, value: Json, k: Json)
    ensures IndexOf(m + [(key, value)], k)
         == if IndexOf(m, k).Some? then IndexOf(m, k) else if SameKey(key, k) then Some(|m|) else None
  {
    var r := m + [(key, value)];
    assert forall i :: 0 <= i < |m| ==> r[i] == m[i];
    assert r[|m|] == (key, value);
  }

  // ---------------------------------------------------------------------
  // get_space_info

  /**
   * The dictionary entry one listed space makes: `item["name"]` is read
   * before `item["id"]`, and the id must be hashable.
   */
  function Entry(item: Json): Result<(Json, Json), PyError> {
    var name :- Subscript(item, "name");
    var id :- Subscript(item, "id");
    if !Hashable(id) then Failure(TypeError) else Success((id, name))
  }

  /** The dictionary the loop builds from the listed spaces, or the error of the first that raises. */
  function SpaceInfo(items: seq<Json>): (r: Result<Mapping, PyError>)
    ensures r.Success? <==> forall k :: 0 <= k < |items| ==> Entry(items[k]).Success?
    ensures r.Success? ==> DistinctKeys(r.value)
    decreases |items|
  {
    if items == [] then Success([])
    else
      var init := items[..|items| - 1];
      assert forall k :: 0 <= k < |init| ==> init[k] == items[k];
      var prev := SpaceInfo(init);
      if prev.Failure? then Failure(prev.error)
      else match Entry(items[|items| - 1])
        case Failure(e) => Failure(e)
        case Success(entry) => Success(Assign(prev.value, entry.0, entry.1))
  }

  /** The name the last listed space with an id equal to `key` carries: a reference definition. */
  function LastName(items: seq<Json>, key: Json): Option<Json>
    requires forall k :: 0 <= k < |items| ==> Entry(items[k]).Success?
    decreases |items|
  {
    if items == [] then None
    else
      var entry := Entry(items[|items| - 1]).value;
      if SameKey(entry.0, key) then Some(entry.1)
      else LastName(items[..|items| - 1], key)
  }

  /** When ids repeat, the later space's name wins; an id no space has is not a key. */
  lemma {:induction false} SpaceInfoKeepsLastName(items: seq<Json>, key: Json)
    requires SpaceInfo(items).Success?
    ensures Lookup(SpaceInfo(items).value, key) == LastName(items, key)
    decreases |items|
  {
    if items != [] {
      var init := items[..|items| - 1];
      assert forall k :: 0 <= k < |init| ==> init[k] == items[k];
      SpaceInfoKeepsLastName(init, key);
      var entry := Entry(items[|items| - 1]).value;
      AssignLookup(SpaceInfo(init).value, entry.0, entry.1, key);
    }
  }

  /** `get_space_info` on the listing the client returned: its "results" iterated in order. */
  method GetSpaceInfo(status: Json) returns (r: Result<Mapping, PyError>)
    ensures Subscript(status, "results").Failure? ==> r == Failure(Subscript(status, "results").error)
    ensures Subscript(status, "results").Success? && Iterate(Subscript(status, "results").value).Failure? ==>
      r == Failure(Iterate(Subscript(status, "results").value).error)
    ensures Subscript(status, "results").Success? && Iterate(Subscript(status, "results").value).Success? ==>
      r == SpaceInfo(Iterate(Subscript(status, "results").value).value)
  {
    var results := Subscript(status, "results");
    if results.Failure? {
      return Failure(results.error);
    }
    var listed := Iterate(results.value);
    if listed.Failure? {
      return Failure(listed.error);
    }
    var items := listed.value;
    var result: Mapping := [];
    for i := 0 to |items|
      invariant SpaceInfo(items[..i]) == Success(result)
    {
      var item := items[i];
      assert items[..i + 1][..i] == items[..i] && items[..i + 1][|items[..i + 1]| - 1] == item;
      var name := Subscript(item, "name");
      if name.Failure? {
        SpaceInfoFailureSticks(items, i + 1);
        return Failure(name.error);
      }
      var id := Subscript(item, "id");
      if id.Failure? {
        SpaceInfoFailureSticks(items, i + 1);
        return Failure(id.error);
      }
      if !Hashable(id.value) {
        SpaceInfoFailureSticks(items, i + 1);
        return Failure(TypeError);
      }
      result := Assign(result, id.value, name.value);
    }
    assert items[..|items|] == items;
    r := Success(result);
  }

  /** Once a prefix of the listing fails, the whole listing fails with the same error. */
  lemma {:induction false} SpaceInfoFailureSticks(items: seq<Json>, n: nat)
    requires n <= |items| && SpaceInfo(items[..n]).Failure?
    ensures SpaceInfo(items) == SpaceInfo(items[..n])
    decreases |items| - n
  {
    if n < |items| {
      assert items[..n + 1][..n] == items[..n];
      SpaceInfoFailureSticks(items, n + 1);
    } else {
      assert items[..n] == items;
    }
  }

  // ---------------------------------------------------------------------
  // get_id_by_name and get_all_pages_by_space_id

  /** The position of the first entry whose name equals the string `name`. */
  function FirstNamed(m: Mapping, name: string): (r: Option<nat>)
    ensures r.None? <==> forall i :: 0 <= i < |m| ==> m[i].1 != JStr(name)
    ensures r.Some? ==> (r.value < |m| && m[r.value].1 == JStr(name) &&
      forall i :: 0 <= i < r.value ==> m[i].1 != JStr(name))
    decreases |m|
  {
    if m == [] then None
    else if m[0].1 == JStr(name) then Some(0)
    else
      var r := FirstNamed(m[1..], name);
      assert forall i :: 1 <= i < |m| ==> m[1..][i - 1] == m[i];
      if r.None? then None else Some(r.value + 1)
  }

  /**
   * `get_id_by_name`: the id of the first entry, in insertion order, whose
   * name is `name`, or `None`.
   */
  method GetIdByName(name: string, mapping: Mapping) returns (id: Json)
    ensures FirstNamed(mapping, name).None? ==> id == JNull
    ensures FirstNamed(mapping, name).Some? ==> id == mapping[FirstNamed(mapping, name).value].0
  {
    for i := 0 to |mapping|
      invariant forall j :: 0 <= j < i ==> mapping[j].1 != JStr(name)
    {
      var entry := mapping[i];
      if entry.1 == JStr(name) {
        return entry.0;
      }
    }
    return JNull;
  }

  /** In a dictionary, the id found for a name maps back to that name. */
  lemma FoundIdHasName(m: Mapping, name: string)
    requires DistinctKeys(m) && FirstNamed(m, name).Some?
    ensures Lookup(m, m[FirstNamed(m, name).value].0) == Some(JStr(name))
  {
    var i := FirstNamed(m, name).value;
    assert IndexOf(m, m[i].0) == Some(i);
  }

  /** The message of the error for a space name that is not there. */
  function NotFound(spaceName: string): string {
    "'" + spaceName + "' 에 해당하는 space가 없습니다."
  }

  /**
   * The part of `get_all_pages_by_space_id` before the library call: the
   * one-element list of the space id as text, or a ValueError when the
   * name is not found (or is found with a `None` id, which looks the same).
   */
  method SpaceIdsForName(spaceInfo: Mapping, spaceName: string) returns (r: Result<seq<string>, PyError>)
    ensures var i := FirstNamed(spaceInfo, spaceName);
      r.Failure? <==> i.None? || spaceInfo[i.value].0 == JNull
    ensures r.Failure? ==> r.error == ValueError(NotFound(spaceName))
    ensures r.Success? ==> r.value == [Show(spaceInfo[FirstNamed(spaceInfo, spaceName).value].0)]
  {
    var spaceId := GetIdByName(spaceName, spaceInfo);
    if spaceId == JNull {
      return Failure(ValueError(NotFound(spaceName)));
    }
    r := Success([Show(spaceId)]);
  }
}
