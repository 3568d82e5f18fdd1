/**
 * Checked downcasts out of a JSON object (file/conversions.go).
 *
 * Each `Force*` operation looks up a key, checks the dynamic type of its
 * value, and on success writes the converted value to the destination and
 * deletes the key; on failure it reports an error and changes neither. The
 * Go code writes through two pointers; here the new object and the new
 * destination are returned, with `err` set to the error the Go code returns.
 */
module Conversions {
  import opened Json

  /** Go's `int64(f)` for a float64 in range: truncation toward zero. */
  function TruncToInt(f: real): (n: int)
    ensures f >= 0.0 ==> n as real <= f < n as real + 1.0
    ensures f < 0.0 ==> n as real - 1.0 < f <= n as real
  {
    if f >= 0.0 then f.Floor else -((-f).Floor)
  }

  method ForceParseIntoStr(m: JMap, k: string, dest: string)
    returns (m': JMap, dest': string, err: Option<string>)
    ensures k in m && m[k].JStr? ==> err == None && dest' == m[k].s && m' == Delete(m, k)
    ensures !(k in m && m[k].JStr?) ==> err.Some? && m' == m && dest' == dest
  {
    if k in m {
      if m[k].JStr? {
        return Delete(m, k), m[k].s, None;
      }
      return m, dest, Some("key " + k + " not convertable to string");
    }
    return m, dest, Some("key " + k + " not found");
  }

  /** `ForceParseIntoStr` with the error dropped. */
  method TryParseIntoStr(m: JMap, k: string, dest: string) returns (m': JMap, dest': string)
    ensures k in m && m[k].JStr? ==> dest' == m[k].s && m' == Delete(m, k)
    ensures !(k in m && m[k].JStr?) ==> m' == m && dest' == dest
  {
    var ignored;
    m', dest', ignored := ForceParseIntoStr(m, k, dest);
  }

  /** Every element of a generic array is a string. */
  predicate AllStrings(arr: seq<JSON>)
  {
    forall i :: 0 <= i < |arr| ==> arr[i].JStr?
  }

  /** The strings of an all-string array, in order. */
  function Strings(arr: seq<JSON>): (r: seq<string>)
    requires AllStrings(arr)
    ensures |r| == |arr|
    ensures forall i :: 0 <= i < |arr| ==> r[i] == arr[i].s
  {
    if arr == [] then [] else [arr[0].s] + Strings(arr[1..])
  }

  method ForceParseIntoStrArray(m: JMap, k: string, dest: seq<string>)
    returns (m': JMap, dest': seq<string>, err: Option<string>)
    ensures k !in m ==> err.Some? && m' == m && dest' == dest
    ensures k in m && m[k].JStrArr? ==> err == None && dest' == m[k].strs && m' == Delete(m, k)
    ensures k in m && m[k].JArr? && AllStrings(m[k].arr) ==>
              err == None && dest' == Strings(m[k].arr) && m' == Delete(m, k)
    ensures k in m && m[k].JArr? && !AllStrings(m[k].arr) ==> err.Some? && m' == m && dest' == dest
    ensures k in m && !m[k].JStrArr? && !m[k].JArr? ==> err.Some? && m' == m && dest' == dest
  {
    if k !in m {
      return m, dest, Some("key " + k + " not found");
    }
    var raw := m[k];
    if raw.JStrArr? {
      return Delete(m, k), raw.strs, None;
    }
    if !raw.JArr? {
      return m, dest, Some("key " + k + " is not an array type");
    }
    var strarr: seq<string> := [];
    var i := 0;
    while i < |raw.arr|
      invariant 0 <= i <= |raw.arr|
      invariant AllStrings(raw.arr[..i])
      invariant strarr == Strings(raw.arr[..i])
    {
      var val := raw.arr[i];
      if !val.JStr? {
        return m, dest, Some("element of " + k + " is not convertable to string");
      }
      assert raw.arr[..i + 1] == raw.arr[..i] + [val];
      strarr := strarr + [val.s];
      i := i + 1;
    }
    assert raw.arr[..i] == raw.arr;
    return Delete(m, k), strarr, None;
  }

  /** `ForceParseIntoStrArray` with the error dropped: the same effect on both. */
  method TryParseIntoStrArray(m: JMap, k: string, dest: seq<string>)
    returns (m': JMap, dest': seq<string>)
    ensures k !in m ==> m' == m && dest' == dest
    ensures k in m && m[k].JStrArr? ==> dest' == m[k].strs && m' == Delete(m, k)
    ensures k in m && m[k].JArr? && AllStrings(m[k].arr) ==> dest' == Strings(m[k].arr) && m' == Delete(m, k)
    ensures k in m && m[k].JArr? && !AllStrings(m[k].arr) ==> m' == m && dest' == dest
    ensures k in m && !m[k].JStrArr? && !m[k].JArr? ==> m' == m && dest' == dest
  {
    var ignored;
    m', dest', ignored := ForceParseIntoStrArray(m, k, dest);
  }

  /** Every value of a generic object is a string. */
  predicate AllStringValues(obj: JMap)
  {
    forall j :: j in obj ==> obj[j].JStr?
  }

  method ForceParseIntoStrMap(m: JMap, k: string, dest: map<string, string>)
    returns (m': JMap, dest': map<string, string>, err: Option<string>)
    ensures k in m && m[k].JStrMap? ==> err == None && dest' == m[k].smap && m' == Delete(m, k)
    ensures k in m && m[k].JObj? && AllStringValues(m[k].obj) ==>
              && err == None && m' == Delete(m, k)
              && dest'.Keys == m[k].obj.Keys
              && forall j :: j in dest' ==> m[k].obj[j] == JStr(dest'[j])
    ensures !(k in m && (m[k].JStrMap? || (m[k].JObj? && AllStringValues(m[k].obj)))) ==>
              err.Some? && m' == m && dest' == dest
  {
    if k !in m {
      return m, dest, Some("key " + k + " not found");
    }
    var raw := m[k];
    if raw.JStrMap? {
      return Delete(m, k), raw.smap, None;
    }
    if raw.JObj? {
      var massaged: map<string, string> := map[];
      var rest := raw.obj.Keys;
      while rest != {}
        invariant rest <= raw.obj.Keys
        invariant massaged.Keys == raw.obj.Keys - rest
        invariant forall j :: j in massaged ==> raw.obj[j] == JStr(massaged[j])
        decreases |rest|
      {
        var j :| j in rest;
        if !raw.obj[j].JStr? {
          return m, dest, Some("m[" + j + "] not string");
        }
        massaged := massaged[j := raw.obj[j].s];
        rest := rest - {j};
      }
      return Delete(m, k), massaged, None;
    }
    return m, dest, Some("key " + k + " was not type map[string]string");
  }

  /** `ForceParseIntoStrMap` with the error dropped: the same effect on both. */
  method TryParseIntoStrMap(m: JMap, k: string, dest: map<string, string>)
    returns (m': JMap, dest': map<string, string>)
    ensures k in m && m[k].JStrMap? ==> dest' == m[k].smap && m' == Delete(m, k)
    ensures k in m && m[k].JObj? && AllStringValues(m[k].obj) ==>
              && m' == Delete(m, k)
              && dest'.Keys == m[k].obj.Keys
              && forall j :: j in dest' ==> m[k].obj[j] == JStr(dest'[j])
    ensures !(k in m && (m[k].JStrMap? || (m[k].JObj? && AllStringValues(m[k].obj)))) ==>
              m' == m && dest' == dest
  {
    var ignored;
    m', dest', ignored := ForceParseIntoStrMap(m, k, dest);
  }

  method ForceParseIntoInt(m: JMap, k: string, dest: int)
    returns (m': JMap, dest': int, err: Option<string>)
    ensures k in m && m[k].JInt64? ==> err == None && dest' == m[k].n && m' == Delete(m, k)
    ensures k in m && m[k].JFloat? ==> err == None && dest' == TruncToInt(m[k].f) && m' == Delete(m, k)
    ensures !(k in m && (m[k].JInt64? || m[k].JFloat?)) ==> err.Some? && m' == m && dest' == dest
  {
    if k in m {
      var raw := m[k];
      if raw.JInt64? {
        return Delete(m, k), raw.n, None;
      }
      if raw.JFloat? {
        return Delete(m, k), TruncToInt(raw.f), None;
      }
      return m, dest, Some("key " + k + " unable to be parsed as float64 or int64");
    }
    return m, dest, Some("key " + k + " not found");
  }

  /** `ForceParseIntoInt` with the error dropped: the same effect on both. */
  method TryParseIntoInt(m: JMap, k: string, dest: int) returns (m': JMap, dest': int)
    ensures k in m && m[k].JInt64? ==> dest' == m[k].n && m' == Delete(m, k)
    ensures k in m && m[k].JFloat? ==> dest' == TruncToInt(m[k].f) && m' == Delete(m, k)
    ensures !(k in m && (m[k].JInt64? || m[k].JFloat?)) ==> m' == m && dest' == dest
  {
    var ignored;
    m', dest', ignored := ForceParseIntoInt(m, k, dest);
  }
}
