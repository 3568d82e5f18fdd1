/** Conversion of a decoded JSON value into a list of objects (types/types.go). */
module Types {
  import opened Json

  /** The object elements of a generic array, in order, with `nil` elements dropped. */
  function ObjectElements(arr: seq<JSON>): (r: seq<JMap>)
    ensures |r| <= |arr|
  {
    if arr == [] then []
    else if arr[0].JObj? then [arr[0].obj] + ObjectElements(arr[1..])
    else ObjectElements(arr[1..])
  }

  /** Every element of a generic array is an object or `nil`. */
  predicate ObjectsOrNull(arr: seq<JSON>)
  {
    forall i :: 0 <= i < |arr| ==> arr[i].JObj? || arr[i].JNull?
  }

  lemma {:induction false} ObjectElementsOfObjects(arr: seq<JSON>)
    requires forall i :: 0 <= i < |arr| ==> arr[i].JObj?
    ensures |ObjectElements(arr)| == |arr|
    ensures forall i :: 0 <= i < |arr| ==> ObjectElements(arr)[i] == arr[i].obj
  {
    if arr != [] {
      ObjectElementsOfObjects(arr[1..]);
    }
  }

  /** What `ConvertToObjArray(v)` returns. */
  function ConvertSpec(v: JSON): Result<seq<JMap>>
  {
    if v.JObjArr? then Ok(v.objs)
    else if !v.JArr? then Err("value is not an array")
    else if ObjectsOrNull(v.arr) then Ok(ObjectElements(v.arr))
    else Err("expected type json object")
  }

  /**
   * `ConvertToObjArray`: a typed object list is returned as is; a generic
   * array must hold only objects and `nil`s, and the objects are kept in order.
   */
  method ConvertToObjArray(v: JSON) returns (r: Result<seq<JMap>>)
    ensures v.JObjArr? ==> r == Ok(v.objs)
    ensures !v.JObjArr? && !v.JArr? ==> r.Err?
    ensures v.JArr? ==> (r.Ok? <==> ObjectsOrNull(v.arr))
    ensures v.JArr? && r.Ok? ==> r.value == ObjectElements(v.arr) && |r.value| <= |v.arr|
    ensures r == ConvertSpec(v)
  {
    if v.JObjArr? {
      return Ok(v.objs);
    }
    if !v.JArr? {
      return Err("value is not an array");
    }
    var rawArr := v.arr;
    var arr: seq<JMap> := [];
    var i := 0;
    while i < |rawArr|
      invariant 0 <= i <= |rawArr|
      invariant ObjectsOrNull(rawArr[..i])
      invariant ObjectElements(rawArr) == arr + ObjectElements(rawArr[i..])
    {
      var rv := rawArr[i];
      assert rawArr[i..] == [rv] + rawArr[i + 1..];
      if !rv.JObj? {
        if rv.JNull? {
          assert rawArr[..i + 1] == rawArr[..i] + [rv];
          i := i + 1;
          continue;
        }
        return Err("expected type json object");
      }
      assert rawArr[..i + 1] == rawArr[..i] + [rv];
      arr := arr + [rv.obj];
      i := i + 1;
    }
    assert rawArr[..i] == rawArr;
    return Ok(arr);
  }
}
