/**
 * Decoded save-game JSON and the error-carrying result used throughout.
 *
 * Go code in this repository inspects values with type assertions, so the
 * value model keeps apart the dynamic types those assertions distinguish:
 * a Go `int` and an `int64`, a generic `[]interface{}` and a typed
 * `[]map[string]interface{}` or `[]string`, a generic object and a typed
 * `map[string]string`.
 */
module Json {

  /** A Go `(value, error)` pair: either a value or an error message. */
  datatype Result<T> = Ok(value: T) | Err(msg: string)
  {
    predicate IsFailure() { Err? }

    function PropagateFailure<U>(): Result<U>
      requires Err?
    {
      Err(msg)
    }

    function Extract(): T
      requires Ok?
    {
      value
    }
  }

  datatype Option<T> = None | Some(value: T)

  datatype JSON =
    | JNull
    | JBool(b: bool)
    | JFloat(f: real)                         // float64
    | JInt(n: int)                            // int
    | JInt64(n: int)                          // int64
    | JStr(s: string)                         // string
    | JObj(obj: map<string, JSON>)            // map[string]interface{}
    | JArr(arr: seq<JSON>)                    // []interface{}
    | JObjArr(objs: seq<map<string, JSON>>)   // []map[string]interface{}
    | JStrArr(strs: seq<string>)              // []string
    | JStrMap(smap: map<string, string>)      // map[string]string

  /** A JSON object, the `types.J` of the source. */
  type JMap = map<string, JSON>

  /** `m` without `k`; Go's `delete` on an absent key changes nothing. */
  function Delete(m: JMap, k: string): (r: JMap)
    ensures k !in r
    ensures forall j :: j in m && j != k ==> j in r && r[j] == m[j]
    ensures forall j :: j in r ==> j in m
  {
    m - {k}
  }
}
