/**
 * `Reverser.Write` (mod/reverse.go): a whole mod, as one decoded JSON
 * object, taken apart into files. Long string values go to script files,
 * large objects and object lists to settings files, the objects of the mod
 * to the object tree, and what is left to `config.json`.
 *
 * The writers are maps from file name to contents: the Lua writer and the
 * object writer and directory creator are the `Disk` of the object tree,
 * the settings writer and the root writer are maps of their own. Writing
 * never fails. How long `fmt.Sprint` prints a value is the parameter
 * `size`.
 */
module Reverse {
  import opened Json
  import opened Text
  import opened ModKeys
  import Types
  import Smoother
  import LuaBundler
  import Objects
  import ObjectsProps

  /** A string value this long or longer goes to a file of its own. */
  const StrLimit: nat := 80
  /** An object value that prints this long or longer goes to a file of its own. */
  const ObjLimit: nat := 100
  /** An object list that prints this long or longer goes to a file of its own. */
  const ArrLimit: nat := 200

  const ConfigFile: string := "config.json"
  const JsonExt: string := ".json"
  const SnapPointsKey: string := "SnapPoints"
  const SnapError: string := "SmoothSnapPoints(): snap point rejected"

  /** Everything written: the object tree's disk, the settings files and the root file. */
  datatype Out = Out(disk: Objects.Disk, settings: map<string, JSON>, root: map<string, JMap>)

  /** The mod's map as far as it has been taken apart, what was written, and the root module name. */
  datatype Acc = Acc(raw: JMap, out: Out, rootname: string)

  /** The file extension of a string key's file. */
  function ExtFor(k: string): string
  {
    if k == "LuaScript" then LuaBundler.LuaExt else Objects.StateExt
  }

  /** `n` in decimal. */
  function NatStr(n: nat): string
    decreases n
  {
    var d := ['0', '1', '2', '3', '4', '5', '6', '7', '8', '9'][n % 10];
    if n < 10 then [d] else NatStr(n / 10) + [d]
  }

  // ---------------------------------------------------------------------
  // The string keys
  // ---------------------------------------------------------------------

  /**
   * The text a string key stands for and the root module name after it:
   * the unbundled script for `LuaScript`, the value itself otherwise.
   */
  function StrText(k: string, s: string, rootname: string): Result<(string, string)>
  {
    if k == "LuaScript" then
      match LuaBundler.UnbundleSpec(s, rootname)
      case Err(e) => Err("bundler.Unbundle(script from root)\n: " + e)
      case Ok(u) => Ok((u, LuaBundler.NewRootname(s, rootname)))
    else Ok((s, rootname))
  }

  /** One turn of the string-key loop. */
  function StrStep(k: string, a: Acc): Result<Acc>
  {
    if k !in a.raw then Ok(a)
    else if !a.raw[k].JStr? then Err("expected string value in key " + k)
    else
      match StrText(k, a.raw[k].s, a.rootname)
      case Err(e) => Err(e)
      case Ok((text, rootname')) =>
        if Utf8Len(text) < StrLimit then Ok(a.(rootname := rootname'))
        else
          var file := k + ExtFor(k);
          Ok(Acc(Delete(a.raw[k + PathExt := JStr(file)], k),
                 a.out.(disk := a.out.disk.(lua := a.out.disk.lua[file := text])), rootname'))
  }

  /** The string keys `keys[i..]` handled in order, or the first error. */
  function StrKeys(keys: seq<string>, i: nat, a: Acc): Result<Acc>
    requires i <= |keys|
    decreases |keys| - i
  {
    if i == |keys| then Ok(a)
    else
      match StrStep(keys[i], a)
      case Err(e) => Err(e)
      case Ok(a') => StrKeys(keys, i + 1, a')
  }

  /**
   * What one string key turns into: a non-string value is an error; a
   * value whose text (for `LuaScript`, the unbundled script) is shorter
   * than the limit stays as it was, even a bundled script; a longer text
   * goes to `Key + ext`, `Key_path` names that file and `Key` is gone.
   */
  lemma StrStepEffect(k: string, a: Acc)
    ensures k !in a.raw ==> StrStep(k, a) == Ok(a)
    ensures k in a.raw && !a.raw[k].JStr? ==> StrStep(k, a).Err?
    ensures k in a.raw && a.raw[k].JStr? && k != "LuaScript" ==> StrStep(k, a).Ok?
    ensures k == "LuaScript" && k in a.raw && a.raw[k].JStr? ==>
      (StrStep(k, a).Ok? <==> LuaBundler.UnbundleSpec(a.raw[k].s, a.rootname).Ok?)
    ensures k in a.raw && a.raw[k].JStr? && StrStep(k, a).Ok? ==>
      var text := if k == "LuaScript" then LuaBundler.UnbundleSpec(a.raw[k].s, a.rootname).value else a.raw[k].s;
      var r := StrStep(k, a).value;
      && (Utf8Len(text) < StrLimit ==> r.raw == a.raw && r.out == a.out)
      && (Utf8Len(text) >= StrLimit ==>
            && k !in r.raw
            && k + PathExt in r.raw && r.raw[k + PathExt] == JStr(k + ExtFor(k))
            && k + ExtFor(k) in r.out.disk.lua && r.out.disk.lua[k + ExtFor(k)] == text)
    ensures StrStep(k, a).Ok? ==>
      forall x :: x != k && x != k + PathExt ==>
        (x in StrStep(k, a).value.raw <==> x in a.raw)
        && (x in a.raw ==> StrStep(k, a).value.raw[x] == a.raw[x])
  {
  }

  /** A string key with a value of another type makes the string-key loop fail. */
  lemma {:induction false} StrKeysNonString(keys: seq<string>, i: nat, a: Acc, j: nat)
    requires Distinct(keys) && NoPathKeys(keys)
    requires i <= j < |keys| && keys[j] in a.raw && !a.raw[keys[j]].JStr?
    ensures StrKeys(keys, i, a).Err?
    decreases |keys| - i
  {
    StrStepEffect(keys[i], a);
    if i < j && StrStep(keys[i], a).Ok? {
      PathKeyEnds(keys[i]);
      StrKeysNonString(keys, i + 1, StrStep(keys[i], a).value, j);
    }
  }

  /** The string-key loop of `Write`. */
  method WriteStrKeys(a0: Acc) returns (r: Result<Acc>)
    ensures r == StrKeys(ExpectedStr, 0, a0)
  {
    var a := a0;
    for i := 0 to |ExpectedStr|
      invariant StrKeys(ExpectedStr, 0, a0) == StrKeys(ExpectedStr, i, a)
    {
      var strKey := ExpectedStr[i];
      if strKey !in a.raw {
        continue;
      }
      var rawVal := a.raw[strKey];
      if !rawVal.JStr? {
        return Err("expected string value in key " + strKey);
      }
      var strVal := rawVal.s;
      var ext := Objects.StateExt;
      var rootname := a.rootname;
      if strKey == "LuaScript" {
        ext := LuaBundler.LuaExt;
        var unbundled;
        unbundled, rootname := LuaBundler.Unbundle(strVal, a.rootname);
        if unbundled.Err? {
          return Err("bundler.Unbundle(script from root)\n: " + unbundled.msg);
        }
        strVal := unbundled.value;
      }
      if Utf8Len(strVal) < StrLimit {
        a := a.(rootname := rootname);
        continue;
      }
      var createdFile := strKey + ext;
      var lua := a.out.disk.lua[createdFile := strVal];
      var raw := a.raw[strKey + PathExt := JStr(createdFile)];
      a := Acc(Delete(raw, strKey), a.out.(disk := a.out.disk.(lua := lua)), rootname);
    }
    return Ok(a);
  }

  // ---------------------------------------------------------------------
  // The object keys
  // ---------------------------------------------------------------------

  /** One turn of the object-key loop. */
  function ObjStep(k: string, a: Acc, size: JSON -> nat): Result<Acc>
  {
    if k !in a.raw then Ok(a)
    else if !a.raw[k].JObj? then Err("expected json object value in key " + k)
    else if size(a.raw[k]) < ObjLimit then Ok(a)
    else
      var file := k + JsonExt;
      Ok(a.(raw := Delete(a.raw[k + PathExt := JStr(file)], k),
            out := a.out.(settings := a.out.settings[file := a.raw[k]])))
  }

  /** The object keys `keys[i..]` handled in order, or the first error. */
  function ObjKeys(keys: seq<string>, i: nat, a: Acc, size: JSON -> nat): Result<Acc>
    requires i <= |keys|
    decreases |keys| - i
  {
    if i == |keys| then Ok(a)
    else
      match ObjStep(keys[i], a, size)
      case Err(e) => Err(e)
      case Ok(a') => ObjKeys(keys, i + 1, a', size)
  }

  /**
   * What one object key turns into: a value that is not an object is an
   * error; a small object stays; a large one goes to `Key.json`, `Key_path`
   * names that file and `Key` is gone.
   */
  lemma ObjStepEffect(k: string, a: Acc, size: JSON -> nat)
    ensures (k in a.raw && !a.raw[k].JObj?) <==> ObjStep(k, a, size).Err?
    ensures ObjStep(k, a, size).Ok? && k in a.raw && size(a.raw[k]) < ObjLimit ==> ObjStep(k, a, size) == Ok(a)
    ensures ObjStep(k, a, size).Ok? && k in a.raw && size(a.raw[k]) >= ObjLimit ==>
      var r := ObjStep(k, a, size).value;
      && k !in r.raw && k + PathExt in r.raw && r.raw[k + PathExt] == JStr(k + JsonExt)
      && k + JsonExt in r.out.settings && r.out.settings[k + JsonExt] == a.raw[k]
    ensures ObjStep(k, a, size).Ok? ==>
      forall x :: x != k && x != k + PathExt ==>
        (x in ObjStep(k, a, size).value.raw <==> x in a.raw)
        && (x in a.raw ==> ObjStep(k, a, size).value.raw[x] == a.raw[x])
  {
  }

  /** An object key with a value that is not an object makes the object-key loop fail. */
  lemma {:induction false} ObjKeysNonObject(keys: seq<string>, i: nat, a: Acc, size: JSON -> nat, j: nat)
    requires Distinct(keys) && NoPathKeys(keys)
    requires i <= j < |keys| && keys[j] in a.raw && !a.raw[keys[j]].JObj?
    ensures ObjKeys(keys, i, a, size).Err?
    decreases |keys| - i
  {
    ObjStepEffect(keys[i], a, size);
    if i < j && ObjStep(keys[i], a, size).Ok? {
      PathKeyEnds(keys[i]);
      ObjKeysNonObject(keys, i + 1, ObjStep(keys[i], a, size).value, size, j);
    }
  }

  /** The object-key loop of `Write`. */
  method WriteObjKeys(a0: Acc, size: JSON -> nat) returns (r: Result<Acc>)
    ensures r == ObjKeys(ExpectedObj, 0, a0, size)
  {
    var a := a0;
    for i := 0 to |ExpectedObj|
      invariant ObjKeys(ExpectedObj, 0, a0, size) == ObjKeys(ExpectedObj, i, a, size)
    {
      var objKey := ExpectedObj[i];
      if objKey in a.raw {
        var rawVal := a.raw[objKey];
        if !rawVal.JObj? {
          return Err("expected json object value in key " + objKey);
        }
        if size(rawVal) < ObjLimit {
          continue;
        }
        var createdFile := objKey + JsonExt;
        var settings := a.out.settings[createdFile := rawVal];
        var raw := a.raw[objKey + PathExt := JStr(createdFile)];
        a := a.(raw := Delete(raw, objKey), out := a.out.(settings := settings));
      }
    }
    return Ok(a);
  }

  // ---------------------------------------------------------------------
  // The object-list keys
  // ---------------------------------------------------------------------

  /** Every snap point of the list is one `SmoothSnapPoints` accepts. */
  predicate SnapPointsOk(arr: seq<JMap>)
  {
    forall i :: 0 <= i < |arr| ==> Smoother.GoodSnapPoint(arr[i])
  }

  /** The smoothed snap points. */
  function SmoothedAll(arr: seq<JMap>): (r: seq<JMap>)
    requires SnapPointsOk(arr)
  {
    seq(|arr|, i requires 0 <= i < |arr| => Smoother.SmoothedSnapPoint(arr[i]))
  }

  /** The list a key ends up holding: smoothed for `SnapPoints`, as converted otherwise. */
  function Smoothed(k: string, arr: seq<JMap>): Result<seq<JMap>>
  {
    if k != SnapPointsKey then Ok(arr)
    else if SnapPointsOk(arr) then Ok(SmoothedAll(arr))
    else Err(SnapError)
  }

  /** One turn of the object-list loop. */
  function ArrStep(k: string, a: Acc, size: JSON -> nat): Result<Acc>
  {
    if k !in a.raw then Ok(a)
    else
      match Types.ConvertSpec(a.raw[k])
      case Err(e) => Err("mismatch expectations in key " + k + " : " + e)
      case Ok(arr0) =>
        match Smoothed(k, arr0)
        case Err(e) => Err(e)
        case Ok(arr) =>
          if size(JObjArr(arr)) < ArrLimit then Ok(a.(raw := a.raw[k := JObjArr(arr)]))
          else
            var file := k + JsonExt;
            Ok(a.(raw := Delete(a.raw[k + PathExt := JStr(file)], k),
                  out := a.out.(settings := a.out.settings[file := JObjArr(arr)])))
  }

  /** The object-list keys `keys[i..]` handled in order, or the first error. */
  function ArrKeys(keys: seq<string>, i: nat, a: Acc, size: JSON -> nat): Result<Acc>
    requires i <= |keys|
    decreases |keys| - i
  {
    if i == |keys| then Ok(a)
    else
      match ArrStep(keys[i], a, size)
      case Err(e) => Err(e)
      case Ok(a') => ArrKeys(keys, i + 1, a', size)
  }

  /**
   * What one object-list key turns into: a value that is not a list of
   * objects and `nil`s is an error, and so are snap points that cannot be
   * smoothed; a short list is written back in place, converted and, for
   * `SnapPoints`, smoothed; a long one goes to `Key.json` instead.
   */
  lemma ArrStepEffect(k: string, a: Acc, size: JSON -> nat)
    ensures k in a.raw && Types.ConvertSpec(a.raw[k]).Err? ==> ArrStep(k, a, size).Err?
    ensures k == SnapPointsKey && k in a.raw && Types.ConvertSpec(a.raw[k]).Ok? ==>
      (ArrStep(k, a, size).Ok? <==> SnapPointsOk(Types.ConvertSpec(a.raw[k]).value))
    ensures k != SnapPointsKey && k in a.raw && Types.ConvertSpec(a.raw[k]).Ok? ==> ArrStep(k, a, size).Ok?
    ensures k in a.raw && ArrStep(k, a, size).Ok? ==>
      var arr0 := Types.ConvertSpec(a.raw[k]).value;
      var arr := if k == SnapPointsKey then SmoothedAll(arr0) else arr0;
      var r := ArrStep(k, a, size).value;
      && |arr| == |arr0|
      && (size(JObjArr(arr)) < ArrLimit ==> k in r.raw && r.raw[k] == JObjArr(arr) && r.out == a.out)
      && (size(JObjArr(arr)) >= ArrLimit ==>
            && k !in r.raw && k + PathExt in r.raw && r.raw[k + PathExt] == JStr(k + JsonExt)
            && k + JsonExt in r.out.settings && r.out.settings[k + JsonExt] == JObjArr(arr))
  {
  }

  /** The object-list loop of `Write`. */
  method WriteArrKeys(a0: Acc, size: JSON -> nat) returns (r: Result<Acc>)
    ensures r.Ok? <==> ArrKeys(ExpectedObjArr, 0, a0, size).Ok?
    ensures r.Ok? ==> r == ArrKeys(ExpectedObjArr, 0, a0, size)
  {
    var a := a0;
    for i := 0 to |ExpectedObjArr|
      invariant ArrKeys(ExpectedObjArr, 0, a0, size) == ArrKeys(ExpectedObjArr, i, a, size)
    {
      var objKey := ExpectedObjArr[i];
      if objKey in a.raw {
        var arr := Types.ConvertToObjArray(a.raw[objKey]);
        if arr.Err? {
          return Err("mismatch expectations in key " + objKey + " : " + arr.msg);
        }
        var list := arr.value;
        if objKey == SnapPointsKey {
          var smoothed := Smoother.SmoothSnapPoints(JObjArr(list));
          if smoothed.Err? {
            return Err("SmoothSnapPoints(): " + smoothed.msg);
          }
          assert smoothed.value == SmoothedAll(list);
          list := smoothed.value;
        }
        if size(JObjArr(list)) < ArrLimit {
          a := a.(raw := a.raw[objKey := JObjArr(list)]);
          continue;
        }
        var createdFile := objKey + JsonExt;
        var settings := a.out.settings[createdFile := JObjArr(list)];
        var raw := a.raw[objKey + PathExt := JStr(createdFile)];
        a := a.(raw := Delete(raw, objKey), out := a.out.(settings := settings));
      }
    }
    return Ok(a);
  }

  // ---------------------------------------------------------------------
  // ObjectStates and the root file
  // ---------------------------------------------------------------------

  /**
   * `ObjectStates` written out as the object tree under the top directory
   * and replaced by `ObjectStates_order`, the file name stems of the
   * top-level objects in order.
   */
  function StatesStep(a: Acc): Result<Acc>
  {
    if ObjStatesKey !in a.raw then Ok(a)
    else
      match Types.ConvertSpec(a.raw[ObjStatesKey])
      case Err(e) => Err("mismatch type expectations for ObjectStates : " + e)
      case Ok(objs) =>
        match Objects.PrintStates("", objs, 0, Objects.Written([], a.out.disk, a.rootname))
        case Err(e) => Err("PrintObjectStates('', <" + NatStr(|objs|) + " objects>): " + e)
        case Ok(w) =>
          Ok(Acc(Delete(a.raw[OrderKey := JStrArr(w.order)], ObjStatesKey), a.out.(disk := w.disk), w.rootname))
  }

  /** `ObjectStates` leaves the map and its order, one stem per top-level object, takes its place. */
  lemma StatesStepEffect(a: Acc)
    ensures ObjStatesKey !in a.raw ==> StatesStep(a) == Ok(a)
    ensures ObjStatesKey in a.raw && Types.ConvertSpec(a.raw[ObjStatesKey]).Err? ==> StatesStep(a).Err?
    ensures ObjStatesKey in a.raw && StatesStep(a).Ok? ==>
      var r := StatesStep(a).value;
      && ObjStatesKey !in r.raw
      && OrderKey in r.raw && r.raw[OrderKey].JStrArr?
      && |r.raw[OrderKey].strs| == |Types.ConvertSpec(a.raw[ObjStatesKey]).value|
  {
  }

  /** What `Write(raw)` does: the three key loops, `ObjectStates`, then `config.json`. */
  function WriteSpec(raw: JMap, out: Out, rootname: string, size: JSON -> nat): Result<Acc>
  {
    var a1 :- StrKeys(ExpectedStr, 0, Acc(raw, out, rootname));
    var a2 :- ObjKeys(ExpectedObj, 0, a1, size);
    var a3 :- ArrKeys(ExpectedObjArr, 0, a2, size);
    var a4 :- StatesStep(a3);
    Ok(a4.(out := a4.out.(root := a4.out.root[ConfigFile := a4.raw])))
  }

  /** `Reverser.Write`: the mod taken apart; error texts aside, exactly `WriteSpec`. */
  method Write(raw: JMap, out: Out, rootname: string, size: JSON -> nat) returns (r: Result<Acc>)
    ensures r.Ok? <==> WriteSpec(raw, out, rootname, size).Ok?
    ensures r.Ok? ==> r == WriteSpec(raw, out, rootname, size)
  {
    var a1 := WriteStrKeys(Acc(raw, out, rootname));
    if a1.Err? {
      return a1;
    }
    var a2 := WriteObjKeys(a1.value, size);
    if a2.Err? {
      return a2;
    }
    var a3 := WriteArrKeys(a2.value, size);
    if a3.Err? {
      return a3;
    }
    var a := a3.value;
    if ObjStatesKey in a.raw {
      var objStates := Types.ConvertToObjArray(a.raw[ObjStatesKey]);
      if objStates.Err? {
        return Err("mismatch type expectations for ObjectStates : " + objStates.msg);
      }
      var w := Objects.PrintObjectStates("", objStates.value, a.out.disk, a.rootname);
      if w.Err? {
        return Err("PrintObjectStates('', <" + NatStr(|objStates.value|) + " objects>): " + w.msg);
      }
      var order := w.value.order;
      a := Acc(Delete(a.raw[OrderKey := JStrArr(order)], ObjStatesKey), a.out.(disk := w.value.disk), w.value.rootname);
    }
    return Ok(a.(out := a.out.(root := a.out.root[ConfigFile := a.raw])));
  }

  // ---------------------------------------------------------------------
  // Properties of the whole
  // ---------------------------------------------------------------------

  /** A listed string key holding something else than a string makes `Write` fail. */
  lemma NonStringFails(raw: JMap, out: Out, rootname: string, size: JSON -> nat, j: nat)
    requires j < |ExpectedStr| && ExpectedStr[j] in raw && !raw[ExpectedStr[j]].JStr?
    ensures WriteSpec(raw, out, rootname, size).Err?
  {
    ExpectedStrPlain();
    StrKeysNonString(ExpectedStr, 0, Acc(raw, out, rootname), j);
  }

  /** The string-key loop leaves every key alone that it does not list, other than `_path` keys. */
  lemma {:induction false} StrKeysFrame(keys: seq<string>, i: nat, a: Acc, x: string)
    requires i <= |keys| && x !in keys && !EndsWith(x, PathExt)
    ensures var r := StrKeys(keys, i, a);
      r.Ok? ==> (x in r.value.raw <==> x in a.raw) && (x in a.raw ==> r.value.raw[x] == a.raw[x])
    decreases |keys| - i
  {
    if i < |keys| {
      StrStepEffect(keys[i], a);
      if StrStep(keys[i], a).Ok? {
        PathKeyEnds(keys[i]);
        StrKeysFrame(keys, i + 1, StrStep(keys[i], a).value, x);
      }
    }
  }

  /** A listed object key holding something else than an object makes `Write` fail. */
  lemma NonObjectFails(raw: JMap, out: Out, rootname: string, size: JSON -> nat, j: nat)
    requires j < |ExpectedObj| && ExpectedObj[j] in raw && !raw[ExpectedObj[j]].JObj?
    ensures WriteSpec(raw, out, rootname, size).Err?
  {
    ExpectedObjPlain();
    var k := ExpectedObj[j];
    assert k !in ExpectedStr;
    StrKeysFrame(ExpectedStr, 0, Acc(raw, out, rootname), k);
    var a1 := StrKeys(ExpectedStr, 0, Acc(raw, out, rootname));
    if a1.Ok? {
      ObjKeysNonObject(ExpectedObj, 0, a1.value, size, j);
    }
  }

  /**
   * On success `config.json` holds the rest of the mod, which no longer has
   * `ObjectStates`; other files of the root writer are untouched.
   */
  lemma ConfigWrittenLast(raw: JMap, out: Out, rootname: string, size: JSON -> nat)
    ensures var r := WriteSpec(raw, out, rootname, size);
      r.Ok? ==>
        && ConfigFile in r.value.out.root && r.value.out.root[ConfigFile] == r.value.raw
        && ObjStatesKey !in r.value.raw
        && forall f :: f in out.root && f != ConfigFile ==> f in r.value.out.root && r.value.out.root[f] == out.root[f]
  {
    var r := WriteSpec(raw, out, rootname, size);
    if r.Ok? {
      var a1 := StrKeys(ExpectedStr, 0, Acc(raw, out, rootname)).value;
      var a2 := ObjKeys(ExpectedObj, 0, a1, size).value;
      var a3 := ArrKeys(ExpectedObjArr, 0, a2, size).value;
      StatesStepEffect(a3);
      RootKept(ExpectedStr, 0, Acc(raw, out, rootname));
      RootKeptObj(ExpectedObj, 0, a1, size);
      RootKeptArr(ExpectedObjArr, 0, a2, size);
    }
  }

  lemma {:induction false} RootKept(keys: seq<string>, i: nat, a: Acc)
    requires i <= |keys|
    ensures StrKeys(keys, i, a).Ok? ==> StrKeys(keys, i, a).value.out.root == a.out.root
    decreases |keys| - i
  {
    if i < |keys| && StrStep(keys[i], a).Ok? {
      RootKept(keys, i + 1, StrStep(keys[i], a).value);
    }
  }

  lemma {:induction false} RootKeptObj(keys: seq<string>, i: nat, a: Acc, size: JSON -> nat)
    requires i <= |keys|
    ensures ObjKeys(keys, i, a, size).Ok? ==> ObjKeys(keys, i, a, size).value.out.root == a.out.root
    decreases |keys| - i
  {
    if i < |keys| && ObjStep(keys[i], a, size).Ok? {
      RootKeptObj(keys, i + 1, ObjStep(keys[i], a, size).value, size);
    }
  }

  lemma {:induction false} RootKeptArr(keys: seq<string>, i: nat, a: Acc, size: JSON -> nat)
    requires i <= |keys|
    ensures ArrKeys(keys, i, a, size).Ok? ==> ArrKeys(keys, i, a, size).value.out.root == a.out.root
    decreases |keys| - i
  {
    if i < |keys| && ArrStep(keys[i], a, size).Ok? {
      RootKeptArr(keys, i + 1, ArrStep(keys[i], a, size).value, size);
    }
  }
}
