/**
 * Rounding of transform numbers (objects/numbersmoother.go).
 *
 * float64 values are modelled as exact reals. `math.Round` rounds half away
 * from zero; `roundFloat(v, p)` rounds `v * 10^p` and divides again;
 * `math.Mod` keeps the sign of its dividend.
 */
module Smoother {
  import opened Json

  const PosRounded: seq<string> := ["posX", "posY", "posZ"]
  const RotRounded: seq<string> := ["rotX", "rotY", "rotZ"]
  const ColorRounded: seq<string> := ["b", "g", "r", "a"]
  const ArbitraryRounded: seq<string> := ["x", "y", "z"]

  /** `math.Round`: the nearest integer, halves away from zero. */
  function RoundHalfAway(x: real): (k: int)
    ensures x - 0.5 <= k as real <= x + 0.5
    ensures x >= 0.0 ==> k >= 0
    ensures x <= 0.0 ==> k <= 0
  {
    if x >= 0.0 then (x + 0.5).Floor else -((-x + 0.5).Floor)
  }

  function Pow10(p: nat): (r: real)
    ensures r >= 1.0
  {
    if p == 0 then 1.0 else 10.0 * Pow10(p - 1)
  }

  /** `roundFloat(val, precision)`. */
  function RoundFloat(val: real, precision: nat): real
  {
    RoundHalfAway(val * Pow10(precision)) as real / Pow10(precision)
  }

  /** `math.Mod(a, m)` on integers: the remainder takes the sign of `a`. */
  function TruncMod(a: int, m: int): (r: int)
    requires m > 0
    ensures a >= 0 ==> 0 <= r < m
    ensures a < 0 ==> -m < r <= 0
  {
    if a >= 0 then a % m else -((-a) % m)
  }

  /** `smoothPos`: three decimal places. */
  function SmoothPos(f: real): real
  {
    RoundFloat(f, 3)
  }

  /** `smoothRot`, once the angle is rounded to the integer `k`. */
  function SmoothRotInt(k: int): (r: int)
  {
    TruncMod(k + 360, 360)
  }

  /** `smoothRot`: round to whole degrees and fold into a turn. */
  function SmoothRot(f: real): real
  {
    SmoothRotInt(RoundHalfAway(f)) as real
  }

  /** For a rounded angle no lower than -360 the result is in [0, 360) and is the same angle. */
  lemma SmoothRotRange(k: int)
    requires k >= -360
    ensures 0 <= SmoothRotInt(k) < 360
    ensures (k - SmoothRotInt(k)) % 360 == 0
  {
  }

  /** The values the transform tests expect: 370, -89.83327 and -0.004 degrees. */
  lemma SmoothRotExamples()
    ensures SmoothRot(370.0) == 10.0
    ensures SmoothRot(-89.83327) == 270.0
    ensures SmoothRot(-0.004) == 0.0
    ensures SmoothRot(90.0) == 90.0
  {
    assert RoundHalfAway(370.0) == 370;
    assert RoundHalfAway(-89.83327) == -90 by {
      assert (89.83327 + 0.5).Floor == 90;
    }
    assert RoundHalfAway(-0.004) == 0 by {
      assert (0.004 + 0.5).Floor == 0;
    }
  }

  /** The rule `Smooth` applies to the value under `key`. */
  function SmoothEntry(key: string, v: JSON): JSON
  {
    if !v.JFloat? then v
    else if key in PosRounded then JFloat(SmoothPos(v.f))
    else if key in RotRounded then JFloat(SmoothRot(v.f))
    else if key in ColorRounded then JFloat(RoundFloat(v.f, 5))
    else v
  }

  /** Colours keep five decimals. */
  function Round5(x: real): real
  {
    RoundFloat(x, 5)
  }

  /** The value `v` under `key` after one loop of `Smooth` over `keys`. */
  function RoundIf(key: string, keys: seq<string>, round: real -> real, v: JSON): JSON
  {
    if key in keys && v.JFloat? then JFloat(round(v.f)) else v
  }

  /** The three loops of `Smooth`, one after the other, apply the rule for the key. */
  lemma ThreeLoops(key: string, v: JSON)
    ensures RoundIf(key, ColorRounded, Round5, RoundIf(key, RotRounded, SmoothRot, RoundIf(key, PosRounded, SmoothPos, v)))
         == SmoothEntry(key, v)
  {
    if key in PosRounded {
      assert key !in RotRounded && key !in ColorRounded;
    } else if key in RotRounded {
      assert key !in ColorRounded;
    }
  }

  /**
   * `Smooth`: a non-object is returned unchanged; in an object, float values
   * under the position, rotation and colour keys are rounded and every
   * other entry is left as it was.
   */
  method Smooth(objraw: JSON) returns (r: JSON)
    ensures !objraw.JObj? ==> r == objraw
    ensures objraw.JObj? ==> r.JObj? && r.obj.Keys == objraw.obj.Keys
    ensures objraw.JObj? ==> forall k :: k in r.obj ==> r.obj[k] == SmoothEntry(k, objraw.obj[k])
  {
    if !objraw.JObj? {
      return objraw;
    }
    var orig := objraw.obj;
    var obj1 := RoundListed(orig, PosRounded, SmoothPos);
    var obj2 := RoundListed(obj1, RotRounded, SmoothRot);
    var obj3 := RoundListed(obj2, ColorRounded, Round5);
    forall k | k in obj3 ensures obj3[k] == SmoothEntry(k, orig[k]) {
      ThreeLoops(k, orig[k]);
    }
    return JObj(obj3);
  }

  /** One of the loops of `Smooth`: the float values under `keys` are rewritten with `round`. */
  method RoundListed(obj: JMap, keys: seq<string>, round: real -> real) returns (r: JMap)
    requires forall i, j :: 0 <= i < j < |keys| ==> keys[i] != keys[j]
    ensures r.Keys == obj.Keys
    ensures forall k :: k in r ==> r[k] == RoundIf(k, keys, round, obj[k])
  {
    r := obj;
    for i := 0 to |keys|
      invariant r.Keys == obj.Keys
      invariant forall k :: k in r ==> r[k] == RoundIf(k, keys[..i], round, obj[k])
    {
      var key := keys[i];
      assert keys[..i + 1] == keys[..i] + [key];
      if key in r && r[key].JFloat? {
        r := r[key := JFloat(round(r[key].f))];
      }
    }
    assert keys[..|keys|] == keys;
  }

  /** An object whose keys are all among `x`, `y`, `z` and whose values are all floats. */
  predicate XyzShaped(obj: JMap)
  {
    forall k :: k in obj ==> k in ArbitraryRounded && obj[k].JFloat?
  }

  lemma SubsetSameSize(a: set<string>, b: set<string>)
    requires a <= b && |a| == |b|
    ensures a == b
  {
    var d := b - a;
    assert b == a + d;
    assert a * d == {};
  }

  /**
   * `smoothArbitrary`: an object of float coordinates `x`, `y`, `z` is
   * rounded with `round`; any other key or value type is an error.
   */
  method SmoothArbitrary(objraw: JSON, round: real -> real) returns (r: Result<JMap>)
    ensures !objraw.JObj? ==> r.Err?
    ensures objraw.JObj? ==> (r.Ok? <==> XyzShaped(objraw.obj))
    ensures r.Ok? ==> r.value.Keys == objraw.obj.Keys
    ensures r.Ok? ==> forall k :: k in r.value ==> r.value[k] == JFloat(round(objraw.obj[k].f))
  {
    if !objraw.JObj? {
      return Err("Couldn't convert object");
    }
    var obj := objraw.obj;
    var smoothed: JMap := map[];
    for i := 0 to |ArbitraryRounded|
      invariant forall k :: k in smoothed <==> k in ArbitraryRounded[..i] && k in obj && obj[k].JFloat?
      invariant forall k :: k in smoothed ==> smoothed[k] == JFloat(round(obj[k].f))
    {
      var key := ArbitraryRounded[i];
      if key in obj && obj[key].JFloat? {
        smoothed := smoothed[key := JFloat(round(obj[key].f))];
      }
    }
    assert ArbitraryRounded[..|ArbitraryRounded|] == ArbitraryRounded;
    assert smoothed.Keys <= obj.Keys;
    assert |smoothed| == |smoothed.Keys| && |obj| == |obj.Keys|;
    assert XyzShaped(obj) ==> obj.Keys == smoothed.Keys;
    if |smoothed| != |obj| {
      return Err("unexpected keys match");
    }
    SubsetSameSize(smoothed.Keys, obj.Keys);
    return Ok(smoothed);
  }

  /** `SmoothAngle`: `smoothArbitrary` with the rotation rule. */
  method SmoothAngle(objraw: JSON) returns (r: Result<JMap>)
    ensures !objraw.JObj? ==> r.Err?
    ensures objraw.JObj? ==> (r.Ok? <==> XyzShaped(objraw.obj))
    ensures r.Ok? ==> r.value.Keys == objraw.obj.Keys
    ensures r.Ok? ==> forall k :: k in r.value ==> r.value[k] == JFloat(SmoothRot(objraw.obj[k].f))
  {
    r := SmoothArbitrary(objraw, SmoothRot);
  }

  /** A coordinate object given to `smoothArbitrary` is accepted. */
  predicate XyzValue(v: JSON)
  {
    v.JObj? && XyzShaped(v.obj)
  }

  /** A snap point `SmoothSnapPoints` accepts: only `Position` and `Rotation`, each a coordinate object. */
  predicate GoodSnapPoint(sp: JMap)
  {
    (forall k :: k in sp ==> k == "Position" || k == "Rotation") && FieldsOk(sp)
  }

  /** The `Position` and `Rotation` entries, where present, are coordinate objects. */
  predicate FieldsOk(sp: JMap)
  {
    && ("Position" in sp ==> XyzValue(sp["Position"]))
    && ("Rotation" in sp ==> XyzValue(sp["Rotation"]))
  }

  /** The coordinates of `v` rounded with `round`. */
  function RoundedXyz(v: JSON, round: real -> real): (r: JMap)
    requires XyzValue(v)
    ensures r.Keys == v.obj.Keys
  {
    map k | k in v.obj :: JFloat(round(v.obj[k].f))
  }

  /** The smoothed form of an accepted snap point. */
  function SmoothedSnapPoint(sp: JMap): (r: JMap)
    requires FieldsOk(sp)
    ensures r.Keys == sp.Keys * {"Position", "Rotation"}
  {
    var withPos: JMap := if "Position" in sp then map["Position" := JObj(RoundedXyz(sp["Position"], SmoothPos))] else map[];
    if "Rotation" in sp then withPos["Rotation" := JObj(RoundedXyz(sp["Rotation"], SmoothRot))] else withPos
  }

  lemma SameSizeSameKeys(a: JMap, b: JMap)
    requires a.Keys <= b.Keys
    ensures |a| == |b| <==> a.Keys == b.Keys
  {
    assert |a| == |a.Keys| && |b| == |b.Keys|;
    if |a| == |b| {
      SubsetSameSize(a.Keys, b.Keys);
    }
  }

  /** The rounding part of the `SmoothSnapPoints` loop body. */
  method SmoothFields(sp: JMap) returns (r: Result<JMap>)
    ensures r.Ok? <==> FieldsOk(sp)
    ensures r.Ok? ==> r.value == SmoothedSnapPoint(sp)
  {
    var smthsp: JMap := map[];
    if "Position" in sp {
      var v := SmoothArbitrary(sp["Position"], SmoothPos);
      if v.Err? {
        return Err("smoothArbitrary(positional): " + v.msg);
      }
      assert v.value == RoundedXyz(sp["Position"], SmoothPos);
      smthsp := smthsp["Position" := JObj(v.value)];
    }
    if "Rotation" in sp {
      var v := SmoothArbitrary(sp["Rotation"], SmoothRot);
      if v.Err? {
        return Err("smoothArbitrary(rotational): " + v.msg);
      }
      assert v.value == RoundedXyz(sp["Rotation"], SmoothRot);
      smthsp := smthsp["Rotation" := JObj(v.value)];
    }
    return Ok(smthsp);
  }

  /** The body of the `SmoothSnapPoints` loop for one snap point. */
  method SmoothSnapPoint(sp: JMap) returns (r: Result<JMap>)
    ensures r.Ok? <==> GoodSnapPoint(sp)
    ensures r.Ok? ==> r.value == SmoothedSnapPoint(sp)
  {
    var smthsp := SmoothFields(sp);
    if smthsp.Err? {
      return smthsp;
    }
    SameSizeSameKeys(smthsp.value, sp);
    if |sp| != |smthsp.value| {
      return Err("Unexpected key found in array of snap points");
    }
    return smthsp;
  }

  /**
   * `SmoothSnapPoints`: a typed list of objects whose every snap point is
   * accepted gives the smoothed points, same length and same order.
   */
  method SmoothSnapPoints(rawsps: JSON) returns (r: Result<seq<JMap>>)
    ensures !rawsps.JObjArr? ==> r.Err?
    ensures rawsps.JObjArr? ==> (r.Ok? <==> forall i :: 0 <= i < |rawsps.objs| ==> GoodSnapPoint(rawsps.objs[i]))
    ensures r.Ok? ==> |r.value| == |rawsps.objs|
    ensures r.Ok? ==> forall i :: 0 <= i < |r.value| ==> r.value[i] == SmoothedSnapPoint(rawsps.objs[i])
  {
    if !rawsps.JObjArr? {
      return Err("SnapPoints is expected to be an array of objects");
    }
    var arr := rawsps.objs;
    var smth: seq<JMap> := [];
    for i := 0 to |arr|
      invariant |smth| == i
      invariant forall j :: 0 <= j < i ==> GoodSnapPoint(arr[j]) && smth[j] == SmoothedSnapPoint(arr[j])
    {
      var smthsp := SmoothSnapPoint(arr[i]);
      if smthsp.Err? {
        return Err(smthsp.msg);
      }
      smth := smth + [smthsp.value];
    }
    return Ok(smth);
  }
}
