/**
 * `reverse` and `generate` are inverse key by key: what `Reverser.Write`
 * moves out of a top-level key into a file, `tryPut` in `generate` reads
 * back into the same key (mod/reverse.go and mod/generate.go).
 */
module RoundTrip {
  import opened Json
  import opened ModKeys
  import Types
  import Reverse
  import Generate

  /**
   * A string key other than `LuaScript`, moved to its script file or left
   * in place, comes back with the same value and without its `_path` key.
   */
  lemma StrKeyRoundTrip(k: string, a: Reverse.Acc, src: Generate.Sources)
    requires k != "LuaScript" && k in a.raw && a.raw[k].JStr? && k + PathExt !in a.raw
    requires Reverse.StrStep(k, a).Ok? && src.lua == Reverse.StrStep(k, a).value.out.disk.lua
    ensures var d := Generate.Put(Reverse.StrStep(k, a).value.raw, k + PathExt, k, Generate.LuaGet(src));
      k in d && d[k] == a.raw[k] && k + PathExt !in d
  {
    var r := Reverse.StrStep(k, a).value;
    Reverse.StrStepEffect(k, a);
    assert Reverse.StrText(k, a.raw[k].s, a.rootname) == Ok((a.raw[k].s, a.rootname));
  }

  /**
   * An object key, moved to its settings file or left in place, comes
   * back with the same object and without its `_path` key.
   */
  lemma ObjKeyRoundTrip(k: string, a: Reverse.Acc, size: JSON -> nat, src: Generate.Sources)
    requires k in a.raw && a.raw[k].JObj? && k + PathExt !in a.raw
    requires Reverse.ObjStep(k, a, size).Ok? && src.settings == Reverse.ObjStep(k, a, size).value.out.settings
    ensures var d := Generate.Put(Reverse.ObjStep(k, a, size).value.raw, k + PathExt, k, Generate.ObjGet(src));
      k in d && d[k] == a.raw[k] && k + PathExt !in d
  {
    Reverse.ObjStepEffect(k, a, size);
  }

  /**
   * An object-list key, moved to its settings file or left in place, comes
   * back as the list `reverse` converted (and, for `SnapPoints`, smoothed),
   * without its `_path` key.
   */
  lemma ArrKeyRoundTrip(k: string, a: Reverse.Acc, size: JSON -> nat, src: Generate.Sources)
    requires k in a.raw && k + PathExt !in a.raw
    requires Reverse.ArrStep(k, a, size).Ok? && src.settings == Reverse.ArrStep(k, a, size).value.out.settings
    ensures Types.ConvertSpec(a.raw[k]).Ok? && Reverse.Smoothed(k, Types.ConvertSpec(a.raw[k]).value).Ok?
    ensures var d := Generate.Put(Reverse.ArrStep(k, a, size).value.raw, k + PathExt, k, Generate.ArrGet(src));
      && k in d && d[k] == JObjArr(Reverse.Smoothed(k, Types.ConvertSpec(a.raw[k]).value).value)
      && k + PathExt !in d
  {
    PathKeyEnds(k);
  }
}
