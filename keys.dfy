/**
 * The top-level keys of a mod that `generate` and `reverse` treat
 * specially (mod/generate.go), and what makes a key list safe to process
 * one key at a time: no key is listed twice and none is itself the
 * `_path` companion of another.
 */
module ModKeys {
  import opened Text

  /** Top-level keys expected to hold strings. */
  const ExpectedStr: seq<string> := ["SaveName", "Date", "VersionNumber", "GameMode", "GameType",
    "GameComplexity", "Table", "Sky", "Note", "LuaScript", "LuaScriptState", "XmlUI"]

  /** Top-level keys expected to hold JSON objects. */
  const ExpectedObj: seq<string> := ["TabStates", "MusicPlayer", "Grid", "Lighting", "Hands",
    "ComponentTags", "Turns"]

  /** Top-level keys expected to hold arrays of JSON objects. */
  const ExpectedObjArr: seq<string> := ["CameraStates", "DecalPallet", "CustomUIAssets", "SnapPoints", "Decals"]

  /** The key holding every object of the mod. */
  const ObjStatesKey: string := "ObjectStates"

  /** The key recording the order of the top-level object files. */
  const OrderKey: string := "ObjectStates_order"

  const DateKey: string := "Date"
  const EpochKey: string := "EpochTime"

  /** Appended to a key to name the key that holds its file name instead. */
  const PathExt: string := "_path"

  /** No key is listed twice. */
  predicate Distinct(keys: seq<string>)
  {
    forall i, j :: 0 <= i < j < |keys| ==> keys[i] != keys[j]
  }

  /** No key is the `_path` companion of another key. */
  predicate NoPathKeys(keys: seq<string>)
  {
    forall i :: 0 <= i < |keys| ==> !EndsWith(keys[i], PathExt)
  }

  /** A key with `_path` appended ends with `_path`, so it is never one of a list without such keys. */
  lemma PathKeyEnds(k: string)
    ensures EndsWith(k + PathExt, PathExt)
  {
    assert (k + PathExt)[|k + PathExt| - |PathExt|..] == PathExt;
  }

  /** Each key list names each key once and holds no `_path` key. */
  lemma ExpectedStrPlain()
    ensures Distinct(ExpectedStr) && NoPathKeys(ExpectedStr)
  {
  }

  lemma ExpectedObjPlain()
    ensures Distinct(ExpectedObj) && NoPathKeys(ExpectedObj)
  {
  }

  lemma ExpectedObjArrPlain()
    ensures Distinct(ExpectedObjArr) && NoPathKeys(ExpectedObjArr)
  {
  }
}
