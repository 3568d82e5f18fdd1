/**
 * `Mod.generate` (mod/generate.go): the mod's `config.json` map put back
 * together. Every listed key whose file is named by `Key_path` gets the
 * file's contents back, the root Lua script and XML UI are bundled, and the
 * object tree is read back into `ObjectStates`.
 *
 * Readers are maps from file name to contents. A Lua or XML reader maps a
 * file to the text its `EncodeFromFile` returns; a settings reader maps a
 * file to its decoded JSON value. The clock is the two parameters `date`
 * and `epoch`.
 */
module Generate {
  import opened Json
  import opened Text
  import opened ModKeys
  import Conversions
  import Handler
  import Objects

  /** The readers a mod is generated from. */
  datatype Sources = Sources(
    lua: map<string, string>,
    xml: map<string, string>,
    settings: map<string, JSON>,
    jreader: map<string, JMap>,
    explorer: map<string, Objects.Listing>)

  const OrderError: string := "Has Objects, but can't discern their order: "

  // ---------------------------------------------------------------------
  // The three readers `generate` hands to tryPut
  // ---------------------------------------------------------------------

  /** `luaGet`: the script read from `s`, or the empty text its failure returns. */
  function ReadText(lua: map<string, string>, s: string): JSON
  {
    if s in lua then JStr(lua[s]) else JStr("")
  }

  /**
   * `plainObj`: the object read from `s`; a missing file gives an empty
   * object and a file that is not an object decodes to `nil`.
   */
  function ReadObj(settings: map<string, JSON>, s: string): JSON
  {
    if s !in settings then JObj(map[])
    else if settings[s].JObj? then settings[s]
    else JNull
  }

  /**
   * `objArray`: the object list read from `s`; a missing file gives an
   * empty list and a file that is not an object list decodes to `nil`.
   */
  function ReadObjArray(settings: map<string, JSON>, s: string): JSON
  {
    if s !in settings then JObjArr([])
    else if settings[s].JObjArr? then settings[s]
    else JNull
  }

  // ---------------------------------------------------------------------
  // tryPut
  // ---------------------------------------------------------------------

  /** The file name `tryPut` reads: the string under `from`, else the empty name. */
  function FileNameIn(d: JMap, from: string): string
  {
    if from in d && d[from].JStr? then d[from].s else ""
  }

  /**
   * What `tryPut(&d, from, to, fun)` leaves in `d`: with neither `from` nor
   * `to`, or with `from`, `to` gets what `fun` reads (its error ignored) and
   * `from` goes; with `to` alone nothing changes.
   */
  function Put(d: JMap, from: string, to: string, fetch: string -> JSON): (r: JMap)
    ensures from !in d && to in d ==> r == d
    ensures from != to ==> to in r && from !in r
    ensures from != to && (from in d || to !in d) ==> r[to] == fetch(FileNameIn(d, from))
    ensures forall x :: x != from && x != to ==> (x in r <==> x in d) && (x in d ==> r[x] == d[x])
  {
    if from !in d && to in d then d
    else Delete(d[to := fetch(FileNameIn(d, from))], from)
  }

  /** `tryPut`: a nil map is left alone, any other gets `Put`. */
  method TryPut(d: Option<JMap>, from: string, to: string, fetch: string -> JSON) returns (d': Option<JMap>)
    ensures d.None? ==> d' == None
    ensures d.Some? ==> d' == Some(Put(d.value, from, to, fetch))
  {
    if d.None? {
      return None;
    }
    var m := d.value;
    var fromFile: JSON;
    if from in m {
      fromFile := m[from];
    } else {
      fromFile := JStr("");
      if to in m {
        return d;
      }
    }
    var filename := if fromFile.JStr? then fromFile.s else "";
    var o := fetch(filename);
    m := m[to := o];
    return Some(Delete(m, from));
  }

  /** `tryPut(&d, k + "_path", k, fetch)` for each `k` of `keys[i..]`, in order. */
  function PutAll(d: JMap, keys: seq<string>, i: nat, fetch: string -> JSON): JMap
    requires i <= |keys|
    decreases |keys| - i
  {
    if i == |keys| then d else PutAll(Put(d, keys[i] + PathExt, keys[i], fetch), keys, i + 1, fetch)
  }

  /** The `tryPut` loop over one key list. */
  method PutKeys(d0: JMap, keys: seq<string>, fetch: string -> JSON) returns (d: JMap)
    ensures d == PutAll(d0, keys, 0, fetch)
  {
    d := d0;
    for i := 0 to |keys|
      invariant PutAll(d0, keys, 0, fetch) == PutAll(d, keys, i, fetch)
    {
      var put := TryPut(Some(d), keys[i] + PathExt, keys[i], fetch);
      d := put.value;
    }
  }

  /** A key that is not a `_path` key and is present stays present through the loop. */
  lemma {:induction false} PutAllKeeps(d: JMap, keys: seq<string>, i: nat, fetch: string -> JSON, x: string)
    requires i <= |keys| && NoPathKeys(keys) && !EndsWith(x, PathExt) && x in d
    ensures x in PutAll(d, keys, i, fetch)
    decreases |keys| - i
  {
    if i < |keys| {
      PathKeyEnds(keys[i]);
      PutAllKeeps(Put(d, keys[i] + PathExt, keys[i], fetch), keys, i + 1, fetch, x);
    }
  }

  /** A `_path` key that is absent stays absent through the loop. */
  lemma {:induction false} PutAllNoPath(d: JMap, keys: seq<string>, i: nat, fetch: string -> JSON, x: string)
    requires i <= |keys| && NoPathKeys(keys) && EndsWith(x, PathExt) && x !in d
    ensures x !in PutAll(d, keys, i, fetch)
    decreases |keys| - i
  {
    if i < |keys| {
      var k := keys[i];
      assert !EndsWith(k, PathExt);
      var d' := Put(d, k + PathExt, k, fetch);
      PutNoPath(d, k, fetch, x);
      PutAllNoPath(d', keys, i + 1, fetch, x);
      assert PutAll(d, keys, i, fetch) == PutAll(d', keys, i + 1, fetch);
    }
  }

  /** One step of `PutAllNoPath`: `Put` only removes `_path` keys. */
  lemma PutNoPath(d: JMap, k: string, fetch: string -> JSON, x: string)
    requires !EndsWith(k, PathExt) && EndsWith(x, PathExt) && x !in d
    ensures x !in Put(d, k + PathExt, k, fetch)
  {
    assert x != k;
  }

  /** A key no listed key or `_path` key can be is carried through the loop unchanged. */
  lemma {:induction false} PutAllFrame(d: JMap, keys: seq<string>, i: nat, fetch: string -> JSON, x: string)
    requires i <= |keys| && x !in keys && !EndsWith(x, PathExt)
    ensures var r := PutAll(d, keys, i, fetch); (x in r <==> x in d) && (x in d ==> r[x] == d[x])
    decreases |keys| - i
  {
    if i < |keys| {
      PathKeyEnds(keys[i]);
      PutAllFrame(Put(d, keys[i] + PathExt, keys[i], fetch), keys, i + 1, fetch, x);
    }
  }

  /**
   * After the loop over a list without `_path` keys, every listed key is
   * present and none of their `_path` keys is: each file named by a
   * `Key_path` has been read back into `Key`.
   */
  lemma {:induction false} PutAllSwaps(d: JMap, keys: seq<string>, i: nat, fetch: string -> JSON)
    requires i <= |keys| && NoPathKeys(keys)
    ensures forall j :: i <= j < |keys| ==>
      keys[j] in PutAll(d, keys, i, fetch) && keys[j] + PathExt !in PutAll(d, keys, i, fetch)
    decreases |keys| - i
  {
    if i < |keys| {
      var d' := Put(d, keys[i] + PathExt, keys[i], fetch);
      PathKeyEnds(keys[i]);
      PutAllSwaps(d', keys, i + 1, fetch);
      PutAllKeeps(d', keys, i + 1, fetch, keys[i]);
      PutAllNoPath(d', keys, i + 1, fetch, keys[i] + PathExt);
    }
  }

  // ---------------------------------------------------------------------
  // The handler actions and the object order
  // ---------------------------------------------------------------------

  /** A handler's action applied: `key` and `keypath` go, then the action's key gets its value. */
  function Apply(d: JMap, act: Handler.Action, key: string, keypath: string): (r: JMap)
    ensures act.noop ==> r == d
    ensures !act.noop ==> act.key in r && r[act.key] == JStr(act.value)
    ensures !act.noop && act.key != keypath ==> keypath !in r
    ensures !act.noop ==> forall x :: x != key && x != keypath && x != act.key ==>
      (x in r <==> x in d) && (x in d ==> r[x] == d[x])
  {
    if act.noop then d else Delete(Delete(d, key), keypath)[act.key := JStr(act.value)]
  }

  /** The top directory lists at least one file. */
  predicate HasObjects(explorer: map<string, Objects.Listing>)
  {
    "" in explorer && |explorer[""].files| > 0
  }

  /** `ObjectStates_order` holds a list `ForceParseIntoStrArray` accepts. */
  predicate OrderReadable(d: JMap)
  {
    OrderKey in d && (d[OrderKey].JStrArr? || (d[OrderKey].JArr? && Conversions.AllStrings(d[OrderKey].arr)))
  }

  /** The map after `ForceParseIntoStrArray(&d, "ObjectStates_order", …)`. */
  function DropOrder(d: JMap): (r: JMap)
  {
    if OrderReadable(d) then Delete(d, OrderKey) else d
  }

  // ---------------------------------------------------------------------
  // generate
  // ---------------------------------------------------------------------

  /** `luaGet` over the Lua reader. */
  function LuaGet(src: Sources): string -> JSON
  {
    s => ReadText(src.lua, s)
  }

  /** `plainObj` over the settings reader. */
  function ObjGet(src: Sources): string -> JSON
  {
    s => ReadObj(src.settings, s)
  }

  /** `objArray` over the settings reader. */
  function ArrGet(src: Sources): string -> JSON
  {
    s => ReadObjArray(src.settings, s)
  }

  /** The map after the three `tryPut` loops. */
  function Restored(raw: JMap, src: Sources): JMap
  {
    var d1 := PutAll(raw, ExpectedStr, 0, LuaGet(src));
    var d2 := PutAll(d1, ExpectedObj, 0, ObjGet(src));
    PutAll(d2, ExpectedObjArr, 0, ArrGet(src))
  }

  /** One handler's action applied to `d`, or its error. */
  function Step(d: JMap, act: Result<Handler.Action>, h: Handler.Handler): Result<JMap>
  {
    match act
    case Err(e) => Err("WhileReadingFromFile(): " + e)
    case Ok(a) => Ok(Apply(d, a, h.key, h.keypath))
  }

  /** The map after the Lua and then the XML handler's actions, or the first handler error. */
  function Handled(d3: JMap, luaAct: JMap -> Result<Handler.Action>, xmlAct: JMap -> Result<Handler.Action>)
    : Result<JMap>
  {
    match Step(d3, luaAct(d3), Handler.LuaHandler)
    case Err(e) => Err(e)
    case Ok(d4) => Step(d4, xmlAct(d4), Handler.XmlHandler)
  }

  /** The last steps: the object order checked and taken out, the objects, the date. */
  function Finished(d5: JMap, explorer: map<string, Objects.Listing>, objs: Result<seq<JMap>>,
                    date: string, epoch: int): Result<JMap>
  {
    if HasObjects(explorer) && !OrderReadable(d5) then
      Err(OrderError + "the order is missing or not a list of strings")
    else
      match objs
      case Err(e) => Err("objects.ParseAllObjectStates() : " + e)
      case Ok(all) => Ok(DropOrder(d5)[ObjStatesKey := JObjArr(all)][DateKey := JStr(date)][EpochKey := JInt64(epoch)])
  }

  /**
   * What `generate(raw)` leaves in `m.Data`, given what the Lua and XML
   * handlers make of a map and what reading the object tree gives.
   */
  function GenerateSpec(raw: JMap, src: Sources, date: string, epoch: int,
                        luaAct: JMap -> Result<Handler.Action>, xmlAct: JMap -> Result<Handler.Action>,
                        objs: Result<seq<JMap>>): Result<JMap>
  {
    match Handled(Restored(raw, src), luaAct, xmlAct)
    case Err(e) => Err(e)
    case Ok(d5) => Finished(d5, src.explorer, objs, date, epoch)
  }

  /** What the Lua handler makes of `d`. */
  ghost function LuaReading(src: Sources, rootname: string, fuel: nat): JMap -> Result<Handler.Action>
  {
    d => Handler.ReadingSpec(Handler.LuaHandler, d, src.lua, rootname, fuel)
  }

  /** What the XML handler makes of `d`. */
  ghost function XmlReading(src: Sources, rootname: string, fuel: nat): JMap -> Result<Handler.Action>
  {
    d => Handler.ReadingSpec(Handler.XmlHandler, d, src.xml, rootname, fuel)
  }

  /** What reading the object tree gives. */
  ghost function ObjectTree(src: Sources, rootname: string, depth: nat, fuel: nat): Result<seq<JMap>>
  {
    Objects.ParseAllSpec(src.lua, src.jreader, src.explorer, depth, Objects.LuaBundle(src.lua, rootname, fuel))
  }

  /** The three `tryPut` loops of `generate`. */
  method Restore(raw: JMap, src: Sources) returns (data: JMap)
    ensures data == Restored(raw, src)
  {
    data := PutKeys(raw, ExpectedStr, LuaGet(src));
    data := PutKeys(data, ExpectedObj, ObjGet(src));
    data := PutKeys(data, ExpectedObjArr, ArrGet(src));
  }

  /** One handler run on the map and its action applied. */
  method RunHandler(d: JMap, h: Handler.Handler, reader: map<string, string>, rootname: string, fuel: nat)
    returns (r: Result<JMap>)
    ensures r == Step(d, Handler.ReadingSpec(h, d, reader, rootname, fuel), h)
  {
    var act := Handler.WhileReadingFromFile(h, d, reader, rootname, fuel);
    if act.Err? {
      return Err("WhileReadingFromFile(): " + act.msg);
    }
    var data := d;
    if !act.value.noop {
      data := Delete(data, h.key);
      data := Delete(data, h.keypath);
      data := data[act.value.key := JStr(act.value.value)];
    }
    return Ok(data);
  }

  /** The Lua and then the XML handler run on the map. */
  method ApplyHandlers(d3: JMap, src: Sources, rootname: string, fuel: nat) returns (r: Result<JMap>)
    ensures r == Handled(d3, LuaReading(src, rootname, fuel), XmlReading(src, rootname, fuel))
  {
    r := RunHandler(d3, Handler.LuaHandler, src.lua, rootname, fuel);
    if r.Err? {
      return;
    }
    r := RunHandler(r.value, Handler.XmlHandler, src.xml, rootname, fuel);
  }

  /** The order check, the object tree and the date, after the handlers. */
  method Finish(d5: JMap, src: Sources, rootname: string, fuel: nat, depth: nat, date: string, epoch: int)
    returns (r: Result<JMap>)
    ensures r.Ok? <==> Finished(d5, src.explorer, ObjectTree(src, rootname, depth, fuel), date, epoch).Ok?
    ensures r.Ok? ==> r == Finished(d5, src.explorer, ObjectTree(src, rootname, depth, fuel), date, epoch)
  {
    var data := d5;
    var files := if "" in src.explorer then src.explorer[""].files else [];
    var hasObjects := |files| > 0;
    var objOrder: seq<string> := [];
    var err;
    data, objOrder, err := Conversions.ForceParseIntoStrArray(data, OrderKey, objOrder);
    if hasObjects && err.Some? {
      return Err(OrderError + err.value);
    }
    assert data == DropOrder(d5);
    var allObjs := Objects.ParseAllObjectStates(src.lua, src.jreader, src.explorer, rootname, depth, fuel);
    if allObjs.Err? {
      return Err("objects.ParseAllObjectStates() : " + allObjs.msg);
    }
    data := data[ObjStatesKey := JObjArr(allObjs.value)];
    data := data[DateKey := JStr(date)];
    data := data[EpochKey := JInt64(epoch)];
    return Ok(data);
  }

  /**
   * `Mod.generate`: error texts aside, exactly `GenerateSpec` with the real
   * handlers and the real object tree. `fuel` bounds the nesting of
   * bundled modules, `depth` that of object directories.
   */
  method Generate(raw: JMap, src: Sources, rootname: string, fuel: nat, depth: nat, date: string, epoch: int)
    returns (r: Result<JMap>)
    ensures r.Ok? <==> GenerateSpec(raw, src, date, epoch, LuaReading(src, rootname, fuel),
                                    XmlReading(src, rootname, fuel), ObjectTree(src, rootname, depth, fuel)).Ok?
    ensures r.Ok? ==> r == GenerateSpec(raw, src, date, epoch, LuaReading(src, rootname, fuel),
                                        XmlReading(src, rootname, fuel), ObjectTree(src, rootname, depth, fuel))
  {
    var d3 := Restore(raw, src);
    var d5 := ApplyHandlers(d3, src, rootname, fuel);
    if d5.Err? {
      return d5;
    }
    r := Finish(d5.value, src, rootname, fuel, depth, date, epoch);
  }
}
