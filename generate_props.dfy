/**
 * What `generate` promises about the map it returns: every listed key is
 * read back from its file, the object order is demanded whenever there are
 * objects, and the objects and the clock are stamped last.
 */
module GenerateProps {
  import opened Json
  import opened Text
  import opened ModKeys
  import Handler
  import Generate
  import Objects

  /** A handler's own key is a plain key and its path key a `_path` key. */
  predicate PlainHandler(h: Handler.Handler)
  {
    !EndsWith(h.key, PathExt) && EndsWith(h.keypath, PathExt)
  }

  lemma LuaHandlerPlain()
    ensures PlainHandler(Handler.LuaHandler)
  {
    assert Handler.LuaHandler.keypath[|Handler.LuaHandler.keypath| - |PathExt|..] == PathExt;
  }

  lemma XmlHandlerPlain()
    ensures PlainHandler(Handler.XmlHandler)
  {
    assert Handler.XmlHandler.keypath[|Handler.XmlHandler.keypath| - |PathExt|..] == PathExt;
  }

  /** An action a handler returns either does nothing or sets the handler's own key. */
  lemma ReadingSetsOwnKey(h: Handler.Handler, d: JMap, reader: map<string, string>, rootname: string, fuel: nat)
    ensures var a := Handler.ReadingSpec(h, d, reader, rootname, fuel);
      a.Ok? && !a.value.noop ==> a.value.key == h.key
  {
  }

  /**
   * A handler step keeps a plain key that is present and does not bring
   * back its `_path` key once gone.
   */
  lemma StepKeeps(d: JMap, act: Result<Handler.Action>, h: Handler.Handler, k: string)
    requires PlainHandler(h) && !EndsWith(k, PathExt)
    requires act.Ok? && !act.value.noop ==> act.value.key == h.key
    requires k in d && k + PathExt !in d
    ensures var r := Generate.Step(d, act, h);
      r.Ok? ==> k in r.value && k + PathExt !in r.value
  {
    PathKeyEnds(k);
  }

  /** A handler step leaves a key that is neither a handler key nor the action's key alone. */
  lemma StepFrame(d: JMap, act: Result<Handler.Action>, h: Handler.Handler, k: string)
    requires PlainHandler(h) && !EndsWith(k, PathExt) && k != h.key
    requires act.Ok? && !act.value.noop ==> act.value.key == h.key
    ensures var r := Generate.Step(d, act, h);
      r.Ok? ==> (k in r.value <==> k in d) && (k in d ==> r.value[k] == d[k])
  {
  }

  /** A loop over a list without `_path` keys keeps a swapped plain key swapped. */
  lemma PutAllStaysSwapped(d: JMap, keys: seq<string>, fetch: string -> JSON, k: string)
    requires NoPathKeys(keys) && !EndsWith(k, PathExt) && k in d && k + PathExt !in d
    ensures k in Generate.PutAll(d, keys, 0, fetch) && k + PathExt !in Generate.PutAll(d, keys, 0, fetch)
  {
    PathKeyEnds(k);
    Generate.PutAllKeeps(d, keys, 0, fetch, k);
    Generate.PutAllNoPath(d, keys, 0, fetch, k + PathExt);
  }

  /** A loop over a list without `_path` keys swaps each of its keys. */
  lemma PutAllSwapsOne(d: JMap, keys: seq<string>, fetch: string -> JSON, j: nat)
    requires NoPathKeys(keys) && j < |keys|
    ensures keys[j] in Generate.PutAll(d, keys, 0, fetch) && keys[j] + PathExt !in Generate.PutAll(d, keys, 0, fetch)
    ensures !EndsWith(keys[j], PathExt)
  {
    Generate.PutAllSwaps(d, keys, 0, fetch);
  }

  /** After the three `tryPut` loops every listed key is present and its `_path` key is gone. */
  lemma RestoredSwapsStr(raw: JMap, src: Generate.Sources, j: nat)
    requires j < |ExpectedStr|
    ensures ExpectedStr[j] in Generate.Restored(raw, src) && ExpectedStr[j] + PathExt !in Generate.Restored(raw, src)
  {
    ExpectedStrPlain();
    ExpectedObjPlain();
    ExpectedObjArrPlain();
    var k := ExpectedStr[j];
    var d1 := Generate.PutAll(raw, ExpectedStr, 0, Generate.LuaGet(src));
    var d2 := Generate.PutAll(d1, ExpectedObj, 0, Generate.ObjGet(src));
    PutAllSwapsOne(raw, ExpectedStr, Generate.LuaGet(src), j);
    PutAllStaysSwapped(d1, ExpectedObj, Generate.ObjGet(src), k);
    PutAllStaysSwapped(d2, ExpectedObjArr, Generate.ArrGet(src), k);
  }

  lemma RestoredSwapsObj(raw: JMap, src: Generate.Sources, j: nat)
    requires j < |ExpectedObj|
    ensures ExpectedObj[j] in Generate.Restored(raw, src) && ExpectedObj[j] + PathExt !in Generate.Restored(raw, src)
  {
    ExpectedObjPlain();
    ExpectedObjArrPlain();
    var k := ExpectedObj[j];
    var d1 := Generate.PutAll(raw, ExpectedStr, 0, Generate.LuaGet(src));
    var d2 := Generate.PutAll(d1, ExpectedObj, 0, Generate.ObjGet(src));
    PutAllSwapsOne(d1, ExpectedObj, Generate.ObjGet(src), j);
    PutAllStaysSwapped(d2, ExpectedObjArr, Generate.ArrGet(src), k);
  }

  lemma RestoredSwapsArr(raw: JMap, src: Generate.Sources, j: nat)
    requires j < |ExpectedObjArr|
    ensures ExpectedObjArr[j] in Generate.Restored(raw, src) && ExpectedObjArr[j] + PathExt !in Generate.Restored(raw, src)
  {
    ExpectedObjArrPlain();
    var d1 := Generate.PutAll(raw, ExpectedStr, 0, Generate.LuaGet(src));
    var d2 := Generate.PutAll(d1, ExpectedObj, 0, Generate.ObjGet(src));
    PutAllSwapsOne(d2, ExpectedObjArr, Generate.ArrGet(src), j);
  }

  /** The object order is not one of the listed keys, so the `tryPut` loops leave it alone. */
  lemma RestoredKeepsOrder(raw: JMap, src: Generate.Sources)
    ensures var d3 := Generate.Restored(raw, src);
      (OrderKey in d3 <==> OrderKey in raw) && (OrderKey in raw ==> d3[OrderKey] == raw[OrderKey])
  {
    OrderKeyUnlisted();
    var d1 := Generate.PutAll(raw, ExpectedStr, 0, Generate.LuaGet(src));
    var d2 := Generate.PutAll(d1, ExpectedObj, 0, Generate.ObjGet(src));
    Generate.PutAllFrame(raw, ExpectedStr, 0, Generate.LuaGet(src), OrderKey);
    Generate.PutAllFrame(d1, ExpectedObj, 0, Generate.ObjGet(src), OrderKey);
    Generate.PutAllFrame(d2, ExpectedObjArr, 0, Generate.ArrGet(src), OrderKey);
  }

  /** `ObjectStates_order` is neither listed nor a `_path` key. */
  lemma OrderKeyUnlisted()
    ensures OrderKey !in ExpectedStr && OrderKey !in ExpectedObj && OrderKey !in ExpectedObjArr
    ensures !EndsWith(OrderKey, PathExt)
  {
  }

  /** The handlers leave the object order alone. */
  lemma HandledKeepsOrder(d3: JMap, src: Generate.Sources, rootname: string, fuel: nat)
    ensures var r := Generate.Handled(d3, Generate.LuaReading(src, rootname, fuel), Generate.XmlReading(src, rootname, fuel));
      r.Ok? ==> (OrderKey in r.value <==> OrderKey in d3) && (OrderKey in d3 ==> r.value[OrderKey] == d3[OrderKey])
  {
    OrderKeyUnlisted();
    LuaHandlerPlain();
    XmlHandlerPlain();
    var a := Handler.ReadingSpec(Handler.LuaHandler, d3, src.lua, rootname, fuel);
    ReadingSetsOwnKey(Handler.LuaHandler, d3, src.lua, rootname, fuel);
    StepFrame(d3, a, Handler.LuaHandler, OrderKey);
    var s := Generate.Step(d3, a, Handler.LuaHandler);
    if s.Ok? {
      var x := Handler.ReadingSpec(Handler.XmlHandler, s.value, src.xml, rootname, fuel);
      ReadingSetsOwnKey(Handler.XmlHandler, s.value, src.xml, rootname, fuel);
      StepFrame(s.value, x, Handler.XmlHandler, OrderKey);
    }
  }

  /** The handlers keep every listed key present and its `_path` key absent. */
  lemma HandledKeeps(d3: JMap, src: Generate.Sources, rootname: string, fuel: nat, k: string)
    requires !EndsWith(k, PathExt) && k in d3 && k + PathExt !in d3
    ensures var r := Generate.Handled(d3, Generate.LuaReading(src, rootname, fuel), Generate.XmlReading(src, rootname, fuel));
      r.Ok? ==> k in r.value && k + PathExt !in r.value
  {
    LuaHandlerPlain();
    XmlHandlerPlain();
    var a := Handler.ReadingSpec(Handler.LuaHandler, d3, src.lua, rootname, fuel);
    ReadingSetsOwnKey(Handler.LuaHandler, d3, src.lua, rootname, fuel);
    StepKeeps(d3, a, Handler.LuaHandler, k);
    var s := Generate.Step(d3, a, Handler.LuaHandler);
    if s.Ok? {
      var x := Handler.ReadingSpec(Handler.XmlHandler, s.value, src.xml, rootname, fuel);
      ReadingSetsOwnKey(Handler.XmlHandler, s.value, src.xml, rootname, fuel);
      StepKeeps(s.value, x, Handler.XmlHandler, k);
    }
  }

  /** The keys `generate` stamps last are not `_path` keys. */
  lemma StampKeysPlain()
    ensures !EndsWith(ObjStatesKey, PathExt) && !EndsWith(DateKey, PathExt) && !EndsWith(EpochKey, PathExt)
  {
  }

  /** The last steps keep a swapped key other than the order swapped. */
  lemma FinishedKeeps(d5: JMap, explorer: map<string, Objects.Listing>, objs: Result<seq<JMap>>,
                      date: string, epoch: int, k: string)
    requires k in d5 && k + PathExt !in d5 && k != OrderKey
    ensures var r := Generate.Finished(d5, explorer, objs, date, epoch);
      r.Ok? ==> k in r.value && k + PathExt !in r.value
  {
    PathKeyEnds(k);
    StampKeysPlain();
  }

  /** The handlers and the last steps keep a swapped key other than the order swapped. */
  lemma GenerateKeepsSwapped(raw: JMap, src: Generate.Sources, rootname: string, fuel: nat,
                             date: string, epoch: int, objs: Result<seq<JMap>>, k: string)
    requires !EndsWith(k, PathExt) && k != OrderKey
    requires k in Generate.Restored(raw, src) && k + PathExt !in Generate.Restored(raw, src)
    ensures var r := Generate.GenerateSpec(raw, src, date, epoch, Generate.LuaReading(src, rootname, fuel),
                                           Generate.XmlReading(src, rootname, fuel), objs);
      r.Ok? ==> k in r.value && k + PathExt !in r.value
  {
    var d3 := Generate.Restored(raw, src);
    HandledKeeps(d3, src, rootname, fuel, k);
    var h := Generate.Handled(d3, Generate.LuaReading(src, rootname, fuel), Generate.XmlReading(src, rootname, fuel));
    if h.Ok? {
      FinishedKeeps(h.value, src.explorer, objs, date, epoch, k);
    }
  }

  /**
   * After a successful `generate`, every listed key holds a value and no
   * `Key_path` reference is left: each file was read back into its key.
   */
  lemma GenerateSwapsStr(raw: JMap, src: Generate.Sources, rootname: string, fuel: nat,
                         date: string, epoch: int, objs: Result<seq<JMap>>, j: nat)
    requires j < |ExpectedStr|
    ensures var r := Generate.GenerateSpec(raw, src, date, epoch, Generate.LuaReading(src, rootname, fuel),
                                           Generate.XmlReading(src, rootname, fuel), objs);
      r.Ok? ==> ExpectedStr[j] in r.value && ExpectedStr[j] + PathExt !in r.value
  {
    ExpectedStrPlain();
    OrderKeyUnlisted();
    RestoredSwapsStr(raw, src, j);
    GenerateKeepsSwapped(raw, src, rootname, fuel, date, epoch, objs, ExpectedStr[j]);
  }

  lemma GenerateSwapsObj(raw: JMap, src: Generate.Sources, rootname: string, fuel: nat,
                         date: string, epoch: int, objs: Result<seq<JMap>>, j: nat)
    requires j < |ExpectedObj|
    ensures var r := Generate.GenerateSpec(raw, src, date, epoch, Generate.LuaReading(src, rootname, fuel),
                                           Generate.XmlReading(src, rootname, fuel), objs);
      r.Ok? ==> ExpectedObj[j] in r.value && ExpectedObj[j] + PathExt !in r.value
  {
    ExpectedObjPlain();
    OrderKeyUnlisted();
    RestoredSwapsObj(raw, src, j);
    GenerateKeepsSwapped(raw, src, rootname, fuel, date, epoch, objs, ExpectedObj[j]);
  }

  lemma GenerateSwapsArr(raw: JMap, src: Generate.Sources, rootname: string, fuel: nat,
                         date: string, epoch: int, objs: Result<seq<JMap>>, j: nat)
    requires j < |ExpectedObjArr|
    ensures var r := Generate.GenerateSpec(raw, src, date, epoch, Generate.LuaReading(src, rootname, fuel),
                                           Generate.XmlReading(src, rootname, fuel), objs);
      r.Ok? ==> ExpectedObjArr[j] in r.value && ExpectedObjArr[j] + PathExt !in r.value
  {
    ExpectedObjArrPlain();
    OrderKeyUnlisted();
    RestoredSwapsArr(raw, src, j);
    GenerateKeepsSwapped(raw, src, rootname, fuel, date, epoch, objs, ExpectedObjArr[j]);
  }

  /**
   * With object files present, a mod whose `ObjectStates_order` is missing
   * or not a list of strings cannot be generated.
   */
  lemma GenerateNeedsOrder(raw: JMap, src: Generate.Sources, rootname: string, fuel: nat,
                           date: string, epoch: int, objs: Result<seq<JMap>>)
    requires Generate.HasObjects(src.explorer) && !Generate.OrderReadable(raw)
    ensures Generate.GenerateSpec(raw, src, date, epoch, Generate.LuaReading(src, rootname, fuel),
                                  Generate.XmlReading(src, rootname, fuel), objs).Err?
  {
    var d3 := Generate.Restored(raw, src);
    RestoredKeepsOrder(raw, src);
    HandledKeepsOrder(d3, src, rootname, fuel);
  }

  /**
   * The last steps of a successful `generate` read the object tree, put
   * it under `ObjectStates` and stamped the date; the order is gone
   * exactly when it was readable.
   */
  lemma FinishedStamps(d5: JMap, explorer: map<string, Objects.Listing>, objs: Result<seq<JMap>>,
                       date: string, epoch: int)
    ensures var r := Generate.Finished(d5, explorer, objs, date, epoch);
      r.Ok? ==>
        && objs.Ok?
        && r.value[ObjStatesKey] == JObjArr(objs.value)
        && r.value[DateKey] == JStr(date)
        && r.value[EpochKey] == JInt64(epoch)
        && (OrderKey in r.value <==> OrderKey in d5 && !Generate.OrderReadable(d5))
  {
    if Generate.Finished(d5, explorer, objs, date, epoch).Ok? {
      var d := Generate.DropOrder(d5);
      assert OrderKey in d <==> OrderKey in d5 && !Generate.OrderReadable(d5);
      assert d[ObjStatesKey := JObjArr(objs.value)][DateKey := JStr(date)][EpochKey := JInt64(epoch)]
        == Generate.Finished(d5, explorer, objs, date, epoch).value;
    }
  }

  /** A successful `generate`, whatever the handlers do, ends with the objects and the date. */
  lemma GenerateStamps(raw: JMap, src: Generate.Sources, date: string, epoch: int,
                       luaAct: JMap -> Result<Handler.Action>, xmlAct: JMap -> Result<Handler.Action>,
                       objs: Result<seq<JMap>>)
    ensures var r := Generate.GenerateSpec(raw, src, date, epoch, luaAct, xmlAct, objs);
      r.Ok? ==>
        && objs.Ok?
        && r.value[ObjStatesKey] == JObjArr(objs.value)
        && r.value[DateKey] == JStr(date)
        && r.value[EpochKey] == JInt64(epoch)
  {
    var h := Generate.Handled(Generate.Restored(raw, src), luaAct, xmlAct);
    if h.Ok? {
      FinishedStamps(h.value, src.explorer, objs, date, epoch);
    }
  }

  /** An error reading the object tree is an error of `generate`. */
  lemma GenerateObjectsFail(raw: JMap, src: Generate.Sources, date: string, epoch: int,
                            luaAct: JMap -> Result<Handler.Action>, xmlAct: JMap -> Result<Handler.Action>,
                            objs: Result<seq<JMap>>)
    requires objs.Err?
    ensures Generate.GenerateSpec(raw, src, date, epoch, luaAct, xmlAct, objs).Err?
  {
  }
}
