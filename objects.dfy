/**
 * The object tree of a save: each object state with the paths of its
 * external script files and the objects it contains, read from and written
 * to a directory tree of one JSON file per object.
 *
 * The source links objects by pointer and mutates them while it walks the
 * tree; here an object is a value, each walk returns the new values, and
 * the readers and writers it uses are maps:
 *  - a text reader is a map from file name to contents (a missing name is
 *    an error), and bundling reads required modules from the same map;
 *  - a JSON reader is a map from file name to decoded object;
 *  - a directory explorer maps a directory to its files and sub-directories,
 *    each given as a path that already includes the directory;
 *  - writing a file or creating a directory adds it to a `Disk`.
 */
module Objects {
  import opened Json
  import opened Text
  import Conversions
  import LuaBundler

  /** One object state: `objConfig` of the source. */
  datatype ObjConfig = ObjConfig(
    guid: string,
    data: JMap,
    luascriptPath: string,
    luascriptstatePath: string,
    subObjDir: string,
    subObj: seq<ObjConfig>)

  /** Scripts longer than this many bytes are moved to a file of their own. */
  const ScriptLimit: nat := 80
  const JsonExt: string := ".json"
  const StateExt: string := ".luascriptstate"

  /** The files written and directories created so far. */
  datatype Disk = Disk(lua: map<string, string>, json: map<string, JMap>, dirs: set<string>)

  // ---------------------------------------------------------------------
  // Reading an object: parseFromFile and parseFromJSON
  // ---------------------------------------------------------------------

  /** The string `tryParseIntoStr(m, k, &dest)` leaves in `dest`. */
  function StrOr(m: JMap, k: string, dest: string): string
  {
    if k in m && m[k].JStr? then m[k].s else dest
  }

  /** The map `tryParseIntoStr(m, k, &dest)` leaves behind. */
  function DropStr(m: JMap, k: string): JMap
  {
    if k in m && m[k].JStr? then Delete(m, k) else m
  }

  /** The object's GUID, which must be present and a string. */
  function GuidOf(data: JMap, what: string): (r: Result<string>)
    ensures r.Ok? <==> "GUID" in data && data["GUID"].JStr?
    ensures r.Ok? ==> r.value == data["GUID"].s
  {
    if "GUID" !in data then Err(what + " doesn't have a GUID field")
    else if !data["GUID"].JStr? then Err(what + " doesn't have a string GUID")
    else Ok(data["GUID"].s)
  }

  /**
   * The object with GUID `guid` made of `data` once the three path keys
   * that hold strings have been taken out of it into their fields.
   */
  function WithPaths(guid: string, data: JMap): ObjConfig
  {
    var d1 := DropStr(data, "LuaScript_path");
    var d2 := DropStr(d1, "LuaScriptState_path");
    ObjConfig(guid, DropStr(d2, "ContainedObjects_path"),
      StrOr(data, "LuaScript_path", ""), StrOr(d1, "LuaScriptState_path", ""),
      StrOr(d2, "ContainedObjects_path", ""), [])
  }

  /** What `WithPaths` takes out of the data and what it keeps. */
  lemma WithPathsEffect(guid: string, data: JMap)
    ensures var o := WithPaths(guid, data); o.guid == guid && o.subObj == []
    ensures var o := WithPaths(guid, data); "LuaScript_path" in data && data["LuaScript_path"].JStr? ==>
              o.luascriptPath == data["LuaScript_path"].s && "LuaScript_path" !in o.data
    ensures var o := WithPaths(guid, data); "ContainedObjects_path" in data && data["ContainedObjects_path"].JStr? ==>
              o.subObjDir == data["ContainedObjects_path"].s && "ContainedObjects_path" !in o.data
    ensures var o := WithPaths(guid, data); forall k :: k in o.data ==> k in data && o.data[k] == data[k]
    ensures var o := WithPaths(guid, data); forall k :: (k in data && k != "LuaScript_path" && k != "LuaScriptState_path"
              && k != "ContainedObjects_path") ==> k in o.data
  {
  }

  /** The three `tryParseIntoStr` calls shared by both parse functions. */
  method TakePaths(guid: string, data: JMap) returns (o: ObjConfig)
    ensures o == WithPaths(guid, data)
  {
    var d := data;
    var lp, lsp, sod := "", "", "";
    d, lp := Conversions.TryParseIntoStr(d, "LuaScript_path", lp);
    d, lsp := Conversions.TryParseIntoStr(d, "LuaScriptState_path", lsp);
    d, sod := Conversions.TryParseIntoStr(d, "ContainedObjects_path", sod);
    o := ObjConfig(guid, d, lp, lsp, sod, []);
  }

  /**
   * `objConfig.parseFromFile`: one object from one JSON file. Contained
   * objects stay in its data; they come from a sub-directory instead.
   */
  function ParseFromFile(filepath: string, jreader: map<string, JMap>): (r: Result<ObjConfig>)
    ensures filepath !in jreader ==> r.Err?
    ensures r.Ok? ==> && filepath in jreader && "GUID" in jreader[filepath] && jreader[filepath]["GUID"].JStr?
                      && r == Ok(WithPaths(jreader[filepath]["GUID"].s, jreader[filepath]))
    ensures filepath in jreader ==> (r.Ok? <==> GuidOf(jreader[filepath], "").Ok?)
  {
    if filepath !in jreader then Err("ReadObj(" + filepath + "): file not found")
    else
      match GuidOf(jreader[filepath], "object at (" + filepath + ")")
      case Err(e) => Err(e)
      case Ok(guid) => Ok(WithPaths(guid, jreader[filepath]))
  }

  const MismatchError: string := "type mismatch in ContainedObjects"

  /** What `parseFromJSON(data)` makes of a fresh object. */
  function ParseFromJSONSpec(data: JMap): Result<ObjConfig>
    decreases JObj(data), 1, 0
  {
    match GuidOf(data, "object")
    case Err(e) => Err(e)
    case Ok(guid) =>
      // The path keys taken out never include "ContainedObjects", so it is
      // looked up in `data` itself (see WithPathsEffect).
      var o := WithPaths(guid, data);
      if "ContainedObjects" !in data then Ok(o)
      else if !data["ContainedObjects"].JArr? then Err(MismatchError)
      else
        var arr := data["ContainedObjects"].arr;
        match ParseChildren(guid, arr, 0, [])
        case Err(e) => Err(e)
        case Ok(subs) => Ok(o.(data := Delete(o.data, "ContainedObjects"), subObj := subs))
  }

  /** The contained objects `arr[i..]` parsed in order after `done`, or the first error. */
  function ParseChildren(guid: string, arr: seq<JSON>, i: nat, done: seq<ObjConfig>)
    : Result<seq<ObjConfig>>
    requires i <= |arr|
    decreases JArr(arr), 0, |arr| - i
  {
    if i == |arr| then Ok(done)
    else if !arr[i].JObj? then Err(MismatchError)
    else
      assert arr[i] == JObj(arr[i].obj);
      match ParseFromJSONSpec(arr[i].obj)
      case Err(e) => Err("printing sub object of " + guid + " : " + e)
      case Ok(so) => ParseChildren(guid, arr, i + 1, done + [so])
  }

  /**
   * `objConfig.parseFromJSON`: an object and, recursively, the objects it
   * contains; their list is taken out of the data.
   */
  method ParseFromJSON(data: JMap) returns (r: Result<ObjConfig>)
    ensures r == ParseFromJSONSpec(data)
    ensures ("GUID" !in data || !data["GUID"].JStr?) ==> r.Err?
    ensures "ContainedObjects" in data && !data["ContainedObjects"].JArr? ==> r.Err?
    ensures r.Ok? ==> r.value.guid == data["GUID"].s && "ContainedObjects" !in r.value.data
    ensures r.Ok? && "ContainedObjects" !in data ==> r.value.subObj == []
    decreases JObj(data)
  {
    var g := GuidOf(data, "object");
    if g.Err? {
      return Err(g.msg);
    }
    var o := TakePaths(g.value, data);
    WithPathsEffect(g.value, data);
    if "ContainedObjects" !in o.data {
      return Ok(o);
    }
    var raw := o.data["ContainedObjects"];
    if !raw.JArr? {
      return Err(MismatchError);
    }
    var arr := raw.arr;
    assert JArr(arr) == data["ContainedObjects"];
    var subs: seq<ObjConfig> := [];
    for i := 0 to |arr|
      invariant ParseChildren(g.value, arr, 0, []) == ParseChildren(g.value, arr, i, subs)
    {
      if !arr[i].JObj? {
        return Err(MismatchError);
      }
      assert arr[i] == JObj(arr[i].obj);
      var so := ParseFromJSON(arr[i].obj);
      if so.Err? {
        return Err("printing sub object of " + g.value + " : " + so.msg);
      }
      subs := subs + [so.value];
    }
    return Ok(o.(data := Delete(o.data, "ContainedObjects"), subObj := subs));
  }

  // ---------------------------------------------------------------------
  // File names: getAGoodFileName and tryGetNonEmptyStr
  // ---------------------------------------------------------------------

  /** The characters a generated file name keeps: letters, digits, `_` and `-`. */
  predicate IsNameChar(c: char)
  {
    ('a' <= c <= 'z') || ('A' <= c <= 'Z') || ('0' <= c <= '9') || c == '_' || c == '-'
  }

  /** `s` with every character outside the name class removed. */
  function KeepNameChars(s: string): string
  {
    if s == [] then []
    else (if IsNameChar(s[0]) then [s[0]] else []) + KeepNameChars(s[1..])
  }

  /**
   * The filter keeps only name characters, never lengthens its input, and
   * leaves a text made of name characters alone.
   */
  lemma {:induction false} KeepNameCharsShape(s: string)
    ensures var r := KeepNameChars(s); forall i :: 0 <= i < |r| ==> IsNameChar(r[i])
    ensures |KeepNameChars(s)| <= |s|
    ensures (forall i :: 0 <= i < |s| ==> IsNameChar(s[i])) ==> KeepNameChars(s) == s
    decreases |s|
  {
    if s != [] {
      KeepNameCharsShape(s[1..]);
      var r := KeepNameChars(s);
      var rest := KeepNameChars(s[1..]);
      var head := if IsNameChar(s[0]) then [s[0]] else [];
      assert r == head + rest;
      forall i | 0 <= i < |r| ensures IsNameChar(r[i]) {
        if i >= |head| {
          assert r[i] == rest[i - |head|];
        }
      }
      if forall i :: 0 <= i < |s| ==> IsNameChar(s[i]) {
        assert forall i :: 0 <= i < |s[1..]| ==> s[1..][i] == s[i + 1];
        assert s == [s[0]] + s[1..];
      }
    }
  }

  /** `tryGetNonEmptyStr`: the value under `key` when it is a non-empty string. */
  function TryGetNonEmptyStr(data: JMap, key: string): (r: Result<string>)
    ensures r.Ok? <==> key in data && data[key].JStr? && data[key].s != ""
    ensures r.Ok? ==> r.value == data[key].s && r.value != ""
  {
    if key !in data then Err("no key " + key)
    else if !data[key].JStr? then Err("key " + key + " is not string")
    else if data[key].s == "" then Err("key " + key + " is blank")
    else Ok(data[key].s)
  }

  /** What tells the object apart: its sub-directory once it has one, else its GUID. */
  function IdOf(o: ObjConfig): string
  {
    if o.subObjDir != "" then o.subObjDir else o.guid
  }

  /**
   * `getAGoodFileName`: the nickname, or else the name, cut down to name
   * characters, a dot and the identifier; the bare identifier when the
   * object has neither.
   */
  function GoodFileName(o: ObjConfig): (n: string)
  {
    var id := IdOf(o);
    var key := TryGetNonEmptyStr(o.data, "Nickname");
    var key' := if key.Err? then TryGetNonEmptyStr(o.data, "Name") else key;
    if key'.Err? then id
    else
      KeepNameChars(key'.value) + "." + id
  }

  /** What `getAGoodFileName` makes of the nickname, the name and the identifier. */
  lemma GoodFileNameShape(o: ObjConfig)
    ensures var n := GoodFileName(o); EndsWith(n, IdOf(o))
    ensures var n := GoodFileName(o); TryGetNonEmptyStr(o.data, "Nickname").Ok? ==>
              n == KeepNameChars(o.data["Nickname"].s) + "." + IdOf(o)
    ensures var n := GoodFileName(o); TryGetNonEmptyStr(o.data, "Nickname").Err? && TryGetNonEmptyStr(o.data, "Name").Ok? ==>
              n == KeepNameChars(o.data["Name"].s) + "." + IdOf(o)
    ensures var n := GoodFileName(o); TryGetNonEmptyStr(o.data, "Nickname").Err? && TryGetNonEmptyStr(o.data, "Name").Err? ==>
              n == IdOf(o)
    ensures var n := GoodFileName(o); forall i :: 0 <= i < |n| - |IdOf(o)| ==> IsNameChar(n[i]) || n[i] == '.'
  {
    var n := GoodFileName(o);
    var key := TryGetNonEmptyStr(o.data, "Nickname");
    var key' := if key.Err? then TryGetNonEmptyStr(o.data, "Name") else key;
    if key'.Ok? {
      KeepNameCharsShape(key'.value);
    }
    if n != IdOf(o) {
      assert n[|n| - |IdOf(o)|..] == IdOf(o);
    }
  }

  // ---------------------------------------------------------------------
  // Writing an object back into one JSON map: print
  // ---------------------------------------------------------------------

  /**
   * `bundler.Bundle(·, l)` with `Rootname` equal to `rootname`. The print
   * functions take the bundler as a parameter, so what they promise holds
   * whatever the bundler does.
   */
  ghost function LuaBundle(reader: map<string, string>, rootname: string, fuel: nat): string -> Result<string>
  {
    s => LuaBundler.BundleSpec(s, reader, rootname, fuel)
  }

  /** The data after the script file, if any, is read and bundled into `LuaScript`. */
  function WithScriptFile(o: ObjConfig, reader: map<string, string>, bundle: string -> Result<string>)
    : (r: Result<JMap>)
    ensures o.luascriptPath == "" ==> r == Ok(o.data)
    ensures o.luascriptPath != "" && o.luascriptPath !in reader ==> r.Err?
  {
    if o.luascriptPath == "" then Ok(o.data)
    else if o.luascriptPath !in reader then
      Err("l.EncodeFromFile(" + o.luascriptPath + ") : file not found")
    else
      var encoded := reader[o.luascriptPath];
      match bundle(encoded)
      case Err(e) => Err("Bundle(" + encoded + ") : " + e)
      case Ok(b) => Ok(o.data["LuaScript" := JStr(b)])
  }

  /** `data` after the script state file, if any, is read into `LuaScriptState`. */
  function WithStateFile(o: ObjConfig, data: JMap, reader: map<string, string>): (r: Result<JMap>)
    ensures o.luascriptstatePath == "" ==> r == Ok(data)
    ensures r.Ok? && o.luascriptstatePath != "" ==>
              o.luascriptstatePath in reader && r.value == data["LuaScriptState" := JStr(reader[o.luascriptstatePath])]
  {
    if o.luascriptstatePath == "" then Ok(data)
    else if o.luascriptstatePath !in reader then
      Err("l.EncodeFromFile(" + o.luascriptstatePath + ") : file not found")
    else Ok(data["LuaScriptState" := JStr(reader[o.luascriptstatePath])])
  }

  /** `data` with a non-empty `LuaScript` string bundled. */
  function Rebundled(data: JMap, bundle: string -> Result<string>): (r: Result<JMap>)
    ensures !("LuaScript" in data && data["LuaScript"].JStr? && data["LuaScript"].s != "") ==> r == Ok(data)
  {
    if "LuaScript" in data && data["LuaScript"].JStr? && data["LuaScript"].s != "" then
      var str := data["LuaScript"].s;
      match bundle(str)
      case Err(e) => Err("Bundle(" + str + ") : " + e)
      case Ok(b) => Ok(data["LuaScript" := JStr(b)])
    else Ok(data)
  }

  /** The object's own data as `print` leaves it before its contained objects are added. */
  function OwnPrinted(o: ObjConfig, reader: map<string, string>, bundle: string -> Result<string>)
    : Result<JMap>
  {
    match WithScriptFile(o, reader, bundle)
    case Err(e) => Err(e)
    case Ok(d1) =>
      match WithStateFile(o, d1, reader)
      case Err(e) => Err(e)
      case Ok(d2) => Rebundled(d2, bundle)
  }

  /** What `o.print(l)` returns when `bundle` is what `bundler.Bundle(·, l)` does. */
  function PrintSpec(o: ObjConfig, reader: map<string, string>, bundle: string -> Result<string>)
    : Result<JMap>
    decreases o, 1, 0
  {
    match OwnPrinted(o, reader, bundle)
    case Err(e) => Err(e)
    case Ok(d) =>
      match PrintChildren(o, 0, [], reader, bundle)
      case Err(e) => Err(e)
      case Ok(subs) =>
        // `ContainedObjects` holds a `[]j`, a list of objects: `JObjArr`.
        if |subs| > 0 then Ok(d["ContainedObjects" := JObjArr(subs)]) else Ok(d)
  }

  /** The contained objects `o.subObj[i..]` printed in order after `done`, or the first error. */
  function PrintChildren(o: ObjConfig, i: nat, done: seq<JMap>, reader: map<string, string>,
                         bundle: string -> Result<string>): Result<seq<JMap>>
    requires i <= |o.subObj|
    decreases o, 0, |o.subObj| - i
  {
    if i == |o.subObj| then Ok(done)
    else
      match PrintSpec(o.subObj[i], reader, bundle)
      case Err(e) => Err(e)
      case Ok(p) => PrintChildren(o, i + 1, done + [p], reader, bundle)
  }

  /**
   * `objConfig.print`: the object's data with its script files read in,
   * its script bundled and its contained objects printed back into
   * `ContainedObjects`.
   */
  method Print(o: ObjConfig, reader: map<string, string>, rootname: string, fuel: nat)
    returns (r: Result<JMap>)
    ensures r == PrintSpec(o, reader, LuaBundle(reader, rootname, fuel))
    decreases o
  {
    var data := o.data;
    if o.luascriptPath != "" {
      if o.luascriptPath !in reader {
        return Err("l.EncodeFromFile(" + o.luascriptPath + ") : file not found");
      }
      var encoded := reader[o.luascriptPath];
      var bundled := LuaBundler.Bundle(encoded, reader, rootname, fuel);
      if bundled.Err? {
        return Err("Bundle(" + encoded + ") : " + bundled.msg);
      }
      data := data["LuaScript" := JStr(bundled.value)];
    }
    ghost var bundle := LuaBundle(reader, rootname, fuel);
    assert WithScriptFile(o, reader, bundle) == Ok(data);
    if o.luascriptstatePath != "" {
      if o.luascriptstatePath !in reader {
        return Err("l.EncodeFromFile(" + o.luascriptstatePath + ") : file not found");
      }
      data := data["LuaScriptState" := JStr(reader[o.luascriptstatePath])];
    }
    assert WithStateFile(o, WithScriptFile(o, reader, bundle).value, reader) == Ok(data);
    if "LuaScript" in data && data["LuaScript"].JStr? && data["LuaScript"].s != "" {
      var str := data["LuaScript"].s;
      var bundled := LuaBundler.Bundle(str, reader, rootname, fuel);
      if bundled.Err? {
        return Err("Bundle(" + str + ") : " + bundled.msg);
      }
      data := data["LuaScript" := JStr(bundled.value)];
    }
    assert OwnPrinted(o, reader, bundle) == Ok(data);
    var subs: seq<JMap> := [];
    for i := 0 to |o.subObj|
      invariant PrintChildren(o, 0, [], reader, bundle) == PrintChildren(o, i, subs, reader, bundle)
    {
      var printed := Print(o.subObj[i], reader, rootname, fuel);
      if printed.Err? {
        return Err(printed.msg);
      }
      subs := subs + [printed.value];
    }
    if |subs| > 0 {
      // The Go `[]j` of printed children, a list of objects.
      data := data["ContainedObjects" := JObjArr(subs)];
    }
    return Ok(data);
  }

  // ---------------------------------------------------------------------
  // Writing an object to files: printToFile
  // ---------------------------------------------------------------------

  /** The object's data, the script files and the root module name after a step. */
  datatype Step = Step(data: JMap, lua: map<string, string>, rootname: string)

  /**
   * The `LuaScript` step of `printToFile`: a string script is unbundled; a
   * long one moves to a file named after the object and its key is replaced
   * by `LuaScript_path`, a short one stays inline.
   */
  function ScriptStep(o: ObjConfig, filepath: string, lua: map<string, string>, rootname: string)
    : (r: Result<Step>)
  {
    if "LuaScript" in o.data && o.data["LuaScript"].JStr? then
      var raw := o.data["LuaScript"].s;
      match LuaBundler.UnbundleSpec(raw, rootname)
      case Err(e) => Err("bundler.Unbundle(script from <" + o.guid + ">)\n: " + e)
      case Ok(script) =>
        var rootname' := LuaBundler.NewRootname(raw, rootname);
        if Utf8Len(script) > ScriptLimit then
          var file := JoinPath(filepath, GoodFileName(o) + LuaBundler.LuaExt);
          Ok(Step(Delete(o.data["LuaScript_path" := JStr(file)], "LuaScript"), lua[file := script], rootname'))
        else Ok(Step(o.data["LuaScript" := JStr(script)], lua, rootname'))
    else Ok(Step(o.data, lua, rootname))
  }

  /** What the `LuaScript` step does to the data, the script files and the root module name. */
  lemma ScriptStepEffect(o: ObjConfig, filepath: string, lua: map<string, string>, rootname: string)
    ensures var r := ScriptStep(o, filepath, lua, rootname); !("LuaScript" in o.data && o.data["LuaScript"].JStr?) ==> r == Ok(Step(o.data, lua, rootname))
    ensures var r := ScriptStep(o, filepath, lua, rootname); "LuaScript" in o.data && o.data["LuaScript"].JStr? ==>
      var raw := o.data["LuaScript"].s;
      var file := JoinPath(filepath, GoodFileName(o) + LuaBundler.LuaExt);
      && (r.Ok? <==> LuaBundler.UnbundleSpec(raw, rootname).Ok?)
      && (r.Ok? ==> var script := LuaBundler.UnbundleSpec(raw, rootname).value;
            && r.value.rootname == LuaBundler.NewRootname(raw, rootname)
            && (Utf8Len(script) > ScriptLimit ==>
                  && "LuaScript" !in r.value.data
                  && "LuaScript_path" in r.value.data && r.value.data["LuaScript_path"] == JStr(file)
                  && r.value.lua == lua[file := script])
            && (Utf8Len(script) <= ScriptLimit ==>
                  && "LuaScript" in r.value.data && r.value.data["LuaScript"] == JStr(script)
                  && r.value.lua == lua))
    ensures var r := ScriptStep(o, filepath, lua, rootname); r.Ok? ==> forall k :: k != "LuaScript" && k != "LuaScript_path" ==>
              (k in r.value.data <==> k in o.data) && (k in o.data ==> r.value.data[k] == o.data[k])
  {
  }

  /**
   * The `LuaScriptState` step of `printToFile`: a string state longer than
   * the limit moves to a file and its key is replaced by `LuaScriptState_path`.
   */
  function StateStep(o: ObjConfig, filepath: string, lua: map<string, string>): (r: (JMap, map<string, string>))
  {
    if "LuaScriptState" in o.data && o.data["LuaScriptState"].JStr?
       && Utf8Len(o.data["LuaScriptState"].s) > ScriptLimit
    then
      var file := JoinPath(filepath, GoodFileName(o) + StateExt);
      (Delete(o.data["LuaScriptState_path" := JStr(file)], "LuaScriptState"),
       lua[file := o.data["LuaScriptState"].s])
    else (o.data, lua)
  }

  /** What the `LuaScriptState` step does to the data and the script files. */
  lemma StateStepEffect(o: ObjConfig, filepath: string, lua: map<string, string>)
    ensures var r := StateStep(o, filepath, lua); var file := JoinPath(filepath, GoodFileName(o) + StateExt);
      if "LuaScriptState" in o.data && o.data["LuaScriptState"].JStr?
         && Utf8Len(o.data["LuaScriptState"].s) > ScriptLimit
      then
        && "LuaScriptState" !in r.0
        && "LuaScriptState_path" in r.0 && r.0["LuaScriptState_path"] == JStr(file)
        && r.1 == lua[file := o.data["LuaScriptState"].s]
      else r == (o.data, lua)
    ensures var r := StateStep(o, filepath, lua); forall k :: k != "LuaScriptState" && k != "LuaScriptState_path" ==>
              (k in r.0 <==> k in o.data) && (k in o.data ==> r.0[k] == o.data[k])
  {
  }

  /** The disk, the root module name and the object's file name stem after `printToFile`. */
  datatype Printed = Printed(disk: Disk, rootname: string, name: string)

  /** The last step of `printToFile`: the object's own JSON file. */
  function WriteSelf(o: ObjConfig, filepath: string, disk: Disk, rootname: string): (p: Printed)
    ensures p.name == GoodFileName(o)
    ensures JoinPath(filepath, p.name + JsonExt) in p.disk.json
    ensures p.disk.json[JoinPath(filepath, p.name + JsonExt)] == o.data
  {
    var name := GoodFileName(o);
    Printed(disk.(json := disk.json[JoinPath(filepath, name + JsonExt) := o.data]), rootname, name)
  }

  /** The object once its scripts have been moved out and its sub-directory chosen. */
  function WithSubDir(o: ObjConfig, sub: string): ObjConfig
  {
    o.(data := o.data["ContainedObjects_path" := JStr(sub)], subObjDir := sub)
  }

  /** What `o.printToFile(filepath, …)` writes, and the file name stem it uses. */
  function PrintToFileSpec(o: ObjConfig, filepath: string, disk: Disk, rootname: string): Result<Printed>
    decreases o, 1, 0
  {
    match ScriptStep(o, filepath, disk.lua, rootname)
    case Err(e) => Err(e)
    case Ok(s1) =>
      var (data2, lua2) := StateStep(o.(data := s1.data), filepath, s1.lua);
      var o2 := o.(data := data2);
      var disk2 := disk.(lua := lua2);
      if |o.subObj| > 0 then
        var sub := GoodFileName(o2);
        var dir := JoinPath(filepath, sub);
        match ChildrenToFile(o, 0, dir, disk2.(dirs := disk2.dirs + {dir}), s1.rootname)
        case Err(e) => Err("printing file " + dir + ": " + e)
        case Ok(p) => Ok(WriteSelf(WithSubDir(o2, sub), filepath, p.disk, p.rootname))
      else Ok(WriteSelf(o2, filepath, disk2, s1.rootname))
  }

  /** The contained objects `o.subObj[i..]` written in order into `dir`, or the first error. */
  function ChildrenToFile(o: ObjConfig, i: nat, dir: string, disk: Disk, rootname: string): Result<Printed>
    requires i <= |o.subObj|
    decreases o, 0, |o.subObj| - i
  {
    if i == |o.subObj| then Ok(Printed(disk, rootname, ""))
    else
      match PrintToFileSpec(o.subObj[i], dir, disk, rootname)
      case Err(e) => Err(e)
      case Ok(p) => ChildrenToFile(o, i + 1, dir, p.disk, p.rootname)
  }

  /** The `LuaScript` step with the unbundler run as a method. */
  method MoveScript(o: ObjConfig, filepath: string, lua: map<string, string>, rootname: string)
    returns (r: Result<Step>)
    ensures r == ScriptStep(o, filepath, lua, rootname)
  {
    if "LuaScript" in o.data && o.data["LuaScript"].JStr? {
      var raw := o.data["LuaScript"].s;
      var script, rootname' := LuaBundler.Unbundle(raw, rootname);
      if script.Err? {
        return Err("bundler.Unbundle(script from <" + o.guid + ">)\n: " + script.msg);
      }
      if Utf8Len(script.value) > ScriptLimit {
        var file := JoinPath(filepath, GoodFileName(o) + LuaBundler.LuaExt);
        var data := o.data["LuaScript_path" := JStr(file)];
        return Ok(Step(Delete(data, "LuaScript"), lua[file := script.value], rootname'));
      }
      return Ok(Step(o.data["LuaScript" := JStr(script.value)], lua, rootname'));
    }
    return Ok(Step(o.data, lua, rootname));
  }

  /**
   * `objConfig.printToFile`: long scripts go to files of their own, the
   * contained objects go into a new sub-directory named after the object,
   * and then the object's own JSON file is written, under a name that
   * already includes that sub-directory.
   */
  method PrintToFile(o: ObjConfig, filepath: string, disk: Disk, rootname: string) returns (r: Result<Printed>)
    ensures r == PrintToFileSpec(o, filepath, disk, rootname)
    decreases o, 1
  {
    var s1 := MoveScript(o, filepath, disk.lua, rootname);
    if s1.Err? {
      return Err(s1.msg);
    }
    var (data2, lua2) := StateStep(o.(data := s1.value.data), filepath, s1.value.lua);
    var o2 := o.(data := data2);
    var disk2 := disk.(lua := lua2);
    if |o.subObj| > 0 {
      var sub := GoodFileName(o2);
      var dir := JoinPath(filepath, sub);
      var p := PrintChildrenToFile(o, dir, disk2.(dirs := disk2.dirs + {dir}), s1.value.rootname);
      if p.Err? {
        return Err("printing file " + dir + ": " + p.msg);
      }
      return Ok(WriteSelf(WithSubDir(o2, sub), filepath, p.value.disk, p.value.rootname));
    }
    return Ok(WriteSelf(o2, filepath, disk2, s1.value.rootname));
  }

  /** The loop of `printToFile` over the contained objects. */
  method PrintChildrenToFile(o: ObjConfig, dir: string, disk: Disk, rootname: string) returns (r: Result<Printed>)
    ensures r == ChildrenToFile(o, 0, dir, disk, rootname)
    decreases o, 0
  {
    var d, rn := disk, rootname;
    for i := 0 to |o.subObj|
      invariant ChildrenToFile(o, 0, dir, disk, rootname) == ChildrenToFile(o, i, dir, d, rn)
    {
      var p := PrintToFile(o.subObj[i], dir, d, rn);
      if p.Err? {
        return Err(p.msg);
      }
      d, rn := p.value.disk, p.value.rootname;
    }
    return Ok(Printed(d, rn, ""));
  }

  // ---------------------------------------------------------------------
  // The object database: reading a directory tree
  // ---------------------------------------------------------------------

  /** What `ListFilesAndFolders` reports for one directory. */
  datatype Listing = Listing(files: seq<string>, folders: seq<string>)

  /**
   * The objects read so far from one directory, in order, and `all`: for
   * each GUID met anywhere, the file of the first object that had it.
   */
  datatype Parsed = Parsed(objs: seq<ObjConfig>, all: map<string, string>)

  const DepthError: string := "directory nesting exceeds the depth bound"

  /**
   * `db.addObj`: append the object to the list it belongs to; a GUID seen
   * before keeps the object first registered for it.
   */
  function AddObj(p: Parsed, o: ObjConfig, file: string): (p': Parsed)
    ensures p'.objs == p.objs + [o]
    ensures p'.all.Keys == p.all.Keys + {o.guid}
    ensures forall g :: g in p.all ==> p'.all[g] == p.all[g]
    ensures o.guid !in p.all ==> p'.all[o.guid] == file
  {
    Parsed(p.objs + [o], if o.guid in p.all then p.all else p.all[o.guid := file])
  }

  /** Every directory claim points at an object of the list. */
  predicate ClaimsIn(whose: map<string, nat>, objs: seq<ObjConfig>)
  {
    forall k :: k in whose ==> whose[k] < |objs|
  }

  /** `path.Base`: the last element of a slash-separated path. */
  function Base(p: string): (b: string)
    ensures p != "" ==> b != ""
  {
    if p == "" then "."
    else
      var t := TrimSlashes(p);
      if t == "" then "/" else AfterLastSlash(t)
  }

  function TrimSlashes(p: string): (t: string)
    ensures t == "" || t[|t| - 1] != '/'
    ensures |t| <= |p| && t == p[..|t|]
  {
    if p != "" && p[|p| - 1] == '/' then TrimSlashes(p[..|p| - 1]) else p
  }

  function AfterLastSlash(p: string): (r: string)
    ensures '/' !in r
    ensures |r| <= |p| && r == p[|p| - |r|..]
    ensures p != "" && p[|p| - 1] != '/' ==> r != ""
  {
    if p == "" || p[|p| - 1] == '/' then ""
    else
      var q := AfterLastSlash(p[..|p| - 1]);
      SuffixSnoc(p, q);
      q + [p[|p| - 1]]
  }

  /** A suffix of all but the last element, with the last element appended, is a suffix. */
  lemma SuffixSnoc<A>(p: seq<A>, q: seq<A>)
    requires |p| > 0 && |q| < |p| && q == p[..|p| - 1][|p| - 1 - |q|..]
    ensures q + [p[|p| - 1]] == p[|p| - 1 - |q|..]
  {
    assert p[..|p| - 1][|p| - 1 - |q|..] == p[|p| - 1 - |q|..|p| - 1];
    assert p[|p| - 1 - |q|..] == p[|p| - 1 - |q|..|p| - 1] + [p[|p| - 1]];
  }

  /**
   * The `.json` files `files[i..]` of one directory read in order into `acc`,
   * each object that names a sub-directory recorded as its claimant, or
   * the first error. Other files are script files and are skipped.
   */
  function ParseFiles(files: seq<string>, i: nat, jreader: map<string, JMap>,
                      acc: Parsed, whose: map<string, nat>): (r: Result<(Parsed, map<string, nat>)>)
    requires i <= |files|
    requires ClaimsIn(whose, acc.objs)
    ensures r.Ok? ==> ClaimsIn(r.value.1, r.value.0.objs) && |acc.objs| <= |r.value.0.objs|
    decreases |files| - i
  {
    if i == |files| then Ok((acc, whose))
    else if !EndsWith(files[i], JsonExt) then ParseFiles(files, i + 1, jreader, acc, whose)
    else
      match ParseFromFile(files[i], jreader)
      case Err(e) => Err("parseFromFile(" + files[i] + "): parseFromFile(" + files[i] + ") : " + e)
      case Ok(o) =>
        var whose' := if o.subObjDir != "" then whose[o.subObjDir := |acc.objs|] else whose;
        ParseFiles(files, i + 1, jreader, AddObj(acc, o, files[i]), whose')
  }

  /**
   * The sub-directories `folders[i..]` read in order, each into the list of
   * contained objects of the object that claims it, or the first error.
   */
  function ParseFolders(folders: seq<string>, i: nat, explorer: map<string, Listing>,
                        jreader: map<string, JMap>, acc: Parsed, whose: map<string, nat>, fuel: nat)
    : (r: Result<Parsed>)
    requires i <= |folders|
    requires ClaimsIn(whose, acc.objs)
    ensures r.Ok? ==> |r.value.objs| == |acc.objs|
    decreases fuel, 0, |folders| - i
  {
    if i == |folders| then Ok(acc)
    else if Base(folders[i]) !in whose then
      Err("found folder " + folders[i] + " without a peer object who claims it")
    else if fuel == 0 then Err(DepthError)
    else
      match ParseFolder(folders[i], explorer, jreader, acc.all, fuel - 1)
      case Err(e) => Err("parseFromFolder(" + folders[i] + "): " + e)
      case Ok(sub) =>
        var idx := whose[Base(folders[i])];
        var owner := acc.objs[idx];
        var objs := acc.objs[idx := owner.(subObj := owner.subObj + sub.objs)];
        ParseFolders(folders, i + 1, explorer, jreader, Parsed(objs, sub.all), whose, fuel)
  }

  /** What `db.parseFromFolder(relpath, …)` adds below the directory's owner. */
  function ParseFolder(relpath: string, explorer: map<string, Listing>, jreader: map<string, JMap>,
                       all: map<string, string>, fuel: nat): Result<Parsed>
    decreases fuel, 1, 0
  {
    if relpath !in explorer then Err("ListFilesAndFolders(" + relpath + ") : directory not found")
    else
      var listing := explorer[relpath];
      match ParseFiles(listing.files, 0, jreader, Parsed([], all), map[])
      case Err(e) => Err(e)
      case Ok((acc, whose)) => ParseFolders(listing.folders, 0, explorer, jreader, acc, whose, fuel)
  }

  /**
   * `db.parseFromFolder`: the objects of one directory and, below each,
   * the objects of the sub-directory it claims. `fuel` bounds the nesting.
   */
  method ParseFromFolder(relpath: string, explorer: map<string, Listing>, jreader: map<string, JMap>,
                         all: map<string, string>, fuel: nat) returns (r: Result<Parsed>)
    ensures r == ParseFolder(relpath, explorer, jreader, all, fuel)
    decreases fuel, 1
  {
    if relpath !in explorer {
      return Err("ListFilesAndFolders(" + relpath + ") : directory not found");
    }
    var files := explorer[relpath].files;
    var acc := Parsed([], all);
    var whose: map<string, nat> := map[];
    for i := 0 to |files|
      invariant ClaimsIn(whose, acc.objs)
      invariant ParseFiles(files, 0, jreader, Parsed([], all), map[]) == ParseFiles(files, i, jreader, acc, whose)
    {
      if EndsWith(files[i], JsonExt) {
        var o := ParseFromFile(files[i], jreader);
        if o.Err? {
          return Err("parseFromFile(" + files[i] + "): parseFromFile(" + files[i] + ") : " + o.msg);
        }
        if o.value.subObjDir != "" {
          whose := whose[o.value.subObjDir := |acc.objs|];
        }
        acc := AddObj(acc, o.value, files[i]);
      }
    }
    var folders := explorer[relpath].folders;
    ghost var acc0 := acc;
    for i := 0 to |folders|
      invariant ClaimsIn(whose, acc.objs)
      invariant ParseFolders(folders, 0, explorer, jreader, acc0, whose, fuel)
                == ParseFolders(folders, i, explorer, jreader, acc, whose, fuel)
    {
      var b := Base(folders[i]);
      if b !in whose {
        return Err("found folder " + folders[i] + " without a peer object who claims it");
      }
      if fuel == 0 {
        return Err(DepthError);
      }
      var sub := ParseFromFolder(folders[i], explorer, jreader, acc.all, fuel - 1);
      if sub.Err? {
        return Err("parseFromFolder(" + folders[i] + "): " + sub.msg);
      }
      var idx := whose[b];
      var owner := acc.objs[idx];
      acc := Parsed(acc.objs[idx := owner.(subObj := owner.subObj + sub.value.objs)], sub.value.all);
    }
    return Ok(acc);
  }

  // ---------------------------------------------------------------------
  // The entry points
  // ---------------------------------------------------------------------

  /** The top-level objects `roots[i..]` printed in order after `done`, or the first error. */
  function PrintRoots(roots: seq<ObjConfig>, i: nat, done: seq<JMap>, reader: map<string, string>,
                      bundle: string -> Result<string>): Result<seq<JMap>>
    requires i <= |roots|
    decreases |roots| - i
  {
    if i == |roots| then Ok(done)
    else
      match PrintSpec(roots[i], reader, bundle)
      case Err(e) => Err("obj (" + roots[i].guid + ") did not print : " + e)
      case Ok(p) => PrintRoots(roots, i + 1, done + [p], reader, bundle)
  }

  /** `db.print`: every top-level object printed, in the order they were read. */
  method PrintDb(roots: seq<ObjConfig>, reader: map<string, string>, rootname: string, fuel: nat)
    returns (r: Result<seq<JMap>>)
    ensures r == PrintRoots(roots, 0, [], reader, LuaBundle(reader, rootname, fuel))
  {
    ghost var bundle := LuaBundle(reader, rootname, fuel);
    var oa: seq<JMap> := [];
    for i := 0 to |roots|
      invariant PrintRoots(roots, 0, [], reader, bundle) == PrintRoots(roots, i, oa, reader, bundle)
    {
      var printed := Print(roots[i], reader, rootname, fuel);
      if printed.Err? {
        return Err("obj (" + roots[i].guid + ") did not print : " + printed.msg);
      }
      oa := oa + [printed.value];
    }
    return Ok(oa);
  }

  /** What `ParseAllObjectStates` returns. */
  function ParseAllSpec(reader: map<string, string>, jreader: map<string, JMap>,
                        explorer: map<string, Listing>, depth: nat, bundle: string -> Result<string>)
    : Result<seq<JMap>>
  {
    match ParseFolder("", explorer, jreader, map[], depth)
    case Err(e) => Err("parseFolder(<root>): " + e)
    case Ok(p) => PrintRoots(p.objs, 0, [], reader, bundle)
  }

  /**
   * `ParseAllObjectStates`: read the object tree from the top directory and
   * print every top-level object with its contents. `depth` bounds the
   * directory nesting, `fuel` the nesting of required Lua modules.
   */
  method ParseAllObjectStates(reader: map<string, string>, jreader: map<string, JMap>,
                              explorer: map<string, Listing>, rootname: string, depth: nat, fuel: nat)
    returns (r: Result<seq<JMap>>)
    ensures r == ParseAllSpec(reader, jreader, explorer, depth, LuaBundle(reader, rootname, fuel))
  {
    var p := ParseFromFolder("", explorer, jreader, map[], depth);
    if p.Err? {
      return Err("parseFolder(<root>): " + p.msg);
    }
    r := PrintDb(p.value.objs, reader, rootname, fuel);
  }

  /** The order of the top-level objects, the disk and the root module name after writing them. */
  datatype Written = Written(order: seq<string>, disk: Disk, rootname: string)

  /** The top-level objects `objs[i..]` parsed and written in order, or the first error. */
  function PrintStates(root: string, objs: seq<JMap>, i: nat, w: Written): (r: Result<Written>)
    requires i <= |objs|
    ensures r.Ok? ==> |r.value.order| == |w.order| + |objs| - i && r.value.order[..|w.order|] == w.order
    decreases |objs| - i
  {
    if i == |objs| then Ok(w)
    else
      match ParseFromJSONSpec(objs[i])
      case Err(e) => Err(e)
      case Ok(oc) =>
        match PrintToFileSpec(oc, root, w.disk, w.rootname)
        case Err(e) => Err(e)
        case Ok(p) =>
          var w' := Written(w.order + [p.name], p.disk, p.rootname);
          var r := PrintStates(root, objs, i + 1, w');
          if r.Ok? then StemsKept(r.value.order, w.order, p.name); r else r
  }

  /** An order that starts with `stems + [s]` starts with `stems`. */
  lemma StemsKept(order: seq<string>, stems: seq<string>, s: string)
    requires |stems| + 1 <= |order| && order[..|stems| + 1] == stems + [s]
    ensures order[..|stems|] == stems
  {
    assert order[..|stems|] == order[..|stems| + 1][..|stems|];
  }

  /**
   * `PrintObjectStates`: each top-level object parsed and written below
   * `root`; the result lists the file name stems in the order of `objs`.
   */
  method PrintObjectStates(root: string, objs: seq<JMap>, disk: Disk, rootname: string)
    returns (r: Result<Written>)
    ensures r == PrintStates(root, objs, 0, Written([], disk, rootname))
  {
    var w := Written([], disk, rootname);
    for i := 0 to |objs|
      invariant PrintStates(root, objs, 0, Written([], disk, rootname)) == PrintStates(root, objs, i, w)
    {
      var oc := ParseFromJSON(objs[i]);
      if oc.Err? {
        return Err(oc.msg);
      }
      var p := PrintToFile(oc.value, root, w.disk, w.rootname);
      if p.Err? {
        return Err(p.msg);
      }
      w := Written(w.order + [p.value.name], p.value.disk, p.value.rootname);
    }
    return Ok(w);
  }
}
