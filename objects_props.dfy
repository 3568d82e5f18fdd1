/**
 * Properties of the object tree: how file names are made, that reading an
 * object keeps its contained objects in order, that printing rebuilds them
 * in order, that writing only ever adds files, that the JSON file written
 * for an object points at the script file written beside it, and how a
 * directory tree is read.
 */
module ObjectsProps {
  import opened Json
  import opened Text
  import opened Objects
  import LuaBundler

  // ---------------------------------------------------------------------
  // getAGoodFileName
  // ---------------------------------------------------------------------

  /** A fresh object with the given data, GUID and sub-directory. */
  function Obj(data: JMap, guid: string, subObjDir: string): ObjConfig
  {
    ObjConfig(guid, data, "", "", subObjDir, [])
  }

  /** Filtering a concatenation filters each part. */
  lemma {:induction false} KeepNameCharsConcat(a: string, b: string)
    ensures KeepNameChars(a + b) == KeepNameChars(a) + KeepNameChars(b)
    decreases |a|
  {
    if a != [] {
      var head := if IsNameChar(a[0]) then [a[0]] else [];
      assert (a + b)[0] == a[0];
      assert (a + b)[1..] == a[1..] + b;
      KeepNameCharsConcat(a[1..], b);
      calc {
        KeepNameChars(a + b);
        head + KeepNameChars(a[1..] + b);
        head + (KeepNameChars(a[1..]) + KeepNameChars(b));
        (head + KeepNameChars(a[1..])) + KeepNameChars(b);
        KeepNameChars(a) + KeepNameChars(b);
      }
    } else {
      assert a + b == b;
    }
  }

  /** Every character of `s` is a name character. */
  predicate AllNameChars(s: string)
  {
    forall i :: 0 <= i < |s| ==> IsNameChar(s[i])
  }

  /** No character of `s` is a name character. */
  predicate NoNameChars(s: string)
  {
    forall i :: 0 <= i < |s| ==> !IsNameChar(s[i])
  }

  /** A text made of name characters is kept whole. */
  lemma {:induction false} KeepAllNameChars(s: string)
    requires AllNameChars(s)
    ensures KeepNameChars(s) == s
    decreases |s|
  {
    if s != [] {
      KeepAllNameChars(s[1..]);
      assert s == [s[0]] + s[1..];
    }
  }

  /** A text without name characters filters to nothing. */
  lemma {:induction false} KeepNoNameChars(s: string)
    requires NoNameChars(s)
    ensures KeepNameChars(s) == ""
    decreases |s|
  {
    if s != [] {
      KeepNoNameChars(s[1..]);
    }
  }

  /** Two words with a separator and a tail of punctuation filter to the two words run together. */
  lemma KeepTwoWords(w1: string, sep: string, w2: string, tail: string)
    requires AllNameChars(w1) && NoNameChars(sep) && AllNameChars(w2) && NoNameChars(tail)
    ensures KeepNameChars(w1 + sep + w2 + tail) == w1 + w2
  {
    var a := w1 + sep;
    var b := a + w2;
    KeepAllNameChars(w1);
    KeepAllNameChars(w2);
    KeepNoNameChars(sep);
    KeepNoNameChars(tail);
    KeepNameCharsConcat(w1, sep);
    assert KeepNameChars(a) == w1;
    KeepNameCharsConcat(a, w2);
    KeepNameCharsConcat(b, tail);
  }

  /**
   * A nickname of two words, with spaces or punctuation between and after
   * them, wins over the name and gives the two words run together, a dot
   * and the identifier ("Occult Invocation!!!!~~()()" with GUID 010509
   * gives "OccultInvocation.010509").
   */
  lemma NicknameWords(o: ObjConfig, w1: string, sep: string, w2: string, tail: string)
    requires "Nickname" in o.data && o.data["Nickname"] == JStr(w1 + sep + w2 + tail) && w1 != ""
    requires AllNameChars(w1) && NoNameChars(sep) && AllNameChars(w2) && NoNameChars(tail)
    ensures GoodFileName(o) == w1 + w2 + "." + IdOf(o)
  {
    GoodFileNameShape(o);
    KeepTwoWords(w1, sep, w2, tail);
  }

  /** A missing, non-string or blank nickname falls back to the name. */
  lemma NameFallback()
    ensures GoodFileName(Obj(map["Name" := JStr("Card")], "1233", "")) == "Card.1233"
    ensures GoodFileName(Obj(map["Nickname" := JNull, "Name" := JStr("Card")], "1235", "")) == "Card.1235"
    ensures GoodFileName(Obj(map["Nickname" := JStr(""), "Name" := JStr("Card")], "1234", "")) == "Card.1234"
  {
    NameCard(map["Name" := JStr("Card")], "1233");
    NameCard(map["Nickname" := JNull, "Name" := JStr("Card")], "1235");
    NameCard(map["Nickname" := JStr(""), "Name" := JStr("Card")], "1234");
  }

  /** An object without a usable nickname and named `Card` is written as `Card.<id>`. */
  lemma NameCard(data: JMap, id: string)
    requires id != ""
    requires TryGetNonEmptyStr(data, "Nickname").Err? && TryGetNonEmptyStr(data, "Name") == Ok("Card")
    ensures GoodFileName(Obj(data, id, "")) == "Card." + id
  {
    assert "Card"[1..] == "ard" && "ard"[1..] == "rd" && "rd"[1..] == "d" && "d"[1..] == [];
    assert KeepNameChars("d") == "d";
    assert KeepNameChars("rd") == "rd";
    assert KeepNameChars("ard") == "ard";
    assert KeepNameChars("Card") == "Card";
  }

  /** Without a usable nickname or name the identifier alone is the name. */
  lemma BareIdentifier()
    ensures GoodFileName(Obj(map["Nickname" := JStr(""), "Name" := JNull], "010508", "")) == "010508"
    ensures GoodFileName(Obj(map[], "010507", "")) == "010507"
  {
  }

  /** Once the object has a sub-directory, that directory replaces the GUID in the name. */
  lemma SubDirIdentifier()
    ensures GoodFileName(Obj(map["Nickname" := JStr(""), "Name" := JStr("")], "010504", "010504_2")) == "010504_2"
    ensures GoodFileName(Obj(map["Nickname" := JStr("foo"), "Name" := JStr("")], "010503", "010503_2"))
            == "foo.010503_2"
  {
    assert "foo"[1..] == "oo" && "oo"[1..] == "o" && "o"[1..] == [];
    assert KeepNameChars("o") == "o";
    assert KeepNameChars("oo") == "oo";
    assert KeepNameChars("foo") == "foo";
  }

  // ---------------------------------------------------------------------
  // parseFromJSON
  // ---------------------------------------------------------------------

  /** `j` is an object that `parseFromJSON` reads as `o`. */
  predicate ParsesTo(j: JSON, o: ObjConfig)
  {
    j.JObj? && ParseFromJSONSpec(j.obj) == Ok(o)
  }

  /** Each of `js` reads as the object at the same place in `os`. */
  predicate AllParse(js: seq<JSON>, os: seq<ObjConfig>)
  {
    |js| == |os| && forall k :: 0 <= k < |js| ==> ParsesTo(js[k], os[k])
  }

  lemma AllParseCons(j: JSON, o: ObjConfig, js: seq<JSON>, os: seq<ObjConfig>)
    requires ParsesTo(j, o) && AllParse(js, os)
    ensures AllParse([j] + js, [o] + os)
  {
    var js', os' := [j] + js, [o] + os;
    forall k | 0 <= k < |js'| ensures ParsesTo(js'[k], os'[k]) {
      ConsAt(j, o, js, os, k);
    }
  }

  /** A suffix is its first element followed by the rest. */
  lemma ConsSlice<A>(s: seq<A>, i: nat)
    requires i < |s|
    ensures [s[i]] + s[i + 1..] == s[i..]
  {
  }

  /** A sequence that starts with `done + [x]` starts with `done`, and then has `x`. */
  lemma SnocPrefix<A>(v: seq<A>, done: seq<A>, x: A)
    requires |done| + 1 <= |v| && v[..|done| + 1] == done + [x]
    ensures v[..|done|] == done && v[|done|] == x
  {
    assert v[..|done|] == v[..|done| + 1][..|done|];
    assert v[|done|] == v[..|done| + 1][|done|];
  }

  lemma ConsAt<A, B>(a: A, b: B, as_: seq<A>, bs: seq<B>, k: nat)
    requires k < |as_| + 1 && |as_| == |bs|
    ensures k == 0 ==> ([a] + as_)[k] == a && ([b] + bs)[k] == b
    ensures k > 0 ==> ([a] + as_)[k] == as_[k - 1] && ([b] + bs)[k] == bs[k - 1]
  {
  }

  /** The contained objects come out in the order of the array, each parsed on its own. */
  lemma {:induction false} ParseChildrenInOrder(guid: string, arr: seq<JSON>, i: nat, done: seq<ObjConfig>)
    requires i <= |arr|
    ensures var r := ParseChildren(guid, arr, i, done);
      r.Ok? ==> |done| <= |r.value| && r.value[..|done|] == done && AllParse(arr[i..], r.value[|done|..])
    decreases |arr| - i
  {
    if i == |arr| {
      assert ParseChildren(guid, arr, i, done) == Ok(done);
      assert arr[i..] == [] && done[|done|..] == [];
    } else if arr[i].JObj? && ParseFromJSONSpec(arr[i].obj).Ok? {
      var so := ParseFromJSONSpec(arr[i].obj).value;
      var d1 := done + [so];
      ParseChildrenStep(guid, arr, i, done);
      ParseChildrenInOrder(guid, arr, i + 1, d1);
      var r := ParseChildren(guid, arr, i + 1, d1);
      if r.Ok? {
        var v := r.value;
        SnocPrefix(v, done, so);
        AllParseCons(arr[i], so, arr[i + 1..], v[|d1|..]);
        ConsSlice(arr, i);
        ConsSlice(v, |done|);
      }
    }
  }

  /** A child that parses is appended and the scan moves on. */
  lemma ParseChildrenStep(guid: string, arr: seq<JSON>, i: nat, done: seq<ObjConfig>)
    requires i < |arr| && arr[i].JObj? && ParseFromJSONSpec(arr[i].obj).Ok?
    ensures ParseChildren(guid, arr, i, done)
         == ParseChildren(guid, arr, i + 1, done + [ParseFromJSONSpec(arr[i].obj).value])
  {
  }

  /** An element of the array that is not an object makes parsing fail. */
  lemma {:induction false} ParseChildrenMismatch(guid: string, arr: seq<JSON>, i: nat, done: seq<ObjConfig>, k: nat)
    requires i <= k < |arr| && !arr[k].JObj?
    ensures ParseChildren(guid, arr, i, done).Err?
    decreases |arr| - i
  {
    if i < k && arr[i].JObj? && ParseFromJSONSpec(arr[i].obj).Ok? {
      ParseChildrenMismatch(guid, arr, i + 1, done + [ParseFromJSONSpec(arr[i].obj).value], k);
    }
  }

  /** `parseFromJSON` keeps one object per element of `ContainedObjects`, in order. */
  lemma ParseFromJSONChildren(data: JMap)
    requires "ContainedObjects" in data && data["ContainedObjects"].JArr?
    ensures var arr := data["ContainedObjects"].arr;
      ParseFromJSONSpec(data).Ok? ==>
        && |ParseFromJSONSpec(data).value.subObj| == |arr|
        && forall k :: 0 <= k < |arr| ==> ParsesTo(arr[k], ParseFromJSONSpec(data).value.subObj[k])
  {
    if GuidOf(data, "object").Ok? {
      var arr := data["ContainedObjects"].arr;
      ParseChildrenInOrder(GuidOf(data, "object").value, arr, 0, []);
      assert arr[0..] == arr;
    }
  }

  /** An element of `ContainedObjects` that is not an object makes `parseFromJSON` fail. */
  lemma ParseFromJSONMismatch(data: JMap, k: nat)
    requires "ContainedObjects" in data && data["ContainedObjects"].JArr?
    requires k < |data["ContainedObjects"].arr| && !data["ContainedObjects"].arr[k].JObj?
    ensures ParseFromJSONSpec(data).Err?
  {
    if GuidOf(data, "object").Ok? {
      ParseChildrenMismatch(GuidOf(data, "object").value, data["ContainedObjects"].arr, 0, [], k);
    }
  }

  // ---------------------------------------------------------------------
  // print
  // ---------------------------------------------------------------------

  /** `print` turns `o` into `m`. */
  ghost predicate PrintsTo(o: ObjConfig, reader: map<string, string>, bundle: string -> Result<string>, m: JMap)
  {
    PrintSpec(o, reader, bundle) == Ok(m)
  }

  /** Each of `os` prints as the map at the same place in `ms`. */
  ghost predicate AllPrint(os: seq<ObjConfig>, reader: map<string, string>, bundle: string -> Result<string>,
                           ms: seq<JMap>)
  {
    |os| == |ms| && forall k :: 0 <= k < |os| ==> PrintsTo(os[k], reader, bundle, ms[k])
  }

  lemma AllPrintCons(o: ObjConfig, m: JMap, os: seq<ObjConfig>, ms: seq<JMap>,
                     reader: map<string, string>, bundle: string -> Result<string>)
    requires PrintsTo(o, reader, bundle, m) && AllPrint(os, reader, bundle, ms)
    ensures AllPrint([o] + os, reader, bundle, [m] + ms)
  {
    var os', ms' := [o] + os, [m] + ms;
    forall k | 0 <= k < |os'| ensures PrintsTo(os'[k], reader, bundle, ms'[k]) {
      ConsAt(o, m, os, ms, k);
    }
  }

  /** The printed contained objects come out in order, one per object. */
  lemma {:induction false} PrintChildrenInOrder(o: ObjConfig, i: nat, done: seq<JMap>, reader: map<string, string>,
                                                bundle: string -> Result<string>)
    requires i <= |o.subObj|
    ensures var r := PrintChildren(o, i, done, reader, bundle);
      r.Ok? ==>
        |done| <= |r.value| && r.value[..|done|] == done && AllPrint(o.subObj[i..], reader, bundle, r.value[|done|..])
    decreases |o.subObj| - i
  {
    if i == |o.subObj| {
      assert o.subObj[i..] == [] && done[|done|..] == [];
    } else if PrintSpec(o.subObj[i], reader, bundle).Ok? {
      var p := PrintSpec(o.subObj[i], reader, bundle).value;
      var d1 := done + [p];
      assert PrintChildren(o, i, done, reader, bundle) == PrintChildren(o, i + 1, d1, reader, bundle);
      PrintChildrenInOrder(o, i + 1, d1, reader, bundle);
      var r := PrintChildren(o, i + 1, d1, reader, bundle);
      if r.Ok? {
        var v := r.value;
        SnocPrefix(v, done, p);
        AllPrintCons(o.subObj[i], p, o.subObj[i + 1..], v[|d1|..], reader, bundle);
        ConsSlice(o.subObj, i);
        ConsSlice(v, |done|);
      }
    }
  }

  /**
   * `print` puts the printed contained objects back under
   * `ContainedObjects`, one per object and in order, and only when there is
   * at least one.
   */
  lemma PrintContained(o: ObjConfig, reader: map<string, string>, bundle: string -> Result<string>)
    ensures var r := PrintSpec(o, reader, bundle);
      r.Ok? ==>
        && (|o.subObj| > 0 ==>
              && "ContainedObjects" in r.value && r.value["ContainedObjects"].JObjArr?
              && |r.value["ContainedObjects"].objs| == |o.subObj|
              && forall k :: 0 <= k < |o.subObj| ==>
                   PrintsTo(o.subObj[k], reader, bundle, r.value["ContainedObjects"].objs[k]))
        && (|o.subObj| == 0 ==> r.value == OwnPrinted(o, reader, bundle).value)
  {
    PrintChildrenInOrder(o, 0, [], reader, bundle);
    assert o.subObj[0..] == o.subObj;
    var r := PrintChildren(o, 0, [], reader, bundle);
    if r.Ok? {
      assert r.value[0..] == r.value;
    }
  }

  /** An object without script files, script or contained objects prints as its data. */
  lemma PrintPlain(o: ObjConfig, reader: map<string, string>, bundle: string -> Result<string>)
    requires o.luascriptPath == "" && o.luascriptstatePath == "" && o.subObj == []
    requires !("LuaScript" in o.data && o.data["LuaScript"].JStr? && o.data["LuaScript"].s != "")
    ensures PrintSpec(o, reader, bundle) == Ok(o.data)
  {
  }

  /** A script file that cannot be read makes printing fail. */
  lemma MissingScriptFileFails(o: ObjConfig, reader: map<string, string>, bundle: string -> Result<string>)
    requires o.luascriptPath != "" && o.luascriptPath !in reader
    ensures PrintSpec(o, reader, bundle).Err?
  {
  }

  // ---------------------------------------------------------------------
  // printToFile
  // ---------------------------------------------------------------------

  /** `b` has every file and directory of `a`. */
  predicate Grows(a: Disk, b: Disk)
  {
    a.lua.Keys <= b.lua.Keys && a.json.Keys <= b.json.Keys && a.dirs <= b.dirs
  }

  /** Writing an object and its contents only ever adds files and directories. */
  lemma {:induction false} PrintToFileGrows(o: ObjConfig, filepath: string, disk: Disk, rootname: string)
    ensures var r := PrintToFileSpec(o, filepath, disk, rootname);
      r.Ok? ==> Grows(disk, r.value.disk)
    decreases o, 1
  {
    var s1 := ScriptStep(o, filepath, disk.lua, rootname);
    if s1.Ok? && |o.subObj| > 0 {
      var (data2, lua2) := StateStep(o.(data := s1.value.data), filepath, s1.value.lua);
      var sub := GoodFileName(o.(data := data2));
      var dir := JoinPath(filepath, sub);
      ChildrenToFileGrows(o, 0, dir, disk.(lua := lua2, dirs := disk.dirs + {dir}), s1.value.rootname);
    }
  }

  lemma {:induction false} ChildrenToFileGrows(o: ObjConfig, i: nat, dir: string, disk: Disk, rootname: string)
    requires i <= |o.subObj|
    ensures var r := ChildrenToFile(o, i, dir, disk, rootname);
      r.Ok? ==> Grows(disk, r.value.disk)
    decreases o, 0, |o.subObj| - i
  {
    if i < |o.subObj| {
      PrintToFileGrows(o.subObj[i], dir, disk, rootname);
      var p := PrintToFileSpec(o.subObj[i], dir, disk, rootname);
      if p.Ok? {
        ChildrenToFileGrows(o, i + 1, dir, p.value.disk, p.value.rootname);
      }
    }
  }

  /**
   * An object with contained objects gets a sub-directory named after it,
   * its JSON file records that directory under `ContainedObjects_path`, and
   * the file's own name is made once the directory is known.
   */
  lemma PrintToFileSubDir(o: ObjConfig, filepath: string, disk: Disk, rootname: string)
    requires |o.subObj| > 0
    ensures var r := PrintToFileSpec(o, filepath, disk, rootname);
      r.Ok? ==>
        var file := JoinPath(filepath, r.value.name + JsonExt);
        && file in r.value.disk.json
        && "ContainedObjects_path" in r.value.disk.json[file]
        && r.value.disk.json[file]["ContainedObjects_path"].JStr?
        && var sub := r.value.disk.json[file]["ContainedObjects_path"].s;
           && JoinPath(filepath, sub) in r.value.disk.dirs
           && EndsWith(r.value.name, if sub != "" then sub else o.guid)
  {
    var s1 := ScriptStep(o, filepath, disk.lua, rootname);
    if s1.Ok? {
      var (data2, lua2) := StateStep(o.(data := s1.value.data), filepath, s1.value.lua);
      var sub := GoodFileName(o.(data := data2));
      var dir := JoinPath(filepath, sub);
      var d := disk.(lua := lua2, dirs := disk.dirs + {dir});
      ChildrenToFileGrows(o, 0, dir, d, s1.value.rootname);
    }
  }

  /**
   * Round trip of a long script: the JSON file written for an object
   * without contained objects reads back as an object whose script path
   * names the file that holds the unbundled script.
   */
  lemma ScriptFileRoundTrip(o: ObjConfig, filepath: string, disk: Disk, rootname: string)
    requires o.subObj == [] && "GUID" in o.data && o.data["GUID"].JStr?
    requires "LuaScript" in o.data && o.data["LuaScript"].JStr?
    requires var u := LuaBundler.UnbundleSpec(o.data["LuaScript"].s, rootname);
      u.Ok? && Utf8Len(u.value) > ScriptLimit
    ensures var r := PrintToFileSpec(o, filepath, disk, rootname);
      && r.Ok?
      && var file := JoinPath(filepath, r.value.name + JsonExt);
         && ParseFromFile(file, r.value.disk.json).Ok?
         && var back := ParseFromFile(file, r.value.disk.json).value;
            && back.guid == o.data["GUID"].s
            && back.luascriptPath in r.value.disk.lua
            && r.value.disk.lua[back.luascriptPath]
               == LuaBundler.UnbundleSpec(o.data["LuaScript"].s, rootname).value
            && "LuaScript" !in back.data
  {
    var raw := o.data["LuaScript"].s;
    var script := LuaBundler.UnbundleSpec(raw, rootname).value;
    var file := JoinPath(filepath, GoodFileName(o) + LuaBundler.LuaExt);
    ScriptStepEffect(o, filepath, disk.lua, rootname);
    var s1 := ScriptStep(o, filepath, disk.lua, rootname).value;
    var o1 := o.(data := s1.data);
    StateStepEffect(o1, filepath, s1.lua);
    var (data2, lua2) := StateStep(o1, filepath, s1.lua);
    var file2 := JoinPath(filepath, GoodFileName(o1) + StateExt);
    LastOfJoin(filepath, GoodFileName(o) + LuaBundler.LuaExt);
    LastOfJoin(filepath, GoodFileName(o1) + StateExt);
    assert file != file2;
    assert lua2[file] == script;
    assert "LuaScript" !in data2 && data2["LuaScript_path"] == JStr(file);
    assert data2["GUID"] == o.data["GUID"];
    var r := PrintToFileSpec(o, filepath, disk, rootname).value;
    assert r.disk.lua == lua2;
    assert r.disk.json[JoinPath(filepath, r.name + JsonExt)] == data2;
    WithPathsEffect(o.data["GUID"].s, data2);
  }

  /** A path joined onto a non-empty name ends with the name's last character. */
  lemma LastOfJoin(dir: string, name: string)
    requires name != ""
    ensures var p := JoinPath(dir, name); |p| > 0 && p[|p| - 1] == name[|name| - 1]
  {
  }

  // ---------------------------------------------------------------------
  // Reading a directory tree
  // ---------------------------------------------------------------------

  /** The `.json` names of `files`, in order. */
  function JsonFiles(files: seq<string>): (r: seq<string>)
    ensures forall k :: 0 <= k < |r| ==> EndsWith(r[k], JsonExt)
  {
    if files == [] then []
    else (if EndsWith(files[0], JsonExt) then [files[0]] else []) + JsonFiles(files[1..])
  }

  lemma {:induction false} ParseFilesShift(x: string, files: seq<string>, i: nat, jreader: map<string, JMap>,
                                           acc: Parsed, whose: map<string, nat>)
    requires i <= |files| && ClaimsIn(whose, acc.objs)
    ensures ParseFiles([x] + files, i + 1, jreader, acc, whose) == ParseFiles(files, i, jreader, acc, whose)
    decreases |files| - i
  {
    var xs := [x] + files;
    if i < |files| {
      assert xs[i + 1] == files[i];
      if EndsWith(files[i], JsonExt) && ParseFromFile(files[i], jreader).Ok? {
        var o := ParseFromFile(files[i], jreader).value;
        var whose' := if o.subObjDir != "" then whose[o.subObjDir := |acc.objs|] else whose;
        ParseFilesShift(x, files, i + 1, jreader, AddObj(acc, o, files[i]), whose');
      } else if !EndsWith(files[i], JsonExt) {
        ParseFilesShift(x, files, i + 1, jreader, acc, whose);
      }
    }
  }

  /** Reading a directory ignores every file that is not a `.json` file. */
  lemma {:induction false} ParseFilesJsonOnly(files: seq<string>, i: nat, jreader: map<string, JMap>,
                                              acc: Parsed, whose: map<string, nat>)
    requires i <= |files| && ClaimsIn(whose, acc.objs)
    ensures ParseFiles(files, i, jreader, acc, whose) == ParseFiles(JsonFiles(files[i..]), 0, jreader, acc, whose)
    decreases |files| - i
  {
    if i < |files| {
      var rest := JsonFiles(files[i + 1..]);
      assert files[i..][1..] == files[i + 1..];
      assert files[i..][0] == files[i];
      if EndsWith(files[i], JsonExt) {
        var xs := [files[i]] + rest;
        assert JsonFiles(files[i..]) == xs;
        assert xs[0] == files[i];
        if ParseFromFile(files[i], jreader).Ok? {
          var o := ParseFromFile(files[i], jreader).value;
          var whose' := if o.subObjDir != "" then whose[o.subObjDir := |acc.objs|] else whose;
          var acc' := AddObj(acc, o, files[i]);
          assert ParseFiles(files, i, jreader, acc, whose) == ParseFiles(files, i + 1, jreader, acc', whose');
          assert ParseFiles(xs, 0, jreader, acc, whose) == ParseFiles(xs, 1, jreader, acc', whose');
          ParseFilesJsonOnly(files, i + 1, jreader, acc', whose');
          ParseFilesShift(files[i], rest, 0, jreader, acc', whose');
        }
      } else {
        assert JsonFiles(files[i..]) == rest;
        ParseFilesJsonOnly(files, i + 1, jreader, acc, whose);
      }
    }
  }

  /** No `.json` file from `files[i..]` reads as an object that claims directory `name`. */
  predicate NoClaim(files: seq<string>, i: nat, jreader: map<string, JMap>, name: string)
    requires i <= |files|
  {
    forall j :: i <= j < |files| && EndsWith(files[j], JsonExt) && ParseFromFile(files[j], jreader).Ok? ==>
      ParseFromFile(files[j], jreader).value.subObjDir != name
  }

  /** A directory no object claims is not in the claims of the files read. */
  lemma {:induction false} UnclaimedStaysUnclaimed(files: seq<string>, i: nat, jreader: map<string, JMap>,
                                                   acc: Parsed, whose: map<string, nat>, name: string)
    requires i <= |files| && ClaimsIn(whose, acc.objs)
    requires name !in whose && NoClaim(files, i, jreader, name)
    ensures var r := ParseFiles(files, i, jreader, acc, whose);
      r.Ok? ==> name !in r.value.1
    decreases |files| - i
  {
    if i < |files| {
      if EndsWith(files[i], JsonExt) && ParseFromFile(files[i], jreader).Ok? {
        var o := ParseFromFile(files[i], jreader).value;
        var whose' := if o.subObjDir != "" then whose[o.subObjDir := |acc.objs|] else whose;
        UnclaimedStaysUnclaimed(files, i + 1, jreader, AddObj(acc, o, files[i]), whose', name);
      } else {
        UnclaimedStaysUnclaimed(files, i + 1, jreader, acc, whose, name);
      }
    }
  }

  lemma {:induction false} UnclaimedFolderFailsFrom(folders: seq<string>, i: nat, k: nat,
                                                    explorer: map<string, Listing>, jreader: map<string, JMap>,
                                                    acc: Parsed, whose: map<string, nat>, fuel: nat)
    requires i <= k < |folders| && ClaimsIn(whose, acc.objs)
    requires Base(folders[k]) !in whose
    ensures ParseFolders(folders, i, explorer, jreader, acc, whose, fuel).Err?
    decreases |folders| - i
  {
    if i < k && Base(folders[i]) in whose && fuel > 0 {
      var sub := ParseFolder(folders[i], explorer, jreader, acc.all, fuel - 1);
      if sub.Ok? {
        var idx := whose[Base(folders[i])];
        var owner := acc.objs[idx];
        var objs := acc.objs[idx := owner.(subObj := owner.subObj + sub.value.objs)];
        UnclaimedFolderFailsFrom(folders, i + 1, k, explorer, jreader, Parsed(objs, sub.value.all), whose, fuel);
      }
    }
  }

  /** A sub-directory that no object of its directory claims makes reading fail. */
  lemma UnclaimedFolderFails(relpath: string, explorer: map<string, Listing>, jreader: map<string, JMap>,
                             all: map<string, string>, fuel: nat, k: nat)
    requires relpath in explorer && k < |explorer[relpath].folders|
    requires NoClaim(explorer[relpath].files, 0, jreader, Base(explorer[relpath].folders[k]))
    ensures ParseFolder(relpath, explorer, jreader, all, fuel).Err?
  {
    var listing := explorer[relpath];
    UnclaimedStaysUnclaimed(listing.files, 0, jreader, Parsed([], all), map[], Base(listing.folders[k]));
    var r := ParseFiles(listing.files, 0, jreader, Parsed([], all), map[]);
    if r.Ok? {
      UnclaimedFolderFailsFrom(listing.folders, 0, k, explorer, jreader, r.value.0, r.value.1, fuel);
    }
  }

  /** `b` registers every GUID `a` does, for the same file. */
  predicate KeepsFirst(a: map<string, string>, b: map<string, string>)
  {
    forall g :: g in a ==> g in b && b[g] == a[g]
  }

  /** Reading files never re-registers a GUID already met. */
  lemma {:induction false} ParseFilesKeepsFirst(files: seq<string>, i: nat, jreader: map<string, JMap>,
                                                acc: Parsed, whose: map<string, nat>)
    requires i <= |files| && ClaimsIn(whose, acc.objs)
    ensures var r := ParseFiles(files, i, jreader, acc, whose);
      r.Ok? ==> KeepsFirst(acc.all, r.value.0.all)
    decreases |files| - i
  {
    if i < |files| {
      if EndsWith(files[i], JsonExt) && ParseFromFile(files[i], jreader).Ok? {
        var o := ParseFromFile(files[i], jreader).value;
        var whose' := if o.subObjDir != "" then whose[o.subObjDir := |acc.objs|] else whose;
        ParseFilesKeepsFirst(files, i + 1, jreader, AddObj(acc, o, files[i]), whose');
      } else {
        ParseFilesKeepsFirst(files, i + 1, jreader, acc, whose);
      }
    }
  }

  /**
   * Reading a directory tree never re-registers a GUID: the file first met
   * with a GUID stays the one recorded for it, across every directory.
   */
  lemma {:induction false} ParseFolderKeepsFirst(relpath: string, explorer: map<string, Listing>,
                                                 jreader: map<string, JMap>, all: map<string, string>, fuel: nat)
    ensures var r := ParseFolder(relpath, explorer, jreader, all, fuel);
      r.Ok? ==> KeepsFirst(all, r.value.all)
    decreases fuel, 1, 0
  {
    if relpath in explorer {
      var listing := explorer[relpath];
      ParseFilesKeepsFirst(listing.files, 0, jreader, Parsed([], all), map[]);
      var r := ParseFiles(listing.files, 0, jreader, Parsed([], all), map[]);
      if r.Ok? {
        ParseFoldersKeepsFirst(listing.folders, 0, explorer, jreader, r.value.0, r.value.1, fuel);
      }
    }
  }

  lemma {:induction false} ParseFoldersKeepsFirst(folders: seq<string>, i: nat, explorer: map<string, Listing>,
                                                  jreader: map<string, JMap>, acc: Parsed,
                                                  whose: map<string, nat>, fuel: nat)
    requires i <= |folders| && ClaimsIn(whose, acc.objs)
    ensures var r := ParseFolders(folders, i, explorer, jreader, acc, whose, fuel);
      r.Ok? ==> KeepsFirst(acc.all, r.value.all)
    decreases fuel, 0, |folders| - i
  {
    if i < |folders| && Base(folders[i]) in whose && fuel > 0 {
      ParseFolderKeepsFirst(folders[i], explorer, jreader, acc.all, fuel - 1);
      var sub := ParseFolder(folders[i], explorer, jreader, acc.all, fuel - 1);
      if sub.Ok? {
        var idx := whose[Base(folders[i])];
        var owner := acc.objs[idx];
        var objs := acc.objs[idx := owner.(subObj := owner.subObj + sub.value.objs)];
        ParseFoldersKeepsFirst(folders, i + 1, explorer, jreader, Parsed(objs, sub.value.all), whose, fuel);
      }
    }
  }

  /** The last element of a path built by joining a plain name is that name. */
  lemma BaseOfJoin(dir: string, name: string)
    requires name != "" && '/' !in name
    ensures Base(JoinPath(dir, name)) == name
  {
    var p := JoinPath(dir, name);
    assert p[|p| - |name|..] == name;
    assert TrimSlashes(p) == p;
    AfterLastSlashOf(p, name);
  }

  lemma {:induction false} AfterLastSlashOf(p: string, name: string)
    requires |name| <= |p| && p[|p| - |name|..] == name && '/' !in name
    requires |name| < |p| ==> p[|p| - |name| - 1] == '/'
    ensures AfterLastSlash(p) == name
    decreases |name|
  {
    if name != [] {
      ShorterPath(p, name);
      AfterLastSlashOf(p[..|p| - 1], name[..|name| - 1]);
      AfterLastSlashSnoc(p);
      assert name == name[..|name| - 1] + [p[|p| - 1]];
    }
  }

  /** Dropping the last character of both keeps `name` the tail of `p` after a slash. */
  lemma ShorterPath(p: string, name: string)
    requires |name| <= |p| && p[|p| - |name|..] == name && '/' !in name && name != []
    requires |name| < |p| ==> p[|p| - |name| - 1] == '/'
    ensures var p', name' := p[..|p| - 1], name[..|name| - 1];
      && |name'| <= |p'| && p'[|p'| - |name'|..] == name' && '/' !in name'
      && (|name'| < |p'| ==> p'[|p'| - |name'| - 1] == '/')
      && p[|p| - 1] == name[|name| - 1] && p[|p| - 1] != '/'
  {
    var p', name' := p[..|p| - 1], name[..|name| - 1];
    assert name[|name| - 1] in name;
    assert forall x :: x in name' ==> x in name;
    assert p[|p| - |name|..][..|name'|] == name';
  }

  /** A last character other than `/` belongs to the last element. */
  lemma AfterLastSlashSnoc(p: string)
    requires p != [] && p[|p| - 1] != '/'
    ensures AfterLastSlash(p) == AfterLastSlash(p[..|p| - 1]) + [p[|p| - 1]]
  {
  }

  // ---------------------------------------------------------------------
  // db.print and PrintObjectStates
  // ---------------------------------------------------------------------

  /** `db.print` keeps the top-level objects in the order they were read. */
  lemma {:induction false} PrintRootsInOrder(roots: seq<ObjConfig>, i: nat, done: seq<JMap>,
                                             reader: map<string, string>, bundle: string -> Result<string>)
    requires i <= |roots|
    ensures var r := PrintRoots(roots, i, done, reader, bundle);
      r.Ok? ==>
        |done| <= |r.value| && r.value[..|done|] == done && AllPrint(roots[i..], reader, bundle, r.value[|done|..])
    decreases |roots| - i
  {
    if i == |roots| {
      assert roots[i..] == [] && done[|done|..] == [];
    } else if PrintSpec(roots[i], reader, bundle).Ok? {
      var p := PrintSpec(roots[i], reader, bundle).value;
      var d1 := done + [p];
      assert PrintRoots(roots, i, done, reader, bundle) == PrintRoots(roots, i + 1, d1, reader, bundle);
      PrintRootsInOrder(roots, i + 1, d1, reader, bundle);
      var r := PrintRoots(roots, i + 1, d1, reader, bundle);
      if r.Ok? {
        var v := r.value;
        SnocPrefix(v, done, p);
        AllPrintCons(roots[i], p, roots[i + 1..], v[|d1|..], reader, bundle);
        ConsSlice(roots, i);
        ConsSlice(v, |done|);
      }
    }
  }
}
