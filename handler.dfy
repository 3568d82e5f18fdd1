/**
 * The script handler (handler/bundlehandler.go).
 *
 * A handler knows one externalisable key of a JSON object (`LuaScript` or
 * `XmlUI`), the key that names its file instead (`…_path`), the extension
 * of the module files, and the bundler that goes with it. Reading, it takes
 * the inline value or else the named file, bundles it, and says which key
 * to set. Writing, it unbundles the value, keeps a short root inline or
 * writes a long one to a file, and writes every other module to the source
 * writer.
 *
 * The `bundle`/`unbundle` function fields become the `kind` of the handler.
 * The reader and the writers are maps from file name to contents; a missing
 * source writer is `None`. Writes never fail. The package variable
 * `Rootname` is a parameter and, where the Lua unbundler changes it, a
 * result. Go visits the modules to write in an unspecified map order; here
 * they are visited in an arbitrary order too.
 */
module Handler {
  import opened Json
  import opened Text
  import LuaBundler
  import XmlBundler

  /** The two bundlers a handler can use. */
  datatype Kind = Lua | Xml

  /** A `Handler` without its collaborators. */
  datatype Handler = Handler(kind: Kind, key: string, keypath: string, extension: string)

  /** `NewLuaHandler()`. */
  const LuaHandler: Handler := Handler(Lua, "LuaScript", "LuaScript_path", ".ttslua")

  /** `NewXMLHandler()`. */
  const XmlHandler: Handler := Handler(Xml, "XmlUI", "XmlUI_path", ".xml")

  /** A `HandleAction`: nothing to do, or set `key` to `value`. */
  datatype Action = Action(noop: bool, key: string, value: string)

  const NoopAction: Action := Action(true, "", "")

  /** The length above which a root script goes to a file of its own. */
  const InlineLimit: nat := 80

  /** The handler's bundler applied to `raw`. */
  ghost function BundleWith(h: Handler, raw: string, reader: map<string, string>, rootname: string, fuel: nat)
    : Result<string>
  {
    if h.kind == Lua then LuaBundler.BundleSpec(raw, reader, rootname, fuel)
    else XmlBundler.BundleXMLSpec(raw, reader, fuel)
  }

  /** The script `WhileReadingFromFile` bundles, or the error it stops with before bundling. */
  function ScriptSource(h: Handler, rawj: JMap, reader: map<string, string>): Result<string>
  {
    if h.keypath in rawj && !rawj[h.keypath].JStr? then
      Err("Expected " + h.keypath + " to be type string")
    else if h.keypath in rawj && rawj[h.keypath].s !in reader then
      Err("l.EncodeFromFile(" + rawj[h.keypath].s + ") : file not found")
    else if h.key in rawj && !rawj[h.key].JStr? then
      Err("Expected " + h.key + " to be type string")
    else if h.key in rawj then Ok(rawj[h.key].s)
    else if h.keypath in rawj then Ok(reader[rawj[h.keypath].s])
    else Ok("")
  }

  /** What `WhileReadingFromFile(rawj)` returns. */
  ghost function ReadingSpec(h: Handler, rawj: JMap, reader: map<string, string>, rootname: string, fuel: nat)
    : Result<Action>
  {
    match ScriptSource(h, rawj, reader)
    case Err(e) => Err(e)
    case Ok(raw) =>
      match BundleWith(h, raw, reader, rootname, fuel)
      case Err(e) => Err("Bundle(" + raw + "): " + e)
      case Ok(bundled) => if bundled == "" then Ok(NoopAction) else Ok(Action(false, h.key, bundled))
  }

  /** The handler's bundler, run. */
  method RunBundle(h: Handler, raw: string, reader: map<string, string>, rootname: string, fuel: nat)
    returns (r: Result<string>)
    ensures r == BundleWith(h, raw, reader, rootname, fuel)
  {
    if h.kind == Lua {
      r := LuaBundler.Bundle(raw, reader, rootname, fuel);
    } else {
      r := XmlBundler.BundleXML(raw, reader, fuel);
    }
  }

  /**
   * `WhileReadingFromFile`: the named file is read first, then an inline
   * value takes its place; the result is bundled, and an empty bundle is
   * nothing to do.
   */
  method WhileReadingFromFile(h: Handler, rawj: JMap, reader: map<string, string>, rootname: string, fuel: nat)
    returns (r: Result<Action>)
    ensures r == ReadingSpec(h, rawj, reader, rootname, fuel)
    ensures h.keypath in rawj && !rawj[h.keypath].JStr? ==> r.Err?
    ensures h.key in rawj && !rawj[h.key].JStr? ==> r.Err?
    ensures r.Ok? && h.key in rawj ==>
      && BundleWith(h, rawj[h.key].s, reader, rootname, fuel).Ok?
      && (r.value.noop <==> BundleWith(h, rawj[h.key].s, reader, rootname, fuel).value == "")
      && (!r.value.noop ==> r.value == Action(false, h.key, BundleWith(h, rawj[h.key].s, reader, rootname, fuel).value))
    ensures r.Ok? && h.key !in rawj && h.keypath in rawj ==>
      && rawj[h.keypath].s in reader
      && BundleWith(h, reader[rawj[h.keypath].s], reader, rootname, fuel).Ok?
      && (r.value.noop <==> BundleWith(h, reader[rawj[h.keypath].s], reader, rootname, fuel).value == "")
  {
    var rawscript := "";
    if h.keypath in rawj {
      var spraw := rawj[h.keypath];
      if !spraw.JStr? {
        return Err("Expected " + h.keypath + " to be type string");
      }
      if spraw.s !in reader {
        return Err("l.EncodeFromFile(" + spraw.s + ") : file not found");
      }
      rawscript := reader[spraw.s];
    }
    if h.key in rawj {
      var sraw := rawj[h.key];
      if !sraw.JStr? {
        return Err("Expected " + h.key + " to be type string");
      }
      rawscript := sraw.s;
    }
    var bundled := RunBundle(h, rawscript, reader, rootname, fuel);
    if bundled.Err? {
      return Err("Bundle(" + rawscript + "): " + bundled.msg);
    }
    if bundled.value == "" {
      return Ok(NoopAction);
    }
    return Ok(Action(false, h.key, bundled.value));
  }

  // ---------------------------------------------------------------------
  // WhileWritingToFile
  // ---------------------------------------------------------------------

  /** The handler's unbundler applied to `script`, with the root name it leaves behind. */
  function UnbundleWith(h: Handler, script: string, rootname: string): (Result<map<string, string>>, string)
  {
    if h.kind == Lua then
      (LuaBundler.UnbundleAllSpec(script, rootname), LuaBundler.NewRootname(script, rootname))
    else (XmlBundler.UnbundleAllXMLSpec(script, rootname), rootname)
  }

  /** The handler's unbundler, run. */
  method RunUnbundle(h: Handler, script: string, rootname: string)
    returns (r: Result<map<string, string>>, rootname': string)
    ensures (r, rootname') == UnbundleWith(h, script, rootname)
    ensures r.Ok? ==> rootname' in r.value
  {
    if h.kind == Lua {
      r, rootname' := LuaBundler.UnbundleAll(script, rootname);
    } else {
      r := XmlBundler.UnbundleAllXML(script, rootname);
      rootname' := rootname;
    }
  }

  /** The file a module is written to: its name, with the extension added unless it already ends in it. */
  function SrcFileName(h: Handler, k: string): (f: string)
    ensures EndsWith(f, h.extension)
    ensures EndsWith(k, h.extension) ==> f == k
    ensures !EndsWith(k, h.extension) ==> f == k + h.extension
  {
    if EndsWith(k, h.extension) then k
    else
      assert (k + h.extension)[|k + h.extension| - |h.extension|..] == h.extension;
      k + h.extension
  }

  /** `f` holds the text of one of the modules of `mods` that is written to `f`. */
  ghost predicate WrittenFrom(h: Handler, mods: map<string, string>, src: map<string, string>, f: string)
  {
    f in src && exists k :: k in mods && SrcFileName(h, k) == f && src[f] == mods[k]
  }

  /**
   * The loop of `WhileWritingToFile` over the modules other than the root:
   * each is written to its file name, in whatever order the map yields.
   */
  method WriteModules(h: Handler, mods: map<string, string>, src: map<string, string>)
    returns (src': map<string, string>)
    ensures forall k :: k in mods ==> WrittenFrom(h, mods, src', SrcFileName(h, k))
    ensures forall f :: f in src && (forall k :: k in mods ==> SrcFileName(h, k) != f) ==> f in src' && src'[f] == src[f]
    ensures forall f :: f in src' ==> f in src || exists k :: k in mods && SrcFileName(h, k) == f
  {
    src' := src;
    var rest := mods.Keys;
    while rest != {}
      invariant rest <= mods.Keys
      invariant forall k :: k in mods && k !in rest ==> WrittenFrom(h, mods, src', SrcFileName(h, k))
      invariant forall f :: f in src && (forall k :: k in mods ==> SrcFileName(h, k) != f) ==> f in src' && src'[f] == src[f]
      invariant forall f :: f in src' ==> f in src || exists k :: k in mods && SrcFileName(h, k) == f
      decreases |rest|
    {
      var k :| k in rest;
      var fname := SrcFileName(h, k);
      src' := src'[fname := mods[k]];
      rest := rest - {k};
      forall k2 | k2 in mods && k2 !in rest
        ensures WrittenFrom(h, mods, src', SrcFileName(h, k2))
      {
        if SrcFileName(h, k2) == fname {
          assert SrcFileName(h, k) == SrcFileName(h, k2) && src'[fname] == mods[k];
        }
      }
    }
  }

  /** When no two modules share a file name, each file holds exactly its module. */
  lemma WrittenExactly(h: Handler, mods: map<string, string>, src: map<string, string>)
    requires forall k1, k2 :: k1 in mods && k2 in mods && SrcFileName(h, k1) == SrcFileName(h, k2) ==> k1 == k2
    requires forall k :: k in mods ==> WrittenFrom(h, mods, src, SrcFileName(h, k))
    ensures forall k :: k in mods ==> SrcFileName(h, k) in src && src[SrcFileName(h, k)] == mods[k]
  {
    forall k | k in mods ensures SrcFileName(h, k) in src && src[SrcFileName(h, k)] == mods[k] {
      assert WrittenFrom(h, mods, src, SrcFileName(h, k));
      var k' :| k' in mods && SrcFileName(h, k') == SrcFileName(h, k) && src[SrcFileName(h, k)] == mods[k'];
    }
  }

  /**
   * `WhileWritingToFile`: nothing to do without the key; otherwise the value
   * is unbundled, a root over the length limit goes to `possiblefname` and
   * the action names the path key, a shorter one stays inline, and every
   * other module goes to the source writer when there is one.
   */
  method WhileWritingToFile(h: Handler, rawj: JMap, possiblefname: string, rootname: string,
                            defaultWriter: map<string, string>, srcWriter: Option<map<string, string>>)
    returns (r: Result<Action>, rootname': string,
             defaultWriter': map<string, string>, srcWriter': Option<map<string, string>>)
    ensures h.key !in rawj ==> r == Ok(NoopAction) && rootname' == rootname
    ensures h.key in rawj && !rawj[h.key].JStr? ==> r.Err? && rootname' == rootname
    ensures h.key in rawj && rawj[h.key].JStr? ==>
      && rootname' == UnbundleWith(h, rawj[h.key].s, rootname).1
      && (r.Ok? <==> UnbundleWith(h, rawj[h.key].s, rootname).0.Ok?)
    ensures r.Err? || r.value.noop ==> defaultWriter' == defaultWriter && srcWriter' == srcWriter
    ensures r.Ok? && !r.value.noop ==>
      var scripts := UnbundleWith(h, rawj[h.key].s, rootname).0.value;
      && rootname' in scripts
      && (Utf8Len(scripts[rootname']) > InlineLimit ==>
            r.value == Action(false, h.keypath, possiblefname)
            && defaultWriter' == defaultWriter[possiblefname := scripts[rootname']])
      && (Utf8Len(scripts[rootname']) <= InlineLimit ==>
            r.value == Action(false, h.key, scripts[rootname']) && defaultWriter' == defaultWriter)
      && (srcWriter.None? ==> srcWriter' == None)
      && (srcWriter.Some? ==>
            && srcWriter'.Some?
            && (forall k :: k in scripts && k != rootname' ==>
                  WrittenFrom(h, scripts - {rootname'}, srcWriter'.value, SrcFileName(h, k)))
            && (forall f :: f in srcWriter.value && (forall k :: k in scripts && k != rootname' ==> SrcFileName(h, k) != f) ==>
                  f in srcWriter'.value && srcWriter'.value[f] == srcWriter.value[f]))
  {
    rootname', defaultWriter', srcWriter' := rootname, defaultWriter, srcWriter;
    if h.key !in rawj {
      return Ok(NoopAction), rootname', defaultWriter', srcWriter';
    }
    var rawscript := rawj[h.key];
    if !rawscript.JStr? {
      return Err("Value of content at " + h.key + " expected to be string"), rootname', defaultWriter', srcWriter';
    }
    var allScripts;
    allScripts, rootname' := RunUnbundle(h, rawscript.s, rootname);
    if allScripts.Err? {
      return Err("UnbundleAll(...): " + allScripts.msg), rootname', defaultWriter', srcWriter';
    }
    var rootscript := allScripts.value[rootname'];
    var returnAction;
    if Utf8Len(rootscript) > InlineLimit {
      defaultWriter' := defaultWriter'[possiblefname := rootscript];
      returnAction := Action(false, h.keypath, possiblefname);
    } else {
      returnAction := Action(false, h.key, rootscript);
    }
    var others := allScripts.value - {rootname'};
    if srcWriter.Some? {
      var written := WriteModules(h, others, srcWriter.value);
      srcWriter' := Some(written);
    }
    return Ok(returnAction), rootname', defaultWriter', srcWriter';
  }
}
