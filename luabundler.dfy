/**
 * The Lua module bundler (bundler/luabundler.go).
 *
 * `Bundle` gathers the modules a script requires, breadth first, and writes
 * them out in the luabundle format: a fixed runtime preamble, one
 * `__bundle_register("name", function(...) ... end)` block per module in
 * ascending name order, and a trailer that runs the root module.
 * `UnbundleAll` scans such a text block by block and recovers the modules.
 *
 * The source's regular expressions are written out as scanners that follow
 * Go's leftmost-first rules: a greedy repetition tries its longest run first,
 * a lazy one its shortest, and the first start position with a match wins.
 * The package variable `Rootname` becomes a parameter (and, for
 * `UnbundleAll`, a returned value). Module files are read from a map that
 * stands for the `TextReader`; a missing file is a read error.
 */
module LuaBundler {
  import opened Json
  import opened Text

  /**
   * `metaprefix`: the luabundle 1.6.0 runtime every bundle starts with. It is
   * spelled in short pieces, none holding both `(` and `"`, so that facts about
   * its characters can be checked one piece at a time.
   */
  const MetaPrefix: string :=
    (Preamble01 + Preamble02) + (Preamble03 + Preamble04) + (Preamble05 + Preamble06)
    + (Preamble07 + Preamble08) + (Preamble09 + Preamble10) + (Preamble11 + Preamble12)
    + (Preamble13 + Preamble14) + (Preamble15 + Preamble16) + (Preamble17 + Preamble18)
    + (Preamble19 + Preamble20) + (Preamble21 + Preamble22) + (Preamble23 + Preamble24)
    + (Preamble25 + Preamble26) + (Preamble27 + Preamble28) + (Preamble29 + Preamble30)
  /** `metasuffix`: the trailer that runs the root module. */
  const MetaSuffix: string := "return " + OpenRequire + DefaultRootname + "\")"
  const FuncPrefixReplace: string := "SRC_LOCATION"
  /** `funcprefix`, the block header with a placeholder for the module name. */
  const FuncPrefix: string := OpenRegister + FuncPrefixReplace + HeaderTail
  const FuncSuffix: string := "end)"
  /** The initial value of the package variable `Rootname`. */
  const DefaultRootname: string := "__root"
  /** The extension under which a required module is read. */
  const LuaExt: string := ".ttslua"

  const RegisterWord: string := "__bundle_register"
  /** The header up to the module name. */
  const OpenRegister: string := RegisterWord + "(\""
  /** The header after the module name. */
  const HeaderTail: string := "\", function" + "(require, _LOADED, " + RegisterWord + ", __bundle_modules)"
  const RequireWord: string := "__bundle_require"
  const OpenRequire: string := RequireWord + "(\""

  // ---------------------------------------------------------------------
  // IsBundled
  // ---------------------------------------------------------------------

  /** `IsBundled`: the text mentions `__bundle_register` somewhere. */
  function IsBundled(rawlua: string): (b: bool)
    ensures b <==> Contains(rawlua, RegisterWord)
  {
    var i := IndexFrom(rawlua, RegisterWord, 0);
    assert i.Some? ==> OccursAt(rawlua, RegisterWord, i.value);
    i.Some?
  }

  // ---------------------------------------------------------------------
  // getAllReqValues: the pattern require\((\\)?"[-a-zA-Z0-9/._@]+(\\)?"\)
  // ---------------------------------------------------------------------

  predicate IsReqNameChar(c: char)
  {
    ('a' <= c <= 'z') || ('A' <= c <= 'Z') || ('0' <= c <= '9')
    || c == '-' || c == '/' || c == '.' || c == '_' || c == '@'
  }

  /** A module name as the require pattern admits it. */
  predicate IsReqName(name: string)
  {
    name != [] && forall i :: 0 <= i < |name| ==> IsReqNameChar(name[i])
  }

  /** One match of the require pattern: where it starts and ends and the name inside. */
  datatype ReqMatch = ReqMatch(start: nat, end: nat, name: string)

  /** `(\\)?"` at `q`: where the text after the quote starts. */
  function QuoteAt(t: string, q: nat): (r: Option<nat>)
    ensures r.Some? ==> q < r.value <= |t| && t[r.value - 1] == '"'
  {
    if q < |t| && t[q] == '\\' then
      if q + 1 < |t| && t[q + 1] == '"' then Some(q + 2) else None
    else if q < |t| && t[q] == '"' then Some(q + 1)
    else None
  }

  /**
   * The match of the require pattern at `p`, if any. The name class holds
   * neither a backslash nor a quote, so the greedy name run and each optional
   * backslash have exactly one way to succeed.
   */
  function ReqAt(t: string, p: nat): (r: Option<ReqMatch>)
    ensures r.Some? ==> r.value.start == p && p < r.value.end <= |t| && IsReqName(r.value.name)
  {
    if !OccursAt(t, "require(", p) then None
    else match QuoteAt(t, p + 8)
      case None => None
      case Some(ns) =>
        var ne := Span(t, ns, IsReqNameChar);
        if ne == ns then None
        else match QuoteAt(t, ne)
          case None => None
          case Some(c) =>
            if c < |t| && t[c] == ')' then Some(ReqMatch(p, c + 1, t[ns..ne])) else None
  }

  lemma QuoteAtLocal(t: string, a: nat, b: nat, q: nat)
    requires a <= q <= b <= |t|
    requires QuoteAt(t, q).Some? && QuoteAt(t, q).value <= b
    ensures QuoteAt(t[a..b], q - a) == Some(QuoteAt(t, q).value - a)
  {
    var u := t[a..b];
    assert q - a < |u| && u[q - a] == t[q];
    if t[q] == '\\' {
      assert u[q + 1 - a] == t[q + 1];
    }
  }

  /** `FindAllString`: the successive leftmost non-overlapping matches from `from` on. */
  function ReqMatchesFrom(t: string, from: nat): (r: seq<ReqMatch>)
    requires from <= |t|
    ensures forall i :: 0 <= i < |r| ==> from <= r[i].start < r[i].end <= |t|
    ensures forall i, j :: 0 <= i < j < |r| ==> r[i].end <= r[j].start
    decreases |t| - from
  {
    if from == |t| then []
    else match ReqAt(t, from)
      case Some(m) => [m] + ReqMatchesFrom(t, m.end)
      case None => ReqMatchesFrom(t, from + 1)
  }

  /** Each of `ms` is a match of the require pattern where it starts. */
  predicate AllMatch(t: string, ms: seq<ReqMatch>)
  {
    forall i :: 0 <= i < |ms| ==> IsMatchAt(t, ms, i)
  }

  /** The `i`-th of `ms` is a match of the require pattern where it starts. */
  predicate IsMatchAt(t: string, ms: seq<ReqMatch>, i: nat)
  {
    i < |ms| && ReqAt(t, ms[i].start) == Some(ms[i])
  }

  /** Every match `FindAllString` reports is a match of the pattern where it starts. */
  lemma {:induction false} ReqMatchesSound(t: string, from: nat)
    requires from <= |t|
    ensures AllMatch(t, ReqMatchesFrom(t, from))
    decreases |t| - from
  {
    if from < |t| {
      match ReqAt(t, from)
      case Some(m) =>
        ReqMatchesSound(t, m.end);
        var rest := ReqMatchesFrom(t, m.end);
        assert ReqMatchesFrom(t, from) == [m] + rest;
        forall i | 0 <= i < |rest| + 1 ensures IsMatchAt(t, [m] + rest, i) {
          if i > 0 {
            assert ([m] + rest)[i] == rest[i - 1];
            assert IsMatchAt(t, rest, i - 1);
          }
        }
      case None =>
        assert ReqMatchesFrom(t, from) == ReqMatchesFrom(t, from + 1);
        ReqMatchesSound(t, from + 1);
    }
  }

  /**
   * `FindAllString` skips no match: every position where the require pattern
   * matches lies inside a reported match. With `ReqMatchesSound` and the
   * ordering of the matches, the gaps between them hold no match at all.
   */
  lemma {:induction false} ReqMatchesComplete(t: string, from: nat, p: nat) returns (k: nat)
    requires from <= p && ReqAt(t, p).Some?
    ensures p < |t| && k < |ReqMatchesFrom(t, from)|
    ensures ReqMatchesFrom(t, from)[k].start <= p < ReqMatchesFrom(t, from)[k].end
    decreases |t| - from, 1
  {
    match ReqAt(t, from)
    case Some(m) =>
      ReqMatchesStep(t, from);
      if p < m.end {
        k := 0;
      } else {
        k := ReqMatchesCompleteAfter(t, from, m, p);
      }
    case None =>
      assert ReqAt(t, from) != ReqAt(t, p);
      k := ReqMatchesCompleteSkip(t, from, p);
  }

  /** `ReqMatchesComplete` for a position past a first match `m` that ends after `from`. */
  lemma {:induction false} ReqMatchesCompleteAfter(t: string, from: nat, m: ReqMatch, p: nat) returns (k: nat)
    requires from < m.end <= p && ReqAt(t, p).Some?
    ensures k < |[m] + ReqMatchesFrom(t, m.end)|
    ensures ([m] + ReqMatchesFrom(t, m.end))[k].start <= p < ([m] + ReqMatchesFrom(t, m.end))[k].end
    decreases |t| - from, 0
  {
    var j := ReqMatchesComplete(t, m.end, p);
    k := j + 1;
    assert ([m] + ReqMatchesFrom(t, m.end))[k] == ReqMatchesFrom(t, m.end)[j];
  }

  /** `ReqMatchesComplete` when the scan stands where the pattern does not match. */
  lemma {:induction false} ReqMatchesCompleteSkip(t: string, from: nat, p: nat) returns (k: nat)
    requires from < p && ReqAt(t, from).None? && ReqAt(t, p).Some?
    ensures k < |ReqMatchesFrom(t, from)|
    ensures ReqMatchesFrom(t, from)[k].start <= p < ReqMatchesFrom(t, from)[k].end
    decreases |t| - from, 0
  {
    ReqMatchesStep(t, from);
    k := ReqMatchesComplete(t, from + 1, p);
  }

  /** One step of `FindAllString`: a match where the scan stands, or a move by one. */
  lemma ReqMatchesStep(t: string, from: nat)
    requires from < |t|
    ensures ReqAt(t, from).Some? ==>
      ReqMatchesFrom(t, from) == [ReqAt(t, from).value] + ReqMatchesFrom(t, ReqAt(t, from).value.end)
    ensures ReqAt(t, from).None? ==> ReqMatchesFrom(t, from) == ReqMatchesFrom(t, from + 1)
  {
  }

  /** `getAllReqValues` reports nothing exactly when the require pattern matches nowhere. */
  lemma NoReqNames(lua: string)
    ensures ReqNames(lua) == [] <==> forall p: nat :: ReqAt(lua, p).None?
  {
    var ms := ReqMatchesFrom(lua, 0);
    if ms != [] {
      ReqMatchesSound(lua, 0);
      assert IsMatchAt(lua, ms, 0);
    }
    if p: nat :| ReqAt(lua, p).Some? {
      var k := ReqMatchesComplete(lua, 0, p);
    }
  }

  /** Every name `getAllReqValues` reports is a valid module name. */
  lemma ReqNamesValid(lua: string, ms: seq<ReqMatch>)
    requires ms == ReqMatchesFrom(lua, 0)
    ensures forall i :: 0 <= i < |ms| ==> IsReqName(Names(ms)[i])
  {
    ReqMatchesSound(lua, 0);
    forall i | 0 <= i < |ms| ensures IsReqName(Names(ms)[i]) {
      assert IsMatchAt(lua, ms, i);
    }
  }

  function Names(ms: seq<ReqMatch>): (r: seq<string>)
    ensures |r| == |ms|
    ensures forall i :: 0 <= i < |ms| ==> r[i] == ms[i].name
  {
    if ms == [] then [] else [ms[0].name] + Names(ms[1..])
  }

  /** The names `getAllReqValues` reports for `lua`, in textual order. */
  function ReqNames(lua: string): (r: seq<string>)
    ensures forall i :: 0 <= i < |r| ==> IsReqName(r[i])
  {
    var ms := ReqMatchesFrom(lua, 0);
    ReqNamesValid(lua, ms);
    Names(ms)
  }

  lemma SpanLocal(t: string, a: nat, b: nat, i: nat, p: char -> bool)
    requires a <= i <= b <= |t|
    requires Span(t, i, p) < b
    ensures Span(t[a..b], i - a, p) == Span(t, i, p) - a
    decreases b - i
  {
    if i < b && p(t[i]) {
      SpanLocal(t, a, b, i + 1, p);
    }
  }

  /** The parts of a match of the require pattern at `p`. */
  lemma ReqAtParts(t: string, p: nat) returns (ns: nat, ne: nat, c: nat)
    requires ReqAt(t, p).Some?
    ensures OccursAt(t, "require(", p)
    ensures QuoteAt(t, p + 8) == Some(ns) && Span(t, ns, IsReqNameChar) == ne && ne != ns
    ensures QuoteAt(t, ne) == Some(c) && c < |t| && t[c] == ')'
    ensures ReqAt(t, p) == Some(ReqMatch(p, c + 1, t[ns..ne]))
  {
    ns := QuoteAt(t, p + 8).value;
    ne := Span(t, ns, IsReqNameChar);
    c := QuoteAt(t, ne).value;
  }

  /** A match of the require pattern at `p` assembled from its parts. */
  lemma ReqAtFromParts(t: string, p: nat, ns: nat, ne: nat, c: nat)
    requires OccursAt(t, "require(", p)
    requires QuoteAt(t, p + 8) == Some(ns) && Span(t, ns, IsReqNameChar) == ne && ne != ns
    requires QuoteAt(t, ne) == Some(c) && c < |t| && t[c] == ')'
    ensures ReqAt(t, p) == Some(ReqMatch(p, c + 1, t[ns..ne]))
  {
  }

  lemma SliceOfSlice(t: string, a: nat, b: nat, i: nat, j: nat)
    requires a <= b <= |t| && i <= j <= b - a
    ensures t[a..b][i..j] == t[a + i..a + j]
  {
    forall k | 0 <= k < j - i
      ensures t[a..b][i..j][k] == t[a + i..a + j][k]
    {
      assert t[a..b][i..j][k] == t[a..b][i + k] == t[a + i + k];
    }
  }

  /** The opening `require(` at `p` is found at `0` in the text from `p` on. */
  lemma PrefixLocal(t: string, p: nat, e: nat)
    requires OccursAt(t, "require(", p) && p + 8 <= e <= |t|
    ensures OccursAt(t[p..e], "require(", 0)
  {
    SliceOfSlice(t, p, e, 0, 8);
    assert t[p..e][0..8] == t[p..p + 8];
  }

  /** The parts of a match at `p` are found at `0` in the matched text. */
  lemma PartsLocal(t: string, p: nat, ns: nat, ne: nat, c: nat)
    requires OccursAt(t, "require(", p)
    requires QuoteAt(t, p + 8) == Some(ns) && Span(t, ns, IsReqNameChar) == ne && ne != ns
    requires QuoteAt(t, ne) == Some(c) && c < |t| && t[c] == ')'
    ensures OccursAt(t[p..c + 1], "require(", 0)
    ensures QuoteAt(t[p..c + 1], 8) == Some(ns - p)
    ensures Span(t[p..c + 1], ns - p, IsReqNameChar) == ne - p
  {
    PrefixLocal(t, p, c + 1);
    QuoteAtLocal(t, p, c + 1, p + 8);
    SpanLocal(t, p, c + 1, ns, IsReqNameChar);
  }

  /** The closing parts of a match at `p` and its name, found in the matched text. */
  lemma PartsLocalEnd(t: string, p: nat, ns: nat, ne: nat, c: nat)
    requires OccursAt(t, "require(", p)
    requires QuoteAt(t, p + 8) == Some(ns) && Span(t, ns, IsReqNameChar) == ne && ne != ns
    requires QuoteAt(t, ne) == Some(c) && c < |t| && t[c] == ')'
    ensures QuoteAt(t[p..c + 1], ne - p) == Some(c - p)
    ensures t[p..c + 1][c - p] == ')'
    ensures t[p..c + 1][ns - p..ne - p] == t[ns..ne]
  {
    QuoteAtLocal(t, p, c + 1, ne);
    SliceOfSlice(t, p, c + 1, ns - p, ne - p);
  }

  /** Matching the second pattern on a matched text gives back the same name. */
  lemma ReqAtLocal(t: string, p: nat)
    requires ReqAt(t, p).Some?
    ensures ReqAt(t[p..ReqAt(t, p).value.end], 0).Some?
    ensures ReqAt(t[p..ReqAt(t, p).value.end], 0).value.name == ReqAt(t, p).value.name
  {
    var ns, ne, c := ReqAtParts(t, p);
    PartsLocal(t, p, ns, ne, c);
    PartsLocalEnd(t, p, ns, ne, c);
    ReqAtFromParts(t[p..c + 1], 0, ns - p, ne - p, c - p);
  }

  /** Each match found in `lua`, matched again on its own, yields its name. */
  lemma MatchAgain(lua: string, reqs: seq<ReqMatch>, i: nat)
    requires AllMatch(lua, reqs) && i < |reqs|
    ensures reqs[i].start <= reqs[i].end <= |lua|
    ensures ReqAt(lua[reqs[i].start..reqs[i].end], 0).Some?
    ensures ReqAt(lua[reqs[i].start..reqs[i].end], 0).value.name == reqs[i].name
  {
    assert IsMatchAt(lua, reqs, i);
    ReqAtLocal(lua, reqs[i].start);
  }

  /** `FindAllString` with the require pattern: the matches, each a match where it starts. */
  method FindAllReqs(lua: string) returns (reqs: seq<ReqMatch>)
    ensures AllMatch(lua, reqs) && Names(reqs) == ReqNames(lua)
  {
    reqs := ReqMatchesFrom(lua, 0);
    ReqMatchesSound(lua, 0);
  }

  /**
   * `getAllReqValues`: every match of the require pattern, and the name the
   * second pattern extracts from it, in textual order.
   */
  method GetAllReqValues(lua: string) returns (fnames: seq<string>)
    ensures fnames == ReqNames(lua)
    ensures forall i :: 0 <= i < |fnames| ==> IsReqName(fnames[i])
  {
    var reqs := FindAllReqs(lua);
    fnames := CollectNames(lua, reqs);
  }

  /** The loop of `getAllReqValues`: the name inside each match, in order. */
  method CollectNames(lua: string, reqs: seq<ReqMatch>) returns (fnames: seq<string>)
    requires AllMatch(lua, reqs)
    ensures fnames == Names(reqs)
  {
    ghost var names := Names(reqs);
    fnames := [];
    for i := 0 to |reqs|
      invariant fnames == names[..i]
    {
      var name := MatchName(lua, reqs, i);
      assert names[..i + 1] == names[..i] + [name];
      fnames := fnames + [name];
    }
    assert names[..|reqs|] == names;
  }

  /** The second pattern applied to the `i`-th matched require: its name. */
  method MatchName(lua: string, reqs: seq<ReqMatch>, i: nat) returns (name: string)
    requires AllMatch(lua, reqs) && i < |reqs|
    ensures name == Names(reqs)[i]
  {
    MatchAgain(lua, reqs, i);
    var req := lua[reqs[i].start..reqs[i].end];
    var matches := ReqAt(req, 0);
    name := matches.value.name;
  }

  // ---------------------------------------------------------------------
  // Bundle
  // ---------------------------------------------------------------------

  /** The header line of module `k`'s block. */
  function Header(k: string): (h: string)
    ensures StartsWith(h, RegisterWord)
  {
    OpenRegister + k + HeaderTail
  }

  /** The header is `funcprefix` with its placeholder replaced by the module name. */
  lemma HeaderIsReplace(k: string)
    ensures ReplaceFirst(FuncPrefix, FuncPrefixReplace, k) == Header(k)
  {
    forall j: nat | j < |OpenRegister|
      ensures !OccursAt(FuncPrefix, FuncPrefixReplace, j)
    {
      assert FuncPrefix[j] == OpenRegister[j] && OpenRegister[j] != 'S';
      NotOccursAt(FuncPrefix, FuncPrefixReplace, j);
    }
    ReplaceAt(OpenRegister, FuncPrefixReplace, HeaderTail, k);
  }

  /** `strings.Replace(funcprefix, funcprefixReplace, k, 1)`. */
  method HeaderFor(k: string) returns (h: string)
    ensures h == Header(k)
  {
    h := ReplaceFirst(FuncPrefix, FuncPrefixReplace, k);
    HeaderIsReplace(k);
  }

  /** The text written for module `k` with body `v`. */
  function Block(k: string, v: string): string
  {
    Header(k) + "\n" + v + "\n" + FuncSuffix + "\n"
  }

  /** The blocks for the keys `ks`, in that order. */
  function Blocks(ks: seq<string>, reqs: map<string, string>): string
    requires forall k :: k in ks ==> k in reqs
  {
    if ks == [] then ""
    else Blocks(ks[..|ks| - 1], reqs) + Block(ks[|ks| - 1], reqs[ks[|ks| - 1]])
  }

  /** The bundle text for a module map after `prefix`: the sorted blocks and the trailer. */
  ghost function RenderWith(prefix: string, reqs: map<string, string>): string
  {
    var ks := SortedKeys(reqs);
    prefix + "\n" + Blocks(ks, reqs) + MetaSuffix
  }

  /** The bundle text for a module map: preamble, sorted blocks, trailer. */
  ghost function Render(reqs: map<string, string>): string
  {
    RenderWith(MetaPrefix, reqs)
  }

  /** The inner loop of `Bundle`: read each name in turn as `name.ttslua`. */
  function LoadAll(reqs: map<string, string>, names: seq<string>, reader: map<string, string>)
    : (r: Result<map<string, string>>)
    ensures r.Ok? ==> reqs.Keys <= r.value.Keys
    ensures r.Ok? ==> forall n :: n in names ==> n in r.value && n + LuaExt in reader && r.value[n] == reader[n + LuaExt]
    ensures r.Ok? ==> forall k :: k in r.value && k !in names ==> k in reqs && r.value[k] == reqs[k]
    ensures r.Ok? <==> forall n :: n in names ==> n + LuaExt in reader
    decreases |names|
  {
    if names == [] then Ok(reqs)
    else if names[0] + LuaExt !in reader then Err("EncodeFromFile(" + names[0] + ") : file not found")
    else
      var r := LoadAll(reqs[names[0] := reader[names[0] + LuaExt]], names[1..], reader);
      assert forall n :: n in names ==> n == names[0] || n in names[1..];
      r
  }

  /**
   * The outer loop of `Bundle`: pop a name, read the modules its script
   * requires in sorted order, and queue them. `fuel` bounds the number of
   * names popped.
   */
  ghost function Closure(reqs: map<string, string>, todo: seq<string>, reader: map<string, string>, fuel: nat)
    : (r: Result<map<string, string>>)
    ensures r.Ok? ==> reqs.Keys <= r.value.Keys
    decreases fuel
  {
    if todo == [] then Ok(reqs)
    else if fuel == 0 then Err("require closure exceeds the step bound")
    else
      var script := if todo[0] in reqs then reqs[todo[0]] else "";
      var toLoad := Sort(ReqNames(script));
      match LoadAll(reqs, toLoad, reader)
      case Err(e) => Err(e)
      case Ok(reqs') => Closure(reqs', todo[1..] + toLoad, reader, fuel - 1)
  }

  /** What `Bundle` returns for `rawlua` when `Rootname` is `rootname`. */
  ghost function BundleSpec(rawlua: string, reader: map<string, string>, rootname: string, fuel: nat)
    : Result<string>
  {
    if IsBundled(rawlua) then Ok(rawlua)
    else
      match Closure(map[rootname := rawlua], [rootname], reader, fuel)
      case Err(e) => Err(e)
      case Ok(reqs) => if |reqs| == 1 then Ok(rawlua) else Ok(Render(reqs))
  }

  /**
   * `Bundle`. The source loops until its queue is empty; a require cycle
   * never empties it, so here at most `fuel` names are popped and running
   * out is an error.
   */
  method Bundle(rawlua: string, reader: map<string, string>, rootname: string, fuel: nat)
    returns (r: Result<string>)
    ensures r == BundleSpec(rawlua, reader, rootname, fuel)
  {
    if IsBundled(rawlua) {
      return Ok(rawlua);
    }
    var gathered := GatherRequires(rawlua, reader, rootname, fuel);
    if gathered.Err? {
      return Err(gathered.msg);
    }
    var reqs := gathered.value;
    if |reqs| == 1 {
      return Ok(rawlua);
    }
    var bundlestr := RenderBundle(reqs);
    return Ok(bundlestr);
  }

  /** The outer loop of `Bundle`, from the root script alone to every module it needs. */
  method GatherRequires(rawlua: string, reader: map<string, string>, rootname: string, fuel: nat)
    returns (r: Result<map<string, string>>)
    ensures r == Closure(map[rootname := rawlua], [rootname], reader, fuel)
  {
    var reqs := map[rootname := rawlua];
    var todo := [rootname];
    var left := fuel;
    while |todo| > 0
      invariant Closure(reqs, todo, reader, left) == Closure(map[rootname := rawlua], [rootname], reader, fuel)
      decreases left
    {
      if left == 0 {
        return Err("require closure exceeds the step bound");
      }
      var step := BundleStep(reqs, todo, reader, left);
      if step.Err? {
        return Err(step.msg);
      }
      reqs, todo := step.value.0, step.value.1;
      left := left - 1;
    }
    return Ok(reqs);
  }

  /**
   * One pass of the outer loop of `Bundle`: pop a name, read the modules its
   * script requires in sorted order, record them and queue them.
   */
  method BundleStep(reqs: map<string, string>, todo: seq<string>, reader: map<string, string>, left: nat)
    returns (r: Result<(map<string, string>, seq<string>)>)
    requires |todo| > 0 && left > 0
    ensures r.Err? ==> Closure(reqs, todo, reader, left) == Err(r.msg)
    ensures r.Ok? ==> Closure(reqs, todo, reader, left) == Closure(r.value.0, r.value.1, reader, left - 1)
  {
    var fname := todo[0];
    var rest := todo[1..];
    var scriptToInvestigate := if fname in reqs then reqs[fname] else "";
    var reqsToLoad := GetAllReqValues(scriptToInvestigate);
    reqsToLoad := Sort(reqsToLoad);
    var loaded := LoadRequires(reqs, reqsToLoad, reader);
    if loaded.Err? {
      return Err(loaded.msg);
    }
    return Ok((loaded.value, rest + reqsToLoad));
  }

  /** The inner loop of `Bundle`: read each required module in turn and record it. */
  method LoadRequires(reqs0: map<string, string>, reqsToLoad: seq<string>, reader: map<string, string>)
    returns (r: Result<map<string, string>>)
    ensures r == LoadAll(reqs0, reqsToLoad, reader)
  {
    var reqs := reqs0;
    for i := 0 to |reqsToLoad|
      invariant LoadAll(reqs, reqsToLoad[i..], reader) == LoadAll(reqs0, reqsToLoad, reader)
    {
      var req := reqsToLoad[i];
      assert reqsToLoad[i..][0] == req && reqsToLoad[i..][1..] == reqsToLoad[i + 1..];
      if req + LuaExt !in reader {
        return Err("EncodeFromFile(" + req + ") : file not found");
      }
      reqs := reqs[req := reader[req + LuaExt]];
    }
    return Ok(reqs);
  }

  /** The output half of `Bundle`: the preamble, the blocks in key order, the trailer. */
  method RenderBundle(reqs: map<string, string>) returns (bundlestr: string)
    ensures bundlestr == Render(reqs)
  {
    bundlestr := MetaPrefix + "\n";
    var sortedReqKeys := KeysInOrder(reqs);
    bundlestr := AppendBlocks(bundlestr, sortedReqKeys, reqs);
    bundlestr := bundlestr + MetaSuffix;
    RenderBy(reqs, sortedReqKeys);
  }

  /** The loop of `Bundle` that appends one block per key, in the order given. */
  method AppendBlocks(s: string, ks: seq<string>, reqs: map<string, string>) returns (bundlestr: string)
    requires forall k :: k in ks ==> k in reqs
    ensures bundlestr == s + Blocks(ks, reqs)
  {
    bundlestr := s;
    for i := 0 to |ks|
      invariant bundlestr == s + Blocks(ks[..i], reqs)
    {
      var k := ks[i];
      var v := reqs[k];
      var header := HeaderFor(k);
      AppendBlock(s, ks, reqs, i, bundlestr);
      bundlestr := bundlestr + (header + "\n");
      bundlestr := bundlestr + (v + "\n");
      bundlestr := bundlestr + (FuncSuffix + "\n");
    }
    assert ks[..|ks|] == ks;
  }

  /** The blocks for the first `i + 1` names: those for the first `i`, then one more. */
  lemma BlocksPrefix(ks: seq<string>, reqs: map<string, string>, i: nat)
    requires i < |ks| && forall k :: k in ks ==> k in reqs
    ensures Blocks(ks[..i + 1], reqs) == Blocks(ks[..i], reqs) + Block(ks[i], reqs[ks[i]])
  {
    assert ks[..i + 1][..i] == ks[..i];
  }

  /** Appending the header line, the body line and the closing line appends the next block. */
  lemma AppendBlock(s: string, ks: seq<string>, reqs: map<string, string>, i: nat, b: string)
    requires i < |ks| && forall k :: k in ks ==> k in reqs
    requires b == s + Blocks(ks[..i], reqs)
    ensures b + (Header(ks[i]) + "\n") + (reqs[ks[i]] + "\n") + (FuncSuffix + "\n") == s + Blocks(ks[..i + 1], reqs)
  {
    BlocksPrefix(ks, reqs, i);
    AppendLines(b, Header(ks[i]), reqs[ks[i]], FuncSuffix);
    Assoc(s, Blocks(ks[..i], reqs), Block(ks[i], reqs[ks[i]]));
  }

  lemma Assoc(a: string, b: string, c: string)
    ensures a + b + c == a + (b + c)
  {
  }

  /** Appending three lines one by one appends them together. */
  lemma AppendLines(s: string, a: string, b: string, c: string)
    ensures s + (a + "\n") + (b + "\n") + (c + "\n") == s + (a + "\n" + b + "\n" + c + "\n")
  {
  }

  lemma RenderBy(reqs: map<string, string>, ks: seq<string>)
    requires ks == SortedKeys(reqs)
    ensures forall k :: k in ks ==> k in reqs
    ensures Render(reqs) == MetaPrefix + "\n" + Blocks(ks, reqs) + MetaSuffix
  {
  }

  // ---------------------------------------------------------------------
  // findNextBundledScript: the block pattern
  //   __bundle_register\("(.*?)", function\(...\)[\r\n\s]+(.*?)[\r\n ]+end\)[\n\r]+(A|B)+
  // with A = return __bundle_require\("__root"\) and B = __bundle_register,
  // matched with `.` admitting newlines.
  // ---------------------------------------------------------------------

  // `[\r\n\s]` is the class `\s`: `IsSpace` of the string helpers.

  /** The class `[\r\n ]`. */
  predicate IsCrLfSp(c: char)
  {
    c == '\r' || c == '\n' || c == ' '
  }

  /** The class `[\n\r]`. */
  predicate IsCrLf(c: char)
  {
    c == '\r' || c == '\n'
  }

  /** One iteration of `(A|B)` at `p`: where it ends. */
  function GroupAt(t: string, p: nat): (r: Option<nat>)
    ensures r.Some? ==> p < r.value <= |t|
    ensures r.Some? <==> OccursAt(t, MetaSuffix, p) || OccursAt(t, RegisterWord, p)
  {
    if OccursAt(t, MetaSuffix, p) then Some(p + |MetaSuffix|)
    else if OccursAt(t, RegisterWord, p) then Some(p + |RegisterWord|)
    else None
  }

  /**
   * The greedy `(A|B)+` from `p`: it repeats while another iteration matches,
   * and the third group is the last iteration, so the result is where that
   * iteration starts.
   */
  function LastGroup(t: string, p: nat): (r: nat)
    requires GroupAt(t, p).Some?
    ensures p <= r < |t| && GroupAt(t, r).Some?
    decreases |t| - p
  {
    var q := GroupAt(t, p).value;
    if GroupAt(t, q).Some? then LastGroup(t, q) else p
  }

  /**
   * `[\r\n ]+end\)[\n\r]+(A|B)` at `e`: where the repetition starts. Neither
   * `e` nor `r` nor `_` is in the classes before them, so each greedy run
   * has one way to succeed: it is the longest run.
   */
  function BlockEndAt(t: string, e: nat): (r: Option<nat>)
    requires e <= |t|
    ensures r.Some? ==> e < r.value <= |t| && GroupAt(t, r.value).Some?
  {
    var q := Span(t, e, IsCrLfSp);
    if q == e || !OccursAt(t, FuncSuffix, q) then None
    else
      var g := Span(t, q + |FuncSuffix|, IsCrLf);
      if g == q + |FuncSuffix| || GroupAt(t, g).None? then None else Some(g)
  }

  /** The lazy body `(.*?)` from `b`: the first place the block end follows. */
  function FirstBodyEnd(t: string, b: nat): (r: Option<nat>)
    requires b <= |t|
    ensures r.Some? ==> b <= r.value <= |t| && BlockEndAt(t, r.value).Some?
    decreases |t| - b
  {
    if BlockEndAt(t, b).Some? then Some(b)
    else if b == |t| then None
    else FirstBodyEnd(t, b + 1)
  }

  /**
   * The greedy `[\r\n\s]+` after the header ending at `h`, tried with `w`
   * characters first and then fewer: the first body start from which a body
   * end is found.
   */
  function BodyStart(t: string, h: nat, w: nat): (r: Option<nat>)
    requires h + w <= |t|
    ensures r.Some? ==> h < r.value <= h + w && FirstBodyEnd(t, r.value).Some?
    decreases w
  {
    if w == 0 then None
    else if FirstBodyEnd(t, h + w).Some? then Some(h + w)
    else BodyStart(t, h, w - 1)
  }

  /** With the name ending at `n`: the body start the rest of the pattern picks. */
  function BodyAfterName(t: string, n: nat): (r: Option<nat>)
    requires n <= |t|
    ensures r.Some? ==> OccursAt(t, HeaderTail, n) && n + |HeaderTail| < r.value <= |t|
    ensures r.Some? ==> FirstBodyEnd(t, r.value).Some?
  {
    if !OccursAt(t, HeaderTail, n) then None
    else
      var h := n + |HeaderTail|;
      BodyStart(t, h, Span(t, h, IsSpace) - h)
  }

  /** The lazy name `(.*?)` from `n`: the first name end the rest accepts. */
  function NameEnd(t: string, n: nat): (r: Option<nat>)
    requires n <= |t|
    ensures r.Some? ==> n <= r.value <= |t| && BodyAfterName(t, r.value).Some?
    decreases |t| - n
  {
    if BodyAfterName(t, n).Some? then Some(n)
    else if n == |t| then None
    else NameEnd(t, n + 1)
  }

  /** The three captures `findNextBundledScript` keeps: name, body, and leftover. */
  datatype Scan = Scan(name: string, body: string, leftover: string)

  /** The match of the block pattern starting at `s`, if any. */
  function MatchAt(t: string, s: nat): (r: Option<Scan>)
    requires s <= |t|
    ensures r.Some? ==> OccursAt(t, OpenRegister, s)
    ensures r.Some? ==> |r.value.leftover| < |t| - s && r.value.leftover == t[|t| - |r.value.leftover|..]
    ensures r.Some? ==> r.value.leftover != []
  {
    if !OccursAt(t, OpenRegister, s) then None
    else match NameEnd(t, s + |OpenRegister|)
      case None => None
      case Some(n) =>
        var b := BodyAfterName(t, n).value;
        var e := FirstBodyEnd(t, b).value;
        var g := BlockEndAt(t, e).value;
        var l := LastGroup(t, g);
        Some(Scan(t[s + |OpenRegister|..n], t[b..e], t[l..]))
  }

  /** The leftmost match at or after `s`. */
  function FindFrom(t: string, s: nat): (r: Option<Scan>)
    requires s <= |t|
    ensures r.Some? ==> |r.value.leftover| < |t| - s && r.value.leftover == t[|t| - |r.value.leftover|..]
    ensures r.Some? ==> r.value.leftover != []
    decreases |t| - s
  {
    if MatchAt(t, s).Some? then MatchAt(t, s)
    else if s == |t| then None
    else FindFrom(t, s + 1)
  }

  /**
   * `findNextBundledScript`: the captures of the leftmost match, or three
   * empty strings when there is none. The leftover is a proper suffix of the
   * text, so scanning it again makes progress.
   */
  function FindNextBundledScript(rawlua: string): (r: Scan)
    ensures r.leftover != [] ==> |r.leftover| < |rawlua| && r.leftover == rawlua[|rawlua| - |r.leftover|..]
    ensures FindFrom(rawlua, 0).None? <==> r == Scan("", "", "")
  {
    match FindFrom(rawlua, 0)
    case None => Scan("", "", "")
    case Some(r) => r
  }

  // ---------------------------------------------------------------------
  // UnbundleAll and Unbundle
  // ---------------------------------------------------------------------

  predicate NotNewline(c: char)
  {
    c != '\n'
  }

  /**
   * The match of `__bundle_require\(".*"\)` at `s`: `.` stops at a newline
   * and the greedy `.*` makes the match end at the last `")` of the line.
   * The result is the text between the opening and the closing quote.
   */
  function RootMatchAt(t: string, s: nat): (r: Option<string>)
    requires s <= |t|
    ensures r.Some? ==> OccursAt(t, OpenRequire, s)
  {
    if !OccursAt(t, OpenRequire, s) then None
    else
      var a := s + |OpenRequire|;
      var le := Span(t, a, NotNewline);
      if le < a + 2 then None
      else match LastIndexIn(t, "\")", a, le - 2)
        case None => None
        case Some(x) => Some(t[a..x])
  }

  /** The leftmost match of the root pattern at or after `s`. */
  function RootNameFrom(t: string, s: nat): (r: Option<string>)
    requires s <= |t|
    decreases |t| - s
  {
    if RootMatchAt(t, s).Some? then RootMatchAt(t, s)
    else if s == |t| then None
    else RootNameFrom(t, s + 1)
  }

  /** The loop of `UnbundleAll`: record each scan and scan its leftover, until it is empty. */
  function Scripts(scripts: map<string, string>, r: Scan): map<string, string>
    decreases |r.leftover|
  {
    if r.leftover == [] then scripts
    else Scripts(scripts[r.name := r.body], FindNextBundledScript(r.leftover))
  }

  /** The `Rootname` after `UnbundleAll(rawlua)` when it was `rootname` before. */
  function NewRootname(rawlua: string, rootname: string): string
  {
    if !IsBundled(rawlua) then rootname
    else match RootNameFrom(rawlua, 0)
      case Some(n) => n
      case None => rootname
  }

  /** What `UnbundleAll(rawlua)` returns when `Rootname` is `rootname`. */
  function UnbundleAllSpec(rawlua: string, rootname: string): Result<map<string, string>>
  {
    if !IsBundled(rawlua) then Ok(map[rootname := rawlua])
    else
      var scripts := Scripts(map[], FindNextBundledScript(rawlua));
      if NewRootname(rawlua, rootname) in scripts then Ok(scripts)
      else Err("Failed to find root bundle")
  }

  /**
   * `UnbundleAll`: a text that is not bundled is the root module itself;
   * otherwise the root name is taken from the first `__bundle_require("…")`
   * and the modules are read block by block. The source's error check inside
   * the loop cannot fire: the pattern has three groups, so a match always has
   * eight indices.
   */
  method UnbundleAll(rawlua: string, rootname: string)
    returns (r: Result<map<string, string>>, rootname': string)
    ensures r == UnbundleAllSpec(rawlua, rootname)
    ensures rootname' == NewRootname(rawlua, rootname)
    ensures r.Ok? ==> rootname' in r.value
  {
    if !IsBundled(rawlua) {
      return Ok(map[rootname := rawlua]), rootname;
    }
    rootname' := rootname;
    var newRoot := RootNameFrom(rawlua, 0);
    if newRoot.Some? {
      rootname' := newRoot.value;
    }
    var scripts: map<string, string> := map[];
    var res := FindNextBundledScript(rawlua);
    while res.leftover != []
      invariant Scripts(scripts, res) == Scripts(map[], FindNextBundledScript(rawlua))
      decreases |res.leftover|
    {
      scripts := scripts[res.name := res.body];
      res := FindNextBundledScript(res.leftover);
    }
    if rootname' !in scripts {
      return Err("Failed to find root bundle"), rootname';
    }
    return Ok(scripts), rootname';
  }

  /** What `Unbundle(rawlua)` returns when `Rootname` is `rootname`. */
  function UnbundleSpec(rawlua: string, rootname: string): Result<string>
  {
    match UnbundleAllSpec(rawlua, rootname)
    case Err(e) => Err(e)
    case Ok(scripts) =>
      if NewRootname(rawlua, rootname) in scripts then Ok(scripts[NewRootname(rawlua, rootname)])
      else Err("Rootname not found in unbundled map")
  }

  /**
   * `Unbundle`: the root module's script. The source's second check, that the
   * root name is in the map, always passes once `UnbundleAll` has succeeded.
   */
  method Unbundle(rawlua: string, rootname: string) returns (r: Result<string>, rootname': string)
    ensures r == UnbundleSpec(rawlua, rootname)
    ensures rootname' == NewRootname(rawlua, rootname)
    ensures UnbundleAllSpec(rawlua, rootname).Err? ==> r.Err?
    ensures UnbundleAllSpec(rawlua, rootname).Ok? ==> r == Ok(UnbundleAllSpec(rawlua, rootname).value[rootname'])
    ensures !IsBundled(rawlua) ==> r == Ok(rawlua) && rootname' == rootname
  {
    var srcmap;
    srcmap, rootname' := UnbundleAll(rawlua, rootname);
    if srcmap.Err? {
      return Err(srcmap.msg), rootname';
    }
    var rt := srcmap.value[rootname'];
    return Ok(rt), rootname';
  }

  // ---------------------------------------------------------------------
  // The pieces of metaprefix
  // ---------------------------------------------------------------------

  const Preamble01: string := "-- Bundled by luabundle {\"version\":\"1.6."
  const Preamble02: string := "0\"}\nlocal __bundle_require, __bundle_loa"
  const Preamble03: string := "ded, __bundle_register, __bundle_modules"
  const Preamble04: string := " = (function(superRequire)\n"
  const Preamble05: string := "\tlocal loadingPlaceholder = {[{}] = true"
  const Preamble06: string := "}\n\n\tlocal register\n\tlocal modules = {}\n\n"
  const Preamble07: string := "\tlocal require\n\tlocal loaded = {}\n\n"
  const Preamble08: string := "\tregister = function(name, body)\n"
  const Preamble09: string := "\t\tif not modules[name] then\n"
  const Preamble10: string := "\t\t\tmodules[name] = body\n\t\tend\n\tend\n\n"
  const Preamble11: string := "\trequire = function(name)\n"
  const Preamble12: string := "\t\tlocal loadedModule = loaded[name]\n\n"
  const Preamble13: string := "\t\tif loadedModule then\n"
  const Preamble14: string := "\t\t\tif loadedModule == loadingPlaceholder"
  const Preamble15: string := " then\n\t\t\t\treturn nil\n\t\t\tend\n\t\telse\n"
  const Preamble16: string := "\t\t\tif not modules[name] then\n"
  const Preamble17: string := "\t\t\t\tif not superRequire then\n"
  const Preamble18: string := "\t\t\t\t\tlocal identifier = type(name) == 's"
  const Preamble19: string := "tring' and '\\\"' .. name .. '\\\"' or tostr"
  const Preamble20: string := "ing(name)\n\t\t\t\t\terror('Tried to require '"
  const Preamble21: string := " .. identifier .. ', but no such module "
  const Preamble22: string := "has been registered')\n\t\t\t\telse\n"
  const Preamble23: string := "\t\t\t\t\treturn superRequire(name)\n\t\t\t\tend\n"
  const Preamble24: string := "\t\t\tend\n\n\t\t\tloaded[name] = loadingPlaceho"
  const Preamble25: string := "lder\n\t\t\tloadedModule = modules[name](req"
  const Preamble26: string := "uire, loaded, register, modules)\n"
  const Preamble27: string := "\t\t\tloaded[name] = loadedModule\n\t\tend\n\n"
  const Preamble28: string := "\t\treturn loadedModule\n\tend\n\n"
  const Preamble29: string := "\treturn require, loaded, register, modul"
  const Preamble30: string := "es\nend)(nil)"
}
