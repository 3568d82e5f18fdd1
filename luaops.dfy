/**
 * The legacy require inliner (file/luaops.go).
 *
 * `ReplaceRequire` finds every whole line `require("name")` (the quotes may
 * be backslash-escaped), splits the script around those lines, replaces
 * each by the contents of `name.ttslua` read through `EncodeFromFile`, which
 * inlines that file's own requires in turn, and glues the pieces back
 * together with a newline on each side of every expansion.
 *
 * The line pattern `(?m)^require\((\\)?"[a-zA-Z0-9/]*(\\)?"\)\s*$` is
 * written out as a scanner. Its greedy `\s*` may run over newlines, so a
 * match can swallow the blank lines after a require up to the last line
 * break before the next text. The file read behind `LuaOps` is a map from
 * joined path to contents. The source recurses without a bound, so a
 * require cycle never ends; here `fuel` bounds the nesting depth and
 * running out is an error.
 */
module LuaOps {
  import opened Json
  import opened Text

  const ExpectedSuffix: string := ".ttslua"
  const RequireOpen: string := "require("
  const RequireDepthError: string := "require nesting exceeds the depth bound"

  /** A `LuaOps`: its base path and the files its reader can open, by path. */
  datatype Ops = Ops(basepath: string, files: map<string, string>)

  /** One match of the require line pattern: where it starts and ends, and the required name. */
  datatype ReqLine = ReqLine(start: nat, end: nat, name: string)

  /** The class `[a-zA-Z0-9/]` of a required name. */
  predicate IsModChar(c: char)
  {
    ('a' <= c <= 'z') || ('A' <= c <= 'Z') || ('0' <= c <= '9') || c == '/'
  }

  /** `^` in multi-line mode: the start of the text or of a line. */
  predicate LineStart(s: string, p: nat)
  {
    p == 0 || (p <= |s| && s[p - 1] == '\n')
  }

  /** `$` in multi-line mode: the end of the text or of a line. */
  predicate LineEnd(s: string, p: nat)
  {
    p == |s| || (p < |s| && s[p] == '\n')
  }

  /** The position after an optional backslash at `p`. */
  function SkipBackslash(s: string, p: nat): (q: nat)
    requires p <= |s|
    ensures p <= q <= |s| && q <= p + 1
  {
    if p < |s| && s[p] == '\\' then p + 1 else p
  }

  /**
   * The match of the require line pattern that starts at `p`, if any. The
   * greedy `\s*` takes the whole run of white space after `)` and gives
   * back characters until `$` holds: the end is the end of the text when
   * the run reaches it, and otherwise the last line break in the run.
   */
  function RequireAt(s: string, p: nat): (r: Option<ReqLine>)
    requires p <= |s|
    ensures r.Some? ==> r.value.start == p && p < r.value.end <= |s|
    ensures r.Some? ==> LineStart(s, p) && OccursAt(s, RequireOpen, p) && LineEnd(s, r.value.end)
    ensures r.Some? ==> forall c :: c in r.value.name ==> IsModChar(c)
  {
    if !LineStart(s, p) || !OccursAt(s, RequireOpen, p) then None
    else
      var a := SkipBackslash(s, p + |RequireOpen|);
      if a == |s| || s[a] != '"' then None
      else
        var b := Span(s, a + 1, IsModChar);
        var c := SkipBackslash(s, b);
        if c + 1 >= |s| || s[c] != '"' || s[c + 1] != ')' then None
        else
          var q := Span(s, c + 2, IsSpace);
          if q == |s| then Some(ReqLine(p, q, s[a + 1..b]))
          else match LastIndexIn(s, "\n", c + 2, q - 1)
            case None => None
            case Some(e) =>
              assert s[e] == s[e..e + 1][0];
              Some(ReqLine(p, e, s[a + 1..b]))
  }

  /** Matches start after `beg`, each ends after it starts, and each next one starts after the last ends. */
  predicate Spans(ms: seq<ReqLine>, beg: nat, n: nat)
  {
    if ms == [] then beg <= n
    else beg <= ms[0].start < ms[0].end && Spans(ms[1..], ms[0].end, n)
  }

  /** `FindAllString`: the matches from `p` on, leftmost first and without overlap. */
  function RequiresFrom(s: string, p: nat): (r: seq<ReqLine>)
    requires p <= |s|
    ensures Spans(r, p, |s|)
    ensures forall i :: 0 <= i < |r| ==> p <= r[i].start <= |s| && RequireAt(s, r[i].start) == Some(r[i])
    decreases |s| - p
  {
    if p == |s| then []
    else match RequireAt(s, p)
      case Some(m) => [m] + RequiresFrom(s, m.end)
      case None => RequiresFrom(s, p + 1)
  }

  /** `Split(s, -1)` around the matches `ms`: the text before, between and after them. */
  function PiecesFrom(s: string, ms: seq<ReqLine>, beg: nat): (r: seq<string>)
    requires Spans(ms, beg, |s|)
    ensures |r| == |ms| + 1
  {
    if ms == [] then [s[beg..]]
    else
      SpansEnd(ms, beg, |s|);
      [s[beg..ms[0].start]] + PiecesFrom(s, ms[1..], ms[0].end)
  }

  lemma {:induction false} SpansEnd(ms: seq<ReqLine>, beg: nat, n: nat)
    requires Spans(ms, beg, n)
    ensures beg <= n
    ensures ms != [] ==> ms[0].end <= n
  {
    if ms != [] {
      SpansEnd(ms[1..], ms[0].end, n);
    }
  }

  /** The text each match covers. */
  function Texts(s: string, ms: seq<ReqLine>): (r: seq<string>)
    requires forall i :: 0 <= i < |ms| ==> ms[i].start <= ms[i].end <= |s|
    ensures |r| == |ms|
  {
    seq(|ms|, i requires 0 <= i < |ms| => s[ms[i].start..ms[i].end])
  }

  /** The pieces with the middles in between: `pieces[0] + mids[0] + pieces[1] + … + pieces[last]`. */
  function Reassemble(pieces: seq<string>, mids: seq<string>): string
    requires |pieces| == |mids| + 1
  {
    if mids == [] then pieces[0] else pieces[0] + mids[0] + Reassemble(pieces[1..], mids[1..])
  }

  /** Every expansion with a newline on each side. */
  function Wrapped(exps: seq<string>): (r: seq<string>)
    ensures |r| == |exps|
    ensures forall i :: 0 <= i < |exps| ==> r[i] == "\n" + exps[i] + "\n"
  {
    seq(|exps|, i requires 0 <= i < |exps| => "\n" + exps[i] + "\n")
  }

  /** `xs` in front of a successful result; a failure stays as it is. */
  function Prepend(xs: seq<string>, r: Result<seq<string>>): (p: Result<seq<string>>)
    ensures xs == [] ==> p == r
  {
    assert r.Ok? ==> [] + r.value == r.value;
    match r
    case Ok(ys) => Ok(xs + ys)
    case Err(e) => Err(e)
  }

  lemma PrependTwice(xs: seq<string>, x: string, r: Result<seq<string>>)
    ensures Prepend(xs, Prepend([x], r)) == Prepend(xs + [x], r)
  {
    if r.Ok? {
      assert xs + ([x] + r.value) == xs + [x] + r.value;
    }
  }

  /** What `EncodeFromFile(filename)` returns with `fuel` levels of nesting left. */
  function EncodeFromFileSpec(l: Ops, filename: string, fuel: nat): Result<string>
    decreases fuel, 2, 0
  {
    var p := JoinPath(l.basepath, filename);
    if p !in l.files then Err("os.Open(" + p + "): file not found")
    else ReplaceRequireSpec(l, l.files[p], fuel)
  }

  /** What `ReplaceRequire(script)` returns with `fuel` levels of nesting left. */
  function ReplaceRequireSpec(l: Ops, script: string, fuel: nat): Result<string>
    decreases fuel, 1, 0
  {
    var ms := RequiresFrom(script, 0);
    match ExpandAll(l, ms, fuel)
    case Err(e) => Err(e)
    case Ok(exps) => Ok(Reassemble(PiecesFrom(script, ms, 0), Wrapped(exps)))
  }

  /** The expansions of the matches in order, stopping at the first failure. */
  function ExpandAll(l: Ops, ms: seq<ReqLine>, fuel: nat): (r: Result<seq<string>>)
    ensures r.Ok? ==> |r.value| == |ms|
    decreases fuel, 0, |ms|
  {
    if ms == [] then Ok([])
    else if fuel == 0 then Err(RequireDepthError)
    else match EncodeFromFileSpec(l, ms[0].name + ExpectedSuffix, fuel - 1)
      case Err(e) => Err("expanding require(" + ms[0].name + "): " + e)
      case Ok(x) => Prepend([x], ExpandAll(l, ms[1..], fuel))
  }

  /** `LuaOps.EncodeFromFile`: read the file under the base path and inline its requires. */
  method EncodeFromFile(l: Ops, filename: string, fuel: nat) returns (r: Result<string>)
    ensures r == EncodeFromFileSpec(l, filename, fuel)
    decreases fuel, 2, 0
  {
    var p := JoinPath(l.basepath, filename);
    if p !in l.files {
      return Err("os.Open(" + p + "): file not found");
    }
    r := ReplaceRequire(l, l.files[p], fuel);
  }

  /** `LuaOps.ReplaceRequire`: expand the require lines in order, then glue the pieces. */
  method ReplaceRequire(l: Ops, script: string, fuel: nat) returns (r: Result<string>)
    ensures r == ReplaceRequireSpec(l, script, fuel)
    decreases fuel, 1, 0
  {
    var reqs := RequiresFrom(script, 0);
    var notReqs := PiecesFrom(script, reqs, 0);
    var reqsExpanded := ExpandRequires(l, reqs, fuel);
    if reqsExpanded.Err? {
      return Err(reqsExpanded.msg);
    }
    var finalStr := Glue(notReqs, reqsExpanded.value);
    return Ok(finalStr);
  }

  /** The loop of `ReplaceRequire` that reads each required file, in order. */
  method ExpandRequires(l: Ops, reqs: seq<ReqLine>, fuel: nat) returns (r: Result<seq<string>>)
    ensures r == ExpandAll(l, reqs, fuel)
    decreases fuel, 0, 1
  {
    var reqsExpanded: seq<string> := [];
    assert reqs[0..] == reqs;
    for i := 0 to |reqs|
      invariant |reqsExpanded| == i
      invariant ExpandAll(l, reqs, fuel) == Prepend(reqsExpanded, ExpandAll(l, reqs[i..], fuel))
    {
      var exp := ExpandRequire(l, reqs, i, fuel);
      if exp.Err? {
        return Err(exp.msg);
      }
      PrependTwice(reqsExpanded, exp.value, ExpandAll(l, reqs[i + 1..], fuel));
      reqsExpanded := reqsExpanded + [exp.value];
    }
    assert reqs[|reqs|..] == [];
    assert reqsExpanded + [] == reqsExpanded;
    return Ok(reqsExpanded);
  }

  /** One pass of the loop of `ExpandRequires`: the expansion of the `i`-th require. */
  method ExpandRequire(l: Ops, reqs: seq<ReqLine>, i: nat, fuel: nat) returns (r: Result<string>)
    requires i < |reqs|
    ensures r.Err? ==> ExpandAll(l, reqs[i..], fuel) == Err(r.msg)
    ensures r.Ok? ==> ExpandAll(l, reqs[i..], fuel) == Prepend([r.value], ExpandAll(l, reqs[i + 1..], fuel))
    decreases fuel, 0, 0
  {
    assert reqs[i..][0] == reqs[i] && reqs[i..][1..] == reqs[i + 1..];
    if fuel == 0 {
      return Err(RequireDepthError);
    }
    var exp := EncodeFromFile(l, reqs[i].name + ExpectedSuffix, fuel - 1);
    if exp.Err? {
      return Err("expanding require(" + reqs[i].name + "): " + exp.msg);
    }
    return exp;
  }

  /** The loop of `ReplaceRequire` that concatenates each piece and the expansion after it. */
  method Glue(notReqs: seq<string>, reqsExpanded: seq<string>) returns (finalStr: string)
    requires |notReqs| == |reqsExpanded| + 1
    ensures finalStr == Reassemble(notReqs, Wrapped(reqsExpanded))
  {
    var mids := Wrapped(reqsExpanded);
    finalStr := "";
    for i := 0 to |reqsExpanded|
      invariant finalStr + Reassemble(notReqs[i..], mids[i..]) == Reassemble(notReqs, mids)
    {
      assert notReqs[i..][1..] == notReqs[i + 1..] && mids[i..][1..] == mids[i + 1..];
      var rest := Reassemble(notReqs[i + 1..], mids[i + 1..]);
      assert Reassemble(notReqs[i..], mids[i..]) == notReqs[i] + mids[i] + rest;
      ghost var before := finalStr;
      finalStr := finalStr + notReqs[i] + "\n";
      finalStr := finalStr + reqsExpanded[i] + "\n";
      assert mids[i] == "\n" + reqsExpanded[i] + "\n";
      assert finalStr == before + (notReqs[i] + mids[i]);
      assert finalStr + rest == before + (notReqs[i] + mids[i] + rest);
    }
    finalStr := finalStr + notReqs[|notReqs| - 1];
  }

  // ---------------------------------------------------------------------
  // Properties
  // ---------------------------------------------------------------------

  /** Where the pattern matches nowhere, the scanner finds nothing. */
  lemma {:induction false} NoMatchNoRequires(s: string, p: nat)
    requires p <= |s|
    requires forall q: nat :: p <= q <= |s| ==> RequireAt(s, q).None?
    ensures RequiresFrom(s, p) == []
    decreases |s| - p
  {
    if p < |s| {
      NoMatchNoRequires(s, p + 1);
    }
  }

  /** A script without a whole-line require is returned unchanged. */
  lemma NoRequiresUnchanged(l: Ops, script: string, fuel: nat)
    requires forall q: nat :: q <= |script| ==> RequireAt(script, q).None?
    ensures ReplaceRequireSpec(l, script, fuel) == Ok(script)
  {
    NoMatchNoRequires(script, 0);
    assert script[0..] == script;
  }

  /** Splitting loses nothing: the pieces and the matched texts give back the script. */
  lemma {:induction false} SplitLossless(s: string, ms: seq<ReqLine>, beg: nat)
    requires Spans(ms, beg, |s|)
    ensures forall i :: 0 <= i < |ms| ==> ms[i].start <= ms[i].end <= |s|
    ensures Reassemble(PiecesFrom(s, ms, beg), Texts(s, ms)) == s[beg..]
    decreases |ms|
  {
    if ms != [] {
      SpansEnd(ms, beg, |s|);
      SplitLossless(s, ms[1..], ms[0].end);
      assert Texts(s, ms)[1..] == Texts(s, ms[1..]);
      assert s[beg..] == s[beg..ms[0].start] + s[ms[0].start..ms[0].end] + s[ms[0].end..];
    }
  }

  /** The expansions are exactly one per match, in order, each the inlined required file. */
  lemma {:induction false} ExpandAllPointwise(l: Ops, ms: seq<ReqLine>, fuel: nat)
    requires ExpandAll(l, ms, fuel).Ok?
    ensures |ExpandAll(l, ms, fuel).value| == |ms|
    ensures ms != [] ==> fuel > 0
    ensures forall k :: 0 <= k < |ms| ==>
      EncodeFromFileSpec(l, ms[k].name + ExpectedSuffix, fuel - 1) == Ok(ExpandAll(l, ms, fuel).value[k])
    decreases |ms|
  {
    if ms != [] {
      ExpandAllPointwise(l, ms[1..], fuel);
      forall k | 1 <= k < |ms|
        ensures EncodeFromFileSpec(l, ms[k].name + ExpectedSuffix, fuel - 1) == Ok(ExpandAll(l, ms, fuel).value[k])
      {
        assert ms[1..][k - 1] == ms[k];
      }
    }
  }

  /** A required file that cannot be read makes the whole expansion fail. */
  lemma {:induction false} ExpandAllFails(l: Ops, ms: seq<ReqLine>, fuel: nat, k: nat)
    requires k < |ms|
    requires fuel == 0 || EncodeFromFileSpec(l, ms[k].name + ExpectedSuffix, fuel - 1).Err?
    ensures ExpandAll(l, ms, fuel).Err?
  {
    if ExpandAll(l, ms, fuel).Ok? {
      ExpandAllPointwise(l, ms, fuel);
    }
  }

  /** The result is the pieces around the requires with each expansion in place of its line. */
  lemma ReplaceRequireShape(l: Ops, script: string, fuel: nat)
    requires ReplaceRequireSpec(l, script, fuel).Ok?
    ensures RequiresFrom(script, 0) != [] ==> fuel > 0
    ensures var ms := RequiresFrom(script, 0);
      exists exps: seq<string> ::
        && |exps| == |ms|
        && (forall k :: 0 <= k < |ms| ==> EncodeFromFileSpec(l, ms[k].name + ExpectedSuffix, fuel - 1) == Ok(exps[k]))
        && ReplaceRequireSpec(l, script, fuel) == Ok(Reassemble(PiecesFrom(script, ms, 0), Wrapped(exps)))
  {
    var ms := RequiresFrom(script, 0);
    ExpandAllPointwise(l, ms, fuel);
    var exps := ExpandAll(l, ms, fuel).value;
    assert ReplaceRequireSpec(l, script, fuel) == Ok(Reassemble(PiecesFrom(script, ms, 0), Wrapped(exps)));
  }

  /** A require of a file missing under the base path makes `ReplaceRequire` fail. */
  lemma MissingRequireFails(l: Ops, script: string, fuel: nat, k: nat)
    requires k < |RequiresFrom(script, 0)|
    requires JoinPath(l.basepath, RequiresFrom(script, 0)[k].name + ExpectedSuffix) !in l.files
    ensures ReplaceRequireSpec(l, script, fuel).Err?
  {
    var ms := RequiresFrom(script, 0);
    if fuel > 0 {
      assert EncodeFromFileSpec(l, ms[k].name + ExpectedSuffix, fuel - 1).Err?;
    }
    ExpandAllFails(l, ms, fuel, k);
  }
}
