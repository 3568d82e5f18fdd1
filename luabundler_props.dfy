/** Properties of the Lua bundler model: what `Bundle` gathers, and when unbundling fails. */
module LuaBundlerProps {
  import opened Json
  import opened Text
  import opened LuaBundler

  // ---------------------------------------------------------------------
  // Bundle
  // ---------------------------------------------------------------------

  /** Every module is the root script itself or the file read for its name. */
  ghost predicate FromSources(reqs: map<string, string>, rawlua: string, rootname: string, reader: map<string, string>)
  {
    forall k :: k in reqs ==>
      (k == rootname && reqs[k] == rawlua) || (k + LuaExt in reader && reqs[k] == reader[k + LuaExt])
  }

  /** Every module whose name is not still queued has had its requires loaded. */
  ghost predicate Investigated(reqs: map<string, string>, todo: seq<string>)
  {
    forall k :: k in reqs ==> k in todo || forall n :: n in ReqNames(reqs[k]) ==> n in reqs
  }

  lemma {:induction false} ClosureInvariant(reqs: map<string, string>, todo: seq<string>, reader: map<string, string>,
                                           fuel: nat, rawlua: string, rootname: string)
    requires FromSources(reqs, rawlua, rootname, reader) && Investigated(reqs, todo)
    requires Closure(reqs, todo, reader, fuel).Ok?
    ensures reqs.Keys <= Closure(reqs, todo, reader, fuel).value.Keys
    ensures FromSources(Closure(reqs, todo, reader, fuel).value, rawlua, rootname, reader)
    ensures Investigated(Closure(reqs, todo, reader, fuel).value, [])
    decreases fuel
  {
    if todo == [] {
      return;
    }
    var script := if todo[0] in reqs then reqs[todo[0]] else "";
    var toLoad := Sort(ReqNames(script));
    assert forall n :: n in toLoad <==> n in ReqNames(script) by {
      assert multiset(toLoad) == multiset(ReqNames(script));
      forall n
        ensures n in toLoad <==> n in ReqNames(script)
      {
        assert n in toLoad <==> n in multiset(toLoad);
        assert n in ReqNames(script) <==> n in multiset(ReqNames(script));
      }
    }
    var reqs' := LoadAll(reqs, toLoad, reader).value;
    var todo' := todo[1..] + toLoad;
    assert FromSources(reqs', rawlua, rootname, reader);
    forall k | k in reqs'
      ensures k in todo' || forall n :: n in ReqNames(reqs'[k]) ==> n in reqs'
    {
      if k !in toLoad {
        assert k in reqs && reqs'[k] == reqs[k];
        if k != todo[0] && k in todo {
          assert k in todo[1..];
        }
      }
    }
    ClosureInvariant(reqs', todo', reader, fuel - 1, rawlua, rootname);
  }

  /**
   * What a successful `Bundle` gathers: the root under its name, every other
   * module from the file named after it, and every module any of them
   * requires.
   */
  lemma ClosureSound(rawlua: string, reader: map<string, string>, rootname: string, fuel: nat)
    requires Closure(map[rootname := rawlua], [rootname], reader, fuel).Ok?
    ensures var reqs := Closure(map[rootname := rawlua], [rootname], reader, fuel).value;
      && rootname in reqs
      && FromSources(reqs, rawlua, rootname, reader)
      && forall k :: k in reqs ==> forall n :: n in ReqNames(reqs[k]) ==> n in reqs
  {
    ClosureInvariant(map[rootname := rawlua], [rootname], reader, fuel, rawlua, rootname);
  }

  /** A script that requires nothing is returned as it is. */
  lemma NoRequiresUnchanged(rawlua: string, reader: map<string, string>, rootname: string, fuel: nat)
    requires ReqNames(rawlua) == [] && fuel >= 1
    ensures BundleSpec(rawlua, reader, rootname, fuel) == Ok(rawlua)
  {
    var toLoad := Sort(ReqNames(rawlua));
    assert multiset(toLoad) == multiset{};
    assert toLoad == [];
    var reqs := map[rootname := rawlua];
    assert LoadAll(reqs, toLoad, reader) == Ok(reqs);
    assert Closure(reqs, [rootname], reader, fuel) == Closure(reqs, [], reader, fuel - 1);
  }

  /** A module the root requires but the reader does not have fails the bundle. */
  lemma MissingModuleFails(rawlua: string, reader: map<string, string>, rootname: string, fuel: nat, n: string)
    requires !IsBundled(rawlua) && fuel >= 1
    requires n in ReqNames(rawlua) && n + LuaExt !in reader
    ensures BundleSpec(rawlua, reader, rootname, fuel).Err?
  {
    var toLoad := Sort(ReqNames(rawlua));
    assert n in multiset(ReqNames(rawlua));
    assert n in toLoad by {
      assert n in multiset(toLoad);
    }
    assert LoadAll(map[rootname := rawlua], toLoad, reader).Err?;
  }

  lemma OccursInMiddle(a: string, b: string, c: string, p: string)
    requires StartsWith(b, p)
    ensures OccursAt(a + b + c, p, |a|)
  {
    assert (a + b + c)[|a|..|a| + |p|] == b[..|p|];
  }

  /** A rendered bundle splits around its last block, which opens with `__bundle_register`. */
  lemma RenderSplit(prefix: string, reqs: map<string, string>) returns (a: string, b: string)
    requires |reqs| >= 1
    ensures RenderWith(prefix, reqs) == a + b + MetaSuffix && StartsWith(b, RegisterWord)
  {
    var ks := SortedKeys(reqs);
    var blocks;
    blocks, b := BlocksSplit(ks, reqs);
    a := prefix + "\n" + blocks;
    Regroup(prefix + "\n", blocks, b, MetaSuffix);
  }

  /** The blocks of a non-empty key list end with the last key's block, which opens with `__bundle_register`. */
  lemma BlocksSplit(ks: seq<string>, reqs: map<string, string>) returns (a: string, b: string)
    requires |ks| >= 1 && forall k :: k in ks ==> k in reqs
    ensures Blocks(ks, reqs) == a + b && StartsWith(b, RegisterWord)
  {
    var last := ks[|ks| - 1];
    a := Blocks(ks[..|ks| - 1], reqs);
    b := Block(last, reqs[last]);
    BlockStarts(last, reqs[last]);
  }

  lemma Regroup(p: string, a: string, b: string, c: string)
    ensures p + (a + b) + c == (p + a) + b + c
  {
  }

  lemma BlockStarts(k: string, v: string)
    ensures StartsWith(Block(k, v), RegisterWord)
  {
    var h := Header(k);
    assert Block(k, v) == h + ("\n" + v + "\n" + FuncSuffix + "\n");
    assert Block(k, v)[..|RegisterWord|] == h[..|RegisterWord|];
  }

  /** A rendered bundle with at least one module is recognised as bundled. */
  lemma RenderIsBundled(reqs: map<string, string>)
    requires |reqs| >= 1
    ensures IsBundled(Render(reqs))
  {
    var a, b := RenderSplit(MetaPrefix, reqs);
    OccursInMiddle(a, b, MetaSuffix, RegisterWord);
    assert OccursAt(Render(reqs), RegisterWord, |a|);
  }

  /** Bundling the output of `Bundle` again gives the same text. */
  lemma BundleIdempotent(rawlua: string, reader: map<string, string>, rootname: string, fuel: nat)
    requires BundleSpec(rawlua, reader, rootname, fuel).Ok?
    ensures var out := BundleSpec(rawlua, reader, rootname, fuel).value;
      BundleSpec(out, reader, rootname, fuel) == Ok(out)
  {
    var out := BundleSpec(rawlua, reader, rootname, fuel).value;
    if IsBundled(rawlua) {
      assert out == rawlua;
    } else {
      var reqs := Closure(map[rootname := rawlua], [rootname], reader, fuel).value;
      if |reqs| == 1 {
        assert out == rawlua;
      } else {
        assert out == Render(reqs);
        assert rootname in reqs;
        RenderIsBundled(reqs);
        assert IsBundled(out);
      }
    }
  }

  // ---------------------------------------------------------------------
  // UnbundleAll
  // ---------------------------------------------------------------------

  lemma {:induction false} NoEndNoBodyEnd(t: string, b: nat)
    requires b <= |t| && forall q: nat :: !OccursAt(t, FuncSuffix, q)
    ensures FirstBodyEnd(t, b).None?
    decreases |t| - b
  {
    if b < |t| {
      NoEndNoBodyEnd(t, b + 1);
    }
  }

  lemma {:induction false} NoEndNoBodyStart(t: string, h: nat, w: nat)
    requires h + w <= |t| && forall q: nat :: !OccursAt(t, FuncSuffix, q)
    ensures BodyStart(t, h, w).None?
    decreases w
  {
    if w > 0 {
      NoEndNoBodyEnd(t, h + w);
      NoEndNoBodyStart(t, h, w - 1);
    }
  }

  lemma {:induction false} NoEndNoName(t: string, n: nat)
    requires n <= |t| && forall q: nat :: !OccursAt(t, FuncSuffix, q)
    ensures NameEnd(t, n).None?
    decreases |t| - n
  {
    if OccursAt(t, HeaderTail, n) {
      var h := n + |HeaderTail|;
      NoEndNoBodyStart(t, h, Span(t, h, IsSpace) - h);
    }
    if n < |t| {
      NoEndNoName(t, n + 1);
    }
  }

  lemma {:induction false} NoEndNoMatch(t: string, s: nat)
    requires s <= |t| && forall q: nat :: !OccursAt(t, FuncSuffix, q)
    ensures FindFrom(t, s).None?
    decreases |t| - s
  {
    if OccursAt(t, OpenRegister, s) {
      NoEndNoName(t, s + |OpenRegister|);
    }
    if s < |t| {
      NoEndNoMatch(t, s + 1);
    }
  }

  /** A bundled text with no block end `end)` anywhere cannot be unbundled. */
  lemma NoBlockEndFails(rawlua: string, rootname: string)
    requires IsBundled(rawlua) && !Contains(rawlua, FuncSuffix)
    ensures UnbundleAllSpec(rawlua, rootname).Err?
  {
    NoEndNoMatch(rawlua, 0);
  }
}
