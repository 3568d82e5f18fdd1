/**
 * Reading a bundle back (bundler/luabundler.go): `UnbundleAll` applied to the
 * text `Bundle` writes for a module map returns that map, and `Unbundle` the
 * root module, for every map whose names and bodies the block pattern can
 * read back unchanged.
 *
 * The argument follows the text from left to right. The preamble holds no
 * `("`, so neither a block header nor the root call starts inside it. Each
 * block is then matched exactly where it begins, and its match ends at the
 * next block or at the trailer; the first `__bundle_require("` is the one in
 * the trailer, which names `__root`.
 */
module LuaUnbundleProps {
  import opened Json
  import opened Text
  import opened LuaBundler

  // ---------------------------------------------------------------------
  // Texts without `("`
  // ---------------------------------------------------------------------

  /** No `(` in `s` is directly followed by `"`. */
  ghost predicate NoPair(s: string)
  {
    forall i :: 0 <= i < |s| - 1 ==> !(s[i] == '(' && s[i + 1] == '"')
  }

  /** `s` holds no `("`, and nothing appended to it can complete one. */
  ghost predicate Closed(s: string)
  {
    NoPair(s) && s != [] && s[|s| - 1] != '('
  }

  lemma ClosedOf(s: string)
    requires '(' !in s || '"' !in s
    requires s != [] && s[|s| - 1] != '('
    ensures Closed(s)
  {
    forall i | 0 <= i < |s| - 1
      ensures !(s[i] == '(' && s[i + 1] == '"')
    {
      assert s[i] in s && s[i + 1] in s;
    }
  }

  lemma ClosedConcat(a: string, b: string)
    requires Closed(a) && Closed(b)
    ensures Closed(a + b)
  {
    var t := a + b;
    forall i | 0 <= i < |t| - 1
      ensures !(t[i] == '(' && t[i + 1] == '"')
    {
      if i + 1 < |a| {
        assert t[i] == a[i] && t[i + 1] == a[i + 1];
      } else if i >= |a| {
        assert t[i] == b[i - |a|] && t[i + 1] == b[i + 1 - |a|];
      } else {
        assert t[i] == a[i];
      }
    }
    assert t[|t| - 1] == b[|b| - 1];
  }

  lemma PreambleClosed01()
    ensures Closed(Preamble01 + Preamble02)
  {
    assert '(' !in Preamble01;
    ClosedOf(Preamble01);
    assert '(' !in Preamble02;
    ClosedOf(Preamble02);
    ClosedConcat(Preamble01, Preamble02);
  }

  lemma PreambleClosed02()
    ensures Closed(Preamble03 + Preamble04)
  {
    assert '(' !in Preamble03;
    ClosedOf(Preamble03);
    assert '"' !in Preamble04;
    ClosedOf(Preamble04);
    ClosedConcat(Preamble03, Preamble04);
  }

  lemma PreambleClosed03()
    ensures Closed(Preamble05 + Preamble06)
  {
    assert '(' !in Preamble05;
    ClosedOf(Preamble05);
    assert '(' !in Preamble06;
    ClosedOf(Preamble06);
    ClosedConcat(Preamble05, Preamble06);
  }

  lemma PreambleClosed04()
    ensures Closed(Preamble07 + Preamble08)
  {
    assert '(' !in Preamble07;
    ClosedOf(Preamble07);
    assert '"' !in Preamble08;
    ClosedOf(Preamble08);
    ClosedConcat(Preamble07, Preamble08);
  }

  lemma PreambleClosed05()
    ensures Closed(Preamble09 + Preamble10)
  {
    assert '(' !in Preamble09;
    ClosedOf(Preamble09);
    assert '(' !in Preamble10;
    ClosedOf(Preamble10);
    ClosedConcat(Preamble09, Preamble10);
  }

  lemma PreambleClosed06()
    ensures Closed(Preamble11 + Preamble12)
  {
    assert '"' !in Preamble11;
    ClosedOf(Preamble11);
    assert '(' !in Preamble12;
    ClosedOf(Preamble12);
    ClosedConcat(Preamble11, Preamble12);
  }

  lemma PreambleClosed07()
    ensures Closed(Preamble13 + Preamble14)
  {
    assert '(' !in Preamble13;
    ClosedOf(Preamble13);
    assert '(' !in Preamble14;
    ClosedOf(Preamble14);
    ClosedConcat(Preamble13, Preamble14);
  }

  lemma PreambleClosed08()
    ensures Closed(Preamble15 + Preamble16)
  {
    assert '(' !in Preamble15;
    ClosedOf(Preamble15);
    assert '(' !in Preamble16;
    ClosedOf(Preamble16);
    ClosedConcat(Preamble15, Preamble16);
  }

  lemma PreambleClosed09()
    ensures Closed(Preamble17 + Preamble18)
  {
    assert '(' !in Preamble17;
    ClosedOf(Preamble17);
    assert '"' !in Preamble18;
    ClosedOf(Preamble18);
    ClosedConcat(Preamble17, Preamble18);
  }

  lemma PreambleClosed10()
    ensures Closed(Preamble19 + Preamble20)
  {
    assert '(' !in Preamble19;
    ClosedOf(Preamble19);
    assert '"' !in Preamble20;
    ClosedOf(Preamble20);
    ClosedConcat(Preamble19, Preamble20);
  }

  lemma PreambleClosed11()
    ensures Closed(Preamble21 + Preamble22)
  {
    assert '(' !in Preamble21;
    ClosedOf(Preamble21);
    assert '(' !in Preamble22;
    ClosedOf(Preamble22);
    ClosedConcat(Preamble21, Preamble22);
  }

  lemma PreambleClosed12()
    ensures Closed(Preamble23 + Preamble24)
  {
    assert '"' !in Preamble23;
    ClosedOf(Preamble23);
    assert '(' !in Preamble24;
    ClosedOf(Preamble24);
    ClosedConcat(Preamble23, Preamble24);
  }

  lemma PreambleClosed13()
    ensures Closed(Preamble25 + Preamble26)
  {
    assert '"' !in Preamble25;
    ClosedOf(Preamble25);
    assert '(' !in Preamble26;
    ClosedOf(Preamble26);
    ClosedConcat(Preamble25, Preamble26);
  }

  lemma PreambleClosed14()
    ensures Closed(Preamble27 + Preamble28)
  {
    assert '(' !in Preamble27;
    ClosedOf(Preamble27);
    assert '(' !in Preamble28;
    ClosedOf(Preamble28);
    ClosedConcat(Preamble27, Preamble28);
  }

  lemma PreambleClosed15()
    ensures Closed(Preamble29 + Preamble30)
  {
    assert '(' !in Preamble29;
    ClosedOf(Preamble29);
    assert '"' !in Preamble30;
    ClosedOf(Preamble30);
    ClosedConcat(Preamble29, Preamble30);
  }

  /** The preamble holds no `("`, so no block header or root call can start inside it. */
  lemma MetaPrefixClosed()
    ensures Closed(MetaPrefix)
  {
    var s := Preamble01 + Preamble02;
    PreambleClosed01();
    PreambleClosed02();
    ClosedConcat(s, Preamble03 + Preamble04);
    s := s + (Preamble03 + Preamble04);
    PreambleClosed03();
    ClosedConcat(s, Preamble05 + Preamble06);
    s := s + (Preamble05 + Preamble06);
    PreambleClosed04();
    ClosedConcat(s, Preamble07 + Preamble08);
    s := s + (Preamble07 + Preamble08);
    PreambleClosed05();
    ClosedConcat(s, Preamble09 + Preamble10);
    s := s + (Preamble09 + Preamble10);
    PreambleClosed06();
    ClosedConcat(s, Preamble11 + Preamble12);
    s := s + (Preamble11 + Preamble12);
    PreambleClosed07();
    ClosedConcat(s, Preamble13 + Preamble14);
    s := s + (Preamble13 + Preamble14);
    PreambleClosed08();
    ClosedConcat(s, Preamble15 + Preamble16);
    s := s + (Preamble15 + Preamble16);
    PreambleClosed09();
    ClosedConcat(s, Preamble17 + Preamble18);
    s := s + (Preamble17 + Preamble18);
    PreambleClosed10();
    ClosedConcat(s, Preamble19 + Preamble20);
    s := s + (Preamble19 + Preamble20);
    PreambleClosed11();
    ClosedConcat(s, Preamble21 + Preamble22);
    s := s + (Preamble21 + Preamble22);
    PreambleClosed12();
    ClosedConcat(s, Preamble23 + Preamble24);
    s := s + (Preamble23 + Preamble24);
    PreambleClosed13();
    ClosedConcat(s, Preamble25 + Preamble26);
    s := s + (Preamble25 + Preamble26);
    PreambleClosed14();
    ClosedConcat(s, Preamble27 + Preamble28);
    s := s + (Preamble27 + Preamble28);
    PreambleClosed15();
    ClosedConcat(s, Preamble29 + Preamble30);
    s := s + (Preamble29 + Preamble30);
    assert s == MetaPrefix;
  }

  // ---------------------------------------------------------------------
  // Where a pattern cannot occur
  // ---------------------------------------------------------------------

  /** `p` occurs nowhere in `s`. */
  ghost predicate Absent(s: string, p: string)
  {
    forall j: nat :: !OccursAt(s, p, j)
  }

  /** A pattern holding `("` is absent from a text without it. */
  lemma PairAbsent(s: string, p: string, i: nat)
    requires NoPair(s) && i + 1 < |p| && p[i] == '(' && p[i + 1] == '"'
    ensures Absent(s, p)
  {
    forall j: nat
      ensures !OccursAt(s, p, j)
    {
      if j + |p| <= |s| {
        assert s[j..j + |p|][i] == s[j + i] && s[j..j + |p|][i + 1] == s[j + i + 1];
      }
    }
  }

  /** A pattern shorter than the text cannot occur in it. */
  lemma ShortAbsent(s: string, p: string)
    requires |s| < |p|
    ensures Absent(s, p)
  {
  }

  /**
   * An occurrence that starts in `a`, when `a` ends in a character the
   * pattern lacks, lies inside `a`.
   */
  lemma AbsentBefore(a: string, b: string, p: string, j: nat)
    requires Absent(a, p) && a != [] && a[|a| - 1] !in p && j < |a|
    ensures !OccursAt(a + b, p, j)
  {
    var t := a + b;
    if j + |p| <= |a| {
      assert t[j..j + |p|] == a[j..j + |p|];
      assert !OccursAt(a, p, j);
    } else if j + |p| <= |t| {
      assert t[j..j + |p|][|a| - 1 - j] == a[|a| - 1];
    }
  }

  /** Joining two texts the pattern is absent from, after a character it lacks. */
  lemma AbsentJoin(a: string, b: string, p: string)
    requires Absent(a, p) && Absent(b, p) && a != [] && a[|a| - 1] !in p
    ensures Absent(a + b, p)
  {
    var t := a + b;
    forall j: nat
      ensures !OccursAt(t, p, j)
    {
      if j < |a| {
        AbsentBefore(a, b, p, j);
      } else if j + |p| <= |t| {
        assert t[j..j + |p|] == b[j - |a|..j - |a| + |p|];
        assert !OccursAt(b, p, j - |a|);
      }
    }
  }

  /** Joining two texts the pattern is absent from, before a character it lacks. */
  lemma AbsentJoinBefore(a: string, b: string, p: string)
    requires Absent(a, p) && Absent(b, p) && b != [] && b[0] !in p
    ensures Absent(a + b, p)
  {
    var t := a + b;
    forall j: nat
      ensures !OccursAt(t, p, j)
    {
      if j + |p| <= |a| {
        assert t[j..j + |p|] == a[j..j + |p|];
        assert !OccursAt(a, p, j);
      } else if j >= |a| && j + |p| <= |t| {
        assert t[j..j + |p|] == b[j - |a|..j - |a| + |p|];
        assert !OccursAt(b, p, j - |a|);
      } else if j + |p| <= |t| {
        assert t[j..j + |p|][|a| - j] == b[0];
      }
    }
  }

  // ---------------------------------------------------------------------
  // The fixed pieces of a block and of the trailer
  // ---------------------------------------------------------------------

  lemma RegisterFacts()
    ensures |RegisterWord| == 17 && |OpenRegister| == 19
    ensures OpenRegister[..17] == RegisterWord && RegisterWord[0] == '_' && RegisterWord[11] == 'g'
    ensures OpenRegister[17] == '(' && OpenRegister[18] == '"'
    ensures '\n' !in OpenRegister && 'q' !in OpenRegister
  {
    assert OpenRegister == RegisterWord + "(\"";
  }

  lemma RequireFacts()
    ensures |OpenRequire| == 18 && OpenRequire[0] == '_' && OpenRequire[11] == 'q'
    ensures OpenRequire[16] == '(' && OpenRequire[17] == '"' && '\n' !in OpenRequire
  {
    assert OpenRequire == RequireWord + "(\"";
  }

  lemma TrailerFacts()
    ensures |MetaSuffix| == 33 && MetaSuffix[0] == 'r' && 'g' !in MetaSuffix && '\n' !in MetaSuffix
    ensures MetaSuffix[7..] == OpenRequire + DefaultRootname + "\")"
    ensures forall i :: 0 <= i < 7 ==> MetaSuffix[i] != '_'
  {
    var w := "return ";
    assert MetaSuffix == w + (OpenRequire + DefaultRootname + "\")");
    forall i | 0 <= i < 7
      ensures MetaSuffix[i] != '_'
    {
      assert MetaSuffix[i] == w[i] && w[i] in w;
    }
  }

  lemma HeaderTailFacts()
    ensures HeaderTail[0] == '"' && Closed(HeaderTail)
  {
    var a, b, c := "\", function", "(require, _LOADED, ", ", __bundle_modules)";
    assert '(' !in a && '"' !in b && '"' !in RegisterWord && '"' !in c;
    ClosedOf(a);
    ClosedOf(b);
    ClosedOf(RegisterWord);
    ClosedOf(c);
    ClosedConcat(a, b);
    ClosedConcat(a + b, RegisterWord);
    ClosedConcat(a + b + RegisterWord, c);
  }

  lemma HeaderTailStart()
    ensures |HeaderTail| > 0 && HeaderTail[0] == '"'
  {
    assert HeaderTail == "\", function" + ("(require, _LOADED, " + RegisterWord + ", __bundle_modules)");
  }

  lemma FuncSuffixFacts()
    ensures |FuncSuffix| == 4 && FuncSuffix[0] == 'e' && '\n' !in FuncSuffix
  {
  }

  // ---------------------------------------------------------------------
  // One block, matched where it starts
  // ---------------------------------------------------------------------

  /** A module name the lazy name group reads back: it holds no `"` (and no `(`). */
  ghost predicate ReadableName(k: string)
  {
    '"' !in k && '(' !in k
  }

  /**
   * A module body the block pattern reads back unchanged: the whitespace runs
   * around it cannot swallow its first or last character, and it holds neither
   * `end)` nor `__bundle_require("`.
   */
  ghost predicate ReadableBody(v: string)
  {
    v != [] && !IsSpace(v[0]) && !IsCrLfSp(v[|v| - 1])
    && Absent(v, FuncSuffix) && Absent(v, OpenRequire)
  }

  /** What may follow a block: the trailer, or the next block. */
  ghost predicate Trailer(y: string)
  {
    y == MetaSuffix || StartsWith(y, OpenRegister)
  }

  /**
   * The parts of module `k`'s block lie in `t` from `s` on, and `y` follows it:
   * the name ends at `n`, the body runs from `b` to `e`.
   */
  ghost predicate BlockAt(t: string, s: nat, n: nat, b: nat, e: nat, k: string, v: string, y: string)
  {
    n == s + |OpenRegister| + |k| && b == n + |HeaderTail| + 1 && e == b + |v| && |t| == e + 6 + |y|
    && OccursAt(t, OpenRegister, s) && t[s + |OpenRegister|..n] == k
    && OccursAt(t, HeaderTail, n) && t[b - 1] == '\n' && t[b..e] == v && t[e] == '\n'
    && OccursAt(t, FuncSuffix, e + 1) && t[e + 5] == '\n' && t[e + 6..] == y
  }

  /** Where the parts of module `k`'s block lie in it. */
  lemma BlockParts(k: string, v: string, n: nat, b: nat, e: nat)
    requires n == |OpenRegister| + |k| && b == n + |HeaderTail| + 1 && e == b + |v|
    ensures BlockAt(Block(k, v), 0, n, b, e, k, v, [])
  {
    FuncSuffixFacts();
    var h := Header(k);
    var B := Block(k, v);
    assert h[..|OpenRegister|] == OpenRegister && h[|OpenRegister|..n] == k;
    assert h[n..] == HeaderTail;
    var r := v + "\n" + FuncSuffix + "\n";
    assert B == h + "\n" + r;
    assert r[..|v|] == v && r[|v|] == '\n' && r[|v| + 1..|v| + 5] == FuncSuffix && r[|v| + 5] == '\n';
    assert B[b..e] == v;
    assert B[e + 1..e + 5] == FuncSuffix;
  }

  lemma Embed(x: string, m: string, y: string, i: nat, j: nat)
    requires i <= j <= |m|
    ensures (x + m + y)[|x| + i..|x| + j] == m[i..j]
  {
  }

  /** The parts of a block stay where they are, shifted, inside a longer text. */
  lemma BlockShift(x: string, B: string, y: string, n: nat, b: nat, e: nat, k: string, v: string)
    requires BlockAt(B, 0, n, b, e, k, v, [])
    ensures BlockAt(x + B + y, |x|, |x| + n, |x| + b, |x| + e, k, v, y)
  {
    var t := x + B + y;
    Embed(x, B, y, 0, |OpenRegister|);
    Embed(x, B, y, |OpenRegister|, n);
    Embed(x, B, y, n, b - 1);
    Embed(x, B, y, b, e);
    Embed(x, B, y, e + 1, e + 5);
    assert B[..|OpenRegister|] == B[0..|OpenRegister|];
    assert t[|x| + b - 1] == B[b - 1] && t[|x| + e] == B[e] && t[|x| + e + 5] == B[e + 5];
    assert t[|x| + |B|..] == y;
  }

  /** A stretch of `v`, where `v` is the stretch `[b, e)` of `t`. */
  lemma SliceIn(t: string, b: nat, e: nat, v: string, i: nat, p: nat)
    requires b <= e <= |t| && t[b..e] == v && i + p <= |v|
    ensures v[i..i + p] == t[b + i..b + i + p]
  {
    var w := v[i..i + p];
    forall m | 0 <= m < p
      ensures w[m] == t[b + i + m]
    {
      assert w[m] == v[i + m];
      assert v[i + m] == t[b + i + m];
    }
    assert w == t[b + i..b + i + p];
  }

  /** The pattern is absent from the stretch `[b, e)` of `t` that holds `v`. */
  lemma AbsentInside(t: string, b: nat, e: nat, v: string, p: string)
    requires b <= e <= |t| && t[b..e] == v && Absent(v, p)
    ensures forall j: nat :: b <= j && j + |p| <= e ==> !OccursAt(t, p, j)
  {
    forall j: nat | b <= j && j + |p| <= e
      ensures !OccursAt(t, p, j)
    {
      SliceIn(t, b, e, v, j - b, |p|);
      assert !OccursAt(v, p, j - b);
    }
  }

  lemma NoQuoteIn(t: string, n0: nat, n: nat, k: string)
    requires n0 <= n <= |t| && t[n0..n] == k && '"' !in k
    ensures forall i :: n0 <= i < n ==> t[i] != '"'
  {
    forall i | n0 <= i < n
      ensures t[i] != '"'
    {
      assert t[i] == k[i - n0];
    }
  }

  /** The lazy name group from `n` stops at `e` when no `"` lies between. */
  lemma {:induction false} NameEndFrom(t: string, n: nat, e: nat)
    requires n <= e <= |t| && BodyAfterName(t, e).Some?
    requires forall i :: n <= i < e ==> t[i] != '"'
    ensures NameEnd(t, n) == Some(e)
    decreases e - n
  {
    if n == e {
      assert NameEnd(t, n) == Some(n);
    } else {
      HeaderTailStart();
      NotOccursAt(t, HeaderTail, n);
      NameEndFrom(t, n + 1, e);
      NameEndStep(t, n);
    }
  }

  /** Where no header tail starts, the lazy name group moves on by one character. */
  lemma NameEndStep(t: string, n: nat)
    requires n < |t| && !OccursAt(t, HeaderTail, n)
    ensures NameEnd(t, n) == NameEnd(t, n + 1)
  {
    assert BodyAfterName(t, n).None?;
  }

  /** After the header and its newline, a body that does not start with a space starts right there. */
  lemma BodyAfterNameAt(t: string, n: nat)
    requires OccursAt(t, HeaderTail, n) && n + |HeaderTail| + 1 < |t|
    requires t[n + |HeaderTail|] == '\n' && !IsSpace(t[n + |HeaderTail| + 1])
    requires FirstBodyEnd(t, n + |HeaderTail| + 1).Some?
    ensures BodyAfterName(t, n) == Some(n + |HeaderTail| + 1)
  {
    var h := n + |HeaderTail|;
    assert Span(t, h + 1, IsSpace) == h + 1;
    assert Span(t, h, IsSpace) == h + 1;
  }

  /** No block end starts inside a body that holds no `end)` and does not end in `[\r\n ]`. */
  lemma NoBlockEndBefore(t: string, x: nat, e: nat)
    requires x < e < |t| && t[e] == '\n' && !IsCrLfSp(t[e - 1])
    requires forall p: nat :: x <= p && p + |FuncSuffix| <= e ==> !OccursAt(t, FuncSuffix, p)
    ensures BlockEndAt(t, x).None?
  {
    FuncSuffixFacts();
    var q := Span(t, x, IsCrLfSp);
    assert q < e;
    if q + |FuncSuffix| <= |t| && e < q + |FuncSuffix| {
      assert t[q..q + |FuncSuffix|][e - q] == t[e];
    }
  }

  /** The lazy body group stops at the end of a body that holds no `end)`. */
  lemma FirstBodyEndAt(t: string, b: nat, e: nat)
    requires b <= e < |t| && t[e] == '\n' && (b < e ==> !IsCrLfSp(t[e - 1]))
    requires forall p: nat :: b <= p && p + |FuncSuffix| <= e ==> !OccursAt(t, FuncSuffix, p)
    requires BlockEndAt(t, e).Some?
    ensures FirstBodyEnd(t, b) == Some(e)
  {
    forall p | b <= p < e
      ensures FirstBodyEnd(t, p) == FirstBodyEnd(t, p + 1)
    {
      FirstBodyEndPass(t, p, e);
    }
    FirstBodyEndHere(t, e);
    FirstBodyEndChain(t, b, e);
  }

  /** The lazy body group from `b` finds `e` when it finds `e` from there and passes on at each step in between. */
  lemma {:induction false} FirstBodyEndChain(t: string, b: nat, e: nat)
    requires b <= e <= |t| && FirstBodyEnd(t, e) == Some(e)
    requires forall p :: b <= p < e ==> FirstBodyEnd(t, p) == FirstBodyEnd(t, p + 1)
    ensures FirstBodyEnd(t, b) == Some(e)
    decreases e - b
  {
    if b < e {
      FirstBodyEndChain(t, b + 1, e);
    }
  }

  /** The lazy body group passes over a position inside a body that holds no `end)`. */
  lemma FirstBodyEndPass(t: string, b: nat, e: nat)
    requires b < e < |t| && t[e] == '\n' && !IsCrLfSp(t[e - 1])
    requires forall p: nat :: b <= p && p + |FuncSuffix| <= e ==> !OccursAt(t, FuncSuffix, p)
    ensures FirstBodyEnd(t, b) == FirstBodyEnd(t, b + 1)
  {
    NoBlockEndBefore(t, b, e);
    FirstBodyEndStep(t, b);
  }

  /** The lazy body group stops at once where a block end starts. */
  lemma FirstBodyEndHere(t: string, b: nat)
    requires b <= |t| && BlockEndAt(t, b).Some?
    ensures FirstBodyEnd(t, b) == Some(b)
  {
  }

  /** The lazy body group passes over a position where no block end starts. */
  lemma FirstBodyEndStep(t: string, b: nat)
    requires b < |t| && BlockEndAt(t, b).None?
    ensures FirstBodyEnd(t, b) == FirstBodyEnd(t, b + 1)
  {
  }

  /** `\nend)\n` followed by the trailer or the next block ends the block. */
  lemma BlockEndAtEnd(t: string, e: nat)
    requires e + 6 < |t| && t[e] == '\n' && OccursAt(t, FuncSuffix, e + 1) && t[e + 5] == '\n'
    requires !IsCrLf(t[e + 6]) && GroupAt(t, e + 6).Some?
    ensures BlockEndAt(t, e) == Some(e + 6)
  {
    FuncSuffixFacts();
    assert t[e + 1] == t[e + 1..e + 5][0];
    assert Span(t, e + 1, IsCrLfSp) == e + 1;
    assert Span(t, e + 6, IsCrLf) == e + 6;
  }

  /** What follows a block is one group of the repetition and the last one. */
  lemma TrailerAt(t: string, g: nat, y: string)
    requires g <= |t| && t[g..] == y && Trailer(y)
    ensures TrailerStart(t, g)
  {
    TrailerFacts();
    RegisterFacts();
    if y == MetaSuffix {
      assert t[g] == y[0];
      assert t[g..g + |MetaSuffix|] == MetaSuffix;
    } else {
      assert t[g..g + |OpenRegister|] == y[..|OpenRegister|];
      assert t[g] == OpenRegister[0];
      NotOccursAt(t, MetaSuffix, g);
      assert t[g..g + |RegisterWord|] == RegisterWord;
      assert t[g + 17] == OpenRegister[17];
      NotOccursAt(t, MetaSuffix, g + 17);
      NotOccursAt(t, RegisterWord, g + 17);
    }
  }

  /** The block pattern at `s`, given where the parts of a block lie from there on. */
  lemma MatchAtParts(t: string, s: nat, n: nat, b: nat, e: nat, k: string, v: string, y: string)
    requires ReadableName(k) && ReadableBody(v) && BlockAt(t, s, n, b, e, k, v, y)
    requires TrailerStart(t, e + 6)
    ensures MatchAt(t, s) == Some(Scan(k, v, y))
  {
    BodyEndsAt(t, b, e, v);
    NameEndsAt(t, s + |OpenRegister|, n, b, k);
    MatchAtIs(t, s, n, b, e, e + 6);
  }

  /** The match at `s` from where each of its groups ends. */
  lemma MatchAtIs(t: string, s: nat, n: nat, b: nat, e: nat, g: nat)
    requires OccursAt(t, OpenRegister, s) && NameEnd(t, s + |OpenRegister|) == Some(n)
    requires BodyAfterName(t, n) == Some(b) && FirstBodyEnd(t, b) == Some(e)
    requires BlockEndAt(t, e) == Some(g) && TrailerStart(t, g)
    ensures MatchAt(t, s) == Some(Scan(t[s + |OpenRegister|..n], t[b..e], t[g..]))
  {
  }

  /** What follows a block is one group of the repetition and the last one. */
  ghost predicate TrailerStart(t: string, g: nat)
  {
    g < |t| && !IsCrLf(t[g]) && GroupAt(t, g).Some? && LastGroup(t, g) == g
  }

  /** The body group of a block captures its body, and the block ends before the trailer. */
  lemma BodyEndsAt(t: string, b: nat, e: nat, v: string)
    requires ReadableBody(v) && b <= e && e + 6 <= |t| && t[b..e] == v && t[e] == '\n'
    requires OccursAt(t, FuncSuffix, e + 1) && t[e + 5] == '\n' && TrailerStart(t, e + 6)
    ensures b < e && !IsSpace(t[b])
    ensures FirstBodyEnd(t, b) == Some(e) && BlockEndAt(t, e) == Some(e + 6)
  {
    assert t[b] == v[0] && t[e - 1] == v[|v| - 1];
    BlockEndAtEnd(t, e);
    AbsentInside(t, b, e, v, FuncSuffix);
    FirstBodyEndAt(t, b, e);
  }

  /** The name group of a block captures its name and the body starts after the header. */
  lemma NameEndsAt(t: string, n0: nat, n: nat, b: nat, k: string)
    requires ReadableName(k) && n == n0 + |k| && b == n + |HeaderTail| + 1 && b < |t|
    requires t[n0..n] == k && OccursAt(t, HeaderTail, n) && t[b - 1] == '\n'
    requires !IsSpace(t[b]) && FirstBodyEnd(t, b).Some?
    ensures NameEnd(t, n0) == Some(n) && BodyAfterName(t, n) == Some(b)
  {
    NoQuoteIn(t, n0, n, k);
    BodyAfterNameAt(t, n);
    NameEndFrom(t, n0, n);
  }

  /**
   * The block pattern, tried where module `k`'s block starts, captures `k`,
   * the body `v`, and leaves what follows the block.
   */
  lemma MatchBlock(x: string, k: string, v: string, y: string)
    requires ReadableName(k) && ReadableBody(v) && Trailer(y)
    ensures MatchAt(x + Block(k, v) + y, |x|) == Some(Scan(k, v, y))
  {
    var n := |OpenRegister| + |k|;
    var b := n + |HeaderTail| + 1;
    BlockParts(k, v, n, b, b + |v|);
    MatchIn(x, Block(k, v), y, n, b, b + |v|, k, v);
  }

  /** The block pattern, tried where a text laid out as module `k`'s block starts. */
  lemma MatchIn(x: string, B: string, y: string, n: nat, b: nat, e: nat, k: string, v: string)
    requires ReadableName(k) && ReadableBody(v) && Trailer(y) && BlockAt(B, 0, n, b, e, k, v, [])
    ensures MatchAt(x + B + y, |x|) == Some(Scan(k, v, y))
  {
    TrailerAfter(x, B, y, e);
    MatchShifted(x, B, y, n, b, e, k, v);
  }

  /** The block pattern, tried where a text laid out as module `k`'s block starts, before the trailer. */
  lemma MatchShifted(x: string, B: string, y: string, n: nat, b: nat, e: nat, k: string, v: string)
    requires ReadableName(k) && ReadableBody(v) && BlockAt(B, 0, n, b, e, k, v, [])
    requires TrailerStart(x + B + y, |x| + e + 6)
    ensures MatchAt(x + B + y, |x|) == Some(Scan(k, v, y))
  {
    BlockShift(x, B, y, n, b, e, k, v);
    MatchAtParts(x + B + y, |x|, |x| + n, |x| + b, |x| + e, k, v, y);
  }

  /** What follows a text `B` of length `e + 6` is one group of the repetition and the last one. */
  lemma TrailerAfter(x: string, B: string, y: string, e: nat)
    requires |B| == e + 6 && Trailer(y)
    ensures TrailerStart(x + B + y, |x| + e + 6)
  {
    var t := x + B + y;
    assert t[|x| + e + 6..] == y;
    TrailerAt(t, |x| + e + 6, y);
  }

  // ---------------------------------------------------------------------
  // The scan, block by block
  // ---------------------------------------------------------------------

  /** The search for a block header passes over positions where none starts. */
  lemma {:induction false} FindFromSkip(t: string, s: nat, m: nat)
    requires s <= m <= |t|
    requires forall j: nat :: s <= j < m ==> !OccursAt(t, OpenRegister, j)
    ensures FindFrom(t, s) == FindFrom(t, m)
    decreases m - s
  {
    if s < m {
      FindFromStep(t, s);
      FindFromSkip(t, s + 1, m);
    }
  }

  /** Where no block header starts, the search moves on by one character. */
  lemma FindFromStep(t: string, s: nat)
    requires s < |t| && !OccursAt(t, OpenRegister, s)
    ensures FindFrom(t, s) == FindFrom(t, s + 1)
  {
    assert MatchAt(t, s).None?;
  }

  /** A character of the pattern that the text lacks rules the pattern out. */
  lemma AbsentByChar(s: string, p: string, i: nat)
    requires i < |p| && p[i] !in s
    ensures Absent(s, p)
  {
    forall j: nat
      ensures !OccursAt(s, p, j)
    {
      if j + |p| <= |s| {
        assert s[j..j + |p|][i] == s[j + i] && s[j + i] in s;
      }
    }
  }

  /** No block header starts in the trailer, so scanning it finds nothing. */
  lemma TrailerScan()
    ensures FindNextBundledScript(MetaSuffix) == Scan("", "", "")
  {
    TrailerFacts();
    RegisterFacts();
    AbsentByChar(MetaSuffix, OpenRegister, 11);
    FindFromSkip(MetaSuffix, 0, |MetaSuffix|);
    assert MatchAt(MetaSuffix, |MetaSuffix|).None?;
  }

  /** Texts joined end to end, the last one added last. */
  ghost function Joined(xs: seq<string>): string
  {
    if xs == [] then "" else Joined(xs[..|xs| - 1]) + xs[|xs| - 1]
  }

  /** Joined texts: the first one, then the rest joined. */
  lemma {:induction false} JoinedCons(xs: seq<string>)
    requires xs != []
    ensures Joined(xs) == xs[0] + Joined(xs[1..])
    decreases |xs|
  {
    var n := |xs| - 1;
    if n == 0 {
      assert xs[1..] == [] && xs[..0] == [];
    } else {
      var init, rest := xs[..n], xs[1..];
      JoinedCons(init);
      assert init[0] == xs[0] && rest[..n - 1] == init[1..] && rest[n - 1] == xs[n];
      Assoc(xs[0], Joined(init[1..]), xs[n]);
    }
  }

  /** The blocks for the names `ks`, one text each. */
  ghost function BlockTexts(ks: seq<string>, reqs: map<string, string>): (r: seq<string>)
    requires forall k :: k in ks ==> k in reqs
    ensures |r| == |ks| && forall i :: 0 <= i < |ks| ==> r[i] == Block(ks[i], reqs[ks[i]])
  {
    seq(|ks|, i requires 0 <= i < |ks| => Block(ks[i], reqs[ks[i]]))
  }

  /** The text of the blocks is their texts joined. */
  lemma {:induction false} BlocksJoined(ks: seq<string>, reqs: map<string, string>)
    requires forall k :: k in ks ==> k in reqs
    ensures Blocks(ks, reqs) == Joined(BlockTexts(ks, reqs))
    decreases |ks|
  {
    if ks != [] {
      var n := |ks| - 1;
      BlocksJoined(ks[..n], reqs);
      BlockTextsTake(ks, reqs, n);
      BlocksSnoc(ks, reqs);
      JoinedSnoc(BlockTexts(ks, reqs));
    }
  }

  /** The blocks of a list of names: all but the last, then the last block. */
  lemma BlocksSnoc(ks: seq<string>, reqs: map<string, string>)
    requires ks != [] && forall k :: k in ks ==> k in reqs
    ensures forall k :: k in ks[..|ks| - 1] ==> k in reqs
    ensures Blocks(ks, reqs) == Blocks(ks[..|ks| - 1], reqs) + Block(ks[|ks| - 1], reqs[ks[|ks| - 1]])
  {
  }

  lemma JoinedSnoc(xs: seq<string>)
    requires xs != []
    ensures Joined(xs) == Joined(xs[..|xs| - 1]) + xs[|xs| - 1]
  {
  }

  lemma BlockTextsTake(ks: seq<string>, reqs: map<string, string>, n: nat)
    requires n <= |ks| && forall k :: k in ks ==> k in reqs
    ensures forall k :: k in ks[..n] ==> k in reqs
    ensures BlockTexts(ks, reqs)[..n] == BlockTexts(ks[..n], reqs)
  {
  }

  /** Each text of `xs` is the block of the name at the same place in `ks`. */
  ghost predicate BlocksOf(xs: seq<string>, ks: seq<string>, reqs: map<string, string>)
  {
    |xs| == |ks| && forall i :: 0 <= i < |ks| ==> ks[i] in reqs && xs[i] == Block(ks[i], reqs[ks[i]])
  }

  /** A text that starts with a block header still does with more after it. */
  lemma StartsRegister(B: string, y: string)
    requires OccursAt(B, OpenRegister, 0)
    ensures StartsWith(B + y, OpenRegister)
  {
    assert (B + y)[..|OpenRegister|] == B[..|OpenRegister|];
  }

  /** What follows a block in the bundle: the next block, or the trailer. */
  lemma JoinedTrailer(xs: seq<string>, ks: seq<string>, reqs: map<string, string>)
    requires BlocksOf(xs, ks, reqs)
    ensures Trailer(Joined(xs) + MetaSuffix)
  {
    if xs == [] {
      assert Joined(xs) + MetaSuffix == MetaSuffix;
    } else {
      JoinedCons(xs);
      var n := |OpenRegister| + |ks[0]|;
      var b := n + |HeaderTail| + 1;
      BlockParts(ks[0], reqs[ks[0]], n, b, b + |reqs[ks[0]]|);
      StartsRegister(xs[0], Joined(xs[1..]) + MetaSuffix);
      Assoc(xs[0], Joined(xs[1..]), MetaSuffix);
    }
  }

  /** The entries of `reqs` under the names in `ks`. */
  ghost function Entries(reqs: map<string, string>, ks: seq<string>): map<string, string>
    requires forall k :: k in ks ==> k in reqs
  {
    map k | k in ks :: reqs[k]
  }

  /** The names and bodies the block pattern reads back unchanged. */
  ghost predicate Readable(reqs: map<string, string>)
  {
    forall k :: k in reqs ==> ReadableName(k) && ReadableBody(reqs[k])
  }

  /** The scan of a first block: its name and body, and the rest of the text. */
  lemma FirstScan(x: string, xs: seq<string>, ks: seq<string>, reqs: map<string, string>)
    requires BlocksOf(xs, ks, reqs) && xs != [] && Readable(reqs)
    ensures MatchAt(x + Joined(xs) + MetaSuffix, |x|) == Some(Scan(ks[0], reqs[ks[0]], Joined(xs[1..]) + MetaSuffix))
  {
    var y := Joined(xs[1..]) + MetaSuffix;
    JoinedCons(xs);
    BlocksOfTail(xs, ks, reqs);
    JoinedTrailer(xs[1..], ks[1..], reqs);
    MatchBlock(x, ks[0], reqs[ks[0]], y);
    Regroup(x, xs[0], Joined(xs[1..]), MetaSuffix);
  }

  lemma BlocksOfTail(xs: seq<string>, ks: seq<string>, reqs: map<string, string>)
    requires BlocksOf(xs, ks, reqs) && xs != []
    ensures BlocksOf(xs[1..], ks[1..], reqs)
  {
  }

  lemma Regroup(x: string, a: string, b: string, c: string)
    ensures x + (a + b) + c == x + a + (b + c)
  {
  }

  /**
   * Scanning the blocks for `ks` and the trailer records each block's name
   * and body, on top of what was recorded before.
   */
  lemma {:induction false} ScriptsOf(xs: seq<string>, ks: seq<string>, reqs: map<string, string>, acc: map<string, string>)
    requires BlocksOf(xs, ks, reqs) && Readable(reqs)
    ensures forall k :: k in ks ==> k in reqs
    ensures Scripts(acc, FindNextBundledScript(Joined(xs) + MetaSuffix)) == acc + Entries(reqs, ks)
    decreases |ks|
  {
    if ks == [] {
      TrailerScan();
      assert Joined(xs) + MetaSuffix == MetaSuffix;
      assert Entries(reqs, ks) == map[];
    } else {
      var k, v := ks[0], reqs[ks[0]];
      var y := Joined(xs[1..]) + MetaSuffix;
      FirstScan([], xs, ks, reqs);
      ScanFirst([], Joined(xs), MetaSuffix, Scan(k, v, y));
      BlocksOfTail(xs, ks, reqs);
      ScriptsOf(xs[1..], ks[1..], reqs, acc[k := v]);
      EntriesCons(reqs, ks, acc);
    }
  }

  /** A match where the scan starts is what the scan finds. */
  lemma ScanFirst(x: string, a: string, b: string, r: Scan)
    requires x == [] && MatchAt(x + a + b, |x|) == Some(r)
    ensures FindNextBundledScript(a + b) == r
  {
    assert x + a + b == a + b;
  }

  lemma EntriesCons(reqs: map<string, string>, ks: seq<string>, acc: map<string, string>)
    requires ks != [] && forall k :: k in ks ==> k in reqs
    ensures forall k :: k in ks[1..] ==> k in reqs
    ensures acc[ks[0] := reqs[ks[0]]] + Entries(reqs, ks[1..]) == acc + Entries(reqs, ks)
  {
  }

  // ---------------------------------------------------------------------
  // The root call
  // ---------------------------------------------------------------------

  /** A block header holds no `__bundle_require("`: its only `("` follows `__bundle_register`. */
  lemma HeaderNoRequire(k: string)
    requires ReadableName(k)
    ensures Absent(Header(k), OpenRequire)
  {
    RegisterFacts();
    RequireFacts();
    HeaderTailFacts();
    var r := k + HeaderTail;
    if k == [] {
      assert r == HeaderTail;
    } else {
      assert k[|k| - 1] in k;
      ClosedOf(k);
      ClosedConcat(k, HeaderTail);
    }
    NoPairAfter(OpenRegister, r, OpenRequire);
  }

  /**
   * A pattern with `q` at 11 and `("` at 16 does not occur in a 19-character
   * text without `q` followed by a text without `("`.
   */
  lemma NoPairAfter(o: string, r: string, p: string)
    requires |o| == 19 && 'q' !in o && NoPair(r)
    requires |p| == 18 && p[11] == 'q' && p[16] == '(' && p[17] == '"'
    ensures Absent(o + r, p)
  {
    var h := o + r;
    forall j: nat
      ensures !OccursAt(h, p, j)
    {
      if j + |p| <= |h| {
        if j <= 7 {
          assert h[j..j + |p|][11] == h[j + 11] == o[j + 11];
          assert o[j + 11] in o;
        } else {
          var i := j + 16 - |o|;
          assert h[j..j + |p|][16] == h[j + 16] == r[i];
          assert h[j..j + |p|][17] == h[j + 17] == r[i + 1];
        }
      }
    }
  }

  /** The lines around a body add no `__bundle_require("`. */
  lemma AroundBody(h: string, v: string)
    requires Absent(h, OpenRequire) && Absent(v, OpenRequire)
    ensures Absent(h + "\n" + v + "\n" + FuncSuffix + "\n", OpenRequire)
  {
    RequireFacts();
    var nl := "\n";
    ShortAbsent(nl, OpenRequire);
    ShortAbsent(FuncSuffix, OpenRequire);
    AbsentJoinBefore(h, nl, OpenRequire);
    AbsentJoin(h + nl, v, OpenRequire);
    AbsentJoinBefore(h + nl + v, nl, OpenRequire);
    AbsentJoin(h + nl + v + nl, FuncSuffix, OpenRequire);
    AbsentJoinBefore(h + nl + v + nl + FuncSuffix, nl, OpenRequire);
  }

  /** A block whose body holds no `__bundle_require("` holds none either, and ends a line. */
  lemma BlockNoRequire(k: string, v: string)
    requires ReadableName(k) && ReadableBody(v)
    ensures Absent(Block(k, v), OpenRequire) && Block(k, v) != [] && Block(k, v)[|Block(k, v)| - 1] == '\n'
  {
    HeaderNoRequire(k);
    AroundBody(Header(k), v);
  }

  /** Blocks appended to a text that holds no `__bundle_require("` and ends a line keep it so. */
  lemma {:induction false} JoinedNoRequire(a: string, xs: seq<string>, ks: seq<string>, reqs: map<string, string>)
    requires Absent(a, OpenRequire) && a != [] && a[|a| - 1] == '\n'
    requires BlocksOf(xs, ks, reqs) && Readable(reqs)
    ensures Absent(a + Joined(xs), OpenRequire)
    ensures a + Joined(xs) != [] && (a + Joined(xs))[|a + Joined(xs)| - 1] == '\n'
    decreases |xs|
  {
    RequireFacts();
    if xs == [] {
      assert a + Joined(xs) == a;
    } else {
      BlockNoRequire(ks[0], reqs[ks[0]]);
      AbsentJoin(a, xs[0], OpenRequire);
      BlocksOfTail(xs, ks, reqs);
      JoinedNoRequire(a + xs[0], xs[1..], ks[1..], reqs);
      JoinedCons(xs);
      Assoc(a, xs[0], Joined(xs[1..]));
    }
  }

  /** The search for the root call passes over positions where none starts. */
  lemma {:induction false} RootNameSkip(t: string, s: nat, m: nat)
    requires s <= m <= |t|
    requires forall j: nat :: s <= j < m ==> !OccursAt(t, OpenRequire, j)
    ensures RootNameFrom(t, s) == RootNameFrom(t, m)
    decreases m - s
  {
    if s < m {
      RootNameStep(t, s);
      RootNameSkip(t, s + 1, m);
    }
  }

  lemma RootNameStep(t: string, s: nat)
    requires s < |t| && !OccursAt(t, OpenRequire, s)
    ensures RootNameFrom(t, s) == RootNameFrom(t, s + 1)
  {
    assert RootMatchAt(t, s).None?;
  }

  /** Where the parts of the trailer lie in it. */
  lemma TrailerParts()
    ensures |MetaSuffix| == 33
    ensures MetaSuffix[7..25] == OpenRequire && MetaSuffix[25..31] == DefaultRootname
    ensures MetaSuffix[31..] == "\")"
  {
    TrailerFacts();
    RequireFacts();
    var c := MetaSuffix[7..];
    assert c[..18] == OpenRequire && c[18..24] == DefaultRootname && c[24..] == "\")";
    assert MetaSuffix[7..25] == c[..18];
    assert MetaSuffix[25..31] == c[18..24];
    assert MetaSuffix[31..] == c[24..];
  }

  /** The root call in the trailer names `__root`. */
  lemma RootAtTrailer(w: string)
    ensures RootMatchAt(w + MetaSuffix, |w| + 7) == Some(DefaultRootname)
  {
    TrailerFacts();
    TrailerParts();
    var t := w + MetaSuffix;
    var s := |w| + 7;
    var a := s + |OpenRequire|;
    assert t[s..a] == MetaSuffix[7..25];
    forall i | a <= i < |t|
      ensures NotNewline(t[i])
    {
      assert t[i] == MetaSuffix[i - |w|] && MetaSuffix[i - |w|] in MetaSuffix;
    }
    assert Span(t, a, NotNewline) == |t|;
    assert t[|t| - 2..] == MetaSuffix[31..];
    assert LastIndexIn(t, "\")", a, |t| - 2) == Some(|t| - 2);
    assert t[a..|t| - 2] == MetaSuffix[25..31];
  }

  /** Before the trailer's root call, the only candidates are in `w`, which holds none. */
  lemma RootName(w: string)
    requires Absent(w, OpenRequire) && w != [] && w[|w| - 1] == '\n'
    ensures RootNameFrom(w + MetaSuffix, 0) == Some(DefaultRootname)
  {
    TrailerFacts();
    RequireFacts();
    var t := w + MetaSuffix;
    forall j: nat | j < |w| + 7
      ensures !OccursAt(t, OpenRequire, j)
    {
      if j < |w| {
        AbsentBefore(w, MetaSuffix, OpenRequire, j);
      } else {
        assert t[j] == MetaSuffix[j - |w|];
        NotOccursAt(t, OpenRequire, j);
      }
    }
    RootNameSkip(t, 0, |w| + 7);
    RootAtTrailer(w);
  }

  // ---------------------------------------------------------------------
  // The round trip
  // ---------------------------------------------------------------------

  lemma BlockTextsOf(ks: seq<string>, reqs: map<string, string>)
    requires forall k :: k in ks ==> k in reqs
    ensures BlocksOf(BlockTexts(ks, reqs), ks, reqs)
  {
  }

  /** A text without `("` still has none once a line break follows it. */
  lemma NoPairLine(prefix: string)
    requires NoPair(prefix)
    ensures NoPair(prefix + "\n")
  {
    var a := prefix + "\n";
    forall i | 0 <= i < |a| - 1
      ensures !(a[i] == '(' && a[i + 1] == '"')
    {
      if i + 1 < |prefix| {
        assert a[i] == prefix[i] && a[i + 1] == prefix[i + 1];
      } else {
        assert a[i + 1] == '\n';
      }
    }
  }

  /** Neither a block header nor the root call starts in the line before the blocks. */
  lemma PrefixLine(prefix: string, b: string, c: string)
    requires NoPair(prefix)
    ensures forall j: nat :: j < |prefix| + 1 ==> !OccursAt(prefix + "\n" + b + c, OpenRegister, j)
    ensures Absent(prefix + "\n", OpenRequire)
  {
    RegisterFacts();
    RequireFacts();
    var a := prefix + "\n";
    NoPairLine(prefix);
    PairAbsent(a, OpenRegister, 17);
    PairAbsent(a, OpenRequire, 16);
    Assoc(a, b, c);
    forall j: nat | j < |a|
      ensures !OccursAt(a + b + c, OpenRegister, j)
    {
      AbsentBefore(a, b + c, OpenRegister, j);
    }
  }

  /** The first match of the scan, when no block header starts before it. */
  lemma ScanAfter(t: string, s: nat, r: Scan)
    requires s <= |t| && MatchAt(t, s) == Some(r)
    requires forall j: nat :: j < s ==> !OccursAt(t, OpenRegister, j)
    ensures FindNextBundledScript(t) == r
  {
    FindFromSkip(t, 0, s);
  }

  /** A block header makes the text a bundle. */
  lemma RegisterMakesBundled(t: string, s: nat)
    requires OccursAt(t, OpenRegister, s)
    ensures IsBundled(t)
  {
    RegisterFacts();
    assert t[s..s + |RegisterWord|] == t[s..s + |OpenRegister|][..17];
    assert OccursAt(t, RegisterWord, s);
  }

  /** The first step of `UnbundleAll`'s loop records the first block and goes on with the rest. */
  lemma ScriptsStep(r: Scan)
    requires r.leftover != []
    ensures Scripts(map[], r) == Scripts(map[r.name := r.body], FindNextBundledScript(r.leftover))
  {
  }

  /** Every entry of a map, under its sorted keys. */
  lemma EntriesAll(reqs: map<string, string>)
    ensures forall k :: k in SortedKeys(reqs) ==> k in reqs
    ensures map[] + Entries(reqs, SortedKeys(reqs)) == reqs
  {
  }

  /** The first scan of a bundle after a line without `("` finds the first block. */
  lemma ScanBundleFirst(prefix: string, xs: seq<string>, ks: seq<string>, reqs: map<string, string>)
    requires NoPair(prefix) && BlocksOf(xs, ks, reqs) && xs != [] && Readable(reqs)
    ensures IsBundled(prefix + "\n" + Joined(xs) + MetaSuffix)
    ensures FindNextBundledScript(prefix + "\n" + Joined(xs) + MetaSuffix)
      == Scan(ks[0], reqs[ks[0]], Joined(xs[1..]) + MetaSuffix)
  {
    var a := prefix + "\n";
    var t := a + Joined(xs) + MetaSuffix;
    FirstScan(a, xs, ks, reqs);
    PrefixLine(prefix, Joined(xs), MetaSuffix);
    ScanAfter(t, |a|, Scan(ks[0], reqs[ks[0]], Joined(xs[1..]) + MetaSuffix));
    RegisterMakesBundled(t, |a|);
  }

  /** The scan of a whole bundle after a line without `("`: every block, in order. */
  lemma ScanBundle(prefix: string, xs: seq<string>, ks: seq<string>, reqs: map<string, string>)
    requires NoPair(prefix) && BlocksOf(xs, ks, reqs) && xs != [] && Readable(reqs)
    ensures forall k :: k in ks ==> k in reqs
    ensures IsBundled(prefix + "\n" + Joined(xs) + MetaSuffix)
    ensures Scripts(map[], FindNextBundledScript(prefix + "\n" + Joined(xs) + MetaSuffix)) == map[] + Entries(reqs, ks)
  {
    var r := Scan(ks[0], reqs[ks[0]], Joined(xs[1..]) + MetaSuffix);
    ScanBundleFirst(prefix, xs, ks, reqs);
    ScriptsStep(r);
    BlocksOfTail(xs, ks, reqs);
    ScriptsOf(xs[1..], ks[1..], reqs, map[ks[0] := reqs[ks[0]]]);
    EntriesCons(reqs, ks, map[]);
  }

  /** `UnbundleAll` on blocks after a line without `("`: their entries, if `__root` is one. */
  lemma UnbundleJoined(prefix: string, xs: seq<string>, ks: seq<string>, reqs: map<string, string>, rootname: string)
    requires NoPair(prefix) && BlocksOf(xs, ks, reqs) && xs != [] && Readable(reqs)
    ensures forall k :: k in ks ==> k in reqs
    ensures NewRootname(prefix + "\n" + Joined(xs) + MetaSuffix, rootname) == DefaultRootname
    ensures UnbundleAllSpec(prefix + "\n" + Joined(xs) + MetaSuffix, rootname)
      == var m := map[] + Entries(reqs, ks);
         if DefaultRootname in m then Ok(m) else Err("Failed to find root bundle")
  {
    var a := prefix + "\n";
    ScanBundle(prefix, xs, ks, reqs);
    PrefixLine(prefix, [], []);
    JoinedNoRequire(a, xs, ks, reqs);
    RootName(a + Joined(xs));
  }

  /** The text written for a module map, as the joined texts of its blocks. */
  lemma RenderJoined(prefix: string, reqs: map<string, string>)
    requires reqs != map[]
    ensures forall k :: k in SortedKeys(reqs) ==> k in reqs
    ensures SortedKeys(reqs) != []
    ensures RenderWith(prefix, reqs) == prefix + "\n" + Joined(BlockTexts(SortedKeys(reqs), reqs)) + MetaSuffix
  {
    var ks := SortedKeys(reqs);
    BlocksJoined(ks, reqs);
    var k :| k in reqs;
    assert k in ks;
  }

  /**
   * `UnbundleAll` reads back every module of a bundle written after any
   * first part without `("`: the map itself when it has a `__root` module,
   * the root error otherwise. The root name becomes `__root`.
   */
  lemma UnbundleRenderedWith(prefix: string, reqs: map<string, string>, rootname: string)
    requires NoPair(prefix) && reqs != map[] && Readable(reqs)
    ensures NewRootname(RenderWith(prefix, reqs), rootname) == DefaultRootname
    ensures UnbundleAllSpec(RenderWith(prefix, reqs), rootname)
      == if DefaultRootname in reqs then Ok(reqs) else Err("Failed to find root bundle")
  {
    var ks := SortedKeys(reqs);
    RenderJoined(prefix, reqs);
    BlockTextsOf(ks, reqs);
    UnbundleJoined(prefix, BlockTexts(ks, reqs), ks, reqs, rootname);
    EntriesAll(reqs);
  }

  /**
   * The round trip of `Bundle` and `UnbundleAll`: the text written for a
   * module map reads back as that map, as long as its names and bodies are
   * readable and it has a `__root` module; `Unbundle` returns the root
   * module's script.
   */
  lemma UnbundleRendered(reqs: map<string, string>, rootname: string)
    requires reqs != map[] && Readable(reqs)
    ensures NewRootname(Render(reqs), rootname) == DefaultRootname
    ensures UnbundleAllSpec(Render(reqs), rootname)
      == if DefaultRootname in reqs then Ok(reqs) else Err("Failed to find root bundle")
    ensures UnbundleSpec(Render(reqs), rootname)
      == if DefaultRootname in reqs then Ok(reqs[DefaultRootname]) else Err("Failed to find root bundle")
  {
    MetaPrefixClosed();
    UnbundleRenderedWith(MetaPrefix, reqs, rootname);
  }
}
