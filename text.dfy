/**
 * String helpers shared by the bundlers: Go's byte length, substring search,
 * `strings.Split`/`strings.Join` on a one-character separator,
 * `strings.Replace` with count 1, and the byte order used by `sort.Strings`.
 */
module Text {

  import opened Json

  /** Number of bytes the UTF-8 encoding of `c` takes: what Go's `len` counts. */
  function CharBytes(c: char): (n: nat)
    ensures 1 <= n <= 4
  {
    if c as int < 0x80 then 1
    else if c as int < 0x800 then 2
    else if c as int < 0x10000 then 3
    else 4
  }

  /** Go's `len(s)` for a string: its length in UTF-8 bytes. */
  function Utf8Len(s: string): (n: nat)
    ensures |s| <= n <= 4 * |s|
  {
    if s == [] then 0 else CharBytes(s[0]) + Utf8Len(s[1..])
  }

  predicate IsAscii(s: string)
  {
    forall i :: 0 <= i < |s| ==> s[i] as int < 0x80
  }

  lemma {:induction false} AsciiLen(s: string)
    requires IsAscii(s)
    ensures Utf8Len(s) == |s|
  {
    if s != [] {
      assert IsAscii(s[1..]) by {
        forall i | 0 <= i < |s[1..]| ensures s[1..][i] as int < 0x80 {
          assert s[1..][i] == s[i + 1];
        }
      }
      AsciiLen(s[1..]);
    }
  }

  lemma {:induction false} Utf8LenConcat(a: string, b: string)
    ensures Utf8Len(a + b) == Utf8Len(a) + Utf8Len(b)
  {
    if a != [] {
      assert (a + b)[0] == a[0];
      assert (a + b)[1..] == a[1..] + b;
      Utf8LenConcat(a[1..], b);
    } else {
      assert a + b == b;
    }
  }

  /** The class `\s` of Go's regular expressions: tab, newline, form feed, carriage return, space. */
  predicate IsSpace(c: char)
  {
    c == '\t' || c == '\n' || c == '\U{000C}' || c == '\r' || c == ' '
  }

  /**
   * `path.Join(a, b)` for parts that are already clean: an empty part is
   * dropped and the other two are joined by a slash.
   */
  function JoinPath(a: string, b: string): string
  {
    if a == "" then b else if b == "" then a else a + "/" + b
  }

  predicate StartsWith(s: string, p: string)
  {
    |p| <= |s| && s[..|p|] == p
  }

  predicate EndsWith(s: string, p: string)
  {
    |p| <= |s| && s[|s| - |p|..] == p
  }

  /** `p` occurs in `s` starting at index `i`. */
  predicate OccursAt(s: string, p: string, i: nat)
  {
    i + |p| <= |s| && s[i..i + |p|] == p
  }

  /** A first character that differs rules out an occurrence at `i`. */
  lemma NotOccursAt(s: string, p: string, i: nat)
    requires i < |s| && p != [] && s[i] != p[0]
    ensures !OccursAt(s, p, i)
  {
    if i + |p| <= |s| {
      assert s[i..i + |p|][0] == s[i];
    }
  }

  /** Reference meaning of `strings.Contains`. */
  ghost predicate Contains(s: string, p: string)
  {
    exists i: nat :: OccursAt(s, p, i)
  }

  /** The first occurrence of `p` in `s` at or after `from`, found by scanning. */
  function IndexFrom(s: string, p: string, from: nat): (r: Option<nat>)
    requires from <= |s|
    decreases |s| - from
    ensures r.Some? ==> from <= r.value && OccursAt(s, p, r.value)
    ensures r.Some? ==> forall j: nat :: from <= j < r.value ==> !OccursAt(s, p, j)
    ensures r.None? ==> forall j: nat :: from <= j ==> !OccursAt(s, p, j)
  {
    if OccursAt(s, p, from) then Some(from)
    else if from == |s| then None
    else IndexFrom(s, p, from + 1)
  }

  /** The last occurrence of `p` in `s` that starts in `[lo, hi]`, found by scanning down. */
  function LastIndexIn(s: string, p: string, lo: nat, hi: nat): (r: Option<nat>)
    ensures r.Some? ==> lo <= r.value <= hi && OccursAt(s, p, r.value)
    ensures r.Some? ==> forall j: nat :: r.value < j <= hi ==> !OccursAt(s, p, j)
    ensures r.None? ==> forall j: nat :: lo <= j <= hi ==> !OccursAt(s, p, j)
    decreases hi
  {
    if hi < lo then None
    else if OccursAt(s, p, hi) then Some(hi)
    else if hi == 0 then None
    else LastIndexIn(s, p, lo, hi - 1)
  }

  /** The end of the longest run of characters satisfying `p` that starts at `i`. */
  function Span(t: string, i: nat, p: char -> bool): (j: nat)
    requires i <= |t|
    ensures i <= j <= |t|
    ensures forall k :: i <= k < j ==> p(t[k])
    ensures j == |t| || !p(t[j])
    decreases |t| - i
  {
    if i == |t| || !p(t[i]) then i else Span(t, i + 1, p)
  }

  /** `strings.Split(s, sep)` for a one-character separator. */
  function Split(s: string, sep: char): (r: seq<string>)
    ensures |r| >= 1
    ensures forall k :: 0 <= k < |r| ==> sep !in r[k]
    decreases |s|
  {
    SplitFrom(s, sep, 0, 0)
  }

  /** Pieces of `s[start..]`, where `s[start..i]` holds no separator yet. */
  function SplitFrom(s: string, sep: char, start: nat, i: nat): (r: seq<string>)
    requires start <= i <= |s|
    requires sep !in s[start..i]
    ensures |r| >= 1
    ensures forall k :: 0 <= k < |r| ==> sep !in r[k]
    decreases |s| - i
  {
    if i == |s| then [s[start..]]
    else if s[i] == sep then
      assert sep !in s[start..i];
      [s[start..i]] + SplitFrom(s, sep, i + 1, i + 1)
    else
      assert s[start..i + 1] == s[start..i] + [s[i]];
      SplitFrom(s, sep, start, i + 1)
  }

  /** `strings.Join(lines, sep)` for a one-character separator. */
  function Join(lines: seq<string>, sep: char): (r: string)
    decreases |lines|
  {
    if lines == [] then ""
    else if |lines| == 1 then lines[0]
    else lines[0] + [sep] + Join(lines[1..], sep)
  }

  lemma {:induction false} SplitFromJoin(s: string, sep: char, start: nat, i: nat)
    requires start <= i <= |s|
    requires sep !in s[start..i]
    ensures Join(SplitFrom(s, sep, start, i), sep) == s[start..]
    decreases |s| - i
  {
    if i == |s| {
    } else if s[i] == sep {
      SplitFromJoin(s, sep, i + 1, i + 1);
      var rest := SplitFrom(s, sep, i + 1, i + 1);
      assert SplitFrom(s, sep, start, i) == [s[start..i]] + rest;
      assert s[start..] == s[start..i] + [sep] + s[i + 1..];
    } else {
      assert s[start..i + 1] == s[start..i] + [s[i]];
      SplitFromJoin(s, sep, start, i + 1);
    }
  }

  /** Splitting and joining again gives back the text. */
  lemma JoinSplit(s: string, sep: char)
    ensures Join(Split(s, sep), sep) == s
  {
    SplitFromJoin(s, sep, 0, 0);
  }

  /** Splitting text that holds no separator gives the text as its only piece. */
  lemma {:induction false} SplitNoSep(s: string, sep: char, start: nat, i: nat)
    requires start <= i <= |s|
    requires sep !in s[start..]
    ensures SplitFrom(s, sep, start, i) == [s[start..]]
    decreases |s| - i
  {
    if i < |s| {
      assert s[i] == s[start..][i - start];
      assert s[start..i + 1] == s[start..i] + [s[i]];
      SplitNoSep(s, sep, start, i + 1);
    }
  }

  lemma {:induction false} SplitFromPrefix(s: string, sep: char, start: nat, i: nat, j: nat)
    requires start <= i <= j <= |s|
    requires sep !in s[start..j]
    ensures SplitFrom(s, sep, start, i) == SplitFrom(s, sep, start, j)
    decreases j - i
  {
    if i < j {
      assert s[i] == s[start..j][i - start];
      assert s[start..i + 1] == s[start..i] + [s[i]];
      SplitFromPrefix(s, sep, start, i + 1, j);
    }
  }

  /** Joining lines free of the separator and splitting again gives back the lines. */
  lemma {:induction false} SplitJoin(lines: seq<string>, sep: char)
    requires |lines| >= 1
    requires forall k :: 0 <= k < |lines| ==> sep !in lines[k]
    ensures Split(Join(lines, sep), sep) == lines
    decreases |lines|
  {
    var s := Join(lines, sep);
    if |lines| == 1 {
      SplitNoSep(s, sep, 0, 0);
    } else {
      var rest := Join(lines[1..], sep);
      var n := |lines[0]|;
      assert s == lines[0] + [sep] + rest;
      assert s[0..n] == lines[0];
      SplitFromPrefix(s, sep, 0, 0, n);
      assert s[n] == sep;
      SplitJoin(lines[1..], sep);
      SplitShift(lines[0] + [sep], rest, sep);
      assert lines == [lines[0]] + lines[1..];
    }
  }

  /** Pieces of `p + t` after the prefix `p` are the pieces of `t`. */
  lemma SplitShift(p: string, t: string, sep: char)
    ensures SplitFrom(p + t, sep, |p|, |p|) == Split(t, sep)
  {
    SplitShiftFrom(p, t, sep, 0, 0);
  }

  lemma {:induction false} SplitShiftFrom(p: string, t: string, sep: char, start: nat, i: nat)
    requires start <= i <= |t|
    requires sep !in t[start..i]
    ensures SplitFrom(p + t, sep, |p| + start, |p| + i) == SplitFrom(t, sep, start, i)
    decreases |t| - i
  {
    var s := p + t;
    assert s[|p| + start..|p| + i] == t[start..i];
    assert s[|p| + start..] == t[start..];
    if i < |t| {
      assert s[|p| + i] == t[i];
      if t[i] == sep {
        SplitShiftFrom(p, t, sep, i + 1, i + 1);
      } else {
        assert t[start..i + 1] == t[start..i] + [t[i]];
        SplitShiftFrom(p, t, sep, start, i + 1);
      }
    }
  }

  /**
   * `strings.Replace(s, pat, rep, 1)`: the first occurrence of `pat` is
   * replaced by `rep`; an empty `pat` matches at the start.
   */
  function ReplaceFirst(s: string, pat: string, rep: string): (r: string)
    ensures !Contains(s, pat) ==> r == s
    ensures pat == [] ==> r == rep + s
  {
    match IndexFrom(s, pat, 0)
    case None => s
    case Some(i) =>
      assert OccursAt(s, pat, i);
      s[..i] + rep + s[i + |pat|..]
  }

  /** When `pat` first occurs after the prefix `a`, the replacement splices at that point. */
  lemma ReplaceAt(a: string, pat: string, b: string, rep: string)
    requires forall j: nat :: j < |a| ==> !OccursAt(a + pat + b, pat, j)
    ensures ReplaceFirst(a + pat + b, pat, rep) == a + rep + b
  {
    var s := a + pat + b;
    assert OccursAt(s, pat, |a|);
    var r := IndexFrom(s, pat, 0);
    assert r.Some? && r.value == |a|;
    assert s[..|a|] == a;
    assert s[|a| + |pat|..] == b;
  }

  // ---------------------------------------------------------------------
  // Byte order of strings, as used by `sort.Strings`. UTF-8 preserves the
  // order of code points, so comparing characters compares bytes.
  // ---------------------------------------------------------------------

  /** `a <= b` in Go's string order. */
  predicate Below(a: string, b: string)
    decreases |a|
  {
    a == [] || (b != [] && (a[0] < b[0] || (a[0] == b[0] && Below(a[1..], b[1..]))))
  }

  lemma {:induction false} BelowTotal(a: string, b: string)
    ensures Below(a, b) || Below(b, a)
    decreases |a|
  {
    if a != [] && b != [] && a[0] == b[0] {
      BelowTotal(a[1..], b[1..]);
    }
  }

  lemma {:induction false} BelowAntisym(a: string, b: string)
    requires Below(a, b) && Below(b, a)
    ensures a == b
    decreases |a|
  {
    if a != [] {
      BelowAntisym(a[1..], b[1..]);
      assert a == [a[0]] + a[1..] && b == [b[0]] + b[1..];
    }
  }

  lemma {:induction false} BelowTrans(a: string, b: string, c: string)
    requires Below(a, b) && Below(b, c)
    ensures Below(a, c)
    decreases |a|
  {
    if a != [] && a[0] == b[0] && b[0] == c[0] {
      BelowTrans(a[1..], b[1..], c[1..]);
    }
  }

  predicate Sorted(s: seq<string>)
  {
    forall i, j :: 0 <= i < j < |s| ==> Below(s[i], s[j])
  }

  /** Sorted and without repeats: what iterating a sorted key list gives. */
  predicate StrictlySorted(s: seq<string>)
  {
    forall i, j :: 0 <= i < j < |s| ==> Below(s[i], s[j]) && s[i] != s[j]
  }

  function Insert(x: string, s: seq<string>): (r: seq<string>)
    requires Sorted(s)
    ensures Sorted(r)
    ensures multiset(r) == multiset(s) + multiset{x}
    decreases |s|
  {
    if s == [] then [x]
    else if Below(x, s[0]) then
      assert forall j :: 0 <= j < |s| ==> Below(x, s[j]) by {
        forall j | 0 <= j < |s| ensures Below(x, s[j]) {
          if j > 0 { BelowTrans(x, s[0], s[j]); }
        }
      }
      [x] + s
    else
      var t := Insert(x, s[1..]);
      BelowTotal(x, s[0]);
      assert s == [s[0]] + s[1..];
      assert forall j :: 0 <= j < |t| ==> Below(s[0], t[j]) by {
        forall j | 0 <= j < |t| ensures Below(s[0], t[j]) {
          assert t[j] in multiset(t);
          assert t[j] == x || t[j] in multiset(s[1..]);
          if t[j] != x {
            var k :| 0 <= k < |s[1..]| && s[1..][k] == t[j];
            assert s[k + 1] == t[j];
          }
        }
      }
      [s[0]] + t
  }

  /** `sort.Strings`: a sorted permutation of the input. */
  function Sort(s: seq<string>): (r: seq<string>)
    ensures Sorted(r)
    ensures multiset(r) == multiset(s)
    decreases |s|
  {
    if s == [] then []
    else
      assert s == [s[0]] + s[1..];
      Insert(s[0], Sort(s[1..]))
  }

  /** Some enumeration of a finite set, no element twice. */
  ghost function SetToSeq(s: set<string>): (r: seq<string>)
    ensures multiset(r) == multiset(s)
    decreases |s|
  {
    if s == {} then []
    else
      var x :| x in s;
      [x] + SetToSeq(s - {x})
  }

  lemma CountTwo(r: seq<string>, i: nat, j: nat)
    requires i < j < |r| && r[i] == r[j]
    ensures multiset(r)[r[i]] >= 2
  {
    assert r == r[..i] + [r[i]] + r[i + 1..j] + [r[j]] + r[j + 1..];
  }

  /** A sorted permutation of a set's elements has no element twice. */
  lemma SortedSetIsStrict(r: seq<string>, s: set<string>)
    requires Sorted(r) && multiset(r) == multiset(s)
    ensures StrictlySorted(r)
    ensures forall k :: k in s <==> k in r
    ensures |r| == |s|
  {
    forall i, j | 0 <= i < j < |r| ensures r[i] != r[j] {
      if r[i] == r[j] {
        CountTwo(r, i, j);
        assert false;
      }
    }
    forall k ensures k in s <==> k in r {
      assert k in s <==> k in multiset(s);
      assert k in r <==> k in multiset(r);
    }
    assert |r| == |multiset(r)| == |multiset(s)| == |s|;
  }

  /** The keys of a map in ascending order, each once. */
  ghost function SortedKeys<V>(m: map<string, V>): (r: seq<string>)
    ensures StrictlySorted(r)
    ensures forall k :: k in m <==> k in r
    ensures |r| == |m|
  {
    var r := Sort(SetToSeq(m.Keys));
    SortedSetIsStrict(r, m.Keys);
    r
  }

  /** Two strictly ascending sequences with the same elements are equal. */
  lemma {:induction false} StrictlySortedUnique(a: seq<string>, b: seq<string>)
    requires StrictlySorted(a) && StrictlySorted(b)
    requires forall k :: k in a <==> k in b
    ensures a == b
    decreases |a|
  {
    if a != [] {
      assert a[0] in a;
    }
    if b != [] {
      assert b[0] in b;
    }
    if a != [] && b != [] {
      assert a[0] in b;
      assert b[0] in a;
      var i :| 0 <= i < |b| && b[i] == a[0];
      var j :| 0 <= j < |a| && a[j] == b[0];
      if a[0] != b[0] {
        assert i > 0 && j > 0;
        assert Below(b[0], a[0]) && Below(a[0], b[0]);
        BelowAntisym(a[0], b[0]);
        assert false;
      }
      forall k ensures k in a[1..] <==> k in b[1..] {
        if k in a[1..] {
          var p :| 0 < p < |a| && a[p] == k;
          assert k != a[0];
          assert k in a;
          assert k in b;
          var q :| 0 <= q < |b| && b[q] == k;
          assert q != 0;
          assert b[1..][q - 1] == k;
        }
        if k in b[1..] {
          var p :| 0 < p < |b| && b[p] == k;
          assert k != b[0];
          assert k in b;
          assert k in a;
          var q :| 0 <= q < |a| && a[q] == k;
          assert q != 0;
          assert a[1..][q - 1] == k;
        }
      }
      StrictlySortedUnique(a[1..], b[1..]);
      assert a == [a[0]] + a[1..] && b == [b[0]] + b[1..];
    } else if a != [] {
      assert false;
    } else if b != [] {
      assert false;
    }
  }

  /** The keys of `m` in ascending order, gathered one at a time. */
  method KeysInOrder<V>(m: map<string, V>) returns (r: seq<string>)
    ensures r == SortedKeys(m)
  {
    var keys: seq<string> := [];
    var rest := m.Keys;
    while rest != {}
      invariant multiset(keys) + multiset(rest) == multiset(m.Keys)
      invariant rest <= m.Keys
      decreases |rest|
    {
      var k :| k in rest;
      keys := keys + [k];
      rest := rest - {k};
    }
    r := Sort(keys);
    SortedSetIsStrict(r, m.Keys);
    StrictlySortedUnique(r, SortedKeys(m));
  }
}
