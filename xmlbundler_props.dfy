/**
 * Properties of the XML include bundler: what bundling leaves alone, when it
 * fails, that unindenting undoes indenting, what unbundling leaves alone, and
 * that an odd number of marker lines can never be unbundled.
 */
module XmlBundlerProps {
  import opened Json
  import opened Text
  import opened XmlBundler

  // ---------------------------------------------------------------------
  // BundleXML
  // ---------------------------------------------------------------------

  /** No line of `lines` holds an include. */
  predicate NoIncludes(lines: seq<string>)
  {
    forall k :: 0 <= k < |lines| ==> IncludeLine(lines[k]).None?
  }

  /** Lines without includes are copied as they are. */
  lemma {:induction false} BundleLinesNoIncludes(lines: seq<string>, reader: map<string, string>, fuel: nat)
    requires NoIncludes(lines)
    ensures BundleLines(lines, reader, fuel) == Ok(lines)
    decreases |lines|
  {
    if lines != [] {
      var init := lines[..|lines| - 1];
      assert NoIncludes(init) by {
        forall k | 0 <= k < |init| ensures IncludeLine(init[k]).None? {
          assert init[k] == lines[k];
        }
      }
      BundleLinesNoIncludes(init, reader, fuel);
      assert init + [lines[|lines| - 1]] == lines;
    }
  }

  /** A file without include lines bundles to itself, whatever the reader holds. */
  lemma BundleWithoutIncludes(rawxml: string, reader: map<string, string>, fuel: nat)
    requires NoIncludes(Split(rawxml, '\n'))
    ensures BundleXMLSpec(rawxml, reader, fuel) == Ok(rawxml)
  {
    BundleLinesNoIncludes(Split(rawxml, '\n'), reader, fuel);
    JoinSplit(rawxml, '\n');
  }

  /** Bundling succeeds exactly when every line expands. */
  lemma {:induction false} BundleLinesOk(lines: seq<string>, reader: map<string, string>, fuel: nat)
    ensures BundleLines(lines, reader, fuel).Ok? <==>
      forall k :: 0 <= k < |lines| ==> ExpandLine(lines[k], reader, fuel).Ok?
    decreases |lines|
  {
    if lines != [] {
      var init := lines[..|lines| - 1];
      BundleLinesOk(init, reader, fuel);
      assert forall k :: 0 <= k < |init| ==> init[k] == lines[k];
    }
  }

  /** An include of a file the reader does not hold makes bundling fail. */
  lemma MissingIncludeFails(rawxml: string, reader: map<string, string>, fuel: nat, k: nat)
    requires k < |Split(rawxml, '\n')|
    requires IncludeLine(Split(rawxml, '\n')[k]).Some?
    requires XmlFileName(IncludeLine(Split(rawxml, '\n')[k]).value.name) !in reader
    ensures BundleXMLSpec(rawxml, reader, fuel).Err?
  {
    BundleLinesOk(Split(rawxml, '\n'), reader, fuel);
    assert ExpandLine(Split(rawxml, '\n')[k], reader, fuel).Err?;
  }

  /** A file that includes itself cannot be bundled, whatever the depth bound. */
  lemma {:induction false} SelfIncludeFails(fname: string, reader: map<string, string>, fuel: nat, k: nat)
    requires fname in reader && k < |Split(reader[fname], '\n')|
    requires IncludeLine(Split(reader[fname], '\n')[k]).Some?
    requires XmlFileName(IncludeLine(Split(reader[fname], '\n')[k]).value.name) == fname
    ensures BundleXMLSpec(reader[fname], reader, fuel).Err?
    decreases fuel
  {
    var lines := Split(reader[fname], '\n');
    BundleLinesOk(lines, reader, fuel);
    if fuel > 0 {
      SelfIncludeFails(fname, reader, fuel - 1, k);
    }
    assert ExpandLine(lines[k], reader, fuel).Err?;
  }

  // ---------------------------------------------------------------------
  // indentString and unindentAndJoin
  // ---------------------------------------------------------------------

  /** Removing the first occurrence of the indent from an indented line gives the line back. */
  lemma UnindentLine(indent: string, l: string)
    ensures ReplaceFirst(indent + l, indent, "") == l
  {
    assert [] + indent + l == indent + l;
    ReplaceAt([], indent, l, "");
  }

  /** An indent without a newline keeps the lines of the text and prefixes each of them. */
  lemma SplitIndented(s: string, indent: string)
    requires '\n' !in indent
    ensures Split(Indented(s, indent), '\n') == PrefixAll(Split(s, '\n'), indent)
  {
    var lines := PrefixAll(Split(s, '\n'), indent);
    assert forall k :: 0 <= k < |lines| ==> '\n' !in lines[k];
    SplitJoin(lines, '\n');
  }

  /** `unindentAndJoin` undoes `indentString` for an indent without a newline. */
  lemma UnindentIndented(s: string, indent: string)
    requires '\n' !in indent
    ensures Unindented(Split(Indented(s, indent), '\n'), indent) == s
  {
    SplitIndented(s, indent);
    var lines := Split(s, '\n');
    var back := RemoveFirstAll(PrefixAll(lines, indent), indent);
    forall k | 0 <= k < |lines| ensures back[k] == lines[k] {
      UnindentLine(indent, lines[k]);
    }
    assert back == lines;
    JoinSplit(s, '\n');
  }

  // ---------------------------------------------------------------------
  // UnbundleAllXML
  // ---------------------------------------------------------------------

  /** The number of marker lines in `lines`. */
  function Markers(lines: seq<string>): (n: nat)
    ensures n <= |lines|
  {
    if lines == [] then 0
    else (if MarkerLine(lines[0]).Some? then 1 else 0) + Markers(lines[1..])
  }

  /** Without marker lines and open includes the scan keeps the lines as they are. */
  lemma {:induction false} LoopWithoutMarkers(xml: seq<string>, ln: nat, store: map<string, string>)
    requires ln <= |xml| && Markers(xml[ln..]) == 0
    ensures UnbundleLoop(xml, ln, [], store) == Ok(Scanned(xml, store))
    decreases |xml| - ln
  {
    if ln < |xml| {
      assert xml[ln..][1..] == xml[ln + 1..];
      LoopWithoutMarkers(xml, ln + 1, store);
    }
  }

  /** A file without marker lines unbundles to itself alone, stored under the root name. */
  lemma UnbundleWithoutMarkers(rawxml: string, rootname: string)
    requires Markers(Split(rawxml, '\n')) == 0
    ensures UnbundleAllXMLSpec(rawxml, rootname) == Ok(map[rootname := rawxml])
  {
    var xml := Split(rawxml, '\n');
    assert xml[0..] == xml;
    LoopWithoutMarkers(xml, 0, map[]);
    forall k | 0 <= k < |xml| ensures RemoveFirstAll(xml, "")[k] == xml[k] {
      assert "" + xml[k] == xml[k];
    }
    assert RemoveFirstAll(xml, "") == xml;
    JoinSplit(rawxml, '\n');
  }

  /**
   * Each step of the scan keeps the parity of the marker lines still ahead
   * plus the open includes, so an odd total can never end with an empty stack.
   */
  lemma {:induction false} OddLoopFails(xml: seq<string>, ln: nat, stack: seq<Inc>, store: map<string, string>)
    requires ln <= |xml| && StackBelow(stack, ln)
    requires (Markers(xml[ln..]) + |stack|) % 2 == 1
    ensures UnbundleLoop(xml, ln, stack, store).Err?
    decreases |xml|, |xml| - ln, 1
  {
    if ln < |xml| {
      assert xml[ln..][1..] == xml[ln + 1..];
      match MarkerLine(xml[ln])
      case None =>
        OddLoopFails(xml, ln + 1, stack, store);
      case Some(tag) =>
        if |stack| > 0 && stack[0].name == tag.name {
          OddClose(xml, ln, stack, store, tag);
        } else {
          var stack' := [Inc(tag.name, ln)] + stack;
          assert StackBelow(stack', ln + 1);
          OddLoopFails(xml, ln + 1, stack', store);
        }
    }
  }

  /** The step of `OddLoopFails` at a marker that closes the innermost open include. */
  lemma {:induction false} OddClose(xml: seq<string>, ln: nat, stack: seq<Inc>, store: map<string, string>, tag: Tag)
    requires ln < |xml| && StackBelow(stack, ln) && |stack| > 0
    requires MarkerLine(xml[ln]) == Some(tag) && stack[0].name == tag.name
    requires (Markers(xml[ln + 1..]) + |stack|) % 2 == 0
    ensures UnbundleLoop(xml, ln, stack, store).Err?
    decreases |xml|, |xml| - ln, 0
  {
    var s := stack[0].start;
    var xml' := xml[..s] + [IncludeTag(tag.indent, stack[0].name)] + xml[ln + 1..];
    var store' := store[stack[0].name := Unindented(xml[s + 1..ln], tag.indent)];
    assert UnbundleLoop(xml, ln, stack, store) == UnbundleLoop(xml', s + 1, stack[1..], store');
    assert xml'[s + 1..] == xml[ln + 1..];
    OddLoopFails(xml', s + 1, stack[1..], store');
  }

  /** A bundled file with an odd number of marker lines cannot be unbundled. */
  lemma OddMarkersFail(rawxml: string, rootname: string)
    requires Markers(Split(rawxml, '\n')) % 2 == 1
    ensures UnbundleAllXMLSpec(rawxml, rootname).Err?
  {
    var xml := Split(rawxml, '\n');
    assert xml[0..] == xml;
    OddLoopFails(xml, 0, [], map[]);
  }

  // ---------------------------------------------------------------------
  // One level of includes, bundled and unbundled again
  // ---------------------------------------------------------------------

  /** No line of `lines` holds a newline. */
  predicate NoNewlines(lines: seq<string>)
  {
    forall k :: 0 <= k < |lines| ==> '\n' !in lines[k]
  }

  /** Bundling lines one after the other bundles their concatenation. */
  lemma {:induction false} BundleLinesConcat(a: seq<string>, b: seq<string>, reader: map<string, string>, fuel: nat)
    requires BundleLines(a, reader, fuel).Ok? && BundleLines(b, reader, fuel).Ok?
    ensures BundleLines(a + b, reader, fuel) == Ok(BundleLines(a, reader, fuel).value + BundleLines(b, reader, fuel).value)
    decreases |b|
  {
    var x := BundleLines(a, reader, fuel).value;
    if b == [] {
      assert a + b == a && x + [] == x;
    } else {
      var init := b[..|b| - 1];
      var last := b[|b| - 1];
      var y0 := BundleLines(init, reader, fuel).value;
      var pieces := ExpandLine(last, reader, fuel).value;
      assert BundleLines(b, reader, fuel).value == y0 + pieces;
      assert (a + b)[..|a + b| - 1] == a + init;
      assert (a + b)[|a + b| - 1] == last;
      BundleLinesConcat(a, init, reader, fuel);
      assert BundleLines(a + b, reader, fuel) == Ok((x + y0) + pieces);
      assert (x + y0) + pieces == x + (y0 + pieces);
    }
  }

  /** A single line bundles to what it expands to. */
  lemma BundleSingle(v: string, reader: map<string, string>, fuel: nat)
    requires ExpandLine(v, reader, fuel).Ok?
    ensures BundleLines([v], reader, fuel) == ExpandLine(v, reader, fuel)
  {
    assert [v][..0] == [];
    assert [] + ExpandLine(v, reader, fuel).value == ExpandLine(v, reader, fuel).value;
  }

  /** Joining two non-empty runs of lines puts one separator between them. */
  lemma {:induction false} JoinConcat(a: seq<string>, b: seq<string>, sep: char)
    requires |a| >= 1 && |b| >= 1
    ensures Join(a + b, sep) == Join(a, sep) + [sep] + Join(b, sep)
    decreases |a|
  {
    if |a| == 1 {
      assert (a + b)[1..] == b;
    } else {
      assert (a + b)[1..] == a[1..] + b;
      JoinConcat(a[1..], b, sep);
    }
  }

  /** A piece that is itself joined lines can be joined in their place. */
  lemma JoinInner(a: seq<string>, f: seq<string>, b: seq<string>, sep: char)
    requires |f| >= 1
    ensures Join(a + [Join(f, sep)] + b, sep) == Join(a + f + b, sep)
  {
    var x := [Join(f, sep)] + b;
    var y := f + b;
    if b == [] {
      assert x == [Join(f, sep)] && y == f;
      assert Join(x, sep) == Join(f, sep);
    } else {
      JoinConcat([Join(f, sep)], b, sep);
      JoinConcat(f, b, sep);
    }
    assert Join(x, sep) == Join(y, sep);
    assert a + [Join(f, sep)] + b == a + x;
    assert a + f + b == a + y;
    if a == [] {
      assert a + x == x && a + y == y;
    } else {
      JoinConcat(a, x, sep);
      JoinConcat(a, y, sep);
    }
  }

  /** The scan passes over lines without markers and changes nothing. */
  lemma {:induction false} LoopSkip(xml: seq<string>, ln: nat, k: nat, stack: seq<Inc>, store: map<string, string>)
    requires ln <= k <= |xml| && StackBelow(stack, ln) && Markers(xml[ln..k]) == 0
    ensures StackBelow(stack, k)
    ensures UnbundleLoop(xml, ln, stack, store) == UnbundleLoop(xml, k, stack, store)
    decreases k - ln
  {
    if ln < k {
      assert xml[ln..k][0] == xml[ln];
      assert xml[ln..k][1..] == xml[ln + 1..k];
      LoopSkip(xml, ln + 1, k, stack, store);
    }
  }

  /** Unindenting by the empty indent changes no line. */
  lemma UnindentNothing(lines: seq<string>)
    ensures Unindented(lines, "") == Join(lines, '\n')
  {
    forall k | 0 <= k < |lines| ensures RemoveFirstAll(lines, "")[k] == lines[k] {
      assert "" + lines[k] == lines[k];
    }
    assert RemoveFirstAll(lines, "") == lines;
  }

  /** A pattern the text ends with is its last occurrence. */
  lemma LastAtEnd(v: string, p: string, lo: nat)
    requires p != [] && lo + |p| <= |v| && v[|v| - |p|..] == p
    ensures LastIndexIn(v, p, lo, |v|) == Some(|v| - |p|)
  {
    assert OccursAt(v, p, |v| - |p|);
    var r := LastIndexIn(v, p, lo, |v|);
    assert r.Some?;
    assert r.value + |p| <= |v|;
  }

  /** Positions above `i` without `<Include src="` leave the greedy indent to `i`. */
  lemma {:induction false} IncludeFromDown(v: string, i: nat, p: nat)
    requires i <= p && forall q: nat :: i < q <= p ==> !OccursAt(v, IncludeOpen, q)
    ensures IncludeFrom(v, p) == IncludeFrom(v, i)
    decreases p
  {
    if i < p {
      IncludeFromDown(v, i, p - 1);
    }
  }

  /** An include line whose indent and name hold no `<` is matched as written. */
  lemma IncludeTagMatches(indent: string, name: string)
    requires '<' !in indent && '<' !in name
    ensures IncludeLine(IncludeTag(indent, name)) == Some(Tag(indent, name))
  {
    var v := IncludeTag(indent, name);
    var i := |indent|;
    var w := IncludeOpen[1..] + name + IncludeClose;
    assert '<' !in w by {
      assert '<' !in IncludeOpen[1..] && '<' !in IncludeClose;
    }
    assert v == indent + "<" + w;
    forall q: nat | i < q <= |v| ensures !OccursAt(v, IncludeOpen, q) {
      if q < |v| {
        assert v[q] == w[q - i - 1];
        NotOccursAt(v, IncludeOpen, q);
      }
    }
    IncludeFromDown(v, i, |v|);
    assert v[i..i + |IncludeOpen|] == IncludeOpen;
    assert v[|v| - |IncludeClose|..] == IncludeClose;
    LastAtEnd(v, IncludeClose, i + |IncludeOpen|);
    assert v[..i] == indent;
    assert v[i + |IncludeOpen|..|v| - |IncludeClose|] == name;
  }

  /** Positions below `i` without `<!-- include ` leave the lazy indent to `i`. */
  lemma {:induction false} MarkerFromUp(v: string, p: nat, i: nat)
    requires p <= i <= |v| && forall q: nat :: p <= q < i ==> !OccursAt(v, MarkerOpen, q)
    ensures MarkerFrom(v, p) == MarkerFrom(v, i)
    decreases i - p
  {
    if p < i {
      MarkerFromUp(v, p + 1, i);
    }
  }

  /** A marker whose indent holds no `<` is matched as written, whatever its name. */
  lemma MarkerTagMatches(indent: string, name: string)
    requires '<' !in indent
    ensures MarkerLine(Marker(indent, name)) == Some(Tag(indent, name))
  {
    var v := Marker(indent, name);
    var i := |indent|;
    forall q: nat | q < i ensures !OccursAt(v, MarkerOpen, q) {
      assert v[q] == indent[q];
      NotOccursAt(v, MarkerOpen, q);
    }
    MarkerFromUp(v, 0, i);
    assert v[i..i + |MarkerOpen|] == MarkerOpen;
    assert v[|v| - |MarkerClose|..] == MarkerClose;
    LastAtEnd(v, MarkerClose, i + |MarkerOpen|);
    assert v[..i] == indent;
    assert v[i + |MarkerOpen|..|v| - |MarkerClose|] == name;
  }

  /** An include line of a file that bundles expands to the marker, that file indented, and the marker. */
  lemma ExpandInclude(v: string, tag: Tag, reader: map<string, string>, fuel: nat, inc: string)
    requires IncludeLine(v) == Some(tag)
    requires XmlFileName(tag.name) in reader && fuel > 0
    requires BundleXMLSpec(reader[XmlFileName(tag.name)], reader, fuel - 1) == Ok(inc)
    ensures ExpandLine(v, reader, fuel) == Ok([Marker(tag.indent, tag.name), Indented(inc, tag.indent), Marker(tag.indent, tag.name)])
  {
  }

  /**
   * A file whose one include line names a file without includes bundles to
   * the marker, that file indented like the include line, and the marker.
   */
  lemma BundleOneInclude(pre: seq<string>, post: seq<string>, indent: string, name: string, frag: string,
                         reader: map<string, string>, fuel: nat)
    requires NoNewlines(pre) && NoNewlines(post) && NoIncludes(pre) && NoIncludes(post)
    requires '\n' !in indent && '\n' !in name
    requires '<' !in indent && '<' !in name
    requires XmlFileName(name) in reader && reader[XmlFileName(name)] == frag && fuel > 0
    requires NoIncludes(Split(frag, '\n'))
    ensures BundleXMLSpec(Join(pre + [IncludeTag(indent, name)] + post, '\n'), reader, fuel)
      == Ok(Join(pre + [Marker(indent, name), Indented(frag, indent), Marker(indent, name)] + post, '\n'))
  {
    var v := IncludeTag(indent, name);
    var lines := pre + [v] + post;
    assert NoNewlines(lines) by {
      assert '\n' !in IncludeOpen + name + IncludeClose;
    }
    SplitJoin(lines, '\n');
    IncludeTagMatches(indent, name);
    BundleWithoutIncludes(frag, reader, fuel - 1);
    ExpandInclude(v, Tag(indent, name), reader, fuel, frag);
    var pieces := [Marker(indent, name), Indented(frag, indent), Marker(indent, name)];
    BundleLinesOneInclude(pre, v, post, pieces, reader, fuel);
  }

  /** The lines around an include line that expands to `pieces` are copied. */
  lemma BundleLinesOneInclude(pre: seq<string>, v: string, post: seq<string>, pieces: seq<string>,
                              reader: map<string, string>, fuel: nat)
    requires NoIncludes(pre) && NoIncludes(post) && ExpandLine(v, reader, fuel) == Ok(pieces)
    ensures BundleLines(pre + [v] + post, reader, fuel) == Ok(pre + pieces + post)
  {
    BundleLinesNoIncludes(pre, reader, fuel);
    BundleLinesNoIncludes(post, reader, fuel);
    BundleSingle(v, reader, fuel);
    BundleLinesConcat(pre, [v], reader, fuel);
    BundleLinesConcat(pre + [v], post, reader, fuel);
  }

  /** The lines of the bundled output: the included file's lines stand between the markers. */
  lemma SplitBundled(pre: seq<string>, post: seq<string>, indent: string, name: string, frag: string)
    requires NoNewlines(pre) && NoNewlines(post) && '\n' !in indent && '\n' !in name
    ensures Split(Join(pre + [Marker(indent, name), Indented(frag, indent), Marker(indent, name)] + post, '\n'), '\n')
      == pre + [Marker(indent, name)] + PrefixAll(Split(frag, '\n'), indent) + [Marker(indent, name)] + post
  {
    var mk := Marker(indent, name);
    var f := PrefixAll(Split(frag, '\n'), indent);
    var xml := pre + [mk] + f + [mk] + post;
    assert pre + [mk, Indented(frag, indent), mk] + post == (pre + [mk]) + [Join(f, '\n')] + ([mk] + post);
    JoinInner(pre + [mk], f, [mk] + post, '\n');
    assert (pre + [mk]) + f + ([mk] + post) == xml;
    assert NoNewlines(xml) by {
      assert '\n' !in MarkerOpen + name + MarkerClose;
      assert NoNewlines(f);
    }
    SplitJoin(xml, '\n');
  }

  /**
   * The scan over those lines: the span between the two markers becomes the
   * included file, and the span collapses back to the include line.
   */
  lemma LoopOneInclude(pre: seq<string>, post: seq<string>, indent: string, name: string, f: seq<string>)
    requires Markers(pre) == 0 && Markers(post) == 0 && Markers(f) == 0
    requires MarkerLine(Marker(indent, name)) == Some(Tag(indent, name))
    ensures UnbundleLoop(pre + [Marker(indent, name)] + f + [Marker(indent, name)] + post, 0, [], map[])
      == Ok(Scanned(pre + [IncludeTag(indent, name)] + post, map[name := Unindented(f, indent)]))
  {
    var mk := Marker(indent, name);
    var xml := pre + [mk] + f + [mk] + post;
    var s := |pre|;
    var e := s + 1 + |f|;
    var tag := Tag(indent, name);
    var rest := pre + [IncludeTag(indent, name)] + post;
    var store := map[name := Unindented(f, indent)];
    Parts(pre, mk, f, post, IncludeTag(indent, name));
    ScanToClose(xml, s, e, tag);
    CloseAt(xml, s, e, tag);
    LoopWithoutMarkers(rest, s + 1, store);
  }

  /** A marker that does not close the innermost open include opens a new one. */
  lemma LoopOpen(xml: seq<string>, ln: nat, stack: seq<Inc>, store: map<string, string>, tag: Tag)
    requires ln < |xml| && StackBelow(stack, ln) && MarkerLine(xml[ln]) == Some(tag)
    requires |stack| == 0 || stack[0].name != tag.name
    ensures StackBelow([Inc(tag.name, ln)] + stack, ln + 1)
    ensures UnbundleLoop(xml, ln, stack, store) == UnbundleLoop(xml, ln + 1, [Inc(tag.name, ln)] + stack, store)
  {
  }

  /** The scan reaches the first marker, at `s`, with nothing open and opens it. */
  lemma OpenAfter(xml: seq<string>, s: nat, tag: Tag)
    requires s < |xml| && Markers(xml[..s]) == 0 && MarkerLine(xml[s]) == Some(tag)
    ensures UnbundleLoop(xml, 0, [], map[]) == UnbundleLoop(xml, s + 1, [Inc(tag.name, s)], map[])
  {
    assert xml[0..s] == xml[..s];
    LoopSkip(xml, 0, s, [], map[]);
    LoopOpen(xml, s, [], map[], tag);
    assert [Inc(tag.name, s)] + [] == [Inc(tag.name, s)];
  }

  /** The parts of `pre + [mk] + f + [mk] + post`, and what collapsing its middle span gives. */
  lemma Parts<A>(pre: seq<A>, mk: A, f: seq<A>, post: seq<A>, x: A)
    ensures var xml := pre + [mk] + f + [mk] + post;
      && |xml| == |pre| + |f| + |post| + 2
      && xml[..|pre|] == pre && xml[|pre|] == mk
      && xml[|pre| + 1..|pre| + 1 + |f|] == f && xml[|pre| + 1 + |f|] == mk
      && xml[..|pre|] + [x] + xml[|pre| + 2 + |f|..] == pre + [x] + post
      && (pre + [x] + post)[|pre| + 1..] == post
  {
    var xml := pre + [mk] + f + [mk] + post;
    assert xml[|pre| + 2 + |f|..] == post;
  }

  /** The scan opens the include at its marker, at `s`, and passes over its lines to `e`. */
  lemma ScanToClose(xml: seq<string>, s: nat, e: nat, tag: Tag)
    requires s < e <= |xml| && Markers(xml[..s]) == 0 && MarkerLine(xml[s]) == Some(tag)
    requires Markers(xml[s + 1..e]) == 0
    ensures StackBelow([Inc(tag.name, s)], e)
    ensures UnbundleLoop(xml, 0, [], map[]) == UnbundleLoop(xml, e, [Inc(tag.name, s)], map[])
  {
    OpenAfter(xml, s, tag);
    LoopSkip(xml, s + 1, e, [Inc(tag.name, s)], map[]);
  }

  /** A marker naming the innermost open include closes it. */
  lemma LoopClose(xml: seq<string>, ln: nat, stack: seq<Inc>, store: map<string, string>, tag: Tag)
    requires ln < |xml| && StackBelow(stack, ln) && MarkerLine(xml[ln]) == Some(tag)
    requires |stack| > 0 && stack[0].name == tag.name
    ensures StackBelow(stack[1..], stack[0].start + 1)
    ensures stack[0].start + 1 <= |xml[..stack[0].start] + [IncludeTag(tag.indent, tag.name)] + xml[ln + 1..]|
    ensures UnbundleLoop(xml, ln, stack, store)
      == UnbundleLoop(xml[..stack[0].start] + [IncludeTag(tag.indent, tag.name)] + xml[ln + 1..], stack[0].start + 1,
                      stack[1..], store[tag.name := Unindented(xml[stack[0].start + 1..ln], tag.indent)])
  {
  }

  /** The closing marker, at `e`, collapses the span from `s` to the include line and stores its text. */
  lemma CloseAt(xml: seq<string>, s: nat, e: nat, tag: Tag)
    requires s < e < |xml| && MarkerLine(xml[e]) == Some(tag)
    ensures StackBelow([Inc(tag.name, s)], e)
    ensures UnbundleLoop(xml, e, [Inc(tag.name, s)], map[])
      == UnbundleLoop(xml[..s] + [IncludeTag(tag.indent, tag.name)] + xml[e + 1..], s + 1, [],
                      map[tag.name := Unindented(xml[s + 1..e], tag.indent)])
  {
    var stack := [Inc(tag.name, s)];
    assert stack[0].start == s && stack[0].name == tag.name && stack[1..] == [];
    LoopClose(xml, e, stack, map[], tag);
  }

  /**
   * Unbundling that output takes the included file back out under its name
   * and restores the include line in the root.
   */
  lemma UnbundleOneInclude(pre: seq<string>, post: seq<string>, indent: string, name: string, frag: string,
                           rootname: string)
    requires NoNewlines(pre) && NoNewlines(post) && Markers(pre) == 0 && Markers(post) == 0
    requires '\n' !in indent && '\n' !in name
    requires '<' !in indent
    requires Markers(PrefixAll(Split(frag, '\n'), indent)) == 0
    ensures UnbundleAllXMLSpec(Join(pre + [Marker(indent, name), Indented(frag, indent), Marker(indent, name)] + post, '\n'), rootname)
      == Ok(map[name := frag][rootname := Join(pre + [IncludeTag(indent, name)] + post, '\n')])
  {
    var f := PrefixAll(Split(frag, '\n'), indent);
    SplitBundled(pre, post, indent, name, frag);
    MarkerTagMatches(indent, name);
    LoopOneInclude(pre, post, indent, name, f);
    SplitIndented(frag, indent);
    UnindentIndented(frag, indent);
    UnindentNothing(pre + [IncludeTag(indent, name)] + post);
  }

  /**
   * One level of includes survives the round trip: bundling a file whose one
   * include names a file without includes or markers, then unbundling the
   * result, gives back the file and the included file under their names.
   */
  lemma OneIncludeRoundTrip(pre: seq<string>, post: seq<string>, indent: string, name: string, frag: string,
                            reader: map<string, string>, fuel: nat, rootname: string)
    requires NoNewlines(pre) && NoNewlines(post) && NoIncludes(pre) && NoIncludes(post)
    requires Markers(pre) == 0 && Markers(post) == 0
    requires '\n' !in indent && '\n' !in name
    requires '<' !in indent && '<' !in name
    requires XmlFileName(name) in reader && reader[XmlFileName(name)] == frag && fuel > 0
    requires NoIncludes(Split(frag, '\n')) && Markers(PrefixAll(Split(frag, '\n'), indent)) == 0
    ensures BundleXMLSpec(Join(pre + [IncludeTag(indent, name)] + post, '\n'), reader, fuel).Ok?
    ensures UnbundleAllXMLSpec(BundleXMLSpec(Join(pre + [IncludeTag(indent, name)] + post, '\n'), reader, fuel).value, rootname)
      == Ok(map[name := frag][rootname := Join(pre + [IncludeTag(indent, name)] + post, '\n')])
  {
    BundleOneInclude(pre, post, indent, name, frag, reader, fuel);
    UnbundleOneInclude(pre, post, indent, name, frag, rootname);
  }
}
