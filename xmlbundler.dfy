/**
 * The XML include bundler (bundler/xmlbundler.go).
 *
 * `BundleXML` replaces every line holding `<Include src="name"/>` with a
 * marker comment, the included file (bundled in turn and indented like the
 * include line), and the marker again. `UnbundleAllXML` walks the lines with
 * a stack of open markers; a marker naming the innermost open include closes
 * it, the enclosed lines become that include's text, and the whole span is
 * collapsed back to one include line.
 *
 * The two line patterns are written out as scanners: `(?m)^(.*)<Include
 * src="(.*)"/>` with a greedy indent and a greedy name, and `(?m)^(.*?)<!--
 * include (.*) -->` with a lazy indent and a greedy name. A line holds no
 * newline, so `^` can only match at its start and `.` matches every
 * character of it. Included files are read from a map standing for the
 * `TextReader`. The source recurses without a bound, so an include cycle
 * never ends; here `fuel` bounds the nesting depth and running out is an
 * error. The package variable `Rootname` is a parameter.
 */
module XmlBundler {
  import opened Json
  import opened Text

  const IncludeOpen: string := "<Include src=\""
  const IncludeClose: string := "\"/>"
  const MarkerOpen: string := "<!-- include "
  const MarkerClose: string := " -->"
  const XmlExt: string := ".xml"
  const DepthError: string := "include nesting exceeds the depth bound"

  /** The indent and the name captured by a line pattern. */
  datatype Tag = Tag(indent: string, name: string)

  // ---------------------------------------------------------------------
  // The two line patterns
  // ---------------------------------------------------------------------

  /**
   * The greedy indent of the include pattern, tried from position `p` down:
   * the first start of `<Include src="` that a later `"/>` follows, and the
   * last such `"/>` for the greedy name.
   */
  function IncludeFrom(v: string, p: nat): (r: Option<(nat, nat)>)
    ensures r.Some? ==> r.value.0 <= p && OccursAt(v, IncludeOpen, r.value.0)
    ensures r.Some? ==> r.value.0 + |IncludeOpen| <= r.value.1 && OccursAt(v, IncludeClose, r.value.1)
    decreases p
  {
    if OccursAt(v, IncludeOpen, p) && LastIndexIn(v, IncludeClose, p + |IncludeOpen|, |v|).Some? then
      Some((p, LastIndexIn(v, IncludeClose, p + |IncludeOpen|, |v|).value))
    else if p == 0 then None
    else IncludeFrom(v, p - 1)
  }

  /** The match of `^(.*)<Include src="(.*)"/>` on the line `v`, if any. */
  function IncludeLine(v: string): (r: Option<Tag>)
  {
    match IncludeFrom(v, |v|)
    case None => None
    case Some((p, q)) => Some(Tag(v[..p], v[p + |IncludeOpen|..q]))
  }

  /**
   * The lazy indent of the marker pattern, tried from position `p` up: the
   * first start of `<!-- include ` that a later ` -->` follows, and the last
   * such ` -->` for the greedy name.
   */
  function MarkerFrom(v: string, p: nat): (r: Option<(nat, nat)>)
    requires p <= |v|
    ensures r.Some? ==> p <= r.value.0 && OccursAt(v, MarkerOpen, r.value.0)
    ensures r.Some? ==> r.value.0 + |MarkerOpen| <= r.value.1 && OccursAt(v, MarkerClose, r.value.1)
    decreases |v| - p
  {
    if OccursAt(v, MarkerOpen, p) && LastIndexIn(v, MarkerClose, p + |MarkerOpen|, |v|).Some? then
      Some((p, LastIndexIn(v, MarkerClose, p + |MarkerOpen|, |v|).value))
    else if p == |v| then None
    else MarkerFrom(v, p + 1)
  }

  /** The match of `^(.*?)<!-- include (.*) -->` on the line `v`, if any. */
  function MarkerLine(v: string): (r: Option<Tag>)
  {
    match MarkerFrom(v, 0)
    case None => None
    case Some((p, q)) => Some(Tag(v[..p], v[p + |MarkerOpen|..q]))
  }

  /** The marker comment written around an included file. */
  function Marker(indent: string, name: string): string
  {
    indent + MarkerOpen + name + MarkerClose
  }

  /** The include line a collapsed span is replaced with. */
  function IncludeTag(indent: string, name: string): string
  {
    indent + IncludeOpen + name + IncludeClose
  }

  /** The file an include names: the name itself when it ends in `.xml`. */
  function XmlFileName(name: string): (f: string)
    ensures EndsWith(f, XmlExt)
    ensures f == name <==> EndsWith(name, XmlExt)
    ensures !EndsWith(name, XmlExt) ==> f == name + XmlExt
  {
    if EndsWith(name, XmlExt) then name
    else
      assert (name + XmlExt)[|name + XmlExt| - |XmlExt|..] == XmlExt;
      name + XmlExt
  }

  // ---------------------------------------------------------------------
  // indentString and unindentAndJoin
  // ---------------------------------------------------------------------

  /** Every line with `indent` in front. */
  function PrefixAll(lines: seq<string>, indent: string): (r: seq<string>)
    ensures |r| == |lines|
    ensures forall i :: 0 <= i < |lines| ==> r[i] == indent + lines[i]
  {
    seq(|lines|, i requires 0 <= i < |lines| => indent + lines[i])
  }

  /** What `indentString(s, indent)` returns. */
  function Indented(s: string, indent: string): string
  {
    Join(PrefixAll(Split(s, '\n'), indent), '\n')
  }

  /** `indentString`: split into lines, put the indent in front of each, and join. */
  method IndentString(s: string, indent: string) returns (r: string)
    ensures r == Indented(s, indent)
  {
    var lines := Split(s, '\n');
    var final: seq<string> := [];
    for i := 0 to |lines|
      invariant final == PrefixAll(lines[..i], indent)
    {
      final := final + [indent + lines[i]];
    }
    assert lines[..|lines|] == lines;
    r := Join(final, '\n');
  }

  /** Every line with its first occurrence of `indent` removed. */
  function RemoveFirstAll(lines: seq<string>, indent: string): (r: seq<string>)
    ensures |r| == |lines|
    ensures forall i :: 0 <= i < |lines| ==> r[i] == ReplaceFirst(lines[i], indent, "")
  {
    seq(|lines|, i requires 0 <= i < |lines| => ReplaceFirst(lines[i], indent, ""))
  }

  /** What `unindentAndJoin(raw, indent)` returns. */
  function Unindented(raw: seq<string>, indent: string): string
  {
    Join(RemoveFirstAll(raw, indent), '\n')
  }

  /** `unindentAndJoin`: drop the first occurrence of the indent from each line, and join. */
  method UnindentAndJoin(raw: seq<string>, indent: string) returns (r: string)
    ensures r == Unindented(raw, indent)
  {
    var ret: seq<string> := [];
    for i := 0 to |raw|
      invariant ret == RemoveFirstAll(raw[..i], indent)
    {
      ret := ret + [ReplaceFirst(raw[i], indent, "")];
    }
    assert raw[..|raw|] == raw;
    r := Join(ret, '\n');
  }

  // ---------------------------------------------------------------------
  // BundleXML
  // ---------------------------------------------------------------------

  /** What `BundleXML` returns for `rawxml` with at most `fuel` levels of nesting. */
  function BundleXMLSpec(rawxml: string, reader: map<string, string>, fuel: nat): Result<string>
    decreases fuel, 1, 0
  {
    match BundleLines(Split(rawxml, '\n'), reader, fuel)
    case Err(e) => Err(e)
    case Ok(final) => Ok(Join(final, '\n'))
  }

  /** The pieces `BundleXML` appends for `lines`, stopping at the first failure. */
  function BundleLines(lines: seq<string>, reader: map<string, string>, fuel: nat): Result<seq<string>>
    decreases fuel, 0, |lines|
  {
    if lines == [] then Ok([])
    else
      match BundleLines(lines[..|lines| - 1], reader, fuel)
      case Err(e) => Err(e)
      case Ok(init) =>
        match ExpandLine(lines[|lines| - 1], reader, fuel)
        case Err(e) => Err(e)
        case Ok(pieces) => Ok(init + pieces)
  }

  /**
   * The pieces for one line: the line itself, or the marker, the bundled and
   * indented included file, and the marker again.
   */
  function ExpandLine(v: string, reader: map<string, string>, fuel: nat): Result<seq<string>>
    decreases fuel, 0, 0
  {
    match IncludeLine(v)
    case None => Ok([v])
    case Some(tag) =>
      var replacement := Marker(tag.indent, tag.name);
      var fname := XmlFileName(tag.name);
      if fname !in reader then Err("EncodeFromFile(" + fname + "): file not found")
      else if fuel == 0 then Err(DepthError)
      else match BundleXMLSpec(reader[fname], reader, fuel - 1)
        case Err(e) => Err("BundleXML(<" + fname + ">): " + e)
        case Ok(inc) => Ok([replacement, Indented(inc, tag.indent), replacement])
  }

  /** The first failure decides the result for all the lines. */
  lemma {:induction false} BundleLinesErr(lines: seq<string>, k: nat, reader: map<string, string>, fuel: nat)
    requires k <= |lines| && BundleLines(lines[..k], reader, fuel).Err?
    ensures BundleLines(lines, reader, fuel) == BundleLines(lines[..k], reader, fuel)
    decreases |lines| - k
  {
    if k < |lines| {
      assert lines[..k + 1][..k] == lines[..k];
      BundleLinesErr(lines, k + 1, reader, fuel);
    } else {
      assert lines[..k] == lines;
    }
  }

  /** `BundleXML`. */
  method BundleXML(rawxml: string, reader: map<string, string>, fuel: nat) returns (r: Result<string>)
    ensures r == BundleXMLSpec(rawxml, reader, fuel)
    decreases fuel, 1
  {
    var lines := Split(rawxml, '\n');
    var final: seq<string> := [];
    for i := 0 to |lines|
      invariant BundleLines(lines[..i], reader, fuel) == Ok(final)
    {
      var v := lines[i];
      assert lines[..i + 1][..i] == lines[..i] && lines[..i + 1][i] == v;
      var pieces := BundleLine(v, reader, fuel);
      if pieces.Err? {
        BundleLinesErr(lines, i + 1, reader, fuel);
        return Err(pieces.msg);
      }
      final := final + pieces.value;
    }
    assert lines[..|lines|] == lines;
    return Ok(Join(final, '\n'));
  }

  /**
   * The body of the loop of `BundleXML` for one line: the line itself, or
   * the marker, the bundled included file indented like the include line,
   * and the marker again.
   */
  method BundleLine(v: string, reader: map<string, string>, fuel: nat) returns (r: Result<seq<string>>)
    ensures r == ExpandLine(v, reader, fuel)
    decreases fuel, 0
  {
    var tag := IncludeLine(v);
    if tag.None? {
      return Ok([v]);
    }
    var indent := tag.value.indent;
    var name := tag.value.name;
    var replacement := Marker(indent, name);
    var fname := XmlFileName(name);
    if fname !in reader {
      return Err("EncodeFromFile(" + fname + "): file not found");
    }
    var incXMLRaw := reader[fname];
    if fuel == 0 {
      return Err(DepthError);
    }
    var incXMLBundled := BundleXML(incXMLRaw, reader, fuel - 1);
    if incXMLBundled.Err? {
      return Err("BundleXML(<" + fname + ">): " + incXMLBundled.msg);
    }
    var indented := IndentString(incXMLBundled.value, indent);
    return Ok([replacement, indented, replacement]);
  }

  // ---------------------------------------------------------------------
  // UnbundleAllXML
  // ---------------------------------------------------------------------

  /** An open include: its name and the line of its opening marker. */
  datatype Inc = Inc(name: string, start: nat)

  /** The open markers lie before line `ln`, the innermost (the front) last. */
  predicate StackBelow(stack: seq<Inc>, ln: nat)
  {
    && (forall i :: 0 <= i < |stack| ==> stack[i].start < ln)
    && (forall i, j :: 0 <= i < j < |stack| ==> stack[j].start < stack[i].start)
  }

  /** The remaining lines and the extracted files once the scan has succeeded. */
  datatype Scanned = Scanned(lines: seq<string>, store: map<string, string>)

  /**
   * The loop of `UnbundleAllXML` from line `ln` on: a marker naming the
   * innermost open include closes it, any other marker opens a new one.
   */
  function UnbundleLoop(xml: seq<string>, ln: nat, stack: seq<Inc>, store: map<string, string>): Result<Scanned>
    requires ln <= |xml| && StackBelow(stack, ln)
    decreases |xml|, |xml| - ln
  {
    if ln == |xml| then
      if |stack| != 0 then Err("Bundled xml left after finished reading file") else Ok(Scanned(xml, store))
    else match MarkerLine(xml[ln])
      case None => UnbundleLoop(xml, ln + 1, stack, store)
      case Some(tag) =>
        if |stack| > 0 && stack[0].name == tag.name then
          var s := stack[0].start;
          var xml' := xml[..s] + [IncludeTag(tag.indent, stack[0].name)] + xml[ln + 1..];
          UnbundleLoop(xml', s + 1, stack[1..], store[stack[0].name := Unindented(xml[s + 1..ln], tag.indent)])
        else
          UnbundleLoop(xml, ln + 1, [Inc(tag.name, ln)] + stack, store)
  }

  /** What `UnbundleAllXML(rawxml)` returns when `Rootname` is `rootname`. */
  function UnbundleAllXMLSpec(rawxml: string, rootname: string): Result<map<string, string>>
  {
    match UnbundleLoop(Split(rawxml, '\n'), 0, [], map[])
    case Err(e) => Err(e)
    case Ok(sc) => Ok(sc.store[rootname := Unindented(sc.lines, "")])
  }

  /**
   * The step of `UnbundleAllXML` at a marker closing the innermost open
   * include: its lines become a file and are replaced by an include line.
   */
  method CloseInclude(xml: seq<string>, ln: nat, stack: seq<Inc>, store: map<string, string>, tag: Tag)
    returns (xml': seq<string>, ln': nat, store': map<string, string>)
    requires ln < |xml| && StackBelow(stack, ln) && |stack| > 0
    requires MarkerLine(xml[ln]) == Some(tag) && stack[0].name == tag.name
    ensures ln' == stack[0].start + 1 && ln' <= |xml'| && StackBelow(stack[1..], ln')
    ensures xml' == xml[..stack[0].start] + [IncludeTag(tag.indent, tag.name)] + xml[ln + 1..]
    ensures |xml'| < |xml|
    ensures store' == store[tag.name := Unindented(xml[stack[0].start + 1..ln], tag.indent)]
    ensures UnbundleLoop(xml', ln', stack[1..], store') == UnbundleLoop(xml, ln, stack, store)
  {
    var s := stack[0].start;
    var content := UnindentAndJoin(xml[s + 1..ln], tag.indent);
    store' := store[stack[0].name := content];
    xml' := xml[..s] + [IncludeTag(tag.indent, stack[0].name)] + xml[ln + 1..];
    ln' := s + 1;
  }

  /** `UnbundleAllXML`: the scan over the line array, which is spliced as spans close. */
  method UnbundleAllXML(rawxml: string, rootname: string) returns (r: Result<map<string, string>>)
    ensures r == UnbundleAllXMLSpec(rawxml, rootname)
  {
    var store: map<string, string> := map[];
    var stack: seq<Inc> := [];
    var xmlarray := Split(rawxml, '\n');
    ghost var outcome := UnbundleLoop(xmlarray, 0, [], map[]);
    var ln: nat := 0;
    while ln < |xmlarray|
      invariant ln <= |xmlarray| && StackBelow(stack, ln)
      invariant UnbundleLoop(xmlarray, ln, stack, store) == outcome
      decreases |xmlarray|, |xmlarray| - ln
    {
      var tag := MarkerLine(xmlarray[ln]);
      if tag.None? {
        ln := ln + 1;
      } else if |stack| > 0 && stack[0].name == tag.value.name {
        xmlarray, ln, store := CloseInclude(xmlarray, ln, stack, store, tag.value);
        stack := stack[1..];
      } else {
        PushBelow(stack, tag.value.name, ln);
        stack := [Inc(tag.value.name, ln)] + stack;
        ln := ln + 1;
      }
    }
    if |stack| != 0 {
      return Err("Bundled xml left after finished reading file");
    }
    var root := UnindentAndJoin(xmlarray, "");
    return Ok(store[rootname := root]);
  }

  /** Opening an include at line `ln` keeps the stack below the next line. */
  lemma PushBelow(stack: seq<Inc>, name: string, ln: nat)
    requires StackBelow(stack, ln)
    ensures StackBelow([Inc(name, ln)] + stack, ln + 1)
  {
  }
}
