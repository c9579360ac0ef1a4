// AltoXmlService: plain text from an ALTO document (Library of Congress ALTO
// schema, elements alto/Layout/Page/PrintSpace/TextBlock/TextLine/String
// with the word in the CONTENT attribute), the version-string increment,
// and the schema check.  The XML is taken as the tree the XML mapper
// produces: objects with named fields, arrays for repeated elements, and
// scalar leaves.
module AltoText {
  import opened Wrappers
  import opened JavaText

  datatype JsonNode =
    | Missing
    | Null
    | Text(text: string)
    | Number(lexeme: string)
    | Bool(b: bool)
    | Array(elems: seq<JsonNode>)
    | Object(fields: seq<Field>)

  datatype Field = Field(name: string, value: JsonNode)

  /** The serialisation `toString` gives a node that is neither textual nor numeric. */
  type Render = JsonNode -> string

  /** JsonNode.path: the named field of an object; a missing node otherwise. */
  function Path(n: JsonNode, name: string): JsonNode
  {
    match n
    case Object(fields) => FieldValue(fields, name)
    case _ => Missing
  }

  function FieldValue(fields: seq<Field>, name: string): JsonNode
  {
    if |fields| == 0 then Missing
    else if fields[0].name == name then fields[0].value
    else FieldValue(fields[1..], name)
  }

  /** getAsArray: an array's elements, a lone node as a one-element list, nothing for a missing node. */
  function GetAsArray(parent: JsonNode, name: string): (r: seq<JsonNode>)
    ensures Path(parent, name).Missing? ==> r == []
    ensures Path(parent, name).Array? ==> r == Path(parent, name).elems
    ensures !Path(parent, name).Missing? && !Path(parent, name).Array? ==> r == [Path(parent, name)]
  {
    var node := Path(parent, name);
    if node.Array? then node.elems
    else if !node.Missing? then [node]
    else []
  }

  /** transformValue: text and numbers as their text, missing and null as null, anything else serialised. */
  function TransformValue(v: JsonNode, render: Render): (r: Option<string>)
    ensures r.None? <==> v.Missing? || v.Null?
    ensures v.Text? ==> r == Some(v.text)
    ensures v.Number? ==> r == Some(v.lexeme)
  {
    match v
    case Text(s) => Some(s)
    case Number(l) => Some(l)
    case Missing => None
    case Null => None
    case _ => Some(render(v))
  }

  // ---------------------------------------------------------------------
  // Specification of the extraction

  /** Each part followed by the separator, as the StringBuilder loops append them. */
  function Terminated(parts: seq<string>, sep: string): string
  {
    if |parts| == 0 then "" else Terminated(parts[..|parts| - 1], sep) + parts[|parts| - 1] + sep
  }

  /** A String node's word, if it has a non-blank one. */
  function Word(s: JsonNode, render: Render): Option<string>
  {
    var c := TransformValue(Path(s, "CONTENT"), render);
    if c.Some? && !IsBlank(c.value) then c else None
  }

  /** The non-blank words of a line's String nodes, in order. */
  function Words(strings: seq<JsonNode>, render: Render): (r: seq<string>)
    ensures forall k :: 0 <= k < |r| ==> !IsBlank(r[k])
  {
    if |strings| == 0 then []
    else
      var rest := Words(strings[..|strings| - 1], render);
      match Word(strings[|strings| - 1], render)
      case None => rest
      case Some(w) => rest + [w]
  }

  function LineText(line: JsonNode, render: Render): string
  {
    Trim(Terminated(Words(GetAsArray(line, "String"), render), " "))
  }

  /** The non-blank texts of a block's lines, in order. */
  function LineTexts(lines: seq<JsonNode>, render: Render): (r: seq<string>)
    ensures forall k :: 0 <= k < |r| ==> !IsBlank(r[k])
  {
    if |lines| == 0 then []
    else
      var rest := LineTexts(lines[..|lines| - 1], render);
      var t := LineText(lines[|lines| - 1], render);
      if IsBlank(t) then rest else rest + [t]
  }

  function BlockText(block: JsonNode, render: Render): string
  {
    Trim(Terminated(LineTexts(GetAsArray(block, "TextLine"), render), "\n"))
  }

  /** The non-blank texts of the print space's blocks, in order. */
  function BlockTexts(blocks: seq<JsonNode>, render: Render): (r: seq<string>)
    ensures forall k :: 0 <= k < |r| ==> !IsBlank(r[k]) && VisibleEnds(r[k])
  {
    if |blocks| == 0 then []
    else
      var rest := BlockTexts(blocks[..|blocks| - 1], render);
      var t := BlockText(blocks[|blocks| - 1], render);
      if IsBlank(t) then rest
      else
        TrimVisible(Terminated(LineTexts(GetAsArray(blocks[|blocks| - 1], "TextLine"), render), "\n"));
        rest + [t]
  }

  /** A non-empty text that starts and ends with a visible char. */
  predicate VisibleEnds(t: string)
  {
    |t| > 0 && !IsTrimmed(t[0]) && !IsTrimmed(t[|t| - 1])
  }

  lemma TrimVisible(s: string)
    ensures |Trim(s)| > 0 ==> VisibleEnds(Trim(s))
  {
    TrimIsInnerSlice(s);
  }

  /** Number of '\n' at the start of `s`. */
  function NewlineRun(s: string): (n: nat)
    ensures n <= |s|
    ensures forall k :: 0 <= k < n ==> s[k] == '\n'
    ensures n < |s| ==> s[n] != '\n'
  {
    if |s| == 0 || s[0] != '\n' then 0
    else
      var n := NewlineRun(s[1..]);
      assert forall k :: 1 <= k < n + 1 ==> s[k] == s[1..][k - 1];
      n + 1
  }

  /** `replaceAll("\n\n+", "\n\n")`: every run of two or more line breaks becomes exactly two. */
  function Collapse(s: string): string
    decreases |s|
  {
    if |s| == 0 then ""
    else if s[0] != '\n' then [s[0]] + Collapse(s[1..])
    else
      var n := NewlineRun(s);
      if n >= 2 then "\n\n" + Collapse(s[n..]) else "\n" + Collapse(s[1..])
  }

  function PageText(printSpace: JsonNode, render: Render): string
  {
    Collapse(Terminated(BlockTexts(GetAsArray(printSpace, "TextBlock"), render), "\n\n"))
  }

  function PrintSpaceOf(root: JsonNode): JsonNode
  {
    Path(Path(Path(Path(root, "alto"), "Layout"), "Page"), "PrintSpace")
  }

  /** convertAltoToOcr on a parsed document. */
  function AltoToOcr(root: JsonNode, render: Render): string
  {
    Trim(PageText(PrintSpaceOf(root), render))
  }

  // ---------------------------------------------------------------------
  // The StringBuilder loops

  /** processTextLine */
  method ProcessTextLine(line: JsonNode, render: Render) returns (text: string)
    ensures text == LineText(line, render)
  {
    var strings := GetAsArray(line, "String");
    var sb := "";
    var i := 0;
    while i < |strings|
      invariant 0 <= i <= |strings|
      invariant sb == Terminated(Words(strings[..i], render), " ")
    {
      var content := TransformValue(Path(strings[i], "CONTENT"), render);
      WordsPrefix(strings, i, render);
      if content.Some? && !IsBlank(content.value) {
        TerminatedSnoc(Words(strings[..i], render), content.value, " ");
        sb := sb + content.value + " ";
      }
      i := i + 1;
    }
    assert strings[..i] == strings;
    text := Trim(sb);
  }

  /** processTextBlock */
  method ProcessTextBlock(block: JsonNode, render: Render) returns (text: string)
    ensures text == BlockText(block, render)
  {
    var lines := GetAsArray(block, "TextLine");
    var sb := "";
    var i := 0;
    while i < |lines|
      invariant 0 <= i <= |lines|
      invariant sb == Terminated(LineTexts(lines[..i], render), "\n")
    {
      var lineText := ProcessTextLine(lines[i], render);
      LineTextsPrefix(lines, i, render);
      if !IsBlank(lineText) {
        TerminatedSnoc(LineTexts(lines[..i], render), lineText, "\n");
        sb := sb + lineText + "\n";
      }
      i := i + 1;
    }
    assert lines[..i] == lines;
    text := Trim(sb);
  }

  /** processPrintSpace */
  method ProcessPrintSpace(printSpace: JsonNode, render: Render) returns (text: string)
    ensures text == PageText(printSpace, render)
  {
    var blocks := GetAsArray(printSpace, "TextBlock");
    var sb := "";
    var i := 0;
    while i < |blocks|
      invariant 0 <= i <= |blocks|
      invariant sb == Terminated(BlockTexts(blocks[..i], render), "\n\n")
    {
      var blockText := ProcessTextBlock(blocks[i], render);
      BlockTextsPrefix(blocks, i, render);
      if !IsBlank(blockText) {
        TerminatedSnoc(BlockTexts(blocks[..i], render), blockText, "\n\n");
        sb := sb + blockText + "\n\n";
      }
      i := i + 1;
    }
    assert blocks[..i] == blocks;
    text := Collapse(sb);
  }

  lemma TerminatedSnoc(parts: seq<string>, x: string, sep: string)
    ensures Terminated(parts + [x], sep) == Terminated(parts, sep) + x + sep
  {
    assert (parts + [x])[..|parts|] == parts;
  }

  /** One more String node adds its word, if it has one. */
  lemma WordsPrefix(strings: seq<JsonNode>, i: nat, render: Render)
    requires i < |strings|
    ensures Word(strings[i], render).None? ==> Words(strings[..i + 1], render) == Words(strings[..i], render)
    ensures Word(strings[i], render).Some? ==>
      Words(strings[..i + 1], render) == Words(strings[..i], render) + [Word(strings[i], render).value]
  {
    assert strings[..i + 1][..i] == strings[..i];
  }

  /** One more line adds its text unless it is blank. */
  lemma LineTextsPrefix(lines: seq<JsonNode>, i: nat, render: Render)
    requires i < |lines|
    ensures IsBlank(LineText(lines[i], render)) ==> LineTexts(lines[..i + 1], render) == LineTexts(lines[..i], render)
    ensures !IsBlank(LineText(lines[i], render)) ==>
      LineTexts(lines[..i + 1], render) == LineTexts(lines[..i], render) + [LineText(lines[i], render)]
  {
    assert lines[..i + 1][..i] == lines[..i];
  }

  /** One more block adds its text unless it is blank. */
  lemma BlockTextsPrefix(blocks: seq<JsonNode>, i: nat, render: Render)
    requires i < |blocks|
    ensures IsBlank(BlockText(blocks[i], render)) ==> BlockTexts(blocks[..i + 1], render) == BlockTexts(blocks[..i], render)
    ensures !IsBlank(BlockText(blocks[i], render)) ==>
      BlockTexts(blocks[..i + 1], render) == BlockTexts(blocks[..i], render) + [BlockText(blocks[i], render)]
  {
    assert blocks[..i + 1][..i] == blocks[..i];
  }

  /** convertAltoToOcr */
  method ConvertAltoToOcr(root: JsonNode, render: Render) returns (text: string)
    ensures text == AltoToOcr(root, render)
  {
    var page := ProcessPrintSpace(PrintSpaceOf(root), render);
    text := Trim(page);
  }

  // ---------------------------------------------------------------------
  // Properties of the extraction

  lemma {:induction false} JoinSnoc(parts: seq<string>, x: string, sep: string)
    requires |parts| >= 1
    ensures Join(parts + [x], sep) == Join(parts, sep) + sep + x
    decreases |parts|
  {
    if |parts| == 1 {
      assert (parts + [x])[1..] == [x];
    } else {
      assert (parts + [x])[1..] == parts[1..] + [x];
      JoinSnoc(parts[1..], x, sep);
    }
  }

  /** Appending each part followed by the separator is joining with the separator and adding one at the end. */
  lemma {:induction false} TerminatedIsJoin(parts: seq<string>, sep: string)
    requires |parts| >= 1
    ensures Terminated(parts, sep) == Join(parts, sep) + sep
    decreases |parts|
  {
    var init := parts[..|parts| - 1];
    if |parts| == 1 {
      assert Terminated(init, sep) == "";
    } else {
      TerminatedIsJoin(init, sep);
      JoinSnoc(init, parts[|parts| - 1], sep);
      assert init + [parts[|parts| - 1]] == parts;
    }
  }

  predicate AllTrimmable(s: string)
  {
    forall k :: 0 <= k < |s| ==> IsTrimmed(s[k])
  }

  /** With a separator trim removes, the trimmed loop result is the trimmed join. */
  lemma TrimTerminated(parts: seq<string>, sep: string)
    requires AllTrimmable(sep)
    ensures Trim(Terminated(parts, sep)) == Trim(Join(parts, sep))
  {
    if |parts| >= 1 {
      TerminatedIsJoin(parts, sep);
      TrimIgnoresTrailing(Join(parts, sep), sep);
    }
  }

  /** A line's text is its non-blank words joined by single spaces, trimmed. */
  lemma LineTextIsJoin(line: JsonNode, render: Render)
    ensures LineText(line, render) == Trim(Join(Words(GetAsArray(line, "String"), render), " "))
  {
    TrimTerminated(Words(GetAsArray(line, "String"), render), " ");
  }

  /** A block's text is its non-blank line texts joined by line breaks, trimmed. */
  lemma BlockTextIsJoin(block: JsonNode, render: Render)
    ensures BlockText(block, render) == Trim(Join(LineTexts(GetAsArray(block, "TextLine"), render), "\n"))
  {
    TrimTerminated(LineTexts(GetAsArray(block, "TextLine"), render), "\n");
  }

  /** A String node without a non-blank word adds nothing to its line. */
  lemma BlankWordAddsNothing(strings: seq<JsonNode>, s: JsonNode, render: Render)
    requires Word(s, render).None?
    ensures Words(strings + [s], render) == Words(strings, render)
  {
    assert (strings + [s])[..|strings|] == strings;
  }

  /** A single child and a one-element list of it give the same children; a missing child gives none. */
  lemma SingleChildAsList(name: string, child: JsonNode, other: seq<Field>)
    requires !child.Missing? && !child.Array?
    ensures GetAsArray(Object([Field(name, child)] + other), name)
         == GetAsArray(Object([Field(name, Array([child]))] + other), name)
         == [child]
    ensures GetAsArray(Object([]), name) == []
  {
  }

  /** Line breaks at positions `k` and `k + 1`. */
  predicate DoubleBreakAt(s: string, k: int)
    requires 0 <= k < |s| - 1
  {
    s[k] == '\n' && s[k + 1] == '\n'
  }

  /** Line breaks at positions `k`, `k + 1` and `k + 2`. */
  predicate TripleBreakAt(s: string, k: int)
    requires 0 <= k < |s| - 2
  {
    DoubleBreakAt(s, k) && s[k + 2] == '\n'
  }

  /** No three line breaks in a row. */
  predicate NoTripleBreak(s: string)
  {
    forall k :: 0 <= k < |s| - 2 ==> !TripleBreakAt(s, k)
  }

  /** No two line breaks in a row. */
  predicate NoDoubleBreak(s: string)
  {
    forall k :: 0 <= k < |s| - 1 ==> !DoubleBreakAt(s, k)
  }

  lemma {:induction false} CollapseStart(s: string)
    ensures |Collapse(s)| == 0 <==> |s| == 0
    ensures |s| > 0 && s[0] != '\n' ==> Collapse(s)[0] == s[0]
    ensures |s| > 0 && s[0] == '\n' ==> Collapse(s)[0] == '\n'
    decreases |s|
  {
  }

  /** After collapsing, no run of line breaks is longer than two. */
  lemma {:induction false} CollapseNoTripleBreak(s: string)
    ensures NoTripleBreak(Collapse(s))
    decreases |s|
  {
    if |s| == 0 {
    } else if s[0] != '\n' {
      CollapseNoTripleBreak(s[1..]);
      NoTripleBreakCons(s[0], Collapse(s[1..]));
    } else if NewlineRun(s) >= 2 {
      CollapseNoTripleBreak(s[NewlineRun(s)..]);
      NoTripleAfterRun(s);
    } else {
      CollapseNoTripleBreak(s[1..]);
      CollapseStart(s[1..]);
      NoTripleBreakCons('\n', Collapse(s[1..]));
    }
  }

  /** A run of two or more line breaks collapses to two, followed by something else. */
  lemma NoTripleAfterRun(s: string)
    requires |s| > 0 && s[0] == '\n' && NewlineRun(s) >= 2
    requires NoTripleBreak(Collapse(s[NewlineRun(s)..]))
    ensures NoTripleBreak(Collapse(s))
  {
    var n := NewlineRun(s);
    var rest := Collapse(s[n..]);
    CollapseStart(s[n..]);
    var once := ['\n'] + rest;
    NoTripleBreakCons('\n', rest);
    NoTripleBreakCons('\n', once);
    assert Collapse(s) == "\n\n" + rest;
    assert "\n\n" + rest == ['\n'] + once;
  }

  /** One more character in front keeps a text free of triple line breaks unless it makes one. */
  lemma NoTripleBreakCons(c: char, t: string)
    requires NoTripleBreak(t)
    requires c == '\n' && |t| >= 2 ==> !(t[0] == '\n' && t[1] == '\n')
    ensures NoTripleBreak([c] + t)
  {
    var r := [c] + t;
    forall k | 0 <= k < |r| - 2
      ensures !TripleBreakAt(r, k)
    {
      if k > 0 {
        assert r[k] == t[k - 1] && r[k + 1] == t[k] && r[k + 2] == t[k + 1];
        assert !TripleBreakAt(t, k - 1);
      }
    }
  }

  /** Text without two line breaks in a row is left as it is. */
  lemma {:induction false} CollapseFixes(s: string)
    requires NoDoubleBreak(s)
    ensures Collapse(s) == s
    decreases |s|
  {
    if |s| > 0 {
      forall k | 0 <= k < |s[1..]| - 1
        ensures !DoubleBreakAt(s[1..], k)
      {
        assert !DoubleBreakAt(s, k + 1);
      }
      CollapseFixes(s[1..]);
      if s[0] == '\n' {
        if |s| > 1 {
          assert !DoubleBreakAt(s, 0);
        }
        assert NewlineRun(s) == 1;
      }
    }
  }

  /** Collapsing works piecewise when no run of line breaks spans the seam. */
  lemma {:induction false} CollapseAppend(a: string, b: string)
    requires |a| == 0 || |b| == 0 || a[|a| - 1] != '\n' || b[0] != '\n'
    ensures Collapse(a + b) == Collapse(a) + Collapse(b)
    decreases |a|
  {
    if |a| == 0 {
      assert a + b == b;
    } else if |b| == 0 {
      assert a + b == a;
    } else if a[0] != '\n' {
      CollapseAppend(a[1..], b);
      CollapseAppendStep(a, b, 1, [a[0]]);
    } else {
      RunWithin(a, b);
      var n := NewlineRun(a);
      if n >= 2 {
        CollapseAppend(a[n..], b);
        CollapseAppendStep(a, b, n, "\n\n");
      } else {
        CollapseAppend(a[1..], b);
        CollapseAppendStep(a, b, 1, "\n");
      }
    }
  }

  /**
   * One step of CollapseAppend: when `a` and `a + b` both collapse to `lead`
   * followed by the collapse of what follows their first `k` characters, the
   * piecewise property carries over from `a[k..]` to `a`.
   */
  lemma CollapseAppendStep(a: string, b: string, k: nat, lead: string)
    requires k <= |a|
    requires Collapse(a) == lead + Collapse(a[k..])
    requires Collapse(a + b) == lead + Collapse((a + b)[k..])
    requires Collapse(a[k..] + b) == Collapse(a[k..]) + Collapse(b)
    ensures Collapse(a + b) == Collapse(a) + Collapse(b)
  {
    var rest, tail := Collapse(a[k..]), Collapse(b);
    calc {
      Collapse(a + b);
      lead + Collapse((a + b)[k..]);
      { assert (a + b)[k..] == a[k..] + b; }
      lead + Collapse(a[k..] + b);
      lead + (rest + tail);
      { SeqAssoc(lead, rest, tail); }
      (lead + rest) + tail;
    }
  }


  lemma RunWithin(a: string, b: string)
    requires |a| > 0 && |b| > 0 && (a[|a| - 1] != '\n' || b[0] != '\n')
    ensures NewlineRun(a + b) == NewlineRun(a)
  {
    var s := a + b;
    var n := NewlineRun(a);
    var m := NewlineRun(s);
    assert forall k :: 0 <= k < |a| ==> s[k] == a[k];
    if n < |a| {
      assert s[n] != '\n';
      assert m <= n;
    } else {
      assert a[|a| - 1] == '\n';
      assert s[|a|] == b[0] != '\n';
    }
  }

  /**
   * When the block texts hold no blank line, the page text is the blocks
   * separated by one blank line each.
   */
  lemma PageTextSeparatesBlocks(texts: seq<string>)
    requires |texts| >= 1
    requires forall k :: 0 <= k < |texts| ==>
      (NoDoubleBreak(texts[k]) && |texts[k]| > 0
       && texts[k][0] != '\n' && texts[k][|texts[k]| - 1] != '\n')
    ensures Collapse(Terminated(texts, "\n\n")) == Join(texts, "\n\n") + "\n\n"
  {
    TerminatedIsJoin(texts, "\n\n");
    CollapseTerminated(texts);
  }

  lemma {:induction false} CollapseTerminated(texts: seq<string>)
    requires forall k :: 0 <= k < |texts| ==>
      (NoDoubleBreak(texts[k]) && |texts[k]| > 0
       && texts[k][0] != '\n' && texts[k][|texts[k]| - 1] != '\n')
    ensures Collapse(Terminated(texts, "\n\n")) == Terminated(texts, "\n\n")
    ensures |texts| > 0 ==> Terminated(texts, "\n\n")[0] != '\n'
    decreases |texts|
  {
    if |texts| > 0 {
      var init := texts[..|texts| - 1];
      var last := texts[|texts| - 1];
      CollapseTerminated(init);
      var pre := Terminated(init, "\n\n");
      assert Terminated(texts, "\n\n") == pre + (last + "\n\n");
      CollapseAppend(last, "\n\n");
      CollapseFixes(last);
      assert Collapse("\n\n") == "\n\n" by {
        assert NewlineRun("\n\n") == 2;
        assert "\n\n"[2..] == "";
      }
      CollapseAppend(pre, last + "\n\n");
      if |init| > 0 {
        assert (pre + (last + "\n\n"))[0] == pre[0];
      }
    }
  }

  lemma TrimKeepsUntrimmedEnds(s: string)
    requires |s| > 0 && !IsTrimmed(s[0]) && !IsTrimmed(s[|s| - 1])
    ensures Trim(s) == s
  {
    assert LeadingCut(s) == 0;
    assert TrailingKeep(s) == |s|;
  }

  lemma {:induction false} JoinEnds(parts: seq<string>, sep: string)
    requires |parts| >= 1 && forall k :: 0 <= k < |parts| ==> |parts[k]| > 0
    ensures |Join(parts, sep)| > 0
    ensures Join(parts, sep)[0] == parts[0][0]
    ensures Join(parts, sep)[|Join(parts, sep)| - 1] == parts[|parts| - 1][|parts[|parts| - 1]| - 1]
    decreases |parts|
  {
    if |parts| > 1 {
      JoinEnds(parts[1..], sep);
    }
  }

  /**
   * The document's text: when no block text holds a blank line, it is the
   * non-blank block texts separated by exactly one blank line, with nothing
   * before the first or after the last.
   */
  lemma AltoToOcrJoinsBlocks(root: JsonNode, render: Render)
    requires var texts := BlockTexts(GetAsArray(PrintSpaceOf(root), "TextBlock"), render);
      forall k :: 0 <= k < |texts| ==> NoDoubleBreak(texts[k])
    ensures var texts := BlockTexts(GetAsArray(PrintSpaceOf(root), "TextBlock"), render);
      AltoToOcr(root, render) == Join(texts, "\n\n")
  {
    var texts := BlockTexts(GetAsArray(PrintSpaceOf(root), "TextBlock"), render);
    TrimmedPageText(texts);
  }

  lemma TrimmedPageText(texts: seq<string>)
    requires forall k :: 0 <= k < |texts| ==> NoDoubleBreak(texts[k]) && VisibleEnds(texts[k])
    ensures Trim(Collapse(Terminated(texts, "\n\n"))) == Join(texts, "\n\n")
  {
    if |texts| == 0 {
      assert Terminated(texts, "\n\n") == "";
    } else {
      CollapseVisibleTexts(texts);
      TrimBlankLineTail(Join(texts, "\n\n"));
      JoinVisibleEnds(texts, "\n\n");
    }
  }

  lemma CollapseVisibleTexts(texts: seq<string>)
    requires |texts| >= 1
    requires forall k :: 0 <= k < |texts| ==> NoDoubleBreak(texts[k]) && VisibleEnds(texts[k])
    ensures Collapse(Terminated(texts, "\n\n")) == Join(texts, "\n\n") + "\n\n"
  {
    forall k | 0 <= k < |texts|
      ensures |texts[k]| > 0 && texts[k][0] != '\n' && texts[k][|texts[k]| - 1] != '\n'
    {
      assert VisibleEnds(texts[k]);
    }
    PageTextSeparatesBlocks(texts);
  }

  lemma TrimBlankLineTail(s: string)
    ensures Trim(s + "\n\n") == Trim(s)
  {
    var tail := "\n\n";
    assert forall k :: 0 <= k < |tail| ==> IsTrimmed(tail[k]);
    TrimIgnoresTrailing(s, tail);
  }

  lemma JoinVisibleEnds(texts: seq<string>, sep: string)
    requires |texts| >= 1
    requires forall k :: 0 <= k < |texts| ==> VisibleEnds(texts[k])
    ensures Trim(Join(texts, sep)) == Join(texts, sep)
  {
    assert VisibleEnds(texts[0]) && VisibleEnds(texts[|texts| - 1]);
    JoinEnds(texts, sep);
    TrimKeepsUntrimmedEnds(Join(texts, sep));
  }

  // ---------------------------------------------------------------------
  // nextVersion

  datatype VersionError =
    | NoRevision          // ArrayIndexOutOfBoundsException: no '.' in the version
    | BadRevision(text: string)  // NumberFormatException

  /** nextVersion: split at the first '.', add one (as `int`) to the number after it. */
  function NextVersion(version: string): (r: Result<string, VersionError>)
    ensures '.' !in version ==> r == Err(NoRevision)
  {
    var parts := SplitFirst(version, '.');
    if |parts| < 2 then Err(NoRevision)
    else
      match ParseInt(parts[1])
      case None => Err(BadRevision(parts[1]))
      case Some(n) => Ok(parts[0] + "." + IntToString(Wrap32(n + 1)))
  }

  /** "p.n" becomes "p.(n+1)" with the prefix kept. */
  lemma NextVersionIncrements(p: string, n: int)
    requires '.' !in p && IsInt32(n) && n < IntMax
    ensures NextVersion(p + "." + IntToString(n)) == Ok(p + "." + IntToString(n + 1))
  {
    var d := IntToString(n);
    assert p + "." + d == p + ['.'] + d;
    SplitFirstAround(p, '.', d);
    ParseIntToString(n);
    assert Wrap32(n + 1) == n + 1;
  }

  /** Only the first '.' splits, so a revision holding a further '.' is not a number. */
  lemma NextVersionSecondDot(p: string, q: string, s: string)
    requires '.' !in p
    ensures NextVersion(p + "." + q + "." + s).Err?
  {
    var rest := q + "." + s;
    assert p + "." + q + "." + s == p + ['.'] + rest;
    SplitFirstAround(p, '.', rest);
    assert rest[|q|] == '.';
    assert !IsDigit(rest[|q|]);
  }

  /** The largest revision wraps to the smallest `int`. */
  lemma NextVersionWraps(p: string)
    requires '.' !in p
    ensures NextVersion(p + "." + IntToString(IntMax)) == Ok(p + "." + IntToString(IntMin))
  {
    var d := IntToString(IntMax);
    assert p + "." + d == p + ['.'] + d;
    SplitFirstAround(p, '.', d);
    ParseIntToString(IntMax);
    assert Wrap32(IntMax + 1) == IntMin;
  }

  // ---------------------------------------------------------------------
  // isAlto

  /** The bundled schemas, tried in this order. */
  const SchemaPaths: seq<string> := ["/xsd/alto-v2.0.xsd", "/xsd/alto-v2.1.xsd", "/xsd/alto-v3.0.xsd"]

  /** The combined SAXException: the number of schemas tried and every schema's own error. */
  datatype NotAlto = NotAlto(schemaCount: nat, errors: seq<string>)

  /** The first schema that accepts, or every error. `outcomes[i]` is schema i's verdict: None accepts. */
  function IsAltoSpec(outcomes: seq<Option<string>>): (r: Result<bool, NotAlto>)
    ensures r.Ok? <==> exists i :: 0 <= i < |outcomes| && outcomes[i].None?
    ensures r.Ok? ==> r.value
    ensures r.Err? ==>
      (r.error.schemaCount == |outcomes| && |r.error.errors| == |outcomes|
       && forall i :: 0 <= i < |outcomes| ==> outcomes[i] == Some(r.error.errors[i]))
  {
    if |outcomes| == 0 then Err(NotAlto(0, []))
    else if outcomes[0].None? then Ok(true)
    else
      var rest := IsAltoSpec(outcomes[1..]);
      assert forall i :: 1 <= i < |outcomes| ==> outcomes[i] == outcomes[1..][i - 1];
      match rest
      case Ok(b) => Ok(b)
      case Err(e) => Err(NotAlto(|outcomes|, [outcomes[0].value] + e.errors))
  }

  /** isAlto: validates against each schema in turn, returns at the first success, collects errors. */
  method IsAlto(outcomes: seq<Option<string>>) returns (r: Result<bool, NotAlto>)
    ensures r == IsAltoSpec(outcomes)
  {
    var errors: seq<string> := [];
    var i := 0;
    while i < |outcomes|
      invariant 0 <= i <= |outcomes|
      invariant |errors| == i
      invariant forall k :: 0 <= k < i ==> outcomes[k] == Some(errors[k])
    {
      if outcomes[i].None? {
        NoneBeforeAccepts(outcomes, i);
        return Ok(true);
      }
      errors := errors + [outcomes[i].value];
      i := i + 1;
    }
    r := Err(NotAlto(|outcomes|, errors));
    assert forall k :: 0 <= k < |outcomes| ==> outcomes[k] == Some(errors[k]);
    var spec := IsAltoSpec(outcomes);
    assert spec.Err?;
    assert spec.error.errors == errors;
  }

  lemma NoneBeforeAccepts(outcomes: seq<Option<string>>, i: nat)
    requires i < |outcomes| && outcomes[i].None?
    ensures IsAltoSpec(outcomes) == Ok(true)
  {
  }
}
