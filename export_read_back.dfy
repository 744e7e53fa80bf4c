/**
 * What the street-line parser (`get_street_nodes`) makes of the file the
 * exporter writes.  A street line whose name is non-empty and has no
 * apostrophe is read back as the exported name and node numbers; the
 * other lines of the file are skipped.  An escaped apostrophe ends the
 * name early for the parser: such a line is skipped unless the text
 * after the name's first apostrophe begins with `).`, in which case it
 * is read back with the name cut there.
 */
module ExportReadBack {
  import opened Wrappers
  import opened Text
  import opened StreetData
  import opened GetMap

  /**
   * The reference reading of an exported street line, by the raw
   * (unescaped) name: what the parser is proved to return for it.
   */
  function ReadBack(raw: string, u: nat, v: nat): (r: Option<EdgeRecord>)
    ensures r.Some? ==> r.value.node1 == u && r.value.node2 == v && ValidName(r.value.name)
    ensures raw == [] ==> r.None?
    ensures raw != [] && '\'' !in raw ==> r == Some(EdgeRecord(raw, u, v))
  {
    if raw == [] then None
    else if '\'' !in raw then Some(EdgeRecord(raw, u, v))
    else
      var i := SpanWhile(raw, IsNotQuote);
      SpanWhileMaximal(raw, IsNotQuote);
      if StartsWith(raw[i + 1..], ").") then Some(EdgeRecord(raw[..i] + "\\", u, v)) else None
  }

  // ---------------------------------------------------------------------
  // The text of a street line, piece by piece
  // ---------------------------------------------------------------------

  function NamePart(h: string): string {
    " " + ("'" + h)
  }

  function DistancePart(d: string, h: string): string {
    " " + (d + ("," + NamePart(h)))
  }

  function SecondPart(v: nat, d: string, h: string): string {
    " " + (Show(v) + ("," + DistancePart(d, h)))
  }

  function FirstPart(u: nat, v: nat, d: string, h: string): string {
    Show(u) + ("," + SecondPart(v, d, h))
  }

  lemma PrefixPieces(u: nat, v: nat, d: string, h: string)
    ensures StreetPrefix(u, v, d) + h == "street(" + FirstPart(u, v, d, h)
  {
  }

  /** `\s*'` after a single space. */
  lemma NameStage(u: nat, v: nat, h: string)
    ensures MatchName(u, v, NamePart(h)) == MatchClose(u, v, h)
  {
    SpanWhileConcat(" ", "'" + h, IsSpace);
    SplitConcat(" ", "'" + h);
    SplitConcat("'", h);
  }

  /** `[^,]*,` over a comma-free field. */
  lemma DistanceStage(u: nat, v: nat, x: string, rest: string)
    requires ',' !in x
    ensures MatchWeight(u, v, x + ("," + rest)) == MatchName(u, v, rest)
  {
    SpanWhileConcat(x, "," + rest, IsNotComma);
    SplitConcat(x, "," + rest);
    SplitConcat(",", rest);
  }

  /** `(\d+),` over a number's digits. */
  lemma SecondNodeStage(u: nat, v: nat, rest: string)
    ensures MatchSecondNode(u, Show(v) + ("," + rest)) == MatchWeight(u, v, rest)
  {
    SpanWhileConcat(Show(v), "," + rest, IsDigit);
    SplitConcat(Show(v), "," + rest);
    SplitConcat(",", rest);
    ShowRoundTrip(v);
  }

  /** `\s*` over a single space. */
  lemma SecondStage(u: nat, c: string)
    requires c == [] || !IsSpace(c[0])
    ensures MatchSecond(u, " " + c) == MatchSecondNode(u, c)
  {
    SpanWhileConcat(" ", c, IsSpace);
    SplitConcat(" ", c);
  }

  lemma FirstStage(u: nat, rest: string)
    ensures MatchFirst(Show(u) + ("," + rest)) == MatchSecond(u, rest)
  {
    SpanWhileConcat(Show(u), "," + rest, IsDigit);
    SplitConcat(Show(u), "," + rest);
    SplitConcat(",", rest);
    ShowRoundTrip(u);
  }

  lemma FromDistance(u: nat, v: nat, d: string, h: string)
    requires ',' !in d
    ensures MatchWeight(u, v, DistancePart(d, h)) == MatchClose(u, v, h)
  {
    assert ',' !in " " + d;
    assert DistancePart(d, h) == (" " + d) + ("," + NamePart(h));
    DistanceStage(u, v, " " + d, NamePart(h));
    NameStage(u, v, h);
  }

  lemma FromSecond(u: nat, v: nat, d: string, h: string)
    requires ',' !in d
    ensures MatchSecond(u, SecondPart(v, d, h)) == MatchClose(u, v, h)
  {
    var c := Show(v) + ("," + DistancePart(d, h));
    assert c[0] == Show(v)[0];
    SecondStage(u, c);
    SecondNodeStage(u, v, DistancePart(d, h));
    FromDistance(u, v, d, h);
  }

  /** The parser gets through the fixed part of an exported line and reaches the name. */
  lemma ReachesName(u: nat, v: nat, d: string, h: string)
    requires ',' !in d
    ensures MatchStreetFact(StreetPrefix(u, v, d) + h) == MatchClose(u, v, h)
  {
    PrefixPieces(u, v, d, h);
    SplitConcat("street(", FirstPart(u, v, d, h));
    FirstStage(u, SecondPart(v, d, h));
    FromSecond(u, v, d, h);
  }

  /** `line.strip()` leaves an exported street line as it is. */
  lemma StreetLineStripped(e: StreetEdge)
    ensures Strip(StreetLine(e)) == StreetLine(e)
  {
    var line := StreetLine(e);
    assert line == "s" + (StreetPrefix(e.u, e.v, e.distanceText)[1..] + (e.name + "')."));
    assert line[|line| - 1] == '.';
    StripUnchanged(line);
  }

  // ---------------------------------------------------------------------
  // The name
  // ---------------------------------------------------------------------

  lemma CleanNameRead(u: nat, v: nat, name: string)
    requires name != [] && '\'' !in name
    ensures MatchClose(u, v, name + "').") == Some(EdgeRecord(name, u, v))
  {
    assert CloseText(name, "") == name + "').";
    MatchCloseAccepts(u, v, name, "");
  }

  lemma EmptyNameSkipped(u: nat, v: nat)
    ensures MatchClose(u, v, "').") == None
  {
    assert SpanWhile("').", IsNotQuote) == 0;
  }

  /** Whether the text after an escaped apostrophe closes the name. */
  lemma EscapedRestCloses(post: string)
    ensures StartsWith(Escape(post) + "').", ").") <==> StartsWith(post, ").")
  {
    ClosedAfter(Escape(post));
    if StartsWith(post, ").") {
      EscapePrefixChars(post);
    } else {
      EscapeNoPrefixChars(post);
    }
  }

  /** The closing `').` appended to a text never supplies the `).` it is checked for. */
  lemma ClosedAfter(x: string)
    ensures StartsWith(x + "').", ").") <==> StartsWith(x, ").")
  {
    var t := x + "').";
    if |x| >= 2 {
      assert t[..2] == x[..2];
    } else if |x| == 1 {
      assert t[1] == '\'';
    } else {
      assert t[0] == '\'';
    }
  }

  lemma EscapedText(pre: string, post: string)
    requires '\'' !in pre
    ensures Escape(pre + ("'" + post)) + "')." == (pre + "\\") + ("'" + (Escape(post) + "')."))
  {
    EscapedName(pre, post);
    Regroup(pre, Escape(post));
  }

  lemma EscapedName(pre: string, post: string)
    requires '\'' !in pre
    ensures Escape(pre + ("'" + post)) == pre + ("\\'" + Escape(post))
  {
    EscapeQuote();
    EscapeAppend("'", post);
    EscapeAppend(pre, "'" + post);
  }

  lemma Regroup(pre: string, e: string)
    ensures (pre + ("\\'" + e)) + "')." == (pre + "\\") + ("'" + (e + "')."))
  {
  }

  lemma EscapeQuote()
    ensures Escape("'") == "\\'"
  {
    assert "'"[1..] == [];
  }

  /** A name with an apostrophe, once escaped, is cut at its first apostrophe or the line is skipped. */
  lemma EscapedNameRead(u: nat, v: nat, pre: string, post: string)
    requires '\'' !in pre
    ensures MatchClose(u, v, Escape(pre + ("'" + post)) + "').")
         == if StartsWith(post, ").") then Some(EdgeRecord(pre + "\\", u, v)) else None
  {
    var x := pre + "\\";
    var y := "'" + (Escape(post) + "').");
    EscapedText(pre, post);
    SpanWhileConcat(x, y, IsNotQuote);
    SplitConcat(x, y);
    assert y[1..] == Escape(post) + "').";
    EscapedRestCloses(post);
  }

  lemma FirstQuote(raw: string) returns (pre: string, post: string)
    requires '\'' in raw
    ensures var i := SpanWhile(raw, IsNotQuote);
      raw == pre + ("'" + post) && '\'' !in pre && pre == raw[..i] && post == raw[i + 1..]
  {
    var i := SpanWhile(raw, IsNotQuote);
    SpanWhileMaximal(raw, IsNotQuote);
    var k :| 0 <= k < |raw| && raw[k] == '\'';
    pre, post := raw[..i], raw[i + 1..];
    assert raw == pre + ("'" + post);
  }

  // ---------------------------------------------------------------------
  // Read-back of one line and of the whole file
  // ---------------------------------------------------------------------

  /** An exported street line is read back exactly as `ReadBack` says. */
  lemma StreetLineReadBack(u: nat, v: nat, d: string, tag: NameTag)
    requires ',' !in d
    ensures ParseStreetLine(StreetLine(StreetEdge(u, v, d, NormaliseName(tag)))) == ReadBack(RawName(tag), u, v)
  {
    var e := StreetEdge(u, v, d, NormaliseName(tag));
    var raw := RawName(tag);
    StreetLineStripped(e);
    ReachesName(u, v, d, e.name + "').");
    if raw == [] {
      EmptyNameSkipped(u, v);
    } else if '\'' !in raw {
      CleanNameRead(u, v, raw);
    } else {
      var pre, post := FirstQuote(raw);
      EscapedNameRead(u, v, pre, post);
    }
  }

  /** A line whose name is non-empty and apostrophe-free comes back as it went out. */
  lemma CleanStreetLineRead(e: StreetEdge)
    requires ',' !in e.distanceText && e.name != [] && '\'' !in e.name
    ensures ParseStreetLine(StreetLine(e)) == Some(EdgeRecord(e.name, e.u, e.v))
  {
    StreetLineStripped(e);
    ReachesName(e.u, e.v, e.distanceText, e.name + "').");
    CleanNameRead(e.u, e.v, e.name);
  }

  /** A line with no surrounding blanks that does not begin with `s` is not a street fact. */
  lemma NotStreetLine(line: string)
    requires line != [] && line[0] != 's' && !IsSpace(line[0]) && !IsSpace(line[|line| - 1])
    ensures ParseStreetLine(line) == None
  {
    StripUnchanged(line);
    assert !StartsWith(line, "street(") by {
      if |line| >= 7 {
        assert line[..7][0] == line[0];
      }
    }
  }

  lemma LocationLineSkipped(id: nat)
    ensures ParseStreetLine(LocationLine(id)) == None
  {
    var line := LocationLine(id);
    assert line == "l" + line[1..];
    assert line[|line| - 1] == '.';
    NotStreetLine(line);
  }

  lemma CommentLineSkipped(body: string, last: char)
    requires !IsSpace(last)
    ensures ParseStreetLine("%" + body + [last]) == None
  {
    var line := "%" + body + [last];
    assert line[0] == '%' && line[|line| - 1] == last;
    NotStreetLine(line);
  }

  lemma HeaderSkipped()
    ensures StreetNodes([LocationsComment]) == []
  {
    CommentLineSkipped(" Locations in the city (Nodes", ')');
    CollectOne(LocationsComment, ParseStreetLine);
  }

  lemma StreetsCommentSkipped()
    ensures ParseStreetLine(StreetsComment) == None
  {
    CommentLineSkipped(" Streets between locations (Edges with Distances as Weights", ')');
  }

  lemma FormatCommentSkipped()
    ensures ParseStreetLine(FormatComment) == None
  {
    CommentLineSkipped(" street(Node1, Node2, Distance, Name)", '.');
  }

  lemma SkippedLine(line: string)
    requires ParseStreetLine(line) == None
    ensures StreetNodes([line]) == []
  {
    CollectOne(line, ParseStreetLine);
  }

  lemma ThreeLines(a: string, b: string, c: string)
    requires ParseStreetLine(a) == None && ParseStreetLine(b) == None && ParseStreetLine(c) == None
    ensures StreetNodes([a, b, c]) == []
  {
    SkippedLine(a);
    SkippedLine(b);
    SkippedLine(c);
    assert [a, b, c] == [a] + ([b] + [c]);
    StreetNodesAppend([a], [b] + [c]);
    StreetNodesAppend([b], [c]);
  }

  lemma SeparatorSkipped()
    ensures StreetNodes(["", StreetsComment, FormatComment]) == []
  {
    StripBlank("");
    StreetsCommentSkipped();
    FormatCommentSkipped();
    ThreeLines("", StreetsComment, FormatComment);
  }

  lemma {:induction false} LocationLinesSkipped(ids: seq<nat>)
    ensures StreetNodes(LocationLines(ids)) == []
  {
    forall i | 0 <= i < |ids|
      ensures ParseStreetLine(LocationLines(ids)[i]).None?
    {
      LocationLineSkipped(ids[i]);
    }
    CollectSkipsRejected(LocationLines(ids), ParseStreetLine);
  }

  /** The street nodes of an exported file: the records its street lines give, in order. */
  lemma ExportedStreetNodes(ids: seq<nat>, edges: seq<StreetEdge>)
    ensures StreetNodes(ExportLines(ids, edges)) == StreetNodes(StreetLines(edges))
  {
    var head := [LocationsComment];
    var middle := ["", StreetsComment, FormatComment];
    StreetNodesAppend(head + LocationLines(ids) + middle, StreetLines(edges));
    StreetNodesAppend(head + LocationLines(ids), middle);
    StreetNodesAppend(head, LocationLines(ids));
    HeaderSkipped();
    SeparatorSkipped();
    LocationLinesSkipped(ids);
  }

  /**
   * The round trip across the two programs: when every name is
   * non-empty and apostrophe-free and no distance has a comma, the
   * street nodes read from the exported file are the exported records.
   */
  lemma ExportRoundTrip(ids: seq<nat>, edges: seq<StreetEdge>)
    requires forall i :: 0 <= i < |edges| ==>
      ',' !in edges[i].distanceText && edges[i].name != [] && '\'' !in edges[i].name
    ensures var records := StreetNodes(ExportLines(ids, edges));
      |records| == |edges| &&
      forall i :: 0 <= i < |edges| ==> records[i] == EdgeRecord(edges[i].name, edges[i].u, edges[i].v)
  {
    ExportedStreetNodes(ids, edges);
    var lines := StreetLines(edges);
    forall i | 0 <= i < |lines|
      ensures ParseStreetLine(lines[i]) == Some(EdgeRecord(edges[i].name, edges[i].u, edges[i].v))
    {
      CleanStreetLineRead(edges[i]);
    }
    CollectAllAccepted(lines, ParseStreetLine);
  }
}
