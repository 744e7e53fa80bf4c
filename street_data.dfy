/**
 * Reading the street facts of the city file (`get_street_nodes`) and looking
 * up the node pairs of one street (`get_node_options`).  Both functions are
 * defined identically in find_path.py and exemple_streamlit.py; this module is
 * the single model of both copies.
 *
 * A street fact is recognised by the regular expression
 *   street\((\d+),\s*(\d+),[^,]*,\s*'([^']+)'\)\.
 * applied with `re.match` (anchored at the start only) to the stripped line.
 * Every repetition in it is followed by a character it cannot consume, so the
 * expression never backtracks, and the recogniser below reads the line
 * left to right in the same stages.
 */
module StreetData {
  import opened Wrappers
  import opened Text

  /** One `(street_name, node1, node2)` triple of the street list. */
  datatype EdgeRecord = EdgeRecord(name: string, node1: nat, node2: nat)

  /** One `(node1, node2)` option of a street. */
  datatype NodePair = NodePair(node1: nat, node2: nat)

  /** Where a node lies: its latitude and longitude. */
  datatype Coordinate = Coordinate(latitude: real, longitude: real)

  function PairOf(e: EdgeRecord): NodePair {
    NodePair(e.node1, e.node2)
  }

  predicate IsNotComma(c: char) {
    c != ','
  }

  predicate IsNotQuote(c: char) {
    c != '\''
  }

  /** A name the pattern's third group can capture: non-empty, without an apostrophe. */
  predicate ValidName(name: string) {
    |name| > 0 && '\'' !in name
  }

  /** The length of the longest prefix of `s` whose characters satisfy `p` (a greedy `[...]*`). */
  function SpanWhile(s: string, p: char -> bool): (n: nat)
    ensures n <= |s|
  {
    if |s| > 0 && p(s[0]) then 1 + SpanWhile(s[1..], p) else 0
  }

  /** The span is the longest prefix of characters satisfying `p`. */
  lemma {:induction false} SpanWhileMaximal(s: string, p: char -> bool)
    ensures forall i :: 0 <= i < SpanWhile(s, p) ==> p(s[i])
    ensures SpanWhile(s, p) < |s| ==> !p(s[SpanWhile(s, p)])
  {
    if |s| > 0 && p(s[0]) {
      SpanWhileMaximal(s[1..], p);
    }
  }

  // ---------------------------------------------------------------------
  // The recogniser, stage by stage
  // ---------------------------------------------------------------------

  /** `'([^']+)'\)\.` after the opening quote: a non-empty name, the closing quote, then `).`. */
  function MatchClose(first: nat, second: nat, h: string): (r: Option<EdgeRecord>)
    ensures r.Some? ==> r.value.node1 == first && r.value.node2 == second && ValidName(r.value.name)
  {
    var q := SpanWhile(h, IsNotQuote);
    SpanWhileMaximal(h, IsNotQuote);
    if 0 < q < |h| && StartsWith(h[q + 1..], ").") then Some(EdgeRecord(h[..q], first, second))
    else None
  }

  /** `\s*'` before the name. */
  function MatchName(first: nat, second: nat, e: string): (r: Option<EdgeRecord>)
    ensures r.Some? ==> r.value.node1 == first && r.value.node2 == second && ValidName(r.value.name)
  {
    var w := SpanWhile(e, IsSpace);
    if w < |e| && e[w] == '\'' then MatchClose(first, second, e[w + 1..]) else None
  }

  /** `[^,]*,`: the weight field, ignored. */
  function MatchWeight(first: nat, second: nat, d: string): (r: Option<EdgeRecord>)
    ensures r.Some? ==> r.value.node1 == first && r.value.node2 == second && ValidName(r.value.name)
  {
    var f := SpanWhile(d, IsNotComma);
    if f < |d| then MatchName(first, second, d[f + 1..]) else None
  }

  /** `(\d+),`: the second node. */
  function MatchSecondNode(first: nat, c: string): (r: Option<EdgeRecord>)
    ensures r.Some? ==> r.value.node1 == first && ValidName(r.value.name)
  {
    var n := SpanWhile(c, IsDigit);
    SpanWhileMaximal(c, IsDigit);
    if 0 < n < |c| && c[n] == ',' then MatchWeight(first, DigitsValue(c[..n]), c[n + 1..]) else None
  }

  /** `\s*` before the second node. */
  function MatchSecond(first: nat, b: string): (r: Option<EdgeRecord>)
    ensures r.Some? ==> r.value.node1 == first && ValidName(r.value.name)
  {
    var w := SpanWhile(b, IsSpace);
    MatchSecondNode(first, b[w..])
  }

  /** `(\d+),`: the first node. */
  function MatchFirst(a: string): (r: Option<EdgeRecord>)
    ensures r.Some? ==> ValidName(r.value.name)
  {
    var n := SpanWhile(a, IsDigit);
    SpanWhileMaximal(a, IsDigit);
    if 0 < n < |a| && a[n] == ',' then MatchSecond(DigitsValue(a[..n]), a[n + 1..]) else None
  }

  /** `pattern.match(s)` for the street pattern, on an already stripped line. */
  function MatchStreetFact(s: string): (r: Option<EdgeRecord>)
    ensures r.Some? ==> StartsWith(s, "street(") && ValidName(r.value.name)
  {
    if StartsWith(s, "street(") then MatchFirst(s[7..]) else None
  }

  /** What one line of the file contributes: `pattern.match(line.strip())`. */
  function ParseStreetLine(line: string): (r: Option<EdgeRecord>)
    ensures r.Some? ==> StartsWith(Strip(line), "street(") && ValidName(r.value.name)
  {
    MatchStreetFact(Strip(line))
  }

  // ---------------------------------------------------------------------
  // The grammar, stated as the text it accepts
  // ---------------------------------------------------------------------

  /**
   * The pieces of a line the pattern accepts: `street(` first `,` gap1 second
   * `,` weight `,` gap2 `'` name `').` rest.
   */
  datatype StreetFactParts = StreetFactParts(
    first: string, gap1: string, second: string, weight: string,
    gap2: string, name: string, rest: string)

  predicate AllSpace(s: string) {
    forall i :: 0 <= i < |s| ==> IsSpace(s[i])
  }

  predicate WellFormedParts(p: StreetFactParts) {
    && IsNumeral(p.first)
    && AllSpace(p.gap1)
    && IsNumeral(p.second)
    && ',' !in p.weight
    && AllSpace(p.gap2)
    && |p.name| > 0 && '\'' !in p.name
  }

  function CloseText(name: string, rest: string): string {
    name + ("')." + rest)
  }

  function NameText(gap2: string, name: string, rest: string): string {
    gap2 + ("'" + CloseText(name, rest))
  }

  function WeightText(weight: string, gap2: string, name: string, rest: string): string {
    weight + ("," + NameText(gap2, name, rest))
  }

  function SecondNodeText(second: string, weight: string, gap2: string, name: string, rest: string): string {
    second + ("," + WeightText(weight, gap2, name, rest))
  }

  function SecondText(p: StreetFactParts): string {
    p.gap1 + SecondNodeText(p.second, p.weight, p.gap2, p.name, p.rest)
  }

  function FirstText(p: StreetFactParts): string {
    p.first + ("," + SecondText(p))
  }

  /** The line spelled by the pieces. */
  function RenderParts(p: StreetFactParts): string {
    "street(" + FirstText(p)
  }

  /** The record the pattern's three groups give for the pieces. */
  function RecordOfParts(p: StreetFactParts): EdgeRecord
    requires WellFormedParts(p)
  {
    EdgeRecord(p.name, DigitsValue(p.first), DigitsValue(p.second))
  }

  lemma {:induction false} SpanWhileConcat(x: string, y: string, p: char -> bool)
    requires forall i :: 0 <= i < |x| ==> p(x[i])
    requires y != [] ==> !p(y[0])
    ensures SpanWhile(x + y, p) == |x|
    decreases |x|
  {
    if x != [] {
      assert (x + y)[1..] == x[1..] + y;
      SpanWhileConcat(x[1..], y, p);
    } else {
      assert x + y == y;
    }
  }

  lemma MatchCloseAccepts(first: nat, second: nat, name: string, rest: string)
    requires |name| > 0 && '\'' !in name
    ensures MatchClose(first, second, CloseText(name, rest)) == Some(EdgeRecord(name, first, second))
  {
    var h := CloseText(name, rest);
    SpanWhileConcat(name, "')." + rest, IsNotQuote);
    assert h[|name| + 1..] == ")." + rest;
  }

  lemma MatchNameAccepts(first: nat, second: nat, gap2: string, name: string, rest: string)
    requires AllSpace(gap2) && |name| > 0 && '\'' !in name
    ensures MatchName(first, second, NameText(gap2, name, rest)) == Some(EdgeRecord(name, first, second))
  {
    var e := NameText(gap2, name, rest);
    SpanWhileConcat(gap2, "'" + CloseText(name, rest), IsSpace);
    assert e[|gap2| + 1..] == CloseText(name, rest);
    MatchCloseAccepts(first, second, name, rest);
  }

  lemma MatchWeightAccepts(first: nat, second: nat, p: StreetFactParts)
    requires WellFormedParts(p)
    ensures MatchWeight(first, second, WeightText(p.weight, p.gap2, p.name, p.rest))
         == Some(EdgeRecord(p.name, first, second))
  {
    var d := WeightText(p.weight, p.gap2, p.name, p.rest);
    SpanWhileConcat(p.weight, "," + NameText(p.gap2, p.name, p.rest), IsNotComma);
    assert d[|p.weight| + 1..] == NameText(p.gap2, p.name, p.rest);
    MatchNameAccepts(first, second, p.gap2, p.name, p.rest);
  }

  lemma MatchSecondAccepts(first: nat, p: StreetFactParts)
    requires WellFormedParts(p)
    ensures MatchSecond(first, SecondText(p)) == Some(EdgeRecord(p.name, first, DigitsValue(p.second)))
  {
    var b := SecondText(p);
    var c := SecondNodeText(p.second, p.weight, p.gap2, p.name, p.rest);
    SpanWhileConcat(p.gap1, c, IsSpace);
    assert b[|p.gap1|..] == c;
    SpanWhileConcat(p.second, "," + WeightText(p.weight, p.gap2, p.name, p.rest), IsDigit);
    assert c[..|p.second|] == p.second;
    assert c[|p.second| + 1..] == WeightText(p.weight, p.gap2, p.name, p.rest);
    MatchWeightAccepts(first, DigitsValue(p.second), p);
  }

  lemma MatchFirstAccepts(p: StreetFactParts)
    requires WellFormedParts(p)
    ensures MatchFirst(FirstText(p)) == Some(RecordOfParts(p))
  {
    var a := FirstText(p);
    var tail := "," + SecondText(p);
    SplitConcat(p.first, tail);
    SpanWhileConcat(p.first, tail, IsDigit);
    assert a[|p.first|] == tail[0] == ',';
    assert a[|p.first| + 1..] == tail[1..] == SecondText(p);
    MatchSecondAccepts(DigitsValue(p.first), p);
  }

  /** Every line of the grammar's shape is accepted, and yields its name and two nodes. */
  lemma MatchStreetFactAccepts(p: StreetFactParts)
    requires WellFormedParts(p)
    ensures MatchStreetFact(RenderParts(p)) == Some(RecordOfParts(p))
  {
    var s := RenderParts(p);
    assert s[..7] == "street(";
    assert s[7..] == FirstText(p);
    MatchFirstAccepts(p);
  }

  lemma MatchCloseSound(first: nat, second: nat, h: string) returns (name: string, rest: string)
    requires MatchClose(first, second, h).Some?
    ensures |name| > 0 && '\'' !in name && h == CloseText(name, rest)
    ensures MatchClose(first, second, h) == Some(EdgeRecord(name, first, second))
  {
    var q := SpanWhile(h, IsNotQuote);
    SpanWhileMaximal(h, IsNotQuote);
    name, rest := h[..q], h[q + 3..];
    assert forall i :: 0 <= i < |name| ==> name[i] != '\'';
    var close := h[q + 1..];
    assert close[..2] == ").";
    assert h[q..q + 3] == "')." by {
      assert h[q] == '\'' && h[q + 1] == close[0] && h[q + 2] == close[1];
    }
    Decompose(h, q, q + 3);
  }

  lemma MatchNameSound(first: nat, second: nat, e: string) returns (gap2: string, name: string, rest: string)
    requires MatchName(first, second, e).Some?
    ensures AllSpace(gap2) && |name| > 0 && '\'' !in name && e == NameText(gap2, name, rest)
    ensures MatchName(first, second, e) == Some(EdgeRecord(name, first, second))
  {
    var w := SpanWhile(e, IsSpace);
    SpanWhileMaximal(e, IsSpace);
    gap2 := e[..w];
    name, rest := MatchCloseSound(first, second, e[w + 1..]);
    SplitAround(e, w);
  }

  lemma MatchWeightSound(first: nat, second: nat, d: string)
    returns (weight: string, gap2: string, name: string, rest: string)
    requires MatchWeight(first, second, d).Some?
    ensures ',' !in weight && AllSpace(gap2) && |name| > 0 && '\'' !in name
    ensures d == WeightText(weight, gap2, name, rest)
    ensures MatchWeight(first, second, d) == Some(EdgeRecord(name, first, second))
  {
    var f := SpanWhile(d, IsNotComma);
    SpanWhileMaximal(d, IsNotComma);
    weight := d[..f];
    assert forall i :: 0 <= i < |weight| ==> weight[i] != ',';
    gap2, name, rest := MatchNameSound(first, second, d[f + 1..]);
    SplitAround(d, f);
  }

  lemma MatchSecondNodeSound(first: nat, c: string)
    returns (second: string, weight: string, gap2: string, name: string, rest: string)
    requires MatchSecondNode(first, c).Some?
    ensures IsNumeral(second) && ',' !in weight && AllSpace(gap2) && |name| > 0 && '\'' !in name
    ensures c == SecondNodeText(second, weight, gap2, name, rest)
    ensures MatchSecondNode(first, c) == Some(EdgeRecord(name, first, DigitsValue(second)))
  {
    var n := SpanWhile(c, IsDigit);
    SpanWhileMaximal(c, IsDigit);
    second := c[..n];
    weight, gap2, name, rest := MatchWeightSound(first, DigitsValue(second), c[n + 1..]);
    SplitAround(c, n);
  }

  lemma MatchSecondSound(first: nat, b: string) returns (p: StreetFactParts)
    requires MatchSecond(first, b).Some?
    ensures AllSpace(p.gap1) && IsNumeral(p.second) && ',' !in p.weight && AllSpace(p.gap2)
    ensures |p.name| > 0 && '\'' !in p.name
    ensures b == SecondText(p)
    ensures MatchSecond(first, b) == Some(EdgeRecord(p.name, first, DigitsValue(p.second)))
  {
    var w := SpanWhile(b, IsSpace);
    SpanWhileMaximal(b, IsSpace);
    var second, weight, gap2, name, rest := MatchSecondNodeSound(first, b[w..]);
    p := StreetFactParts([], b[..w], second, weight, gap2, name, rest);
    GapThenSecond(b, w, p);
  }

  lemma GapThenSecond(b: string, w: nat, p: StreetFactParts)
    requires w <= |b| && p.gap1 == b[..w]
    requires b[w..] == SecondNodeText(p.second, p.weight, p.gap2, p.name, p.rest)
    ensures b == SecondText(p)
  {
    assert b == b[..w] + b[w..];
  }

  lemma MatchFirstSound(a: string) returns (p: StreetFactParts)
    requires MatchFirst(a).Some?
    ensures WellFormedParts(p) && a == FirstText(p)
    ensures MatchFirst(a) == Some(RecordOfParts(p))
  {
    var n := SpanWhile(a, IsDigit);
    SpanWhileMaximal(a, IsDigit);
    var first := a[..n];
    var q := MatchSecondSound(DigitsValue(first), a[n + 1..]);
    p := StreetFactParts(first, q.gap1, q.second, q.weight, q.gap2, q.name, q.rest);
    assert SecondText(p) == SecondText(q);
    SplitAround(a, n);
  }

  /** A string is what comes before position `n`, the character there, and what follows. */
  lemma SplitAround(s: string, n: nat)
    requires n < |s|
    ensures s == s[..n] + ([s[n]] + s[n + 1..])
  {
    assert s[n..] == [s[n]] + s[n + 1..];
  }

  /** Every accepted line has the grammar's shape, and the result is read from its pieces. */
  lemma MatchStreetFactSound(s: string) returns (p: StreetFactParts)
    requires MatchStreetFact(s).Some?
    ensures WellFormedParts(p)
    ensures RenderParts(p) == s
    ensures MatchStreetFact(s) == Some(RecordOfParts(p))
  {
    p := MatchFirstSound(s[7..]);
    Decompose(s, 7, 7);
  }

  // ---------------------------------------------------------------------
  // get_street_nodes
  // ---------------------------------------------------------------------

  /** The records `parse` accepts among `lines`, in order. */
  function Collect(lines: seq<string>, parse: string -> Option<EdgeRecord>): seq<EdgeRecord> {
    if lines == [] then []
    else
      var last := lines[|lines| - 1];
      Collect(lines[..|lines| - 1], parse) + match parse(last) {
        case Some(e) => [e]
        case None => []
      }
  }

  /** The records of the accepted lines of the city file, in file order. */
  function StreetNodes(lines: seq<string>): (r: seq<EdgeRecord>)
    ensures |r| <= |lines|
    ensures forall k :: 0 <= k < |r| ==> ValidName(r[k].name)
    ensures forall k :: 0 <= k < |r| ==> exists i :: 0 <= i < |lines| && ParseStreetLine(lines[i]) == Some(r[k])
  {
    CollectLength(lines, ParseStreetLine);
    CollectFrom(lines, ParseStreetLine);
    Collect(lines, ParseStreetLine)
  }

  /** `get_street_nodes`: one pass over the lines of the file, appending each accepted record. */
  method GetStreetNodes(lines: seq<string>) returns (records: seq<EdgeRecord>)
    ensures records == StreetNodes(lines)
    ensures |records| <= |lines|
  {
    // The compiled pattern, applied to every stripped line.
    var parse := ParseStreetLine;
    records := [];
    var i := 0;
    while i < |lines|
      invariant 0 <= i <= |lines|
      invariant records == Collect(lines[..i], parse)
      invariant |records| <= i
    {
      var m := parse(lines[i]);
      CollectStep(lines, i, parse);
      if m.Some? {
        records := records + [m.value];
      }
      i := i + 1;
    }
    assert lines[..i] == lines;
  }

  lemma CollectStep(lines: seq<string>, i: nat, parse: string -> Option<EdgeRecord>)
    requires i < |lines|
    ensures Collect(lines[..i + 1], parse)
         == Collect(lines[..i], parse) + if parse(lines[i]).Some? then [parse(lines[i]).value] else []
  {
    assert lines[..i + 1][..i] == lines[..i];
  }

  lemma {:induction false} CollectAppend(xs: seq<string>, ys: seq<string>, parse: string -> Option<EdgeRecord>)
    ensures Collect(xs + ys, parse) == Collect(xs, parse) + Collect(ys, parse)
    decreases |ys|
  {
    if ys == [] {
      assert xs + ys == xs;
    } else {
      var zs := xs + ys;
      assert zs[..|zs| - 1] == xs + ys[..|ys| - 1];
      assert zs[|zs| - 1] == ys[|ys| - 1];
      CollectAppend(xs, ys[..|ys| - 1], parse);
    }
  }

  /** Reading a file in two parts reads the parts one after the other: file order is kept. */
  lemma StreetNodesAppend(xs: seq<string>, ys: seq<string>)
    ensures StreetNodes(xs + ys) == StreetNodes(xs) + StreetNodes(ys)
  {
    CollectAppend(xs, ys, ParseStreetLine);
  }

  /** A single line yields its record when accepted and nothing otherwise. */
  lemma CollectOne(line: string, parse: string -> Option<EdgeRecord>)
    ensures Collect([line], parse) == if parse(line).Some? then [parse(line).value] else []
  {
    assert [line][..0] == [];
  }

  /** Rejected lines (for the street pattern: comments, blank lines, `location(...)` facts) contribute nothing. */
  lemma {:induction false} CollectSkipsRejected(lines: seq<string>, parse: string -> Option<EdgeRecord>)
    requires forall i :: 0 <= i < |lines| ==> parse(lines[i]).None?
    ensures Collect(lines, parse) == []
  {
    if lines != [] {
      CollectSkipsRejected(lines[..|lines| - 1], parse);
    }
  }

  /** With every line accepted, the k-th record is the k-th line's. */
  lemma {:induction false} CollectAllAccepted(lines: seq<string>, parse: string -> Option<EdgeRecord>)
    requires forall i :: 0 <= i < |lines| ==> parse(lines[i]).Some?
    ensures |Collect(lines, parse)| == |lines|
    ensures forall i :: 0 <= i < |lines| ==> Collect(lines, parse)[i] == parse(lines[i]).value
  {
    if lines != [] {
      CollectAllAccepted(lines[..|lines| - 1], parse);
    }
  }

  /** Every record is what `parse` gives for one of the lines. */
  lemma {:induction false} CollectFrom(lines: seq<string>, parse: string -> Option<EdgeRecord>)
    ensures forall k :: 0 <= k < |Collect(lines, parse)| ==>
      exists i :: 0 <= i < |lines| && parse(lines[i]) == Some(Collect(lines, parse)[k])
  {
    if lines != [] {
      var init := lines[..|lines| - 1];
      CollectFrom(init, parse);
      forall k | 0 <= k < |Collect(lines, parse)|
        ensures exists i :: 0 <= i < |lines| && parse(lines[i]) == Some(Collect(lines, parse)[k])
      {
        if k < |Collect(init, parse)| {
          var i :| 0 <= i < |init| && parse(init[i]) == Some(Collect(init, parse)[k]);
          assert lines[i] == init[i];
        } else {
          assert parse(lines[|lines| - 1]) == Some(Collect(lines, parse)[k]);
        }
      }
    } else {
      assert Collect(lines, parse) == [];
    }
  }

  /** There are never more records than lines. */
  lemma {:induction false} CollectLength(lines: seq<string>, parse: string -> Option<EdgeRecord>)
    ensures |Collect(lines, parse)| <= |lines|
  {
    if lines != [] {
      CollectLength(lines[..|lines| - 1], parse);
    }
  }

  // ---------------------------------------------------------------------
  // get_node_options
  // ---------------------------------------------------------------------

  /** `get_node_options`: the `(node1, node2)` of every record named `name`, in record order. */
  function NodeOptions(name: string, records: seq<EdgeRecord>): (r: seq<NodePair>)
    ensures |r| <= |records|
    ensures forall i :: 0 <= i < |records| && records[i].name == name ==> PairOf(records[i]) in r
    ensures forall p :: p in r ==> exists i :: 0 <= i < |records| && records[i].name == name && PairOf(records[i]) == p
  {
    if records == [] then []
    else
      var rest := NodeOptions(name, records[1..]);
      var r := (if records[0].name == name then [PairOf(records[0])] else []) + rest;
      assert forall i :: 1 <= i < |records| ==> records[i] == records[1..][i - 1];
      r
  }

  /** The options of a record list in two parts are those of the parts, in order. */
  lemma {:induction false} NodeOptionsAppend(name: string, xs: seq<EdgeRecord>, ys: seq<EdgeRecord>)
    ensures NodeOptions(name, xs + ys) == NodeOptions(name, xs) + NodeOptions(name, ys)
  {
    if xs == [] {
      assert xs + ys == ys;
    } else {
      assert (xs + ys)[1..] == xs[1..] + ys;
      NodeOptionsAppend(name, xs[1..], ys);
    }
  }

  function CountNamed(name: string, records: seq<EdgeRecord>): nat {
    if records == [] then 0
    else (if records[0].name == name then 1 else 0) + CountNamed(name, records[1..])
  }

  /** Duplicates are kept: there is one option per record of that name. */
  lemma {:induction false} NodeOptionsCount(name: string, records: seq<EdgeRecord>)
    ensures |NodeOptions(name, records)| == CountNamed(name, records)
  {
    if records != [] {
      NodeOptionsCount(name, records[1..]);
    }
  }

  // ---------------------------------------------------------------------
  // find_best_match
  // ---------------------------------------------------------------------

  /**
   * What `find_best_match` promises of the names it returns:
   * `difflib.get_close_matches(..., n=5, cutoff=0.5)` over the set of
   * record names returns at most five names, each one of those names.
   */
  ghost predicate MatcherSound(matcher: (string, seq<EdgeRecord>) -> seq<string>) {
    forall q: string, records: seq<EdgeRecord> ::
      && |matcher(q, records)| <= 5
      && forall m :: m in matcher(q, records) ==> exists k :: 0 <= k < |records| && records[k].name == m
  }

  /** A name a sound matcher offers is the name of a record, so it has at least one node pair. */
  lemma MatchedNameHasOptions(matcher: (string, seq<EdgeRecord>) -> seq<string>, q: string,
                              records: seq<EdgeRecord>, m: string)
    ensures MatcherSound(matcher) && m in matcher(q, records) ==> NodeOptions(m, records) != []
  {
    if MatcherSound(matcher) && m in matcher(q, records) {
      var k :| 0 <= k < |records| && records[k].name == m;
      assert PairOf(records[k]) in NodeOptions(m, records);
    }
  }
}
