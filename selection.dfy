/**
 * The interactive choices of the command-line tool (find_path.py):
 * `select_street`, `select_node_pair` and `choose_node_from_pair`.  Each
 * one re-prompts until the user types an acceptable number.  What the
 * user types is a sequence of lines, and each prompt sees them as
 * `int()` reads them (`ParseAnswer`): a number, or `None` for the
 * `ValueError` the prompt catches.  Running out of answers is the end of
 * input, at which point Python's `input()` raises `EOFError` and the
 * program stops.
 */
module Selection {
  import opened Wrappers
  import opened Text
  import opened StreetData

  /** The outcome of one prompt. */
  datatype Choice<T> =
    | Chosen(value: T, read: nat)  // the choice, and how many answers were read to reach it
    | EndOfInput                   // every answer was rejected and input ran out
    | NoOptions                    // the option list was empty (Python raises IndexError)

  // ---------------------------------------------------------------------
  // Reading a number
  // ---------------------------------------------------------------------

  /** `int(t)` on an unsigned run of ASCII digits, read digit by digit from the right. */
  function ReadDigits(t: string): (r: Option<nat>)
    ensures r.Some? ==> t != []
  {
    if t == [] || !IsDigit(t[|t| - 1]) then None
    else
      var d := t[|t| - 1] as int - '0' as int;
      if |t| == 1 then Some(d)
      else match ReadDigits(t[..|t| - 1])
        case None => None
        case Some(v) => Some(10 * v + d)
  }

  /** `ReadDigits` accepts exactly the numerals, and computes their value. */
  lemma {:induction false} ReadDigitsValue(t: string)
    ensures ReadDigits(t) == if IsNumeral(t) then Some(DigitsValue(t)) else None
  {
    if |t| > 1 {
      ReadDigitsValue(t[..|t| - 1]);
    } else {
      assert t[..0] == [];
    }
  }

  /** `int(t)` on a stripped line: an optional sign, then digits. */
  function ReadInt(t: string): (r: Option<int>)
    ensures r.Some? ==> t != []
    ensures r.Some? && r.value < 0 ==> t[0] == '-'
    ensures IsNumeral(t) ==> r == Some(DigitsValue(t) as int)
    ensures |t| > 1 && (t[0] == '+' || t[0] == '-') && IsNumeral(t[1..]) ==>
      r == Some(if t[0] == '-' then -(DigitsValue(t[1..]) as int) else DigitsValue(t[1..]) as int)
  {
    ReadDigitsValue(t);
    if |t| > 0 && (t[0] == '+' || t[0] == '-') then
      ReadDigitsValue(t[1..]);
      match ReadDigits(t[1..])
      case None => None
      case Some(v) => if t[0] == '-' then Some(0 - v) else Some(v)
    else
      match ReadDigits(t)
      case None => None
      case Some(v) => Some(v)
  }

  /**
   * Python's `int(line)`: surrounding whitespace is ignored, then an
   * optional sign and a run of ASCII digits.  `None` is the `ValueError`
   * the prompts catch.
   */
  function ParseAnswer(line: string): (r: Option<int>)
    ensures var t := Strip(line);
      r.Some? <==> IsNumeral(t) || (|t| > 1 && (t[0] == '+' || t[0] == '-') && IsNumeral(t[1..]))
    ensures IsNumeral(Strip(line)) ==> r == Some(DigitsValue(Strip(line)) as int)
    ensures r.Some? && r.value < 0 ==> Strip(line)[0] == '-'
    ensures var t := Strip(line);
      |t| > 1 && (t[0] == '+' || t[0] == '-') && IsNumeral(t[1..]) ==>
        r == Some(if t[0] == '-' then -(DigitsValue(t[1..]) as int) else DigitsValue(t[1..]) as int)
  {
    var t := Strip(line);
    ReadDigitsValue(t);
    if |t| > 0 then
      ReadDigitsValue(t[1..]);
      ReadInt(t)
    else ReadInt(t)
  }

  /** The rendering of an integer that `int()` reads back. */
  function ShowInt(n: int): string {
    if n < 0 then "-" + Show(-n) else Show(n)
  }

  /** A rendered natural number is read back as itself. */
  lemma ReadDigitsShow(n: nat)
    ensures ReadDigits(Show(n)) == Some(n)
  {
    ReadDigitsValue(Show(n));
    ShowRoundTrip(n);
  }

  /** A minus sign in front of digits negates their value. */
  lemma ReadIntNegative(d: string, v: nat)
    requires ReadDigits(d) == Some(v)
    ensures ReadInt("-" + d) == Some(-(v as int))
  {
    assert ("-" + d)[1..] == d;
  }

  /** Digits without a sign keep their value. */
  lemma ReadIntUnsigned(d: string, v: nat)
    requires ReadDigits(d) == Some(v) && IsDigit(d[0])
    ensures ReadInt(d) == Some(v)
  {
  }

  /** A rendered integer is read back as itself. */
  lemma ReadIntShow(n: int)
    ensures ReadInt(ShowInt(n)) == Some(n)
  {
    if n < 0 {
      ReadDigitsShow(-n);
      ReadIntNegative(Show(-n), -n);
    } else {
      ReadDigitsShow(n);
      ReadIntUnsigned(Show(n), n);
    }
  }

  /** A typed number, with any whitespace around it, is read back as that number. */
  lemma ParseAnswerShow(pre: string, n: int, post: string)
    requires forall i :: 0 <= i < |pre| ==> IsSpace(pre[i])
    requires forall i :: 0 <= i < |post| ==> IsSpace(post[i])
    ensures ParseAnswer(pre + ShowInt(n) + post) == Some(n)
  {
    var s := ShowInt(n);
    assert !IsSpace(s[0]) && !IsSpace(s[|s| - 1]);
    assert pre + s + post == pre + (s + post);
    TrimExact(pre, s, post, IsSpace);
    ReadIntShow(n);
  }

  /** A line holding anything but digits and a leading sign is not a number. */
  lemma ParseAnswerRejects(line: string, i: nat)
    requires i < |Strip(line)|
    requires var c := Strip(line)[i]; !IsDigit(c) && c != '+' && c != '-'
    ensures ParseAnswer(line) == None
  {
    var t := Strip(line);
    ReadDigitsValue(t);
    if |t| > 0 {
      ReadDigitsValue(t[1..]);
      if i > 0 {
        assert t[1..][i - 1] == t[i];
      }
    }
  }

  /** Every typed line as `int()` reads it. */
  function Parsed(lines: seq<string>): (r: seq<Option<int>>)
    ensures |r| == |lines|
  {
    seq(|lines|, i requires 0 <= i < |lines| => ParseAnswer(lines[i]))
  }

  /** Reading the remaining lines is the remainder of reading all of them. */
  lemma ParsedDrop(lines: seq<string>, i: nat)
    requires i <= |lines|
    ensures Parsed(lines[i..]) == Parsed(lines)[i..]
  {
  }

  /** An answer is accepted when it is a number between `lo` and `hi`. */
  predicate Accepts(a: Option<int>, lo: int, hi: int) {
    a.Some? && lo <= a.value <= hi
  }

  // ---------------------------------------------------------------------
  // The retry loop, as a specification
  // ---------------------------------------------------------------------

  /** The position of the first accepted answer, if any. */
  function FirstAccepted(answers: seq<Option<int>>, lo: int, hi: int): (r: Option<nat>)
    ensures r.Some? ==> r.value < |answers| && Accepts(answers[r.value], lo, hi)
    ensures r.Some? ==> forall j :: 0 <= j < r.value ==> !Accepts(answers[j], lo, hi)
    ensures r.None? ==> forall j :: 0 <= j < |answers| ==> !Accepts(answers[j], lo, hi)
  {
    if |answers| == 0 then None
    else if Accepts(answers[0], lo, hi) then Some(0)
    else match FirstAccepted(answers[1..], lo, hi)
      case None => None
      case Some(i) => Some(i + 1)
  }

  /** What `select_street` answers for the given matches and typed numbers. */
  function StreetChoice(matches: seq<string>, answers: seq<Option<int>>): (r: Choice<string>)
    ensures !r.NoOptions?
    ensures r.Chosen? ==> r.read <= |answers|
    ensures |matches| == 1 ==> r == Chosen(matches[0], 0)
    ensures r.EndOfInput? <==> |matches| != 1 && forall j :: 0 <= j < |answers| ==> !Accepts(answers[j], 1, |matches|)
    ensures r.Chosen? && |matches| != 1 ==>
      && 1 <= r.read <= |answers|
      && Accepts(answers[r.read - 1], 1, |matches|)
      && r.value == matches[answers[r.read - 1].value - 1]
      && forall j :: 0 <= j < r.read - 1 ==> !Accepts(answers[j], 1, |matches|)
  {
    if |matches| == 1 then Chosen(matches[0], 0)
    else match FirstAccepted(answers, 1, |matches|)
      case None => EndOfInput
      case Some(i) => Chosen(matches[answers[i].value - 1], i + 1)
  }

  /** What `choose_node_from_pair` answers. */
  function PairNodeChoice(pair: NodePair, answers: seq<Option<int>>): (r: Choice<nat>)
    ensures !r.NoOptions?
    ensures r.EndOfInput? <==> forall j :: 0 <= j < |answers| ==> !Accepts(answers[j], 1, 2)
    ensures r.Chosen? ==>
      && 1 <= r.read <= |answers|
      && ((answers[r.read - 1] == Some(1) && r.value == pair.node1) ||
          (answers[r.read - 1] == Some(2) && r.value == pair.node2))
      && forall j :: 0 <= j < r.read - 1 ==> !Accepts(answers[j], 1, 2)
  {
    match FirstAccepted(answers, 1, 2)
    case None => EndOfInput
    case Some(i) => Chosen(if answers[i] == Some(1) then pair.node1 else pair.node2, i + 1)
  }

  /**
   * What `select_node_pair` answers: the sole pair's first node, or a
   * pair and then one of its nodes chosen through the two prompts
   * (`NodePairChoiceSpec` states which).
   */
  function NodePairChoice(options: seq<NodePair>, answers: seq<Option<int>>): (r: Choice<nat>)
    ensures r.NoOptions? <==> options == []
    ensures |options| == 1 ==> r == Chosen(options[0].node1, 0)
    ensures r.Chosen? ==>
      && r.read <= |answers|
      && exists k :: 0 <= k < |options| && (r.value == options[k].node1 || r.value == options[k].node2)
  {
    if |options| == 1 then Chosen(options[0].node1, 0)
    else if |options| == 0 then NoOptions
    else match FirstAccepted(answers, 1, |options|)
      case None => EndOfInput
      case Some(i) =>
        var k := answers[i].value - 1;
        var node := PairNodeChoice(options[k], answers[i + 1..]);
        if node.Chosen? then
          assert node.value == options[k].node1 || node.value == options[k].node2;
          Chosen(node.value, i + 1 + node.read)
        else EndOfInput
  }

  /** `choose_node_from_pair` on the answers after position `i`, in terms of the whole answer list. */
  lemma PairNodeChoiceAfter(pair: NodePair, answers: seq<Option<int>>, i: nat)
    requires i < |answers|
    ensures var c := PairNodeChoice(pair, answers[i + 1..]);
      && !c.NoOptions?
      && (c.EndOfInput? <==> forall j :: i < j < |answers| ==> !Accepts(answers[j], 1, 2))
      && (c.Chosen? ==>
            var read := i + 1 + c.read;
            && i + 1 < read <= |answers|
            && (forall j :: i < j < read - 1 ==> !Accepts(answers[j], 1, 2))
            && ((answers[read - 1] == Some(1) && c.value == pair.node1) ||
                (answers[read - 1] == Some(2) && c.value == pair.node2)))
  {
    var later := answers[i + 1..];
    assert forall j :: 0 <= j < |later| ==> later[j] == answers[i + 1 + j];
    assert forall j :: i < j < |answers| ==> answers[j] == later[j - i - 1];
  }

  /**
   * `select_node_pair` with several pairs: the first answer `k` in 1..n
   * selects pair `k`, and the first answer 1 or 2 after it selects that
   * pair's first or second node.  Input ends exactly when either answer
   * never comes.
   */
  lemma NodePairChoiceSpec(options: seq<NodePair>, answers: seq<Option<int>>)
    requires |options| >= 2
    ensures var r := NodePairChoice(options, answers);
      r.EndOfInput? <==>
        match FirstAccepted(answers, 1, |options|)
        case None => true
        case Some(i) => forall j :: i < j < |answers| ==> !Accepts(answers[j], 1, 2)
    ensures var r := NodePairChoice(options, answers);
      r.Chosen? ==>
        && FirstAccepted(answers, 1, |options|).Some?
        && var i := FirstAccepted(answers, 1, |options|).value;
           var pair := options[answers[i].value - 1];
           && i + 1 < r.read <= |answers|
           && (forall j :: i < j < r.read - 1 ==> !Accepts(answers[j], 1, 2))
           && ((answers[r.read - 1] == Some(1) && r.value == pair.node1) ||
               (answers[r.read - 1] == Some(2) && r.value == pair.node2))
  {
    var first := FirstAccepted(answers, 1, |options|);
    if first.Some? {
      var i := first.value;
      PairNodeChoiceAfter(options[answers[i].value - 1], answers, i);
    }
  }

  // ---------------------------------------------------------------------
  // The prompts
  // ---------------------------------------------------------------------

  /**
   * `select_street`: a sole match is taken without reading anything;
   * otherwise answers are read until one names a position in `matches`.
   */
  method SelectStreet(matches: seq<string>, answers: seq<Option<int>>) returns (r: Choice<string>)
    ensures r == StreetChoice(matches, answers)
    ensures r.Chosen? ==> r.value in matches && r.read <= |answers|
    ensures r.NoOptions? == false
  {
    if |matches| == 1 {
      return Chosen(matches[0], 0);
    }
    var i := 0;
    while i < |answers|
      invariant i <= |answers|
      invariant forall j :: 0 <= j < i ==> !Accepts(answers[j], 1, |matches|)
    {
      var selection := answers[i];
      if selection.Some? && 1 <= selection.value <= |matches| {
        return Chosen(matches[selection.value - 1], i + 1);
      }
      i := i + 1;
    }
    return EndOfInput;
  }

  /** `choose_node_from_pair`: answer 1 picks the first node, answer 2 the second. */
  method ChooseNodeFromPair(pair: NodePair, answers: seq<Option<int>>) returns (r: Choice<nat>)
    ensures r == PairNodeChoice(pair, answers)
    ensures r.Chosen? ==> (r.value == pair.node1 || r.value == pair.node2) && 1 <= r.read <= |answers|
  {
    var i := 0;
    while i < |answers|
      invariant i <= |answers|
      invariant forall j :: 0 <= j < i ==> !Accepts(answers[j], 1, 2)
    {
      var selection := answers[i];
      if selection == Some(1) {
        return Chosen(pair.node1, i + 1);
      } else if selection == Some(2) {
        return Chosen(pair.node2, i + 1);
      }
      i := i + 1;
    }
    return EndOfInput;
  }

  /**
   * `select_node_pair`: a sole pair yields its first node without reading
   * anything; otherwise the user picks a pair and then one of its nodes.
   */
  method SelectNodePair(options: seq<NodePair>, answers: seq<Option<int>>) returns (r: Choice<nat>)
    ensures r == NodePairChoice(options, answers)
    ensures r.Chosen? ==> r.read <= |answers|
    ensures r.Chosen? ==>
      exists k :: 0 <= k < |options| && (r.value == options[k].node1 || r.value == options[k].node2)
  {
    if |options| == 1 {
      return Chosen(options[0].node1, 0);
    }
    if |options| == 0 {
      return NoOptions;
    }
    var i := 0;
    while i < |answers|
      invariant i <= |answers|
      invariant forall j :: 0 <= j < i ==> !Accepts(answers[j], 1, |options|)
    {
      var selection := answers[i];
      if selection.Some? && 1 <= selection.value <= |options| {
        var k := selection.value - 1;
        assert FirstAccepted(answers, 1, |options|) == Some(i);
        var node := ChooseNodeFromPair(options[k], answers[i + 1..]);
        if node.Chosen? {
          return Chosen(node.value, i + 1 + node.read);
        }
        return EndOfInput;
      }
      i := i + 1;
    }
    return EndOfInput;
  }

  // ---------------------------------------------------------------------
  // Properties of the prompts
  // ---------------------------------------------------------------------

  /** Rejected answers before the first acceptable one are skipped. */
  lemma {:induction false} FirstAcceptedSkips(rejected: seq<Option<int>>, rest: seq<Option<int>>, lo: int, hi: int)
    requires forall j :: 0 <= j < |rejected| ==> !Accepts(rejected[j], lo, hi)
    ensures FirstAccepted(rejected + rest, lo, hi) ==
      match FirstAccepted(rest, lo, hi)
      case None => None
      case Some(i) => Some(|rejected| + i)
  {
    if rejected == [] {
      assert rejected + rest == rest;
    } else {
      assert (rejected + rest)[0] == rejected[0];
      assert (rejected + rest)[1..] == rejected[1..] + rest;
      FirstAcceptedSkips(rejected[1..], rest, lo, hi);
    }
  }

  /** Answers after the accepted one are never read. */
  lemma {:induction false} FirstAcceptedIgnoresLater(answers: seq<Option<int>>, later: seq<Option<int>>, lo: int, hi: int)
    requires FirstAccepted(answers, lo, hi).Some?
    ensures FirstAccepted(answers + later, lo, hi) == FirstAccepted(answers, lo, hi)
  {
    if !Accepts(answers[0], lo, hi) {
      assert (answers + later)[1..] == answers[1..] + later;
      FirstAcceptedIgnoresLater(answers[1..], later, lo, hi);
    }
  }

  /** A typed position picks that match, whatever invalid attempts came before and whatever follows. */
  lemma StreetChoiceTyped(matches: seq<string>, rejected: seq<Option<int>>, k: nat, later: seq<Option<int>>)
    requires |matches| >= 2 && 1 <= k <= |matches|
    requires forall j :: 0 <= j < |rejected| ==> !Accepts(rejected[j], 1, |matches|)
    ensures StreetChoice(matches, rejected + [Some(k)] + later) == Chosen(matches[k - 1], |rejected| + 1)
  {
    FirstAcceptedIgnoresLater([Some(k)], later, 1, |matches|);
    FirstAcceptedSkips(rejected, [Some(k)] + later, 1, |matches|);
    assert rejected + [Some(k)] + later == rejected + ([Some(k)] + later);
  }

  /** Typing `c` in 1..2 after rejected attempts picks that node of the pair. */
  lemma PairNodeChoiceTyped(pair: NodePair, rejected: seq<Option<int>>, c: nat, later: seq<Option<int>>)
    requires 1 <= c <= 2
    requires forall j :: 0 <= j < |rejected| ==> !Accepts(rejected[j], 1, 2)
    ensures PairNodeChoice(pair, rejected + [Some(c)] + later) ==
      Chosen(if c == 1 then pair.node1 else pair.node2, |rejected| + 1)
  {
    FirstAcceptedIgnoresLater([Some(c)], later, 1, 2);
    FirstAcceptedSkips(rejected, [Some(c)] + later, 1, 2);
    assert rejected + [Some(c)] + later == rejected + ([Some(c)] + later);
  }

  /**
   * Typing pair `k` and then node answer `c`, after any rejected attempts
   * at either prompt, picks node `c` of pair `k`.
   */
  lemma NodePairChoiceTyped(options: seq<NodePair>, rejected: seq<Option<int>>, k: nat,
                            rejected2: seq<Option<int>>, c: nat, later: seq<Option<int>>)
    requires |options| >= 2 && 1 <= k <= |options| && 1 <= c <= 2
    requires forall j :: 0 <= j < |rejected| ==> !Accepts(rejected[j], 1, |options|)
    requires forall j :: 0 <= j < |rejected2| ==> !Accepts(rejected2[j], 1, 2)
    ensures NodePairChoice(options, rejected + [Some(k)] + rejected2 + [Some(c)] + later) ==
      Chosen(if c == 1 then options[k - 1].node1 else options[k - 1].node2, |rejected| + |rejected2| + 2)
  {
    var nodeAnswers := rejected2 + [Some(c)] + later;
    var answers := rejected + [Some(k)] + rejected2 + [Some(c)] + later;
    var node := if c == 1 then options[k - 1].node1 else options[k - 1].node2;
    assert FirstAccepted(answers, 1, |options|) == Some(|rejected|) by {
      assert answers == rejected + ([Some(k)] + nodeAnswers);
      FirstAcceptedIgnoresLater([Some(k)], nodeAnswers, 1, |options|);
      FirstAcceptedSkips(rejected, [Some(k)] + nodeAnswers, 1, |options|);
    }
    assert answers[|rejected|] == Some(k) && answers[|rejected| + 1..] == nodeAnswers by {
      assert answers == rejected + ([Some(k)] + nodeAnswers);
    }
    assert PairNodeChoice(options[k - 1], nodeAnswers) == Chosen(node, |rejected2| + 1) by {
      PairNodeChoiceTyped(options[k - 1], rejected2, c, later);
    }
  }
}
