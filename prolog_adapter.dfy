/**
 * The exchange with the SWI-Prolog A* solver (src/astart_prolog_adapter.py,
 * and the same steps written inline in find_path.py): the goal string, the
 * argument vector, the split of the solver's standard output into a path
 * line and a cost line, and the tolerant reading of the path line.
 *
 * Running the solver is a parameter: a function from the argument vector
 * to what the process did.  The cost line is kept as text; its conversion
 * with `float()` is not part of this model.
 */
module PrologAdapter {
  import opened Wrappers
  import opened Text
  import opened StreetData

  // ---------------------------------------------------------------------
  // Configuration
  // ---------------------------------------------------------------------

  /** The adapter's two fields, set once by its constructor. */
  datatype AdapterConfig = AdapterConfig(prologFile: string, prologPath: string)

  /** `AstarPrologAdapter()` with its default arguments. */
  const DefaultConfig := AdapterConfig("./src/astar_implementation.pl", "swipl")

  /** The solver program and executable the command-line tool hard-codes. */
  const ScriptConfig := AdapterConfig("astar_program.pl", "swipl")

  // ---------------------------------------------------------------------
  // The goal and the command
  // ---------------------------------------------------------------------

  const GoalHead := "astar("
  // The tail starts with its comma as a literal of its own, so that its
  // first character is visible without unfolding the whole constant.
  const GoalTail := "," + " Path, Cost), write(Path), nl, write(Cost), halt."

  /**
   * `__prolog_goal`: ask for a path between the two nodes and print it,
   * then its cost.  The goal names exactly the two nodes, in order.
   */
  function PrologGoal(start: nat, end: nat): (goal: string)
    ensures StartsWith(goal, GoalHead)
    ensures GoalNodes(goal) == Some(NodePair(start, end))
  {
    GoalNodesOfGoal(start, end);
    GoalHead + (Show(start) + (", " + (Show(end) + GoalTail)))
  }

  /** Reads the two node ids back out of a goal; the inverse of `PrologGoal`. */
  function GoalNodes(goal: string): Option<NodePair> {
    if StartsWith(goal, GoalHead) then GoalStartNode(goal[|GoalHead|..]) else None
  }

  /** The first node id, then `", "`. */
  function GoalStartNode(a: string): Option<NodePair> {
    var n := SpanWhile(a, IsDigit);
    SpanWhileMaximal(a, IsDigit);
    if n == 0 || !StartsWith(a[n..], ", ") then None
    else GoalEndNode(DigitsValue(a[..n]), a[n + 2..])
  }

  /** The second node id, then the fixed tail of the goal. */
  function GoalEndNode(start: nat, b: string): Option<NodePair> {
    var m := SpanWhile(b, IsDigit);
    SpanWhileMaximal(b, IsDigit);
    if m == 0 || b[m..] != GoalTail then None
    else Some(NodePair(start, DigitsValue(b[..m])))
  }

  lemma GoalEndNodeOf(start: nat, end: nat)
    ensures GoalEndNode(start, Show(end) + GoalTail) == Some(NodePair(start, end))
  {
    var e := Show(end);
    assert GoalTail[0] == ',';
    SpanWhileConcat(e, GoalTail, IsDigit);
    SplitConcat(e, GoalTail);
    ShowRoundTrip(end);
  }

  lemma GoalStartNodeOf(start: nat, end: nat, rest: string)
    requires rest == Show(end) + GoalTail
    ensures GoalStartNode(Show(start) + (", " + rest)) == Some(NodePair(start, end))
  {
    var s := Show(start);
    SpanWhileConcat(s, ", " + rest, IsDigit);
    SplitConcat(s, ", " + rest);
    SplitConcat(", ", rest);
    ShowRoundTrip(start);
    GoalEndNodeOf(start, end);
  }

  /** The goal text for two nodes reads back as those nodes. */
  lemma GoalNodesOfGoal(start: nat, end: nat)
    ensures GoalNodes(GoalHead + (Show(start) + (", " + (Show(end) + GoalTail)))) == Some(NodePair(start, end))
  {
    var rest := Show(end) + GoalTail;
    SplitConcat(GoalHead, Show(start) + (", " + rest));
    GoalStartNodeOf(start, end, rest);
  }

  /** Different node pairs give different goals. */
  lemma PrologGoalInjective(start: nat, end: nat, start': nat, end': nat)
    requires PrologGoal(start, end) == PrologGoal(start', end')
    ensures start == start' && end == end'
  {
  }

  /** The goal for the documented example, `astar(1, 5` followed by the fixed tail. */
  lemma PrologGoalExample()
    ensures PrologGoal(1, 5) == "astar(1, 5" + GoalTail
  {
    GoalTextOneFive();
  }

  lemma GoalTextOneFive()
    ensures GoalHead + (Show(1) + (", " + (Show(5) + GoalTail))) == "astar(1, 5" + GoalTail
  {
    assert Show(1) == "1" && Show(5) == "5";
    assert GoalHead + ("1" + (", " + "5")) == "astar(1, 5";
  }

  /** `__swipl_command`: run quietly (`-q`), load the program (`-s`), run the goal (`-g`). */
  function SwiplCommand(cfg: AdapterConfig, goal: string): (command: seq<string>)
    ensures |command| == 6 && command[0] == cfg.prologPath && command[3] == cfg.prologFile
    ensures command[1] == "-q" && command[2] == "-s" && command[4] == "-g"
    ensures command[5] == goal
  {
    [cfg.prologPath, "-q", "-s", cfg.prologFile, "-g", goal]
  }

  /** The command `find_path` runs for two nodes. */
  function PathCommand(cfg: AdapterConfig, start: nat, end: nat): seq<string> {
    SwiplCommand(cfg, PrologGoal(start, end))
  }

  /** The command carries the configuration and the two nodes, recoverably. */
  lemma PathCommandCarriesNodes(cfg: AdapterConfig, start: nat, end: nat)
    ensures var command := PathCommand(cfg, start, end);
      command[0] == cfg.prologPath && command[3] == cfg.prologFile &&
      GoalNodes(command[5]) == Some(NodePair(start, end))
  {
  }

  // ---------------------------------------------------------------------
  // The solver's output
  // ---------------------------------------------------------------------

  /** The path line and the cost line of the solver's output. */
  datatype OutputLines = OutputLines(pathText: string, costText: string)

  /**
   * `__extract_prolog_output`: the first two lines of the output, when
   * there are at least two; later lines are ignored.
   */
  function ExtractPrologOutput(output: string): (r: Option<OutputLines>)
    ensures r.Some? <==> '\n' in output
    ensures r.Some? ==>
      var p, c := r.value.pathText, r.value.costText;
      '\n' !in p && '\n' !in c && StartsWith(output, p + "\n" + c) &&
      (|p| + 1 + |c| == |output| || output[|p| + 1 + |c|] == '\n')
  {
    var lines := Split(output, '\n');
    SplitMany(output, '\n');
    if |lines| >= 2 then
      SplitFirstTwo(output, '\n');
      Some(OutputLines(lines[0], lines[1]))
    else None
  }

  /** Two lines, and whatever further lines follow them, are extracted as those two lines. */
  lemma ExtractTwoLines(path: string, cost: string, rest: string)
    requires '\n' !in path && '\n' !in cost
    requires rest == [] || rest[0] == '\n'
    ensures ExtractPrologOutput(path + "\n" + cost + rest) == Some(OutputLines(path, cost))
  {
    assert path + "\n" + cost + rest == path + ['\n'] + (cost + rest);
    SplitAfterPiece(path, cost + rest, '\n');
    if rest == [] {
      assert cost + rest == cost;
      SplitWithout(cost, '\n');
    } else {
      assert cost + rest == cost + ['\n'] + rest[1..];
      SplitAfterPiece(cost, rest[1..], '\n');
    }
  }

  // ---------------------------------------------------------------------
  // The path line
  // ---------------------------------------------------------------------

  /** The comprehension of `__parse_prolog_list`: keep `int(t.strip())` for every token that `isdigit`. */
  function KeepNumbers(tokens: seq<string>): (r: seq<nat>)
    ensures |r| <= |tokens|
  {
    if tokens == [] then []
    else
      var t := Strip(tokens[0]);
      var rest := KeepNumbers(tokens[1..]);
      if IsNumeral(t) then [DigitsValue(t)] + rest else rest
  }

  /** Every token is kept exactly when each is a digit string; none is kept exactly when none is. */
  lemma {:induction false} KeepNumbersCounts(tokens: seq<string>)
    ensures |KeepNumbers(tokens)| == |tokens| <==> forall j :: 0 <= j < |tokens| ==> IsNumeral(Strip(tokens[j]))
    ensures KeepNumbers(tokens) == [] <==> forall j :: 0 <= j < |tokens| ==> !IsNumeral(Strip(tokens[j]))
  {
    if tokens != [] {
      KeepNumbersCounts(tokens[1..]);
      assert forall j :: 1 <= j < |tokens| ==> tokens[j] == tokens[1..][j - 1];
    }
  }

  /** `__parse_prolog_list` (and `parse_prolog_list`): strip the brackets, split on commas, keep the numbers. */
  function ParsePrologList(text: string): (r: seq<nat>)
    ensures (r == []) <==> (forall t :: t in Split(StripBrackets(text), ',') ==> !IsNumeral(Strip(t)))
  {
    KeepNumbersCounts(Split(StripBrackets(text), ','));
    KeepNumbers(Split(StripBrackets(text), ','))
  }

  /** Numbers are kept in token order. */
  lemma {:induction false} KeepNumbersAppend(xs: seq<string>, ys: seq<string>)
    ensures KeepNumbers(xs + ys) == KeepNumbers(xs) + KeepNumbers(ys)
  {
    if xs != [] {
      assert (xs + ys)[0] == xs[0];
      assert (xs + ys)[1..] == xs[1..] + ys;
      KeepNumbersAppend(xs[1..], ys);
    } else {
      assert xs + ys == ys;
    }
  }

  /** The decimal numerals of a list of numbers. */
  function Shows(xs: seq<nat>): (r: seq<string>)
    ensures |r| == |xs|
    ensures forall i :: 0 <= i < |r| ==> r[i] == Show(xs[i])
  {
    if xs == [] then [] else [Show(xs[0])] + Shows(xs[1..])
  }

  /** How Prolog's `write` prints a list of node ids: `[1,2,3]`. */
  function RenderList(xs: seq<nat>): string {
    "[" + Join(Shows(xs), ",") + "]"
  }

  /** A rendered list holds only digits and commas between its brackets. */
  lemma {:induction false} JoinShowsChars(xs: seq<nat>)
    ensures forall c :: c in Join(Shows(xs), ",") ==> IsDigit(c) || c == ','
  {
    if |xs| == 1 {
      assert Join(Shows(xs), ",") == Show(xs[0]);
    } else if |xs| > 1 {
      JoinShowsChars(xs[1..]);
      assert Shows(xs)[1..] == Shows(xs[1..]);
      assert Join(Shows(xs), ",") == Show(xs[0]) + "," + Join(Shows(xs[1..]), ",");
    }
  }

  /** Each numeral is kept with its value. */
  lemma {:induction false} KeepNumbersShows(xs: seq<nat>)
    ensures KeepNumbers(Shows(xs)) == xs
  {
    if xs != [] {
      var t := Show(xs[0]);
      StripUnchanged(t);
      ShowRoundTrip(xs[0]);
      assert Shows(xs)[1..] == Shows(xs[1..]);
      KeepNumbersShows(xs[1..]);
    }
  }

  /** Reading back a rendered list gives the list. */
  lemma ParsePrologListRender(xs: seq<nat>)
    ensures ParsePrologList(RenderList(xs)) == xs
  {
    var body := Join(Shows(xs), ",");
    JoinShowsChars(xs);
    if body != [] {
      assert body[0] in body && body[|body| - 1] in body;
    }
    assert "[" + body + "]" == "[" + (body + "]");
    TrimExact("[", body, "]", IsBracket);
    if xs == [] {
      assert body == [];
      StripBlank([]);
    } else {
      SplitJoin(Shows(xs), ',');
      KeepNumbersShows(xs);
    }
  }

  /** The documented example: `'[1,2,3]'` reads as `[1, 2, 3]`. */
  lemma ParsePrologListExample()
    ensures ParsePrologList("[1,2,3]") == [1, 2, 3]
  {
    ParsePrologListRender([1, 2, 3]);
    RenderOneTwoThree();
  }

  /** Prolog prints the list of 1, 2 and 3 as `[1,2,3]`. */
  lemma RenderOneTwoThree()
    ensures RenderList([1, 2, 3]) == "[1,2,3]"
  {
    assert Show(1) == "1" && Show(2) == "2" && Show(3) == "3";
    assert Shows([1, 2, 3]) == ["1", "2", "3"];
    assert Join(["1", "2", "3"], ",") == "1,2,3";
  }

  // ---------------------------------------------------------------------
  // Running the solver
  // ---------------------------------------------------------------------

  /** What the solver process did. */
  datatype SolverRun =
    | Completed(returnCode: int, stdout: string, stderr: string)
    | ExecutableNotFound  // `subprocess.run` raised FileNotFoundError

  /** How `find_path` ends. */
  datatype PathResult =
    | PathFound(path: seq<nat>, costText: string)  // both values returned together
    | NoPathFound                                  // `(None, None)` returned
    | QueryFailed(stderr: string)                  // error reported, `sys.exit(1)`
    | SolverMissing(executable: string)            // executable reported missing, `sys.exit(1)`

  /** `find_path`: run the goal and read the result off the solver's output. */
  function FindPath(cfg: AdapterConfig, start: nat, end: nat, run: seq<string> -> SolverRun): (r: PathResult)
    ensures var outcome := run(PathCommand(cfg, start, end));
      && (r.SolverMissing? <==> outcome.ExecutableNotFound?)
      && (r.SolverMissing? ==> r.executable == cfg.prologPath)
      && (r.QueryFailed? <==> outcome.Completed? && outcome.returnCode != 0)
      && (r.QueryFailed? ==> r.stderr == outcome.stderr)
      && (r.NoPathFound? <==> outcome.Completed? && outcome.returnCode == 0 && '\n' !in Strip(outcome.stdout))
      && (r.PathFound? ==>
            var lines := ExtractPrologOutput(Strip(outcome.stdout));
            lines.Some? && r.path == ParsePrologList(lines.value.pathText) && r.costText == lines.value.costText)
  {
    match run(PathCommand(cfg, start, end))
    case ExecutableNotFound => SolverMissing(cfg.prologPath)
    case Completed(returnCode, stdout, stderr) =>
      if returnCode != 0 then QueryFailed(stderr)
      else
        match ExtractPrologOutput(Strip(stdout))
        case Some(lines) => PathFound(ParsePrologList(lines.pathText), lines.costText)
        case None => NoPathFound
  }

  /** Empty or whitespace-only output from a successful run means no path. */
  lemma BlankOutputMeansNoPath(cfg: AdapterConfig, start: nat, end: nat, run: seq<string> -> SolverRun)
    requires var outcome := run(PathCommand(cfg, start, end));
      outcome.Completed? && outcome.returnCode == 0 &&
      forall i :: 0 <= i < |outcome.stdout| ==> IsSpace(outcome.stdout[i])
    ensures FindPath(cfg, start, end, run) == NoPathFound
  {
    StripBlank(run(PathCommand(cfg, start, end)).stdout);
  }

  /** Whatever whitespace follows the cost line is stripped away. */
  lemma StripPrinted(path: seq<nat>, cost: string, trail: string)
    requires cost != [] && !IsSpace(cost[|cost| - 1])
    requires forall i :: 0 <= i < |trail| ==> IsSpace(trail[i])
    ensures Strip(RenderList(path) + "\n" + cost + trail) == RenderList(path) + "\n" + cost
  {
    var printed := RenderList(path) + "\n" + cost;
    assert printed + trail == [] + (printed + trail);
    assert printed[0] == '[' && printed[|printed| - 1] == cost[|cost| - 1];
    TrimExact([], printed, trail, IsSpace);
  }

  /**
   * When a successful solver run prints a path and a cost on two lines,
   * with or without whitespace after the cost, `find_path` returns that
   * path and that cost; what the solver wrote to its error stream does
   * not matter.
   */
  lemma FindPathReadsSolverAnswer(cfg: AdapterConfig, start: nat, end: nat, run: seq<string> -> SolverRun,
                                  path: seq<nat>, cost: string, trail: string)
    requires cost != [] && '\n' !in cost && !IsSpace(cost[|cost| - 1])
    requires forall i :: 0 <= i < |trail| ==> IsSpace(trail[i])
    requires var outcome := run(PathCommand(cfg, start, end));
      outcome.Completed? && outcome.returnCode == 0 && outcome.stdout == RenderList(path) + "\n" + cost + trail
    ensures FindPath(cfg, start, end, run) == PathFound(path, cost)
  {
    var rendered := RenderList(path);
    StripPrinted(path, cost, trail);
    assert '\n' !in rendered by {
      JoinShowsChars(path);
    }
    ExtractTwoLines(rendered, cost, []);
    assert rendered + "\n" + cost + [] == rendered + "\n" + cost;
    ParsePrologListRender(path);
  }
}
