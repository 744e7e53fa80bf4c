/**
 * The command-line tool's `main` (find_path.py): load the street facts,
 * read two street names, let the user settle on one street and one node
 * for each end, then ask the solver for a path.
 *
 * The city file's lines and everything the user types are inputs.  The
 * fuzzy name matcher (`find_best_match`) and the solver process are
 * parameters.
 */
module FindPathCli {
  import opened Wrappers
  import opened StreetData
  import opened Selection
  import opened PrologAdapter

  /** How a run of the tool ends. */
  datatype CliResult =
    | InputEnded                       // `input()` met the end of input (EOFError)
    | NoSimilarStreet(input: string)   // no street name resembles the input; `sys.exit(1)`
    | NoNodeOptions                    // a chosen street has no node pair (IndexError)
    | Solved(startStreet: string, endStreet: string, startNode: nat, endNode: nat, result: PathResult)

  /** The node is an end of one of the pairs of the named street. */
  predicate NodeOfStreet(node: nat, street: string, records: seq<EdgeRecord>) {
    exists p :: p in NodeOptions(street, records) && (node == p.node1 || node == p.node2)
  }

  /** `get_node_options` followed by `select_node_pair`, for one end of the path. */
  method PickNode(street: string, records: seq<EdgeRecord>, answers: seq<Option<int>>) returns (c: Choice<nat>)
    ensures c == NodePairChoice(NodeOptions(street, records), answers)
    ensures c.Chosen? ==> NodeOfStreet(c.value, street, records) && c.read <= |answers|
    ensures c.NoOptions? <==> NodeOptions(street, records) == []
    ensures c.NoOptions? ==> forall k :: 0 <= k < |records| ==> records[k].name != street
  {
    var options := NodeOptions(street, records);
    c := SelectNodePair(options, answers);
    if c.Chosen? {
      var k :| 0 <= k < |options| && (c.value == options[k].node1 || c.value == options[k].node2);
      assert options[k] in options;
    }
  }

  /**
   * `main`.  `typed` holds the lines the user enters, in order: the two
   * street names, then the answers to the prompts.
   */
  method RunCli(cityLines: seq<string>, typed: seq<string>,
                matcher: (string, seq<EdgeRecord>) -> seq<string>,
                run: seq<string> -> SolverRun)
    returns (r: CliResult)
    ensures |typed| < 2 ==> r == InputEnded
    ensures |typed| >= 2 && matcher(typed[0], StreetNodes(cityLines)) == [] ==> r == NoSimilarStreet(typed[0])
    ensures |typed| >= 2 && matcher(typed[0], StreetNodes(cityLines)) != [] && matcher(typed[1], StreetNodes(cityLines)) == [] ==>
      r == NoSimilarStreet(typed[1])
    ensures r.NoSimilarStreet? ==>
      |typed| >= 2 && (r.input == typed[0] || r.input == typed[1]) &&
      matcher(r.input, StreetNodes(cityLines)) == []
    ensures r.NoNodeOptions? ==>
      var records := StreetNodes(cityLines);
      |typed| >= 2 &&
      exists street :: (street in matcher(typed[0], records) || street in matcher(typed[1], records)) &&
        forall k :: 0 <= k < |records| ==> records[k].name != street
    ensures r.Solved? ==>
      var records := StreetNodes(cityLines);
      && |typed| >= 2
      && r.startStreet in matcher(typed[0], records)
      && r.endStreet in matcher(typed[1], records)
      && NodeOfStreet(r.startNode, r.startStreet, records)
      && NodeOfStreet(r.endNode, r.endStreet, records)
      && r.result == FindPath(ScriptConfig, r.startNode, r.endNode, run)
    ensures r.Solved? ==>
      && |typed| >= 2
      && var records := StreetNodes(cityLines);
         var answers := Parsed(typed[2..]);
         var startStreet := StreetChoice(matcher(typed[0], records), answers);
         && startStreet.Chosen? && startStreet.value == r.startStreet
         && var afterStart := answers[startStreet.read..];
            var endStreet := StreetChoice(matcher(typed[1], records), afterStart);
            && endStreet.Chosen? && endStreet.value == r.endStreet
            && var afterEnd := afterStart[endStreet.read..];
               var startNode := NodePairChoice(NodeOptions(r.startStreet, records), afterEnd);
               && startNode.Chosen? && startNode.value == r.startNode
               && var endNode := NodePairChoice(NodeOptions(r.endStreet, records), afterEnd[startNode.read..]);
                  endNode.Chosen? && endNode.value == r.endNode
    ensures r.InputEnded? ==>
      || |typed| < 2
      || var records := StreetNodes(cityLines);
         var answers := Parsed(typed[2..]);
         var startStreet := StreetChoice(matcher(typed[0], records), answers);
         || startStreet.EndOfInput?
         || (startStreet.Chosen? &&
             var afterStart := answers[startStreet.read..];
             var endStreet := StreetChoice(matcher(typed[1], records), afterStart);
             || endStreet.EndOfInput?
             || (endStreet.Chosen? &&
                 var afterEnd := afterStart[endStreet.read..];
                 var startNode := NodePairChoice(NodeOptions(startStreet.value, records), afterEnd);
                 || startNode.EndOfInput?
                 || (startNode.Chosen? &&
                     NodePairChoice(NodeOptions(endStreet.value, records), afterEnd[startNode.read..]).EndOfInput?)))
    ensures MatcherSound(matcher) ==> !r.NoNodeOptions?
  {
    var records := GetStreetNodes(cityLines);
    if |typed| < 2 {
      return InputEnded;
    }
    var startInput, endInput := typed[0], typed[1];
    var startMatches := matcher(startInput, records);
    var endMatches := matcher(endInput, records);
    if startMatches == [] {
      return NoSimilarStreet(startInput);
    }
    if endMatches == [] {
      return NoSimilarStreet(endInput);
    }

    var answers := Parsed(typed[2..]);
    var startStreet := SelectStreet(startMatches, answers);
    if !startStreet.Chosen? {
      return InputEnded;
    }
    answers := answers[startStreet.read..];
    var endStreet := SelectStreet(endMatches, answers);
    if !endStreet.Chosen? {
      return InputEnded;
    }
    answers := answers[endStreet.read..];

    var startNode := PickNode(startStreet.value, records, answers);
    if startNode.NoOptions? {
      MatchedNameHasOptions(matcher, startInput, records, startStreet.value);
      return NoNodeOptions;
    } else if startNode.EndOfInput? {
      return InputEnded;
    }
    answers := answers[startNode.read..];
    var endNode := PickNode(endStreet.value, records, answers);
    if endNode.NoOptions? {
      MatchedNameHasOptions(matcher, endInput, records, endStreet.value);
      return NoNodeOptions;
    } else if endNode.EndOfInput? {
      return InputEnded;
    }

    var result := FindPath(ScriptConfig, startNode.value, endNode.value, run);
    return Solved(startStreet.value, endStreet.value, startNode.value, endNode.value, result);
  }
}
