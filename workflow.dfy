/**
 * The step-by-step web page (exemple_streamlit.py).  Streamlit runs the
 * whole script again after every interaction; everything that survives
 * from one run to the next lives in the session dictionary, whose
 * `step` entry says which of five screens is shown.  One run of the
 * script is a pass: `Pass` maps the session before it to the session
 * after it and says how the run ended.
 *
 * The widgets are inputs to a pass: whether Reset was clicked, whether
 * the form was submitted with which two texts, and, for each select
 * box, the position of the entry the user has selected.  The data files,
 * the name matcher (`find_best_match`) and the solver process are
 * parameters as well.
 */
module Workflow {
  import opened Wrappers
  import opened Text
  import opened StreetData
  import opened PrologAdapter

  // ---------------------------------------------------------------------
  // The session dictionary
  // ---------------------------------------------------------------------

  /** The keys the page stores; each is either present with a value or absent. */
  datatype SessionState = SessionState(
    nodeCoordMapping: Option<map<nat, Coordinate>>,
    step: Option<int>,
    streetNodes: Option<seq<EdgeRecord>>,
    startStreetInput: Option<string>,
    endStreetInput: Option<string>,
    startStreet: Option<string>,
    endStreet: Option<string>,
    startNodePair: Option<NodePair>,
    endNodePair: Option<NodePair>,
    startNode: Option<nat>,
    endNode: Option<nat>)

  /** The session of a new visitor, and the session after Reset. */
  const EmptySession := SessionState(None, None, None, None, None, None, None, None, None, None, None)

  /** The files the page reads: the coordinate table and the city's Prolog facts. */
  datatype DataFiles = DataFiles(coordinates: map<nat, Coordinate>, cityLines: seq<string>)

  /** What the widgets report during one pass. */
  datatype Widgets = Widgets(
    resetClicked: bool,
    submitted: bool,
    startText: string,
    endText: string,
    startStreetPick: nat,
    endStreetPick: nat,
    startPairPick: nat,
    endPairPick: nat,
    startNodePick: nat,
    endNodePick: nat)

  /** How a pass ends. */
  datatype Outcome =
    | Rerun                                 // `st.rerun()`: the script starts again at once
    | Stopped                               // `st.stop()` after an error message
    | Waiting                               // the script ran to its end and waits for the user
    | Crashed                               // an uncaught Python exception
    | Exited                                // `sys.exit` inside the solver adapter
    | ShowedPath(path: seq<nat>, costText: string)

  datatype PassResult = PassResult(state: SessionState, outcome: Outcome)

  // ---------------------------------------------------------------------
  // Select boxes
  // ---------------------------------------------------------------------

  /**
   * `st.selectbox`: the entry at the user's position; the first entry,
   * which the box shows by default, when there is no such position.
   */
  function Pick<T>(options: seq<T>, position: nat): (r: T)
    requires |options| > 0
    ensures r in options
    ensures position < |options| ==> r == options[position]
  {
    if position < |options| then options[position] else options[0]
  }

  /** The entry shown for a node pair: `Node n1 <--> Node n2`. */
  function PairLabel(p: NodePair): string {
    "Node " + (Show(p.node1) + (" <--> Node " + Show(p.node2)))
  }

  function PairLabels(options: seq<NodePair>): (r: seq<string>)
    ensures |r| == |options|
    ensures forall i :: 0 <= i < |r| ==> r[i] == PairLabel(options[i])
  {
    if options == [] then [] else [PairLabel(options[0])] + PairLabels(options[1..])
  }

  /** Python's `list.index`: the first position holding `x`. */
  function IndexOf<T(==)>(xs: seq<T>, x: T): (i: nat)
    requires x in xs
    ensures i < |xs| && xs[i] == x
    ensures forall j :: 0 <= j < i ==> xs[j] != x
  {
    if xs[0] == x then 0 else 1 + IndexOf(xs[1..], x)
  }

  /** A numeral followed by a non-digit is recognised as the same numeral. */
  lemma NumeralPrefixUnique(m: nat, x: string, n: nat, y: string)
    requires x == [] || !IsDigit(x[0])
    requires y == [] || !IsDigit(y[0])
    requires Show(m) + x == Show(n) + y
    ensures m == n && x == y
  {
    SpanWhileConcat(Show(m), x, IsDigit);
    SpanWhileConcat(Show(n), y, IsDigit);
    assert Show(m) == (Show(m) + x)[..|Show(m)|];
    assert Show(n) == (Show(n) + y)[..|Show(n)|];
    ShowInjective(m, n);
    assert x == (Show(m) + x)[|Show(m)|..];
    assert y == (Show(n) + y)[|Show(n)|..];
  }

  /** Different node pairs are shown differently. */
  lemma PairLabelInjective(p: NodePair, q: NodePair)
    requires PairLabel(p) == PairLabel(q)
    ensures p == q
  {
    var x := " <--> Node " + Show(p.node2);
    var y := " <--> Node " + Show(q.node2);
    assert PairLabel(p)[5..] == Show(p.node1) + x;
    assert PairLabel(q)[5..] == Show(q.node1) + y;
    NumeralPrefixUnique(p.node1, x, q.node1, y);
    assert x[11..] == Show(p.node2) && y[11..] == Show(q.node2);
    ShowInjective(p.node2, q.node2);
  }

  /**
   * Step 3's choice of a pair: the sole option, or the option whose label
   * is the first one equal to the selected label.  Labels tell pairs
   * apart, so the lookup finds the selected pair itself.
   */
  function ChoosePair(options: seq<NodePair>, position: nat): (r: NodePair)
    requires |options| > 0
    ensures r == Pick(options, position)
  {
    if |options| == 1 then options[0]
    else
      var labels := PairLabels(options);
      var i := IndexOf(labels, Pick(labels, position));
      var k := if position < |options| then position else 0;
      assert labels[i] == labels[k];
      PairLabelInjective(options[i], options[k]);
      options[i]
  }

  /** Step 2's choice of a street: the sole match, or the selected one. */
  function ChooseStreet(matches: seq<string>, position: nat): (r: string)
    requires |matches| > 0
    ensures r in matches
    ensures |matches| == 1 ==> r == matches[0]
    ensures position < |matches| ==> r == matches[position]
  {
    if |matches| == 1 then matches[0] else Pick(matches, position)
  }



  // ---------------------------------------------------------------------
  // The steps
  // ---------------------------------------------------------------------

  /** `step1`: on submission, store both texts and move to step 2; otherwise wait. */
  function Step1(s: SessionState, w: Widgets): (r: PassResult)
    ensures r.outcome == Rerun <==> w.submitted
    ensures !w.submitted ==> r == PassResult(s, Waiting)
    ensures w.submitted ==>
      && r.state.startStreetInput == Some(w.startText) && r.state.endStreetInput == Some(w.endText)
      && r.state.step == Some(2)
      && r.state.(startStreetInput := s.startStreetInput, endStreetInput := s.endStreetInput, step := s.step) == s
  {
    if w.submitted then
      PassResult(s.(startStreetInput := Some(w.startText), endStreetInput := Some(w.endText), step := Some(2)), Rerun)
    else PassResult(s, Waiting)
  }

  /**
   * `step2`: match both texts against the street names and settle on one
   * street each.  A missing entry raises KeyError; a text without matches
   * stops the page.
   */
  function Step2(s: SessionState, w: Widgets, matcher: (string, seq<EdgeRecord>) -> seq<string>): (r: PassResult)
    ensures r.outcome == Rerun || r.outcome == Stopped || r.outcome == Crashed
    ensures r.outcome != Rerun ==> r.state == s
    ensures r.outcome == Crashed <==> s.startStreetInput.None? || s.endStreetInput.None? || s.streetNodes.None?
    ensures r.outcome == Stopped <==>
      && s.startStreetInput.Some? && s.endStreetInput.Some? && s.streetNodes.Some?
      && (matcher(s.startStreetInput.value, s.streetNodes.value) == [] ||
          matcher(s.endStreetInput.value, s.streetNodes.value) == [])
    ensures r.outcome == Rerun ==>
      && s.startStreetInput.Some? && s.endStreetInput.Some? && s.streetNodes.Some?
      && r.state.startStreet.Some? && r.state.endStreet.Some?
      && r.state.startStreet.value in matcher(s.startStreetInput.value, s.streetNodes.value)
      && r.state.endStreet.value in matcher(s.endStreetInput.value, s.streetNodes.value)
      && r.state == s.(startStreet := r.state.startStreet, endStreet := r.state.endStreet, step := Some(3))
  {
    if s.startStreetInput.None? || s.endStreetInput.None? || s.streetNodes.None? then PassResult(s, Crashed)
    else
      var startMatches := matcher(s.startStreetInput.value, s.streetNodes.value);
      var endMatches := matcher(s.endStreetInput.value, s.streetNodes.value);
      if startMatches == [] || endMatches == [] then PassResult(s, Stopped)
      else
        var startStreet := ChooseStreet(startMatches, w.startStreetPick);
        var endStreet := ChooseStreet(endMatches, w.endStreetPick);
        PassResult(s.(startStreet := Some(startStreet), endStreet := Some(endStreet), step := Some(3)), Rerun)
  }

  /**
   * `step3`: settle on one node pair for each street.  A street without
   * any pair leaves its select box empty, and looking its (absent)
   * selection up in the label list raises ValueError; the start street's
   * pair is stored before the end street is looked at.
   */
  function Step3(s: SessionState, w: Widgets): (r: PassResult)
    ensures r.outcome == Rerun || r.outcome == Crashed
    ensures r.outcome == Crashed <==>
      || s.streetNodes.None? || s.startStreet.None? || s.endStreet.None?
      || NodeOptions(s.startStreet.value, s.streetNodes.value) == []
      || NodeOptions(s.endStreet.value, s.streetNodes.value) == []
    ensures r.outcome == Crashed ==> r.state.(startNodePair := s.startNodePair) == s
    ensures r.outcome == Rerun ==>
      && s.streetNodes.Some? && s.startStreet.Some? && s.endStreet.Some?
      && r.state.startNodePair.Some? && r.state.endNodePair.Some?
      && r.state.startNodePair.value in NodeOptions(s.startStreet.value, s.streetNodes.value)
      && r.state.endNodePair.value in NodeOptions(s.endStreet.value, s.streetNodes.value)
      && r.state == s.(startNodePair := r.state.startNodePair, endNodePair := r.state.endNodePair, step := Some(4))
  {
    if s.streetNodes.None? || s.startStreet.None? || s.endStreet.None? then PassResult(s, Crashed)
    else
      var startOptions := NodeOptions(s.startStreet.value, s.streetNodes.value);
      var endOptions := NodeOptions(s.endStreet.value, s.streetNodes.value);
      if startOptions == [] then PassResult(s, Crashed)
      else
        var s' := s.(startNodePair := Some(ChoosePair(startOptions, w.startPairPick)));
        if endOptions == [] then PassResult(s', Crashed)
        else PassResult(s'.(endNodePair := Some(ChoosePair(endOptions, w.endPairPick)), step := Some(4)), Rerun)
  }

  /** `step4`: settle on one node of each pair; a missing pair raises KeyError. */
  function Step4(s: SessionState, w: Widgets): (r: PassResult)
    ensures r.outcome == Rerun <==> s.startNodePair.Some? && s.endNodePair.Some?
    ensures r.outcome != Rerun ==> r == PassResult(s, Crashed)
    ensures r.outcome == Rerun ==>
      && s.startNodePair.Some? && s.endNodePair.Some?
      && r.state.startNode.Some? && r.state.endNode.Some?
      && (r.state.startNode.value == s.startNodePair.value.node1 || r.state.startNode.value == s.startNodePair.value.node2)
      && (r.state.endNode.value == s.endNodePair.value.node1 || r.state.endNode.value == s.endNodePair.value.node2)
      && r.state == s.(startNode := r.state.startNode, endNode := r.state.endNode, step := Some(5))
  {
    if s.startNodePair.None? || s.endNodePair.None? then PassResult(s, Crashed)
    else
      var p, q := s.startNodePair.value, s.endNodePair.value;
      var startNode := Pick([p.node1, p.node2], w.startNodePick);
      var endNode := Pick([q.node1, q.node2], w.endNodePick);
      PassResult(s.(startNode := Some(startNode), endNode := Some(endNode), step := Some(5)), Rerun)
  }

  /** The path can be placed on the map: it has a node, and each node has coordinates. */
  predicate Drawable(path: seq<nat>, coords: map<nat, Coordinate>) {
    |path| > 0 && forall k :: 0 <= k < |path| ==> path[k] in coords
  }

  /** The entries `step5` reads are all present. */
  predicate ReadyToSolve(s: SessionState) {
    && s.startNode.Some? && s.endNode.Some? && s.startStreet.Some? && s.endStreet.Some?
    && s.nodeCoordMapping.Some? && s.streetNodes.Some?
  }

  /**
   * `step5`: ask the solver through the adapter with its default
   * configuration.  Without a path the adapter returns `None` for it and
   * the page's iteration over it fails; on a solver error the adapter
   * exits.  A path is drawn on the map only when it has a node and every
   * node has coordinates: the lookup of a node without them and the mean
   * over no coordinates both raise.
   */
  function Step5(s: SessionState, run: seq<string> -> SolverRun): (r: PassResult)
    ensures r.state == s
    ensures !ReadyToSolve(s) ==> r.outcome == Crashed
    ensures ReadyToSolve(s) ==>
      var found := FindPath(DefaultConfig, s.startNode.value, s.endNode.value, run);
      && (r.outcome.ShowedPath? <==> found.PathFound? && Drawable(found.path, s.nodeCoordMapping.value))
      && (r.outcome.ShowedPath? ==> r.outcome.path == found.path && r.outcome.costText == found.costText)
      && (r.outcome == Exited <==> found.QueryFailed? || found.SolverMissing?)
      && (r.outcome == Crashed <==>
            found.NoPathFound? || (found.PathFound? && !Drawable(found.path, s.nodeCoordMapping.value)))
  {
    if !ReadyToSolve(s) then PassResult(s, Crashed)
    else
      match FindPath(DefaultConfig, s.startNode.value, s.endNode.value, run)
      case PathFound(path, cost) =>
        if Drawable(path, s.nodeCoordMapping.value) then PassResult(s, ShowedPath(path, cost))
        else PassResult(s, Crashed)
      case NoPathFound => PassResult(s, Crashed)
      case _ => PassResult(s, Exited)
  }

  /** A pass at step `k` either reruns at step k+1 (k in 1..4) or ends at step `k`. */
  predicate Moves(k: int, r: PassResult) {
    || (r.outcome == Rerun && 1 <= k <= 4 && r.state.step == Some(k + 1))
    || (r.outcome != Rerun && r.state.step == Some(k))
  }

  /** The dispatch on `step`: exactly one step runs, or none for any other value. */
  function RunStep(s: SessionState, w: Widgets, matcher: (string, seq<EdgeRecord>) -> seq<string>,
                   run: seq<string> -> SolverRun): (r: PassResult)
    requires s.step.Some?
    ensures Moves(s.step.value, r)
    ensures !(1 <= s.step.value <= 5) ==> r == PassResult(s, Waiting)
  {
    match s.step.value
    case 1 => Step1(s, w)
    case 2 => Step2(s, w, matcher)
    case 3 => Step3(s, w)
    case 4 => Step4(s, w)
    case 5 => Step5(s, run)
    case _ => PassResult(s, Waiting)
  }

  /** The session once the entries `main` fills in when absent are loaded. */
  function LoadDefaults(s: SessionState, files: DataFiles): (r: SessionState)
    ensures r.nodeCoordMapping == if s.nodeCoordMapping.Some? then s.nodeCoordMapping else Some(files.coordinates)
    ensures r.step == if s.step.Some? then s.step else Some(1)
    ensures r.(nodeCoordMapping := s.nodeCoordMapping, step := s.step) == s
  {
    var s1 := if s.nodeCoordMapping.None? then s.(nodeCoordMapping := Some(files.coordinates)) else s;
    if s1.step.None? then s1.(step := Some(1)) else s1
  }

  /** The street records are read from the city file only when the session has none. */
  function LoadStreetNodes(s: SessionState, files: DataFiles): (r: SessionState)
    ensures r.streetNodes == if s.streetNodes.Some? then s.streetNodes else Some(StreetNodes(files.cityLines))
    ensures r.(streetNodes := s.streetNodes) == s
  {
    if s.streetNodes.None? then s.(streetNodes := Some(StreetNodes(files.cityLines))) else s
  }

  /** Loading again changes nothing: entries already present are kept as they are. */
  lemma LoadingIsIdempotent(s: SessionState, files: DataFiles, files': DataFiles)
    ensures var loaded := LoadStreetNodes(LoadDefaults(s, files), files);
      LoadStreetNodes(LoadDefaults(loaded, files'), files') == loaded
  {
  }

  /**
   * One run of `main`: Reset empties the session and reruns the page;
   * otherwise the coordinates and the street records are present
   * afterwards, and the step either advances by one with a rerun or stays.
   */
  function Pass(s: SessionState, files: DataFiles, w: Widgets,
                matcher: (string, seq<EdgeRecord>) -> seq<string>, run: seq<string> -> SolverRun): (r: PassResult)
    ensures w.resetClicked ==> r == PassResult(EmptySession, Rerun)
    ensures !w.resetClicked ==>
      && r.state.nodeCoordMapping.Some? && r.state.streetNodes.Some?
      && Moves(LoadDefaults(s, files).step.value, r)
  {
    var s1 := LoadDefaults(s, files);
    if w.resetClicked then PassResult(EmptySession, Rerun)
    else RunStep(LoadStreetNodes(s1, files), w, matcher, run)
  }

  // ---------------------------------------------------------------------
  // Properties of a pass
  // ---------------------------------------------------------------------

  /**
   * The pass after a reset (or a first visit) loads both files and runs
   * step 1 on the loaded session.
   */
  lemma FreshSessionStartsAtStepOne(files: DataFiles, w: Widgets,
                                    matcher: (string, seq<EdgeRecord>) -> seq<string>, run: seq<string> -> SolverRun)
    requires !w.resetClicked
    ensures var loaded := EmptySession.(nodeCoordMapping := Some(files.coordinates), step := Some(1),
                                        streetNodes := Some(StreetNodes(files.cityLines)));
      Pass(EmptySession, files, w, matcher, run) == Step1(loaded, w)
  {
  }

  // ---------------------------------------------------------------------
  // The session invariant
  // ---------------------------------------------------------------------

  /**
   * What the entries of a session satisfy: every entry a step needs was
   * stored by an earlier step, and every choice is one the page offered.
   */
  predicate Consistent(s: SessionState, matcher: (string, seq<EdgeRecord>) -> seq<string>) {
    && (s.step.Some? ==> 1 <= s.step.value <= 5)
    && (s.step.Some? && s.step.value >= 2 ==> s.startStreetInput.Some? && s.endStreetInput.Some?)
    && (s.step.Some? && s.step.value >= 3 ==>
          && s.streetNodes.Some? && s.startStreet.Some? && s.endStreet.Some?
          && s.startStreet.value in matcher(s.startStreetInput.value, s.streetNodes.value)
          && s.endStreet.value in matcher(s.endStreetInput.value, s.streetNodes.value))
    && (s.step.Some? && s.step.value >= 4 ==>
          && s.startNodePair.Some? && s.endNodePair.Some?
          && s.startNodePair.value in NodeOptions(s.startStreet.value, s.streetNodes.value)
          && s.endNodePair.value in NodeOptions(s.endStreet.value, s.streetNodes.value))
    && (s.step.Some? && s.step.value == 5 ==>
          && s.startNode.Some? && s.endNode.Some?
          && (s.startNode.value == s.startNodePair.value.node1 || s.startNode.value == s.startNodePair.value.node2)
          && (s.endNode.value == s.endNodePair.value.node1 || s.endNode.value == s.endNodePair.value.node2))
  }

  /**
   * Every pass keeps the session consistent, and a session that reaches a
   * step has every entry that step reads.  A pass crashes only on a street
   * without node pairs (step 3) or a missing or undrawable path (step 5),
   * and exits only on a solver failure (step 5).
   */
  lemma PassKeepsConsistent(s: SessionState, files: DataFiles, w: Widgets,
                            matcher: (string, seq<EdgeRecord>) -> seq<string>, run: seq<string> -> SolverRun)
    requires Consistent(s, matcher)
    ensures var r := Pass(s, files, w, matcher, run);
      Consistent(r.state, matcher) &&
      (r.outcome == Crashed ==>
         && !w.resetClicked
         && var s' := LoadStreetNodes(LoadDefaults(s, files), files);
         || (s'.step == Some(3) &&
             (NodeOptions(s'.startStreet.value, s'.streetNodes.value) == [] ||
              NodeOptions(s'.endStreet.value, s'.streetNodes.value) == []))
         || (s'.step == Some(5) &&
             var found := FindPath(DefaultConfig, s'.startNode.value, s'.endNode.value, run);
             found.NoPathFound? || (found.PathFound? && !Drawable(found.path, s'.nodeCoordMapping.value)))) &&
      (r.outcome == Exited ==>
         && !w.resetClicked
         && var s' := LoadStreetNodes(LoadDefaults(s, files), files);
         && s'.step == Some(5)
         && var found := FindPath(DefaultConfig, s'.startNode.value, s'.endNode.value, run);
         found.QueryFailed? || found.SolverMissing?)
  {
    if !w.resetClicked {
      var s' := LoadStreetNodes(LoadDefaults(s, files), files);
      assert Consistent(s', matcher);
    }
  }

  /**
   * With a matcher that offers only names of the city's streets, every
   * street the page settles on has a node pair: a consistent session
   * crashes only at step 5.
   */
  lemma SoundMatcherCrashesOnlyAtStepFive(s: SessionState, files: DataFiles, w: Widgets,
                                          matcher: (string, seq<EdgeRecord>) -> seq<string>,
                                          run: seq<string> -> SolverRun)
    requires Consistent(s, matcher) && MatcherSound(matcher)
    ensures Pass(s, files, w, matcher, run).outcome == Crashed ==>
      LoadStreetNodes(LoadDefaults(s, files), files).step == Some(5)
  {
    PassKeepsConsistent(s, files, w, matcher, run);
    var s' := LoadStreetNodes(LoadDefaults(s, files), files);
    if !w.resetClicked && s'.step == Some(3) {
      MatchedNameHasOptions(matcher, s'.startStreetInput.value, s'.streetNodes.value, s'.startStreet.value);
      MatchedNameHasOptions(matcher, s'.endStreetInput.value, s'.streetNodes.value, s'.endStreet.value);
    }
  }

  /** The session after a sequence of passes, one per widget report. */
  function Replay(s: SessionState, files: DataFiles, passes: seq<Widgets>,
                  matcher: (string, seq<EdgeRecord>) -> seq<string>, run: seq<string> -> SolverRun): SessionState
    decreases |passes|
  {
    if passes == [] then s
    else Replay(Pass(s, files, passes[0], matcher, run).state, files, passes[1..], matcher, run)
  }

  /** A visitor's session starts empty and stays consistent through any number of passes. */
  lemma {:induction false} VisitStaysConsistent(files: DataFiles, passes: seq<Widgets>,
                                                matcher: (string, seq<EdgeRecord>) -> seq<string>,
                                                run: seq<string> -> SolverRun)
    ensures Consistent(Replay(EmptySession, files, passes, matcher, run), matcher)
  {
    ReplayKeepsConsistent(EmptySession, files, passes, matcher, run);
  }

  lemma {:induction false} ReplayKeepsConsistent(s: SessionState, files: DataFiles, passes: seq<Widgets>,
                                                 matcher: (string, seq<EdgeRecord>) -> seq<string>,
                                                 run: seq<string> -> SolverRun)
    requires Consistent(s, matcher)
    ensures Consistent(Replay(s, files, passes, matcher, run), matcher)
    decreases |passes|
  {
    if passes != [] {
      PassKeepsConsistent(s, files, passes[0], matcher, run);
      ReplayKeepsConsistent(Pass(s, files, passes[0], matcher, run).state, files, passes[1..], matcher, run);
    }
  }

  // ---------------------------------------------------------------------
  // The select boxes
  // ---------------------------------------------------------------------

  /** With the user's selections, each step stores the entry at the selected position. */
  lemma SelectionsStored(s: SessionState, w: Widgets, matcher: (string, seq<EdgeRecord>) -> seq<string>)
    ensures var r := Step2(s, w, matcher);
      r.outcome == Rerun ==>
        var startMatches := matcher(s.startStreetInput.value, s.streetNodes.value);
        var endMatches := matcher(s.endStreetInput.value, s.streetNodes.value);
        && (w.startStreetPick < |startMatches| ==> r.state.startStreet == Some(startMatches[w.startStreetPick]))
        && (w.endStreetPick < |endMatches| ==> r.state.endStreet == Some(endMatches[w.endStreetPick]))
    ensures var r := Step3(s, w);
      r.outcome == Rerun ==>
        var startOptions := NodeOptions(s.startStreet.value, s.streetNodes.value);
        var endOptions := NodeOptions(s.endStreet.value, s.streetNodes.value);
        && (w.startPairPick < |startOptions| ==> r.state.startNodePair == Some(startOptions[w.startPairPick]))
        && (w.endPairPick < |endOptions| ==> r.state.endNodePair == Some(endOptions[w.endPairPick]))
    ensures var r := Step4(s, w);
      r.outcome == Rerun ==>
        && r.state.startNode == Some(if w.startNodePick == 1 then s.startNodePair.value.node2 else s.startNodePair.value.node1)
        && r.state.endNode == Some(if w.endNodePick == 1 then s.endNodePair.value.node2 else s.endNodePair.value.node1)
  {
  }

  /**
   * The widgets as the page's code lets them report.  Steps 2, 3 and 4
   * read their select boxes in the run that first draws them and then
   * call `st.rerun()`, which moves on to the next step before the user
   * can change a selection, so every box reports its first entry.
   */
  function FirstEntries(w: Widgets): Widgets {
    w.(startStreetPick := 0, endStreetPick := 0, startPairPick := 0, endPairPick := 0,
       startNodePick := 0, endNodePick := 0)
  }

  /** One run of `main` as the page is written: every select box reports its first entry. */
  function PassAsWritten(s: SessionState, files: DataFiles, w: Widgets,
                         matcher: (string, seq<EdgeRecord>) -> seq<string>, run: seq<string> -> SolverRun): PassResult
  {
    Pass(s, files, FirstEntries(w), matcher, run)
  }

  /**
   * As written, steps 2, 3 and 4 store the first match, the first node
   * pair and the first node of each pair, whatever the user would select.
   */
  lemma FirstEntriesStored(s: SessionState, w: Widgets, matcher: (string, seq<EdgeRecord>) -> seq<string>)
    ensures var r := Step2(s, FirstEntries(w), matcher);
      r.outcome == Rerun ==>
        && r.state.startStreet == Some(matcher(s.startStreetInput.value, s.streetNodes.value)[0])
        && r.state.endStreet == Some(matcher(s.endStreetInput.value, s.streetNodes.value)[0])
    ensures var r := Step3(s, FirstEntries(w));
      r.outcome == Rerun ==>
        && r.state.startNodePair == Some(NodeOptions(s.startStreet.value, s.streetNodes.value)[0])
        && r.state.endNodePair == Some(NodeOptions(s.endStreet.value, s.streetNodes.value)[0])
    ensures var r := Step4(s, FirstEntries(w));
      r.outcome == Rerun ==>
        r.state.startNode == Some(s.startNodePair.value.node1) && r.state.endNode == Some(s.endNodePair.value.node1)
  {
    SelectionsStored(s, FirstEntries(w), matcher);
  }

  /**
   * A start text that matches two streets, and a visitor who selects the
   * second: the page as written stores the first street, while the pass
   * that takes the selection stores the second.
   */
  lemma SecondMatchIgnored(files: DataFiles, run: seq<string> -> SolverRun)
    ensures var records := [EdgeRecord("Rua A", 1, 2), EdgeRecord("Rua B", 3, 4)];
      var s := EmptySession.(step := Some(2), startStreetInput := Some("Rua"), endStreetInput := Some("Rua A"),
                             streetNodes := Some(records));
      var matcher := (q: string, rs: seq<EdgeRecord>) => ["Rua A", "Rua B"];
      var w := Widgets(false, false, "", "", 1, 0, 0, 0, 0, 0);
      && Pass(s, files, w, matcher, run).state.startStreet == Some("Rua B")
      && PassAsWritten(s, files, w, matcher, run).state.startStreet == Some("Rua A")
  {
  }
}
