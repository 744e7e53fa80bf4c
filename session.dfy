/**
 * The session dictionary of the web page as the object Streamlit keeps
 * for a visitor: each run of the script reads and overwrites its entries
 * in place.  Every method is proved to leave the object in the state the
 * pure description in `Workflow` gives.
 */
module WebSession {
  import opened Wrappers
  import opened StreetData
  import opened PrologAdapter
  import opened Workflow

  /** The names of the entries the page stores. */
  datatype Key =
    | NodeCoordMappingKey | StepKey | StreetNodesKey | StartStreetInputKey | EndStreetInputKey
    | StartStreetKey | EndStreetKey | StartNodePairKey | EndNodePairKey | StartNodeKey | EndNodeKey

  const AllKeys: seq<Key> := [NodeCoordMappingKey, StepKey, StreetNodesKey, StartStreetInputKey, EndStreetInputKey,
                              StartStreetKey, EndStreetKey, StartNodePairKey, EndNodePairKey, StartNodeKey, EndNodeKey]

  /** Whether the entry named `k` is present. */
  predicate Present(s: SessionState, k: Key) {
    match k
    case NodeCoordMappingKey => s.nodeCoordMapping.Some?
    case StepKey => s.step.Some?
    case StreetNodesKey => s.streetNodes.Some?
    case StartStreetInputKey => s.startStreetInput.Some?
    case EndStreetInputKey => s.endStreetInput.Some?
    case StartStreetKey => s.startStreet.Some?
    case EndStreetKey => s.endStreet.Some?
    case StartNodePairKey => s.startNodePair.Some?
    case EndNodePairKey => s.endNodePair.Some?
    case StartNodeKey => s.startNode.Some?
    case EndNodeKey => s.endNode.Some?
  }

  /** `del session[k]`: the session without the entry named `k`. */
  function Without(s: SessionState, k: Key): (r: SessionState)
    ensures !Present(r, k)
    ensures forall j :: j != k ==> (Present(r, j) <==> Present(s, j))
  {
    match k
    case NodeCoordMappingKey => s.(nodeCoordMapping := None)
    case StepKey => s.(step := None)
    case StreetNodesKey => s.(streetNodes := None)
    case StartStreetInputKey => s.(startStreetInput := None)
    case EndStreetInputKey => s.(endStreetInput := None)
    case StartStreetKey => s.(startStreet := None)
    case EndStreetKey => s.(endStreet := None)
    case StartNodePairKey => s.(startNodePair := None)
    case EndNodePairKey => s.(endNodePair := None)
    case StartNodeKey => s.(startNode := None)
    case EndNodeKey => s.(endNode := None)
  }

  /** `list(session.keys())`: the names of the present entries. */
  function PresentKeys(s: SessionState): (r: seq<Key>)
    ensures forall k :: k in r <==> Present(s, k)
  {
    KeysAmong(s, AllKeys)
  }

  function KeysAmong(s: SessionState, keys: seq<Key>): (r: seq<Key>)
    ensures forall k :: k in r <==> k in keys && Present(s, k)
  {
    if keys == [] then [] else (if Present(s, keys[0]) then [keys[0]] else []) + KeysAmong(s, keys[1..])
  }

  /** A session without any entry is the empty session. */
  lemma NothingPresentIsEmpty(s: SessionState)
    requires forall k :: !Present(s, k)
    ensures s == EmptySession
  {
    assert !Present(s, NodeCoordMappingKey) && !Present(s, StepKey) && !Present(s, StreetNodesKey);
    assert !Present(s, StartStreetInputKey) && !Present(s, EndStreetInputKey);
    assert !Present(s, StartStreetKey) && !Present(s, EndStreetKey);
    assert !Present(s, StartNodePairKey) && !Present(s, EndNodePairKey);
    assert !Present(s, StartNodeKey) && !Present(s, EndNodeKey);
  }

  /** Deleting the next listed key leaves only keys listed after it present. */
  lemma DeleteListed(s: SessionState, keys: seq<Key>, i: nat)
    requires i < |keys|
    requires forall k :: Present(s, k) ==> k in keys[i..]
    ensures forall k :: Present(Without(s, keys[i]), k) ==> k in keys[i + 1..]
  {
    assert keys[i..] == [keys[i]] + keys[i + 1..];
  }

  class Session {
    var nodeCoordMapping: Option<map<nat, Coordinate>>
    var step: Option<int>
    var streetNodes: Option<seq<EdgeRecord>>
    var startStreetInput: Option<string>
    var endStreetInput: Option<string>
    var startStreet: Option<string>
    var endStreet: Option<string>
    var startNodePair: Option<NodePair>
    var endNodePair: Option<NodePair>
    var startNode: Option<nat>
    var endNode: Option<nat>

    /** The entries as a value. */
    function Snapshot(): SessionState
      reads this
    {
      SessionState(nodeCoordMapping, step, streetNodes, startStreetInput, endStreetInput,
                   startStreet, endStreet, startNodePair, endNodePair, startNode, endNode)
    }

    /** A new visitor's session holds no entry. */
    constructor ()
      ensures Snapshot() == EmptySession
    {
      nodeCoordMapping, step, streetNodes := None, None, None;
      startStreetInput, endStreetInput, startStreet, endStreet := None, None, None, None;
      startNodePair, endNodePair, startNode, endNode := None, None, None, None;
    }

    /** `del st.session_state[k]`. */
    method Delete(k: Key)
      modifies this
      ensures Snapshot() == Without(old(Snapshot()), k)
    {
      match k
      case NodeCoordMappingKey => nodeCoordMapping := None;
      case StepKey => step := None;
      case StreetNodesKey => streetNodes := None;
      case StartStreetInputKey => startStreetInput := None;
      case EndStreetInputKey => endStreetInput := None;
      case StartStreetKey => startStreet := None;
      case EndStreetKey => endStreet := None;
      case StartNodePairKey => startNodePair := None;
      case EndNodePairKey => endNodePair := None;
      case StartNodeKey => startNode := None;
      case EndNodeKey => endNode := None;
    }

    /** The Reset button: delete, one by one, every entry present when it was clicked. */
    method Clear()
      modifies this
      ensures Snapshot() == EmptySession
    {
      var keys := PresentKeys(Snapshot());
      var i := 0;
      while i < |keys|
        invariant 0 <= i <= |keys|
        invariant forall k :: Present(Snapshot(), k) ==> k in keys[i..]
      {
        ghost var before := Snapshot();
        Delete(keys[i]);
        DeleteListed(before, keys, i);
        i := i + 1;
      }
      NothingPresentIsEmpty(Snapshot());
    }

    /** `step1`. */
    method Step1Pass(w: Widgets) returns (outcome: Outcome)
      modifies this
      ensures PassResult(Snapshot(), outcome) == Step1(old(Snapshot()), w)
    {
      if w.submitted {
        startStreetInput := Some(w.startText);
        endStreetInput := Some(w.endText);
        step := Some(2);
        return Rerun;
      }
      return Waiting;
    }

    /** `step2`. */
    method Step2Pass(w: Widgets, matcher: (string, seq<EdgeRecord>) -> seq<string>) returns (outcome: Outcome)
      modifies this
      ensures PassResult(Snapshot(), outcome) == Step2(old(Snapshot()), w, matcher)
    {
      if startStreetInput.None? || endStreetInput.None? || streetNodes.None? {
        return Crashed;
      }
      var startMatches := matcher(startStreetInput.value, streetNodes.value);
      var endMatches := matcher(endStreetInput.value, streetNodes.value);
      if startMatches == [] || endMatches == [] {
        return Stopped;
      }
      startStreet := Some(ChooseStreet(startMatches, w.startStreetPick));
      endStreet := Some(ChooseStreet(endMatches, w.endStreetPick));
      step := Some(3);
      return Rerun;
    }

    /** `step3`. */
    method Step3Pass(w: Widgets) returns (outcome: Outcome)
      modifies this
      ensures PassResult(Snapshot(), outcome) == Step3(old(Snapshot()), w)
    {
      if streetNodes.None? || startStreet.None? || endStreet.None? {
        return Crashed;
      }
      var startOptions := NodeOptions(startStreet.value, streetNodes.value);
      var endOptions := NodeOptions(endStreet.value, streetNodes.value);
      if startOptions == [] {
        return Crashed;
      }
      startNodePair := Some(ChoosePair(startOptions, w.startPairPick));
      if endOptions == [] {
        return Crashed;
      }
      endNodePair := Some(ChoosePair(endOptions, w.endPairPick));
      step := Some(4);
      return Rerun;
    }

    /** `step4`. */
    method Step4Pass(w: Widgets) returns (outcome: Outcome)
      modifies this
      ensures PassResult(Snapshot(), outcome) == Step4(old(Snapshot()), w)
    {
      if startNodePair.None? || endNodePair.None? {
        return Crashed;
      }
      var p, q := startNodePair.value, endNodePair.value;
      startNode := Some(Pick([p.node1, p.node2], w.startNodePick));
      endNode := Some(Pick([q.node1, q.node2], w.endNodePick));
      step := Some(5);
      return Rerun;
    }

    /** `step5`: reads the session and changes nothing in it. */
    method Step5Pass(run: seq<string> -> SolverRun) returns (outcome: Outcome)
      ensures PassResult(Snapshot(), outcome) == Step5(Snapshot(), run)
    {
      if startNode.None? || endNode.None? || startStreet.None? || endStreet.None? ||
         nodeCoordMapping.None? || streetNodes.None? {
        return Crashed;
      }
      var found := FindPath(DefaultConfig, startNode.value, endNode.value, run);
      match found
      case PathFound(path, cost) =>
        if Drawable(path, nodeCoordMapping.value) {
          return ShowedPath(path, cost);
        }
        return Crashed;
      case NoPathFound => return Crashed;
      case QueryFailed(_) => return Exited;
      case SolverMissing(_) => return Exited;
    }

    /** One run of `main` against this session. */
    method RunPass(files: DataFiles, w: Widgets,
                   matcher: (string, seq<EdgeRecord>) -> seq<string>, run: seq<string> -> SolverRun)
      returns (outcome: Outcome)
      modifies this
      ensures PassResult(Snapshot(), outcome) == Pass(old(Snapshot()), files, w, matcher, run)
    {
      if nodeCoordMapping.None? {
        nodeCoordMapping := Some(files.coordinates);
      }
      if step.None? {
        step := Some(1);
      }
      assert Snapshot() == LoadDefaults(old(Snapshot()), files);
      if w.resetClicked {
        Clear();
        return Rerun;
      }
      if streetNodes.None? {
        var records := GetStreetNodes(files.cityLines);
        streetNodes := Some(records);
      }
      assert Snapshot() == LoadStreetNodes(LoadDefaults(old(Snapshot()), files), files);
      match step.value
      case 1 => outcome := Step1Pass(w);
      case 2 => outcome := Step2Pass(w, matcher);
      case 3 => outcome := Step3Pass(w);
      case 4 => outcome := Step4Pass(w);
      case 5 => outcome := Step5Pass(run);
      case _ => outcome := Waiting;
    }
  }
}
