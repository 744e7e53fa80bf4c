/**
 * The exporter that produces the city's Prolog facts (src/get_map.py).
 * `CityGraphBuilder` renumbers the nodes of a downloaded street graph
 * 1, 2, ..., n, turns every graph edge into a street record with a
 * normalised name, and writes the records as `street(u, v, d, 'name').`
 * lines, which the street-line parser of `StreetData` reads back.
 *
 * The graph download is replaced by a graph given to the constructor;
 * the file written is modelled as the sequence of its lines.
 */
module GetMap {
  import opened Wrappers
  import opened Text
  import opened StreetData

  // ---------------------------------------------------------------------
  // The downloaded graph
  // ---------------------------------------------------------------------

  /** A graph node: its OpenStreetMap id and its `y` (latitude) and `x` (longitude). */
  datatype GraphNode = GraphNode(osmId: int, y: real, x: real)

  /** The `name` attribute of an edge: absent, one name, or a list of names. */
  datatype NameTag = NoName | Name(text: string) | Names(parts: seq<string>)

  /**
   * A graph edge between two OpenStreetMap ids.  The distance is kept as
   * the text `save_to_file` prints for it.
   */
  datatype GraphEdge = GraphEdge(u: int, v: int, distanceText: string, name: NameTag)

  /** One entry of `self.edges`: renumbered ends, distance text, escaped name. */
  datatype StreetEdge = StreetEdge(u: nat, v: nat, distanceText: string, name: string)

  /** The node list of a graph names every node once. */
  predicate DistinctIds(nodes: seq<GraphNode>) {
    forall i, j :: 0 <= i < j < |nodes| ==> nodes[i].osmId != nodes[j].osmId
  }

  function Ids(nodes: seq<GraphNode>): (r: seq<int>)
    ensures |r| == |nodes|
    ensures forall i :: 0 <= i < |r| ==> r[i] == nodes[i].osmId
  {
    seq(|nodes|, i requires 0 <= i < |nodes| => nodes[i].osmId)
  }

  // ---------------------------------------------------------------------
  // Street names
  // ---------------------------------------------------------------------

  /** The name before escaping: `'Unknown'` when absent, a list joined with `', '`. */
  function RawName(tag: NameTag): string {
    match tag
    case NoName => "Unknown"
    case Name(text) => text
    case Names(parts) => Join(parts, ", ")
  }

  /** The name stored for an edge: the raw name with every apostrophe escaped. */
  function NormaliseName(tag: NameTag): (r: string)
    ensures forall i :: 0 <= i < |r| && r[i] == '\'' ==> i > 0 && r[i - 1] == '\\'
    ensures '\'' !in RawName(tag) ==> r == RawName(tag)
  {
    Escape(RawName(tag))
  }

  /** Normalising loses nothing: undoing the escapes gives back the raw name. */
  lemma NormaliseNameUndone(tag: NameTag)
    ensures Unescape(NormaliseName(tag)) == RawName(tag)
  {
    UnescapeEscape(RawName(tag));
  }

  lemma UnknownWhenUnnamed()
    ensures NormaliseName(NoName) == "Unknown"
  {
  }

  // ---------------------------------------------------------------------
  // Translating edges
  // ---------------------------------------------------------------------

  predicate EndsMapped(e: GraphEdge, mapping: map<int, nat>) {
    e.u in mapping && e.v in mapping
  }

  /** The record `build_edges` appends for a graph edge whose ends are numbered. */
  function Translate(e: GraphEdge, mapping: map<int, nat>): StreetEdge
    requires EndsMapped(e, mapping)
  {
    StreetEdge(mapping[e.u], mapping[e.v], e.distanceText, NormaliseName(e.name))
  }

  /**
   * The record keeps the numbers of both ends and the distance; its name
   * gives back the raw name once the escapes are undone, and is the raw
   * name itself when that has no apostrophe.
   */
  lemma TranslateKeeps(e: GraphEdge, mapping: map<int, nat>)
    requires EndsMapped(e, mapping)
    ensures var r := Translate(e, mapping);
      && r.u == mapping[e.u] && r.v == mapping[e.v] && r.distanceText == e.distanceText
      && Unescape(r.name) == RawName(e.name)
      && ('\'' !in RawName(e.name) ==> r.name == RawName(e.name))
  {
    NormaliseNameUndone(e.name);
  }

  /** How many leading edges have both ends numbered: the loop stops (KeyError) at the next one. */
  function MappedPrefix(es: seq<GraphEdge>, mapping: map<int, nat>): (n: nat)
    ensures n <= |es|
    ensures forall i :: 0 <= i < n ==> EndsMapped(es[i], mapping)
    ensures n < |es| ==> !EndsMapped(es[n], mapping)
  {
    if es == [] || !EndsMapped(es[0], mapping) then 0 else 1 + MappedPrefix(es[1..], mapping)
  }

  function TranslateAll(es: seq<GraphEdge>, mapping: map<int, nat>): (r: seq<StreetEdge>)
    requires forall i :: 0 <= i < |es| ==> EndsMapped(es[i], mapping)
    ensures |r| == |es|
    ensures forall i :: 0 <= i < |es| ==> r[i] == Translate(es[i], mapping)
  {
    seq(|es|, i requires 0 <= i < |es| => Translate(es[i], mapping))
  }

  // ---------------------------------------------------------------------
  // The file
  // ---------------------------------------------------------------------

  // The three comment lines.  Each has its leading `%` and its final
  // character as literals of their own, so that the lemmas about the
  // street-line parser see those characters without unfolding the whole
  // constant.
  const LocationsComment := "%" + " Locations in the city (Nodes" + ")"
  const StreetsComment := "%" + " Streets between locations (Edges with Distances as Weights" + ")"
  const FormatComment := "%" + " street(Node1, Node2, Distance, Name)" + "."

  /** `location(i, 'Intersection i').` */
  function LocationLine(id: nat): (line: string)
    ensures StartsWith(line, "location(") && line[|line| - 3..] == "')."
  {
    "location(" + (Show(id) + (", 'Intersection " + (Show(id) + "').")))
  }

  /** The location line of node 3, as `save_to_file` writes it. */
  lemma LocationLineExample()
    ensures LocationLine(3) == "location(3, 'Intersection 3')."
  {
    assert Show(3) == "3";
    assert "location(" + ("3" + (", 'Intersection " + ("3" + "')."))) == "location(3, 'Intersection 3').";
  }

  /** Everything of a street line before the name. */
  function StreetPrefix(u: nat, v: nat, distanceText: string): string {
    "street(" + (Show(u) + (", " + (Show(v) + (", " + (distanceText + ", '")))))
  }

  /** `street(u, v, d, 'name').` */
  function StreetLine(e: StreetEdge): (line: string)
    ensures StartsWith(line, "street(") && line[|line| - 3..] == "')."
    ensures StartsWith(line, StreetPrefix(e.u, e.v, e.distanceText))
  {
    StreetPrefix(e.u, e.v, e.distanceText) + (e.name + "').")
  }

  function LocationLines(ids: seq<nat>): (r: seq<string>)
    ensures |r| == |ids|
    ensures forall i :: 0 <= i < |ids| ==> r[i] == LocationLine(ids[i])
  {
    seq(|ids|, i requires 0 <= i < |ids| => LocationLine(ids[i]))
  }

  function StreetLines(edges: seq<StreetEdge>): (r: seq<string>)
    ensures |r| == |edges|
    ensures forall i :: 0 <= i < |edges| ==> r[i] == StreetLine(edges[i])
  {
    seq(|edges|, i requires 0 <= i < |edges| => StreetLine(edges[i]))
  }

  /** The lines of the file: header, one line per node, a blank line, two comments, one line per street. */
  function ExportLines(ids: seq<nat>, edges: seq<StreetEdge>): (r: seq<string>)
    ensures |r| == |ids| + |edges| + 4
  {
    [LocationsComment] + LocationLines(ids) + ["", StreetsComment, FormatComment] + StreetLines(edges)
  }

  /** Where each line of the file sits: the location lines after the header, the street lines at the end. */
  lemma ExportLayout(ids: seq<nat>, edges: seq<StreetEdge>)
    ensures var r := ExportLines(ids, edges);
      && r[0] == LocationsComment && r[|ids| + 1] == ""
      && r[|ids| + 2] == StreetsComment && r[|ids| + 3] == FormatComment
      && (forall i :: 0 <= i < |ids| ==> r[1 + i] == LocationLine(ids[i]))
      && (forall k :: 0 <= k < |edges| ==> r[|ids| + 4 + k] == StreetLine(edges[k]))
  {
  }

  // ---------------------------------------------------------------------
  // The builder
  // ---------------------------------------------------------------------

  /** The numbers `mapping` gives to `order`, in order. */
  function Renumbered(order: seq<int>, mapping: map<int, nat>): (r: seq<nat>)
    requires forall k :: 0 <= k < |order| ==> order[k] in mapping
    ensures |r| == |order|
    ensures forall k :: 0 <= k < |order| ==> r[k] == mapping[order[k]]
  {
    seq(|order|, k requires 0 <= k < |order| && order[k] in mapping => mapping[order[k]])
  }

  /** The prefix the edge loop gets through is the longest one whose ends are all numbered. */
  lemma MappedPrefixIs(es: seq<GraphEdge>, mapping: map<int, nat>, n: nat)
    requires n <= |es|
    requires forall i :: 0 <= i < n ==> EndsMapped(es[i], mapping)
    requires n < |es| ==> !EndsMapped(es[n], mapping)
    ensures MappedPrefix(es, mapping) == n
  {
  }

  lemma TranslateAllSnoc(es: seq<GraphEdge>, mapping: map<int, nat>, i: nat)
    requires i < |es|
    requires forall j :: 0 <= j <= i ==> EndsMapped(es[j], mapping)
    ensures TranslateAll(es[..i + 1], mapping) == TranslateAll(es[..i], mapping) + [Translate(es[i], mapping)]
  {
    assert es[..i + 1] == es[..i] + [es[i]];
    TranslateAllAppend(es[..i], es[i], mapping);
  }

  lemma TranslateAllAppend(es: seq<GraphEdge>, e: GraphEdge, mapping: map<int, nat>)
    requires forall j :: 0 <= j < |es| ==> EndsMapped(es[j], mapping)
    requires EndsMapped(e, mapping)
    ensures TranslateAll(es + [e], mapping) == TranslateAll(es, mapping) + [Translate(e, mapping)]
  {
    var longer := TranslateAll(es + [e], mapping);
    var shorter := TranslateAll(es, mapping) + [Translate(e, mapping)];
    forall k | 0 <= k < |longer|
      ensures longer[k] == shorter[k]
    {
      assert (es + [e])[k] == if k < |es| then es[k] else e;
    }
  }

  class CityGraphBuilder {
    const placeName: string
    const graphNodes: seq<GraphNode>
    const graphEdges: seq<GraphEdge>
    /** `node_id_mapping`, and its keys in the order they were inserted. */
    var nodeIdMapping: map<int, nat>
    var mappedIds: seq<int>
    var nodeCoordMapping: map<nat, Coordinate>
    var edges: seq<StreetEdge>

    /** The dictionary's keys are exactly the listed ids, and the graph lists each node once. */
    predicate Valid()
      reads this`nodeIdMapping, this`mappedIds
    {
      && DistinctIds(graphNodes)
      && (forall k :: 0 <= k < |mappedIds| ==> mappedIds[k] in nodeIdMapping)
      && (forall id :: id in nodeIdMapping ==> id in mappedIds)
    }

    /** The new node numbers in the dictionary's order. */
    function NewIds(): seq<nat>
      reads this
      requires Valid()
    {
      Renumbered(mappedIds, nodeIdMapping)
    }

    /** The builder for a graph already downloaded for `placeName`. */
    constructor (placeName: string, nodes: seq<GraphNode>, graphEdges: seq<GraphEdge>)
      requires DistinctIds(nodes)
      ensures Valid()
      ensures this.placeName == placeName && graphNodes == nodes && this.graphEdges == graphEdges
      ensures nodeIdMapping == map[] && mappedIds == [] && nodeCoordMapping == map[] && edges == []
    {
      this.placeName := placeName;
      graphNodes := nodes;
      this.graphEdges := graphEdges;
      nodeIdMapping, mappedIds := map[], [];
      nodeCoordMapping, edges := map[], [];
    }

    /**
     * `build_node_mapping`: the i-th listed node gets number i, counting
     * from 1, and every number gets its node's coordinates.
     */
    method BuildNodeMapping()
      requires Valid()
      modifies this`nodeIdMapping, this`mappedIds, this`nodeCoordMapping
      ensures Valid()
      ensures mappedIds == Ids(graphNodes)
      ensures forall i :: 0 <= i < |graphNodes| ==> nodeIdMapping[graphNodes[i].osmId] == i + 1
      ensures forall id :: id in nodeIdMapping ==> 1 <= nodeIdMapping[id] <= |graphNodes|
      ensures forall j :: j in nodeCoordMapping <==> 1 <= j <= |graphNodes|
      ensures forall i :: 0 <= i < |graphNodes| ==>
        i + 1 in nodeCoordMapping && nodeCoordMapping[i + 1] == Coordinate(graphNodes[i].y, graphNodes[i].x)
    {
      var ids, order := NumberNodes(graphNodes);
      nodeIdMapping, mappedIds := ids, order;
      var coords := CoordinatesOf(graphNodes, ids, order);
      nodeCoordMapping := coords;
      NumberedOneToN(graphNodes, nodeIdMapping);
    }

    /**
     * `build_edges`: one record per graph edge, in order, appended to the
     * records already there.  An edge whose end has no number raises
     * KeyError: the edges before it stay appended and `completed` is false.
     */
    method BuildEdges() returns (completed: bool)
      requires Valid()
      modifies this`edges
      ensures Valid()
      ensures var n := MappedPrefix(graphEdges, nodeIdMapping);
        && (completed <==> n == |graphEdges|)
        && edges == old(edges) + TranslateAll(graphEdges[..n], nodeIdMapping)
    {
      var mapping := nodeIdMapping;
      var i := 0;
      while i < |graphEdges|
        invariant 0 <= i <= |graphEdges|
        invariant forall j :: 0 <= j < i ==> EndsMapped(graphEdges[j], mapping)
        invariant edges == old(edges) + TranslateAll(graphEdges[..i], mapping)
      {
        var e := graphEdges[i];
        if !(e.u in mapping && e.v in mapping) {
          MappedPrefixIs(graphEdges, mapping, i);
          return false;
        }
        var record := Translate(e, mapping);
        TranslateAllSnoc(graphEdges, mapping, i);
        Associative(old(edges), TranslateAll(graphEdges[..i], mapping), [record]);
        edges := edges + [record];
        i := i + 1;
      }
      MappedPrefixIs(graphEdges, mapping, i);
      assert graphEdges[..i] == graphEdges;
      return true;
    }

    /** `save_to_file`: the lines written, in order. */
    method SaveToFile() returns (lines: seq<string>)
      requires Valid()
      ensures lines == ExportLines(NewIds(), edges)
    {
      lines := [LocationsComment];
      var ids := NewIds();
      var k := 0;
      while k < |mappedIds|
        invariant 0 <= k <= |mappedIds|
        invariant lines == [LocationsComment] + LocationLines(ids[..k])
      {
        lines := lines + [LocationLine(nodeIdMapping[mappedIds[k]])];
        k := k + 1;
      }
      assert ids[..k] == ids;
      lines := lines + ["", StreetsComment, FormatComment];
      var i := 0;
      while i < |edges|
        invariant 0 <= i <= |edges|
        invariant lines == [LocationsComment] + LocationLines(ids) + ["", StreetsComment, FormatComment]
                           + StreetLines(edges[..i])
      {
        lines := lines + [StreetLine(edges[i])];
        i := i + 1;
      }
      assert edges[..i] == edges;
    }
  }

  /**
   * The first loop of `build_node_mapping`: number the nodes 1, 2, ... in
   * the order the graph lists them, remembering the order of insertion.
   */
  method NumberNodes(nodes: seq<GraphNode>) returns (ids: map<int, nat>, order: seq<int>)
    requires DistinctIds(nodes)
    ensures order == Ids(nodes)
    ensures forall id :: id in ids <==> id in order
    ensures forall j :: 0 <= j < |nodes| ==> nodes[j].osmId in ids && ids[nodes[j].osmId] == j + 1
  {
    ids, order := map[], [];
    var i := 0;
    while i < |nodes|
      invariant 0 <= i <= |nodes|
      invariant order == Ids(nodes[..i])
      invariant forall id :: id in ids <==> id in order
      invariant forall j :: 0 <= j < i ==> nodes[j].osmId in ids && ids[nodes[j].osmId] == j + 1
    {
      ids := ids[nodes[i].osmId := i + 1];
      order := order + [nodes[i].osmId];
      i := i + 1;
    }
    assert nodes[..i] == nodes;
  }

  /**
   * The second loop of `build_node_mapping`: every number gets the
   * coordinates (latitude, longitude) of the node it was given to.
   */
  method CoordinatesOf(nodes: seq<GraphNode>, ids: map<int, nat>, order: seq<int>)
    returns (coords: map<nat, Coordinate>)
    requires order == Ids(nodes)
    requires forall j :: 0 <= j < |nodes| ==> nodes[j].osmId in ids && ids[nodes[j].osmId] == j + 1
    ensures forall j :: j in coords <==> 1 <= j <= |nodes|
    ensures forall j :: 0 <= j < |nodes| ==> coords[j + 1] == Coordinate(nodes[j].y, nodes[j].x)
  {
    coords := map[];
    var k := 0;
    while k < |order|
      invariant 0 <= k <= |order|
      invariant forall j :: j in coords <==> 1 <= j <= k
      invariant forall j :: 0 <= j < k ==> coords[j + 1] == Coordinate(nodes[j].y, nodes[j].x)
    {
      var node := nodes[k];
      coords := coords[ids[order[k]] := Coordinate(node.y, node.x)];
      k := k + 1;
    }
  }

  /** With distinct ids, numbering by position is a bijection onto 1..n. */
  lemma NumberedOneToN(nodes: seq<GraphNode>, mapping: map<int, nat>)
    requires DistinctIds(nodes)
    requires forall id :: id in mapping ==> id in Ids(nodes)
    requires forall i :: 0 <= i < |nodes| ==> nodes[i].osmId in mapping && mapping[nodes[i].osmId] == i + 1
    ensures forall id :: id in mapping ==> 1 <= mapping[id] <= |nodes|
    ensures forall a, b :: a in mapping && b in mapping && mapping[a] == mapping[b] ==> a == b
  {
    forall id | id in mapping
      ensures 1 <= mapping[id] <= |nodes|
    {
      var i :| 0 <= i < |nodes| && Ids(nodes)[i] == id;
    }
    forall a, b | a in mapping && b in mapping && mapping[a] == mapping[b]
      ensures a == b
    {
      var i :| 0 <= i < |nodes| && Ids(nodes)[i] == a;
      var j :| 0 <= j < |nodes| && Ids(nodes)[j] == b;
      assert mapping[a] == i + 1 && mapping[b] == j + 1;
    }
  }
}
