/** The dashboard's node workspace: one contract node and one node per
    campaign field row, an edge from the contract to every field whose colour
    follows the field's connection status, the periodic recolouring of those
    edges, and the minimap's node colours. */
module Workspace {
  import opened Wrappers
  import opened Values
  import opened Text
  import App

  datatype Point = Point(x: int, y: int)

  datatype NodeData = ContractInfo(contract: App.ContractData) | FieldInfo(row: App.FieldRow)

  datatype Node = Node(id: string, kind: string, position: Point, data: NodeData)

  datatype Edge = Edge(
    id: string,
    source: string,
    target: string,
    kind: string,
    animated: bool,
    stroke: string,
    strokeWidth: int,
    markerKind: string,
    markerColor: string)

  const ContractId: string := "contract"
  /** The node types the canvas registers. */
  const ContractKind: string := "contract"
  const FieldKind: string := "field"
  /** How every edge is drawn: a smooth-step path, two pixels wide, ending
      in a closed arrow. */
  const EdgePath: string := "smoothstep"
  const EdgeWidth: int := 2
  const ArrowClosed: string := "arrowclosed"
  const FieldPrefix: string := "field-"

  function FieldNodeId(fieldType: string): string {
    FieldPrefix + fieldType
  }

  function ContractNode(contract: App.ContractData): Node {
    Node(ContractId, ContractKind, Point(100, 250), ContractInfo(contract))
  }

  /** Field row `i` sits on a diagonal, 250 to the right and 150 down per row. */
  function FieldPosition(i: int): Point {
    Point(500 + 250 * i, 150 + 150 * i)
  }

  function FieldNode(row: App.FieldRow, i: int): Node {
    Node(FieldNodeId(row.fieldType), FieldKind, FieldPosition(i), FieldInfo(row))
  }

  /** The contract node at (100, 250) followed by one node per field row, in
      row order, each carrying its row and placed on the diagonal. */
  function BuildNodes(contract: App.ContractData, fields: seq<App.FieldRow>): (r: seq<Node>)
    ensures |r| == |fields| + 1
    ensures r[0] == Node(ContractId, ContractKind, Point(100, 250), ContractInfo(contract))
    ensures forall i :: 0 <= i < |fields| ==>
              r[i + 1] == Node(FieldNodeId(fields[i].fieldType), FieldKind, Point(500 + 250 * i, 150 + 150 * i), FieldInfo(fields[i]))
  {
    [ContractNode(contract)] + seq(|fields|, i requires 0 <= i < |fields| => FieldNode(fields[i], i))
  }

  /** No two nodes are placed on the same point, whatever the rows hold. */
  lemma NodePositionsDistinct(contract: App.ContractData, fields: seq<App.FieldRow>)
    ensures var ns := BuildNodes(contract, fields);
            forall i, j :: 0 <= i < j < |ns| ==> ns[i].position != ns[j].position
  {
    var ns := BuildNodes(contract, fields);
    forall i, j | 0 <= i < j < |ns|
      ensures ns[i].position != ns[j].position
    {
      assert ns[j] == FieldNode(fields[j - 1], j - 1);
      if i > 0 {
        assert ns[i] == FieldNode(fields[i - 1], i - 1);
      }
    }
  }

  /** Positions depend on the order of the rows only, not on their contents. */
  lemma LayoutDependsOnOrderOnly(c1: App.ContractData, f1: seq<App.FieldRow>, c2: App.ContractData, f2: seq<App.FieldRow>)
    requires |f1| == |f2|
    ensures var n1 := BuildNodes(c1, f1);
            var n2 := BuildNodes(c2, f2);
            forall i :: 0 <= i < |n1| ==> n1[i].position == n2[i].position
  {
    var n1 := BuildNodes(c1, f1);
    var n2 := BuildNodes(c2, f2);
    forall i | 0 <= i < |n1|
      ensures n1[i].position == n2[i].position
    {
      if i > 0 {
        assert n1[i] == FieldNode(f1[i - 1], i - 1);
        assert n2[i] == FieldNode(f2[i - 1], i - 1);
      }
    }
  }

  lemma FieldNodeIdInjective(a: string, b: string)
    requires FieldNodeId(a) == FieldNodeId(b)
    ensures a == b
  {
    assert a == FieldNodeId(a)[|FieldPrefix|..];
    assert b == FieldNodeId(b)[|FieldPrefix|..];
  }

  /** With unique field types, nodes `i < j` have different ids. */
  lemma NodeIdsDistinctAt(contract: App.ContractData, fields: seq<App.FieldRow>, i: int, j: int)
    requires App.UniqueFieldTypes(fields)
    requires 0 <= i < j <= |fields|
    ensures BuildNodes(contract, fields)[i].id != BuildNodes(contract, fields)[j].id
  {
    var ns := BuildNodes(contract, fields);
    assert ns[j].id == FieldNodeId(fields[j - 1].fieldType);
    if i == 0 {
      assert ns[j].id[0] == 'f' && ns[i].id[0] == 'c';
    } else {
      assert ns[i].id == FieldNodeId(fields[i - 1].fieldType);
      if ns[i].id == ns[j].id {
        FieldNodeIdInjective(fields[i - 1].fieldType, fields[j - 1].fieldType);
      }
    }
  }

  /** Node ids are all different exactly when the rows' field types are. */
  lemma NodeIdsUniqueIff(contract: App.ContractData, fields: seq<App.FieldRow>)
    ensures var ns := BuildNodes(contract, fields);
            (forall i, j :: 0 <= i < j < |ns| ==> ns[i].id != ns[j].id) <==> App.UniqueFieldTypes(fields)
  {
    var ns := BuildNodes(contract, fields);
    if App.UniqueFieldTypes(fields) {
      forall i, j | 0 <= i < j < |ns|
        ensures ns[i].id != ns[j].id
      {
        NodeIdsDistinctAt(contract, fields, i, j);
      }
    } else {
      var i, j :| 0 <= i < j < |fields| && fields[i].fieldType == fields[j].fieldType;
      assert ns[i + 1].id == ns[j + 1].id;
    }
  }

  // ---------------------------------------------------------------------
  // Edges and their colours
  // ---------------------------------------------------------------------

  /** Red for a field whose connection status is FAIL, green otherwise
      (including a field the map does not mention). */
  function EdgeTone(connection: map<string, string>, fieldType: string): (t: Tone)
    ensures t == Red <==> fieldType in connection && connection[fieldType] == FAIL
    ensures t == Green <==> !(fieldType in connection && connection[fieldType] == FAIL)
  {
    if fieldType in connection && connection[fieldType] == FAIL then Red else Green
  }

  function FieldEdge(row: App.FieldRow, connection: map<string, string>): Edge {
    var colour := Hex(EdgeTone(connection, row.fieldType));
    Edge("edge-" + row.fieldType, ContractId, FieldNodeId(row.fieldType), EdgePath, true,
         colour, EdgeWidth, ArrowClosed, colour)
  }

  /** One animated edge per row, from the contract to the row's node; stroke
      and arrow share one colour, red exactly when the row's connection
      status is FAIL. */
  function BuildEdges(fields: seq<App.FieldRow>, connection: map<string, string>): (r: seq<Edge>)
    ensures |r| == |fields|
    ensures forall i :: 0 <= i < |r| ==>
              && r[i].id == "edge-" + fields[i].fieldType
              && r[i].source == ContractId
              && r[i].target == FieldNodeId(fields[i].fieldType)
              && r[i].animated
              && r[i].kind == EdgePath && r[i].strokeWidth == EdgeWidth && r[i].markerKind == ArrowClosed
    ensures forall i :: 0 <= i < |r| ==> r[i].stroke == r[i].markerColor
    ensures forall i :: 0 <= i < |r| ==> r[i].stroke == Hex(EdgeTone(connection, fields[i].fieldType))
    ensures forall i :: 0 <= i < |r| ==>
              (r[i].stroke == Hex(Red) <==> fields[i].fieldType in connection && connection[fields[i].fieldType] == FAIL)
  {
    seq(|fields|, i requires 0 <= i < |fields| => FieldEdge(fields[i], connection))
  }

  /** The field type an edge points at, recovered by removing the first
      `field-` from its target. */
  function TargetFieldType(e: Edge): string {
    ReplaceFirst(e.target, FieldPrefix, "")
  }

  function Recolor(e: Edge, connection: map<string, string>): Edge {
    var colour := Hex(EdgeTone(connection, TargetFieldType(e)));
    e.(stroke := colour, markerColor := colour)
  }

  /** The periodic recolouring: each edge's stroke and arrow colour are
      recomputed from the connection map; nothing else about an edge changes. */
  function PulseEdges(edges: seq<Edge>, connection: map<string, string>): (r: seq<Edge>)
    ensures |r| == |edges|
    ensures forall i :: 0 <= i < |r| ==> r[i] == edges[i].(stroke := r[i].stroke, markerColor := r[i].markerColor)
    ensures forall i :: 0 <= i < |r| ==> r[i].stroke == r[i].markerColor
    ensures forall i :: 0 <= i < |r| ==> r[i].stroke == Hex(EdgeTone(connection, TargetFieldType(edges[i])))
  {
    seq(|edges|, i requires 0 <= i < |edges| => Recolor(edges[i], connection))
  }

  /** Recolouring built edges with a newer connection map gives exactly the
      edges a fresh build with that map would give. */
  lemma PulseCatchesUp(fields: seq<App.FieldRow>, before: map<string, string>, after: map<string, string>)
    ensures PulseEdges(BuildEdges(fields, before), after) == BuildEdges(fields, after)
  {
    var es := BuildEdges(fields, before);
    var r := PulseEdges(es, after);
    forall i | 0 <= i < |fields|
      ensures r[i] == BuildEdges(fields, after)[i]
    {
      StripPrependedPrefix(FieldPrefix, fields[i].fieldType);
      assert TargetFieldType(es[i]) == fields[i].fieldType;
    }
  }

  /** With an unchanged connection map the recolouring leaves built edges
      as they are. */
  lemma PulseKeepsBuiltColours(fields: seq<App.FieldRow>, connection: map<string, string>)
    ensures PulseEdges(BuildEdges(fields, connection), connection) == BuildEdges(fields, connection)
  {
    PulseCatchesUp(fields, connection, connection);
  }

  /** Recolouring twice with one map is recolouring once. */
  lemma PulseIdempotent(edges: seq<Edge>, connection: map<string, string>)
    ensures PulseEdges(PulseEdges(edges, connection), connection) == PulseEdges(edges, connection)
  {
  }

  // ---------------------------------------------------------------------
  // Minimap
  // ---------------------------------------------------------------------

  /** The status a node's data carries, if any; contract data carries none. */
  function NodeStatus(n: Node): Option<string> {
    match n.data
    case ContractInfo(_) => None
    case FieldInfo(row) => row.status
  }

  /** Minimap colour: the contract node is green; any other node is red for
      FAIL, amber for WARN and green for anything else. */
  function MiniMapColor(n: Node): (r: string)
    ensures n.kind == ContractKind ==> r == Hex(Green)
    ensures n.kind != ContractKind ==>
              && (r == Hex(Red) <==> NodeStatus(n) == Some(FAIL))
              && (r == Hex(Amber) <==> NodeStatus(n) == Some(WARN))
    ensures r == Hex(Red) || r == Hex(Amber) || r == Hex(Green)
  {
    if n.kind == ContractKind then Hex(Green)
    else if NodeStatus(n) == Some(FAIL) then Hex(Red)
    else if NodeStatus(n) == Some(WARN) then Hex(Amber)
    else Hex(Green)
  }

  /** A field's edge is red exactly when the row's own status is FAIL, once
      the connection map holds the row's status (or PASS when it has none). */
  lemma EdgeRedIffRowFails(row: App.FieldRow, connection: map<string, string>)
    requires row.fieldType in connection && connection[row.fieldType] == OrElse(row.status, PASS)
    ensures FieldEdge(row, connection).stroke == Hex(Red) <==> row.status == Some(FAIL)
  {
    assert Hex(Green) != Hex(Red);
    if !Truthy(row.status) {
      assert PASS != FAIL;
    }
  }

  /** A field node is red on the minimap exactly when its row is FAIL. */
  lemma NodeRedIffRowFails(contract: App.ContractData, fields: seq<App.FieldRow>, i: int)
    requires 0 <= i < |fields|
    ensures MiniMapColor(BuildNodes(contract, fields)[i + 1]) == Hex(Red) <==> fields[i].status == Some(FAIL)
  {
    assert BuildNodes(contract, fields)[i + 1] == FieldNode(fields[i], i);
  }

  /** With unique field types, a built edge is red exactly when its row is FAIL. */
  lemma BuiltEdgeRedIffRowFails(fields: seq<App.FieldRow>, i: int)
    requires App.UniqueFieldTypes(fields) && 0 <= i < |fields|
    ensures BuildEdges(fields, App.StatusMap(fields))[i].stroke == Hex(Red) <==> fields[i].status == Some(FAIL)
  {
    App.StatusMapOfUnique(fields);
    assert fields[i].fieldType in App.FieldTypes(fields);
    EdgeRedIffRowFails(fields[i], App.StatusMap(fields));
  }

  /** While the connection map mirrors the rows (field types unique), a
      field's minimap colour is red exactly when its edge is red. */
  lemma MiniMapAgreesWithEdges(contract: App.ContractData, fields: seq<App.FieldRow>)
    requires App.UniqueFieldTypes(fields)
    ensures var ns := BuildNodes(contract, fields);
            var es := BuildEdges(fields, App.StatusMap(fields));
            forall i :: 0 <= i < |fields| ==> (MiniMapColor(ns[i + 1]) == Hex(Red) <==> es[i].stroke == Hex(Red))
  {
    forall i | 0 <= i < |fields|
      ensures MiniMapColor(BuildNodes(contract, fields)[i + 1]) == Hex(Red)
              <==> BuildEdges(fields, App.StatusMap(fields))[i].stroke == Hex(Red)
    {
      NodeRedIffRowFails(contract, fields, i);
      BuiltEdgeRedIffRowFails(fields, i);
    }
  }
}
