/** The dashboard's lineage graph (app/page.tsx): five fixed nodes, four
    edges drawn as cubic S-curves between node anchors, the three feature
    rows tied to source nodes, and the two hover slots that decide which
    edges, nodes and features are emphasised. */
module Lineage {
  import opened Wrappers

  // ---------------------------------------------------------------------
  // Static data
  // ---------------------------------------------------------------------

  datatype NodeId = SapErp | KafkaStream | RestApi | FoundationEngine | SupplyChainDp

  predicate IsSourceId(id: NodeId)
  {
    id.SapErp? || id.KafkaStream? || id.RestApi?
  }

  /** The narrower union a feature row may point at. */
  type SourceNodeId = id: NodeId | IsSourceId(id) witness SapErp

  datatype NodeKind = Source | Transform | Output

  /** `subtitle` holds the source's `label` field (`label` is a Dafny
      keyword). */
  datatype Node = Node(id: NodeId, systemName: string, subtitle: string, badge: string,
                       kind: NodeKind, x: real, y: real)

  datatype Edge = Edge(id: string, from: NodeId, to: NodeId, flowRate: string)

  datatype Feature = Feature(num: string, title: string, nodeId: SourceNodeId,
                             progress: Option<real>, badge: Option<string>, badgeAccent: bool)

  const NodeW: real := 160.0
  const NodeH: real := 70.0

  const Nodes: seq<Node> := [
    Node(SapErp, "SAP_ERP", "WAREHOUSE DATA", "DOMAIN: LOGISTICS", Source, 30.0, 40.0),
    Node(KafkaStream, "KAFKA_STREAM", "SHIPMENT EVENTS", "DOMAIN: TRANSPORT", Source, 30.0, 150.0),
    Node(RestApi, "REST_API", "CARRIER METRICS", "DOMAIN: PARTNERS", Source, 30.0, 260.0),
    Node(FoundationEngine, "FOUNDATION ENGINE", "MERGE + VALIDATE + ENRICH", "", Transform, 230.0, 135.0),
    Node(SupplyChainDp, "SUPPLY CHAIN DP", "DATA PRODUCT", "STATUS: LIVE", Output, 420.0, 135.0)
  ]

  const Edges: seq<Edge> := [
    Edge("e1", SapErp, FoundationEngine, "~2.1k events/sec"),
    Edge("e2", KafkaStream, FoundationEngine, "~3.8k events/sec"),
    Edge("e3", RestApi, FoundationEngine, "~1.4k events/sec"),
    Edge("e4", FoundationEngine, SupplyChainDp, "~7.3k events/sec")
  ]

  const Features: seq<Feature> := [
    Feature("01", "Data Quality Score", SapErp, Some(99.5), None, false),
    Feature("02", "Access & Governance", KafkaStream, None, Some("GOVERNANCE: ACTIVE"), false),
    Feature("03", "AI Readiness", RestApi, None, Some("AI-READY: TRUE"), true)
  ]

  // ---------------------------------------------------------------------
  // Well-formedness of the static data
  // ---------------------------------------------------------------------

  predicate UniqueNodeIds(ns: seq<Node>)
  {
    forall i, j :: 0 <= i < j < |ns| ==> ns[i].id != ns[j].id
  }

  predicate HasNode(ns: seq<Node>, id: NodeId)
  {
    exists i :: 0 <= i < |ns| && ns[i].id == id
  }

  predicate EdgesClosed(ns: seq<Node>, es: seq<Edge>)
  {
    forall k :: 0 <= k < |es| ==> HasNode(ns, es[k].from) && HasNode(ns, es[k].to)
  }

  predicate UniqueEdgeIds(es: seq<Edge>)
  {
    forall i, j :: 0 <= i < j < |es| ==> es[i].id != es[j].id
  }

  /** Fan-in then fan-out: every edge goes from a source into the one
      transform, or from the transform into the one output. */
  predicate FanInFanOut(es: seq<Edge>)
  {
    forall k :: 0 <= k < |es| ==>
      (IsSourceId(es[k].from) && es[k].to == FoundationEngine) ||
      (es[k].from == FoundationEngine && es[k].to == SupplyChainDp)
  }

  lemma IdsUnique()
    ensures UniqueNodeIds(Nodes) && UniqueEdgeIds(Edges)
  {
  }

  lemma GraphWellFormed()
    ensures EdgesClosed(Nodes, Edges)
    ensures FanInFanOut(Edges)
  {
    assert Nodes[0].id == SapErp && Nodes[1].id == KafkaStream && Nodes[2].id == RestApi;
    assert Nodes[3].id == FoundationEngine && Nodes[4].id == SupplyChainDp;
  }

  /** The kind of each node id follows from its id: the three sources,
      the one transform, the one output. */
  lemma KindsById(id: NodeId)
    ensures IsSourceId(id) <==> KindOf(id) == Source
    ensures id == FoundationEngine <==> KindOf(id) == Transform
    ensures id == SupplyChainDp <==> KindOf(id) == Output
  {
    match id
    case SapErp => NodeByIdInverse(Nodes[0]);
    case KafkaStream => NodeByIdInverse(Nodes[1]);
    case RestApi => NodeByIdInverse(Nodes[2]);
    case FoundationEngine => NodeByIdInverse(Nodes[3]);
    case SupplyChainDp => NodeByIdInverse(Nodes[4]);
  }

  /** No edge leaves the output node or enters a source node. */
  lemma EdgeEndpointKinds(k: int)
    requires 0 <= k < |Edges|
    ensures KindOf(Edges[k].from) != Output && KindOf(Edges[k].to) != Source
  {
    GraphWellFormed();
    KindsById(Edges[k].from);
    KindsById(Edges[k].to);
  }

  // ---------------------------------------------------------------------
  // Lookup
  // ---------------------------------------------------------------------

  /** `Array.prototype.find` on the node list: the first node whose id
      matches, or nothing. */
  function FindNode(ns: seq<Node>, id: NodeId): (r: Option<Node>)
    ensures r.None? <==> !HasNode(ns, id)
    ensures r.Some? ==> exists i :: 0 <= i < |ns| && ns[i] == r.value && r.value.id == id &&
                                    forall j :: 0 <= j < i ==> ns[j].id != id
    decreases |ns|
  {
    if |ns| == 0 then None
    else if ns[0].id == id then Some(ns[0])
    else
      var r := FindNode(ns[1..], id);
      assert HasNode(ns[1..], id) ==> HasNode(ns, id) by {
        if HasNode(ns[1..], id) {
          var i :| 0 <= i < |ns[1..]| && ns[1..][i].id == id;
          assert ns[i + 1].id == id;
        }
      }
      assert HasNode(ns, id) ==> HasNode(ns[1..], id) by {
        if HasNode(ns, id) {
          var i :| 0 <= i < |ns| && ns[i].id == id;
          assert i > 0 && ns[1..][i - 1].id == id;
        }
      }
      if r.Some? then
        assert exists i :: 0 <= i < |ns| && ns[i] == r.value && r.value.id == id &&
                           forall j :: 0 <= j < i ==> ns[j].id != id by {
          var i :| 0 <= i < |ns[1..]| && ns[1..][i] == r.value && r.value.id == id &&
                   forall j :: 0 <= j < i ==> ns[1..][j].id != id;
          assert ns[i + 1] == r.value;
          assert forall j :: 0 <= j < i + 1 ==> ns[j].id != id by {
            forall j | 0 <= j < i + 1
              ensures ns[j].id != id
            {
              if j > 0 {
                assert ns[j] == ns[1..][j - 1];
              }
            }
          }
        }
        r
      else r
  }

  lemma EveryIdHasANode(id: NodeId)
    ensures HasNode(Nodes, id)
  {
    match id
    case SapErp => assert Nodes[0].id == id;
    case KafkaStream => assert Nodes[1].id == id;
    case RestApi => assert Nodes[2].id == id;
    case FoundationEngine => assert Nodes[3].id == id;
    case SupplyChainDp => assert Nodes[4].id == id;
  }

  /** `nodeById`: the lookup always succeeds because the id type is the
      closed set of node ids. */
  function NodeById(id: NodeId): (n: Node)
    ensures n in Nodes && n.id == id
  {
    EveryIdHasANode(id);
    FindNode(Nodes, id).value
  }

  /** Looking a node up by its own id gives that node back. */
  lemma NodeByIdInverse(n: Node)
    requires n in Nodes
    ensures NodeById(n.id) == n
  {
    IdsUnique();
  }

  function KindOf(id: NodeId): NodeKind
  {
    NodeById(id).kind
  }

  // ---------------------------------------------------------------------
  // Geometry
  // ---------------------------------------------------------------------

  datatype Point = Point(x: real, y: real)

  /** `M start C c1, c2, end`: one cubic Bezier segment. */
  datatype CubicPath = CubicPath(start: Point, c1: Point, c2: Point, end: Point)

  /** Centre of the node box's right side. */
  function RightAnchor(n: Node): Point
  {
    Point(n.x + NodeW, n.y + NodeH / 2.0)
  }

  /** Centre of the node box's left side. */
  function LeftAnchor(n: Node): Point
  {
    Point(n.x, n.y + NodeH / 2.0)
  }

  function Mid(p: Point, q: Point): Point
  {
    Point((p.x + q.x) / 2.0, (p.y + q.y) / 2.0)
  }

  /** `edgePath`: an S-curve from the source node's right anchor to the
      target node's left anchor, both control points on the vertical
      through the anchors' horizontal midpoint. */
  function EdgePath(e: Edge): (p: CubicPath)
    ensures p.start == RightAnchor(NodeById(e.from))
    ensures p.end == LeftAnchor(NodeById(e.to))
    ensures p.c1.x == p.c2.x == (p.start.x + p.end.x) / 2.0
    ensures p.c1.y == p.start.y && p.c2.y == p.end.y
  {
    var from := NodeById(e.from);
    var to := NodeById(e.to);
    var x1 := from.x + NodeW;
    var y1 := from.y + NodeH / 2.0;
    var x2 := to.x;
    var y2 := to.y + NodeH / 2.0;
    var mx := (x1 + x2) / 2.0;
    CubicPath(Point(x1, y1), Point(mx, y1), Point(mx, y2), Point(x2, y2))
  }

  /** `edgeMidpoint`: the point the flow-rate tag's box is placed on (the
      box's bottom centre). It recomputes the anchors itself rather than
      reading them off the path. */
  function EdgeMidpoint(e: Edge): (m: Point)
    ensures m == Mid(EdgePath(e).start, EdgePath(e).end)
  {
    var from := NodeById(e.from);
    var to := NodeById(e.to);
    var x1 := from.x + NodeW;
    var y1 := from.y + NodeH / 2.0;
    var x2 := to.x;
    var y2 := to.y + NodeH / 2.0;
    Point((x1 + x2) / 2.0, (y1 + y2) / 2.0)
  }

  /** Cubic Bernstein blend of four scalars at parameter t. */
  function Bernstein(a: real, b: real, c: real, d: real, t: real): real
  {
    var s := 1.0 - t;
    s * s * s * a + 3.0 * s * s * t * b + 3.0 * s * t * t * c + t * t * t * d
  }

  /** The point the SVG renderer draws at parameter t of the curve. */
  function CurveAt(p: CubicPath, t: real): Point
  {
    Point(Bernstein(p.start.x, p.c1.x, p.c2.x, p.end.x, t),
          Bernstein(p.start.y, p.c1.y, p.c2.y, p.end.y, t))
  }

  /** The drawn curve really begins and ends at the two node anchors. */
  lemma CurveEndpoints(e: Edge)
    ensures CurveAt(EdgePath(e), 0.0) == RightAnchor(NodeById(e.from))
    ensures CurveAt(EdgePath(e), 1.0) == LeftAnchor(NodeById(e.to))
  {
  }

  /** When the two inner weights sum like the outer ones, the blend at
      1/2 is the average of the outer weights. */
  lemma BernsteinHalf(a: real, b: real, c: real, d: real)
    requires b + c == a + d
    ensures Bernstein(a, b, c, d, 0.5) == (a + d) / 2.0
  {
    calc {
      Bernstein(a, b, c, d, 0.5);
      0.125 * a + 0.375 * b + 0.375 * c + 0.125 * d;
      0.125 * (a + d) + 0.375 * (b + c);
      0.5 * (a + d);
    }
  }

  /** The drawn curve at t = 1/2 passes exactly through `edgeMidpoint`,
      the point the flow-rate tag's box sits on. */
  lemma {:induction false} LabelOnCurve(e: Edge)
    ensures CurveAt(EdgePath(e), 0.5) == EdgeMidpoint(e)
  {
    var p := EdgePath(e);
    BernsteinHalf(p.start.x, p.c1.x, p.c2.x, p.end.x);
    BernsteinHalf(p.start.y, p.c1.y, p.c2.y, p.end.y);
  }

  lemma BernsteinSymmetric(a: real, b: real, c: real, d: real, t: real)
    requires b + c == a + d
    ensures Bernstein(a, b, c, d, t) + Bernstein(a, b, c, d, 1.0 - t) == a + d
  {
    var s := 1.0 - t;
    assert 1.0 - s == t;
    calc {
      Bernstein(a, b, c, d, t) + Bernstein(a, b, c, d, 1.0 - t);
      (s * s * s * a + 3.0 * s * s * t * b + 3.0 * s * t * t * c + t * t * t * d) +
      (t * t * t * a + 3.0 * t * t * s * b + 3.0 * t * s * s * c + s * s * s * d);
      (s * s * s + t * t * t) * (a + d) + 3.0 * s * t * (s + t) * (b + c);
      { assert s + t == 1.0; }
      (s * s * s + t * t * t) * (a + d) + 3.0 * s * t * (a + d);
      (s * s * s + t * t * t + 3.0 * s * t * (s + t)) * (a + d);
      (s + t) * (s + t) * (s + t) * (a + d);
      a + d;
    }
  }

  /** Every edge is a symmetric S-curve: it is point-symmetric about
      `edgeMidpoint`, so the half drawn before that point mirrors the half
      drawn after it. */
  lemma {:induction false} CurvePointSymmetric(e: Edge, t: real)
    ensures Mid(CurveAt(EdgePath(e), t), CurveAt(EdgePath(e), 1.0 - t)) == EdgeMidpoint(e)
  {
    var p := EdgePath(e);
    BernsteinSymmetric(p.start.x, p.c1.x, p.c2.x, p.end.x, t);
    BernsteinSymmetric(p.start.y, p.c1.y, p.c2.y, p.end.y, t);
    MidOfOpposites(CurveAt(p, t), CurveAt(p, 1.0 - t), p.start, p.end);
  }

  /** Two pairs of points with the same coordinate sums share a midpoint. */
  lemma MidOfOpposites(a: Point, b: Point, c: Point, d: Point)
    requires a.x + b.x == c.x + d.x && a.y + b.y == c.y + d.y
    ensures Mid(a, b) == Mid(c, d)
  {
  }

  /** A worked case: edge e1 runs from (190, 75)
      to (230, 170) with both control points at x = 210, and its
      `edgeMidpoint` is (210, 122.5). */
  lemma FirstEdgeGeometry()
    ensures EdgePath(Edges[0]) ==
      CubicPath(Point(190.0, 75.0), Point(210.0, 75.0), Point(210.0, 170.0), Point(230.0, 170.0))
    ensures EdgeMidpoint(Edges[0]) == Point(210.0, 122.5)
  {
    NodeByIdInverse(Nodes[0]);
    NodeByIdInverse(Nodes[3]);
  }

  datatype Rect = Rect(x: real, y: real, width: real, height: real)

  function BottomCentre(r: Rect): Point
  {
    Point(r.x + r.width / 2.0, r.y + r.height)
  }

  /** The flow-rate tag drawn over an active edge: its backing box and
      the anchor of its centred text. */
  datatype FlowTag = FlowTag(box: Rect, text: Point)

  /** A 110 x 18 box whose bottom edge is centred on `edgeMidpoint`, with
      the text anchored 6 units above that bottom edge, horizontally
      centred. */
  function TagFor(e: Edge): (g: FlowTag)
    ensures g.box.width == 110.0 && g.box.height == 18.0
    ensures BottomCentre(g.box) == EdgeMidpoint(e)
    ensures g.text.x == BottomCentre(g.box).x
    ensures g.text.y == BottomCentre(g.box).y - 6.0
  {
    var mid := EdgeMidpoint(e);
    FlowTag(Rect(mid.x - 55.0, mid.y - 18.0, 110.0, 18.0), Point(mid.x, mid.y - 6.0))
  }

  /** The tag rests on the curve: the curve at t = 1/2 is the centre of
      the box's bottom edge, and the text anchor lies inside the box
      straight above that point. */
  lemma TagRestsOnCurve(e: Edge)
    ensures CurveAt(EdgePath(e), 0.5) == BottomCentre(TagFor(e).box)
    ensures var g := TagFor(e);
      && g.text.x == CurveAt(EdgePath(e), 0.5).x
      && g.box.y < g.text.y < g.box.y + g.box.height
  {
    LabelOnCurve(e);
  }

  // ---------------------------------------------------------------------
  // Hover state
  // ---------------------------------------------------------------------

  /** The page's two independent hover slots. */
  datatype Hover = Hover(node: Option<NodeId>, edge: Option<string>)

  const NoHover: Hover := Hover(None, None)

  /** `isEdgeActive`: the edge is hovered, or one of its endpoints is.
      With nothing hovered no edge is active. */
  function IsEdgeActive(h: Hover, e: Edge): (active: bool)
    ensures h == NoHover ==> !active
    ensures h.edge == Some(e.id) ==> active
    ensures h.node.Some? && (h.node.value == e.from || h.node.value == e.to) ==> active
    ensures active && h.edge != Some(e.id) ==> h.node.Some? && h.node.value in {e.from, e.to}
  {
    h.edge == Some(e.id) || h.node == Some(e.from) || h.node == Some(e.to)
  }

  /** `sourceForFeature`: a feature row is highlighted exactly while its
      own source node is the hovered node; hovering an edge, or a node that is not a
      source, highlights no row. */
  function SourceForFeature(h: Hover, nodeId: SourceNodeId): (highlighted: bool)
    ensures highlighted ==> h.node == Some(nodeId)
    ensures highlighted ==> h.node.Some? && IsSourceId(h.node.value)
    ensures h.node.None? || !IsSourceId(h.node.value) ==> !highlighted
    ensures h.node == Some(nodeId) ==> highlighted
  {
    h.node == Some(nodeId)
  }

  predicate FeatureHighlighted(h: Hover, f: Feature)
  {
    SourceForFeature(h, f.nodeId)
  }

  /** A node's border, system name and subtitle switch to their hover
      colours while that node is the hovered one, whatever edge is
      hovered. */
  function NodeEmphasised(h: Hover, n: Node): (emphasised: bool)
    ensures h.node.None? ==> !emphasised
    ensures emphasised ==> h.node.value == n.id
    ensures h.node == Some(n.id) ==> emphasised
  {
    h.node == Some(n.id)
  }

  /** The set of ids of the edges drawn as active (each with its flow-rate
      tag); the page never builds this set, it only asks each edge. */
  function ActiveEdgeIds(h: Hover): (ids: set<string>)
    ensures forall k :: 0 <= k < |Edges| ==> (Edges[k].id in ids <==> IsEdgeActive(h, Edges[k]))
    ensures forall id :: id in ids ==>
      exists k :: 0 <= k < |Edges| && Edges[k].id == id && IsEdgeActive(h, Edges[k])
  {
    IdsUnique();
    set k | 0 <= k < |Edges| && IsEdgeActive(h, Edges[k]) :: Edges[k].id
  }

  lemma NothingHoveredNothingActive()
    ensures ActiveEdgeIds(NoHover) == {}
  {
  }

  /** Every edge touches the foundation engine, so hovering it lights
      the whole graph. */
  lemma HubLightsEveryEdge(edge: Option<string>)
    ensures forall k :: 0 <= k < |Edges| ==> IsEdgeActive(Hover(Some(FoundationEngine), edge), Edges[k])
    ensures ActiveEdgeIds(Hover(Some(FoundationEngine), edge)) == {"e1", "e2", "e3", "e4"}
  {
    var ids := ActiveEdgeIds(Hover(Some(FoundationEngine), edge));
    assert Edges[0].id in ids && Edges[1].id in ids && Edges[2].id in ids && Edges[3].id in ids;
  }

  /** Hovering a source node lights exactly its one outgoing edge. */
  lemma SourceHoverLightsOneEdge(k: int)
    requires 0 <= k < 3
    ensures ActiveEdgeIds(Hover(Some(Edges[k].from), None)) == {Edges[k].id}
  {
    var ids := ActiveEdgeIds(Hover(Some(Edges[k].from), None));
    assert Edges[k].id in ids;
  }

  /** Hovering one edge's hit area alone lights only that edge. */
  lemma EdgeHoverLightsOnlyIt(k: int)
    requires 0 <= k < |Edges|
    ensures forall j :: 0 <= j < |Edges| ==> (IsEdgeActive(Hover(None, Some(Edges[k].id)), Edges[j]) <==> j == k)
  {
    IdsUnique();
  }

  /** Hovering only ever adds lit edges: filling an empty slot keeps every
      edge that was already active. */
  lemma HoverMonotone(h: Hover, n: NodeId, id: string)
    ensures h.node.None? ==> ActiveEdgeIds(h) <= ActiveEdgeIds(Hover(Some(n), h.edge))
    ensures h.edge.None? ==> ActiveEdgeIds(h) <= ActiveEdgeIds(Hover(h.node, Some(id)))
  {
  }

  // ---------------------------------------------------------------------
  // Hover transitions
  // ---------------------------------------------------------------------

  datatype PointerEvent =
    | EnterNode(node: NodeId)
    | LeaveNode
    | EnterEdge(edge: string)
    | LeaveEdge
    | EnterFeature(feature: Feature)
    | LeaveFeature

  /** The `onMouseEnter`/`onMouseLeave` handlers: node and feature events
      write only the node slot, edge events only the edge slot, and a
      leave always clears its slot. */
  function Step(h: Hover, ev: PointerEvent): (h': Hover)
    ensures (ev.EnterEdge? || ev.LeaveEdge?) ==> h'.node == h.node
    ensures !(ev.EnterEdge? || ev.LeaveEdge?) ==> h'.edge == h.edge
    ensures (ev.LeaveNode? || ev.LeaveFeature?) ==> h'.node.None?
    ensures ev.LeaveEdge? ==> h'.edge.None?
    ensures ev.EnterNode? ==> h'.node == Some(ev.node)
    ensures ev.EnterFeature? ==> h'.node == Some(ev.feature.nodeId)
    ensures ev.EnterEdge? ==> h'.edge == Some(ev.edge)
  {
    match ev
    case EnterNode(n) => h.(node := Some(n))
    case LeaveNode => h.(node := None)
    case EnterEdge(id) => h.(edge := Some(id))
    case LeaveEdge => h.(edge := None)
    case EnterFeature(f) => h.(node := Some(f.nodeId))
    case LeaveFeature => h.(node := None)
  }

  lemma FeatureNodesDistinct()
    ensures forall i, j :: 0 <= i < j < |Features| ==> Features[i].nodeId != Features[j].nodeId
  {
  }

  /** Hovering a feature row highlights that row and no other, emphasises
      its source node in the graph and lights that node's outgoing edge;
      leaving the row undoes the highlight and the emphasis. */
  lemma FeatureHoverRoundTrip(h: Hover, i: int)
    requires 0 <= i < |Features|
    ensures var h1 := Step(h, EnterFeature(Features[i]));
      && (forall j :: 0 <= j < |Features| ==> (FeatureHighlighted(h1, Features[j]) <==> j == i))
      && NodeEmphasised(h1, NodeById(Features[i].nodeId))
      && IsEdgeActive(h1, Edges[i])
    ensures var h2 := Step(Step(h, EnterFeature(Features[i])), LeaveFeature);
      && (forall j :: 0 <= j < |Features| ==> !FeatureHighlighted(h2, Features[j]))
      && (forall k :: 0 <= k < |Nodes| ==> !NodeEmphasised(h2, Nodes[k]))
      && h2.edge == h.edge
  {
    FeatureNodesDistinct();
  }

  /** The two panels agree: a graph node is emphasised exactly when the
      feature row that points at it is highlighted, and hovering a node
      with no feature row (transform, output) highlights no row. */
  lemma PanelsAgree(h: Hover)
    ensures forall j :: 0 <= j < |Features| ==>
      (FeatureHighlighted(h, Features[j]) <==> NodeEmphasised(h, NodeById(Features[j].nodeId)))
    ensures h.node == Some(FoundationEngine) || h.node == Some(SupplyChainDp) ==>
      forall j :: 0 <= j < |Features| ==> !FeatureHighlighted(h, Features[j])
  {
  }

  /** At most one node is emphasised at a time. */
  lemma AtMostOneNodeEmphasised(h: Hover)
    ensures forall i, j :: (0 <= i < |Nodes| && 0 <= j < |Nodes| &&
                            NodeEmphasised(h, Nodes[i]) && NodeEmphasised(h, Nodes[j])) ==> i == j
  {
    IdsUnique();
  }
}
