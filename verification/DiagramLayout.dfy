/** Normalisation, columns, canvas size and box positions of `diagram_spec_to_svg`. */
module DiagramLayout {
  import opened DiagramGraph
  import opened DiagramLayering
  import opened StableSort

  /** An entry of the `nodes` list; `id` is already stringified and stripped. */
  datatype RawNode = NotANode | NodeEntry(id: Id)

  /** An entry of the `edges` list; both ends are already stringified and stripped. */
  datatype RawEdge = NotAnEdge | EdgeEntry(src: Id, dst: Id)

  datatype Sizes = Sizes(margin: int, nodeW: int, nodeH: int, gapX: int, gapY: int, titleH: int)

  datatype Point = Point(x: int, y: int)

  datatype Diagram = Diagram(graph: Graph, layer: map<Id, int>, cols: seq<seq<Id>>, width: int, height: int, pos: map<Id, Point>)

  const DEFAULT_NODES: seq<RawNode> :=
    [NodeEntry("agent"), NodeEntry("mcp"), NodeEntry("gw"), NodeEntry("ext"), NodeEntry("tab")]

  const DEFAULT_EDGES: seq<RawEdge> :=
    [EdgeEntry("agent", "mcp"), EdgeEntry("mcp", "gw"), EdgeEntry("gw", "ext"), EdgeEntry("ext", "tab")]

  // ---- Normalisation ----

  /** The first entry of every non-blank id, in order. */
  function NodeIds(raw: seq<RawNode>): (ids: seq<Id>) {
    if raw == [] then []
    else
      var ids, last := NodeIds(raw[..|raw| - 1]), raw[|raw| - 1];
      if last.NodeEntry? && last.id != "" && last.id !in ids then ids + [last.id] else ids
  }

  lemma {:induction false} NodeIdsExact(raw: seq<RawNode>)
    ensures Distinct(NodeIds(raw))
    ensures forall v :: v in NodeIds(raw) <==> v != "" && NodeEntry(v) in raw
  {
    if raw != [] {
      var front, last := raw[..|raw| - 1], raw[|raw| - 1];
      NodeIdsExact(front);
      assert raw == front + [last];
    }
  }

  /** Earlier entries decide the order: what a prefix of the list contributes comes first. */
  lemma {:induction false} NodeIdsInOrder(raw: seq<RawNode>, k: nat)
    requires k <= |raw|
    ensures NodeIds(raw[..k]) <= NodeIds(raw)
  {
    if k == |raw| {
      assert raw[..k] == raw;
    } else {
      var front := raw[..|raw| - 1];
      assert front[..k] == raw[..k];
      NodeIdsInOrder(front, k);
    }
  }

  /** Edges between known nodes, in order; parallel edges and self-loops stay. */
  function KnownEdges(raw: seq<RawEdge>, nodes: seq<Id>): (edges: seq<Edge>) {
    if raw == [] then []
    else
      var edges, last := KnownEdges(raw[..|raw| - 1], nodes), raw[|raw| - 1];
      if last.EdgeEntry? && last.src != "" && last.dst != "" && last.src in nodes && last.dst in nodes
      then edges + [Edge(last.src, last.dst)]
      else edges
  }

  /** Exactly the occurrences with two known ends survive. */
  lemma {:induction false} KnownEdgesExact(raw: seq<RawEdge>, nodes: seq<Id>, e: Edge)
    requires "" !in nodes
    ensures multiset(KnownEdges(raw, nodes))[e]
         == if e.src in nodes && e.dst in nodes then multiset(raw)[EdgeEntry(e.src, e.dst)] else 0
  {
    if raw != [] {
      var front, last := raw[..|raw| - 1], raw[|raw| - 1];
      KnownEdgesExact(front, nodes, e);
      assert raw == front + [last];
    }
  }

  /** Earlier entries come first here too. */
  lemma {:induction false} KnownEdgesInOrder(raw: seq<RawEdge>, nodes: seq<Id>, k: nat)
    requires k <= |raw|
    ensures KnownEdges(raw[..k], nodes) <= KnownEdges(raw, nodes)
  {
    if k == |raw| {
      assert raw[..k] == raw;
    } else {
      var front := raw[..|raw| - 1];
      assert front[..k] == raw[..k];
      KnownEdgesInOrder(front, nodes, k);
    }
  }

  /** The graph that is drawn: an empty node list stands for the built-in example. */
  function GraphOf(nodes: seq<RawNode>, edges: seq<RawEdge>): Graph {
    if nodes == [] then Graph(NodeIds(DEFAULT_NODES), KnownEdges(DEFAULT_EDGES, NodeIds(DEFAULT_NODES)))
    else Graph(NodeIds(nodes), KnownEdges(edges, NodeIds(nodes)))
  }

  lemma {:induction false} DistinctNodeIds(ids: seq<Id>)
    requires Distinct(ids) && "" !in ids
    ensures NodeIds(seq(|ids|, i requires 0 <= i < |ids| => NodeEntry(ids[i]))) == ids
  {
    if ids != [] {
      var front, raw := ids[..|ids| - 1], seq(|ids|, i requires 0 <= i < |ids| => NodeEntry(ids[i]));
      DistinctNodeIds(front);
      assert raw[..|raw| - 1] == seq(|front|, i requires 0 <= i < |front| => NodeEntry(front[i]));
    }
  }

  lemma {:induction false} JoinedEdges(edges: seq<Edge>, nodes: seq<Id>)
    requires "" !in nodes && forall i :: 0 <= i < |edges| ==> edges[i].src in nodes && edges[i].dst in nodes
    ensures KnownEdges(seq(|edges|, i requires 0 <= i < |edges| => EdgeEntry(edges[i].src, edges[i].dst)), nodes) == edges
  {
    if edges != [] {
      var front := edges[..|edges| - 1];
      var raw := seq(|edges|, i requires 0 <= i < |edges| => EdgeEntry(edges[i].src, edges[i].dst));
      JoinedEdges(front, nodes);
      assert raw[..|raw| - 1] == seq(|front|, i requires 0 <= i < |front| => EdgeEntry(front[i].src, front[i].dst));
    }
  }

  const EXAMPLE := Graph(["agent", "mcp", "gw", "ext", "tab"],
                         [Edge("agent", "mcp"), Edge("mcp", "gw"), Edge("gw", "ext"), Edge("ext", "tab")])

  /** The nodes are the non-blank ids, once each, and the edges the occurrences between two of them; only
      for an empty node list, whatever edges come with it, the example chain is drawn. */
  lemma GraphMeans(nodes: seq<RawNode>, edges: seq<RawEdge>)
    ensures var g := GraphOf(nodes, edges);
            if nodes == [] then g == EXAMPLE
            else
              && Distinct(g.nodes) && (forall v :: v in g.nodes <==> v != "" && NodeEntry(v) in nodes)
              && forall e :: multiset(g.edges)[e]
                          == if e.src in g.nodes && e.dst in g.nodes then multiset(edges)[EdgeEntry(e.src, e.dst)] else 0
  {
    if nodes == [] {
      var ids, es := EXAMPLE.nodes, EXAMPLE.edges;
      assert DEFAULT_NODES == seq(|ids|, i requires 0 <= i < |ids| => NodeEntry(ids[i]));
      DistinctNodeIds(ids);
      assert DEFAULT_EDGES == seq(|es|, i requires 0 <= i < |es| => EdgeEntry(es[i].src, es[i].dst));
      JoinedEdges(es, ids);
    } else {
      NodeIdsExact(nodes);
      forall e
        ensures multiset(KnownEdges(edges, NodeIds(nodes)))[e]
             == if e.src in NodeIds(nodes) && e.dst in NodeIds(nodes) then multiset(edges)[EdgeEntry(e.src, e.dst)] else 0
      {
        KnownEdgesExact(edges, NodeIds(nodes), e);
      }
    }
  }

  method Normalize(nodesIn: seq<RawNode>, edgesIn: seq<RawEdge>) returns (g: Graph)
    ensures g == GraphOf(nodesIn, edgesIn)
    ensures WellFormed(g)
  {
    var rawNodes, rawEdges := nodesIn, edgesIn;
    if rawNodes == [] {
      rawNodes, rawEdges := DEFAULT_NODES, DEFAULT_EDGES;
    }
    var ids: seq<Id> := [];
    for k := 0 to |rawNodes|
      invariant ids == NodeIds(rawNodes[..k])
    {
      assert rawNodes[..k + 1][..k] == rawNodes[..k];
      if rawNodes[k].NodeEntry? && rawNodes[k].id != "" && rawNodes[k].id !in ids {
        ids := ids + [rawNodes[k].id];
      }
    }
    assert rawNodes[..|rawNodes|] == rawNodes;
    NodeIdsExact(rawNodes);
    var edges: seq<Edge> := [];
    for k := 0 to |rawEdges|
      invariant edges == KnownEdges(rawEdges[..k], ids)
      invariant forall e :: e in edges ==> e.src in ids && e.dst in ids
    {
      assert rawEdges[..k + 1][..k] == rawEdges[..k];
      var e := rawEdges[k];
      if e.EdgeEntry? && e.src != "" && e.dst != "" && e.src in ids && e.dst in ids {
        edges := edges + [Edge(e.src, e.dst)];
      }
    }
    assert rawEdges[..|rawEdges|] == rawEdges;
    g := Graph(ids, edges);
  }

  // ---- Columns ----

  /** The nodes of one layer, in node order. */
  function Column(nodes: seq<Id>, layer: map<Id, int>, c: int): (col: seq<Id>)
    requires forall v :: v in nodes ==> v in layer
  {
    if nodes == [] then []
    else
      var front, last := nodes[..|nodes| - 1], nodes[|nodes| - 1];
      assert nodes == front + [last];
      Column(front, layer, c) + (if layer[last] == c then [last] else [])
  }

  lemma {:induction false} ColumnExact(nodes: seq<Id>, layer: map<Id, int>, c: int)
    requires Distinct(nodes) && forall v :: v in nodes ==> v in layer
    ensures Distinct(Column(nodes, layer, c))
    ensures forall v :: v in Column(nodes, layer, c) <==> v in nodes && layer[v] == c
  {
    if nodes != [] {
      var front, last := nodes[..|nodes| - 1], nodes[|nodes| - 1];
      assert nodes == front + [last];
      ColumnExact(front, layer, c);
      assert last !in front;
    }
  }

  /** Earlier nodes stand above later ones. */
  lemma {:induction false} ColumnInOrder(nodes: seq<Id>, layer: map<Id, int>, c: int, k: nat)
    requires k <= |nodes| && forall v :: v in nodes ==> v in layer
    ensures Column(nodes[..k], layer, c) <= Column(nodes, layer, c)
  {
    if k == |nodes| {
      assert nodes[..k] == nodes;
    } else {
      var front := nodes[..|nodes| - 1];
      assert front[..k] == nodes[..k];
      ColumnInOrder(front, layer, c, k);
    }
  }

  /** The columns: one per layer up to `top`, the highest layer in use. */
  ghost predicate InColumns(nodes: seq<Id>, layer: map<Id, int>, top: int, cols: seq<seq<Id>>) {
    && (forall v :: v in nodes ==> v in layer && 0 <= layer[v] <= top)
    && (forall c :: 0 <= c < |cols| ==> cols[c] == Column(nodes, layer, c))
    && |cols| == top + 1
  }

  /** `max(layer.values())`, or 0 for an empty diagram. */
  method HighestLayer(nodes: seq<Id>, layer: map<Id, int>) returns (top: int)
    requires forall v :: v in nodes ==> v in layer && layer[v] >= 0
    ensures top >= 0 && forall v :: v in nodes ==> layer[v] <= top
    ensures nodes != [] ==> exists v :: v in nodes && layer[v] == top
    ensures nodes == [] ==> top == 0
  {
    top := 0;
    for k := 0 to |nodes|
      invariant top >= 0 && forall v :: v in nodes[..k] ==> layer[v] <= top
      invariant if k == 0 then top == 0 else exists v :: v in nodes[..k] && layer[v] == top
    {
      assert nodes[..k + 1] == nodes[..k] + [nodes[k]];
      if k == 0 || layer[nodes[k]] > top {
        top := layer[nodes[k]];
      }
    }
    assert nodes[..|nodes|] == nodes;
  }

  method FillColumns(nodes: seq<Id>, layer: map<Id, int>, top: int) returns (cols: seq<seq<Id>>)
    requires top >= 0 && forall v :: v in nodes ==> v in layer && 0 <= layer[v] <= top
    ensures InColumns(nodes, layer, top, cols)
  {
    cols := seq(top + 1, c => []);
    for k := 0 to |nodes|
      invariant |cols| == top + 1
      invariant forall c :: 0 <= c < |cols| ==> cols[c] == Column(nodes[..k], layer, c)
    {
      assert nodes[..k + 1][..k] == nodes[..k];
      var c := Min(top, Max(0, layer[nodes[k]]));
      cols := cols[c := cols[c] + [nodes[k]]];
    }
    assert nodes[..|nodes|] == nodes;
  }

  function Min(a: int, b: int): int {
    if a <= b then a else b
  }

  // ---- Canvas and positions ----

  function ColumnX(s: Sizes, c: int): int {
    s.margin + c * (s.nodeW + s.gapX)
  }

  function RowY(s: Sizes, r: int): int {
    s.margin + s.titleH + r * (s.nodeH + s.gapY)
  }

  function CanvasWidth(s: Sizes, columns: int): int {
    s.margin * 2 + columns * s.nodeW + Max(0, columns - 1) * s.gapX
  }

  function CanvasHeight(s: Sizes, rows: int): int {
    s.margin * 2 + s.titleH + rows * s.nodeH + Max(0, rows - 1) * s.gapY
  }

  /** The number of rows of the tallest column. */
  method TallestColumn(cols: seq<seq<Id>>) returns (rows: int)
    requires cols != []
    ensures rows >= 0 && (forall c :: 0 <= c < |cols| ==> |cols[c]| <= rows)
    ensures exists c :: 0 <= c < |cols| && |cols[c]| == rows
  {
    rows := |cols[0]|;
    ghost var tallest := 0;
    for k := 1 to |cols|
      invariant forall c :: 0 <= c < k ==> |cols[c]| <= rows
      invariant 0 <= tallest < k && |cols[tallest]| == rows
    {
      if |cols[k]| > rows {
        rows := |cols[k]|;
        tallest := k;
      }
    }
  }

  /** Every listed node sits at the grid point of its column and row, and nothing else is placed. */
  ghost predicate OnGrid(s: Sizes, cols: seq<seq<Id>>, pos: map<Id, Point>) {
    && (forall v :: v in pos ==> HasCell(cols, v))
    && CellsPlaced(s, cols, pos, |cols|)
  }

  /** The first n columns are placed. */
  ghost predicate CellsPlaced(s: Sizes, cols: seq<seq<Id>>, pos: map<Id, Point>, n: int) {
    forall c, r, v :: Cell(cols, c, r, v) && c < n ==> v in pos && pos[v] == Point(ColumnX(s, c), RowY(s, r))
  }

  ghost predicate Cell(cols: seq<seq<Id>>, c: int, r: int, v: Id) {
    0 <= c < |cols| && 0 <= r < |cols[c]| && cols[c][r] == v
  }

  ghost predicate HasCell(cols: seq<seq<Id>>, v: Id) {
    exists c, r :: Cell(cols, c, r, v)
  }

  /** No node has two cells. */
  ghost predicate NoDoubles(cols: seq<seq<Id>>) {
    forall c, r, c', r', v :: Cell(cols, c, r, v) && Cell(cols, c', r', v) ==> c == c' && r == r'
  }

  method PlaceNodes(s: Sizes, cols: seq<seq<Id>>) returns (pos: map<Id, Point>)
    requires NoDoubles(cols)
    ensures OnGrid(s, cols, pos)
  {
    pos := map[];
    for c := 0 to |cols|
      invariant forall v :: v in pos ==> HasCell(cols, v)
      invariant CellsPlaced(s, cols, pos, c)
    {
      var col := cols[c];
      for r := 0 to |col|
        invariant forall v :: v in pos ==> HasCell(cols, v)
        invariant CellsPlaced(s, cols, pos, c)
        invariant forall r0, v :: Cell(cols, c, r0, v) && r0 < r ==>
          v in pos && pos[v] == Point(ColumnX(s, c), RowY(s, r0))
      {
        assert Cell(cols, c, r, col[r]);
        pos := pos[col[r] := Point(ColumnX(s, c), RowY(s, r))];
      }
    }
  }

  lemma ColumnsHaveNoDoubles(nodes: seq<Id>, layer: map<Id, int>, top: int, cols: seq<seq<Id>>)
    requires Distinct(nodes) && InColumns(nodes, layer, top, cols)
    ensures NoDoubles(cols)
    ensures forall c, r, v :: Cell(cols, c, r, v) ==> v in nodes && layer[v] == c
    ensures forall v :: v in nodes ==> exists r :: Cell(cols, layer[v], r, v)
  {
    forall c, r, v | Cell(cols, c, r, v)
      ensures v in nodes && layer[v] == c
    {
      ColumnExact(nodes, layer, c);
      assert v in cols[c];
    }
    forall c, r, c', r', v | Cell(cols, c, r, v) && Cell(cols, c', r', v)
      ensures c == c' && r == r'
    {
      ColumnExact(nodes, layer, c);
    }
    forall v | v in nodes
      ensures exists r :: Cell(cols, layer[v], r, v)
    {
      ColumnExact(nodes, layer, layer[v]);
      var r :| 0 <= r < |cols[layer[v]]| && cols[layer[v]][r] == v;
      assert Cell(cols, layer[v], r, v);
    }
  }

  // ---- The whole layout ----

  /** Where the nodes are: node v in column layer[v] and row row[v] of a grid with the given
      numbers of columns and rows, no two nodes in one cell. */
  ghost predicate Gridded(s: Sizes, d: Diagram, row: map<Id, int>, rows: int) {
    && d.pos.Keys == row.Keys == d.layer.Keys
    && (forall v :: v in d.pos ==> d.pos[v] == Point(ColumnX(s, d.layer[v]), RowY(s, row[v])))
    && (forall v :: v in d.pos ==> 0 <= d.layer[v] < |d.cols| && 0 <= row[v] < rows)
    && (forall u, v :: u in d.pos && v in d.pos && u != v ==> d.layer[u] != d.layer[v] || row[u] != row[v])
  }

  ghost predicate Canvas(s: Sizes, d: Diagram, rows: int) {
    d.width == CanvasWidth(s, |d.cols|) && d.height == CanvasHeight(s, rows)
  }

  lemma GridFromColumns(s: Sizes, d: Diagram, rows: int) returns (row: map<Id, int>)
    requires Distinct(d.graph.nodes) && d.layer.Keys == Elements(d.graph.nodes)
    requires InColumns(d.graph.nodes, d.layer, |d.cols| - 1, d.cols) && OnGrid(s, d.cols, d.pos)
    requires forall c :: 0 <= c < |d.cols| ==> |d.cols[c]| <= rows
    ensures Gridded(s, d, row, rows)
    ensures forall c, r, v :: Cell(d.cols, c, r, v) ==> v in row && row[v] == r
  {
    ColumnsHaveNoDoubles(d.graph.nodes, d.layer, |d.cols| - 1, d.cols);
    assert forall v :: v in d.layer <==> v in d.graph.nodes;
    row := map v | v in d.layer :: var r :| Cell(d.cols, d.layer[v], r, v); r;
    forall v | v in d.pos
      ensures v in d.layer
    {
      var c, r :| Cell(d.cols, c, r, v);
    }
    assert forall v :: v in d.layer ==> Cell(d.cols, d.layer[v], row[v], v);
  }

  /** The last column and the last row are in use. */
  ghost predicate UsesAll(d: Diagram, row: map<Id, int>, rows: int) {
    && (exists v :: v in d.layer && d.layer[v] == |d.cols| - 1)
    && exists v :: v in row && row[v] == rows - 1
  }

  lemma LastRowUsed(d: Diagram, row: map<Id, int>, rows: int)
    requires exists v :: v in d.layer && d.layer[v] == |d.cols| - 1
    requires exists c :: 0 <= c < |d.cols| && |d.cols[c]| == rows
    requires forall c :: 0 <= c < |d.cols| ==> |d.cols[c]| <= rows
    requires forall c, r, v :: Cell(d.cols, c, r, v) ==> v in row && row[v] == r
    requires exists c, r, v :: Cell(d.cols, c, r, v)
    ensures UsesAll(d, row, rows)
  {
    var c :| 0 <= c < |d.cols| && |d.cols[c]| == rows;
    assert Cell(d.cols, c, rows - 1, d.cols[c][rows - 1]);
  }

  method LayoutDiagram(nodesIn: seq<RawNode>, edgesIn: seq<RawEdge>, s: Sizes)
    returns (d: Diagram, ghost order: seq<Id>, ghost row: map<Id, int>, ghost rows: int)
    ensures d.graph == GraphOf(nodesIn, edgesIn)
    ensures WellFormed(d.graph) && Layered(d.graph, order, d.layer)
    ensures InColumns(d.graph.nodes, d.layer, |d.cols| - 1, d.cols) && d.cols != []
    ensures Gridded(s, d, row, rows) && Canvas(s, d, rows)
    ensures d.graph.nodes != [] ==> UsesAll(d, row, rows)
  {
    var g := Normalize(nodesIn, edgesIn);
    var layer, visited;
    ghost var relaxed;
    layer, visited, order, relaxed := ComputeLayers(g);
    var cols, width, height, pos;
    cols, width, height, pos, rows := Place(g.nodes, layer, s);
    d := Diagram(g, layer, cols, width, height, pos);
    row := GridFromColumns(s, d, rows);
    if g.nodes != [] {
      LastRowUsed(d, row, rows);
    }
  }

  /** Columns, canvas and positions for given layers. */
  method Place(nodes: seq<Id>, layer: map<Id, int>, s: Sizes)
    returns (cols: seq<seq<Id>>, width: int, height: int, pos: map<Id, Point>, ghost tallest: int)
    requires Distinct(nodes) && layer.Keys == Elements(nodes)
    requires forall v :: v in layer ==> layer[v] >= 0
    ensures cols != [] && InColumns(nodes, layer, |cols| - 1, cols) && OnGrid(s, cols, pos)
    ensures nodes != [] ==> exists v :: v in nodes && layer[v] == |cols| - 1
    ensures forall c :: 0 <= c < |cols| ==> |cols[c]| <= tallest
    ensures exists c :: 0 <= c < |cols| && |cols[c]| == tallest
    ensures width == CanvasWidth(s, |cols|)
    ensures height == CanvasHeight(s, tallest)
  {
    assert forall v :: v in nodes ==> v in layer;
    var top := HighestLayer(nodes, layer);
    cols := FillColumns(nodes, layer, top);
    ColumnsHaveNoDoubles(nodes, layer, top, cols);
    var rows := TallestColumn(cols);
    tallest := rows;
    width := s.margin * 2 + (top + 1) * s.nodeW + Max(0, top) * s.gapX;
    height := s.margin * 2 + s.titleH + rows * s.nodeH + Max(0, rows - 1) * s.gapY;
    pos := PlaceNodes(s, cols);
  }

  // ---- Geometry ----

  lemma {:induction false} GridOrder(a: int, b: int, step: int)
    requires a <= b && step >= 0
    ensures a * step <= b * step
    ensures a < b ==> a * step + step <= b * step
    decreases b - a
  {
    if a < b {
      GridOrder(a, b - 1, step);
      assert b * step == (b - 1) * step + step;
    }
  }

  /** The full gap lies between the two boxes, from side to side or from top to bottom. */
  ghost predicate Apart(s: Sizes, p: Point, q: Point) {
    || p.x + s.nodeW + s.gapX <= q.x || q.x + s.nodeW + s.gapX <= p.x
    || p.y + s.nodeH + s.gapY <= q.y || q.y + s.nodeH + s.gapY <= p.y
  }

  ghost predicate Inside(s: Sizes, d: Diagram, p: Point) {
    && s.margin <= p.x && p.x + s.nodeW <= d.width - s.margin
    && s.margin + s.titleH <= p.y && p.y + s.nodeH <= d.height - s.margin
  }

  /** Positive boxes and non-negative gaps; margins and title height are arbitrary. */
  ghost predicate Sensible(s: Sizes) {
    s.nodeW > 0 && s.nodeH > 0 && s.gapX >= 0 && s.gapY >= 0
  }

  lemma BoxesApart(s: Sizes, p: Point, q: Point, c: int, c': int, r: int, r': int)
    requires p == Point(ColumnX(s, c), RowY(s, r)) && q == Point(ColumnX(s, c'), RowY(s, r')) && Sensible(s)
    requires c != c' || r != r'
    ensures Apart(s, p, q)
  {
    if c < c' {
      GridOrder(c, c', s.nodeW + s.gapX);
    } else if c > c' {
      GridOrder(c', c, s.nodeW + s.gapX);
    } else if r < r' {
      GridOrder(r, r', s.nodeH + s.gapY);
    } else {
      GridOrder(r', r, s.nodeH + s.gapY);
    }
  }

  lemma GridExtent(k: int, n: int, size: int, gap: int)
    requires 0 <= k < n && size >= 0 && gap >= 0
    ensures 0 <= k * (size + gap)
    ensures k * (size + gap) + size <= n * size + (n - 1) * gap
  {
    GridOrder(0, k, size + gap);
    GridOrder(k, n - 1, size + gap);
    assert (n - 1) * (size + gap) + size == n * size + (n - 1) * gap;
  }

  lemma BoxInside(s: Sizes, d: Diagram, row: map<Id, int>, rows: int, v: Id)
    requires Gridded(s, d, row, rows) && Canvas(s, d, rows) && Sensible(s) && v in d.pos
    ensures Inside(s, d, d.pos[v])
  {
    GridExtent(d.layer[v], |d.cols|, s.nodeW, s.gapX);
    GridExtent(row[v], rows, s.nodeH, s.gapY);
  }

  /** The canvas is no larger than its boxes need: the last column ends at the right margin, the last row
      at the lower one, and the first ones begin at the other two. */
  lemma CanvasTight(s: Sizes, d: Diagram, row: map<Id, int>, rows: int, v: Id)
    requires Gridded(s, d, row, rows) && Canvas(s, d, rows) && v in d.pos
    ensures d.layer[v] == |d.cols| - 1 ==> d.pos[v].x + s.nodeW == d.width - s.margin
    ensures row[v] == rows - 1 ==> d.pos[v].y + s.nodeH == d.height - s.margin
    ensures d.layer[v] == 0 ==> d.pos[v].x == s.margin
    ensures row[v] == 0 ==> d.pos[v].y == s.margin + s.titleH
  {
    Steps(|d.cols|, s.nodeW, s.gapX);
    Steps(rows, s.nodeH, s.gapY);
  }

  lemma Steps(n: int, size: int, gap: int)
    ensures (n - 1) * (size + gap) + size == n * size + (n - 1) * gap
  {
  }

  ghost predicate PointsRight(s: Sizes, d: Diagram, e: Edge) {
    e.src in d.pos && e.dst in d.pos && d.pos[e.dst].x >= d.pos[e.src].x + s.nodeW + s.gapX
  }

  lemma EdgeRightIffLayerIncreases(s: Sizes, d: Diagram, row: map<Id, int>, rows: int, e: Edge)
    requires Gridded(s, d, row, rows) && Sensible(s) && e.src in d.layer && e.dst in d.layer
    ensures PointsRight(s, d, e) <==> d.layer[e.src] < d.layer[e.dst]
  {
    if d.layer[e.src] < d.layer[e.dst] {
      GridOrder(d.layer[e.src], d.layer[e.dst], s.nodeW + s.gapX);
    } else {
      GridOrder(d.layer[e.dst], d.layer[e.src], s.nodeW + s.gapX);
    }
  }

  /** The layout theorem: every node is placed once, boxes are disjoint and on the canvas, and all
      arrows run left to right, with the full gap, exactly when the diagram has no cycle. */
  lemma LayoutSound(s: Sizes, d: Diagram, order: seq<Id>, row: map<Id, int>, rows: int)
    requires WellFormed(d.graph) && Layered(d.graph, order, d.layer)
    requires Gridded(s, d, row, rows) && Canvas(s, d, rows) && Sensible(s)
    ensures d.pos.Keys == Elements(d.graph.nodes)
    ensures forall u, v :: u in d.pos && v in d.pos && u != v ==> Apart(s, d.pos[u], d.pos[v])
    ensures forall v :: v in d.pos ==> Inside(s, d, d.pos[v])
    ensures Acyclic(d.graph.edges) <==> forall e :: e in d.graph.edges ==> PointsRight(s, d, e)
    ensures forall e :: e in d.graph.edges && e.src in order ==> PointsRight(s, d, e)
  {
    forall u, v | u in d.pos && v in d.pos && u != v
      ensures Apart(s, d.pos[u], d.pos[v])
    {
      BoxesApart(s, d.pos[u], d.pos[v], d.layer[u], d.layer[v], row[u], row[v]);
    }
    forall v | v in d.pos
      ensures Inside(s, d, d.pos[v])
    {
      BoxInside(s, d, row, rows, v);
    }
    EdgesRightward(s, d, order, row, rows);
  }

  lemma EdgesRightward(s: Sizes, d: Diagram, order: seq<Id>, row: map<Id, int>, rows: int)
    requires WellFormed(d.graph) && Layered(d.graph, order, d.layer)
    requires Gridded(s, d, row, rows) && Sensible(s)
    ensures Acyclic(d.graph.edges) <==> forall e :: e in d.graph.edges ==> PointsRight(s, d, e)
    ensures forall e :: e in d.graph.edges && e.src in order ==> PointsRight(s, d, e)
  {
    RightwardIffAcyclic(d.graph, order, d.layer);
    forall e | e in d.graph.edges
      ensures e.src in d.layer && e.dst in d.layer && (PointsRight(s, d, e) <==> d.layer[e.src] < d.layer[e.dst])
    {
      assert e.src in Elements(d.graph.nodes) && e.dst in Elements(d.graph.nodes);
      EdgeRightIffLayerIncreases(s, d, row, rows, e);
    }
  }
}
