/** The self-pruning navigation graph (`note_nav_graph_observation` in `session_manager.py`). */
module NavGraph {
  import opened Wire
  import opened Ranking
  import SetFacts
  import StableSort

  datatype Node = Node(url: string, title: Option<string>, firstSeenAt: int, visits: int, lastSeenAt: int)

  datatype EdgeKey = EdgeKey(src: string, dst: string, kind: string, caption: Option<string>, ref: Option<string>)

  datatype Edge = Edge(key: EdgeKey, count: int, firstSeenAt: int, lastSeenAt: int)

  datatype Graph = Graph(nodes: map<string, Node>, edges: map<string, Edge>, current: Option<string>)

  const EMPTY := Graph(map[], map[], None)

  /** The digests that name nodes and edges; nothing is assumed of them, not even that they are
      injective. */
  datatype Naming = Naming(nodeId: string -> string, edgeId: EdgeKey -> string)

  /** A link affordance; its target is already redacted. */
  datatype Link = Link(to: string, caption: Option<string>, ref: Option<string>)

  datatype Limits = Limits(maxNodes: int, maxEdges: int)

  /** One observation at time `now`, with the limits its caller asks for; unusable list entries are None. */
  datatype Observation = Observation(url: string, title: Option<string>, links: seq<Option<Link>>, now: int, limits: Limits)

  const MAX_LINKS := 50

  function Clamp(lo: int, x: int, hi: int): int {
    if (if x < hi then x else hi) < lo then lo else if x < hi then x else hi
  }

  function KeepN(l: Limits): nat {
    Clamp(1, l.maxNodes, 200)
  }

  function KeepE(l: Limits): nat {
    Clamp(0, l.maxEdges, 500)
  }

  // ---- Recording an observation ----

  function Visit(nodes: map<string, Node>, id: string, o: Observation): map<string, Node> {
    var node := if id in nodes then nodes[id] else Node(o.url, None, o.now, 0, o.now);
    nodes[id := Node(o.url, if o.title.Some? then o.title else node.title, node.firstSeenAt, node.visits + 1, o.now)]
  }

  /** Count an edge; an edge already stored under the same id keeps its ends. */
  function Traverse(edges: map<string, Edge>, n: Naming, key: EdgeKey, now: int): map<string, Edge> {
    var id := n.edgeId(key);
    var e := if id in edges then edges[id] else Edge(key, 0, now, now);
    edges[id := e.(count := e.count + 1, lastSeenAt := now)]
  }

  function Touch(nodes: map<string, Node>, id: string, url: string, now: int): map<string, Node> {
    if id in nodes
    then nodes[id := nodes[id].(lastSeenAt := if nodes[id].lastSeenAt > now then nodes[id].lastSeenAt else now)]
    else nodes[id := Node(url, None, now, 0, now)]
  }

  function AddLink(g: Graph, n: Naming, cur: string, link: Option<Link>, now: int): Graph {
    if link.None? then g
    else
      var to := n.nodeId(link.value.to);
      g.(nodes := Touch(g.nodes, to, link.value.to, now),
         edges := Traverse(g.edges, n, EdgeKey(cur, to, "link", link.value.caption, link.value.ref), now))
  }

  function AddLinks(g: Graph, n: Naming, cur: string, links: seq<Option<Link>>, now: int): Graph {
    if links == [] then g
    else AddLink(AddLinks(g, n, cur, links[..|links| - 1], now), n, cur, links[|links| - 1], now)
  }

  function LinksOf(o: Observation): seq<Option<Link>> {
    if |o.links| > MAX_LINKS then o.links[..MAX_LINKS] else o.links
  }

  /** Everything up to the pruning. */
  function Recorded(g: Graph, n: Naming, o: Observation): Graph {
    var cur := n.nodeId(o.url);
    var nodes := Visit(g.nodes, cur, o);
    var edges :=
      if g.current.Some? && g.current.value != cur
      then Traverse(g.edges, n, EdgeKey(g.current.value, cur, "nav", None, None), o.now)
      else g.edges;
    AddLinks(Graph(nodes, edges, Some(cur)), n, cur, LinksOf(o), o.now)
  }

  // ---- Pruning ----

  function NodeTimes(nodes: map<string, Node>): map<string, int> {
    map id | id in nodes :: nodes[id].lastSeenAt
  }

  function EdgeTimes(edges: map<string, Edge>): map<string, int> {
    map id | id in edges :: edges[id].lastSeenAt
  }

  predicate Attached(e: Edge, nodes: map<string, Node>) {
    e.key.src in nodes && e.key.dst in nodes
  }

  function DropDangling(edges: map<string, Edge>, nodes: map<string, Node>): map<string, Edge> {
    map id | id in edges && Attached(edges[id], nodes) :: edges[id]
  }

  function Restrict<V>(m: map<string, V>, keys: set<string>): map<string, V> {
    map id | id in m && id in keys :: m[id]
  }

  /** The outcome of pruning: the best-ranked nodes; edges to dropped nodes go, but only if nodes
      were dropped; then the best-ranked edges. */
  ghost predicate Pruned(g: Graph, g': Graph, keepN: nat, keepE: nat) {
    && g'.current == g.current
    && IsTop(NodeTimes(g.nodes), g'.nodes.Keys, keepN) && g'.nodes == Restrict(g.nodes, g'.nodes.Keys)
    && var edges := if |g.nodes| > keepN then DropDangling(g.edges, g'.nodes) else g.edges;
       IsTop(EdgeTimes(edges), g'.edges.Keys, keepE) && g'.edges == Restrict(edges, g'.edges.Keys)
  }

  // ---- The graph object of one tab ----

  class TabGraph {
    const names: Naming
    var nodes: map<string, Node>
    var edges: map<string, Edge>
    var current: Option<string>

    ghost function State(): Graph
      reads this
    {
      Graph(nodes, edges, current)
    }

    constructor (names: Naming)
      ensures State() == EMPTY && this.names == names
    {
      this.names := names;
      nodes, edges, current := map[], map[], None;
    }

    method CountEdge(key: EdgeKey, now: int)
      modifies this`edges
      ensures edges == Traverse(old(edges), names, key, now)
    {
      var id := names.edgeId(key);
      var e := if id in edges then edges[id] else Edge(key, 0, now, now);
      e := e.(count := e.count + 1, lastSeenAt := now);
      edges := edges[id := e];
    }

    method NoteLinks(cur: string, links: seq<Option<Link>>, now: int)
      modifies this`nodes, this`edges
      ensures State() == AddLinks(old(State()), names, cur, links, now)
    {
      for i := 0 to |links|
        invariant State() == AddLinks(old(State()), names, cur, links[..i], now)
      {
        assert links[..i + 1][..i] == links[..i];
        if links[i].Some? {
          var link := links[i].value;
          var to := names.nodeId(link.to);
          if to !in nodes {
            nodes := nodes[to := Node(link.to, None, now, 0, now)];
          } else {
            var node := nodes[to];
            nodes := nodes[to := node.(lastSeenAt := if node.lastSeenAt > now then node.lastSeenAt else now)];
          }
          CountEdge(EdgeKey(cur, to, "link", link.caption, link.ref), now);
        }
      }
      assert links[..|links|] == links;
    }

    method Record(o: Observation)
      modifies this`nodes, this`edges, this`current
      ensures State() == Recorded(old(State()), names, o)
    {
      var cur := names.nodeId(o.url);
      var prev := current;
      var node := if cur in nodes then nodes[cur] else Node(o.url, None, o.now, 0, o.now);
      node := node.(url := o.url);
      if o.title.Some? {
        node := node.(title := o.title);
      }
      node := node.(visits := node.visits + 1, lastSeenAt := o.now);
      nodes := nodes[cur := node];
      if prev.Some? && prev.value != cur {
        CountEdge(EdgeKey(prev.value, cur, "nav", None, None), o.now);
      }
      current := Some(cur);
      NoteLinks(cur, LinksOf(o), o.now);
    }

    method Prune(keepN: nat, keepE: nat)
      modifies this`nodes, this`edges
      ensures Pruned(old(State()), State(), keepN, keepE)
    {
      var overflow := |nodes| > keepN;
      nodes := KeepBest(nodes, NodeTimes(nodes), keepN);
      if overflow {
        edges := DropDangling(edges, nodes);
      }
      edges := KeepBest(edges, EdgeTimes(edges), keepE);
    }

    method NoteObservation(o: Observation) returns (cur: string)
      modifies this`nodes, this`edges, this`current
      ensures cur == names.nodeId(o.url)
      ensures Pruned(Recorded(old(State()), names, o), State(), KeepN(o.limits), KeepE(o.limits))
    {
      cur := names.nodeId(o.url);
      Record(o);
      Prune(KeepN(o.limits), KeepE(o.limits));
    }
  }

  /** `for id in list(m): if id not in keep: m.pop(id)` */
  method DeleteOthers<V>(m: map<string, V>, keep: set<string>) returns (r: map<string, V>)
    ensures r == Restrict(m, keep)
  {
    r := m;
    var left := m.Keys;
    while left != {}
      invariant left <= m.Keys && r == m - (m.Keys - left - keep)
      decreases |left|
    {
      ghost var some := SetFacts.Pick(left);
      var id :| id in left;
      left := left - {id};
      if id !in keep {
        r := r - {id};
      }
    }
  }

  /** Nothing happens below the limit; above it the entries are sorted and the rest deleted. */
  method KeepBest<V>(m: map<string, V>, ts: map<string, int>, k: nat) returns (r: map<string, V>)
    requires ts.Keys == m.Keys
    ensures IsTop(ts, r.Keys, k) && r == Restrict(m, r.Keys)
  {
    assert |ts.Keys| == |m.Keys|;
    if |m| <= k {
      return m;
    }
    var ordered := SortKeys(ts);
    FirstAreTop(ts, ordered, k);
    var keep := StableSort.Elements(First(ordered, k));
    r := DeleteOthers(m, keep);
    assert r.Keys == keep;
  }
}
