/** What the nodes and edges of the navigation graph say about the observations (`session_manager.py`). */
module NavCounts {
  import opened Wire
  import opened NavGraph
  import opened NavIntegrity

  // ---- Edges ----

  /** A page change or a noted link. */
  datatype Traversal = Traversal(key: EdgeKey, now: int)

  function TraversalOf(n: Naming, key: EdgeKey, now: int, id: string): seq<Traversal> {
    if n.edgeId(key) == id then [Traversal(key, now)] else []
  }

  function LinkKey(n: Naming, cur: string, link: Link): EdgeKey {
    EdgeKey(cur, n.nodeId(link.to), "link", link.caption, link.ref)
  }

  function Followed(n: Naming, cur: string, links: seq<Option<Link>>, now: int, id: string): seq<Traversal> {
    if links == [] then []
    else
      var last := links[|links| - 1];
      Followed(n, cur, links[..|links| - 1], now, id) +
      if last.Some? then TraversalOf(n, LinkKey(n, cur, last.value), now, id) else []
  }

  /** How one observation traverses the edge: coming from another page, and by its first 50 links. */
  function Traversed(n: Naming, came: Option<string>, o: Observation, id: string): seq<Traversal> {
    var cur := n.nodeId(o.url);
    (if came.Some? && came.value != cur then TraversalOf(n, EdgeKey(came.value, cur, "nav", None, None), o.now, id) else [])
    + Followed(n, cur, if |o.links| > 50 then o.links[..50] else o.links, o.now, id)
  }

  /** The page observed last. */
  function Page(n: Naming, t: Trace): Option<string> {
    if t.Then? then Some(n.nodeId(t.o.url)) else None
  }

  function Traversals(n: Naming, t: Trace, id: string): seq<Traversal> {
    if t.Then? then Traversals(n, t.before, id) + Traversed(n, Page(n, t.before), t.o, id) else []
  }

  /** The same, but only since the graph was last without the edge. */
  function Since(n: Naming, t: Trace, id: string): seq<Traversal> {
    if t.Then? && id in t.g.edges then Since(n, t.before, id) + Traversed(n, Page(n, t.before), t.o, id) else []
  }

  /** The edge counts these traversals, and has the ends of the first. */
  predicate Counts(e: Edge, s: seq<Traversal>) {
    s != [] && e == Edge(s[0].key, |s|, s[0].now, s[|s| - 1].now)
  }

  predicate EdgeSeen(edges: map<string, Edge>, id: string, s: seq<Traversal>) {
    if id in edges then Counts(edges[id], s) else s == []
  }

  lemma TraverseSeen(edges: map<string, Edge>, n: Naming, key: EdgeKey, now: int, id: string, s: seq<Traversal>)
    requires EdgeSeen(edges, id, s)
    ensures EdgeSeen(Traverse(edges, n, key, now), id, s + TraversalOf(n, key, now, id))
  {
  }

  lemma {:induction false} LinksSeen(g: Graph, n: Naming, cur: string, links: seq<Option<Link>>, now: int, id: string, s: seq<Traversal>)
    requires EdgeSeen(g.edges, id, s)
    ensures EdgeSeen(AddLinks(g, n, cur, links, now).edges, id, s + Followed(n, cur, links, now, id))
  {
    if links == [] {
      assert s + [] == s;
    } else {
      var front, last := links[..|links| - 1], links[|links| - 1];
      LinksSeen(g, n, cur, front, now, id, s);
      var s1 := s + Followed(n, cur, front, now, id);
      if last.Some? {
        TraverseSeen(AddLinks(g, n, cur, front, now).edges, n, LinkKey(n, cur, last.value), now, id, s1);
        assert s1 + TraversalOf(n, LinkKey(n, cur, last.value), now, id) == s + Followed(n, cur, links, now, id);
      } else {
        assert s1 == s + Followed(n, cur, links, now, id);
      }
    }
  }

  lemma RecordedSeen(g: Graph, n: Naming, o: Observation, id: string, s: seq<Traversal>)
    requires EdgeSeen(g.edges, id, s)
    ensures EdgeSeen(Recorded(g, n, o).edges, id, s + Traversed(n, g.current, o, id))
  {
    var cur := n.nodeId(o.url);
    var nav := Traversed(n, g.current, o.(links := []), id);
    var g1 := Visited(g, n, o);
    VisitThenLinks(g, n, o);
    if g.current.Some? && g.current.value != cur {
      TraverseSeen(g.edges, n, EdgeKey(g.current.value, cur, "nav", None, None), o.now, id, s);
    }
    assert EdgeSeen(g1.edges, id, s + nav);
    LinksSeen(g1, n, cur, LinksOf(o), o.now, id, s + nav);
    assert s + nav + Followed(n, cur, LinksOf(o), o.now, id) == s + Traversed(n, g.current, o, id);
  }

  lemma {:induction false} CurrentIsPage(n: Naming, t: Trace)
    requires IsRun(n, t)
    ensures Last(t).current == Page(n, t)
  {
    if t.Then? {
      RecordedAttached(Last(t.before), n, t.o);
    }
  }

  /** In every run an edge is exactly its traversals since the graph was last without it: their number,
      the key of the first, and the times of the first and the last. */
  lemma {:induction false} EdgeCountsTraversals(n: Naming, t: Trace, id: string)
    requires IsRun(n, t)
    ensures EdgeSeen(Last(t).edges, id, Since(n, t, id))
  {
    if t.Then? {
      EdgeCountsTraversals(n, t.before, id);
      CurrentIsPage(n, t.before);
      RecordedSeen(Last(t.before), n, t.o, id, Since(n, t.before, id));
    }
  }

  /** Pruning never dropped the edge. */
  predicate NeverLost(n: Naming, t: Trace, id: string) {
    t.Then? ==> NeverLost(n, t.before, id) && (id in Recorded(Last(t.before), n, t.o).edges ==> id in t.g.edges)
  }

  /** Compared with all traversals in the run, it counts at most those, and all of them if it was never
      dropped. */
  lemma {:induction false} EdgeCountsAtMost(n: Naming, t: Trace, id: string)
    requires IsRun(n, t)
    ensures |Since(n, t, id)| <= |Traversals(n, t, id)|
    ensures NeverLost(n, t, id) ==> Since(n, t, id) == Traversals(n, t, id)
  {
    if t.Then? {
      EdgeCountsAtMost(n, t.before, id);
      EdgeCountsTraversals(n, t.before, id);
      CurrentIsPage(n, t.before);
      RecordedSeen(Last(t.before), n, t.o, id, Since(n, t.before, id));
    }
  }

  /** So of a stored edge: its count, and, if it was never dropped, everything about it. */
  lemma EdgeMeans(n: Naming, t: Trace, id: string)
    requires IsRun(n, t) && id in Last(t).edges
    ensures 1 <= Last(t).edges[id].count <= |Traversals(n, t, id)|
    ensures NeverLost(n, t, id) ==> Counts(Last(t).edges[id], Traversals(n, t, id))
  {
    EdgeCountsTraversals(n, t, id);
    EdgeCountsAtMost(n, t, id);
  }

  // ---- Nodes ----

  /** The page was observed, or a link to it was noted. */
  datatype Sighting = Observed(url: string, title: Option<string>, now: int) | Linked(url: string, now: int)

  function LinkedIn(n: Naming, links: seq<Option<Link>>, now: int, id: string): seq<Sighting> {
    if links == [] then []
    else
      var last := links[|links| - 1];
      LinkedIn(n, links[..|links| - 1], now, id) +
      if last.Some? && n.nodeId(last.value.to) == id then [Linked(last.value.to, now)] else []
  }

  function ObservedIn(n: Naming, o: Observation, id: string): seq<Sighting> {
    if n.nodeId(o.url) == id then [Observed(o.url, o.title, o.now)] else []
  }

  function SeenIn(n: Naming, o: Observation, id: string): seq<Sighting> {
    ObservedIn(n, o, id) + LinkedIn(n, if |o.links| > 50 then o.links[..50] else o.links, o.now, id)
  }

  /** The sightings of a page since the graph was last without its node. */
  function Sightings(n: Naming, t: Trace, id: string): seq<Sighting> {
    if t.Then? && id in t.g.nodes then Sightings(n, t.before, id) + SeenIn(n, t.o, id) else []
  }

  function Visits(s: seq<Sighting>): nat {
    if s == [] then 0 else Visits(s[..|s| - 1]) + (if s[|s| - 1].Observed? then 1 else 0)
  }

  /** The address it was last observed under, or else first linked under. */
  function UrlIn(s: seq<Sighting>): string
    requires s != []
  {
    if s[|s| - 1].Observed? || |s| == 1 then s[|s| - 1].url else UrlIn(s[..|s| - 1])
  }

  /** The last title it was observed with. */
  function TitleIn(s: seq<Sighting>): Option<string> {
    if s == [] then None
    else if s[|s| - 1].Observed? && s[|s| - 1].title.Some? then s[|s| - 1].title
    else TitleIn(s[..|s| - 1])
  }

  /** The time of the last observation, or of a later link if that is greater. */
  function TimeIn(s: seq<Sighting>): int
    requires s != []
  {
    var last := s[|s| - 1];
    if last.Observed? || |s| == 1 || TimeIn(s[..|s| - 1]) <= last.now then last.now else TimeIn(s[..|s| - 1])
  }

  predicate Sees(node: Node, s: seq<Sighting>) {
    s != [] && node == Node(UrlIn(s), TitleIn(s), s[0].now, Visits(s), TimeIn(s))
  }

  predicate NodeSeen(nodes: map<string, Node>, id: string, s: seq<Sighting>) {
    if id in nodes then Sees(nodes[id], s) else s == []
  }

  lemma VisitSees(nodes: map<string, Node>, o: Observation, id: string, s: seq<Sighting>)
    requires NodeSeen(nodes, id, s)
    ensures NodeSeen(Visit(nodes, id, o), id, s + [Observed(o.url, o.title, o.now)])
  {
    assert (s + [Observed(o.url, o.title, o.now)])[..|s|] == s;
  }

  lemma TouchSees(nodes: map<string, Node>, id: string, url: string, now: int, s: seq<Sighting>)
    requires NodeSeen(nodes, id, s)
    ensures NodeSeen(Touch(nodes, id, url, now), id, s + [Linked(url, now)])
  {
    assert (s + [Linked(url, now)])[..|s|] == s;
  }

  lemma {:induction false} LinksSee(g: Graph, n: Naming, cur: string, links: seq<Option<Link>>, now: int, id: string, s: seq<Sighting>)
    requires NodeSeen(g.nodes, id, s)
    ensures NodeSeen(AddLinks(g, n, cur, links, now).nodes, id, s + LinkedIn(n, links, now, id))
  {
    if links == [] {
      assert s + [] == s;
    } else {
      var front, last := links[..|links| - 1], links[|links| - 1];
      LinksSee(g, n, cur, front, now, id, s);
      var g1, s1 := AddLinks(g, n, cur, front, now), s + LinkedIn(n, front, now, id);
      if last.Some? && n.nodeId(last.value.to) == id {
        TouchSees(g1.nodes, id, last.value.to, now, s1);
        assert s1 + [Linked(last.value.to, now)] == s + LinkedIn(n, links, now, id);
      } else {
        assert s1 == s + LinkedIn(n, links, now, id);
      }
    }
  }

  lemma VisitedSees(g: Graph, n: Naming, o: Observation, id: string, s: seq<Sighting>)
    requires NodeSeen(g.nodes, id, s)
    ensures NodeSeen(Visited(g, n, o).nodes, id, s + ObservedIn(n, o, id))
  {
    VisitThenLinks(g, n, o);
    if n.nodeId(o.url) == id {
      VisitSees(g.nodes, o, id, s);
      assert Visited(g, n, o).nodes == Visit(g.nodes, id, o);
    } else {
      assert s + [] == s;
    }
  }

  lemma RecordedSees(g: Graph, n: Naming, o: Observation, id: string, s: seq<Sighting>)
    requires NodeSeen(g.nodes, id, s)
    ensures NodeSeen(Recorded(g, n, o).nodes, id, s + SeenIn(n, o, id))
  {
    var cur, seen := n.nodeId(o.url), ObservedIn(n, o, id);
    VisitThenLinks(g, n, o);
    VisitedSees(g, n, o, id, s);
    LinksSee(Visited(g, n, o), n, cur, LinksOf(o), o.now, id, s + seen);
    assert s + seen + LinkedIn(n, LinksOf(o), o.now, id) == s + SeenIn(n, o, id);
  }

  /** In every run a node is exactly the sightings of its page since the graph was last without it. */
  lemma {:induction false} NodeMeans(n: Naming, t: Trace, id: string)
    requires IsRun(n, t)
    ensures NodeSeen(Last(t).nodes, id, Sightings(n, t, id))
  {
    if t.Then? {
      NodeMeans(n, t.before, id);
      RecordedSees(Last(t.before), n, t.o, id, Sightings(n, t.before, id));
    }
  }

  // ---- Limits ----

  /** Between 1 and 200 nodes and up to 500 edges are kept: as many as asked for, within those bounds. */
  lemma LimitsMean(l: Limits)
    ensures 1 <= KeepN(l) <= 200 && (KeepN(l) < l.maxNodes ==> KeepN(l) == 200) && (KeepN(l) > l.maxNodes ==> KeepN(l) == 1)
    ensures 0 <= KeepE(l) <= 500 && (KeepE(l) < l.maxEdges ==> KeepE(l) == 500) && (KeepE(l) > l.maxEdges ==> KeepE(l) == 0)
  {
  }
}
