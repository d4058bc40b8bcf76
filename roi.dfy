/**
 * The "region of interest" view of a model's diagram: a new top-level graph
 * holding the active node, every edge leaving it, and every edge entering
 * it from a node filled with the `previous` colour, together with the nodes
 * at the other end of those edges. Attributes are copied as they are; the
 * new graph has the same node defaults, so everything shows as before.
 */
module RegionOfInterest {
  import opened Styles
  import opened HostMachine
  import opened AbstractGraph
  import opened LiveState

  /** What `node.attr["fillcolor"]` reads: the node's own fill colour, else the graph's default. */
  function FillOf(defaults: Attrs, sc: Scene, n: string): string {
    Get(defaults + OwnAttrs(sc.nodes, n), "fillcolor")
  }

  /** Whether an edge at `active` is kept: it leaves `active`, or enters it from a node filled as `previous`. */
  predicate Kept(defaults: Attrs, sc: Scene, active: string, e: Edge) {
    e.0 == active || (e.1 == active && FillOf(defaults, sc, e.0) == NodeStyle(Previous)["fillcolor"])
  }

  /** The node a kept edge brings in: its other end. */
  function Neighbour(e: Edge, active: string): string {
    if e.0 == active then e.1 else e.0
  }

  function KeptAmong(defaults: Attrs, sc: Scene, active: string, done: set<Edge>): set<Edge> {
    set e | e in done && e in sc.edges && Kept(defaults, sc, active, e)
  }

  function RoiNodes(defaults: Attrs, sc: Scene, active: string, done: set<Edge>): set<string> {
    {active} + set e | e in KeptAmong(defaults, sc, active, done) :: Neighbour(e, active)
  }

  /** The region drawn from the edges in `done` only. */
  function RoiOver(defaults: Attrs, sc: Scene, active: string, done: set<Edge>): Scene {
    var ns := RoiNodes(defaults, sc, active, done);
    Scene(map n | n in ns :: OwnAttrs(sc.nodes, n),
          map n | n in ns :: [],
          map[],
          map e | e in KeptAmong(defaults, sc, active, done) :: sc.edges[e])
  }

  /** `_graph_roi(model, title)` on values; looking up a state that is not a node fails. */
  function Roi(defaults: Attrs, sc: Scene, active: string): (r: Option<Scene>)
    ensures r.Some? <==> active in sc.nodes
  {
    if active in sc.nodes then Some(RoiOver(defaults, sc, active, sc.edges.Keys)) else None
  }

  /**
   * The region is a neighbourhood of the active node: it holds the active
   * node, every edge leaving it, exactly those edges entering it whose
   * source is filled as `previous`, no other edge, and only nodes joined to
   * the active one by a kept edge; nodes and edges keep their attributes,
   * and everything sits at the top level.
   */
  lemma RoiNeighbourhood(defaults: Attrs, sc: Scene, active: string)
    requires Closed(sc) && active in sc.nodes
    ensures var r := Roi(defaults, sc, active).value;
      && active in r.nodes
      && (forall e :: e in sc.edges && e.0 == active ==> e in r.edges)
      && (forall e :: e in sc.edges && e.0 != active && e.1 == active ==>
            (e in r.edges <==> FillOf(defaults, sc, e.0) == NodeStyle(Previous)["fillcolor"]))
      && (forall e :: e in r.edges ==> e in sc.edges && r.edges[e] == sc.edges[e] && (e.0 == active || e.1 == active))
      && (forall n :: n in r.nodes ==> n in sc.nodes && r.nodes[n] == sc.nodes[n])
      && (forall n :: n in r.nodes && n != active ==> (active, n) in r.edges || (n, active) in r.edges)
      && (forall n :: n in r.nodes ==> r.placement[n] == [])
      && r.clusters == map[]
  {
    var r := Roi(defaults, sc, active).value;
    var kept := KeptAmong(defaults, sc, active, sc.edges.Keys);
    forall n | n in r.nodes
      ensures n in sc.nodes && r.nodes[n] == sc.nodes[n]
    {
      if n != active {
        var e :| e in kept && Neighbour(e, active) == n;
      }
    }
    forall n | n in r.nodes && n != active
      ensures (active, n) in r.edges || (n, active) in r.edges
    {
      var e :| e in kept && Neighbour(e, active) == n;
      assert e == (active, n) || e == (n, active);
    }
  }

  lemma KeptStep(defaults: Attrs, sc: Scene, active: string, done: set<Edge>, e: Edge)
    requires e in sc.edges && e !in done
    ensures KeptAmong(defaults, sc, active, done + {e}) ==
      if Kept(defaults, sc, active, e) then KeptAmong(defaults, sc, active, done) + {e} else KeptAmong(defaults, sc, active, done)
  {
  }

  lemma RoiNodesStep(defaults: Attrs, sc: Scene, active: string, done: set<Edge>, e: Edge)
    requires e in sc.edges && e !in done
    ensures RoiNodes(defaults, sc, active, done + {e}) ==
      if Kept(defaults, sc, active, e) then RoiNodes(defaults, sc, active, done) + {Neighbour(e, active)} else RoiNodes(defaults, sc, active, done)
  {
    KeptStep(defaults, sc, active, done, e);
  }

  lemma RoiEdgesStep(defaults: Attrs, sc: Scene, active: string, done: set<Edge>, e: Edge)
    requires e in sc.edges && e !in done && Kept(defaults, sc, active, e)
    ensures RoiOver(defaults, sc, active, done + {e}).edges == RoiOver(defaults, sc, active, done).edges[e := sc.edges[e]]
  {
    KeptStep(defaults, sc, active, done, e);
  }

  /** Handling one more incident edge: a kept one adds its edge and its other end. */
  lemma RoiStep(defaults: Attrs, sc: Scene, active: string, done: set<Edge>, e: Edge)
    requires Closed(sc) && e in sc.edges && e !in done && Kept(defaults, sc, active, e)
    ensures var r0, n := RoiOver(defaults, sc, active, done), Neighbour(e, active);
      RoiOver(defaults, sc, active, done + {e}) ==
        r0.(nodes := r0.nodes[n := sc.nodes[n]], placement := r0.placement[n := []], edges := r0.edges[e := sc.edges[e]])
  {
    RoiNodeMapsStep(defaults, sc, active, done, e);
    RoiEdgesStep(defaults, sc, active, done, e);
  }

  lemma RoiNodeMapsStep(defaults: Attrs, sc: Scene, active: string, done: set<Edge>, e: Edge)
    requires Closed(sc) && e in sc.edges && e !in done && Kept(defaults, sc, active, e)
    ensures var r0, r1, n := RoiOver(defaults, sc, active, done), RoiOver(defaults, sc, active, done + {e}), Neighbour(e, active);
      r1.nodes == r0.nodes[n := sc.nodes[n]] && r1.placement == r0.placement[n := []]
  {
    var n := Neighbour(e, active);
    RoiNodesStep(defaults, sc, active, done, e);
    CopiedNodesGrow(RoiNodes(defaults, sc, active, done), n, sc.nodes, []);
  }

  /** The nodes copied for one more name: the copies so far, and that name with its own attributes at the top level. */
  lemma CopiedNodesGrow(ns: set<string>, n: string, nodes: map<string, Attrs>, top: seq<string>)
    requires n in nodes
    ensures (map x | x in ns + {n} :: OwnAttrs(nodes, x)) == (map x | x in ns :: OwnAttrs(nodes, x))[n := nodes[n]]
    ensures (map x | x in ns + {n} :: top) == (map x | x in ns :: top)[n := top]
  {
  }

  /** An edge that is not kept changes nothing. */
  lemma RoiSkip(defaults: Attrs, sc: Scene, active: string, done: set<Edge>, e: Edge)
    requires e in sc.edges && e !in done && !Kept(defaults, sc, active, e)
    ensures RoiOver(defaults, sc, active, done + {e}) == RoiOver(defaults, sc, active, done)
  {
    KeptStep(defaults, sc, active, done, e);
    RoiNodesStep(defaults, sc, active, done, e);
  }

  /** Before any edge is handled, the region is the active node alone. */
  lemma RoiStart(defaults: Attrs, sc: Scene, active: string)
    requires active in sc.nodes
    ensures RoiOver(defaults, sc, active, {}) == Scene(map[active := sc.nodes[active]], map[active := []], map[], map[])
  {
    assert KeptAmong(defaults, sc, active, {}) == {};
    assert RoiNodes(defaults, sc, active, {}) == {active};
  }

  /** Only edges at the active node can be kept. */
  lemma RoiIncident(defaults: Attrs, sc: Scene, active: string, incident: set<Edge>)
    requires incident == set e | e in sc.edges && (e.0 == active || e.1 == active)
    ensures RoiOver(defaults, sc, active, incident) == RoiOver(defaults, sc, active, sc.edges.Keys)
  {
    assert KeptAmong(defaults, sc, active, incident) == KeptAmong(defaults, sc, active, sc.edges.Keys);
  }

  /** Copying a node's attributes onto the same attributes, or onto none, gives those attributes. */
  lemma CopyAgain(a: Attrs, x: Attrs)
    requires a == map[] || a == x
    ensures Update(a, x) == x
  {
    assert Update(a, x).Keys == x.Keys;
  }

  /** What the region drawn so far holds: the active node, node attributes as in the source, no edge not yet handled. */
  lemma RoiSoFar(defaults: Attrs, sc: Scene, active: string, done: set<Edge>, e: Edge)
    requires Closed(sc) && active in sc.nodes && e !in done
    ensures var r := RoiOver(defaults, sc, active, done);
      && active in r.nodes && e !in r.edges
      && (forall n :: n in r.nodes ==> n in sc.nodes && r.nodes[n] == sc.nodes[n])
      && (forall n :: n in r.placement ==> r.placement[n] == [])
  {
    var r := RoiOver(defaults, sc, active, done);
    forall n | n in r.nodes
      ensures n in sc.nodes && r.nodes[n] == sc.nodes[n]
    {
      if n != active {
        var x :| x in KeptAmong(defaults, sc, active, done) && Neighbour(x, active) == n;
      }
    }
  }

  /**
   * One pass of the loop of `_graph_roi` over the edges at the active node:
   * a kept edge is copied with its attributes, and so is its other end.
   */
  method RoiEdge(g: Graph, f: Graph, active: string, e: Edge)
    requires g.Valid() && f.Valid() && f != g
    requires e in g.edges && (e.0 == active || e.1 == active)
    requires active in f.nodes && e !in f.edges
    requires forall n :: n in f.nodes ==> n in g.nodes && f.nodes[n] == g.nodes[n]
    requires forall n :: n in f.placement ==> f.placement[n] == []
    modifies f
    ensures f.Valid()
    ensures var n := Neighbour(e, active);
      if Kept(g.nodeDefaults, SceneOf(g), active, e) then
        SceneOf(f) == old(SceneOf(f)).(nodes := old(f.nodes)[n := g.nodes[n]],
                                       placement := old(f.placement)[n := []],
                                       edges := old(f.edges)[e := g.edges[e]])
      else SceneOf(f) == old(SceneOf(f))
  {
    var other: string;
    if e.0 == active {
      other := e.1;
    } else if Get(g.NodeAttrs(e.0), "fillcolor") == NodeStyle(Previous)["fillcolor"] {
      other := e.0;
    } else {
      assert !Kept(g.nodeDefaults, SceneOf(g), active, e);
      return;
    }
    assert Kept(g.nodeDefaults, SceneOf(g), active, e) && other == Neighbour(e, active);
    CopyAgain(OwnAttrs(f.nodes, other), g.nodes[other]);
    f.AddNode(other, g.nodes[other], []);
    assert f.nodes == old(f.nodes)[other := g.nodes[other]];
    assert f.placement == old(f.placement)[other := []];
    assert e.0 in f.nodes && e.1 in f.nodes && e.0 in f.placement && e.1 in f.placement;
    f.AddEdge(e.0, e.1, g.edges[e]);
  }

  /** One pass of the loop, stated against the region drawn from the edges handled so far. */
  method RoiPass(g: Graph, f: Graph, active: string, ghost done: set<Edge>, e: Edge)
    requires g.Valid() && f.Valid() && f != g && active in g.nodes
    requires e in g.edges && e !in done && (e.0 == active || e.1 == active)
    requires SceneOf(f) == RoiOver(g.nodeDefaults, SceneOf(g), active, done)
    modifies f
    ensures f.Valid()
    ensures SceneOf(f) == RoiOver(g.nodeDefaults, SceneOf(g), active, done + {e})
  {
    ghost var sc := SceneOf(g);
    assert Closed(sc);
    RoiSoFar(g.nodeDefaults, sc, active, done, e);
    if Kept(g.nodeDefaults, sc, active, e) {
      RoiStep(g.nodeDefaults, sc, active, done, e);
    } else {
      RoiSkip(g.nodeDefaults, sc, active, done, e);
    }
    RoiEdge(g, f, active, e);
  }

  /** Moving an edge from the edges to do to the edges done keeps them apart and covering the same edges. */
  lemma MoveOne(done: set<Edge>, todo: set<Edge>, e: Edge)
    requires e in todo && done !! todo
    ensures (done + {e}) + (todo - {e}) == done + todo && (done + {e}) !! (todo - {e})
  {
  }

  /** The loop of `_graph_roi` over the edges at the active node. */
  method CopyIncident(g: Graph, f: Graph, active: string)
    requires g.Valid() && f.Valid() && f != g && active in g.nodes
    requires SceneOf(f) == RoiOver(g.nodeDefaults, SceneOf(g), active, {})
    modifies f
    ensures f.Valid()
    ensures SceneOf(f) == RoiOver(g.nodeDefaults, SceneOf(g), active, g.edges.Keys)
  {
    ghost var sc := SceneOf(g);
    ghost var defaults := g.nodeDefaults;
    var todo := set e | e in g.edges && (e.0 == active || e.1 == active);
    ghost var incident := todo;
    ghost var done: set<Edge> := {};
    while todo != {}
      invariant done + todo == incident && done !! todo
      invariant incident <= sc.edges.Keys
      invariant f.Valid() && unchanged(g)
      invariant SceneOf(f) == RoiOver(defaults, sc, active, done)
      decreases todo
    {
      var e :| e in todo;
      RoiPass(g, f, active, done, e);
      MoveOne(done, todo, e);
      todo := todo - {e};
      done := done + {e};
    }
    RoiIncident(g.nodeDefaults, SceneOf(g), active, incident);
  }

  /**
   * `_graph_roi(model, title)`: a fresh graph with the default node style
   * as its node defaults, holding the region around `active`. When the
   * source graph has the same defaults, every node of the region shows
   * exactly what it shows in the source graph.
   */
  method GraphRoi(g: Graph, active: string) returns (ok: bool, f: Graph)
    requires g.Valid()
    ensures fresh(f) && f.Valid() && f.nodeDefaults == NodeStyle(Default)
    ensures ok <==> Roi(g.nodeDefaults, SceneOf(g), active).Some?
    ensures ok ==> SceneOf(f) == Roi(g.nodeDefaults, SceneOf(g), active).value
    ensures ok && g.nodeDefaults == f.nodeDefaults ==>
      forall n :: n in f.nodes ==> n in g.nodes && f.NodeAttrs(n) == g.NodeAttrs(n)
  {
    f := new Graph();
    if active !in g.nodes {
      return false, f;
    }
    CopyAgain(map[], g.nodes[active]);
    f.AddNode(active, g.nodes[active], []);
    RoiStart(g.nodeDefaults, SceneOf(g), active);
    CopyIncident(g, f, active);
    assert Closed(SceneOf(g));
    RoiNeighbourhood(g.nodeDefaults, SceneOf(g), active);
    ok := true;
  }
}
