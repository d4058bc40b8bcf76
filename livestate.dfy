/**
 * Restyling a drawn diagram when the machine changes state: every node is
 * reset to the default style, the source state is marked `previous`, every
 * edge is reset and the fired edge is marked `previous`, and the
 * destination is marked `active`. A state name that is not a node is
 * looked up as a cluster, by the path of its name's parts.
 */
module LiveState {
  import opened Strings
  import opened Styles
  import opened HostMachine
  import opened AbstractGraph
  import opened GraphBuilder

  /** The parts of a graph the restyling reads and changes. */
  datatype Scene = Scene(
    nodes: map<string, Attrs>,
    placement: map<string, seq<string>>,
    clusters: map<seq<string>, Attrs>,
    edges: map<Edge, Attrs>)

  function SceneOf(g: Graph): Scene
    reads g
  {
    Scene(g.nodes, g.placement, g.clusters, g.edges)
  }

  /** Both ends of every edge are nodes, as in any valid graph. */
  ghost predicate Closed(sc: Scene) {
    forall e :: e in sc.edges ==> e.0 in sc.nodes && e.1 in sc.nodes
  }

  // ---------------------------------------------------------------------
  // The style applicators.

  /** `set_node_style(graph, node, role)` */
  method SetNodeStyle(g: Graph, n: string, role: Role)
    requires g.Valid() && n in g.nodes
    modifies g
    ensures g.Valid()
    ensures SceneOf(g) == old(SceneOf(g)).(nodes := old(g.nodes)[n := Update(old(g.nodes)[n], NodeStyle(role))])
  {
    g.UpdateNode(n, NodeStyle(role));
  }

  /** `set_edge_style(graph, edge, role)` */
  method SetEdgeStyle(g: Graph, e: Edge, role: EdgeRole)
    requires g.Valid() && e in g.edges
    modifies g
    ensures g.Valid()
    ensures SceneOf(g) == old(SceneOf(g)).(edges := old(g.edges)[e := Update(old(g.edges)[e], EdgeStyle(role))])
  {
    g.UpdateEdge(e, EdgeStyle(role));
  }

  /** `set_graph_style(graph, cluster, role)`: clusters are styled with the node roles. */
  method SetGraphStyle(g: Graph, p: seq<string>, role: Role)
    requires g.Valid() && p in g.clusters
    modifies g
    ensures g.Valid()
    ensures SceneOf(g) == old(SceneOf(g)).(clusters := old(g.clusters)[p := Update(old(g.clusters)[p], NodeStyle(role))])
  {
    g.UpdateCluster(p, NodeStyle(role));
  }

  // ---------------------------------------------------------------------
  // Resetting.

  function ResetAll(nodes: map<string, Attrs>): (r: map<string, Attrs>)
    ensures r.Keys == nodes.Keys
  {
    map n | n in nodes :: Update(nodes[n], NodeStyle(Default))
  }

  /** The nodes with those outside `todo` reset. */
  function ResetExcept(nodes: map<string, Attrs>, todo: set<string>): map<string, Attrs> {
    map n | n in nodes :: if n in todo then nodes[n] else Update(nodes[n], NodeStyle(Default))
  }

  lemma ResetStep(nodes: map<string, Attrs>, todo: set<string>, n: string)
    requires n in todo && todo <= nodes.Keys
    ensures ResetExcept(nodes, todo)[n := Update(nodes[n], NodeStyle(Default))] == ResetExcept(nodes, todo - {n})
  {
  }

  /** `reset_nodes(graph)` */
  method ResetNodes(g: Graph)
    requires g.Valid()
    modifies g
    ensures g.Valid()
    ensures SceneOf(g) == old(SceneOf(g)).(nodes := ResetAll(old(g.nodes)))
  {
    ghost var start := SceneOf(g);
    var todo := g.nodes.Keys;
    assert ResetExcept(start.nodes, todo) == start.nodes;
    while todo != {}
      invariant g.Valid() && todo <= start.nodes.Keys
      invariant SceneOf(g) == start.(nodes := ResetExcept(start.nodes, todo))
      decreases todo
    {
      var n :| n in todo;
      ResetStep(start.nodes, todo, n);
      SetNodeStyle(g, n, Default);
      todo := todo - {n};
    }
    assert ResetExcept(start.nodes, {}) == ResetAll(start.nodes);
  }

  function ResetEdges(edges: map<Edge, Attrs>): (r: map<Edge, Attrs>)
    ensures r.Keys == edges.Keys
    ensures forall e :: e in r ==> Bears(r[e], EdgeStyle(EdgeDefault))
  {
    map e | e in edges :: Update(edges[e], EdgeStyle(EdgeDefault))
  }

  // ---------------------------------------------------------------------
  // Marking a state.

  /** The cluster names for the parts of a state name. */
  function Prefixed(parts: seq<string>): (p: seq<string>)
    ensures |p| == |parts|
    ensures forall i :: 0 <= i < |parts| ==> p[i] == "cluster_" + parts[i]
  {
    if parts == [] then [] else ["cluster_" + parts[0]] + Prefixed(parts[1..])
  }

  /** The cluster path a state name is looked up by: one cluster per part of the name. */
  function ClusterPath(name: string, sep: char): (p: seq<string>)
    ensures |p| >= 1
    ensures forall i :: 0 <= i < |p| ==> |p[i]| >= 8 && p[i][..8] == "cluster_" && sep !in p[i][8..]
    ensures sep !in name ==> p == ["cluster_" + name]
  {
    var parts := Split(name, sep);
    assert sep !in name ==> parts == [name] by {
      if sep !in name { SplitJoin([name], sep); }
    }
    assert forall i :: 0 <= i < |parts| ==> ("cluster_" + parts[i])[8..] == parts[i];
    Prefixed(parts)
  }

  /**
   * A name made of local names joined by the separator, none holding the
   * separator, is looked up by the cluster names of those local names.
   */
  lemma ClusterPathOfNestedName(locals: seq<string>, sep: char)
    requires |locals| >= 1
    requires forall i :: 0 <= i < |locals| ==> sep !in locals[i]
    ensures ClusterPath(Join(locals, [sep]), sep) == Prefixed(locals)
  {
    SplitJoin(locals, sep);
  }

  /** `set_node_state` on values: the node of that name, else the cluster its name leads to. */
  function MarkNode(sc: Scene, name: string, role: Role, sep: char): (r: Option<Scene>)
    ensures r.Some? <==> name in sc.nodes || ClusterPath(name, sep) in sc.clusters
    ensures r.Some? ==>
      && r.value.edges == sc.edges && r.value.placement == sc.placement
      && r.value.nodes.Keys == sc.nodes.Keys
      && (forall n :: n in sc.nodes && n != name ==> r.value.nodes[n] == sc.nodes[n])
      && (name in sc.nodes ==> r.value.nodes[name] == Update(sc.nodes[name], NodeStyle(role)))
      && (name in sc.nodes ==> r.value.clusters == sc.clusters)
    ensures r.Some? && name !in sc.nodes ==>
      var p := ClusterPath(name, sep);
      && r.value.nodes == sc.nodes
      && r.value.clusters == sc.clusters[p := Update(sc.clusters[p], NodeStyle(role))]
  {
    if name in sc.nodes then
      Some(sc.(nodes := sc.nodes[name := Update(sc.nodes[name], NodeStyle(role))]))
    else
      var p := ClusterPath(name, sep);
      if p in sc.clusters then Some(sc.(clusters := sc.clusters[p := Update(sc.clusters[p], NodeStyle(role))]))
      else None
  }

  /**
   * `set_node_state(graph, name, role)`. When the name is neither a node
   * nor leads to a cluster, the lookup fails and nothing is changed.
   */
  method SetNodeState(g: Graph, name: string, role: Role, sep: char) returns (ok: bool)
    requires g.Valid()
    modifies g
    ensures g.Valid()
    ensures ok <==> MarkNode(old(SceneOf(g)), name, role, sep).Some?
    ensures ok ==> SceneOf(g) == MarkNode(old(SceneOf(g)), name, role, sep).value
    ensures !ok ==> SceneOf(g) == old(SceneOf(g))
  {
    if name in g.nodes {
      SetNodeStyle(g, name, role);
      return true;
    }
    var parts := Split(name, sep);
    ghost var whole := Prefixed(parts);
    var cur: seq<string> := [];
    var i := 0;
    while i < |parts|
      invariant 0 <= i <= |parts|
      invariant cur == whole[..i]
      invariant i == 0 || cur in g.clusters
      invariant unchanged(g)
    {
      var next := cur + ["cluster_" + parts[i]];
      assert next == whole[..i + 1];
      if next !in g.clusters {
        if whole in g.clusters {
          AncestorsPresent(g.clusters, whole, i + 1);
        }
        return false;
      }
      cur := next;
      i := i + 1;
    }
    assert cur == whole;
    SetGraphStyle(g, cur, role);
    ok := true;
  }

  // ---------------------------------------------------------------------
  // Marking an edge.

  /** `add_edge(u, v, key)`: missing ends become top-level nodes; the new edge has no attributes. */
  function BareEdge(sc: Scene, u: string, v: string): Scene {
    sc.(nodes := WithKey(WithKey(sc.nodes, u, map[]), v, map[]),
        placement := WithKey(WithKey(sc.placement, u, []), v, []),
        edges := sc.edges[(u, v) := map[]])
  }

  /**
   * `set_edge_state` on values. With auto-transitions hidden a missing edge
   * is created first; a missing edge otherwise makes the lookup fail. Every
   * edge is then reset and the edge (u, v) given `role`.
   */
  function MarkEdge(sc: Scene, u: string, v: string, role: EdgeRole, showAuto: bool): (r: Option<Scene>)
    ensures r.Some? <==> !showAuto || (u, v) in sc.edges
    ensures r.Some? ==> r.value.edges.Keys == sc.edges.Keys + {(u, v)} && r.value.clusters == sc.clusters
  {
    var sc1 := if !showAuto && (u, v) !in sc.edges then BareEdge(sc, u, v) else sc;
    if (u, v) !in sc1.edges then None
    else
      var reset := ResetEdges(sc1.edges);
      Some(sc1.(edges := reset[(u, v) := Update(reset[(u, v)], EdgeStyle(role))]))
  }

  /**
   * After marking, the edge (u, v) alone bears `role` and every other edge
   * the default style; no edge loses a key the edge styles do not set.
   */
  lemma MarkEdgeRoles(sc: Scene, u: string, v: string, role: EdgeRole, showAuto: bool)
    requires MarkEdge(sc, u, v, role, showAuto).Some?
    ensures var r := MarkEdge(sc, u, v, role, showAuto).value;
      && (forall e :: e in r.edges ==> Bears(r.edges[e], EdgeStyle(if e == (u, v) then role else EdgeDefault)))
      && (forall e, k :: e in sc.edges && k in sc.edges[e] && k !in EdgeStyle(EdgeDefault) ==>
            k in r.edges[e] && r.edges[e][k] == sc.edges[e][k])
  {
    if !showAuto && (u, v) !in sc.edges {
      RestyledEdges(sc.edges[(u, v) := map[]], (u, v), role);
    } else {
      RestyledEdges(sc.edges, (u, v), role);
    }
  }

  /** The edge map after every edge is reset and `uv` is given `role`. */
  lemma RestyledEdges(edges: map<Edge, Attrs>, uv: Edge, role: EdgeRole)
    requires uv in edges
    ensures var reset := ResetEdges(edges);
      var r := reset[uv := Update(reset[uv], EdgeStyle(role))];
      && (forall e :: e in r ==> Bears(r[e], EdgeStyle(if e == uv then role else EdgeDefault)))
      && (forall e, k :: e in edges && k in edges[e] && k !in EdgeStyle(EdgeDefault) ==>
            k in r[e] && r[e][k] == edges[e][k])
  {
    var reset := ResetEdges(edges);
    forall e, k | e in edges && k in edges[e] && k !in EdgeStyle(EdgeDefault)
      ensures k in reset[e] && reset[e][k] == edges[e][k] && k !in EdgeStyle(role)
    {
      assert EdgeStyle(role).Keys == EdgeStyle(EdgeDefault).Keys;
    }
  }

  /** Marking an edge keeps every node as it was; a node it creates has no attributes of its own. */
  lemma MarkEdgeNodes(sc: Scene, u: string, v: string, role: EdgeRole, showAuto: bool)
    requires MarkEdge(sc, u, v, role, showAuto).Some?
    ensures var r := MarkEdge(sc, u, v, role, showAuto).value;
      && sc.nodes.Keys <= r.nodes.Keys
      && (forall n :: n in sc.nodes ==> r.nodes[n] == sc.nodes[n])
      && (forall n :: n in r.nodes && n !in sc.nodes ==> r.nodes[n] == map[])
  {
    if !showAuto && (u, v) !in sc.edges {
      var m1 := WithKey(sc.nodes, u, map[]);
      var m2 := WithKey(m1, v, map[]);
      assert MarkEdge(sc, u, v, role, showAuto).value.nodes == m2;
      forall n | n in m2 && n !in sc.nodes
        ensures m2[n] == map[]
      {
        if n in m1 {
          assert m1[n] == map[];
        }
      }
    }
  }

  /** On a graph whose edges join nodes, both ends of a marked edge are nodes afterwards. */
  lemma MarkEdgeEnds(sc: Scene, u: string, v: string, role: EdgeRole, showAuto: bool)
    requires Closed(sc) && MarkEdge(sc, u, v, role, showAuto).Some?
    ensures var r := MarkEdge(sc, u, v, role, showAuto).value;
      u in r.nodes && v in r.nodes
  {
    MarkEdgeNodes(sc, u, v, role, showAuto);
    if !(!showAuto && (u, v) !in sc.edges) {
      assert (u, v) in sc.edges;
    }
  }

  /** The edges with those outside `todo` reset. */
  function ResetEdgesExcept(edges: map<Edge, Attrs>, todo: set<Edge>): map<Edge, Attrs> {
    map e | e in edges :: if e in todo then edges[e] else Update(edges[e], EdgeStyle(EdgeDefault))
  }

  lemma ResetEdgeStep(edges: map<Edge, Attrs>, todo: set<Edge>, e: Edge)
    requires e in todo && todo <= edges.Keys
    ensures ResetEdgesExcept(edges, todo)[e := Update(edges[e], EdgeStyle(EdgeDefault))] == ResetEdgesExcept(edges, todo - {e})
  {
  }

  /** `set_edge_state(graph, u, v, role, label)` */
  method SetEdgeState(g: Graph, u: string, v: string, role: EdgeRole, showAuto: bool) returns (ok: bool)
    requires g.Valid()
    modifies g
    ensures g.Valid()
    ensures ok <==> MarkEdge(old(SceneOf(g)), u, v, role, showAuto).Some?
    ensures ok ==> SceneOf(g) == MarkEdge(old(SceneOf(g)), u, v, role, showAuto).value
    ensures !ok ==> SceneOf(g) == old(SceneOf(g))
  {
    if !showAuto && (u, v) !in g.edges {
      g.AddEdge(u, v, map[]);
    }
    if (u, v) !in g.edges {
      return false;
    }
    ghost var start := SceneOf(g);
    var todo := g.edges.Keys;
    assert ResetEdgesExcept(start.edges, todo) == start.edges;
    while todo != {}
      invariant g.Valid() && todo <= start.edges.Keys
      invariant SceneOf(g) == start.(edges := ResetEdgesExcept(start.edges, todo))
      decreases todo
    {
      var e :| e in todo;
      ResetEdgeStep(start.edges, todo, e);
      SetEdgeStyle(g, e, EdgeDefault);
      todo := todo - {e};
    }
    assert ResetEdgesExcept(start.edges, {}) == ResetEdges(start.edges);
    SetEdgeStyle(g, (u, v), role);
    ok := true;
  }

  // ---------------------------------------------------------------------
  // The transition hook.

  /**
   * `_change_state` on values: look up the destination; reset every node;
   * with a source, mark the source `previous`, descend both ends to their
   * first leaves and mark the edge between them; finally mark the
   * (descended, when there is a source) destination `active`.
   */
  function Change(d: Definition, cfg: Config, sc: Scene, source: Option<string>, dest: string): (r: Option<Scene>)
    ensures r.Some? ==> GetState(d.states, dest).Some?
    ensures r.Some? && source.Some? ==> GetState(d.states, source.value).Some?
  {
    match GetState(d.states, dest)
    case None => None
    case Some(dst) =>
      var reset := sc.(nodes := ResetAll(sc.nodes));
      if source.None? then MarkNode(reset, dst.name, Active, cfg.separator)
      else match GetState(d.states, source.value)
        case None => None
        case Some(src) => Fire(cfg, reset, src, dst)
  }

  /** The part of the hook that runs when there is a source state `src`. */
  function Fire(cfg: Config, sc: Scene, src: State, dst: State): (r: Option<Scene>)
    ensures r.Some? ==> (FirstLeaf(src).name, FirstLeaf(dst).name) in r.value.edges
  {
    match MarkNode(sc, src.name, Previous, cfg.separator)
    case None => None
    case Some(marked) =>
      match MarkEdge(marked, FirstLeaf(src).name, FirstLeaf(dst).name, EdgePrevious, cfg.showAutoTransitions)
      case None => None
      case Some(fired) => MarkNode(fired, FirstLeaf(dst).name, Active, cfg.separator)
  }

  /** The node the hook marks `active`: the destination, descended to its first leaf when there is a source. */
  function Target(d: Definition, source: Option<string>, dest: string): string
    requires GetState(d.states, dest).Some?
  {
    var dst := GetState(d.states, dest).value;
    if source.Some? then FirstLeaf(dst).name else dst.name
  }

  /**
   * The node the hook marks `previous`: the source state, when there is one
   * and it is drawn as a node (a composite source marks its cluster instead).
   */
  function Former(d: Definition, sc: Scene, source: Option<string>): Option<string> {
    if source.Some? && GetState(d.states, source.value).Some? && GetState(d.states, source.value).value.name in sc.nodes
    then Some(GetState(d.states, source.value).value.name)
    else None
  }

  /** The role node `n` last received. */
  function RoleOf(n: string, active: Option<string>, previous: Option<string>): Role {
    if active == Some(n) then Active else if previous == Some(n) then Previous else Default
  }

  /** Each node shows the role it was last given: the one marked, the former one, or default. */
  ghost predicate NodesShow(nodes: map<string, Attrs>, active: Option<string>, previous: Option<string>) {
    forall n :: n in nodes ==> Bears(NodeStyle(Default) + nodes[n], NodeStyle(RoleOf(n, active, previous)))
  }

  /** A node given a role shows it, whatever it showed before. */
  lemma UpdateShows(a: Attrs, role: Role)
    ensures Bears(NodeStyle(Default) + Update(a, NodeStyle(role)), NodeStyle(role))
  {
  }

  /** Giving one node a role keeps every other node showing what it showed. */
  lemma RestyleShows(nodes: map<string, Attrs>, name: string, role: Role,
                     active: Option<string>, previous: Option<string>, active2: Option<string>, previous2: Option<string>)
    requires name in nodes && NodesShow(nodes, active, previous)
    requires RoleOf(name, active2, previous2) == role
    requires forall n :: n != name ==> RoleOf(n, active2, previous2) == RoleOf(n, active, previous)
    ensures NodesShow(nodes[name := Update(nodes[name], NodeStyle(role))], active2, previous2)
  {
    var r := nodes[name := Update(nodes[name], NodeStyle(role))];
    forall n | n in r
      ensures Bears(NodeStyle(Default) + r[n], NodeStyle(RoleOf(n, active2, previous2)))
    {
      if n == name {
        UpdateShows(nodes[n], role);
      } else {
        assert r[n] == nodes[n];
      }
    }
  }

  /** Marking the source `previous` on a reset diagram: the source's node, if it is one, shows it. */
  lemma MarkPreviousShows(sc: Scene, name: string, sep: char)
    requires NodesShow(sc.nodes, None, None) && MarkNode(sc, name, Previous, sep).Some?
    ensures NodesShow(MarkNode(sc, name, Previous, sep).value.nodes, None, if name in sc.nodes then Some(name) else None)
  {
    if name in sc.nodes {
      RestyleShows(sc.nodes, name, Previous, None, None, None, Some(name));
    }
  }

  /** Marking a node `active` makes it the active one and leaves the others as they were. */
  lemma MarkActiveShows(sc: Scene, name: string, sep: char, previous: Option<string>)
    requires NodesShow(sc.nodes, None, previous) && MarkNode(sc, name, Active, sep).Some?
    ensures NodesShow(MarkNode(sc, name, Active, sep).value.nodes, Some(name), previous)
  {
    if name in sc.nodes {
      RestyleShows(sc.nodes, name, Active, None, previous, Some(name), previous);
    } else {
      assert MarkNode(sc, name, Active, sep).value.nodes == sc.nodes;
      forall n | n in sc.nodes
        ensures Bears(NodeStyle(Default) + sc.nodes[n], NodeStyle(RoleOf(n, Some(name), previous)))
      {
        assert RoleOf(n, Some(name), previous) == RoleOf(n, None, previous);
      }
    }
  }

  /** New nodes without attributes of their own show the default style. */
  lemma {:induction false} BlankAddedShows(nodes: map<string, Attrs>, nodes2: map<string, Attrs>, previous: Option<string>)
    requires NodesShow(nodes, None, previous)
    requires previous.Some? ==> previous.value in nodes
    requires nodes.Keys <= nodes2.Keys
    requires forall n :: n in nodes ==> nodes2[n] == nodes[n]
    requires forall n :: n in nodes2 && n !in nodes ==> nodes2[n] == map[]
    ensures NodesShow(nodes2, None, previous)
  {
    forall n | n in nodes2
      ensures Bears(NodeStyle(Default) + nodes2[n], NodeStyle(RoleOf(n, None, previous)))
    {
      if n !in nodes {
        assert NodeStyle(Default) + nodes2[n] == NodeStyle(Default);
      }
    }
  }

  lemma MarkEdgeShows(sc: Scene, u: string, v: string, role: EdgeRole, showAuto: bool, previous: Option<string>)
    requires NodesShow(sc.nodes, None, previous) && MarkEdge(sc, u, v, role, showAuto).Some?
    requires previous.Some? ==> previous.value in sc.nodes
    ensures NodesShow(MarkEdge(sc, u, v, role, showAuto).value.nodes, None, previous)
  {
    MarkEdgeNodes(sc, u, v, role, showAuto);
    BlankAddedShows(sc.nodes, MarkEdge(sc, u, v, role, showAuto).value.nodes, previous);
  }

  /** The roles after the source part of the hook. */
  lemma FireNodes(cfg: Config, reset: Scene, src: State, dst: State)
    requires NodesShow(reset.nodes, None, None) && Fire(cfg, reset, src, dst).Some?
    ensures NodesShow(Fire(cfg, reset, src, dst).value.nodes, Some(FirstLeaf(dst).name),
                      if src.name in reset.nodes then Some(src.name) else None)
  {
    var prev := if src.name in reset.nodes then Some(src.name) else None;
    var u, v := FirstLeaf(src).name, FirstLeaf(dst).name;
    var m1 := MarkNode(reset, src.name, Previous, cfg.separator);
    assert m1.Some?;
    var marked := m1.value;
    var m2 := MarkEdge(marked, u, v, EdgePrevious, cfg.showAutoTransitions);
    assert m2.Some?;
    var fired := m2.value;
    assert Fire(cfg, reset, src, dst) == MarkNode(fired, v, Active, cfg.separator);
    MarkPreviousShows(reset, src.name, cfg.separator);
    assert marked.nodes.Keys == reset.nodes.Keys;
    MarkEdgeShows(marked, u, v, EdgePrevious, cfg.showAutoTransitions, prev);
    MarkActiveShows(fired, v, cfg.separator, prev);
  }

  /** The fired edge is the only edge showing `previous` after the source part of the hook. */
  lemma FireEdges(cfg: Config, reset: Scene, src: State, dst: State)
    requires Fire(cfg, reset, src, dst).Some?
    ensures var r, fired := Fire(cfg, reset, src, dst).value, (FirstLeaf(src).name, FirstLeaf(dst).name);
      && fired in r.edges
      && forall e :: e in r.edges ==> (Bears(r.edges[e], EdgeStyle(EdgePrevious)) <==> e == fired)
  {
    var marked := MarkNode(reset, src.name, Previous, cfg.separator).value;
    var u, v := FirstLeaf(src).name, FirstLeaf(dst).name;
    MarkEdgeRoles(marked, u, v, EdgePrevious, cfg.showAutoTransitions);
    var r := Fire(cfg, reset, src, dst).value;
    forall e | e in r.edges
      ensures Bears(r.edges[e], EdgeStyle(EdgePrevious)) <==> e == (u, v)
    {
      if e != (u, v) && Bears(r.edges[e], EdgeStyle(EdgePrevious)) {
        EdgeRolesExclusive(r.edges[e], EdgePrevious, EdgeDefault);
      }
    }
  }

  /** On a graph whose edges join nodes, the destination's first leaf is a node after the source part of the hook. */
  lemma FireTarget(cfg: Config, reset: Scene, src: State, dst: State)
    requires Closed(reset) && Fire(cfg, reset, src, dst).Some?
    ensures FirstLeaf(dst).name in Fire(cfg, reset, src, dst).value.nodes
  {
    var marked := MarkNode(reset, src.name, Previous, cfg.separator).value;
    assert Closed(marked);
    var u, v := FirstLeaf(src).name, FirstLeaf(dst).name;
    MarkEdgeEnds(marked, u, v, EdgePrevious, cfg.showAutoTransitions);
  }

  /** With every node showing its last role, the active one is unique. */
  lemma OneActive(nodes: map<string, Attrs>, target: string, previous: Option<string>)
    requires NodesShow(nodes, Some(target), previous)
    ensures forall n :: n in nodes ==> (Bears(NodeStyle(Default) + nodes[n], NodeStyle(Active)) <==> n == target)
  {
    forall n | n in nodes
      ensures Bears(NodeStyle(Default) + nodes[n], NodeStyle(Active)) <==> n == target
    {
      if n != target && Bears(NodeStyle(Default) + nodes[n], NodeStyle(Active)) {
        NodeRolesExclusive(NodeStyle(Default) + nodes[n], Active, RoleOf(n, Some(target), previous));
      }
    }
  }

  /** After a reset every node shows the default style. */
  lemma ResetShows(nodes: map<string, Attrs>)
    ensures NodesShow(ResetAll(nodes), None, None)
  {
    forall n | n in ResetAll(nodes)
      ensures Bears(NodeStyle(Default) + ResetAll(nodes)[n], NodeStyle(RoleOf(n, None, None)))
    {
      UpdateShows(nodes[n], Default);
    }
  }

  /**
   * After the hook, every node shows the role it was last given: the node it
   * marks `active` shows the active style, the source's node (when the source
   * is a node other than that one) `previous`, and every other node the
   * default, so the active node is the only one showing the active style.
   */
  lemma ChangeNodeRoles(d: Definition, cfg: Config, sc: Scene, source: Option<string>, dest: string)
    requires Change(d, cfg, sc, source, dest).Some?
    ensures GetState(d.states, dest).Some?
    ensures NodesShow(Change(d, cfg, sc, source, dest).value.nodes, Some(Target(d, source, dest)), Former(d, sc, source))
  {
    var dst := GetState(d.states, dest).value;
    var reset := sc.(nodes := ResetAll(sc.nodes));
    ResetShows(sc.nodes);
    if source.None? {
      MarkActiveShows(reset, dst.name, cfg.separator, None);
    } else {
      var src := GetState(d.states, source.value).value;
      FireNodes(cfg, reset, src, dst);
    }
  }

  /**
   * After the hook the active node is unique; with a source, the fired edge
   * (between the first leaves of source and destination) is the only edge
   * showing `previous`. The target is a node afterwards, so exactly one
   * node is active, whenever there is a source (on a graph whose edges join
   * nodes) or the destination is drawn as a node; a composite destination
   * without a source marks its cluster, and then no node is active.
   */
  lemma ChangeRoles(d: Definition, cfg: Config, sc: Scene, source: Option<string>, dest: string)
    requires Change(d, cfg, sc, source, dest).Some?
    ensures GetState(d.states, dest).Some?
    ensures var r, target := Change(d, cfg, sc, source, dest).value, Target(d, source, dest);
      forall n :: n in r.nodes ==> (Bears(NodeStyle(Default) + r.nodes[n], NodeStyle(Active)) <==> n == target)
    ensures source.Some? ==> GetState(d.states, source.value).Some?
    ensures source.Some? ==>
      var r := Change(d, cfg, sc, source, dest).value;
      var fired := (FirstLeaf(GetState(d.states, source.value).value).name, FirstLeaf(GetState(d.states, dest).value).name);
      && fired in r.edges
      && forall e :: e in r.edges ==> (Bears(r.edges[e], EdgeStyle(EdgePrevious)) <==> e == fired)
    ensures source.Some? && Closed(sc) ==> Target(d, source, dest) in Change(d, cfg, sc, source, dest).value.nodes
    ensures source.None? ==> (Target(d, source, dest) in Change(d, cfg, sc, source, dest).value.nodes <==> Target(d, source, dest) in sc.nodes)
  {
    ChangeNodeRoles(d, cfg, sc, source, dest);
    OneActive(Change(d, cfg, sc, source, dest).value.nodes, Target(d, source, dest), Former(d, sc, source));
    if source.Some? {
      var dst := GetState(d.states, dest).value;
      var src := GetState(d.states, source.value).value;
      FireEdges(cfg, sc.(nodes := ResetAll(sc.nodes)), src, dst);
      if Closed(sc) {
        FireTarget(cfg, sc.(nodes := ResetAll(sc.nodes)), src, dst);
      }
    }
  }

  /** `after` is what the transition hook leaves of `before`, and `ok` says whether it got through. */
  ghost predicate Moved(d: Definition, cfg: Config, before: Scene, source: Option<string>, dest: string,
                        ok: bool, after: Scene) {
    && (ok <==> Change(d, cfg, before, source, dest).Some?)
    && (ok ==> after == Change(d, cfg, before, source, dest).value)
  }

  /**
   * `TransitionGraphSupport._change_state(event_data)` on the model's graph.
   * A failed lookup stops the hook where it happens.
   */
  method ChangeState(d: Definition, cfg: Config, g: Graph, source: Option<string>, dest: string) returns (ok: bool)
    requires g.Valid()
    modifies g
    ensures g.Valid()
    ensures Moved(d, cfg, old(SceneOf(g)), source, dest, ok, SceneOf(g))
  {
    var found := GetState(d.states, dest);
    if found.None? {
      return false;
    }
    var dst := found.value;
    ResetNodes(g);
    ghost var reset := SceneOf(g);
    if source.None? {
      ok := SetNodeState(g, dst.name, Active, cfg.separator);
      return;
    }
    var foundSrc := GetState(d.states, source.value);
    if foundSrc.None? {
      return false;
    }
    var src := foundSrc.value;
    assert Change(d, cfg, old(SceneOf(g)), source, dest) == Fire(cfg, reset, src, dst);
    ok := SetNodeState(g, src.name, Previous, cfg.separator);
    if !ok {
      return;
    }
    src := DescendToLeaf(src);
    dst := DescendToLeaf(dst);
    ok := SetEdgeState(g, src.name, dst.name, EdgePrevious, cfg.showAutoTransitions);
    if !ok {
      return;
    }
    ok := SetNodeState(g, dst.name, Active, cfg.separator);
  }
}
